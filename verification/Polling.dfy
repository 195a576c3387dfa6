/** Waiting for the verdicts on submitted invoices. */
module Polling {
  import opened Results
  import opened Records
  import P = Pipeline

  const MAX_INQUIRY_IDS := 100

  datatype InquiryResult = InquiryResult(reference: string, status: Status)

  /** What the service answers in a round to one request, and how long things take beyond what
      was asked for: the delay after the wait before a round, and the time the round itself takes. */
  datatype Surroundings = Surroundings(
    answer: (nat, seq<string>) -> seq<InquiryResult>, oversleep: nat -> real, latency: nat -> real)

  ghost predicate TimePasses(env: Surroundings)
  {
    forall n: nat :: env.oversleep(n) >= 0.0 && env.latency(n) >= 0.0
  }

  // ---- One round ------------------------------------------------------------------------------

  function RequestEnd(refs: seq<string>, start: nat): nat
  {
    if start + MAX_INQUIRY_IDS < |refs| then start + MAX_INQUIRY_IDS else |refs|
  }

  /** The requests of a round, from a place on. */
  function Requests(refs: seq<string>, start: nat): seq<seq<string>>
    decreases |refs| - start
  {
    if start >= |refs| then []
    else [refs[start..RequestEnd(refs, start)]] + Requests(refs, start + MAX_INQUIRY_IDS)
  }

  function Joined<T>(parts: seq<seq<T>>): seq<T>
  {
    if parts == [] then [] else parts[0] + Joined(parts[1..])
  }

  /** The requests of a round partition the references in order: none is empty or too long. */
  lemma {:induction false} RequestsPartition(refs: seq<string>, start: nat)
    requires start <= |refs|
    ensures Joined(Requests(refs, start)) == refs[start..]
    ensures forall k | 0 <= k < |Requests(refs, start)| :: 1 <= |Requests(refs, start)[k]| <= MAX_INQUIRY_IDS
    decreases |refs| - start
  {
    if start < |refs| {
      if start + MAX_INQUIRY_IDS < |refs| {
        RequestsPartition(refs, start + MAX_INQUIRY_IDS);
      }
      assert refs[start..] == refs[start..RequestEnd(refs, start)] + refs[RequestEnd(refs, start)..];
    }
  }

  function Answers(env: Surroundings, round: nat, requests: seq<seq<string>>): seq<InquiryResult>
  {
    if requests == [] then []
    else Answers(env, round, requests[..|requests| - 1]) + env.answer(round, requests[|requests| - 1])
  }

  function Round(env: Surroundings, round: nat, refs: seq<string>): seq<InquiryResult>
  {
    Answers(env, round, Requests(refs, 0))
  }

  method Inquire(env: Surroundings, round: nat, refs: seq<string>) returns (results: seq<InquiryResult>)
    ensures results == Round(env, round, refs)
  {
    results := [];
    var start := 0;
    ghost var sent: seq<seq<string>> := [];
    while start < |refs|
      invariant results == Answers(env, round, sent)
      invariant sent + Requests(refs, start) == Requests(refs, 0)
      decreases |refs| - start
    {
      var chunk := refs[start..RequestEnd(refs, start)];
      results := results + env.answer(round, chunk);
      assert (sent + [chunk])[..|sent|] == sent;
      assert sent + ([chunk] + Requests(refs, start + MAX_INQUIRY_IDS))
          == (sent + [chunk]) + Requests(refs, start + MAX_INQUIRY_IDS);
      sent := sent + [chunk];
      start := start + MAX_INQUIRY_IDS;
    }
    assert sent + [] == sent;
  }

  function AnswersFrom(answer: string -> InquiryResult, refs: seq<string>): (r: seq<InquiryResult>)
    ensures |r| == |refs| && forall i | 0 <= i < |refs| :: r[i] == answer(refs[i])
  {
    seq(|refs|, i requires 0 <= i < |refs| => answer(refs[i]))
  }

  ghost predicate AnswersEach(env: Surroundings, round: nat, answer: string -> InquiryResult)
  {
    forall chunk: seq<string> | 1 <= |chunk| <= 100 :: env.answer(round, chunk) == AnswersFrom(answer, chunk)
  }

  lemma EachAnswered(env: Surroundings, round: nat, answer: string -> InquiryResult, chunk: seq<string>)
    requires AnswersEach(env, round, answer) && 1 <= |chunk| <= 100
    ensures env.answer(round, chunk) == AnswersFrom(answer, chunk)
  {
  }

  /** Of a service that answers every reference of a request of 1 to 100, a round gets an answer to each
      reference, in order, however many there are. */
  lemma RoundAnswersAll(env: Surroundings, round: nat, refs: seq<string>, answer: string -> InquiryResult)
    requires AnswersEach(env, round, answer)
    ensures Round(env, round, refs) == AnswersFrom(answer, refs)
  {
    RequestsPartition(refs, 0);
    assert refs[0..] == refs;
    JoinedAnswers(env, round, Requests(refs, 0), answer);
  }

  lemma {:induction false} JoinedSnoc(parts: seq<seq<string>>, last: seq<string>)
    ensures Joined(parts + [last]) == Joined(parts) + last
  {
    if parts == [] {
      assert [last][1..] == [] && [] + [last] == [last];
    } else {
      assert (parts + [last])[1..] == parts[1..] + [last];
      JoinedSnoc(parts[1..], last);
    }
  }

  lemma {:induction false} JoinedAnswers(
    env: Surroundings, round: nat, parts: seq<seq<string>>, answer: string -> InquiryResult)
    requires AnswersEach(env, round, answer)
    requires forall k | 0 <= k < |parts| :: 1 <= |parts[k]| <= 100
    ensures Answers(env, round, parts) == AnswersFrom(answer, Joined(parts))
  {
    hide *;
    if parts == [] {
      NothingAnswered(env, round, answer);
    } else {
      var front, last := parts[..|parts| - 1], parts[|parts| - 1];
      JoinedAnswers(env, round, front, answer);
      EachAnswered(env, round, answer, last);
      JoinedSnoc(front, last);
      assert parts == front + [last];
      AnswersSnoc(env, round, front, last);
      AnswersFromBoth(answer, Joined(front), last);
    }
  }

  lemma NothingAnswered(env: Surroundings, round: nat, answer: string -> InquiryResult)
    ensures Answers(env, round, []) == AnswersFrom(answer, Joined([]))
  {
  }

  lemma AnswersSnoc(env: Surroundings, round: nat, parts: seq<seq<string>>, last: seq<string>)
    ensures Answers(env, round, parts + [last]) == Answers(env, round, parts) + env.answer(round, last)
  {
    assert (parts + [last])[..|parts|] == parts;
  }

  lemma AnswersFromBoth(answer: string -> InquiryResult, a: seq<string>, b: seq<string>)
    ensures AnswersFrom(answer, a + b) == AnswersFrom(answer, a) + AnswersFrom(answer, b)
  {
  }

  // ---- Polling ---------------------------------------------------------------------------------

  predicate AnyInProgress(results: seq<InquiryResult>)
  {
    exists i | 0 <= i < |results| :: results[i].status == InProgress
  }

  function MinReal(a: real, b: real): real
  {
    if b < a then b else a
  }

  /** `asyncio.sleep`: a negative duration is none. */
  function Slept(now: real, duration: real, oversleep: real): real
  {
    now + (if duration > 0.0 then duration else 0.0) + oversleep
  }

  function References(submissions: seq<P.Submission>): seq<string>
  {
    if submissions == [] then []
    else
      var front, last := References(submissions[..|submissions| - 1]), submissions[|submissions| - 1];
      if last.result.Some? && last.result.value.reference != "" then front + [last.result.value.reference] else front
  }

  /** They are the references of the submissions that were given one, in order, and no others. */
  lemma {:induction false} ReferencesAre(submissions: seq<P.Submission>, more: seq<P.Submission>, r: string)
    ensures r in References(submissions)
       <==> r != "" && exists i :: 0 <= i < |submissions| && submissions[i].result.Some?
                                   && submissions[i].result.value.reference == r
    ensures References(submissions + more) == References(submissions) + References(more)
    decreases |submissions| + |more|
  {
    if more != [] {
      var front := more[..|more| - 1];
      ReferencesAre(submissions, front, r);
      assert (submissions + more)[..|submissions + more| - 1] == submissions + front;
    } else {
      assert submissions + more == submissions;
      if submissions != [] {
        var front, last := submissions[..|submissions| - 1], submissions[|submissions| - 1];
        ReferencesAre(front, [], r);
        assert forall i | 0 <= i < |front| :: submissions[i] == front[i];
        assert submissions[|front|] == last;
      }
    }
  }

  /** How many whole intervals, rounded up, fit in a span of time. */
  function Intervals(span: real, interval: real): nat
    requires interval > 0.0
  {
    if span <= 0.0 then 0
    else
      var q := span / interval;
      assert q > 0.0;
      if q == q.Floor as real then q.Floor else q.Floor + 1
  }

  lemma IntervalsShrink(span: real, less: real, interval: real)
    requires interval > 0.0 && span > 0.0 && (less <= span - interval || less <= 0.0)
    ensures Intervals(less, interval) + 1 <= Intervals(span, interval)
  {
    if less > 0.0 {
      QuotientStep(span, less, interval);
    }
  }

  lemma QuotientStep(span: real, less: real, interval: real)
    requires interval > 0.0 && less <= span - interval
    ensures less / interval <= span / interval - 1.0
  {
    var q := span / interval;
    assert q * interval == span;
    assert (q - 1.0) * interval == span - interval;
    QuotientIs(q - 1.0, span - interval, interval);
    DivideMonotone(less, span - interval, interval);
  }

  lemma QuotientIs(q: real, a: real, c: real)
    requires c > 0.0 && q * c == a
    ensures a / c == q
  {
  }

  lemma DivideMonotone(a: real, b: real, c: real)
    requires a <= b && c > 0.0
    ensures a / c <= b / c
  {
    assert (b - a) / c >= 0.0;
    assert b / c == a / c + (b - a) / c;
  }

  lemma IntervalsMonotone(a: real, b: real, interval: real)
    requires interval > 0.0 && a <= b
    ensures Intervals(a, interval) <= Intervals(b, interval)
  {
    if a > 0.0 {
      DivideMonotone(a, b, interval);
    }
  }

  /** Between two rounds there was time left, and the pause was the interval or what was left of it. */
  predicate PausedBetween(env: Surroundings, deadline: real, pollInterval: real, asked: seq<real>, n: nat)
    requires n + 1 < |asked|
  {
    var back := asked[n] + env.latency(n);
    var left := deadline - back;
    left > 0.0 && asked[n + 1] == back + (if left < pollInterval then left else pollInterval) + env.oversleep(n + 1)
  }

  predicate Paced(env: Surroundings, deadline: real, pollInterval: real, asked: seq<real>)
  {
    forall n | 0 <= n < |asked| - 1 :: PausedBetween(env, deadline, pollInterval, asked, n)
  }

  lemma PacedGrows(env: Surroundings, deadline: real, pollInterval: real, asked: seq<real>, last: real, next: real)
    requires Paced(env, deadline, pollInterval, asked + [last])
    requires PausedBetween(env, deadline, pollInterval, asked + [last] + [next], |asked|)
    ensures Paced(env, deadline, pollInterval, asked + [last] + [next])
  {
    var all := asked + [last] + [next];
    forall n | 0 <= n < |all| - 1
      ensures PausedBetween(env, deadline, pollInterval, all, n)
    {
      if n < |asked| {
        assert PausedBetween(env, deadline, pollInterval, asked + [last], n);
      }
    }
  }

  /** With a positive interval and time passing, polling ends: after at least one round and at
      most one more than the intervals left after the mandatory wait, with the last round's
      results, which either hold no invoice still in progress or came back after the deadline.  The first
      round comes after the mandatory wait, each other after a pause. */
  method AwaitResults(
    env: Surroundings, submissions: seq<P.Submission>, now0: real, minWait: real, pollInterval: real, timeout: real)
    returns (results: seq<InquiryResult>, rounds: nat, now: real, asked: seq<real>)
    requires TimePasses(env) && pollInterval > 0.0
    ensures References(submissions) == [] ==> results == [] && rounds == 0
    ensures References(submissions) != [] ==>
      && 1 <= rounds <= 1 + Intervals(timeout - minWait, pollInterval)
      && results == Round(env, rounds - 1, References(submissions))
      && ((exists i :: 0 <= i < |results| && results[i].status == InProgress) ==> now >= now0 + timeout)
      && forall n | 0 <= n < rounds - 1 :: AnyInProgress(Round(env, n, References(submissions)))
    ensures |asked| == rounds
    ensures rounds > 0 ==> asked[0] == now0 + (if minWait > 0.0 then minWait else 0.0) + env.oversleep(0)
    ensures Paced(env, now0 + timeout, pollInterval, asked)
  {
    now := now0;
    rounds := 0;
    asked := [];
    var refs: seq<string> := [];
    for i := 0 to |submissions|
      invariant refs == References(submissions[..i])
    {
      assert submissions[..i + 1][..i] == submissions[..i];
      if submissions[i].result.Some? && submissions[i].result.value.reference != "" {
        refs := refs + [submissions[i].result.value.reference];
      }
    }
    assert submissions[..|submissions|] == submissions;
    if refs == [] {
      return [], rounds, now, asked;
    }
    var deadline := now + timeout;
    now := Slept(now, minWait, env.oversleep(0));
    IntervalsMonotone(deadline - now, timeout - minWait, pollInterval);
    while true
      invariant rounds + Intervals(deadline - now, pollInterval) <= Intervals(timeout - minWait, pollInterval)
      invariant forall n | 0 <= n < rounds :: AnyInProgress(Round(env, n, refs))
      invariant |asked| == rounds
      invariant rounds == 0 ==> now == now0 + (if minWait > 0.0 then minWait else 0.0) + env.oversleep(0)
      invariant rounds > 0 ==> asked[0] == now0 + (if minWait > 0.0 then minWait else 0.0) + env.oversleep(0)
      invariant Paced(env, deadline, pollInterval, asked + [now])
      decreases Intervals(timeout - minWait, pollInterval) - rounds
    {
      results := Inquire(env, rounds, refs);
      ghost var start := now;
      asked := asked + [now];
      now := now + env.latency(rounds);
      IntervalsMonotone(deadline - now, deadline - start, pollInterval);
      rounds := rounds + 1;
      if !AnyInProgress(results) {
        return;
      }
      var remaining := deadline - now;
      if remaining <= 0.0 {
        return;
      }
      ghost var before := now;
      ghost var earlier := asked[..rounds - 1];
      assert asked == earlier + [asked[rounds - 1]];
      now := Slept(now, MinReal(pollInterval, remaining), env.oversleep(rounds));
      IntervalsShrink(deadline - before, deadline - now, pollInterval);
      PacedGrows(env, deadline, pollInterval, earlier, asked[rounds - 1], now);
    }
  }
}
