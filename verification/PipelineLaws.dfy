/** What a submission guarantees: one result per invoice in input order, and exactly the serials
    it needs, each drawn only after every earlier chunk has been answered.
 */
module PipelineLaws {
  import opened Results
  import opened TaxId
  import opened CounterFile
  import opened Pipeline

  // ---- The expected course of a submission ---------------------------------------------------------

  /** How many of the first `n` invoices need a serial. */
  function Blanks(invoices: seq<Invoice>, n: nat): nat
    requires n <= |invoices|
  {
    if n == 0 then 0 else Blanks(invoices, n - 1) + if IsBlank(invoices[n - 1]) then 1 else 0
  }

  /** The last serial issued before the submission. */
  function Level(file: Contents): nat
  {
    if ReadContents(file).Ok? then ReadContents(file).value else 0
  }

  function SerialAt(file: Contents, invoices: seq<Invoice>, i: nat): nat
    requires i < |invoices|
  {
    Level(file) + Blanks(invoices, i + 1)
  }

  function FileAt(file: Contents, invoices: seq<Invoice>, n: nat): Contents
    requires n <= |invoices|
  {
    if Blanks(invoices, n) == 0 then file else Number(Level(file) + Blanks(invoices, n))
  }

  function AnswerBefore(n: nat): seq<Event>
  {
    if n > 0 && n % MAX_PACKETS == 0 then [Answered(n - MAX_PACKETS)] else []
  }

  function DrawAt(file: Contents, invoices: seq<Invoice>, i: nat): seq<Event>
    requires i < |invoices|
  {
    if IsBlank(invoices[i]) then [Drew(i, SerialAt(file, invoices, i))] else []
  }

  /** What has happened once the first `n` invoices have been built. */
  function Trace(file: Contents, invoices: seq<Invoice>, n: nat): seq<Event>
    requires n <= |invoices|
    decreases n, 0
  {
    if n == 0 then [] else Before(file, invoices, n - 1) + DrawAt(file, invoices, n - 1)
  }

  /** What has happened just before invoice `n` is built: a chunk that ends there is answered. */
  function Before(file: Contents, invoices: seq<Invoice>, n: nat): seq<Event>
    requires n <= |invoices|
    decreases n, 1
  {
    Trace(file, invoices, n) + AnswerBefore(n)
  }

  /** The invoice as sent: with an identity of its own serial where it had none. */
  ghost predicate IsComplete(cfg: Config, file: Contents, invoices: seq<Invoice>, i: nat, sent: Invoice)
    requires i < |invoices|
  {
    if IsBlank(invoices[i]) then Identified(cfg, invoices[i], SerialAt(file, invoices, i)) == Ok(sent)
    else sent == invoices[i]
  }

  ghost predicate Passes(cfg: Config, invoice: Invoice)
  {
    cfg.validate ==> cfg.valid(invoice)
  }

  ghost predicate AllPass(cfg: Config, invoices: seq<Invoice>, n: nat)
    requires n <= |invoices|
  {
    forall i | 0 <= i < n :: Passes(cfg, invoices[i])
  }

  ghost predicate PacketsRight(cfg: Config, file: Contents, invoices: seq<Invoice>, start: nat, packets: seq<Packet>)
    requires start + |packets| <= |invoices|
  {
    forall k | 0 <= k < |packets| ::
      packets[k].uid == cfg.uid(start + k) && IsComplete(cfg, file, invoices, start + k, packets[k].invoice)
  }

  function PlaceInChunk(i: nat): (offset: nat)
    ensures offset <= i && offset == i % MAX_PACKETS
  {
    i % MAX_PACKETS
  }

  /** The result of invoice `i`: its packet went out in the chunk it belongs to, and the answer to
      that chunk holds what is reported for its uid. */
  ghost predicate IsResult(
    cfg: Config, file: Contents, invoices: seq<Invoice>, i: nat, r: Submission, packets: seq<Packet>)
    requires i < |invoices|
  {
    var offset := PlaceInChunk(i);
    && offset < |packets| <= MAX_PACKETS && packets[offset].uid == cfg.uid(i)
    && IsComplete(cfg, file, invoices, i, packets[offset].invoice)
    && cfg.respond(i - offset, packets).Some?
    && r == Submission(cfg.uid(i), packets[offset].invoice.taxid,
                       ResultFor(cfg.respond(i - offset, packets).value, cfg.uid(i)))
  }

  ghost predicate HasResult(cfg: Config, file: Contents, invoices: seq<Invoice>, i: nat, r: Submission)
    requires i < |invoices|
  {
    exists packets :: IsResult(cfg, file, invoices, i, r, packets)
  }

  ghost predicate ResultsRight(cfg: Config, file: Contents, invoices: seq<Invoice>, results: seq<Submission>)
    requires |results| <= |invoices|
  {
    forall i | 0 <= i < |results| :: HasResult(cfg, file, invoices, i, results[i])
  }

  /** A session with no exception, in the chunk from `start`, with everything before `n` built. */
  ghost predicate OnCourse(
    cfg: Config, file: Contents, invoices: seq<Invoice>, start: nat, n: nat, events: seq<Event>, s: Session)
    requires start <= n <= |invoices|
  {
    && s.fault.None? && s.file == FileAt(file, invoices, n) && s.events == events
    && AllPass(cfg, invoices, n) && (Blanks(invoices, n) > 0 ==> ReadContents(file).Ok?)
    && |s.packets| == n - start && PacketsRight(cfg, file, invoices, start, s.packets)
    && |s.results| == start && ResultsRight(cfg, file, invoices, s.results)
  }

  /** Invoice `k` stopped the submission before it drew a serial, or just after. */
  ghost predicate StoppedAt(cfg: Config, file: Contents, invoices: seq<Invoice>, k: nat, s: Session)
    requires k < |invoices|
  {
    && AllPass(cfg, invoices, k)
    && match s.fault
       case Some(InvalidInvoice) =>
         !Passes(cfg, invoices[k]) && s.events == Before(file, invoices, k) && s.file == FileAt(file, invoices, k)
       case Some(NoSerial(why)) =>
         && IsBlank(invoices[k]) && NextSerial(s.file) == Err(why)
         && s.events == Before(file, invoices, k) && s.file == FileAt(file, invoices, k)
       case Some(NoTaxId(why)) =>
         && IsBlank(invoices[k]) && Identified(cfg, invoices[k], SerialAt(file, invoices, k)) == Err(why)
         && s.events == Before(file, invoices, k) + DrawAt(file, invoices, k) && s.file == FileAt(file, invoices, k + 1)
       case _ => false
  }

  // ---- Building -----------------------------------------------------------------------------------------

  lemma NextIsSerialAt(file: Contents, invoices: seq<Invoice>, i: nat)
    requires i < |invoices| && IsBlank(invoices[i])
    requires Blanks(invoices, i) > 0 ==> ReadContents(file).Ok?
    requires NextSerial(FileAt(file, invoices, i)).Ok?
    ensures NextSerial(FileAt(file, invoices, i)) == Ok(SerialAt(file, invoices, i)) && ReadContents(file).Ok?
  {
  }

  lemma BuildOnCourse(cfg: Config, file: Contents, invoices: seq<Invoice>, start: nat, i: nat, s: Session)
    requires start <= i < |invoices| && OnCourse(cfg, file, invoices, start, i, Before(file, invoices, i), s)
    ensures var t := Build(cfg, invoices[i], i, s);
      if t.fault.None? then OnCourse(cfg, file, invoices, start, i + 1, Trace(file, invoices, i + 1), t)
      else StoppedAt(cfg, file, invoices, i, t)
  {
    hide GenerateTaxId, Identified, Before, ResultsRight, PacketsRight;
    var t := Build(cfg, invoices[i], i, s);
    if IsBlank(invoices[i]) && NextSerial(s.file).Ok? {
      NextIsSerialAt(file, invoices, i);
    }
    if t.fault.None? {
      assert IsComplete(cfg, file, invoices, i, t.packets[|s.packets|].invoice);
      PacketsGrow(cfg, file, invoices, start, s.packets, t.packets[|s.packets|]);
      assert AllPass(cfg, invoices, i + 1);
    }
  }

  lemma PacketsGrow(
    cfg: Config, file: Contents, invoices: seq<Invoice>, start: nat, packets: seq<Packet>, packet: Packet)
    requires start + |packets| < |invoices| && PacketsRight(cfg, file, invoices, start, packets)
    requires packet.uid == cfg.uid(start + |packets|)
    requires IsComplete(cfg, file, invoices, start + |packets|, packet.invoice)
    ensures PacketsRight(cfg, file, invoices, start, packets + [packet])
  {
    hide IsComplete;
  }

  /** Inside a chunk nothing is answered. */
  lemma NoAnswerInside(file: Contents, invoices: seq<Invoice>, start: nat, i: nat)
    requires start % MAX_PACKETS == 0 && start < i < start + MAX_PACKETS && i <= |invoices|
    ensures Before(file, invoices, i) == Trace(file, invoices, i)
  {
    assert i % MAX_PACKETS != 0;
  }

  lemma {:induction false} BuildChunk(
    cfg: Config, file: Contents, invoices: seq<Invoice>, start: nat, stop: nat, s: Session)
    requires start % MAX_PACKETS == 0 && start < stop <= start + MAX_PACKETS && stop <= |invoices|
    requires OnCourse(cfg, file, invoices, start, start, Before(file, invoices, start), s)
    ensures var t := BuildTo(cfg, invoices, start, stop, s);
      if t.fault.None? then OnCourse(cfg, file, invoices, start, stop, Trace(file, invoices, stop), t)
      else exists k :: start <= k < stop && StoppedAt(cfg, file, invoices, k, t)
    decreases stop - start
  {
    hide Build, Before, Trace, OnCourse, StoppedAt;
    if stop - 1 == start {
      BuildOnCourse(cfg, file, invoices, start, start, s);
    } else {
      BuildChunk(cfg, file, invoices, start, stop - 1, s);
      var t := BuildTo(cfg, invoices, start, stop - 1, s);
      if t.fault.None? {
        NoAnswerInside(file, invoices, start, stop - 1);
        BuildOnCourse(cfg, file, invoices, start, stop - 1, t);
      } else {
        FaultStays(cfg, invoices, start, stop - 1, stop, s);
      }
    }
  }

  // ---- Sending --------------------------------------------------------------------------------------------

  lemma PlaceOf(start: nat, i: nat)
    requires start % MAX_PACKETS == 0 && start <= i < start + MAX_PACKETS
    ensures PlaceInChunk(i) == i - start
  {
  }

  lemma NewResult(
    cfg: Config, file: Contents, invoices: seq<Invoice>, start: nat, i: nat, s: Session, r: Submission)
    requires start % MAX_PACKETS == 0 && start <= i < start + |s.packets| <= |invoices| && |s.packets| <= MAX_PACKETS
    requires PacketsRight(cfg, file, invoices, start, s.packets) && cfg.respond(start, s.packets).Some?
    requires r == Matched(s.packets, cfg.respond(start, s.packets).value)[i - start]
    ensures HasResult(cfg, file, invoices, i, r)
  {
    hide IsComplete, ResultFor;
    var offset := i - start;
    PlaceOf(start, i);
    assert s.packets[offset].uid == cfg.uid(start + offset);
    assert IsComplete(cfg, file, invoices, start + offset, s.packets[offset].invoice);
    assert IsResult(cfg, file, invoices, i, r, s.packets);
  }

  lemma SendOnCourse(cfg: Config, file: Contents, invoices: seq<Invoice>, start: nat, stop: nat, s: Session)
    requires start % MAX_PACKETS == 0 && start < stop <= start + MAX_PACKETS && stop <= |invoices|
    requires OnCourse(cfg, file, invoices, start, stop, Trace(file, invoices, stop), s)
    ensures var t := Send(cfg, start, s);
      if t.fault.None? then
        OnCourse(cfg, file, invoices, stop, stop, Trace(file, invoices, stop) + [Answered(start)], t)
      else t.fault == Some(SendingFailed) && t.events == Trace(file, invoices, stop) && t.file == s.file
    ensures Send(cfg, start, s).fault.None? ==>
      forall i | 0 <= i < start :: Send(cfg, start, s).results[i] == s.results[i]
  {
    hide Trace, Blanks, IsResult, HasResult;
    var t := Send(cfg, start, s);
    if t.fault.None? {
      assert |t.results| == stop;
      forall i | 0 <= i < |t.results|
        ensures HasResult(cfg, file, invoices, i, t.results[i])
      {
        if i < start {
          assert t.results[i] == s.results[i];
        } else {
          NewResult(cfg, file, invoices, start, i, s, t.results[i]);
        }
      }
      assert ResultsRight(cfg, file, invoices, t.results);
      assert PacketsRight(cfg, file, invoices, stop, t.packets);
      assert AllPass(cfg, invoices, stop);
      assert t.file == FileAt(file, invoices, stop);
      assert t.events == Trace(file, invoices, stop) + [Answered(start)];
    }
  }

  /** The chunk from `start` was built whole and got no answer: every serial of it is spent. */
  ghost predicate FailedChunk(cfg: Config, file: Contents, invoices: seq<Invoice>, start: nat, s: Session)
    requires start < |invoices|
  {
    var stop := ChunkEnd(invoices, start);
    && AllPass(cfg, invoices, stop) && s.events == Trace(file, invoices, stop)
    && s.file == FileAt(file, invoices, stop)
  }

  /** How a submission ends. */
  ghost predicate EndsWell(cfg: Config, file: Contents, invoices: seq<Invoice>, s: Session)
  {
    if s.fault.None? then
      && |s.results| == |invoices| && ResultsRight(cfg, file, invoices, s.results)
      && AllPass(cfg, invoices, |invoices|)
      && s.file == FileAt(file, invoices, |invoices|)
      && (invoices != [] ==> exists last ::
            last % MAX_PACKETS == 0 && last < |invoices| <= last + MAX_PACKETS
            && s.events == Trace(file, invoices, |invoices|) + [Answered(last)])
    else if s.fault == Some(SendingFailed) then
      exists start :: 0 <= start < |invoices| && start % MAX_PACKETS == 0 && FailedChunk(cfg, file, invoices, start, s)
    else exists k :: 0 <= k < |invoices| && StoppedAt(cfg, file, invoices, k, s)
  }

  lemma ChunkOnCourse(cfg: Config, file: Contents, invoices: seq<Invoice>, start: nat, s: Session)
    requires start % MAX_PACKETS == 0 && start < |invoices|
    requires OnCourse(cfg, file, invoices, start, start, Before(file, invoices, start), s)
    ensures var t := SubmitChunk(cfg, invoices, start, s);
      var stop := ChunkEnd(invoices, start);
      if t.fault.None? then
        OnCourse(cfg, file, invoices, stop, stop, Trace(file, invoices, stop) + [Answered(start)], t)
      else EndsWell(cfg, file, invoices, t)
  {
    hide BuildTo, Trace, Before, StoppedAt;
    var stop, t := ChunkEnd(invoices, start), SubmitChunk(cfg, invoices, start, s);
    BuildChunk(cfg, file, invoices, start, stop, s);
    var built := BuildTo(cfg, invoices, start, stop, s);
    if built.fault.None? {
      SendOnCourse(cfg, file, invoices, start, stop, built);
      if t.fault.Some? {
        assert FailedChunk(cfg, file, invoices, start, t);
      }
    } else {
      var k :| start <= k < stop && StoppedAt(cfg, file, invoices, k, built);
      assert built.fault != Some(SendingFailed) by { StopIsNoSendFailure(cfg, file, invoices, k, built); }
    }
  }

  lemma StopIsNoSendFailure(cfg: Config, file: Contents, invoices: seq<Invoice>, k: nat, s: Session)
    requires k < |invoices| && StoppedAt(cfg, file, invoices, k, s)
    ensures s.fault.Some? && s.fault != Some(SendingFailed)
  {
  }

  lemma SubmitEndsWell(cfg: Config, file: Contents, invoices: seq<Invoice>, start: nat, s: Session)
    requires start % MAX_PACKETS == 0 && start < |invoices|
    requires OnCourse(cfg, file, invoices, start, start, Before(file, invoices, start), s)
    ensures EndsWell(cfg, file, invoices, SubmitFrom(cfg, invoices, start, s))
    decreases |invoices| - start
  {
    hide Trace, SubmitChunk, StoppedAt;
    ChunkOnCourse(cfg, file, invoices, start, s);
    var t := SubmitChunk(cfg, invoices, start, s);
    if t.fault.None? && start + MAX_PACKETS < |invoices| {
      SubmitEndsWell(cfg, file, invoices, start + MAX_PACKETS, t);
    }
  }

  /** A submission either returns one result per invoice in input order, each with the uid drawn
      for it and the tax id of its own serial, having drawn exactly one serial per invoice that
      had no tax id; or it raises, and what stopped it says exactly which serials were drawn: for
      the first invoice that fails the rules, one for each blank invoice before it; for a chunk that
      gets no answer, one for each blank invoice up to the end of that chunk. */
  lemma SubmissionAccounts(cfg: Config, file: Contents, invoices: seq<Invoice>)
    ensures EndsWell(cfg, file, invoices, Submitted(cfg, invoices, file))
  {
    if invoices != [] {
      assert Trace(file, invoices, 0) == [];
      SubmitEndsWell(cfg, file, invoices, 0, Begin(file));
    }
  }

  // ---- Serials drawn ------------------------------------------------------------------------------------------

  function Draws(events: seq<Event>): nat
  {
    if events == [] then 0 else Draws(events[..|events| - 1]) + if events[|events| - 1].Drew? then 1 else 0
  }

  lemma {:induction false} DrawsJoin(a: seq<Event>, b: seq<Event>)
    ensures Draws(a + b) == Draws(a) + Draws(b)
  {
    if b == [] {
      assert a + b == a;
    } else {
      assert (a + b)[..|a + b| - 1] == a + b[..|b| - 1];
      DrawsJoin(a, b[..|b| - 1]);
    }
  }

  /** As many serials are drawn as there are blank invoices. */
  lemma {:induction false} TraceDraws(file: Contents, invoices: seq<Invoice>, n: nat)
    requires n <= |invoices|
    ensures Draws(Trace(file, invoices, n)) == Blanks(invoices, n) == Draws(Before(file, invoices, n))
    decreases n
  {
    hide *;
    TraceUnfolds(file, invoices, n);
    DrawsJoin(Trace(file, invoices, n), AnswerBefore(n));
    if n > 0 {
      TraceDraws(file, invoices, n - 1);
      DrawsJoin(Before(file, invoices, n - 1), DrawAt(file, invoices, n - 1));
    }
  }

  lemma TraceUnfolds(file: Contents, invoices: seq<Invoice>, n: nat)
    requires n <= |invoices|
    ensures Before(file, invoices, n) == Trace(file, invoices, n) + AnswerBefore(n) && Draws(AnswerBefore(n)) == 0
    ensures n == 0 ==> Draws(Trace(file, invoices, n)) == Blanks(invoices, n) == 0
    ensures n > 0 ==>
      && Trace(file, invoices, n) == Before(file, invoices, n - 1) + DrawAt(file, invoices, n - 1)
      && Blanks(invoices, n) == Blanks(invoices, n - 1) + Draws(DrawAt(file, invoices, n - 1))
  {
    hide SerialAt;
  }

  lemma {:induction false} AnsweredBefore(file: Contents, invoices: seq<Invoice>, n: nat, start: nat)
    requires n <= |invoices| && start % MAX_PACKETS == 0 && start + MAX_PACKETS <= n
    ensures Answered(start) in Before(file, invoices, n)
    decreases n
  {
    if start + MAX_PACKETS < n {
      AnsweredBefore(file, invoices, n - 1, start);
    } else {
      var b := Before(file, invoices, n);
      assert b[|b| - 1] == Answered(start);
    }
  }

  /** No serial is drawn for a chunk before every earlier chunk was answered. */
  lemma {:induction false} DrawnAfterAnswers(file: Contents, invoices: seq<Invoice>, n: nat, j: nat, start: nat)
    requires n <= |invoices| && j < |Trace(file, invoices, n)| && Trace(file, invoices, n)[j].Drew?
    requires start % MAX_PACKETS == 0 && start + MAX_PACKETS <= Trace(file, invoices, n)[j].place
    ensures Answered(start) in Trace(file, invoices, n)[..j]
    decreases n
  {
    var b := Before(file, invoices, n - 1);
    var t := Trace(file, invoices, n);
    if j >= |b| {
      assert j == |b| && t[..j] == b;
      AnsweredBefore(file, invoices, n - 1, start);
    } else {
      var inner := Trace(file, invoices, n - 1);
      assert j < |inner| && t[j] == inner[j];
      assert t[..j] == inner[..j];
      DrawnAfterAnswers(file, invoices, n - 1, j, start);
    }
  }

  // ---- The order of a response ------------------------------------------------------------------------------------

  /** No two answers to a packet that was sent contradict each other. */
  ghost predicate Agree(packets: seq<Packet>, answers: seq<SubmitResult>)
  {
    forall p, i, j | 0 <= p < |packets| && 0 <= i < |answers| && 0 <= j < |answers| ::
      packets[p].uid == answers[i].uid == answers[j].uid ==> answers[i] == answers[j]
  }

  ghost predicate Permutes(packets: seq<Packet>, a: Option<seq<SubmitResult>>, b: Option<seq<SubmitResult>>)
  {
    match (a, b)
    case (Some(x), Some(y)) => multiset(x) == multiset(y) && Agree(packets, x)
    case (None, None) => true
    case _ => false
  }

  lemma {:induction false} ResultForIsMember(answers: seq<SubmitResult>, uid: string)
    ensures match ResultFor(answers, uid)
      case Some(r) => r.uid == uid && r in answers
      case None => forall i | 0 <= i < |answers| :: answers[i].uid != uid
  {
    if answers != [] {
      ResultForIsMember(answers[..|answers| - 1], uid);
    }
  }

  lemma AgreedResult(packets: seq<Packet>, a: seq<SubmitResult>, b: seq<SubmitResult>, p: nat)
    requires multiset(a) == multiset(b) && Agree(packets, a) && p < |packets|
    ensures ResultFor(a, packets[p].uid) == ResultFor(b, packets[p].uid)
  {
    var uid := packets[p].uid;
    ResultForIsMember(a, uid);
    ResultForIsMember(b, uid);
    SameMembers(a, b);
    hide ResultFor;
    assert forall i | 0 <= i < |a| :: a[i] in a;
    assert forall i | 0 <= i < |b| :: b[i] in b;
  }

  lemma SameMembers(a: seq<SubmitResult>, b: seq<SubmitResult>)
    requires multiset(a) == multiset(b)
    ensures forall x :: x in a <==> x in b
  {
    assert forall x :: x in a <==> x in multiset(a);
    assert forall x :: x in b <==> x in multiset(b);
  }

  /** The answers with the one at place `i` listed last. */
  function MovedLast(a: seq<SubmitResult>, i: nat): (b: seq<SubmitResult>)
    requires i < |a|
    ensures multiset(b) == multiset(a) && ResultFor(b, a[i].uid) == Some(a[i])
  {
    assert a == a[..i] + [a[i]] + a[i + 1..];
    a[..i] + a[i + 1..] + [a[i]]
  }

  /** Matching a response ignores its order exactly when no two answers to a packet contradict
      each other; otherwise the one listed last wins. */
  lemma MatchedIgnoresOrderIff(packets: seq<Packet>, a: seq<SubmitResult>)
    ensures (forall b | multiset(b) == multiset(a) :: Matched(packets, b) == Matched(packets, a)) <==> Agree(packets, a)
  {
    if Agree(packets, a) {
      forall b | multiset(b) == multiset(a)
        ensures Matched(packets, b) == Matched(packets, a)
      {
        MatchedIgnoresOrder(packets, a, b);
      }
    }
    if forall b | multiset(b) == multiset(a) :: Matched(packets, b) == Matched(packets, a) {
      forall p, i, j | 0 <= p < |packets| && 0 <= i < |a| && 0 <= j < |a| && packets[p].uid == a[i].uid == a[j].uid
        ensures a[i] == a[j]
      {
        assert Matched(packets, MovedLast(a, i))[p] == Matched(packets, MovedLast(a, j))[p];
      }
    }
  }

  lemma MatchedIgnoresOrder(packets: seq<Packet>, a: seq<SubmitResult>, b: seq<SubmitResult>)
    requires multiset(a) == multiset(b) && Agree(packets, a)
    ensures Matched(packets, a) == Matched(packets, b)
  {
    forall p | 0 <= p < |packets|
      ensures Matched(packets, a)[p] == Matched(packets, b)[p]
    {
      AgreedResult(packets, a, b, p);
    }
  }

  /** The results of a submission do not depend on the order in which any response lists them. */
  lemma SubmissionIgnoresOrder(
    cfg: Config, invoices: seq<Invoice>, start: nat, s: Session,
    respond: (nat, seq<Packet>) -> Option<seq<SubmitResult>>)
    requires forall k, packets :: Permutes(packets, cfg.respond(k, packets), respond(k, packets))
    ensures SubmitFrom(cfg, invoices, start, s) == SubmitFrom(cfg.(respond := respond), invoices, start, s)
    decreases |invoices| - start
  {
    if start < |invoices| && s.fault.None? {
      var other := cfg.(respond := respond);
      var stop := ChunkEnd(invoices, start);
      BuildIgnoresResponses(cfg, other, invoices, start, stop, s);
      var built := BuildTo(cfg, invoices, start, stop, s);
      assert Permutes(built.packets, cfg.respond(start, built.packets), respond(start, built.packets));
      if built.fault.None? && cfg.respond(start, built.packets).Some? {
        MatchedIgnoresOrder(
          built.packets, cfg.respond(start, built.packets).value, respond(start, built.packets).value);
      }
      assert SubmitChunk(cfg, invoices, start, s) == SubmitChunk(other, invoices, start, s);
      SubmissionIgnoresOrder(cfg, invoices, start + MAX_PACKETS, SubmitChunk(cfg, invoices, start, s), respond);
    }
  }

  lemma {:induction false} BuildIgnoresResponses(
    cfg: Config, other: Config, invoices: seq<Invoice>, start: nat, stop: nat, s: Session)
    requires other == cfg.(respond := other.respond) && start <= stop <= |invoices|
    ensures BuildTo(cfg, invoices, start, stop, s) == BuildTo(other, invoices, start, stop, s)
    decreases stop - start
  {
    if start < stop {
      BuildIgnoresResponses(cfg, other, invoices, start, stop - 1, s);
    }
  }
}
