/** The stand-in tax service: single-use nonces, all-or-nothing batches, paged inquiries.

    Times are seconds.  Signatures and decryption are taken as judged: a packet arrives either
    refused with a code or as what it will be stored as.
 */
module MockService {
  import opened Results

  const TTL_MIN := 10
  const TTL_MAX := 200
  const MAX_PACKETS := 1000
  const MAX_INQUIRY_IDS := 100

  datatype Nonce = Nonce(expiresAt: real, used: bool)

  datatype Stored = Stored(
    reference: string, uid: string, fiscalId: string, status: string, receivedAt: real)

  datatype Packet = Refused(code: string) | Readable(stored: Stored)

  datatype Rejection =
    | NonceUnknown | NonceUsed | NonceExpired
    | EmptyBatch | TooManyPackets | BadPacket(code: string) | DuplicateUid(uid: string)
    | BadPage | BadStatus | BadWindow | NoIds | TooManyIds

  /** The issued nonces, and the submissions in the order in which they were first stored. */
  datatype Books = Books(nonces: map<string, Nonce>, submissions: seq<Stored>)

  function Lifetime(timeToLive: int): (ttl: int)
    ensures 10 <= ttl <= 200
    ensures 10 <= timeToLive <= 200 ==> ttl == timeToLive
    ensures timeToLive < 10 ==> ttl == 10
    ensures timeToLive > 200 ==> ttl == 200
  {
    if timeToLive < TTL_MIN then TTL_MIN else if timeToLive > TTL_MAX then TTL_MAX else timeToLive
  }

  function Issued(c: Books, nonce: string, timeToLive: int, now: real): Books
  {
    c.(nonces := c.nonces[nonce := Nonce(now + Lifetime(timeToLive) as real, false)])
  }

  function Fault(c: Books, nonce: string, now: real): Option<Rejection>
  {
    if nonce !in c.nonces then Some(NonceUnknown)
    else if c.nonces[nonce].used then Some(NonceUsed)
    else if c.nonces[nonce].expiresAt <= now then Some(NonceExpired)
    else None
  }

  function Burned(c: Books, nonce: string, now: real): Books
  {
    if Fault(c, nonce, now).None? then c.(nonces := c.nonces[nonce := c.nonces[nonce].(used := true)]) else c
  }

  // ---- Batches ---------------------------------------------------------------------------------------

  function Uids(stored: seq<Stored>): (uids: set<string>)
    ensures forall s | s in stored :: s.uid in uids
  {
    set i | 0 <= i < |stored| :: stored[i].uid
  }

  /** What a batch would store, or the first reason against it. */
  function Collected(already: set<string>, packets: seq<Packet>): Result<seq<Stored>, Rejection>
  {
    if packets == [] then Ok([])
    else
      var last := packets[|packets| - 1];
      match Collected(already, packets[..|packets| - 1])
      case Err(why) => Err(why)
      case Ok(accepted) =>
        match last
        case Refused(code) => Err(BadPacket(code))
        case Readable(s) =>
          if s.uid in Uids(accepted) || s.uid in already then Err(DuplicateUid(s.uid)) else Ok(accepted + [s])
  }

  /** Storing under a reference number: a new one goes to the end, a known one is replaced. */
  function Put(submissions: seq<Stored>, s: Stored): seq<Stored>
  {
    if submissions == [] then [s]
    else if submissions[0].reference == s.reference then [s] + submissions[1..]
    else [submissions[0]] + Put(submissions[1..], s)
  }

  function PutAll(submissions: seq<Stored>, accepted: seq<Stored>): seq<Stored>
  {
    if accepted == [] then submissions
    else Put(PutAll(submissions, accepted[..|accepted| - 1]), accepted[|accepted| - 1])
  }

  function BatchFault(packets: seq<Packet>): Option<Rejection>
  {
    if packets == [] then Some(EmptyBatch) else if |packets| > MAX_PACKETS then Some(TooManyPackets) else None
  }

  function Judged(c: Books, packets: seq<Packet>): Result<seq<Stored>, Rejection>
  {
    if BatchFault(packets).Some? then Err(BatchFault(packets).value)
    else Collected(Uids(c.submissions), packets)
  }

  function Filed(c: Books, packets: seq<Packet>): Books
  {
    match Judged(c, packets)
    case Ok(accepted) => c.(submissions := PutAll(c.submissions, accepted))
    case Err(_) => c
  }

  class MockState {
    var nonces: map<string, Nonce>
    var submissions: seq<Stored>

    function Contents(): Books
      reads this
    {
      Books(nonces, submissions)
    }

    constructor ()
      ensures Contents() == Books(map[], [])
    {
      nonces, submissions := map[], [];
    }

    /** The text of the nonce, a fresh random identifier, is given. */
    method IssueNonce(nonce: string, timeToLive: int, now: real)
      modifies this
      ensures Contents() == Issued(old(Contents()), nonce, timeToLive, now)
    {
      nonces := nonces[nonce := Nonce(now + Lifetime(timeToLive) as real, false)];
    }

    method ConsumeNonce(nonce: string, now: real) returns (refused: Option<Rejection>)
      modifies this
      ensures refused == Fault(old(Contents()), nonce, now)
      ensures Contents() == Burned(old(Contents()), nonce, now)
    {
      if nonce !in nonces {
        return Some(NonceUnknown);
      }
      var record := nonces[nonce];
      if record.used {
        return Some(NonceUsed);
      }
      if record.expiresAt <= now {
        return Some(NonceExpired);
      }
      nonces := nonces[nonce := record.(used := true)];
      return None;
    }

    method Invoice(packets: seq<Packet>) returns (answer: Result<seq<Stored>, Rejection>)
      modifies this
      ensures answer == Judged(old(Contents()), packets)
      ensures Contents() == Filed(old(Contents()), packets)
    {
      if packets == [] {
        return Err(EmptyBatch);
      }
      if |packets| > MAX_PACKETS {
        return Err(TooManyPackets);
      }
      answer := Collect(Uids(submissions), packets);
      if answer.Err? {
        return;
      }
      var accepted := answer.value;
      var was := submissions;
      for i := 0 to |accepted|
        modifies this
        invariant nonces == old(nonces) && submissions == PutAll(was, accepted[..i])
      {
        assert accepted[..i + 1][..i] == accepted[..i];
        submissions := Put(submissions, accepted[i]);
      }
      assert accepted[..|accepted|] == accepted;
    }
  }

  method Collect(already: set<string>, packets: seq<Packet>) returns (r: Result<seq<Stored>, Rejection>)
    ensures r == Collected(already, packets)
  {
    var seen: set<string>, accepted: seq<Stored> := {}, [];
    for i := 0 to |packets|
      invariant Collected(already, packets[..i]) == Ok(accepted) && seen == Uids(accepted)
    {
      assert packets[..i + 1][..i] == packets[..i];
      match packets[i]
      case Refused(code) =>
        RefusedStays(already, packets, i + 1);
        return Err(BadPacket(code));
      case Readable(s) =>
        if s.uid in seen || s.uid in already {
          RefusedStays(already, packets, i + 1);
          return Err(DuplicateUid(s.uid));
        }
        UidsGrow(accepted, s);
        seen := seen + {s.uid};
        accepted := accepted + [s];
    }
    assert packets[..|packets|] == packets;
    return Ok(accepted);
  }

  lemma UidsGrow(stored: seq<Stored>, s: Stored)
    ensures Uids(stored + [s]) == Uids(stored) + {s.uid}
  {
    var grown := stored + [s];
    forall uid | uid in Uids(stored) + {s.uid}
      ensures uid in Uids(grown)
    {
      if uid == s.uid {
        assert grown[|stored|].uid == uid;
      } else {
        var i :| 0 <= i < |stored| && stored[i].uid == uid;
        assert grown[i].uid == uid;
      }
    }
  }

  lemma {:induction false} RefusedStays(already: set<string>, packets: seq<Packet>, n: nat)
    requires n <= |packets| && Collected(already, packets[..n]).Err?
    ensures Collected(already, packets) == Collected(already, packets[..n])
    decreases |packets|
  {
    if n == |packets| {
      assert packets[..n] == packets;
    } else {
      assert packets[..|packets| - 1][..n] == packets[..n];
      RefusedStays(already, packets[..|packets| - 1], n);
    }
  }

  ghost predicate DistinctUids(stored: seq<Stored>)
  {
    forall i, j | 0 <= i < j < |stored| :: stored[i].uid != stored[j].uid
  }

  /** Every packet can be read, no two carry one uid, and none carries a uid in `already`. */
  ghost predicate Clean(already: set<string>, packets: seq<Packet>)
  {
    && (forall i | 0 <= i < |packets| :: packets[i].Readable? && packets[i].stored.uid !in already)
    && (forall i, j | 0 <= i < j < |packets| :: packets[i].stored.uid != packets[j].stored.uid)
  }

  /** A batch is taken exactly when it is clean, and then what is stored is every packet, in order. */
  lemma {:induction false} TakenIffClean(already: set<string>, packets: seq<Packet>)
    ensures Collected(already, packets).Ok? <==> Clean(already, packets)
    ensures Collected(already, packets).Ok? ==>
      var accepted := Collected(already, packets).value;
      |accepted| == |packets| && forall i | 0 <= i < |packets| :: packets[i] == Readable(accepted[i])
  {
    if packets != [] {
      var front, last := packets[..|packets| - 1], packets[|packets| - 1];
      TakenIffClean(already, front);
      if Collected(already, front).Ok? && last.Readable? {
        var accepted := Collected(already, front).value;
        assert last.stored.uid in Uids(accepted) <==>
          exists i :: 0 <= i < |front| && packets[i].stored.uid == last.stored.uid;
      }
    }
  }

  /** No stored submission has the reference number of one to be stored, and those differ. */
  ghost predicate FreshReferences(submissions: seq<Stored>, accepted: seq<Stored>)
  {
    && (forall i, j | 0 <= i < |submissions| && 0 <= j < |accepted| ::
          submissions[i].reference != accepted[j].reference)
    && (forall i, j | 0 <= i < j < |accepted| :: accepted[i].reference != accepted[j].reference)
  }

  lemma {:induction false} PutAppends(submissions: seq<Stored>, s: Stored)
    requires forall i | 0 <= i < |submissions| :: submissions[i].reference != s.reference
    ensures Put(submissions, s) == submissions + [s]
  {
    if submissions != [] {
      PutAppends(submissions[1..], s);
    }
  }

  lemma {:induction false} PutAllAppends(submissions: seq<Stored>, accepted: seq<Stored>)
    requires FreshReferences(submissions, accepted)
    ensures PutAll(submissions, accepted) == submissions + accepted
  {
    if accepted != [] {
      var front, last := accepted[..|accepted| - 1], accepted[|accepted| - 1];
      PutAllAppends(submissions, front);
      PutAppends(submissions + front, last);
      assert submissions + front + [last] == submissions + accepted;
    }
  }

  /** What the readable packets of a batch hold, in order. */
  function Contained(packets: seq<Packet>): seq<Stored>
    requires forall i | 0 <= i < |packets| :: packets[i].Readable?
  {
    seq(|packets|, i requires 0 <= i < |packets| => packets[i].stored)
  }

  /** All or nothing: given reference numbers of its own, a batch of 1 to 1000 clean packets is
      appended whole, and any other batch leaves everything as it was. */
  lemma BatchAllOrNothing(c: Books, packets: seq<Packet>)
    requires Clean(Uids(c.submissions), packets) ==>
      FreshReferences(c.submissions, Contained(packets))
    ensures var ok := 1 <= |packets| <= 1000 && Clean(Uids(c.submissions), packets);
      && (Judged(c, packets).Ok? <==> ok)
      && Filed(c, packets) ==
         if ok then c.(submissions := c.submissions + Contained(packets))
         else c
  {
    TakenIffClean(Uids(c.submissions), packets);
    if 1 <= |packets| <= MAX_PACKETS && Clean(Uids(c.submissions), packets) {
      var accepted := Collected(Uids(c.submissions), packets).value;
      assert accepted == Contained(packets);
      PutAllAppends(c.submissions, accepted);
    }
  }

  /** A batch that is not clean is refused for the first packet that spoils it. */
  lemma {:induction false} RefusedForFirst(already: set<string>, packets: seq<Packet>, k: nat)
    requires k < |packets| && Clean(already, packets[..k]) && !Clean(already, packets[..k + 1])
    ensures Collected(already, packets)
         == Err(match packets[k] case Refused(code) => BadPacket(code) case Readable(s) => DuplicateUid(s.uid))
  {
    var upTo := packets[..k + 1];
    assert upTo[..k] == packets[..k];
    TakenIffClean(already, packets[..k]);
    TakenIffClean(already, upTo);
    RefusedStays(already, packets, k + 1);
    hide Clean;
  }

  /** Storing under a reference number leaves every other submission in place. */
  lemma {:induction false} PutSays(submissions: seq<Stored>, s: Stored, other: Stored)
    ensures s in Put(submissions, s)
    ensures other.reference != s.reference ==> (other in Put(submissions, s) <==> other in submissions)
  {
    if submissions != [] {
      assert submissions == [submissions[0]] + submissions[1..];
      if submissions[0].reference != s.reference {
        PutSays(submissions[1..], s, other);
      }
    }
  }

  lemma {:induction false} PutKeepsDistinct(submissions: seq<Stored>, s: Stored)
    requires DistinctUids(submissions) && s.uid !in Uids(submissions)
    ensures DistinctUids(Put(submissions, s))
    ensures Uids(Put(submissions, s)) <= Uids(submissions) + {s.uid}
  {
    if submissions == [] {
      assert Uids([s]) == {s.uid};
    } else {
      hide Uids, DistinctUids;
      var first, rest := submissions[0], submissions[1..];
      assert submissions == [first] + rest;
      DistinctCons(first, rest);
      if first.reference == s.reference {
        DistinctCons(s, rest);
      } else {
        PutKeepsDistinct(rest, s);
        DistinctCons(first, Put(rest, s));
      }
    }
  }

  lemma UidsCons(first: Stored, rest: seq<Stored>)
    ensures Uids([first] + rest) == {first.uid} + Uids(rest)
  {
    var all := [first] + rest;
    forall uid | uid in {first.uid} + Uids(rest)
      ensures uid in Uids(all)
    {
      if uid == first.uid {
        assert all[0].uid == uid;
      } else {
        var i :| 0 <= i < |rest| && rest[i].uid == uid;
        assert all[i + 1].uid == uid;
      }
    }
    forall uid | uid in Uids(all)
      ensures uid in {first.uid} + Uids(rest)
    {
      var i :| 0 <= i < |all| && all[i].uid == uid;
      assert i > 0 ==> all[i] == rest[i - 1];
    }
  }

  lemma DistinctCons(first: Stored, rest: seq<Stored>)
    ensures Uids([first] + rest) == {first.uid} + Uids(rest)
    ensures DistinctUids([first] + rest) <==> DistinctUids(rest) && first.uid !in Uids(rest)
  {
    var all := [first] + rest;
    UidsCons(first, rest);
    if DistinctUids(all) {
      forall i, j | 0 <= i < j < |rest|
        ensures rest[i].uid != rest[j].uid
      {
        assert all[i + 1] == rest[i] && all[j + 1] == rest[j];
      }
      forall i | 0 <= i < |rest|
        ensures rest[i].uid != first.uid
      {
        assert all[0] == first && all[i + 1] == rest[i];
      }
    }
    if DistinctUids(rest) && first.uid !in Uids(rest) {
      forall i, j | 0 <= i < j < |all|
        ensures all[i].uid != all[j].uid
      {
        assert all[j] == rest[j - 1] && rest[j - 1].uid in Uids(rest);
        assert i > 0 ==> all[i] == rest[i - 1];
      }
    }
  }

  lemma {:induction false} PutAllKeepsDistinct(submissions: seq<Stored>, accepted: seq<Stored>)
    requires DistinctUids(submissions) && DistinctUids(accepted)
    requires Uids(submissions) !! Uids(accepted)
    ensures DistinctUids(PutAll(submissions, accepted))
    ensures Uids(PutAll(submissions, accepted)) <= Uids(submissions) + Uids(accepted)
  {
    if accepted != [] {
      var front, last := accepted[..|accepted| - 1], accepted[|accepted| - 1];
      assert accepted == front + [last];
      UidsGrow(front, last);
      PutAllKeepsDistinct(submissions, front);
      assert last.uid !in Uids(front);
      PutKeepsDistinct(PutAll(submissions, front), last);
    }
  }

  lemma FiledKeepsDistinct(c: Books, packets: seq<Packet>)
    requires DistinctUids(c.submissions)
    ensures DistinctUids(Filed(c, packets).submissions)
  {
    TakenIffClean(Uids(c.submissions), packets);
    if Judged(c, packets).Ok? {
      PutAllKeepsDistinct(c.submissions, Judged(c, packets).value);
    }
  }

  // ---- Runs --------------------------------------------------------------------------------------------

  /** A protected request burns its nonce in one step; a batch is stored in a later step of its own,
      so requests may overlap between the two. */
  datatype Event =
    | Issue(nonce: string, timeToLive: int, at: real)
    | Use(nonce: string, at: real)
    | Batch(packets: seq<Packet>)

  function Step(c: Books, e: Event): Books
  {
    match e
    case Issue(nonce, timeToLive, at) => Issued(c, nonce, timeToLive, at)
    case Use(nonce, at) => Burned(c, nonce, at)
    case Batch(packets) => Filed(c, packets)
  }

  function After(run: seq<Event>): Books
  {
    if run == [] then Books(map[], []) else Step(After(run[..|run| - 1]), run[|run| - 1])
  }

  /** Step `i` used nonce `nonce` and was let in. */
  predicate LetIn(run: seq<Event>, i: nat, nonce: string)
  {
    i < |run| && run[i].Use? && run[i].nonce == nonce && Fault(After(run[..i]), nonce, run[i].at).None?
  }

  predicate Issues(e: Event, nonce: string)
  {
    e.Issue? && e.nonce == nonce
  }

  /** The last step that issued the nonce, or -1. */
  function LastIssue(run: seq<Event>, nonce: string): (j: int)
    ensures -1 <= j < |run|
    ensures j >= 0 ==> Issues(run[j], nonce)
    ensures forall k | j < k < |run| :: !Issues(run[k], nonce)
  {
    if run == [] then -1
    else if Issues(run[|run| - 1], nonce) then |run| - 1
    else LastIssue(run[..|run| - 1], nonce)
  }

  ghost predicate LetInSince(run: seq<Event>, j: int, nonce: string)
  {
    exists k: nat :: j < k < |run| && LetIn(run, k, nonce)
  }

  lemma LetInSinceStep(run: seq<Event>, j: int, nonce: string)
    requires run != []
    ensures var last := |run| - 1;
      LetInSince(run, j, nonce) <==>
        LetInSince(run[..last], j, nonce) || (j < last && LetIn(run, last, nonce))
  {
    var front := run[..|run| - 1];
    forall k: nat | k < |front|
      ensures LetIn(front, k, nonce) <==> LetIn(run, k, nonce)
    {
      assert front[..k] == run[..k];
    }
  }

  /** A nonce's record tells the whole history: which issue is current, and whether anyone was let
      in on it since. */
  lemma {:induction false} RecordTells(run: seq<Event>, nonce: string)
    ensures var j, c := LastIssue(run, nonce), After(run);
      && (nonce in c.nonces <==> j >= 0)
      && (j >= 0 ==>
            c.nonces[nonce] == Nonce(run[j].at + Lifetime(run[j].timeToLive) as real, LetInSince(run, j, nonce)))
  {
    if run != [] {
      RecordTells(run[..|run| - 1], nonce);
      LetInSinceStep(run, LastIssue(run, nonce), nonce);
    }
  }

  /** A request is let in exactly when its nonce was issued, the latest issue is within its lifetime,
      and nobody was let in on it since. */
  lemma LetInIff(run: seq<Event>, i: nat)
    requires i < |run| && run[i].Use?
    ensures var nonce := run[i].nonce;
      var j := LastIssue(run[..i], nonce);
      LetIn(run, i, nonce) <==>
        && j >= 0 && !LetInSince(run[..i], j, nonce)
        && run[i].at < run[j].at + Lifetime(run[j].timeToLive) as real
  {
    RecordTells(run[..i], run[i].nonce);
  }

  /** Why a request is not let in: its nonce was never issued, or someone was let in on the latest issue,
      or that has run out. */
  lemma ShutOutBecause(run: seq<Event>, i: nat)
    requires i < |run| && run[i].Use?
    ensures var fault := Fault(After(run[..i]), run[i].nonce, run[i].at);
      var j := LastIssue(run[..i], run[i].nonce);
      && (fault == Some(NonceUnknown) <==> forall k | 0 <= k < i :: !Issues(run[k], run[i].nonce))
      && (fault == Some(NonceUsed) <==> j >= 0 && LetInSince(run[..i], j, run[i].nonce))
      && (fault == Some(NonceExpired) <==>
            && j >= 0 && !LetInSince(run[..i], j, run[i].nonce)
            && run[i].at >= run[j].at + Lifetime(run[j].timeToLive) as real)
  {
    RecordTells(run[..i], run[i].nonce);
    assert forall k | 0 <= k < i :: run[..i][k] == run[k];
    hide After, LetInSince;
  }

  /** So two requests let in on one nonce have a new issue of it between them; identifiers that are
      never minted twice are good for one request each. */
  lemma NonceLetsInOnce(run: seq<Event>, i: nat, k: nat, nonce: string)
    requires i < k && LetIn(run, i, nonce) && LetIn(run, k, nonce)
    ensures i < LastIssue(run[..k], nonce) < k
  {
    LetInIff(run, k);
    assert run[..k][..i] == run[..i];
    assert LetIn(run[..k], i, nonce);
  }

  /** Over every run no two stored submissions share a uid, whatever their reference numbers. */
  lemma {:induction false} StoredUidsDistinct(run: seq<Event>)
    ensures DistinctUids(After(run).submissions)
  {
    if run != [] {
      StoredUidsDistinct(run[..|run| - 1]);
      if run[|run| - 1].Batch? {
        FiledKeepsDistinct(After(run[..|run| - 1]), run[|run| - 1].packets);
      }
    }
  }

  // ---- Inquiries ------------------------------------------------------------------------------------------

  datatype Span = Span(start: Option<real>, end: Option<real>)

  const DAY := 86400.0

  predicate Within(s: Stored, span: Span)
  {
    (span.start.Some? ==> s.receivedAt >= span.start.value) && (span.end.Some? ==> s.receivedAt <= span.end.value)
  }

  function Selected(submissions: seq<Stored>, span: Span): (r: seq<Stored>)
    ensures forall s :: s in r <==> s in submissions && Within(s, span)
  {
    if submissions == [] then []
    else
      var s := submissions[|submissions| - 1];
      var front := Selected(submissions[..|submissions| - 1], span);
      assert submissions == submissions[..|submissions| - 1] + [s];
      if Within(s, span) then front + [s] else front
  }

  /** Without bounds the window is the last day. */
  function Effective(span: Span, now: real): Span
  {
    if span.start.None? && span.end.None? then Span(Some(now - DAY), None) else span
  }

  function Window(submissions: seq<Stored>, span: Span, now: real): Result<seq<Stored>, Rejection>
  {
    if span.start.Some? && span.end.Some? && span.start.value > span.end.value then Err(BadWindow)
    else Ok(Selected(submissions, Effective(span, now)))
  }

  function WithStatus(submissions: seq<Stored>, status: Option<string>): seq<Stored>
  {
    if submissions == [] then []
    else
      var front, s := WithStatus(submissions[..|submissions| - 1], status), submissions[|submissions| - 1];
      if status.None? || s.status == status.value then front + [s] else front
  }

  function Min(a: int, b: int): int
  {
    if a < b then a else b
  }

  function Inquiry(c: Books, pageNumber: int, pageSize: int, status: Option<string>, span: Span, now: real)
    : Result<seq<Stored>, Rejection>
  {
    if pageNumber < 1 || !(1 <= pageSize <= 100) then Err(BadPage)
    else if status.Some? && status.value !in ["SUCCESS", "FAILED", "IN_PROGRESS", "TIMEOUT"] then Err(BadStatus)
    else
      match Window(WithStatus(c.submissions, status), span, now)
      case Err(why) => Err(why)
      case Ok(window) =>
        assert 0 <= (pageNumber - 1) * pageSize <= pageNumber * pageSize;
        Ok(window[Min(|window|, (pageNumber - 1) * pageSize)..Min(|window|, pageNumber * pageSize)])
  }

  /** Pages 1 to `|times|`, asked for one after the other at those times, put together. */
  function Pages(c: Books, pageSize: int, status: Option<string>, span: Span, times: seq<real>): seq<Stored>
  {
    if times == [] then []
    else
      var page := Inquiry(c, |times|, pageSize, status, span, times[|times| - 1]);
      Pages(c, pageSize, status, span, times[..|times| - 1]) + if page.Ok? then page.value else []
  }

  /** Consecutive pages of an unchanged store and window are the window, cut after the last of them:
      nothing is repeated, nothing skipped, whatever the page size. */
  lemma {:induction false} PagesConcatenate(
    c: Books, pageSize: int, status: Option<string>, span: Span, times: seq<real>, at: real)
    requires Inquiry(c, 1, pageSize, status, span, at).Ok?
    requires span.start.Some? || span.end.Some? || forall i | 0 <= i < |times| :: times[i] == at
    ensures var window := Selected(WithStatus(c.submissions, status), Effective(span, at));
      Pages(c, pageSize, status, span, times) == window[..Min(|window|, |times| * pageSize)]
  {
    hide Inquiry, Selected, WithStatus, Effective;
    var window := Selected(WithStatus(c.submissions, status), Effective(span, at));
    if times != [] {
      var front := times[..|times| - 1];
      PagesConcatenate(c, pageSize, status, span, front, at);
      PageIsSlice(c, |times|, pageSize, status, span, times[|front|], at);
      PlacesGrow(c, |times|, pageSize, status, span, at);
      SlicesJoin(window, |front| * pageSize, |times| * pageSize);
    }
  }

  lemma PlacesGrow(c: Books, n: nat, pageSize: int, status: Option<string>, span: Span, at: real)
    requires n >= 1 && Inquiry(c, 1, pageSize, status, span, at).Ok?
    ensures 0 <= (n - 1) * pageSize <= n * pageSize
  {
    hide Window, WithStatus;
    assert n * pageSize == (n - 1) * pageSize + pageSize;
  }

  lemma SlicesJoin(window: seq<Stored>, from: nat, to: nat)
    requires from <= to
    ensures window[..Min(|window|, from)] + window[Min(|window|, from)..Min(|window|, to)]
         == window[..Min(|window|, to)]
  {
  }

  lemma PageIsSlice(
    c: Books, n: nat, pageSize: int, status: Option<string>, span: Span, now: real, at: real)
    requires n >= 1 && Inquiry(c, 1, pageSize, status, span, at).Ok?
    requires span.start.Some? || span.end.Some? || now == at
    ensures var window := Selected(WithStatus(c.submissions, status), Effective(span, at));
      && 0 <= Min(|window|, (n - 1) * pageSize) <= Min(|window|, n * pageSize)
      && Inquiry(c, n, pageSize, status, span, now)
         == Ok(window[Min(|window|, (n - 1) * pageSize)..Min(|window|, n * pageSize)])
  {
    hide Selected, WithStatus;
    assert n * pageSize == (n - 1) * pageSize + pageSize;
    assert (n - 1) * pageSize >= 0;
    assert Effective(span, now) == Effective(span, at);
  }

  datatype Answer = Found(stored: Stored) | NotFound(uid: string)

  /** The lookup table of the window by uid: a later entry hides an earlier one. */
  function Lookup(window: seq<Stored>, uid: string): Answer
  {
    if window == [] then NotFound(uid)
    else if window[|window| - 1].uid == uid then Found(window[|window| - 1])
    else Lookup(window[..|window| - 1], uid)
  }

  function OfTaxpayer(submissions: seq<Stored>, fiscalId: Option<string>): (r: seq<Stored>)
    ensures forall s :: s in r <==> s in submissions && (fiscalId.None? || s.fiscalId == fiscalId.value)
  {
    if submissions == [] then []
    else
      var s := submissions[|submissions| - 1];
      var front := OfTaxpayer(submissions[..|submissions| - 1], fiscalId);
      assert submissions == submissions[..|submissions| - 1] + [s];
      if fiscalId.None? || s.fiscalId == fiscalId.value then front + [s] else front
  }

  function InquiryByUid(c: Books, uids: seq<string>, fiscalId: Option<string>, span: Span, now: real)
    : Result<seq<Answer>, Rejection>
  {
    if uids == [] then Err(NoIds)
    else if |uids| > MAX_INQUIRY_IDS then Err(TooManyIds)
    else
      match Window(OfTaxpayer(c.submissions, fiscalId), span, now)
      case Err(why) => Err(why)
      case Ok(window) => Ok(seq(|uids|, i requires 0 <= i < |uids| => Lookup(window, uids[i])))
  }

  lemma {:induction false} LookupFinds(window: seq<Stored>, uid: string)
    ensures match Lookup(window, uid)
      case Found(s) => s in window && s.uid == uid
      case NotFound(u) => u == uid && forall s | s in window :: s.uid != uid
  {
    if window != [] {
      LookupFinds(window[..|window| - 1], uid);
      assert window == window[..|window| - 1] + [window[|window| - 1]];
    }
  }

  /** Received between the bounds, both included; without bounds, within the last day. */
  predicate InSpan(s: Stored, span: Span, now: real)
  {
    if span.start.None? && span.end.None? then s.receivedAt >= now - 86400.0
    else (span.start.None? || s.receivedAt >= span.start.value) && (span.end.None? || s.receivedAt <= span.end.value)
  }

  lemma {:induction false} WithStatusAre(submissions: seq<Stored>, status: Option<string>, s: Stored)
    ensures s in WithStatus(submissions, status) <==> s in submissions && (status.None? || s.status == status.value)
  {
    if submissions != [] {
      WithStatusAre(submissions[..|submissions| - 1], status, s);
      assert submissions == submissions[..|submissions| - 1] + [submissions[|submissions| - 1]];
    }
  }

  /** A paged inquiry is refused for a bad page, an unknown status or bounds the wrong way round, in that
      order; else its pages are drawn from the submissions with the status asked for and in the span. */
  lemma InquiryIsAbout(
    c: Books, pageNumber: int, pageSize: int, status: Option<string>, span: Span, now: real, s: Stored)
    ensures var r := Inquiry(c, pageNumber, pageSize, status, span, now);
      var known := status.None? || status.value in {"SUCCESS", "FAILED", "IN_PROGRESS", "TIMEOUT"};
      var page := pageNumber >= 1 && 1 <= pageSize <= 100;
      && (r == Err(BadPage) <==> !page)
      && (r == Err(BadStatus) <==> page && !known)
      && (r == Err(BadWindow) <==>
            page && known && span.start.Some? && span.end.Some? && span.start.value > span.end.value)
      && (r.Ok? <==> page && known && !(span.start.Some? && span.end.Some? && span.start.value > span.end.value))
      && var window := Selected(WithStatus(c.submissions, status), Effective(span, now));
         s in window <==> s in c.submissions && (status.None? || s.status == status.value) && InSpan(s, span, now)
  {
    WithStatusAre(c.submissions, status, s);
    hide Selected, WithStatus;
  }

  /** The window keeps the order in which submissions were stored. */
  lemma {:induction false} WindowKeepsOrder(a: seq<Stored>, b: seq<Stored>, status: Option<string>, span: Span)
    ensures WithStatus(a + b, status) == WithStatus(a, status) + WithStatus(b, status)
    ensures Selected(a + b, span) == Selected(a, span) + Selected(b, span)
    decreases |b|
  {
    if b == [] {
      assert a + b == a;
    } else {
      assert (a + b)[..|a + b| - 1] == a + b[..|b| - 1];
      WindowKeepsOrder(a, b[..|b| - 1], status, span);
    }
  }

  /** Since uids are distinct, an inquiry by uid is unambiguous: in the order asked, each answer is
      the one stored submission with that uid, taxpayer and time, and missing only if there is none. */
  lemma InquiryByUidUnambiguous(
    run: seq<Event>, uids: seq<string>, fiscalId: Option<string>, span: Span, now: real, i: nat, s: Stored)
    requires InquiryByUid(After(run), uids, fiscalId, span, now).Ok? && i < |uids|
    ensures var answers := InquiryByUid(After(run), uids, fiscalId, span, now).value;
      && |answers| == |uids|
      && (answers[i] == Found(s) <==>
            && s in After(run).submissions && s.uid == uids[i]
            && (fiscalId.None? || s.fiscalId == fiscalId.value) && InSpan(s, span, now))
  {
    StoredUidsDistinct(run);
    LookupFinds(Window(OfTaxpayer(After(run).submissions, fiscalId), span, now).value, uids[i]);
  }
}
