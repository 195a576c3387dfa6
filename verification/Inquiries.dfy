/** Whom an inquiry asks about, and which answer counts. */
module Inquiries {
  import opened Results
  import opened Records
  import opened Reconcile
  import opened ReconcileLaws
  import opened Lifecycle
  import opened LifecycleRuns

  // ---- Whom it asks about --------------------------------------------------------------------------

  /** A record of the profile that was sent, has a reference and no verdict yet. */
  predicate Waiting(t: Table, profile: string, id: nat)
  {
    && id in t.rows && t.rows[id].profile == profile && t.rows[id].state == Sent
    && t.rows[id].reference.Some? && t.rows[id].reference.value != ""
  }

  /** Without a limit a pending inquiry is about exactly the waiting records, as they are in the table. */
  lemma AsksAboutWaiting(t: Table, profile: string, limit: int, id: nat)
    requires t.Valid() && limit < 0
    ensures var items := PendingItems(t, profile, limit);
      && (Waiting(t, profile, id) <==> exists i :: 0 <= i < |items| && items[i].id == id)
      && (forall i | 0 <= i < |items| :: items[i].id in t.rows && items[i].record == t.rows[items[i].id])
  {
    AwaitingBelowIsAscending(t, profile, t.next);
    AwaitingIsAscending(t, profile, limit);
    var ids := t.Awaiting(profile, limit);
    var items := PendingItems(t, profile, limit);
    assert ids == t.AwaitingBelow(profile, t.next);
    assert |items| == |ids| && forall i | 0 <= i < |ids| :: items[i] == Item(ids[i], t.rows[ids[i]]);
    if Waiting(t, profile, id) {
      assert t.Awaits(id, profile) && id in ids;
      var i :| 0 <= i < |ids| && ids[i] == id;
      assert items[i].id == id;
    }
    if i :| 0 <= i < |items| && items[i].id == id {
      assert ids[i] == id && t.Awaits(ids[i], profile);
    }
  }

  /** A limit takes the ones with the lowest ids. */
  lemma LimitTakesFirst(t: Table, profile: string, limit: nat)
    ensures var all, items := PendingItems(t, profile, -1), PendingItems(t, profile, limit);
      |items| == (if limit < |all| then limit else |all|) && items == all[..|items|]
  {
  }

  // ---- Which answer counts --------------------------------------------------------------------------

  lemma {:induction false} GatheredIsLast(results: seq<Answer>, ref: string)
    requires ref != ""
    ensures ref in Gathered(results) <==> exists i :: 0 <= i < |results| && results[i].reference == ref
    ensures ref in Gathered(results) ==>
      exists i :: 0 <= i < |results| && results[i].reference == ref && Gathered(results)[ref] == results[i]
        && forall j | i < j < |results| :: results[j].reference != ref
  {
    if results != [] {
      var front, last := results[..|results| - 1], results[|results| - 1];
      GatheredIsLast(front, ref);
      assert forall i | 0 <= i < |front| :: front[i] == results[i];
      if last.reference == ref {
        assert results[|front|] == last;
      }
    }
  }

  /** A service that knows an answer to every reference, in requests of 1 to 100. */
  ghost predicate Knows(service: Service, answer: string -> Answer)
  {
    && (forall ref: string :: answer(ref).reference == ref)
    && forall start, refs: seq<string> | 1 <= |refs| <= 100 :: service(start, refs) == AnswersFrom(answer, refs)
  }

  function AnswersFrom(answer: string -> Answer, refs: seq<string>): (r: seq<Answer>)
    ensures |r| == |refs| && forall i | 0 <= i < |refs| :: r[i] == answer(refs[i])
  {
    seq(|refs|, i requires 0 <= i < |refs| => answer(refs[i]))
  }

  lemma {:induction false} AskedInOrder(service: Service, answer: string -> Answer, refs: seq<string>, start: nat)
    requires Knows(service, answer) && start <= |refs|
    ensures Asked(service, refs, start) == AnswersFrom(answer, refs[start..])
    decreases |refs| - start
  {
    if start < |refs| {
      var stop := if start + MAX_INQUIRY_IDS < |refs| then start + MAX_INQUIRY_IDS else |refs|;
      if start + MAX_INQUIRY_IDS <= |refs| {
        AskedInOrder(service, answer, refs, start + MAX_INQUIRY_IDS);
      }
      assert refs[start..] == refs[start..stop] + refs[stop..];
      assert service(start, refs[start..stop]) == AnswersFrom(answer, refs[start..stop]);
      assert AnswersFrom(answer, refs[start..])
          == AnswersFrom(answer, refs[start..stop]) + AnswersFrom(answer, refs[stop..]);
    }
  }

  /** Of such a service every record asked about gets its own answer, however many there are. */
  lemma EveryoneIsAnswered(items: seq<Item>, service: Service, answer: string -> Answer, k: nat)
    requires Knows(service, answer) && k < |items| && Truthy(items[k].record.reference)
    ensures var ref := items[k].record.reference.value;
      ref in AnswersTo(items, service) && AnswersTo(items, service)[ref] == answer(ref)
  {
    var ref := items[k].record.reference.value;
    var refs := Refs(items);
    AskedInOrder(service, answer, refs, 0);
    assert refs[0..] == refs && refs[k] == ref;
    var results := Asked(service, refs, 0);
    assert results[k] == answer(ref) && results[k].reference == ref;
    GatheredIsLast(results, ref);
    hide Asked, Gathered;
  }

  // ---- What was filed is asked about -----------------------------------------------------------------

  /** A submission answered with a reference leaves a record that waits. */
  lemma SentIsWaiting(
    t: Table, profile: string, recordId: Option<nat>, payload: Payload, report: Report, sent: Submission)
    requires t.Valid() && report.ok && sent.reference.Some? && sent.reference.value != ""
    requires recordId.Some? ==> DraftFault(t, profile, recordId.value).None?
    ensures var u := SubmitResult(t, profile, recordId, payload, report, Some(sent)).table;
      var id := if recordId.Some? then recordId.value else t.next;
      Waiting(u, profile, id) && u.rows[id].reference == sent.reference && u.rows[id].uid == Some(sent.uid)
  {
  }

  /** In every run: an unlimited pending inquiry asks about every filed record that is still sent, by
      exactly the reference the service gave for it. */
  lemma FiledIsAsked(calls: seq<Call>, i: nat)
    requires i < |Run(EMPTY, calls).filings|
    requires var s := Run(EMPTY, calls);
      var f := s.filings[i];
      && f.id in s.table.rows && s.table.rows[f.id].state == Sent
      && f.sent.reference.Some? && f.sent.reference.value != ""
    ensures var s := Run(EMPTY, calls);
      var f := s.filings[i];
      var items := PendingItems(s.table, s.table.rows[f.id].profile, -1);
      exists k :: 0 <= k < |items| && items[k].id == f.id && Refs(items)[k] == f.sent.reference.value
  {
    hide Run, LifecycleRuns.RowOk;
    var s := Run(EMPTY, calls);
    var f := s.filings[i];
    EmptyHolds();
    RunKeeps(EMPTY, calls);
    assert LifecycleRuns.Holds(s.table.rows[f.id], f);
    var profile := s.table.rows[f.id].profile;
    AsksAboutWaiting(s.table, profile, -1, f.id);
    var items := PendingItems(s.table, profile, -1);
    var k :| 0 <= k < |items| && items[k].id == f.id;
    assert Refs(items)[k] == f.sent.reference.value;
  }
}
