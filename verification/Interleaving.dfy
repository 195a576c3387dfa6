/** Runs in which a submission is two steps: the check of the draft, and, after the service has
    answered, the write-back of the record as it was read.  Any other requests, and other
    submissions of the same draft, may come between.
 */
module Interleaving {
  import opened Results
  import opened Records
  import opened Reconcile
  import opened ReconcileLaws
  import opened Lifecycle
  import LR = LifecycleRuns

  /** A submission waiting for the service: the record as it was read, if it has one. */
  datatype Sending = Sending(recordId: Option<nat>, record: Record, payload: Payload, report: Report)

  /** A submission is named by the place in the run of the step that began it. */
  datatype Move =
    | Whole(call: LR.Call)
    | Begin(profile: string, recordId: Option<nat>, payload: Payload, report: Report)
    | Finish(begun: nat, sent: Option<Submission>)

  datatype State = State(system: LR.System, sendings: map<nat, Sending>, clock: nat)

  const START := State(LR.EMPTY, map[], 0)

  /** The handler up to its wait: it refuses, or notes the broken rules, or goes on to send. */
  function BeginResult(t: Table, profile: string, recordId: Option<nat>, payload: Payload, report: Report)
    : (Table, Option<Sending>)
  {
    if recordId.Some? && DraftFault(t, profile, recordId.value).Some? then (t, None)
    else
      var record := if recordId.Some? then t.rows[recordId.value] else Blank(profile, payload);
      if !report.ok then
        var invalid := InvalidRecord(record, payload, report);
        (if recordId.Some? then t.Save(recordId.value, invalid) else t.Insert(invalid), None)
      else (t, Some(Sending(recordId, record, payload, report)))
  }

  /** The handler after its wait. */
  function FinishResult(s: LR.System, sending: Sending, sent: Option<Submission>): LR.System
  {
    if sent.None? then s
    else
      var filed := SentRecord(sending.record, sending.payload, sending.report, sent.value);
      var id := if sending.recordId.Some? then sending.recordId.value else s.table.next;
      LR.System(if sending.recordId.Some? then s.table.Save(id, filed) else s.table.Insert(filed),
                s.filings + [Filing(id, sent.value, sending.payload)])
  }

  function Advance(s: State, m: Move): State
  {
    match m
    case Whole(call) =>
      if call.request.Submit? then s.(clock := s.clock + 1)
      else s.(system := LR.Step(s.system, call), clock := s.clock + 1)
    case Begin(profile, recordId, payload, report) =>
      var (table, sending) := BeginResult(s.system.table, profile, recordId, payload, report);
      State(s.system.(table := table),
            if sending.Some? then s.sendings[s.clock := sending.value] else s.sendings, s.clock + 1)
    case Finish(begun, sent) =>
      if begun !in s.sendings then s.(clock := s.clock + 1)
      else State(FinishResult(s.system, s.sendings[begun], sent), s.sendings - {begun}, s.clock + 1)
  }

  function After(run: seq<Move>): State
  {
    if run == [] then START else Advance(After(run[..|run| - 1]), run[|run| - 1])
  }

  /** Without a gap the two steps are the handler: same table, same filings. */
  lemma TwoStepsAreSubmit(
    s: State, profile: string, recordId: Option<nat>, payload: Payload, report: Report, sent: Option<Submission>)
    requires s.clock !in s.sendings
    ensures var t := Advance(Advance(s, Begin(profile, recordId, payload, report)), Finish(s.clock, sent));
      && t.system == LR.Step(s.system, LR.Call(profile, Submit(recordId, payload, report, sent)))
      && t.sendings == s.sendings
  {
    var t := Advance(Advance(s, Begin(profile, recordId, payload, report)), Finish(s.clock, sent));
    assert t.sendings == s.sendings;
  }

  // ---- What can disturb a submission ------------------------------------------------------------

  /** The step deletes record `id`. */
  predicate Deletes(t: Table, m: Move, id: nat)
  {
    && m.Whole? && m.call.request.DeleteDraft? && m.call.request.id == id
    && DraftFault(t, m.call.profile, id).None?
  }

  /** The step finishes, with an answer of the service, a submission of record `id`. */
  predicate Finishes(s: State, m: Move, id: nat)
  {
    m.Finish? && m.sent.Some? && m.begun in s.sendings && s.sendings[m.begun].recordId == Some(id)
  }

  predicate DeletedAt(run: seq<Move>, k: nat, id: nat)
    requires k < |run|
  {
    Deletes(After(run[..k]).system.table, run[k], id)
  }

  predicate FinishedAt(run: seq<Move>, k: nat, id: nat)
    requires k < |run|
  {
    Finishes(After(run[..k]), run[k], id)
  }

  /** Strictly between two steps a record was deleted. */
  ghost predicate DeletedBetween(run: seq<Move>, b: nat, f: nat, id: nat)
    requires f <= |run|
  {
    exists k :: b < k < f && DeletedAt(run, k, id)
  }

  /** Strictly between two steps a submission of a record was finished. */
  ghost predicate FinishedBetween(run: seq<Move>, b: nat, f: nat, id: nat)
    requires f <= |run|
  {
    exists k :: b < k < f && FinishedAt(run, k, id)
  }

  /** Step `f` finishes a submission in whose gap another one of its record was finished. */
  ghost predicate Overtaken(run: seq<Move>, f: nat)
    requires f < |run|
  {
    exists id :: FinishedAt(run, f, id) && FinishedBetween(run, run[f].begun, f, id)
  }

  /** Step `f` finishes a submission in whose gap its record was deleted. */
  ghost predicate Orphaned(run: seq<Move>, f: nat)
    requires f < |run|
  {
    exists id :: FinishedAt(run, f, id) && DeletedBetween(run, run[f].begun, f, id)
  }

  ghost predicate NoneOvertaken(run: seq<Move>)
  {
    forall f | 0 <= f < |run| :: !Overtaken(run, f)
  }

  ghost predicate NoneOrphaned(run: seq<Move>)
  {
    forall f | 0 <= f < |run| :: !Orphaned(run, f)
  }

  // ---- What every step keeps -------------------------------------------------------------------------

  predicate Filed(filings: seq<Filing>, id: nat)
  {
    exists i | 0 <= i < |filings| :: filings[i].id == id
  }

  /** A filing is on its record, if that is still there and no later filing replaced it. */
  ghost predicate LastFilingShows(s: LR.System)
  {
    forall i | 0 <= i < |s.filings| && s.filings[i].id in s.table.rows ::
      var r := s.table.rows[s.filings[i].id];
      && !IsDraft(r)
      && (LR.Holds(r, s.filings[i]) || exists j | i < j < |s.filings| :: s.filings[j].id == s.filings[i].id)
  }

  ghost predicate SendingsOk(s: State)
  {
    forall b | b in s.sendings ::
      && b < s.clock && s.sendings[b].report.ok
      && (s.sendings[b].recordId.Some? ==> s.sendings[b].recordId.value < s.system.table.next)
  }

  ghost predicate Inv(s: State)
  {
    && LR.RowsOk(s.system.table) && SendingsOk(s) && LastFilingShows(s.system)
    && forall i | 0 <= i < |s.system.filings| :: s.system.filings[i].id < s.system.table.next
  }

  /** A record on which something was filed is no draft: it is never begun again. */
  lemma FiledIsNeverBegun(s: State, profile: string, id: nat)
    requires Inv(s) && Filed(s.system.filings, id)
    ensures DraftFault(s.system.table, profile, id).Some?
  {
  }

  /** What a step does to the rows: it deletes only what it says, and what is no draft keeps
      everything but state and detail. */
  ghost predicate RowsMove(t: Table, m: Move, u: Table)
  {
    && t.next <= u.next
    && (forall id | id < t.next :: id in u.rows <==> id in t.rows && !Deletes(t, m, id))
    && forall id | id in t.rows && !IsDraft(t.rows[id]) :: id in u.rows && !IsDraft(u.rows[id])
  }

  lemma WholeKeeps(t: Table, call: LR.Call)
    requires LR.RowsOk(t) && !call.request.Submit?
    ensures var o := Handle(t, call.profile, call.request);
      && LR.RowsOk(o.table) && LR.Settles(t, o.table) && RowsMove(t, Whole(call), o.table) && o.filed.None?
  {
    hide LR.RowOk;
    if call.request.InquirePending? || call.request.InquireOne? {
      LR.InquiryKeeps(t, call.profile, call.request);
    } else {
      LR.DraftingKeeps(t, call.profile, call.request);
    }
  }

  lemma BeginKeeps(t: Table, profile: string, recordId: Option<nat>, payload: Payload, report: Report)
    requires LR.RowsOk(t)
    ensures var (u, sending) := BeginResult(t, profile, recordId, payload, report);
      && LR.RowsOk(u) && LR.Settles(t, u) && RowsMove(t, Begin(profile, recordId, payload, report), u)
      && (sending.Some? ==>
            && u == t && sending.value.recordId == recordId
            && sending.value.report.ok
            && (recordId.Some? ==>
                  recordId.value in t.rows && recordId.value < t.next && IsDraft(t.rows[recordId.value])))
  {
  }

  lemma FinishKeeps(s: LR.System, sending: Sending, sent: Submission, begun: nat)
    requires LR.RowsOk(s.table) && sending.report.ok
    requires sending.recordId.Some? ==> sending.recordId.value < s.table.next
    ensures var t := FinishResult(s, sending, Some(sent));
      var id := if sending.recordId.Some? then sending.recordId.value else s.table.next;
      && LR.RowsOk(t.table) && RowsMove(s.table, Finish(begun, Some(sent)), t.table) && id < t.table.next
      && t.filings == s.filings + [Filing(id, sent, sending.payload)]
      && (id in t.table.rows ==> LR.Holds(t.table.rows[id], Filing(id, sent, sending.payload)))
      && (forall other | other in t.table.rows && other != id ::
            other in s.table.rows && t.table.rows[other] == s.table.rows[other])
  {
  }

  /** The filing a step makes. */
  function NewFiling(s: State, m: Move): seq<Filing>
  {
    if m.Finish? && m.sent.Some? && m.begun in s.sendings then
      var sending := s.sendings[m.begun];
      [Filing(if sending.recordId.Some? then sending.recordId.value else s.system.table.next,
              m.sent.value, sending.payload)]
    else []
  }

  lemma SettledShows(s: LR.System, u: Table)
    requires LastFilingShows(s) && LR.Settles(s.table, u)
    requires forall i | 0 <= i < |s.filings| :: s.filings[i].id in u.rows ==> s.filings[i].id in s.table.rows
    ensures LastFilingShows(LR.System(u, s.filings))
  {
    forall i | 0 <= i < |s.filings| && s.filings[i].id in u.rows
      ensures var r := u.rows[s.filings[i].id];
        && !IsDraft(r)
        && (LR.Holds(r, s.filings[i]) || exists j | i < j < |s.filings| :: s.filings[j].id == s.filings[i].id)
    {
      var id := s.filings[i].id;
      assert SameFiling(s.table.rows[id], u.rows[id]);
    }
  }

  lemma FinishedShows(s: LR.System, t: LR.System, f: Filing)
    requires LastFilingShows(s) && t.filings == s.filings + [f]
    requires f.id in t.table.rows ==> LR.Holds(t.table.rows[f.id], f)
    requires forall other | other in t.table.rows && other != f.id ::
      other in s.table.rows && t.table.rows[other] == s.table.rows[other]
    ensures LastFilingShows(t)
  {
    var n := |s.filings|;
    assert t.filings[n] == f;
    forall i | 0 <= i < n && t.filings[i].id in t.table.rows
      ensures var r := t.table.rows[t.filings[i].id];
        && !IsDraft(r)
        && (LR.Holds(r, t.filings[i]) || exists j | i < j < |t.filings| :: t.filings[j].id == t.filings[i].id)
    {
      assert t.filings[i] == s.filings[i];
      if t.filings[i].id != f.id && exists j | i < j < n :: s.filings[j].id == s.filings[i].id {
        var j :| i < j < n && s.filings[j].id == s.filings[i].id;
        assert t.filings[j].id == t.filings[i].id;
      }
    }
  }

  lemma StepKeeps(s: State, m: Move)
    requires Inv(s)
    ensures var t := Advance(s, m);
      && Inv(t) && RowsMove(s.system.table, m, t.system.table)
      && t.system.filings == s.system.filings + NewFiling(s, m)
  {
    hide LR.RowOk, LR.RowsOk, LastFilingShows, Handle, BeginResult, FinishResult, LR.Settles, IsDraft, DraftFault;
    var t := Advance(s, m);
    match m {
      case Whole(call) =>
        if !call.request.Submit? {
          WholeKeeps(s.system.table, call);
          SettledShows(s.system, t.system.table);
        } else {
          NothingMoves(s, m);
        }
      case Begin(profile, recordId, payload, report) =>
        BeginKeeps(s.system.table, profile, recordId, payload, report);
        SettledShows(s.system, t.system.table);
      case Finish(begun, sent) =>
        if begun in s.sendings && sent.Some? {
          FinishKeeps(s.system, s.sendings[begun], sent.value, begun);
          FinishedShows(s.system, t.system, NewFiling(s, m)[0]);
        } else {
          NothingMoves(s, m);
        }
    }
  }

  lemma NothingMoves(s: State, m: Move)
    requires (m.Whole? && m.call.request.Submit?) || (m.Finish? && (m.sent.None? || m.begun !in s.sendings))
    ensures Advance(s, m).system == s.system && RowsMove(s.system.table, m, s.system.table)
  {
  }

  lemma {:induction false} RunKeeps(run: seq<Move>)
    ensures Inv(After(run)) && After(run).clock == |run|
  {
    hide Advance, Inv;
    if run == [] {
      StartIsFine();
    } else {
      RunKeeps(run[..|run| - 1]);
      StepKeeps(After(run[..|run| - 1]), run[|run| - 1]);
      ClockTicks(After(run[..|run| - 1]), run[|run| - 1]);
    }
  }

  lemma StartIsFine()
    ensures Inv(START)
  {
  }

  lemma ClockTicks(s: State, m: Move)
    ensures Advance(s, m).clock == s.clock + 1
  {
  }

  // ---- Gaps ---------------------------------------------------------------------------------------------

  lemma BetweenGrows(run: seq<Move>, b: nat, id: nat)
    requires run != []
    ensures var last := |run| - 1;
      && (DeletedBetween(run, b, |run|, id) <==>
            DeletedBetween(run[..last], b, last, id) || (b < last && DeletedAt(run, last, id)))
      && (FinishedBetween(run, b, |run|, id) <==>
            FinishedBetween(run[..last], b, last, id) || (b < last && FinishedAt(run, last, id)))
      && (b >= last ==> !DeletedBetween(run[..last], b, last, id) && !FinishedBetween(run[..last], b, last, id))
  {
    var last := |run| - 1;
    forall k: nat | k < last
      ensures DeletedAt(run[..last], k, id) <==> DeletedAt(run, k, id)
      ensures FinishedAt(run[..last], k, id) <==> FinishedAt(run, k, id)
    {
      assert run[..last][..k] == run[..k];
    }
    hide DeletedAt, FinishedAt;
  }

  lemma WaitingKept(s: State, m: Move, b: nat)
    requires Inv(s) && b in s.sendings && b in Advance(s, m).sendings && s.sendings[b].recordId.Some?
    ensures var t := Advance(s, m);
      var id := s.sendings[b].recordId.value;
      && t.sendings[b] == s.sendings[b] && b < s.clock
      && (id in t.system.table.rows <==> id in s.system.table.rows && !Deletes(s.system.table, m, id))
      && (Filed(t.system.filings, id) <==> Filed(s.system.filings, id) || Finishes(s, m, id))
  {
    hide LR.RowsOk, LastFilingShows, DraftFault, LR.Settles;
    StepKeeps(s, m);
    FiledGrows(s.system.filings, NewFiling(s, m), s.sendings[b].recordId.value);
    hide Advance;
    assert Advance(s, m).sendings[b] == s.sendings[b] by { WaitsOn(s, m, b); }
  }

  lemma WaitsOn(s: State, m: Move, b: nat)
    requires Inv(s) && b in s.sendings && b in Advance(s, m).sendings
    ensures Advance(s, m).sendings[b] == s.sendings[b]
  {
  }

  lemma FiledGrows(filings: seq<Filing>, more: seq<Filing>, id: nat)
    requires |more| <= 1
    ensures Filed(filings + more, id) <==> Filed(filings, id) || (more != [] && more[0].id == id)
  {
    var all := filings + more;
    if i :| 0 <= i < |filings| && filings[i].id == id {
      assert all[i].id == id;
    }
    if more != [] && more[0].id == id {
      assert all[|filings|].id == id;
    }
  }

  lemma JustBegun(s: State, m: Move, b: nat)
    requires Inv(s) && b !in s.sendings && b in Advance(s, m).sendings && Advance(s, m).sendings[b].recordId.Some?
    ensures var t := Advance(s, m);
      var id := t.sendings[b].recordId.value;
      b == s.clock && id in t.system.table.rows && !Filed(t.system.filings, id)
  {
    hide LR.RowsOk, LastFilingShows, LR.Settles;
    BeginKeeps(s.system.table, m.profile, m.recordId, m.payload, m.report);
    var id := m.recordId.value;
    if Filed(s.system.filings, id) {
      FiledIsNeverBegun(s, m.profile, id);
    }
  }

  /** The gap of a submission still waiting: its record is there unless it was deleted in the gap, and
      has a filing only if one was finished in the gap. */
  lemma {:induction false} GapTells(run: seq<Move>, b: nat)
    requires b in After(run).sendings && After(run).sendings[b].recordId.Some?
    ensures var s := After(run);
      var id := s.sendings[b].recordId.value;
      && b < |run|
      && (id in s.system.table.rows <==> !DeletedBetween(run, b, |run|, id))
      && (Filed(s.system.filings, id) <==> FinishedBetween(run, b, |run|, id))
  {
    hide Inv, RowsMove, DeletedBetween, FinishedBetween, Deletes, Finishes;
    RunKeeps(run);
    var last := |run| - 1;
    var front, m := run[..last], run[last];
    var s, t := After(front), After(run);
    var id := t.sendings[b].recordId.value;
    RunKeeps(front);
    StepKeeps(s, m);
    BetweenGrows(run, b, id);
    if b in s.sendings {
      WaitsOn(s, m, b);
      GapTells(front, b);
      WaitingKept(s, m, b);
    } else {
      JustBegun(s, m, b);
    }
  }

  // ---- Exactly when filings are kept ---------------------------------------------------------------

  /** No record was filed twice. */
  ghost predicate Once(s: LR.System)
  {
    forall i, j | 0 <= i < j < |s.filings| :: s.filings[i].id != s.filings[j].id
  }

  /** Every filing's record is there. */
  ghost predicate There(s: LR.System)
  {
    forall i | 0 <= i < |s.filings| :: s.filings[i].id in s.table.rows
  }

  lemma KeptIffOnceAndThere(s: LR.System)
    requires LastFilingShows(s)
    ensures LR.FilingsKept(s) <==> Once(s) && There(s)
  {
  }

  lemma FilingsStay(s: State, m: Move)
    requires Inv(s)
    ensures forall i | 0 <= i < |s.system.filings| ::
      s.system.filings[i].id in Advance(s, m).system.table.rows <==> s.system.filings[i].id in s.system.table.rows
    ensures NewFiling(s, m) != [] ==>
      var id := NewFiling(s, m)[0].id;
      id in Advance(s, m).system.table.rows <==> id in s.system.table.rows || id >= s.system.table.next
  {
    hide LR.RowsOk, Deletes;
    StepKeeps(s, m);
  }

  lemma KeptStep(s: State, m: Move)
    requires Inv(s)
    ensures var t, more := Advance(s, m).system, NewFiling(s, m);
      && (Once(t) <==> Once(s.system) && (more == [] || !Filed(s.system.filings, more[0].id)))
      && (There(t)
          <==> && There(s.system)
               && (more == [] || more[0].id in s.system.table.rows || more[0].id >= s.system.table.next))
  {
    StepKeeps(s, m);
    FilingsStay(s, m);
    hide Advance, Inv, RowsMove, NewFiling;
    Appended(s.system, Advance(s, m).system, NewFiling(s, m));
  }

  lemma Appended(s: LR.System, t: LR.System, more: seq<Filing>)
    requires t.filings == s.filings + more && |more| <= 1
    requires forall i | 0 <= i < |s.filings| :: s.filings[i].id in t.table.rows <==> s.filings[i].id in s.table.rows
    ensures Once(t) <==> Once(s) && (more == [] || !Filed(s.filings, more[0].id))
    ensures There(t) <==> There(s) && (more == [] || more[0].id in t.table.rows)
  {
    var f, g := s.filings, t.filings;
    assert forall i | 0 <= i < |f| :: g[i] == f[i];
    if more != [] {
      assert g[|f|] == more[0];
    }
  }

  lemma BetweenOfPrefix(run: seq<Move>, b: nat, f: nat, id: nat)
    requires run != [] && f <= |run| - 1
    ensures var front := run[..|run| - 1];
      && (DeletedBetween(front, b, f, id) <==> DeletedBetween(run, b, f, id))
      && (FinishedBetween(front, b, f, id) <==> FinishedBetween(run, b, f, id))
      && (f < |front| ==> (FinishedAt(front, f, id) <==> FinishedAt(run, f, id)))
  {
    var front := run[..|run| - 1];
    forall k: nat | k < |front|
      ensures DeletedAt(front, k, id) <==> DeletedAt(run, k, id)
      ensures FinishedAt(front, k, id) <==> FinishedAt(run, k, id)
    {
      assert front[..k] == run[..k];
    }
    hide DeletedAt, FinishedAt;
  }

  lemma ConditionOfPrefix(run: seq<Move>, f: nat)
    requires run != [] && f < |run| - 1
    ensures Overtaken(run[..|run| - 1], f) <==> Overtaken(run, f)
    ensures Orphaned(run[..|run| - 1], f) <==> Orphaned(run, f)
  {
    var front := run[..|run| - 1];
    assert front[f] == run[f];
    if run[f].Finish? {
      forall id: nat
        ensures
          && (FinishedAt(front, f, id) <==> FinishedAt(run, f, id))
          && (DeletedBetween(front, run[f].begun, f, id) <==> DeletedBetween(run, run[f].begun, f, id))
          && (FinishedBetween(front, run[f].begun, f, id) <==> FinishedBetween(run, run[f].begun, f, id))
      {
        BetweenOfPrefix(run, run[f].begun, f, id);
      }
      hide FinishedAt, DeletedBetween, FinishedBetween;
    } else {
      hide DeletedBetween, FinishedBetween;
    }
  }

  lemma ConditionsGrow(run: seq<Move>)
    requires run != []
    ensures var last := |run| - 1;
      && (NoneOvertaken(run) <==> NoneOvertaken(run[..last]) && !Overtaken(run, last))
      && (NoneOrphaned(run) <==> NoneOrphaned(run[..last]) && !Orphaned(run, last))
  {
    hide *;
    forall f: nat | f < |run| - 1
      ensures Overtaken(run[..|run| - 1], f) <==> Overtaken(run, f)
      ensures Orphaned(run[..|run| - 1], f) <==> Orphaned(run, f)
    {
      ConditionOfPrefix(run, f);
    }
    OvertakenGrows(run);
    OrphanedGrows(run);
  }

  lemma OvertakenGrows(run: seq<Move>)
    requires run != []
    requires forall f: nat | f < |run| - 1 :: Overtaken(run[..|run| - 1], f) <==> Overtaken(run, f)
    ensures NoneOvertaken(run) <==> NoneOvertaken(run[..|run| - 1]) && !Overtaken(run, |run| - 1)
  {
    hide Overtaken;
    var front := run[..|run| - 1];
    if NoneOvertaken(run) {
      forall f | 0 <= f < |front|
        ensures !Overtaken(front, f)
      {
        assert Overtaken(front, f) <==> Overtaken(run, f);
      }
    }
    if NoneOvertaken(front) && !Overtaken(run, |front|) {
      forall f | 0 <= f < |run|
        ensures !Overtaken(run, f)
      {
        assert f < |front| ==> (Overtaken(front, f) <==> Overtaken(run, f));
      }
    }
  }

  lemma OrphanedGrows(run: seq<Move>)
    requires run != []
    requires forall f: nat | f < |run| - 1 :: Orphaned(run[..|run| - 1], f) <==> Orphaned(run, f)
    ensures NoneOrphaned(run) <==> NoneOrphaned(run[..|run| - 1]) && !Orphaned(run, |run| - 1)
  {
    hide Orphaned;
    var front := run[..|run| - 1];
    if NoneOrphaned(run) {
      forall f | 0 <= f < |front|
        ensures !Orphaned(front, f)
      {
        assert Orphaned(front, f) <==> Orphaned(run, f);
      }
    }
    if NoneOrphaned(front) && !Orphaned(run, |front|) {
      forall f | 0 <= f < |run|
        ensures !Orphaned(run, f)
      {
        assert f < |front| ==> (Orphaned(front, f) <==> Orphaned(run, f));
      }
    }
  }

  /** Over every run: no record is filed twice exactly when no finished submission was overtaken by
      another of its record between its two steps; and every filing's record is there exactly when
      none was deleted there. */
  lemma {:induction false} KeptExactly(run: seq<Move>)
    ensures Once(After(run).system) <==> NoneOvertaken(run)
    ensures There(After(run).system) <==> NoneOrphaned(run)
  {
    if run != [] {
      var last := |run| - 1;
      var front, m := run[..last], run[last];
      KeptExactly(front);
      RunKeeps(front);
      KeptStep(After(front), m);
      ConditionsGrow(run);
      LastIsClean(run);
      hide *;
    }
  }

  lemma LastIsClean(run: seq<Move>)
    requires run != []
    ensures var last := |run| - 1;
      var s := After(run[..last]).system;
      var more := NewFiling(After(run[..last]), run[last]);
      && ((more == [] || !Filed(s.filings, more[0].id)) <==> !Overtaken(run, last))
      && ((more == [] || more[0].id in s.table.rows || more[0].id >= s.table.next) <==> !Orphaned(run, last))
  {
    var last := |run| - 1;
    var front, m := run[..last], run[last];
    var s := After(front);
    RunKeeps(front);
    hide DeletedBetween, FinishedBetween, LR.RowsOk, LastFilingShows;
    if m.Finish? && m.begun in s.sendings && s.sendings[m.begun].recordId.Some? {
      var id := s.sendings[m.begun].recordId.value;
      GapTells(front, m.begun);
      BetweenOfPrefix(run, m.begun, last, id);
      if m.sent.Some? {
        assert FinishedAt(run, last, id);
      }
    }
  }

  /** So filings are kept, as for whole requests, exactly when no submission had its record filed or
      deleted in its gap. */
  lemma FilingsKeptIff(run: seq<Move>)
    ensures LR.FilingsKept(After(run).system) <==> NoneOvertaken(run) && NoneOrphaned(run)
  {
    RunKeeps(run);
    KeptIffOnceAndThere(After(run).system);
    KeptExactly(run);
  }

  // ---- Both can happen -----------------------------------------------------------------------------------

  /** Two submissions begun on one draft, whatever their payloads: both are filed, and the record keeps
      only the second. */
  lemma OverlappingSubmitsFileTwice(
    s: State, profile: string, id: nat, payload: Payload, other: Payload, report: Report,
    first: Submission, second: Submission)
    requires Inv(s) && DraftFault(s.system.table, profile, id).None? && report.ok
    ensures var once := Advance(s, Begin(profile, Some(id), payload, report));
      var begun := Advance(once, Begin(profile, Some(id), other, report));
      var t := Advance(Advance(begun, Finish(s.clock, Some(first))), Finish(s.clock + 1, Some(second)));
      && t.system.filings
         == s.system.filings + [Filing(id, first, payload)] + [Filing(id, second, other)]
      && id in t.system.table.rows && LR.Holds(t.system.table.rows[id], Filing(id, second, other))
  {
  }

  /** A draft deleted while it is being sent: it is filed, and there is no record of that. */
  lemma DeletedWhileSent(s: State, profile: string, id: nat, payload: Payload, report: Report, sent: Submission)
    requires Inv(s) && DraftFault(s.system.table, profile, id).None? && report.ok
    ensures var gone := Advance(Advance(s, Begin(profile, Some(id), payload, report)),
                                Whole(LR.Call(profile, DeleteDraft(id))));
      var t := Advance(gone, Finish(s.clock, Some(sent)));
      && t.system.filings == s.system.filings + [Filing(id, sent, payload)]
      && id !in t.system.table.rows
  {
  }
}
