/** What an answer of the organization makes of a record, in terms of the answer's status alone. */
module Verdicts {
  import opened Results
  import opened Records
  import opened Reconcile
  import opened ReconcileLaws
  import opened Lifecycle
  import opened LifecycleRuns
  import opened Cancellation

  /** A success confirms, a failure rejects, and anything else leaves the record waiting. */
  predicate Follows(state: State, status: Option<Status>)
  {
    && (state == Confirmed <==> status == Some(Success))
    && (state == Rejected <==> status == Some(Failed))
    && (state == Sent <==> status != Some(Success) && status != Some(Failed))
  }

  /** In a batch, an answered record that no later item voids ends as its answer says, with that answer
      noted; one that is voided ends cancelled. */
  lemma AnsweredEnds(t: Table, items: seq<Item>, profile: string, answers: Answers, p: nat)
    requires IsBatch(t, items, profile) && p < |items| && Ref(items[p].record) in answers
    ensures var after := Reconciled(t, items, profile, answers, false);
      var answer := answers[Ref(items[p].record)];
      && items[p].id in after.rows
      && after.rows[items[p].id].detail.inquiry == Some(answer)
      && if exists k | p < k < |items| :: Voids(t, items[k], profile, answers, items[p].id)
         then after.rows[items[p].id].state == Cancelled
         else Follows(after.rows[items[p].id].state, answer.status)
  {
    hide RowAfter, Voids;
    assert t.Awaits(items[p].id, profile);
    TableFollowsRows(t, items, profile, answers, false, items[p].id);
    ItemRow(t, items, profile, answers, false, p);
    FirstVoiderIsItem(t, items, profile, answers, p + 1, items[p].id);
  }

  /** A record the batch has no answer for, and does not void, is not touched. */
  lemma UnansweredStays(t: Table, items: seq<Item>, profile: string, answers: Answers, x: nat)
    requires IsBatch(t, items, profile) && x in t.rows
    requires forall i | 0 <= i < |items| :: items[i].id == x ==> Ref(items[i].record) !in answers
    requires forall k | 0 <= k < |items| :: !Voids(t, items[k], profile, answers, x)
    ensures var after := Reconciled(t, items, profile, answers, false);
      x in after.rows && after.rows[x] == t.rows[x]
  {
    hide RowAfter, Voids;
    TableFollowsRows(t, items, profile, answers, false, x);
    UnansweredRow(t, items, profile, answers, x);
    FirstVoiderIsItem(t, items, profile, answers, 0, x);
  }

  // ---- Over runs -----------------------------------------------------------------------------------

  /** A confirmed or rejected record carries the answer that made it so. */
  predicate Justified(r: Record)
  {
    && (r.state == Confirmed ==> r.detail.inquiry.Some? && r.detail.inquiry.value.status == Some(Success))
    && (r.state == Rejected ==> r.detail.inquiry.Some? && r.detail.inquiry.value.status == Some(Failed))
  }

  lemma BatchJustifies(t: Table, items: seq<Item>, profile: string, answers: Answers, x: nat)
    requires IsBatch(t, items, profile) && x in t.rows && Justified(t.rows[x])
    ensures var after := Reconciled(t, items, profile, answers, false);
      x in after.rows && Justified(after.rows[x])
  {
    hide Reconciled, Voids, RowAfter;
    if p :| 0 <= p < |items| && items[p].id == x && Ref(items[p].record) in answers {
      AnsweredEnds(t, items, profile, answers, p);
    } else {
      OtherCancelledIff(t, items, profile, answers, x);
      TableFollowsRows(t, items, profile, answers, false, x);
      UnansweredRow(t, items, profile, answers, x);
    }
  }

  /** In every run without single inquiries, each confirmed record's last answer is a success and each
      rejected one's a failure. */
  lemma {:induction false} VerdictsAreAnswers(calls: seq<Call>)
    requires forall i | 0 <= i < |calls| :: !calls[i].request.InquireOne?
    ensures var t := Run(EMPTY, calls).table; forall x | x in t.rows :: Justified(t.rows[x])
  {
    if calls != [] {
      hide Justified, Step;
      var front, last := calls[..|calls| - 1], calls[|calls| - 1];
      VerdictsAreAnswers(front);
      var s := Run(EMPTY, front);
      forall x | x in Step(s, last).table.rows
        ensures Justified(Step(s, last).table.rows[x])
      {
        StepJustifies(front, last, x);
      }
    }
  }

  lemma StepJustifies(front: seq<Call>, c: Call, x: nat)
    requires !c.request.InquireOne? && x in Step(Run(EMPTY, front), c).table.rows
    requires forall y | y in Run(EMPTY, front).table.rows :: Justified(Run(EMPTY, front).table.rows[y])
    ensures Justified(Step(Run(EMPTY, front), c).table.rows[x])
  {
    hide Reconciled, Step, Run, LifecycleRuns.RowOk;
    var s := Run(EMPTY, front);
    EmptyHolds();
    RunKeeps(EMPTY, front);
    StepIsHandle(s, c);
    if c.request.InquirePending? {
      PendingIsBatch(s.table, c.profile, c.request.limit);
      var items := PendingItems(s.table, c.profile, c.request.limit);
      Shapes(s.table, items, c.profile, AnswersTo(items, c.request.service), false);
      BatchJustifies(s.table, items, c.profile, AnswersTo(items, c.request.service), x);
    } else {
      NewlyUnjudged(s, c, x);
    }
  }

  /** A request on drafts makes nothing confirmed or rejected. */
  lemma NewlyUnjudged(s: System, c: Call, x: nat)
    requires LifecycleRuns.Inv(s) && !c.request.InquirePending? && !c.request.InquireOne? && x in Step(s, c).table.rows
    ensures var r := Step(s, c).table.rows[x];
      (r.state == Draft || r.state == Invalid || r.state == Sent) || (x in s.table.rows && r == s.table.rows[x])
  {
    hide LifecycleRuns.RowOk, LifecycleRuns.FilingsKept;
  }
}
