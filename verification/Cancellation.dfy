/** Which records are cancelled, and by whom. */
module Cancellation {
  import opened Results
  import opened Records
  import opened Reconcile
  import opened ReconcileLaws
  import opened Lifecycle
  import opened LifecycleRuns

  /** `v` is a filed cancellation of the same profile that names the tax id of `r` and was confirmed: the
      organization's last answer about it is a success.  It may have been voided itself since. */
  predicate ExplainedBy(r: Record, v: Record)
  {
    && v.profile == r.profile && v.payload.ins == 3 && v.payload.irtaxid != "" && r.taxId == Some(v.payload.irtaxid)
    && WasConfirmed(v)
  }

  predicate WasConfirmed(v: Record)
  {
    && Truthy(v.reference) && (v.state == Confirmed || v.state == Cancelled)
    && v.detail.inquiry.Some? && v.detail.inquiry.value.status == Some(Success)
  }

  ghost predicate Explained(t: Table, id: nat)
    requires id in t.rows
  {
    exists v :: t.rows[id].detail.cancelledBy == Some(v) && v != id && v in t.rows
                && ExplainedBy(t.rows[id], t.rows[v])
  }

  ghost predicate AllExplained(t: Table)
  {
    forall id | id in t.rows && t.rows[id].state == Cancelled :: Explained(t, id)
  }

  /** Cancelled records stay cancelled. */
  ghost predicate StaysCancelled(t: Table, u: Table)
  {
    forall id | id in t.rows && t.rows[id].state == Cancelled :: id in u.rows && u.rows[id].state == Cancelled
  }

  // ---- One pending inquiry -------------------------------------------------------------------------

  /** What an item's answer makes of the item itself, when it confirms a cancellation. */
  lemma VoiderIsConfirmed(t: Table, items: seq<Item>, profile: string, answers: Answers, k: nat, x: nat)
    requires IsBatch(t, items, profile) && k < |items| && Voids(t, items[k], profile, answers, x)
    ensures var after := Reconciled(t, items, profile, answers, false);
      && items[k].id in after.rows
      && SameFiling(t.rows[items[k].id], after.rows[items[k].id])
      && WasConfirmed(after.rows[items[k].id])
  {
    assert t.Awaits(items[k].id, profile);
    TableFollowsRows(t, items, profile, answers, false, items[k].id);
    ItemRow(t, items, profile, answers, false, k);
  }

  /** A record cancelled by a batch is explained by an item of it. */
  lemma NewlyExplained(t: Table, items: seq<Item>, profile: string, answers: Answers, x: nat, k: nat)
    requires IsBatch(t, items, profile) && x in t.rows
    requires k < |items| && Voids(t, items[k], profile, answers, x)
    requires var after := Reconciled(t, items, profile, answers, false);
      x in after.rows && after.rows[x].detail.cancelledBy == Some(items[k].id)
    ensures Explained(Reconciled(t, items, profile, answers, false), x)
  {
    var after := Reconciled(t, items, profile, answers, false);
    VoiderIsConfirmed(t, items, profile, answers, k, x);
    TableFollowsRows(t, items, profile, answers, false, x);
    FindBelowIsHighest(t, profile, items[k].record.payload.irtaxid, t.next);
    assert t.Awaits(items[k].id, profile);
    assert ExplainedBy(after.rows[x], after.rows[items[k].id]);
  }

  lemma WasExplained(t: Table, items: seq<Item>, profile: string, answers: Answers, x: nat)
    requires IsBatch(t, items, profile) && x in t.rows && t.rows[x].state == Cancelled && Explained(t, x)
    ensures var after := Reconciled(t, items, profile, answers, false);
      x in after.rows && after.rows[x].state == Cancelled && Explained(after, x)
  {
    var v :| t.rows[x].detail.cancelledBy == Some(v) && v != x && v in t.rows && ExplainedBy(t.rows[x], t.rows[v]);
    assert forall i | 0 <= i < |items| :: t.Awaits(items[i].id, profile);
    TableFollowsRows(t, items, profile, answers, false, x);
    TableFollowsRows(t, items, profile, answers, false, v);
    UnansweredRow(t, items, profile, answers, x);
    UnansweredRow(t, items, profile, answers, v);
    var after := Reconciled(t, items, profile, answers, false);
    assert ExplainedBy(after.rows[x], after.rows[v]);
  }

  lemma BatchExplains(t: Table, items: seq<Item>, profile: string, answers: Answers, x: nat)
    requires IsBatch(t, items, profile) && AllExplained(t) && x in t.rows
    requires var after := Reconciled(t, items, profile, answers, false);
      x in after.rows && after.rows[x].state == Cancelled
    ensures Explained(Reconciled(t, items, profile, answers, false), x)
  {
    hide RowAfter, Voids, Reconciled;
    assert forall i | 0 <= i < |items| :: t.Awaits(items[i].id, profile);
    TableFollowsRows(t, items, profile, answers, false, x);
    if t.rows[x].state == Cancelled {
      WasExplained(t, items, profile, answers, x);
    } else if p :| 0 <= p < |items| && items[p].id == x && Answered(items[p], answers) {
      ItemRow(t, items, profile, answers, false, p);
      FirstVoiderIsItem(t, items, profile, answers, p + 1, x);
      var k :| p + 1 <= k < |items| && items[k].id == FirstVoider(t, items, profile, answers, p + 1, x).value
               && Voids(t, items[k], profile, answers, x);
      NewlyExplained(t, items, profile, answers, x, k);
    } else {
      UnansweredRow(t, items, profile, answers, x);
      FirstVoiderIsItem(t, items, profile, answers, 0, x);
      var k :| 0 <= k < |items| && items[k].id == FirstVoider(t, items, profile, answers, 0, x).value
               && Voids(t, items[k], profile, answers, x);
      NewlyExplained(t, items, profile, answers, x, k);
    }
  }

  lemma PendingKeeps(t: Table, profile: string, limit: int, service: Service)
    requires AllExplained(t)
    ensures var u := InquirePendingResult(t, profile, limit, service).table;
      AllExplained(u) && StaysCancelled(t, u)
  {
    hide Reconciled;
    PendingIsBatch(t, profile, limit);
    var items := PendingItems(t, profile, limit);
    var answers := AnswersTo(items, service);
    Shapes(t, items, profile, answers, false);
    var u := Reconciled(t, items, profile, answers, false);
    forall x | x in u.rows && u.rows[x].state == Cancelled
      ensures Explained(u, x)
    {
      BatchExplains(t, items, profile, answers, x);
    }
    forall x | x in t.rows && t.rows[x].state == Cancelled
      ensures x in u.rows && u.rows[x].state == Cancelled
    {
      WasExplained(t, items, profile, answers, x);
    }
  }

  /** Record `x` is the last of a profile filed under a tax id. */
  ghost predicate LastUnder(t: Table, profile: string, taxId: string, x: nat)
  {
    && x in t.rows && t.rows[x].profile == profile && t.rows[x].taxId == Some(taxId)
    && forall other | other in t.rows && other > x ::
         !(t.rows[other].profile == profile && t.rows[other].taxId == Some(taxId))
  }

  /** A cancellation confirmed by a pending inquiry takes effect: the last record under the tax id it
      names, if filed before it, ends up cancelled. */
  lemma ConfirmedCancellationTakesEffect(t: Table, profile: string, limit: int, service: Service, k: nat, x: nat)
    requires t.Valid() && k < |PendingItems(t, profile, limit)|
    requires var items := PendingItems(t, profile, limit);
      var item, answers := items[k], AnswersTo(items, service);
      && item.record.payload.ins == 3 && item.record.payload.irtaxid != ""
      && Ref(item.record) in answers && answers[Ref(item.record)].status == Some(Success)
      && LastUnder(t, profile, item.record.payload.irtaxid, x) && x < item.id
    ensures var u := InquirePendingResult(t, profile, limit, service).table;
      x in u.rows && u.rows[x].state == Cancelled
  {
    hide Reconciled;
    PendingIsBatch(t, profile, limit);
    var items := PendingItems(t, profile, limit);
    var answers := AnswersTo(items, service);
    LastIsFound(t, profile, items[k].record.payload.irtaxid, x);
    assert Voids(t, items[k], profile, answers, x);
    if p :| 0 <= p < |items| && items[p].id == x && Answered(items[p], answers) {
      assert p < k;
      ItemCancelledIff(t, items, profile, answers, p);
    } else {
      OtherCancelledIff(t, items, profile, answers, x);
    }
  }

  lemma LastIsFound(t: Table, profile: string, taxId: string, x: nat)
    requires t.Valid() && LastUnder(t, profile, taxId, x)
    ensures t.FindByTaxId(profile, taxId) == Some(x)
  {
    FindBelowIsHighest(t, profile, taxId, t.next);
    assert t.Carries(x, profile, taxId);
  }

  // ---- Runs in which only pending inquiries move verdicts -----------------------------------------------

  /** A request on drafts changes nothing else, and cancels nothing. */
  lemma DraftingKeepsFiled(s: System, c: Call)
    requires LifecycleRuns.Inv(s) && !c.request.InquirePending? && !c.request.InquireOne?
    ensures var t, u := s.table, Step(s, c).table;
      && (forall x | x in t.rows && !IsDraft(t.rows[x]) :: x in u.rows && u.rows[x] == t.rows[x])
      && (forall x | x in u.rows && u.rows[x].state == Cancelled :: x in t.rows && u.rows[x] == t.rows[x])
  {
    hide LifecycleRuns.RowOk, LifecycleRuns.FilingsKept;
  }

  lemma DraftingExplains(s: System, c: Call)
    requires LifecycleRuns.Inv(s) && AllExplained(s.table) && !c.request.InquirePending? && !c.request.InquireOne?
    ensures AllExplained(Step(s, c).table) && StaysCancelled(s.table, Step(s, c).table)
  {
    hide Step;
    DraftingKeepsFiled(s, c);
    var u := Step(s, c).table;
    forall x | x in u.rows && u.rows[x].state == Cancelled
      ensures Explained(u, x)
    {
      assert Explained(s.table, x);
    }
  }

  /** In every run without single inquiries, each cancelled record names the confirmed
      cancellation of its own profile, and its tax id is the one that cancellation names. */
  lemma {:induction false} CancelledOnlyByConfirmed(calls: seq<Call>)
    requires forall i | 0 <= i < |calls| :: !calls[i].request.InquireOne?
    ensures AllExplained(Run(EMPTY, calls).table)
  {
    if calls != [] {
      var front, last := calls[..|calls| - 1], calls[|calls| - 1];
      CancelledOnlyByConfirmed(front);
      CancelledStep(front, last);
    }
  }

  lemma CancelledStep(front: seq<Call>, last: Call)
    requires AllExplained(Run(EMPTY, front).table) && !last.request.InquireOne?
    ensures AllExplained(Step(Run(EMPTY, front), last).table)
    ensures StaysCancelled(Run(EMPTY, front).table, Step(Run(EMPTY, front), last).table)
  {
    var s := Run(EMPTY, front);
    assert LifecycleRuns.Inv(EMPTY);
    RunKeeps(EMPTY, front);
    if last.request.InquirePending? {
      PendingKeeps(s.table, last.profile, last.request.limit, last.request.service);
    } else {
      DraftingExplains(s, last);
    }
  }

  /** In such runs a cancelled record stays cancelled to the end. */
  lemma {:induction false} CancelledForGood(calls: seq<Call>, n: nat)
    requires n <= |calls| && forall i | 0 <= i < |calls| :: !calls[i].request.InquireOne?
    ensures StaysCancelled(Run(EMPTY, calls[..n]).table, Run(EMPTY, calls).table)
    decreases |calls|
  {
    if n == |calls| {
      assert calls[..n] == calls;
    } else {
      var front := calls[..|calls| - 1];
      assert front[..n] == calls[..n];
      CancelledForGood(front, n);
      CancelledOnlyByConfirmed(front);
      CancelledStep(front, calls[|calls| - 1]);
    }
  }

  // ---- What the handlers do not guarantee ------------------------------------------------------------

  /** Asking about a single record does not look at its state: a cancelled record that is asked
      about stays cancelled exactly when the answer is no verdict. */
  lemma InquireOneRevives(t: Table, profile: string, id: nat, service: Service)
    requires id in t.rows && t.rows[id].profile == profile && t.rows[id].state == Cancelled
    requires Truthy(t.rows[id].reference)
    requires Ref(t.rows[id]) in AnswersTo([Item(id, t.rows[id])], service)
    ensures var u := InquireOneResult(t, profile, id, service).table;
      var answer := AnswersTo([Item(id, t.rows[id])], service)[Ref(t.rows[id])];
      && id in u.rows
      && (u.rows[id].state == Cancelled <==> Verdict(answer.status).None?)
  {
  }

  /** A single inquiry about record `x` that brings a verdict. */
  predicate Revives(t: Table, c: Call, x: nat)
  {
    && c.request.InquireOne? && c.request.id == x
    && x in t.rows && t.rows[x].profile == c.profile && Truthy(t.rows[x].reference)
    && var answers := AnswersTo([Item(x, t.rows[x])], c.request.service);
       Ref(t.rows[x]) in answers && Verdict(answers[Ref(t.rows[x])].status).Some?
  }

  lemma OneKeepsOthers(t: Table, c: Call, x: nat)
    requires c.request.InquireOne? && x in t.rows && t.rows[x].state == Cancelled && c.request.id != x
    ensures var u := InquireOneResult(t, c.profile, c.request.id, c.request.service).table;
      x in u.rows && u.rows[x].state == Cancelled
  {
  }

  /** In every reachable table and for every request: a cancelled record stays, and stays cancelled unless
      the request is a single inquiry about it that brings a verdict. */
  lemma StaysCancelledIff(calls: seq<Call>, c: Call, x: nat)
    requires var t := Run(EMPTY, calls).table; x in t.rows && t.rows[x].state == Cancelled
    ensures var t, u := Run(EMPTY, calls).table, Step(Run(EMPTY, calls), c).table;
      x in u.rows && (u.rows[x].state == Cancelled <==> !Revives(t, c, x))
  {
    hide Reconciled, Step, LifecycleRuns.RowOk;
    var s := Run(EMPTY, calls);
    var t := s.table;
    assert LifecycleRuns.Inv(EMPTY) by { EmptyHolds(); }
    RunKeeps(EMPTY, calls);
    StepIsHandle(s, c);
    if c.request.InquirePending? {
      PendingIsBatch(t, c.profile, c.request.limit);
      var items := PendingItems(t, c.profile, c.request.limit);
      assert forall i | 0 <= i < |items| :: t.Awaits(items[i].id, c.profile);
      OtherCancelledIff(t, items, c.profile, AnswersTo(items, c.request.service), x);
    } else if c.request.InquireOne? {
      OneCancelledIff(t, c, x);
    } else {
      DraftingKeepsFiled(s, c);
    }
  }

  lemma StepIsHandle(s: System, c: Call)
    ensures Step(s, c).table == Handle(s.table, c.profile, c.request).table
  {
  }

  lemma OneCancelledIff(t: Table, c: Call, x: nat)
    requires c.request.InquireOne? && x in t.rows && t.rows[x].state == Cancelled
    ensures var u := InquireOneResult(t, c.profile, c.request.id, c.request.service).table;
      x in u.rows && (u.rows[x].state == Cancelled <==> !Revives(t, c, x))
  {
    if c.request.id != x {
      OneKeepsOthers(t, c, x);
    }
  }
}
