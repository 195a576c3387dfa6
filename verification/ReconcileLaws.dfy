/** What a batch of verdicts does to each record, and when it agrees with fresh reads. */
module ReconcileLaws {
  import opened Results
  import opened Records
  import opened Reconcile

  /** The pending list as it stands at the start of a batch. */
  ghost predicate IsBatch(t: Table, items: seq<Item>, profile: string)
  {
    && (forall i, j | 0 <= i < j < |items| :: items[i].id < items[j].id)
    && (forall i | 0 <= i < |items| ::
          && items[i].id in t.rows && t.rows[items[i].id] == items[i].record
          && t.Awaits(items[i].id, profile))
  }

  predicate Answered(item: Item, answers: Answers)
  {
    Ref(item.record) in answers
  }

  function StatusOf(item: Item, answers: Answers): Option<Status>
    requires Answered(item, answers)
  {
    answers[Ref(item.record)].status
  }

  /** The item is a cancellation confirmed by its answer, and names record `x` of the table. */
  predicate Voids(t: Table, item: Item, profile: string, answers: Answers, x: nat)
  {
    && Answered(item, answers) && StatusOf(item, answers) == Some(Success)
    && item.record.payload.ins == 3 && item.record.payload.irtaxid != ""
    && t.FindByTaxId(profile, item.record.payload.irtaxid) == Some(x) && x != item.id
  }

  // ---- One row at a time ----------------------------------------------------------------------

  /** What one item does to row `x`. */
  function RowStep(
    t: Table, row: Record, item: Item, profile: string, answers: Answers, reread: bool, x: nat): Record
  {
    var here :=
      if item.id == x && Answered(item, answers) then
        Judged(if reread then row else item.record, answers[Ref(item.record)])
      else row;
    if Voids(t, item, profile, answers, x) && here.state != Cancelled then Cancelling(here, item.id) else here
  }

  function RowAfter(
    t: Table, items: seq<Item>, profile: string, answers: Answers, reread: bool, x: nat): Record
    requires x in t.rows
  {
    if items == [] then t.rows[x]
    else
      RowStep(t, RowAfter(t, items[..|items| - 1], profile, answers, reread, x),
              items[|items| - 1], profile, answers, reread, x)
  }

  /** Everything about a record but its state and its detail. */
  predicate SameFiling(a: Record, b: Record)
  {
    a.(state := b.state, detail := b.detail) == b
  }

  /** Tables with the same filings find the same records. */
  ghost predicate SameFilings(t: Table, u: Table)
  {
    t.next == u.next && t.rows.Keys == u.rows.Keys && forall id | id in t.rows :: SameFiling(t.rows[id], u.rows[id])
  }

  lemma {:induction false} SameFilingsFindSame(t: Table, u: Table, profile: string, taxId: string, n: nat)
    requires SameFilings(t, u)
    ensures t.FindBelow(profile, taxId, n) == u.FindBelow(profile, taxId, n)
  {
    if n > 0 {
      assert t.Carries(n - 1, profile, taxId) == u.Carries(n - 1, profile, taxId) by {
        if n - 1 in t.rows {
          assert SameFiling(t.rows[n - 1], u.rows[n - 1]);
        }
      }
      SameFilingsFindSame(t, u, profile, taxId, n - 1);
    }
  }

  /** Only an item already dealt with has a state other than sent or cancelled. */
  predicate Unjudged(record: Record)
  {
    record.state == Sent || record.state == Cancelled
  }

  lemma ProcessRow(t: Table, u: Table, item: Item, profile: string, answers: Answers, reread: bool, x: nat)
    requires SameFilings(t, u) && item.id in u.rows && x in u.rows
    requires SameFiling(item.record, u.rows[item.id]) && item.record.state == Sent && Unjudged(u.rows[item.id])
    ensures var after := Process(u, item, profile, answers, reread);
      && SameFilings(t, after)
      && after.rows[x] == RowStep(t, u.rows[x], item, profile, answers, reread, x)
  {
    hide Table.FindBelow;
    if Answered(item, answers) {
      var read := if reread then u.rows[item.id] else item.record;
      var record := Judged(read, answers[Ref(item.record)]);
      var saved := u.Save(item.id, record);
      assert SameFilings(t, saved);
      assert record.state == Confirmed <==> StatusOf(item, answers) == Some(Success);
      SameFilingsFindSame(t, saved, profile, item.record.payload.irtaxid, t.next);
    }
  }

  lemma {:induction false} TableFollowsRows(
    t: Table, items: seq<Item>, profile: string, answers: Answers, reread: bool, x: nat)
    requires IsBatch(t, items, profile) && x in t.rows
    ensures var after := Reconciled(t, items, profile, answers, reread);
      SameFilings(t, after) && after.rows[x] == RowAfter(t, items, profile, answers, reread, x)
  {
    if items != [] {
      var front, last := items[..|items| - 1], items[|items| - 1];
      assert last.id in t.rows && items[|items| - 1].record == t.rows[last.id];
      TableFollowsRows(t, front, profile, answers, reread, x);
      TableFollowsRows(t, front, profile, answers, reread, last.id);
      UntouchedIsUnjudged(t, front, profile, answers, reread, last.id);
      ProcessRow(t, Reconciled(t, front, profile, answers, reread), last, profile, answers, reread, x);
    }
  }

  lemma {:induction false} UntouchedIsUnjudged(
    t: Table, items: seq<Item>, profile: string, answers: Answers, reread: bool, x: nat)
    requires x in t.rows && t.rows[x].state == Sent
    requires forall i | 0 <= i < |items| :: items[i].id != x
    ensures Unjudged(RowAfter(t, items, profile, answers, reread, x))
  {
    if items != [] {
      UntouchedIsUnjudged(t, items[..|items| - 1], profile, answers, reread, x);
    }
  }

  // ---- The first voider decides ------------------------------------------------------------------

  /** The id of the first item at a place from `lo` on that voids `x`. */
  function FirstVoider(
    t: Table, items: seq<Item>, profile: string, answers: Answers, lo: nat, x: nat): Option<nat>
  {
    if |items| <= lo then None
    else
      var front := FirstVoider(t, items[..|items| - 1], profile, answers, lo, x);
      if front.Some? then front
      else if Voids(t, items[|items| - 1], profile, answers, x) then Some(items[|items| - 1].id)
      else None
  }

  function CancelledBy(record: Record, voider: Option<nat>): Record
  {
    if voider.Some? then Cancelling(record, voider.value) else record
  }

  /** A stretch of items that does not contain `x` only cancels it, if any of them voids it. */
  lemma {:induction false} StretchWithout(
    t: Table, items: seq<Item>, profile: string, answers: Answers, reread: bool, lo: nat, x: nat)
    requires x in t.rows && lo <= |items|
    requires forall i | lo <= i < |items| :: items[i].id != x
    ensures var before := RowAfter(t, items[..lo], profile, answers, reread, x);
      RowAfter(t, items, profile, answers, reread, x)
      == if before.state == Cancelled then before
         else CancelledBy(before, FirstVoider(t, items, profile, answers, lo, x))
  {
    if |items| == lo {
      assert items[..lo] == items;
    } else {
      var front := items[..|items| - 1];
      assert front[..lo] == items[..lo];
      StretchWithout(t, front, profile, answers, reread, lo, x);
    }
  }

  /** The row of an item, from just before its turn to the end of the batch. */
  lemma ItemRow(t: Table, items: seq<Item>, profile: string, answers: Answers, reread: bool, p: nat)
    requires IsBatch(t, items, profile) && p < |items| && Answered(items[p], answers)
    ensures var x := items[p].id;
      var before := CancelledBy(items[p].record, FirstVoider(t, items[..p], profile, answers, 0, x));
      var judged := Judged(if reread then before else items[p].record, answers[Ref(items[p].record)]);
      && x in t.rows
      && RowAfter(t, items, profile, answers, reread, x)
         == if judged.state == Cancelled then judged
            else CancelledBy(judged, FirstVoider(t, items, profile, answers, p + 1, x))
  {
    var x := items[p].id;
    assert t.Awaits(x, profile);
    assert items[..p][..0] == [];
    StretchWithout(t, items[..p], profile, answers, reread, 0, x);
    assert items[..p + 1][..p] == items[..p];
    StretchWithout(t, items, profile, answers, reread, p + 1, x);
  }

  /** The row of a record the batch has no answer for. */
  lemma OtherRow(t: Table, items: seq<Item>, profile: string, answers: Answers, reread: bool, x: nat)
    requires x in t.rows
    requires forall i | 0 <= i < |items| :: items[i].id == x ==> !Answered(items[i], answers)
    ensures RowAfter(t, items, profile, answers, reread, x) == RowAfter(t, items, profile, answers, !reread, x)
  {
    if items != [] {
      OtherRow(t, items[..|items| - 1], profile, answers, reread, x);
    }
  }

  lemma {:induction false} FirstVoiderIsItem(
    t: Table, items: seq<Item>, profile: string, answers: Answers, lo: nat, x: nat)
    ensures match FirstVoider(t, items, profile, answers, lo, x)
      case Some(v) => exists i :: lo <= i < |items| && items[i].id == v && Voids(t, items[i], profile, answers, x)
      case None => forall i | lo <= i < |items| :: !Voids(t, items[i], profile, answers, x)
  {
    if |items| > lo {
      var front := items[..|items| - 1];
      FirstVoiderIsItem(t, front, profile, answers, lo, x);
      assert forall i | 0 <= i < |front| :: front[i] == items[i];
    }
  }

  // ---- Batch against fresh reads ------------------------------------------------------------------

  /** Writing back the record as first read loses nothing at place `p`: no earlier item voids it,
      or its verdict overwrites that anyway and a later item voids it again. */
  predicate StaleIsHarmless(t: Table, items: seq<Item>, profile: string, answers: Answers, p: nat)
    requires p < |items| && Answered(items[p], answers)
  {
    var x := items[p].id;
    || FirstVoider(t, items[..p], profile, answers, 0, x).None?
    || (Verdict(StatusOf(items[p], answers)).Some? && FirstVoider(t, items, profile, answers, p + 1, x).Some?)
  }

  lemma SameRowIff(t: Table, items: seq<Item>, profile: string, answers: Answers, p: nat)
    requires IsBatch(t, items, profile) && p < |items| && Answered(items[p], answers)
    requires items[p].record.detail.cancelledBy.None?
    ensures items[p].id in t.rows
    ensures RowAfter(t, items, profile, answers, false, items[p].id)
         == RowAfter(t, items, profile, answers, true, items[p].id)
       <==> StaleIsHarmless(t, items, profile, answers, p)
  {
    hide RowAfter, FirstVoider, Voids;
    var x := items[p].id;
    assert t.Awaits(x, profile);
    ItemRow(t, items, profile, answers, false, p);
    ItemRow(t, items, profile, answers, true, p);
    FirstVoiderIsItem(t, items[..p], profile, answers, 0, x);
    FirstVoiderIsItem(t, items, profile, answers, p + 1, x);
    var early := FirstVoider(t, items[..p], profile, answers, 0, x);
    var late := FirstVoider(t, items, profile, answers, p + 1, x);
    if early.Some? && late.Some? {
      var i :| 0 <= i < |items[..p]| && items[..p][i].id == early.value && Voids(t, items[..p][i], profile, answers, x);
      var j :| p + 1 <= j < |items| && items[j].id == late.value && Voids(t, items[j], profile, answers, x);
      assert items[i].id < items[j].id;
    }
  }

  /** The batch ends in the same table as fresh reads one at a time exactly when writing back
      stale records is harmless at every answered place. */
  lemma BatchIsFreshIff(t: Table, items: seq<Item>, profile: string, answers: Answers)
    requires IsBatch(t, items, profile)
    requires forall i | 0 <= i < |items| :: items[i].record.detail.cancelledBy.None?
    ensures Reconciled(t, items, profile, answers, false) == Reconciled(t, items, profile, answers, true)
       <==> forall p | 0 <= p < |items| && Answered(items[p], answers) :: StaleIsHarmless(t, items, profile, answers, p)
  {
    hide RowAfter, StaleIsHarmless, Reconciled, Answered;
    var batch, one := Reconciled(t, items, profile, answers, false), Reconciled(t, items, profile, answers, true);
    Shapes(t, items, profile, answers, false);
    Shapes(t, items, profile, answers, true);
    if forall p | 0 <= p < |items| && Answered(items[p], answers) :: StaleIsHarmless(t, items, profile, answers, p) {
      forall x | x in t.rows
        ensures batch.rows[x] == one.rows[x]
      {
        TableFollowsRows(t, items, profile, answers, false, x);
        TableFollowsRows(t, items, profile, answers, true, x);
        if p :| 0 <= p < |items| && items[p].id == x && Answered(items[p], answers) {
          SameRowIff(t, items, profile, answers, p);
        } else {
          OtherRow(t, items, profile, answers, false, x);
        }
      }
      assert batch.rows == one.rows;
    }
    if batch == one {
      forall p | 0 <= p < |items| && Answered(items[p], answers)
        ensures StaleIsHarmless(t, items, profile, answers, p)
      {
        assert t.Awaits(items[p].id, profile);
        TableFollowsRows(t, items, profile, answers, false, items[p].id);
        TableFollowsRows(t, items, profile, answers, true, items[p].id);
        SameRowIff(t, items, profile, answers, p);
      }
    }
  }

  lemma Shapes(t: Table, items: seq<Item>, profile: string, answers: Answers, reread: bool)
    requires IsBatch(t, items, profile)
    ensures var after := Reconciled(t, items, profile, answers, reread);
      after.next == t.next && after.rows.Keys == t.rows.Keys
  {
    if items != [] {
      TableFollowsRows(t, items, profile, answers, reread, items[0].id);
    }
  }

  /** In particular they agree when no confirmed cancellation stands before its own target. */
  lemma BatchIsFreshInOrder(t: Table, items: seq<Item>, profile: string, answers: Answers)
    requires IsBatch(t, items, profile)
    requires forall i | 0 <= i < |items| :: items[i].record.detail.cancelledBy.None?
    requires forall i, p | 0 <= i < p < |items| :: !Voids(t, items[i], profile, answers, items[p].id)
    ensures Reconciled(t, items, profile, answers, false) == Reconciled(t, items, profile, answers, true)
  {
    hide Reconciled, Voids;
    forall p | 0 <= p < |items| && Answered(items[p], answers)
      ensures StaleIsHarmless(t, items, profile, answers, p)
    {
      FirstVoiderIsItem(t, items[..p], profile, answers, 0, items[p].id);
    }
    BatchIsFreshIff(t, items, profile, answers);
  }

  // ---- Which records end up cancelled ---------------------------------------------------------------

  /** An answered record of the batch ends up cancelled exactly when a later item voids it; a
      cancellation that stands before its target is lost. */
  lemma ItemCancelledIff(t: Table, items: seq<Item>, profile: string, answers: Answers, p: nat)
    requires IsBatch(t, items, profile) && p < |items| && Answered(items[p], answers)
    ensures var after := Reconciled(t, items, profile, answers, false);
      && items[p].id in after.rows
      && (after.rows[items[p].id].state == Cancelled
          <==> exists k | p < k < |items| :: Voids(t, items[k], profile, answers, items[p].id))
  {
    hide RowAfter, Voids;
    assert t.Awaits(items[p].id, profile);
    TableFollowsRows(t, items, profile, answers, false, items[p].id);
    ItemRow(t, items, profile, answers, false, p);
    FirstVoiderIsItem(t, items, profile, answers, p + 1, items[p].id);
  }

  /** Any other record ends up cancelled exactly when it was, or some item voids it. */
  lemma OtherCancelledIff(t: Table, items: seq<Item>, profile: string, answers: Answers, x: nat)
    requires IsBatch(t, items, profile) && x in t.rows
    requires forall i | 0 <= i < |items| :: items[i].id == x ==> !Answered(items[i], answers)
    ensures var after := Reconciled(t, items, profile, answers, false);
      && x in after.rows
      && (after.rows[x].state == Cancelled
          <==> t.rows[x].state == Cancelled || exists k | 0 <= k < |items| :: Voids(t, items[k], profile, answers, x))
  {
    TableFollowsRows(t, items, profile, answers, false, x);
    UnansweredRow(t, items, profile, answers, x);
    FirstVoiderIsItem(t, items, profile, answers, 0, x);
  }

  lemma {:induction false} UnansweredRow(t: Table, items: seq<Item>, profile: string, answers: Answers, x: nat)
    requires x in t.rows
    requires forall i | 0 <= i < |items| :: items[i].id == x ==> !Answered(items[i], answers)
    ensures RowAfter(t, items, profile, answers, false, x)
         == if t.rows[x].state == Cancelled then t.rows[x]
            else CancelledBy(t.rows[x], FirstVoider(t, items, profile, answers, 0, x))
  {
    if items != [] {
      UnansweredRow(t, items[..|items| - 1], profile, answers, x);
    }
  }
}
