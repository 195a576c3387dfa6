/** What holds of the records over every run of the handlers. */
module LifecycleRuns {
  import opened Results
  import opened Records
  import opened Reconcile
  import opened ReconcileLaws
  import opened Lifecycle

  datatype Call = Call(profile: string, request: Request)

  /** The table and every filing so far. */
  datatype System = System(table: Table, filings: seq<Filing>)

  function Step(s: System, c: Call): System
  {
    var o := Handle(s.table, c.profile, c.request);
    System(o.table, if o.filed.Some? then s.filings + [o.filed.value] else s.filings)
  }

  function Run(s: System, calls: seq<Call>): System
  {
    if calls == [] then s else Step(Run(s, calls[..|calls| - 1]), calls[|calls| - 1])
  }

  const EMPTY := System(Table(map[], 1), [])

  // ---- The invariant --------------------------------------------------------------------------

  /** A draft met the rules, an invalid one did not, and neither carries a trace of a filing; filed
      records met the rules and carry all of it. */
  predicate RowOk(r: Record)
  {
    && (IsDraft(r) ==> r.uid.None? && r.reference.None?)
    && (r.state == Draft ==>
          LastReport(r, true) && r.taxId == if r.payload.taxid == "" then None else Some(r.payload.taxid))
    && (r.state == Invalid ==> LastReport(r, false))
    && (r.state == Sent || r.state == Confirmed || r.state == Rejected ==>
          r.uid.Some? && Truthy(r.taxId) && LastReport(r, true))
    && (r.state == Confirmed || r.state == Rejected ==> Truthy(r.reference))
    && (r.reference.Some? ==> r.uid.Some? && Truthy(r.taxId) && LastReport(r, true))
    && (r.state == Sent ==> r.detail.cancelledBy.None?)
  }

  /** The record was last found to meet the rules, or not to. */
  predicate LastReport(r: Record, ok: bool)
  {
    r.detail.report.Some? && r.detail.report.value.ok == ok
  }

  /** The record holds what was filed and what came back for it. */
  predicate Holds(r: Record, f: Filing)
  {
    && !IsDraft(r) && r.payload == f.payload
    && r.uid == Some(f.sent.uid) && r.taxId == Some(f.sent.taxId) && r.reference == f.sent.reference
  }

  ghost predicate RowsOk(t: Table)
  {
    t.Valid() && forall id | id in t.rows :: RowOk(t.rows[id])
  }

  /** Every filing is still on its record, and no record has two. */
  ghost predicate FilingsKept(s: System)
  {
    && (forall i | 0 <= i < |s.filings| ::
          var f := s.filings[i];
          f.id in s.table.rows && Holds(s.table.rows[f.id], f))
    && (forall i, j | 0 <= i < j < |s.filings| :: s.filings[i].id != s.filings[j].id)
  }

  ghost predicate Inv(s: System)
  {
    RowsOk(s.table) && FilingsKept(s)
  }

  /** Once out of the drafts, a record is never deleted, never goes back, and never changes in
      anything but its state and its detail. */
  ghost predicate Settles(t: Table, u: Table)
  {
    forall id | id in t.rows && !IsDraft(t.rows[id]) ::
      id in u.rows && !IsDraft(u.rows[id]) && SameFiling(t.rows[id], u.rows[id])
  }

  lemma EmptyHolds()
    ensures Inv(EMPTY)
  {
  }

  // ---- Inquiries ---------------------------------------------------------------------------------

  /** A record an inquiry may write back: as it is in the table, but perhaps for a state and
      detail that have moved on. */
  predicate MayWriteBack(t: Table, item: Item)
  {
    && item.id in t.rows && SameFiling(item.record, t.rows[item.id])
    && !IsDraft(item.record) && !IsDraft(t.rows[item.id])
    && Truthy(item.record.reference) && RowOk(item.record)
  }

  lemma ProcessKeepsRows(t: Table, item: Item, profile: string, answers: Answers)
    requires RowsOk(t) && MayWriteBack(t, item)
    ensures var u := Process(t, item, profile, answers, false);
      RowsOk(u) && Settles(t, u) && u.next == t.next && u.rows.Keys == t.rows.Keys
  {
    if Ref(item.record) in answers {
      var record := Judged(item.record, answers[Ref(item.record)]);
      var saved := t.Save(item.id, record);
      assert RowOk(record);
      assert RowsOk(saved) && Settles(t, saved);
      if record.state == Confirmed {
        VoidedKeepsRows(saved, item.id, record, profile);
      }
    }
  }

  lemma VoidedKeepsRows(t: Table, id: nat, record: Record, profile: string)
    requires RowsOk(t)
    ensures var u := Voided(t, id, record, profile);
      RowsOk(u) && Settles(t, u) && u.next == t.next && u.rows.Keys == t.rows.Keys
  {
  }

  lemma {:induction false} ReconciledKeepsRows(t: Table, items: seq<Item>, profile: string, answers: Answers)
    requires RowsOk(t) && IsBatch(t, items, profile)
    ensures var u := Reconciled(t, items, profile, answers, false);
      RowsOk(u) && Settles(t, u) && u.next == t.next && u.rows.Keys == t.rows.Keys
  {
    if items != [] {
      var front, last := items[..|items| - 1], items[|items| - 1];
      ReconciledKeepsRows(t, front, profile, answers);
      var u := Reconciled(t, front, profile, answers, false);
      assert t.Awaits(last.id, profile) && items[|items| - 1].record == t.rows[last.id];
      assert !IsDraft(u.rows[last.id]) && SameFiling(t.rows[last.id], u.rows[last.id]);
      ProcessKeepsRows(u, last, profile, answers);
    }
  }

  lemma PendingIsBatch(t: Table, profile: string, limit: int)
    ensures IsBatch(t, PendingItems(t, profile, limit), profile)
  {
    AwaitingIsAscending(t, profile, limit);
  }

  // ---- Requests ------------------------------------------------------------------------------------

  /** What every request does to the rows: filed ones settle, none comes back. */
  ghost predicate RowsKept(t: Table, u: Table)
  {
    && RowsOk(u) && Settles(t, u) && t.next <= u.next
    && forall id | id < t.next && id in u.rows :: id in t.rows
  }

  lemma InsertKeeps(t: Table, record: Record)
    requires RowsOk(t) && RowOk(record)
    ensures RowsKept(t, t.Insert(record))
  {
    hide RowOk;
  }

  lemma RewriteKeeps(t: Table, id: nat, record: Record)
    requires RowsOk(t) && id in t.rows && IsDraft(t.rows[id]) && RowOk(record.(profile := t.rows[id].profile))
    ensures RowsKept(t, t.Save(id, record))
  {
    hide RowOk;
  }

  lemma DeleteKeeps(t: Table, id: nat)
    requires RowsOk(t) && id in t.rows && IsDraft(t.rows[id])
    ensures RowsKept(t, t.Delete(id))
  {
    hide RowOk;
  }

  lemma NothingChanges(t: Table)
    requires RowsOk(t)
    ensures RowsKept(t, t)
  {
    hide RowOk;
  }

  /** A request on drafts keeps the rows. */
  lemma DraftingKeeps(t: Table, profile: string, request: Request)
    requires RowsOk(t) && (request.SaveDraft? || request.UpdateDraft? || request.DeleteDraft?)
    ensures var o := Handle(t, profile, request);
      && RowsKept(t, o.table) && o.filed.None?
      && (!request.DeleteDraft? ==> t.rows.Keys <= o.table.rows.Keys)
  {
    hide RowsKept;
    NothingChanges(t);
    match request {
      case SaveDraft(payload, report) =>
        var record := Record(profile, DraftState(report), payload, OwnTaxId(payload), None, None, Reported(report));
        InsertKeeps(t, record);
      case UpdateDraft(id, payload, report) =>
        if DraftFault(t, profile, id).None? {
          RewriteKeeps(t, id, t.rows[id].(state := DraftState(report), payload := payload, taxId := OwnTaxId(payload),
                                          detail := Reported(report)));
        }
      case DeleteDraft(id) =>
        if DraftFault(t, profile, id).None? {
          DeleteKeeps(t, id);
        }
    }
  }

  /** An inquiry keeps the rows. */
  lemma InquiryKeeps(t: Table, profile: string, request: Request)
    requires RowsOk(t) && (request.InquirePending? || request.InquireOne?)
    ensures var o := Handle(t, profile, request);
      RowsKept(t, o.table) && o.filed.None? && o.table.rows.Keys == t.rows.Keys
  {
    hide Reconciled, Process;
    NothingChanges(t);
    match request {
      case InquirePending(limit, service) =>
        PendingIsBatch(t, profile, limit);
        var items := PendingItems(t, profile, limit);
        ReconciledKeepsRows(t, items, profile, AnswersTo(items, service));
      case InquireOne(id, service) =>
        if id in t.rows && Truthy(t.rows[id].reference) {
          var item := Item(id, t.rows[id]);
          assert RowOk(item.record);
          ProcessKeepsRows(t, item, profile, AnswersTo([item], service));
        }
    }
  }

  lemma SentIsOk(record: Record, payload: Payload, report: Report, sent: Submission, id: nat, profile: string)
    requires report.ok
    ensures var r := SentRecord(record, payload, report, sent).(profile := profile);
      RowOk(r) && Holds(r, Filing(id, sent, payload))
  {
  }

  /** A submission keeps the rows, and what it files is on its record, which was a draft or is new. */
  lemma SubmitKeeps(
    t: Table, profile: string, recordId: Option<nat>, payload: Payload, report: Report, sent: Option<Submission>)
    requires RowsOk(t)
    ensures var o := SubmitResult(t, profile, recordId, payload, report, sent);
      && RowsKept(t, o.table)
      && (o.filed.Some? ==>
            var f := o.filed.value;
            && (f.id in t.rows ==> IsDraft(t.rows[f.id]))
            && f.id in o.table.rows && Holds(o.table.rows[f.id], f))
  {
    hide RowsKept, RowOk, Holds;
    NothingChanges(t);
    if recordId.None? || DraftFault(t, profile, recordId.value).None? {
      var record := if recordId.Some? then t.rows[recordId.value] else Blank(profile, payload);
      if !report.ok {
        InvalidIsOk(t, recordId, record, payload, report);
        if recordId.Some? {
          RewriteKeeps(t, recordId.value, InvalidRecord(record, payload, report));
        } else {
          InsertKeeps(t, InvalidRecord(record, payload, report));
        }
      } else if sent.Some? {
        var filed := SentRecord(record, payload, report, sent.value);
        if recordId.Some? {
          SentIsOk(record, payload, report, sent.value, recordId.value, record.profile);
          RewriteKeeps(t, recordId.value, filed);
        } else {
          SentIsOk(record, payload, report, sent.value, t.next, profile);
          InsertKeeps(t, filed);
          assert t.next !in t.rows;
        }
      }
    }
  }

  lemma InvalidIsOk(t: Table, recordId: Option<nat>, record: Record, payload: Payload, report: Report)
    requires RowsOk(t) && !report.ok
    requires if recordId.Some? then
        recordId.value in t.rows && IsDraft(t.rows[recordId.value]) && record == t.rows[recordId.value]
      else record == Blank(record.profile, payload)
    ensures RowOk(InvalidRecord(record, payload, report))
  {
  }

  // ---- Every step keeps it -------------------------------------------------------------------------

  lemma FilingsSettle(s: System, u: Table)
    requires FilingsKept(s) && Settles(s.table, u)
    ensures FilingsKept(System(u, s.filings))
  {
  }

  lemma FilingAdded(s: System, u: Table, f: Filing)
    requires FilingsKept(s) && Settles(s.table, u)
    requires (f.id in s.table.rows ==> IsDraft(s.table.rows[f.id])) && f.id in u.rows && Holds(u.rows[f.id], f)
    ensures FilingsKept(System(u, s.filings + [f]))
  {
    FilingsSettle(s, u);
    var all := s.filings + [f];
    assert forall i | 0 <= i < |s.filings| :: all[i] == s.filings[i] && all[i].id != f.id;
  }

  lemma StepKeeps(s: System, c: Call)
    requires Inv(s)
    ensures Inv(Step(s, c)) && Settles(s.table, Step(s, c).table)
  {
    hide RowOk, Holds, Handle, FilingsKept;
    var o := Handle(s.table, c.profile, c.request);
    if c.request.Submit? {
      SubmitIsHandled(s.table, c.profile, c.request);
      SubmitKeeps(s.table, c.profile, c.request.recordId, c.request.payload, c.request.report, c.request.sent);
    } else if c.request.InquirePending? || c.request.InquireOne? {
      InquiryKeeps(s.table, c.profile, c.request);
    } else {
      DraftingKeeps(s.table, c.profile, c.request);
    }
    if o.filed.Some? {
      FilingAdded(s, o.table, o.filed.value);
    } else {
      FilingsSettle(s, o.table);
    }
  }

  lemma SubmitIsHandled(t: Table, profile: string, request: Request)
    requires request.Submit?
    ensures Handle(t, profile, request)
         == SubmitResult(t, profile, request.recordId, request.payload, request.report, request.sent)
  {
  }

  lemma {:induction false} RunKeeps(s: System, calls: seq<Call>)
    requires Inv(s)
    ensures Inv(Run(s, calls))
  {
    if calls != [] {
      RunKeeps(s, calls[..|calls| - 1]);
      StepKeeps(Run(s, calls[..|calls| - 1]), calls[|calls| - 1]);
    }
  }

  lemma {:induction false} RunSettles(s: System, calls: seq<Call>, n: nat)
    requires Inv(s) && n <= |calls|
    ensures Settles(Run(s, calls[..n]).table, Run(s, calls).table)
    decreases |calls|
  {
    if n == |calls| {
      assert calls[..n] == calls;
    } else {
      var front := calls[..|calls| - 1];
      assert front[..n] == calls[..n];
      RunSettles(s, front, n);
      RunKeeps(s, front);
      StepKeeps(Run(s, front), calls[|calls| - 1]);
    }
  }

  // ---- Over whole runs --------------------------------------------------------------------------------

  /** In every run from an empty table, at any moment of it: a record that has left the drafts
      stays, never becomes a draft again, and keeps its payload, tax id, uid and reference to the
      end; what each state promises about them holds; and no record is ever filed twice. */
  lemma RecordsSettle(calls: seq<Call>, n: nat)
    requires n <= |calls|
    ensures var mid, end := Run(EMPTY, calls[..n]), Run(EMPTY, calls);
      && (forall id | id in mid.table.rows && !IsDraft(mid.table.rows[id]) ::
            id in end.table.rows && !IsDraft(end.table.rows[id]) && SameFiling(mid.table.rows[id], end.table.rows[id]))
      && (forall id | id in end.table.rows :: RowOk(end.table.rows[id]))
      && (forall i, j | 0 <= i < j < |end.filings| :: end.filings[i].id != end.filings[j].id)
      && (forall i | 0 <= i < |end.filings| ::
            end.filings[i].id in end.table.rows && Holds(end.table.rows[end.filings[i].id], end.filings[i]))
  {
    assert Inv(EMPTY);
    RunKeeps(EMPTY, calls);
    RunSettles(EMPTY, calls, n);
  }

  /** In every run the pending inquiry may be understood as made one record at a time, as long
      as no confirmed cancellation in it stands before its target. */
  lemma PendingInquiryIsFresh(calls: seq<Call>, profile: string, limit: int, service: Service)
    ensures var t := Run(EMPTY, calls).table;
      var items := PendingItems(t, profile, limit);
      var answers := AnswersTo(items, service);
      (forall i, p | 0 <= i < p < |items| :: !Voids(t, items[i], profile, answers, items[p].id))
      ==> InquirePendingResult(t, profile, limit, service).table == Reconciled(t, items, profile, answers, true)
  {
    assert Inv(EMPTY);
    RunKeeps(EMPTY, calls);
    var t := Run(EMPTY, calls).table;
    var items := PendingItems(t, profile, limit);
    PendingIsBatch(t, profile, limit);
    assert forall i | 0 <= i < |items| :: t.Awaits(items[i].id, profile) && RowOk(items[i].record);
    if forall i, p | 0 <= i < p < |items| :: !Voids(t, items[i], profile, AnswersTo(items, service), items[p].id) {
      BatchIsFreshInOrder(t, items, profile, AnswersTo(items, service));
    }
  }
}
