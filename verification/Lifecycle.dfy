/** The handlers that move an invoice through its life, each one atomic step, and what holds
    over every run of them.
 */
module Lifecycle {
  import opened Results
  import opened Records
  import opened Reconcile

  /** What the pipeline returns for an invoice it has sent. */
  datatype SubmissionData = Submission(taxId: string, uid: string, reference: Option<string>)

  type Submission = s: SubmissionData | s.taxId != "" && s.uid != "" witness Submission("T", "U", None)

  type Service = (nat, seq<string>) -> seq<Answer>

  datatype Refusal = NoSuchInvoice | NotADraft | RulesBroken | SendingFailed | NoReference | NoAnswer

  datatype Request =
    | SaveDraft(payload: Payload, report: Report)
    | UpdateDraft(id: nat, payload: Payload, report: Report)
    | DeleteDraft(id: nat)
    | Submit(recordId: Option<nat>, payload: Payload, report: Report, sent: Option<Submission>)
    | InquirePending(limit: int, service: Service)
    | InquireOne(id: nat, service: Service)

  /** An invoice the organization has been sent, what came back, and the record it was stored on. */
  datatype Filing = Filing(id: nat, sent: Submission, payload: Payload)

  datatype Outcome = Outcome(table: Table, refused: Option<Refusal>, filed: Option<Filing>)

  // ---- What each handler does ------------------------------------------------------------------

  predicate IsDraft(record: Record)
  {
    record.state == Draft || record.state == Invalid
  }

  function DraftState(report: Report): State
  {
    if report.ok then Draft else Invalid
  }

  function OwnTaxId(payload: Payload): Option<string>
  {
    if payload.taxid == "" then None else Some(payload.taxid)
  }

  function Reported(report: Report): Detail
  {
    NO_DETAIL.(report := Some(report))
  }

  /** Why a record may not be rewritten, deleted or sent. */
  function DraftFault(t: Table, profile: string, id: nat): Option<Refusal>
  {
    if id !in t.rows || t.rows[id].profile != profile then Some(NoSuchInvoice)
    else if !IsDraft(t.rows[id]) then Some(NotADraft)
    else None
  }

  function Refuse(t: Table, why: Refusal): Outcome
  {
    Outcome(t, Some(why), None)
  }

  function Done(t: Table): Outcome
  {
    Outcome(t, None, None)
  }

  function SaveResult(t: Table, profile: string, payload: Payload, report: Report): Outcome
  {
    Done(t.Insert(Record(profile, DraftState(report), payload, OwnTaxId(payload), None, None, Reported(report))))
  }

  function UpdateResult(t: Table, profile: string, id: nat, payload: Payload, report: Report): Outcome
  {
    match DraftFault(t, profile, id)
    case Some(why) => Refuse(t, why)
    case None =>
      Done(t.Save(id, t.rows[id].(
        state := DraftState(report), payload := payload, taxId := OwnTaxId(payload), detail := Reported(report))))
  }

  function DeleteResult(t: Table, profile: string, id: nat): Outcome
  {
    match DraftFault(t, profile, id)
    case Some(why) => Refuse(t, why)
    case None => Done(t.Delete(id))
  }

  function Blank(profile: string, payload: Payload): Record
  {
    Record(profile, Invalid, payload, None, None, None, NO_DETAIL)
  }

  function InvalidRecord(record: Record, payload: Payload, report: Report): Record
  {
    record.(state := Invalid, payload := payload, detail := Reported(report))
  }

  function SentRecord(record: Record, payload: Payload, report: Report, sent: Submission): Record
  {
    record.(state := Sent, payload := payload, taxId := Some(sent.taxId), uid := Some(sent.uid),
            reference := sent.reference, detail := Reported(report))
  }

  function SubmitResult(
    t: Table, profile: string, recordId: Option<nat>, payload: Payload, report: Report, sent: Option<Submission>)
    : Outcome
  {
    var fault := if recordId.Some? then DraftFault(t, profile, recordId.value) else None;
    if fault.Some? then Refuse(t, fault.value)
    else
      var record := if recordId.Some? then t.rows[recordId.value] else Blank(profile, payload);
      if !report.ok then
        var invalid := InvalidRecord(record, payload, report);
        Refuse(if recordId.Some? then t.Save(recordId.value, invalid) else t.Insert(invalid), RulesBroken)
      else if sent.None? then Refuse(t, SendingFailed)
      else
        var filed := SentRecord(record, payload, report, sent.value);
        var id := if recordId.Some? then recordId.value else t.next;
        Outcome(if recordId.Some? then t.Save(id, filed) else t.Insert(filed), None,
                Some(Filing(id, sent.value, payload)))
  }

  function ItemsOf(t: Table, ids: seq<nat>): (items: seq<Item>)
    requires forall i | 0 <= i < |ids| :: ids[i] in t.rows
    ensures |items| == |ids| && forall i | 0 <= i < |ids| :: items[i] == Item(ids[i], t.rows[ids[i]])
  {
    seq(|ids|, i requires 0 <= i < |ids| => Item(ids[i], t.rows[ids[i]]))
  }

  function AnswersTo(items: seq<Item>, service: Service): Answers
  {
    Gathered(Asked(service, Refs(items), 0))
  }

  function PendingItems(t: Table, profile: string, limit: int): seq<Item>
  {
    AwaitingIsAscending(t, profile, limit);
    ItemsOf(t, t.Awaiting(profile, limit))
  }

  function InquirePendingResult(t: Table, profile: string, limit: int, service: Service): Outcome
  {
    var items := PendingItems(t, profile, limit);
    Done(Reconciled(t, items, profile, AnswersTo(items, service), false))
  }

  function InquireOneResult(t: Table, profile: string, id: nat, service: Service): Outcome
  {
    if id !in t.rows || t.rows[id].profile != profile then Refuse(t, NoSuchInvoice)
    else if !Truthy(t.rows[id].reference) then Refuse(t, NoReference)
    else
      var item := Item(id, t.rows[id]);
      var answers := AnswersTo([item], service);
      if Ref(item.record) !in answers then Refuse(t, NoAnswer)
      else Done(Process(t, item, profile, answers, false))
  }

  function Handle(t: Table, profile: string, request: Request): Outcome
  {
    match request
    case SaveDraft(payload, report) => SaveResult(t, profile, payload, report)
    case UpdateDraft(id, payload, report) => UpdateResult(t, profile, id, payload, report)
    case DeleteDraft(id) => DeleteResult(t, profile, id)
    case Submit(recordId, payload, report, sent) => SubmitResult(t, profile, recordId, payload, report, sent)
    case InquirePending(limit, service) => InquirePendingResult(t, profile, limit, service)
    case InquireOne(id, service) => InquireOneResult(t, profile, id, service)
  }

  // ---- The handlers over the store ----------------------------------------------------------------

  class InvoiceApi {
    const store: RecordStore
    const profile: string

    constructor (store: RecordStore, profile: string)
      ensures this.store == store && this.profile == profile
    {
      this.store, this.profile := store, profile;
    }

    method SaveInvoice(payload: Payload, report: Report) returns (id: nat)
      requires store.Valid()
      modifies store
      ensures store.Valid() && id == old(store.next)
      ensures Done(store.Contents()) == SaveResult(old(store.Contents()), profile, payload, report)
    {
      var state := if report.ok then Draft else Invalid;
      id := store.Insert(Record(profile, state, payload, OwnTaxId(payload), None, None, Reported(report)));
    }

    method FindDraft(id: nat) returns (found: Result<Record, Refusal>)
      ensures match DraftFault(store.Contents(), profile, id)
        case Some(why) => found == Err(why)
        case None => id in store.rows && found == Ok(store.rows[id])
    {
      var record := store.Get(id);
      if record.None? || record.value.profile != profile {
        return Err(NoSuchInvoice);
      }
      if record.value.state != Draft && record.value.state != Invalid {
        return Err(NotADraft);
      }
      return Ok(record.value);
    }

    method UpdateInvoice(id: nat, payload: Payload, report: Report) returns (refused: Option<Refusal>)
      requires store.Valid()
      modifies store
      ensures store.Valid()
      ensures Outcome(store.Contents(), refused, None)
           == UpdateResult(old(store.Contents()), profile, id, payload, report)
    {
      var found := FindDraft(id);
      if found.Err? {
        return Some(found.error);
      }
      var record := found.value;
      record := record.(state := if report.ok then Draft else Invalid);
      record := record.(payload := payload);
      record := record.(taxId := OwnTaxId(payload));
      record := record.(detail := Reported(report));
      store.Save(id, record);
      return None;
    }

    method DeleteInvoice(id: nat) returns (refused: Option<Refusal>)
      requires store.Valid()
      modifies store
      ensures store.Valid()
      ensures Outcome(store.Contents(), refused, None) == DeleteResult(old(store.Contents()), profile, id)
    {
      var found := FindDraft(id);
      if found.Err? {
        return Some(found.error);
      }
      var deleted := store.Delete(id);
      return None;
    }

    method SubmitInvoice(recordId: Option<nat>, payload: Payload, report: Report, sent: Option<Submission>)
      returns (refused: Option<Refusal>, filed: Option<Filing>)
      requires store.Valid()
      modifies store
      ensures store.Valid()
      ensures Outcome(store.Contents(), refused, filed)
           == SubmitResult(old(store.Contents()), profile, recordId, payload, report, sent)
    {
      var record := Blank(profile, payload);
      if recordId.Some? {
        var found := FindDraft(recordId.value);
        if found.Err? {
          return Some(found.error), None;
        }
        record := found.value;
      }
      if !report.ok {
        record := record.(state := Invalid, payload := payload, detail := Reported(report));
        if recordId.Some? {
          store.Save(recordId.value, record);
        } else {
          var id := store.Insert(record);
        }
        return Some(RulesBroken), None;
      }
      if sent.None? {
        return Some(SendingFailed), None;
      }
      record := record.(state := Sent, payload := payload);
      record := record.(taxId := Some(sent.value.taxId), uid := Some(sent.value.uid));
      record := record.(reference := sent.value.reference, detail := Reported(report));
      var id;
      if recordId.Some? {
        id := recordId.value;
        store.Save(id, record);
      } else {
        id := store.Insert(record);
      }
      return None, Some(Filing(id, sent.value, payload));
    }

    method InquirePending(limit: int, service: Service)
      requires store.Valid()
      modifies store
      ensures store.Valid()
      ensures Done(store.Contents()) == InquirePendingResult(old(store.Contents()), profile, limit, service)
    {
      var ids := store.ListAwaitingInquiry(profile, limit);
      AwaitingIsAscending(store.Contents(), profile, limit);
      var items := ItemsOf(store.Contents(), ids);
      AllPending(items);
      ReconcileRecords(store, items, profile, service);
    }

    method InquireOne(id: nat, service: Service) returns (refused: Option<Refusal>)
      requires store.Valid()
      modifies store
      ensures store.Valid()
      ensures Outcome(store.Contents(), refused, None)
           == InquireOneResult(old(store.Contents()), profile, id, service)
    {
      var record := store.Get(id);
      if record.None? || record.value.profile != profile {
        return Some(NoSuchInvoice);
      }
      if record.value.reference.None? || record.value.reference.value == "" {
        return Some(NoReference);
      }
      var items := [Item(id, record.value)];
      AllPending(items);
      assert items[..0] == [] && items[0] == items[|items| - 1];
      ReconcileRecords(store, items, profile, service);
      return if Ref(record.value) in AnswersTo(items, service) then None else Some(NoAnswer);
    }
  }

  lemma {:induction false} AllPending(items: seq<Item>)
    requires forall i | 0 <= i < |items| :: Truthy(items[i].record.reference)
    ensures Pending(items) == items
  {
    if items != [] {
      AllPending(items[..|items| - 1]);
      assert items == items[..|items| - 1] + [items[|items| - 1]];
    }
  }
}
