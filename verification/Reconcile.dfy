/** Writing the organization's verdicts back, and voiding the invoices that confirmed
    cancellations name.

    A batch works from a list read at its start: each record is written back as it was then,
    while cancellations go through fresh reads.  The same run can be made one record at a time
    with fresh reads throughout; this module says exactly when the two agree.
 */
module Reconcile {
  import opened Results
  import opened Records

  const MAX_INQUIRY_IDS := 100
  const CANCELLATION := 3

  /** A record as it was read. */
  datatype Item = Item(id: nat, record: Record)

  type Answers = map<string, Answer>

  /** Only these two statuses are a verdict. */
  function Verdict(status: Option<Status>): Option<State>
  {
    match status
    case Some(Success) => Some(Confirmed)
    case Some(Failed) => Some(Rejected)
    case _ => None
  }

  function Ref(record: Record): string
  {
    if record.reference.Some? then record.reference.value else ""
  }

  /** A record with the answer noted, and the verdict if there is one. */
  function Judged(record: Record, answer: Answer): Record
  {
    var noted := record.(detail := record.detail.(inquiry := Some(answer)));
    match Verdict(answer.status)
    case Some(state) => noted.(state := state)
    case None => noted
  }

  function Cancelling(target: Record, voider: nat): Record
  {
    target.(state := Cancelled, detail := target.detail.(cancelledBy := Some(voider)))
  }

  /** Whether a record, once confirmed, voids another. */
  predicate IsCancellation(record: Record)
  {
    record.payload.ins == CANCELLATION && record.payload.irtaxid != ""
  }

  /** The table after voiding what a confirmed record names. */
  function Voided(t: Table, id: nat, record: Record, profile: string): Table
  {
    if !IsCancellation(record) then t
    else
      match t.FindByTaxId(profile, record.payload.irtaxid)
      case None => t
      case Some(target) =>
        if target == id || target !in t.rows || t.rows[target].state == Cancelled then t
        else t.Save(target, Cancelling(t.rows[target], id))
  }

  function Process(t: Table, item: Item, profile: string, answers: Answers, reread: bool): Table
  {
    if Ref(item.record) !in answers then t
    else
      var read := if reread && item.id in t.rows then t.rows[item.id] else item.record;
      var record := Judged(read, answers[Ref(item.record)]);
      var saved := t.Save(item.id, record);
      if record.state == Confirmed then Voided(saved, item.id, record, profile) else saved
  }

  /** The table after a whole list; `reread` tells whether each record is read again in turn. */
  function Reconciled(t: Table, items: seq<Item>, profile: string, answers: Answers, reread: bool): Table
  {
    if items == [] then t
    else
      var before := Reconciled(t, items[..|items| - 1], profile, answers, reread);
      Process(before, items[|items| - 1], profile, answers, reread)
  }

  // ---- The loops ---------------------------------------------------------------------------

  /** Answers by reference; a later answer replaces an earlier one, one without reference is lost. */
  function Gathered(results: seq<Answer>): Answers
  {
    if results == [] then map[]
    else
      var before, last := Gathered(results[..|results| - 1]), results[|results| - 1];
      if last.reference != "" then before[last.reference := last] else before
  }

  /** Everything the service answers to the references, asked for a hundred at a time. */
  function Asked(service: (nat, seq<string>) -> seq<Answer>, refs: seq<string>, start: nat): seq<Answer>
    decreases |refs| - start
  {
    if start >= |refs| then []
    else
      var stop := if start + MAX_INQUIRY_IDS < |refs| then start + MAX_INQUIRY_IDS else |refs|;
      service(start, refs[start..stop]) + Asked(service, refs, start + MAX_INQUIRY_IDS)
  }

  function Refs(items: seq<Item>): seq<string>
  {
    seq(|items|, i requires 0 <= i < |items| => Ref(items[i].record))
  }

  function Pending(items: seq<Item>): seq<Item>
  {
    if items == [] then []
    else
      var front, last := Pending(items[..|items| - 1]), items[|items| - 1];
      if Truthy(last.record.reference) then front + [last] else front
  }

  /** One inquiry over a list of records as read; `service` answers each request. */
  method ReconcileRecords(
    store: RecordStore, items: seq<Item>, profile: string, service: (nat, seq<string>) -> seq<Answer>)
    requires store.Valid()
    modifies store
    ensures store.Valid()
    ensures var pending := Pending(items);
      store.Contents() == Reconciled(
        old(store.Contents()), pending, profile, Gathered(Asked(service, Refs(pending), 0)), false)
  {
    var pending := [];
    for i := 0 to |items|
      invariant pending == Pending(items[..i])
    {
      assert items[..i + 1][..i] == items[..i];
      if Truthy(items[i].record.reference) {
        pending := pending + [items[i]];
      }
    }
    assert items[..|items|] == items;
    var byReference := Ask(Refs(pending), service);
    ghost var before := store.Contents();
    for i := 0 to |pending|
      invariant store.Valid()
      invariant store.Contents() == Reconciled(before, pending[..i], profile, byReference, false)
    {
      assert pending[..i + 1][..i] == pending[..i];
      ReconcileRecord(store, pending[i], profile, byReference);
    }
    assert pending[..|pending|] == pending;
  }

  method Ask(refs: seq<string>, service: (nat, seq<string>) -> seq<Answer>) returns (byReference: Answers)
    ensures byReference == Gathered(Asked(service, refs, 0))
  {
    hide Gathered;
    byReference := map[];
    var start := 0;
    assert byReference == Gathered([]) by { GatheredNothing(); }
    ghost var results: seq<Answer> := [];
    while start < |refs|
      invariant byReference == Gathered(results)
      invariant results + Asked(service, refs, start) == Asked(service, refs, 0)
      decreases |refs| - start
    {
      var stop := if start + MAX_INQUIRY_IDS < |refs| then start + MAX_INQUIRY_IDS else |refs|;
      var answers := service(start, refs[start..stop]);
      byReference := GatherInto(byReference, answers, results);
      assert results + (answers + Asked(service, refs, start + MAX_INQUIRY_IDS))
          == (results + answers) + Asked(service, refs, start + MAX_INQUIRY_IDS);
      results := results + answers;
      start := start + MAX_INQUIRY_IDS;
    }
    assert results + [] == results;
  }

  lemma GatheredNothing()
    ensures Gathered([]) == map[]
  {
  }

  method GatherInto(byReference: Answers, answers: seq<Answer>, ghost before: seq<Answer>) returns (more: Answers)
    requires byReference == Gathered(before)
    ensures more == Gathered(before + answers)
  {
    more := byReference;
    assert before + answers[..0] == before;
    for i := 0 to |answers|
      invariant more == Gathered(before + answers[..i])
    {
      assert (before + answers[..i + 1])[..|before| + i] == before + answers[..i];
      if answers[i].reference != "" {
        more := more[answers[i].reference := answers[i]];
      }
    }
    assert answers[..|answers|] == answers;
  }

  method ReconcileRecord(store: RecordStore, item: Item, profile: string, answers: Answers)
    requires store.Valid()
    modifies store
    ensures store.Valid()
    ensures store.Contents() == Process(old(store.Contents()), item, profile, answers, false)
  {
    if Ref(item.record) !in answers {
      return;
    }
    var record := item.record;
    record := record.(detail := record.detail.(inquiry := Some(answers[Ref(item.record)])));
    var verdict := Verdict(answers[Ref(item.record)].status);
    if verdict.Some? {
      record := record.(state := verdict.value);
    }
    store.Save(item.id, record);
    if record.state == Confirmed {
      ApplyCancellation(store, item.id, record, profile);
    }
  }

  method ApplyCancellation(store: RecordStore, id: nat, record: Record, profile: string)
    requires store.Valid()
    modifies store
    ensures store.Valid() && store.Contents() == Voided(old(store.Contents()), id, record, profile)
  {
    if record.payload.ins != CANCELLATION || record.payload.irtaxid == "" {
      return;
    }
    var found := store.FindByTaxId(profile, record.payload.irtaxid);
    if found.None? || found.value == id {
      return;
    }
    var target := store.Get(found.value);
    if target.None? || target.value.state == Cancelled {
      return;
    }
    store.Save(found.value, Cancelling(target.value, id));
  }
}
