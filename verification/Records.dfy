/** The invoice records of the application and the table that stores them. */
module Records {
  import opened Results

  datatype State = Draft | Invalid | Sent | Confirmed | Rejected | Cancelled

  /** The invoice as entered.  `other` stands for every field the lifecycle does not look at. */
  datatype Payload = Payload(taxid: string, ins: int, irtaxid: string, other: string)

  /** The organization's processing states. */
  datatype Status = InProgress | Success | Failed | Timeout | NotFound

  datatype Answer = Answer(reference: string, status: Option<Status>, errors: seq<string>, warnings: seq<string>)

  /** What the rules said of an invoice. */
  datatype Report = Report(ok: bool, text: string)

  /** The last validation report, the last inquiry, and the id of the record that voided this one. */
  datatype Detail = Detail(report: Option<Report>, inquiry: Option<Answer>, cancelledBy: Option<nat>)

  const NO_DETAIL := Detail(None, None, None)

  datatype Record = Record(
    profile: string, state: State, payload: Payload,
    taxId: Option<string>, uid: Option<string>, reference: Option<string>, detail: Detail)

  /** Python's truth of an optional text. */
  predicate Truthy(text: Option<string>)
  {
    text.Some? && text.value != ""
  }

  // ---- The table as a value ---------------------------------------------------------------

  /** Rows by id; ids are never reused. */
  datatype Table = Table(rows: map<nat, Record>, next: nat)
  {
    ghost predicate Valid()
    {
      forall id | id in rows :: id < next
    }

    function Insert(record: Record): Table
    {
      Table(rows[next := record], next + 1)
    }

    /** Writing back a record: every column but the profile; a row that is gone stays gone. */
    function Save(id: nat, record: Record): Table
    {
      if id in rows then this.(rows := rows[id := record.(profile := rows[id].profile)]) else this
    }

    function Delete(id: nat): Table
    {
      this.(rows := rows - {id})
    }

    predicate Carries(id: nat, profile: string, taxId: string)
    {
      id in rows && rows[id].profile == profile && rows[id].taxId == Some(taxId)
    }

    /** The highest id below `n` carrying a tax id in a profile. */
    function FindBelow(profile: string, taxId: string, n: nat): Option<nat>
    {
      if n == 0 then None
      else if Carries(n - 1, profile, taxId) then Some(n - 1)
      else FindBelow(profile, taxId, n - 1)
    }

    function FindByTaxId(profile: string, taxId: string): Option<nat>
    {
      FindBelow(profile, taxId, next)
    }

    predicate Awaits(id: nat, profile: string)
    {
      id in rows && rows[id].profile == profile && rows[id].state == Sent && Truthy(rows[id].reference)
    }

    /** Ids below `n` awaiting a verdict, ascending. */
    function AwaitingBelow(profile: string, n: nat): seq<nat>
    {
      if n == 0 then []
      else AwaitingBelow(profile, n - 1) + if Awaits(n - 1, profile) then [n - 1] else []
    }

    /** At most `limit` of them; a negative limit is no limit. */
    function Awaiting(profile: string, limit: int): seq<nat>
    {
      var all := AwaitingBelow(profile, next);
      if 0 <= limit < |all| then all[..limit] else all
    }
  }

  lemma {:induction false} FindBelowIsHighest(t: Table, profile: string, taxId: string, n: nat)
    ensures match t.FindBelow(profile, taxId, n)
      case Some(id) => id < n && t.Carries(id, profile, taxId)
                       && forall other | id < other < n :: !t.Carries(other, profile, taxId)
      case None => forall id | 0 <= id < n :: !t.Carries(id, profile, taxId)
  {
    if n > 0 && !t.Carries(n - 1, profile, taxId) {
      FindBelowIsHighest(t, profile, taxId, n - 1);
    }
  }

  predicate Ascending(ids: seq<nat>)
  {
    forall i, j | 0 <= i < j < |ids| :: ids[i] < ids[j]
  }

  lemma {:induction false} AwaitingBelowIsAscending(t: Table, profile: string, n: nat)
    ensures var ids := t.AwaitingBelow(profile, n);
      && Ascending(ids)
      && (forall id: nat :: id in ids <==> id < n && t.Awaits(id, profile))
  {
    if n > 0 {
      AwaitingBelowIsAscending(t, profile, n - 1);
      var front := t.AwaitingBelow(profile, n - 1);
      assert forall i | 0 <= i < |front| :: front[i] in front;
    }
  }

  /** The pending list: distinct ids in ascending order, all of them awaiting a verdict. */
  lemma AwaitingIsAscending(t: Table, profile: string, limit: int)
    ensures var ids := t.Awaiting(profile, limit);
      && Ascending(ids)
      && (forall i | 0 <= i < |ids| :: t.Awaits(ids[i], profile))
  {
    AwaitingBelowIsAscending(t, profile, t.next);
    var all := t.AwaitingBelow(profile, t.next);
    assert forall i | 0 <= i < |all| :: all[i] in all;
  }

  // ---- The store object ----------------------------------------------------------------------

  class RecordStore {
    var rows: map<nat, Record>
    var next: nat

    ghost predicate Valid()
      reads this
    {
      Contents().Valid()
    }

    function Contents(): Table
      reads this
    {
      Table(rows, next)
    }

    constructor ()
      ensures Valid() && Contents() == Table(map[], 1)
    {
      rows, next := map[], 1;
    }

    method Insert(record: Record) returns (id: nat)
      requires Valid()
      modifies this
      ensures Valid() && Contents() == old(Contents()).Insert(record)
      ensures id == old(next) && id !in old(rows)
    {
      id := next;
      rows := rows[id := record];
      next := next + 1;
    }

    method Save(id: nat, record: Record)
      requires Valid()
      modifies this
      ensures Valid() && Contents() == old(Contents()).Save(id, record)
    {
      if id in rows {
        rows := rows[id := record.(profile := rows[id].profile)];
      }
    }

    method Get(id: nat) returns (found: Option<Record>)
      ensures found == if id in rows then Some(rows[id]) else None
    {
      found := if id in rows then Some(rows[id]) else None;
    }

    method Delete(id: nat) returns (ok: bool)
      requires Valid()
      modifies this
      ensures Valid() && ok == (id in old(rows)) && Contents() == old(Contents()).Delete(id)
    {
      ok := id in rows;
      rows := rows - {id};
    }

    method FindByTaxId(profile: string, taxId: string) returns (found: Option<nat>)
      ensures found == Contents().FindByTaxId(profile, taxId)
    {
      var n := next;
      while n > 0 && !Contents().Carries(n - 1, profile, taxId)
        invariant 0 <= n <= next
        invariant Contents().FindBelow(profile, taxId, n) == Contents().FindByTaxId(profile, taxId)
      {
        n := n - 1;
      }
      found := if n == 0 then None else Some(n - 1);
    }

    method ListAwaitingInquiry(profile: string, limit: int) returns (ids: seq<nat>)
      ensures ids == Contents().Awaiting(profile, limit)
    {
      ids := [];
      for n := 0 to next
        invariant ids == Contents().AwaitingBelow(profile, n)
      {
        if Contents().Awaits(n, profile) {
          ids := ids + [n];
        }
      }
      if 0 <= limit < |ids| {
        ids := ids[..limit];
      }
    }
  }
}
