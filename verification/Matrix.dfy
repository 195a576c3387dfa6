/** The obligation matrix: its compressed form, the rules loaded from that, and the check of an
    invoice's fields against them.
 */
module Matrix {
  import opened Results

  datatype Obligation = Required | Optional | Conditional | NotApplicable

  datatype Section = HeaderSection | BodySection | PaymentSection | SgSection

  const SECTIONS := [HeaderSection, BodySection, PaymentSection, SgSection]

  /** A column of the printed table: an invoice type under a pattern. */
  datatype Column = Column(invoiceType: int, pattern: int)

  /** A row of the printed table: one field. */
  datatype Row = Row(wire: string, section: Section, cells: map<Column, Obligation>)

  /** The transcribed table; each field has one row. */
  datatype Table = Table(columns: seq<Column>, rows: seq<Row>)
  {
    ghost predicate Valid()
    {
      && (forall r | 0 <= r < |rows| :: forall c | c in rows[r].cells :: c in columns)
      && (forall q, r | 0 <= q < r < |rows| :: rows[q].wire != rows[r].wire)
    }
  }

  function CellAt(row: Row, t: int, pattern: int): Option<Obligation>
  {
    if Column(t, pattern) in row.cells then Some(row.cells[Column(t, pattern)]) else None
  }

  /** What the table says of a field for a type and a pattern; silence means it does not apply. */
  function Says(row: Row, t: int, pattern: int): Obligation
  {
    if Column(t, pattern) in row.cells then row.cells[Column(t, pattern)] else NotApplicable
  }

  // ---- Conditions ------------------------------------------------------------------------

  datatype Condition = SetmIs3 | InsrIs1 | InsIs2To4

  /** The `when` clause of a rule: absent, named but not evaluable, or a known condition. */
  datatype When = NoWhen | Unspecified | Known(condition: Condition)

  function KnownCondition(wire: string): When
  {
    if wire == "cap" || wire == "insp" then Known(SetmIs3)
    else if wire == "irtaxid" then Known(InsIs2To4)
    else if wire == "indati2m" then Known(InsrIs1)
    else Unspecified
  }

  // ---- The compressed form ---------------------------------------------------------------

  datatype Entry = Entry(wire: string, obligation: Obligation, when: When, byType: map<int, Obligation>)

  /** What is written for one pattern: its types, an entry per field, and per section the fields
      that do not apply at all. */
  datatype Block = Block(types: seq<int>, entries: map<Section, seq<Entry>>, excluded: map<Section, seq<string>>)

  function InsertSorted(ts: seq<int>, t: int): seq<int>
  {
    if ts == [] then [t]
    else if t < ts[0] then [t] + ts
    else if t == ts[0] then ts
    else [ts[0]] + InsertSorted(ts[1..], t)
  }

  /** Some row says something of a column. */
  predicate Speaks(rows: seq<Row>, c: Column)
  {
    exists r | 0 <= r < |rows| :: c in rows[r].cells && rows[r].cells[c] != NotApplicable
  }

  /** The types for which a pattern is defined, ascending. */
  function TypesOf(rows: seq<Row>, columns: seq<Column>, pattern: int): seq<int>
  {
    if columns == [] then []
    else
      var front, c := TypesOf(rows, columns[..|columns| - 1], pattern), columns[|columns| - 1];
      if c.pattern == pattern && Speaks(rows, c) then InsertSorted(front, c.invoiceType) else front
  }

  function Primary(types: seq<int>): int
  {
    if types == [] then 1 else types[0]
  }

  /** Per-type values that differ from the primary one.  A type the row has no cell for is listed
      too. */
  function Overrides(row: Row, types: seq<int>, pattern: int, primary: Obligation): map<int, Obligation>
  {
    if types == [] then map[]
    else
      var front := Overrides(row, types[..|types| - 1], pattern, primary);
      var t := types[|types| - 1];
      if CellAt(row, t, pattern) != Some(primary) then front[t := Says(row, t, pattern)] else front
  }

  function EntryOf(row: Row, types: seq<int>, pattern: int): Entry
  {
    var obligation := Says(row, Primary(types), pattern);
    Entry(row.wire, obligation, if obligation == Conditional then KnownCondition(row.wire) else NoWhen,
          Overrides(row, types, pattern, obligation))
  }

  predicate IsExcluded(e: Entry)
  {
    e.obligation == NotApplicable && e.byType == map[]
  }

  /** The entries of a section, in the order of the rows. */
  function EntriesOf(rows: seq<Row>, section: Section, types: seq<int>, pattern: int): seq<Entry>
  {
    if rows == [] then []
    else
      var front, row := EntriesOf(rows[..|rows| - 1], section, types, pattern), rows[|rows| - 1];
      var e := EntryOf(row, types, pattern);
      if row.section == section && !IsExcluded(e) then front + [e] else front
  }

  function ExcludedOf(rows: seq<Row>, section: Section, types: seq<int>, pattern: int): seq<string>
  {
    if rows == [] then []
    else
      var front, row := ExcludedOf(rows[..|rows| - 1], section, types, pattern), rows[|rows| - 1];
      if row.section == section && IsExcluded(EntryOf(row, types, pattern)) then front + [row.wire] else front
  }

  function Emitted(table: Table, pattern: int): Block
  {
    var types := TypesOf(table.rows, table.columns, pattern);
    Block(
      if types == [] then [1] else types,
      map s | s in SECTIONS :: EntriesOf(table.rows, s, types, pattern),
      map s | s in SECTIONS :: ExcludedOf(table.rows, s, types, pattern))
  }

  method EmitPattern(table: Table, pattern: int) returns (block: Block)
    ensures block == Emitted(table, pattern)
  {
    hide TypesOf, EntriesOf, ExcludedOf;
    var types := CollectTypes(table, pattern);
    var entries: map<Section, seq<Entry>> := map[];
    var excluded: map<Section, seq<string>> := map[];
    for k := 0 to |SECTIONS|
      invariant forall s :: (s in entries <==> s in SECTIONS[..k]) && (s in excluded <==> s in SECTIONS[..k])
      invariant forall s | s in entries :: entries[s] == EntriesOf(table.rows, s, types, pattern)
      invariant forall s | s in excluded :: excluded[s] == ExcludedOf(table.rows, s, types, pattern)
    {
      var rows, names := EmitSection(table.rows, SECTIONS[k], types, pattern);
      assert SECTIONS[..k + 1] == SECTIONS[..k] + [SECTIONS[k]];
      entries := entries[SECTIONS[k] := rows];
      excluded := excluded[SECTIONS[k] := names];
    }
    assert SECTIONS[..|SECTIONS|] == SECTIONS;
    block := Block(if types == [] then [1] else types, entries, excluded);
  }

  method CollectTypes(table: Table, pattern: int) returns (types: seq<int>)
    ensures types == TypesOf(table.rows, table.columns, pattern)
  {
    hide InsertSorted, Speaks;
    types := [];
    for i := 0 to |table.columns|
      invariant types == TypesOf(table.rows, table.columns[..i], pattern)
    {
      assert table.columns[..i + 1][..i] == table.columns[..i];
      var c := table.columns[i];
      if c.pattern == pattern && Speaks(table.rows, c) {
        types := InsertSorted(types, c.invoiceType);
      }
    }
    assert table.columns[..|table.columns|] == table.columns;
  }

  method EmitSection(rows: seq<Row>, section: Section, types: seq<int>, pattern: int)
    returns (entries: seq<Entry>, names: seq<string>)
    ensures entries == EntriesOf(rows, section, types, pattern)
    ensures names == ExcludedOf(rows, section, types, pattern)
  {
    entries, names := [], [];
    for r := 0 to |rows|
      invariant entries == EntriesOf(rows[..r], section, types, pattern)
      invariant names == ExcludedOf(rows[..r], section, types, pattern)
    {
      assert rows[..r + 1][..r] == rows[..r];
      var row := rows[r];
      if row.section == section {
        var obligation := Says(row, Primary(types), pattern);
        var overrides: map<int, Obligation> := map[];
        for i := 0 to |types|
          invariant overrides == Overrides(row, types[..i], pattern, obligation)
        {
          assert types[..i + 1][..i] == types[..i];
          if CellAt(row, types[i], pattern) != Some(obligation) {
            overrides := overrides[types[i] := Says(row, types[i], pattern)];
          }
        }
        assert types[..|types|] == types;
        if obligation == NotApplicable && overrides == map[] {
          names := names + [row.wire];
        } else {
          var when := if obligation == Conditional then KnownCondition(row.wire) else NoWhen;
          entries := entries + [Entry(row.wire, obligation, when, overrides)];
        }
      }
    }
    assert rows[..|rows|] == rows;
  }

  // ---- The rules loaded from it -------------------------------------------------------------

  datatype FieldRule = FieldRule(name: string, obligation: Obligation, when: When, byType: map<int, Obligation>)
  {
    /** The obligation in force for an invoice type; without one, the base obligation. */
    function ForType(invoiceType: Option<int>): Obligation
    {
      if invoiceType.Some? && invoiceType.value in byType then byType[invoiceType.value] else obligation
    }

    /** Whether a conditional rule's condition holds.  It is the base obligation that is asked. */
    predicate Applies(header: HeaderFields)
    {
      if obligation != Conditional then true
      else
        match when
        case Known(c) => Holds(c, header)
        case _ => false
    }
  }

  /** The fields a header carries, and the three that conditions look at. */
  datatype HeaderFields = HeaderFields(
    present: set<string>, invoiceType: Option<int>, setm: Option<int>, insr: Option<int>, ins: Option<int>)

  predicate Holds(c: Condition, h: HeaderFields)
  {
    match c
    case SetmIs3 => h.setm == Some(3)
    case InsrIs1 => h.insr == Some(1)
    case InsIs2To4 => h.ins.Some? && 2 <= h.ins.value <= 4
  }

  /** Setting a key of an ordered dictionary: in place if it is there, else at the end. */
  function Put(rules: seq<FieldRule>, rule: FieldRule): seq<FieldRule>
  {
    if rules == [] then [rule]
    else if rules[0].name == rule.name then [rule] + rules[1..]
    else [rules[0]] + Put(rules[1..], rule)
  }

  function RuleOf(e: Entry): FieldRule
  {
    FieldRule(e.wire, e.obligation, e.when, e.byType)
  }

  function NotHere(wire: string): FieldRule
  {
    FieldRule(wire, NotApplicable, NoWhen, map[])
  }

  function RulesOf(entries: seq<Entry>): seq<FieldRule>
  {
    if entries == [] then [] else Put(RulesOf(entries[..|entries| - 1]), RuleOf(entries[|entries| - 1]))
  }

  function WithExcluded(rules: seq<FieldRule>, names: seq<string>): seq<FieldRule>
  {
    if names == [] then rules
    else Put(WithExcluded(rules, names[..|names| - 1]), NotHere(names[|names| - 1]))
  }

  /** The rules of one section, as loaded; None if the file is refused. */
  function Loaded(block: Block, section: Section): Option<seq<FieldRule>>
    requires section in block.entries && section in block.excluded
  {
    if exists i | 0 <= i < |block.entries[section]| ::
         block.entries[section][i].obligation == Conditional && block.entries[section][i].when == NoWhen
    then None
    else Some(WithExcluded(RulesOf(block.entries[section]), block.excluded[section]))
  }

  method LoadSection(block: Block, section: Section) returns (rules: Option<seq<FieldRule>>)
    requires section in block.entries && section in block.excluded
    ensures rules == Loaded(block, section)
  {
    var entries, names := block.entries[section], block.excluded[section];
    var loaded: seq<FieldRule> := [];
    for i := 0 to |entries|
      invariant loaded == RulesOf(entries[..i])
      invariant forall k | 0 <= k < i :: !(entries[k].obligation == Conditional && entries[k].when == NoWhen)
    {
      assert entries[..i + 1][..i] == entries[..i];
      if entries[i].obligation == Conditional && entries[i].when == NoWhen {
        return None;
      }
      loaded := Put(loaded, RuleOf(entries[i]));
    }
    assert entries[..|entries|] == entries;
    for i := 0 to |names|
      invariant loaded == WithExcluded(RulesOf(entries), names[..i])
    {
      assert names[..i + 1][..i] == names[..i];
      loaded := Put(loaded, NotHere(names[i]));
    }
    assert names[..|names|] == names;
    return Some(loaded);
  }

  // ---- The check -------------------------------------------------------------------------------

  datatype Complaint = MissingRequired(field: string) | MissingConditional(field: string) | DoesNotBelong(field: string)

  function HeaderComplaint(rule: FieldRule, h: HeaderFields): seq<Complaint>
  {
    var obligation := rule.ForType(h.invoiceType);
    if obligation == NotApplicable then
      if rule.name in h.present then [DoesNotBelong(rule.name)] else []
    else if obligation == Optional then []
    else if obligation == Conditional && !rule.Applies(h) then []
    else if rule.name in h.present then []
    else if obligation == Conditional then [MissingConditional(rule.name)]
    else [MissingRequired(rule.name)]
  }

  function HeaderComplaints(rules: seq<FieldRule>, h: HeaderFields): seq<Complaint>
  {
    if rules == [] then []
    else HeaderComplaints(rules[..|rules| - 1], h) + HeaderComplaint(rules[|rules| - 1], h)
  }

  /** On a body line only required fields are asked for. */
  function LineComplaint(rule: FieldRule, invoiceType: Option<int>, present: set<string>): seq<Complaint>
  {
    if rule.ForType(invoiceType) == Required && rule.name !in present then [MissingRequired(rule.name)] else []
  }

  function LineComplaints(rules: seq<FieldRule>, invoiceType: Option<int>, present: set<string>): seq<Complaint>
  {
    if rules == [] then []
    else
      LineComplaints(rules[..|rules| - 1], invoiceType, present)
      + LineComplaint(rules[|rules| - 1], invoiceType, present)
  }

  method CheckHeader(rules: seq<FieldRule>, h: HeaderFields) returns (complaints: seq<Complaint>)
    ensures complaints == HeaderComplaints(rules, h)
  {
    complaints := [];
    for i := 0 to |rules|
      invariant complaints == HeaderComplaints(rules[..i], h)
    {
      assert rules[..i + 1][..i] == rules[..i];
      var rule := rules[i];
      var obligation := rule.ForType(h.invoiceType);
      if obligation == NotApplicable {
        if rule.name in h.present {
          complaints := complaints + [DoesNotBelong(rule.name)];
        }
        continue;
      }
      if obligation == Optional {
        continue;
      }
      if obligation == Conditional && !rule.Applies(h) {
        continue;
      }
      if rule.name !in h.present {
        complaints := complaints
          + [if obligation == Conditional then MissingConditional(rule.name) else MissingRequired(rule.name)];
      }
    }
    assert rules[..|rules|] == rules;
  }

  method CheckLine(rules: seq<FieldRule>, invoiceType: Option<int>, present: set<string>)
    returns (complaints: seq<Complaint>)
    ensures complaints == LineComplaints(rules, invoiceType, present)
  {
    complaints := [];
    for i := 0 to |rules|
      invariant complaints == LineComplaints(rules[..i], invoiceType, present)
    {
      assert rules[..i + 1][..i] == rules[..i];
      if rules[i].ForType(invoiceType) == Required && rules[i].name !in present {
        complaints := complaints + [MissingRequired(rules[i].name)];
      }
    }
    assert rules[..|rules|] == rules;
  }
}
