/** The compressed matrix loses nothing for the types it lists, and the check enforces it. */
module MatrixLaws {
  import opened Results
  import opened Matrix

  // ---- Types -------------------------------------------------------------------------------

  predicate AscendingInts(ts: seq<int>)
  {
    forall i, j | 0 <= i < j < |ts| :: ts[i] < ts[j]
  }

  lemma {:induction false} InsertSortedKeeps(ts: seq<int>, t: int)
    requires AscendingInts(ts)
    ensures AscendingInts(InsertSorted(ts, t))
    ensures forall x :: x in InsertSorted(ts, t) <==> x == t || x in ts
  {
    if ts != [] && ts[0] < t {
      InsertSortedKeeps(ts[1..], t);
      var rest := InsertSorted(ts[1..], t);
      assert ts == [ts[0]] + ts[1..];
      forall i | 0 <= i < |rest|
        ensures ts[0] < rest[i]
      {
        assert rest[i] in rest;
      }
    } else if ts != [] && t < ts[0] {
      assert forall x :: x in [t] + ts <==> x == t || x in ts;
    }
  }

  /** A pattern's types are those some field has a say for, in ascending order. */
  lemma {:induction false} TypesOfAre(rows: seq<Row>, columns: seq<Column>, pattern: int)
    ensures AscendingInts(TypesOf(rows, columns, pattern))
    ensures forall t :: t in TypesOf(rows, columns, pattern)
                        <==> Column(t, pattern) in columns && Speaks(rows, Column(t, pattern))
  {
    if columns != [] {
      var front := columns[..|columns| - 1];
      TypesOfAre(rows, front, pattern);
      assert columns == front + [columns[|columns| - 1]];
      InsertSortedKeeps(TypesOf(rows, front, pattern), columns[|columns| - 1].invoiceType);
    }
  }

  /** Of a type that is not listed no field of the pattern says anything. */
  lemma UnlistedIsSilent(table: Table, pattern: int, r: nat, t: int)
    requires table.Valid() && r < |table.rows|
    requires t !in TypesOf(table.rows, table.columns, pattern)
    ensures Says(table.rows[r], t, pattern) == NotApplicable
  {
    TypesOfAre(table.rows, table.columns, pattern);
    if Says(table.rows[r], t, pattern) != NotApplicable {
      assert Speaks(table.rows, Column(t, pattern));
    }
  }

  // ---- One field ------------------------------------------------------------------------------

  lemma {:induction false} OverridesAre(row: Row, types: seq<int>, pattern: int, primary: Obligation)
    ensures forall t :: t in Overrides(row, types, pattern, primary)
                        <==> t in types && CellAt(row, t, pattern) != Some(primary)
    ensures forall t | t in Overrides(row, types, pattern, primary) ::
      Overrides(row, types, pattern, primary)[t] == Says(row, t, pattern)
  {
    if types != [] {
      OverridesAre(row, types[..|types| - 1], pattern, primary);
      assert types == types[..|types| - 1] + [types[|types| - 1]];
    }
  }

  /** The rule a row becomes. */
  function RuleFor(row: Row, types: seq<int>, pattern: int): FieldRule
  {
    var e := EntryOf(row, types, pattern);
    if IsExcluded(e) then NotHere(row.wire) else RuleOf(e)
  }

  /** The rule gives back the table's word for every listed type, and the primary type's for any
      other. */
  lemma RuleForType(row: Row, types: seq<int>, pattern: int, t: int)
    ensures RuleFor(row, types, pattern).ForType(Some(t))
         == if t in types then Says(row, t, pattern) else Says(row, Primary(types), pattern)
    ensures RuleFor(row, types, pattern).obligation == Says(row, Primary(types), pattern)
    ensures RuleFor(row, types, pattern).name == row.wire
  {
    var primary := Says(row, Primary(types), pattern);
    OverridesAre(row, types, pattern, primary);
    if IsExcluded(EntryOf(row, types, pattern)) && t in types {
      assert t !in Overrides(row, types, pattern, primary);
    }
  }

  // ---- Dictionaries --------------------------------------------------------------------------------

  function Find(rules: seq<FieldRule>, name: string): Option<FieldRule>
  {
    if rules == [] then None
    else if rules[0].name == name then Some(rules[0])
    else Find(rules[1..], name)
  }

  predicate UniqueNames(rules: seq<FieldRule>)
  {
    forall i, j | 0 <= i < j < |rules| :: rules[i].name != rules[j].name
  }

  lemma {:induction false} FindIsMember(rules: seq<FieldRule>, name: string)
    requires UniqueNames(rules)
    ensures match Find(rules, name)
      case Some(rule) => rule in rules && rule.name == name
      case None => forall i | 0 <= i < |rules| :: rules[i].name != name
    ensures forall rule | rule in rules && rule.name == name :: Find(rules, name) == Some(rule)
  {
    if rules != [] {
      FindIsMember(rules[1..], name);
      assert rules == [rules[0]] + rules[1..];
    }
  }

  lemma {:induction false} FindPut(rules: seq<FieldRule>, rule: FieldRule, name: string)
    ensures Find(Put(rules, rule), name) == if name == rule.name then Some(rule) else Find(rules, name)
  {
    if rules != [] && rules[0].name != rule.name {
      FindPut(rules[1..], rule, name);
      assert Put(rules, rule)[1..] == Put(rules[1..], rule);
    } else if rules != [] {
      assert Put(rules, rule)[1..] == rules[1..];
    } else {
      assert [rule][1..] == [];
    }
  }

  lemma {:induction false} PutKeepsUnique(rules: seq<FieldRule>, rule: FieldRule)
    requires UniqueNames(rules)
    ensures UniqueNames(Put(rules, rule))
    ensures forall i | 0 <= i < |Put(rules, rule)| ::
      Put(rules, rule)[i].name == rule.name || exists k :: 0 <= k < |rules| && rules[k].name == Put(rules, rule)[i].name
  {
    if rules != [] && rules[0].name != rule.name {
      PutKeepsUnique(rules[1..], rule);
      var rest := Put(rules[1..], rule);
      forall i | 0 <= i < |rest|
        ensures rest[i].name != rules[0].name
        ensures rest[i].name == rule.name || exists k :: 0 <= k < |rules| && rules[k].name == rest[i].name
      {
        if rest[i].name != rule.name {
          var k :| 0 <= k < |rules[1..]| && rules[1..][k].name == rest[i].name;
          assert rules[k + 1].name == rest[i].name;
        }
      }
    }
  }

  lemma {:induction false} RulesOfUnique(entries: seq<Entry>)
    ensures UniqueNames(RulesOf(entries))
  {
    if entries != [] {
      RulesOfUnique(entries[..|entries| - 1]);
      PutKeepsUnique(RulesOf(entries[..|entries| - 1]), RuleOf(entries[|entries| - 1]));
    }
  }

  lemma {:induction false} WithExcludedUnique(rules: seq<FieldRule>, names: seq<string>)
    requires UniqueNames(rules)
    ensures UniqueNames(WithExcluded(rules, names))
  {
    if names != [] {
      WithExcludedUnique(rules, names[..|names| - 1]);
      PutKeepsUnique(WithExcluded(rules, names[..|names| - 1]), NotHere(names[|names| - 1]));
    }
  }

  lemma {:induction false} FindWithExcluded(rules: seq<FieldRule>, names: seq<string>, name: string)
    ensures Find(WithExcluded(rules, names), name) == if name in names then Some(NotHere(name)) else Find(rules, name)
  {
    if names != [] {
      var front := names[..|names| - 1];
      FindWithExcluded(rules, front, name);
      FindPut(WithExcluded(rules, front), NotHere(names[|names| - 1]), name);
      assert names == front + [names[|names| - 1]];
    }
  }

  // ---- A whole section ---------------------------------------------------------------------------------

  /** The row of a field in a section, if it has one. */
  function RowOf(rows: seq<Row>, section: Section, name: string): Option<Row>
  {
    if rows == [] then None
    else if rows[|rows| - 1].section == section && rows[|rows| - 1].wire == name then Some(rows[|rows| - 1])
    else RowOf(rows[..|rows| - 1], section, name)
  }

  predicate UniqueWires(rows: seq<Row>)
  {
    forall q, r | 0 <= q < r < |rows| :: rows[q].wire != rows[r].wire
  }

  lemma {:induction false} RowOfAbsent(rows: seq<Row>, section: Section, name: string)
    requires forall r | 0 <= r < |rows| :: rows[r].wire != name
    ensures RowOf(rows, section, name).None?
  {
    if rows != [] {
      RowOfAbsent(rows[..|rows| - 1], section, name);
    }
  }

  lemma {:induction false} SectionRules(
    rows: seq<Row>, section: Section, types: seq<int>, pattern: int, name: string)
    requires UniqueWires(rows)
    ensures var found := RowOf(rows, section, name);
      var entries, names := EntriesOf(rows, section, types, pattern), ExcludedOf(rows, section, types, pattern);
      && (name in names <==> found.Some? && IsExcluded(EntryOf(found.value, types, pattern)))
      && Find(RulesOf(entries), name)
         == if found.Some? && !IsExcluded(EntryOf(found.value, types, pattern))
            then Some(RuleOf(EntryOf(found.value, types, pattern))) else None
  {
    if rows != [] {
      hide EntryOf, IsExcluded;
      var front, row := rows[..|rows| - 1], rows[|rows| - 1];
      SectionRules(front, section, types, pattern, name);
      if row.wire == name {
        RowOfAbsent(front, section, name);
      }
      var e := EntryOf(row, types, pattern);
      assert e.wire == row.wire by { EntryIsNamed(row, types, pattern); }
      FindPut(RulesOf(EntriesOf(front, section, types, pattern)), RuleOf(e), name);
      if row.section == section && !IsExcluded(e) {
        var entries := EntriesOf(rows, section, types, pattern);
        assert entries[..|entries| - 1] == EntriesOf(front, section, types, pattern);
      }
    }
  }

  lemma EntryIsNamed(row: Row, types: seq<int>, pattern: int)
    ensures EntryOf(row, types, pattern).wire == row.wire
  {
  }

  lemma {:induction false} EntriesNameConditions(rows: seq<Row>, section: Section, types: seq<int>, pattern: int)
    ensures forall i | 0 <= i < |EntriesOf(rows, section, types, pattern)| ::
      var e := EntriesOf(rows, section, types, pattern)[i];
      !(e.obligation == Conditional && e.when == NoWhen)
  {
    if rows != [] {
      EntriesNameConditions(rows[..|rows| - 1], section, types, pattern);
    }
  }

  /** What is emitted loads, and the rule loaded for a field is the one its row becomes. */
  lemma EmittedLoads(table: Table, pattern: int, section: Section, name: string)
    requires table.Valid()
    ensures var block := Emitted(table, pattern);
      var types := TypesOf(table.rows, table.columns, pattern);
      var found := RowOf(table.rows, section, name);
      && section in block.entries && section in block.excluded
      && Loaded(block, section).Some?
      && UniqueNames(Loaded(block, section).value)
      && Find(Loaded(block, section).value, name)
         == if found.Some? then Some(RuleFor(found.value, types, pattern)) else None
  {
    var types := TypesOf(table.rows, table.columns, pattern);
    EveryName(section);
    var entries := EntriesOf(table.rows, section, types, pattern);
    var names := ExcludedOf(table.rows, section, types, pattern);
    EntriesNameConditions(table.rows, section, types, pattern);
    SectionRules(table.rows, section, types, pattern, name);
    FindWithExcluded(RulesOf(entries), names, name);
    RulesOfUnique(entries);
    WithExcludedUnique(RulesOf(entries), names);
    if RowOf(table.rows, section, name).Some? {
      RowOfIsNamed(table.rows, section, name);
    }
  }

  lemma {:induction false} RowOfIsNamed(rows: seq<Row>, section: Section, name: string)
    requires RowOf(rows, section, name).Some?
    ensures var row := RowOf(rows, section, name).value;
      row.wire == name && row.section == section && row in rows
  {
    if !(rows[|rows| - 1].section == section && rows[|rows| - 1].wire == name) {
      RowOfIsNamed(rows[..|rows| - 1], section, name);
    }
  }

  /** The round trip.  For a listed type, the rule loaded for a field says what the table says; for
      any other type it does exactly when the table is silent about the primary type too. */
  lemma MatrixRoundTrip(table: Table, pattern: int, section: Section, name: string, t: int)
    requires table.Valid() && RowOf(table.rows, section, name).Some?
    ensures var block := Emitted(table, pattern);
      var row := RowOf(table.rows, section, name).value;
      && section in block.entries && section in block.excluded && Loaded(block, section).Some?
      && Find(Loaded(block, section).value, name).Some?
      && (Find(Loaded(block, section).value, name).value.ForType(Some(t)) == Says(row, t, pattern)
          <==> t in TypesOf(table.rows, table.columns, pattern)
               || Says(row, Primary(TypesOf(table.rows, table.columns, pattern)), pattern) == NotApplicable)
  {
    var types := TypesOf(table.rows, table.columns, pattern);
    var row := RowOf(table.rows, section, name).value;
    hide EntriesOf, ExcludedOf, RulesOf, WithExcluded, RuleFor, TypesOf;
    EmittedLoads(table, pattern, section, name);
    RuleForType(row, types, pattern, t);
    RowOfIsNamed(table.rows, section, name);
    var r :| 0 <= r < |table.rows| && table.rows[r] == row;
    if t !in types {
      UnlistedIsSilent(table, pattern, r, t);
    }
  }

  // ---- The check of a header -------------------------------------------------------------------------------

  lemma {:induction false} ComplaintsAreRules(rules: seq<FieldRule>, h: HeaderFields, c: Complaint)
    ensures c in HeaderComplaints(rules, h)
       <==> exists i :: 0 <= i < |rules| && c in HeaderComplaint(rules[i], h)
  {
    if rules != [] {
      hide HeaderComplaint;
      var front := rules[..|rules| - 1];
      ComplaintsAreRules(front, h, c);
      assert forall i | 0 <= i < |front| :: front[i] == rules[i];
      if c in HeaderComplaint(rules[|rules| - 1], h) {
        assert c in HeaderComplaints(rules, h);
      }
    }
  }

  lemma ComplaintNames(rule: FieldRule, h: HeaderFields, c: Complaint)
    requires c in HeaderComplaint(rule, h)
    ensures c.field == rule.name
  {
  }

  /** A complaint about a field is made exactly when the rule found for it makes it. */
  lemma ComplaintIsFound(rules: seq<FieldRule>, h: HeaderFields, c: Complaint)
    requires UniqueNames(rules)
    ensures c in HeaderComplaints(rules, h)
       <==> Find(rules, c.field).Some? && c in HeaderComplaint(Find(rules, c.field).value, h)
  {
    hide HeaderComplaint, HeaderComplaints;
    ComplaintsAreRules(rules, h, c);
    FindIsMember(rules, c.field);
    if c in HeaderComplaints(rules, h) {
      var i :| 0 <= i < |rules| && c in HeaderComplaint(rules[i], h);
      ComplaintNames(rules[i], h, c);
      assert rules[i] in rules;
    }
  }

  /** When a condition stands in the way of a conditional field: only where the field is conditional
      for the primary type.  An override to conditional is enforced whatever the header says. */
  predicate Enforced(row: Row, primary: int, pattern: int, h: HeaderFields)
  {
    Says(row, primary, pattern) == Conditional ==>
      if row.wire == "cap" || row.wire == "insp" then h.setm == Some(3)
      else if row.wire == "irtaxid" then h.ins == Some(2) || h.ins == Some(3) || h.ins == Some(4)
      else if row.wire == "indati2m" then h.insr == Some(1)
      else false
  }

  lemma RuleApplies(row: Row, types: seq<int>, pattern: int, h: HeaderFields)
    ensures RuleFor(row, types, pattern).Applies(h) <==> Enforced(row, Primary(types), pattern, h)
  {
  }

  /** The check of an invoice of a listed type complains of its header exactly as the table says:
      a required field missing, a conditional one missing while enforced, a field that does not
      belong there present; and of nothing else. */
  lemma HeaderCheckedByTable(table: Table, pattern: int, h: HeaderFields, t: int, name: string)
    requires table.Valid() && h.invoiceType == Some(t)
    requires t in TypesOf(table.rows, table.columns, pattern)
    ensures var block := Emitted(table, pattern);
      var primary := Primary(TypesOf(table.rows, table.columns, pattern));
      var found := RowOf(table.rows, HeaderSection, name);
      && HeaderSection in block.entries && HeaderSection in block.excluded && Loaded(block, HeaderSection).Some?
      && var complaints := HeaderComplaints(Loaded(block, HeaderSection).value, h);
         && (MissingRequired(name) in complaints
             <==> found.Some? && Says(found.value, t, pattern) == Required && name !in h.present)
         && (MissingConditional(name) in complaints
             <==> found.Some? && Says(found.value, t, pattern) == Conditional && name !in h.present
                  && Enforced(found.value, primary, pattern, h))
         && (DoesNotBelong(name) in complaints
             <==> found.Some? && Says(found.value, t, pattern) == NotApplicable && name in h.present)
  {
    hide Loaded, Emitted, TypesOf, RuleFor, Enforced, HeaderComplaints;
    EmittedLoads(table, pattern, HeaderSection, name);
    var types := TypesOf(table.rows, table.columns, pattern);
    var rules := Loaded(Emitted(table, pattern), HeaderSection).value;
    ComplaintIsFound(rules, h, MissingRequired(name));
    ComplaintIsFound(rules, h, MissingConditional(name));
    ComplaintIsFound(rules, h, DoesNotBelong(name));
    if RowOf(table.rows, HeaderSection, name).Some? {
      var row := RowOf(table.rows, HeaderSection, name).value;
      RowOfIsNamed(table.rows, HeaderSection, name);
      RuleForType(row, types, pattern, t);
      RuleApplies(row, types, pattern, h);
    }
  }

  lemma {:induction false} LineComplaintsAreRules(
    rules: seq<FieldRule>, invoiceType: Option<int>, present: set<string>, c: Complaint)
    ensures c in LineComplaints(rules, invoiceType, present)
       <==> exists i :: 0 <= i < |rules| && c in LineComplaint(rules[i], invoiceType, present)
  {
    if rules != [] {
      hide LineComplaint;
      var front := rules[..|rules| - 1];
      LineComplaintsAreRules(front, invoiceType, present, c);
      assert forall i | 0 <= i < |front| :: front[i] == rules[i];
      if c in LineComplaint(rules[|rules| - 1], invoiceType, present) {
        assert c in LineComplaints(rules, invoiceType, present);
      }
    }
  }

  lemma LineComplaintIsFound(rules: seq<FieldRule>, invoiceType: Option<int>, present: set<string>, c: Complaint)
    requires UniqueNames(rules)
    ensures c in LineComplaints(rules, invoiceType, present)
       <==> Find(rules, c.field).Some? && c in LineComplaint(Find(rules, c.field).value, invoiceType, present)
  {
    hide LineComplaints;
    LineComplaintsAreRules(rules, invoiceType, present, c);
    FindIsMember(rules, c.field);
    if c in LineComplaints(rules, invoiceType, present) {
      var i :| 0 <= i < |rules| && c in LineComplaint(rules[i], invoiceType, present);
      assert rules[i] in rules && rules[i].name == c.field;
    }
  }

  /** On a line or a carried good of an invoice of a listed type the only complaint is of a missing field that the table
      requires: one that is conditional or does not belong there is never complained of. */
  lemma LineCheckedByTable(
    table: Table, pattern: int, section: Section, t: int, present: set<string>, c: Complaint)
    requires section == BodySection || section == SgSection
    requires table.Valid() && t in TypesOf(table.rows, table.columns, pattern)
    ensures var block := Emitted(table, pattern);
      var found := RowOf(table.rows, section, c.field);
      && section in block.entries && section in block.excluded && Loaded(block, section).Some?
      && (c in LineComplaints(Loaded(block, section).value, Some(t), present)
          <==> c.MissingRequired? && found.Some? && Says(found.value, t, pattern) == Required
               && c.field !in present)
  {
    hide Loaded, Emitted, TypesOf, RuleFor, LineComplaints;
    EmittedLoads(table, pattern, section, c.field);
    var types := TypesOf(table.rows, table.columns, pattern);
    LineComplaintIsFound(Loaded(Emitted(table, pattern), section).value, Some(t), present, c);
    if RowOf(table.rows, section, c.field).Some? {
      var row := RowOf(table.rows, section, c.field).value;
      RowOfIsNamed(table.rows, section, c.field);
      RuleForType(row, types, pattern, t);
    }
  }

  // ---- What is written and refused -----------------------------------------------------------------------

  /** A block's types are never empty: those some field has a say for, or type 1 if none has. */
  lemma BlockTypesAre(table: Table, pattern: int, t: int)
    ensures var types := Emitted(table, pattern).types;
      && types != [] && AscendingInts(types)
      && (t in types <==>
            || (Column(t, pattern) in table.columns && Speaks(table.rows, Column(t, pattern)))
            || (t == 1 && forall c | c in table.columns && c.pattern == pattern :: !Speaks(table.rows, c)))
  {
    TypesOfAre(table.rows, table.columns, pattern);
    var types := TypesOf(table.rows, table.columns, pattern);
    if types == [] {
      forall c | c in table.columns && c.pattern == pattern
        ensures !Speaks(table.rows, c)
      {
        assert c == Column(c.invoiceType, pattern) && c.invoiceType !in types;
      }
    } else {
      assert types[0] in types && Column(types[0], pattern) in table.columns;
    }
  }

  /** A field is only listed as not belonging when the table says so for the primary type and, in so many
      words, for every listed one. */
  lemma ExcludedIff(table: Table, pattern: int, section: Section, name: string)
    requires table.Valid()
    ensures var block := Emitted(table, pattern);
      var types := TypesOf(table.rows, table.columns, pattern);
      var found := RowOf(table.rows, section, name);
      && section in block.excluded
      && (name in block.excluded[section] <==>
            && found.Some? && Says(found.value, Primary(types), pattern) == NotApplicable
            && forall t | t in types :: CellAt(found.value, t, pattern) == Some(NotApplicable))
  {
    hide Loaded, TypesOf, EntriesOf;
    var types := TypesOf(table.rows, table.columns, pattern);
    SectionRules(table.rows, section, types, pattern, name);
    EveryName(section);
    if RowOf(table.rows, section, name).Some? {
      var row := RowOf(table.rows, section, name).value;
      OverridesAre(row, types, pattern, Says(row, Primary(types), pattern));
      EmptyIffNone(Overrides(row, types, pattern, Says(row, Primary(types), pattern)));
    }
  }

  lemma EmptyIffNone(m: map<int, Obligation>)
    ensures m == map[] <==> forall t :: t !in m
  {
    if forall t :: t !in m {
      assert m.Keys == {};
    }
  }

  lemma EveryName(section: Section)
    ensures section in SECTIONS
  {
    assert SECTIONS[0] == HeaderSection && SECTIONS[1] == BodySection;
    assert SECTIONS[2] == PaymentSection && SECTIONS[3] == SgSection;
  }

  /** A file is refused exactly when a conditional field of a section names no condition. */
  lemma LoadRefusedIff(block: Block, section: Section)
    requires section in block.entries && section in block.excluded
    ensures Loaded(block, section).None?
       <==> exists e :: e in block.entries[section] && e.obligation == Conditional && e.when == NoWhen
  {
    var entries := block.entries[section];
    if e :| e in entries && e.obligation == Conditional && e.when == NoWhen {
      var i :| 0 <= i < |entries| && entries[i] == e;
      assert entries[i].obligation == Conditional;
    }
    if i :| 0 <= i < |entries| && entries[i].obligation == Conditional && entries[i].when == NoWhen {
      assert entries[i] in entries;
    }
  }

  /** An invoice that names no type is judged as one of the primary type. */
  lemma NoTypeIsPrimary(row: Row, types: seq<int>, pattern: int)
    ensures RuleFor(row, types, pattern).ForType(None) == Says(row, Primary(types), pattern)
  {
    RuleForType(row, types, pattern, 0);
  }

  // ---- Order ---------------------------------------------------------------------------------------------

  /** Entries, exclusions and complaints come in the order of the table's rows and of the rules. */
  lemma {:induction false} RowsInOrder(a: seq<Row>, b: seq<Row>, section: Section, types: seq<int>, pattern: int)
    ensures EntriesOf(a + b, section, types, pattern)
         == EntriesOf(a, section, types, pattern) + EntriesOf(b, section, types, pattern)
    ensures ExcludedOf(a + b, section, types, pattern)
         == ExcludedOf(a, section, types, pattern) + ExcludedOf(b, section, types, pattern)
    decreases |b|
  {
    hide EntryOf, IsExcluded;
    if b == [] {
      assert a + b == a;
    } else {
      assert (a + b)[..|a + b| - 1] == a + b[..|b| - 1];
      RowsInOrder(a, b[..|b| - 1], section, types, pattern);
    }
  }

  lemma {:induction false} ComplaintsInOrder(
    a: seq<FieldRule>, b: seq<FieldRule>, h: HeaderFields, present: set<string>)
    ensures HeaderComplaints(a + b, h) == HeaderComplaints(a, h) + HeaderComplaints(b, h)
    ensures LineComplaints(a + b, h.invoiceType, present)
         == LineComplaints(a, h.invoiceType, present) + LineComplaints(b, h.invoiceType, present)
    decreases |b|
  {
    hide HeaderComplaint, LineComplaint;
    if b == [] {
      assert a + b == a;
    } else {
      assert (a + b)[..|a + b| - 1] == a + b[..|b| - 1];
      ComplaintsInOrder(a, b[..|b| - 1], h, present);
    }
  }
}
