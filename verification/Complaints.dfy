/** What the money check reports: each violation, on the line it names, exactly when its rule is broken. */
module Complaints {
  import opened Results
  import opened Arithmetic
  import opened ArithmeticLaws

  /** More than a rial away. */
  predicate Misses(m: Money, expected: real)
  {
    N(m) as real < expected - 1.0 || N(m) as real > expected + 1.0
  }

  predicate LineBreaks(item: Line, pattern: int, rule: Rule)
  {
    match rule
    case PrdisEqual => Misses(item.prdis, PreDiscount(item, pattern))
    case AdisEqual => Misses(item.adis, PreDiscount(item, pattern) - TakenOff(item, pattern) as real)
    case VamEqual => Misses(item.vam, Vat(item, pattern))
    case TsstamEqual => Misses(item.tsstam, LineTotal(item, pattern) as real)
    case PrdisPositive => N(item.prdis) <= 0
    case DisNonNegative => N(item.dis) < 0
    case DisAtMostPrdis => N(item.dis) >= 0 && N(item.dis) > N(item.prdis) + 1
    case AdisNonNegative => N(item.adis) < 0
    case VraNonNegative => item.vra.Some? && item.vra.value < 0.0
    case VraZeroForPattern =>
      (pattern == 7 || pattern == 11 || pattern == 14) && item.vra.Some? && item.vra.value != 0.0
    case _ => false
  }

  predicate TotalBreaks(h: Header, body: seq<Line>, rule: Rule)
  {
    match rule
    case TprdisEqual => Misses(h.tprdis, Sum(body, Prdis) as real)
    case TdisEqual => Misses(h.tdis, Sum(body, Dis) as real)
    case TadisEqual => Misses(h.tadis, Sum(body, Adis) as real)
    case TvamEqual => Misses(h.tvam, Sum(body, Vam) as real)
    case TbillEqual => Misses(h.tbill, Sum(body, Tsstam) as real)
    case TodamEqual => Misses(h.todam, (Sum(body, Odam) + Sum(body, Olam)) as real)
    case TprdisPositive => N(h.tprdis) <= 0
    case _ => false
  }

  predicate SettlementBreaks(h: Header, rule: Rule)
  {
    var split := h.setm == Some(3);
    var both := split && h.cap.Some? && h.insp.Some?;
    match rule
    case SettlementMethod => h.setm.Some? && !(1 <= h.setm.value <= 3)
    case CapRequired => split && h.cap.None?
    case InspRequired => split && h.insp.None?
    case CapPositive => split && h.cap.Some? && h.cap.value <= 0
    case InspPositive => split && h.insp.Some? && h.insp.value <= 0
    case SplitBalances => both && Misses(h.cap, (N(h.tbill) - N(h.todam) - N(h.tvam) - N(h.insp)) as real)
    case CapBelowTotal => both && h.cap.value >= N(h.tbill)
    case InspBelowTotal => both && h.insp.value >= N(h.tbill)
    case _ => false
  }

  lemma LineReports(item: Line, index: nat, pattern: int, v: Violation)
    ensures v in LineViolations(item, index, pattern) <==> v.line == Some(index) && LineBreaks(item, pattern, v.rule)
  {
    hide PreDiscount, Vat, LineTotal;
    assert AfterDiscount(item, pattern) == PreDiscount(item, pattern) - TakenOff(item, pattern) as real;
    hide AfterDiscount, TakenOff;
  }

  lemma TotalReports(inv: Invoice, v: Violation)
    ensures v in TotalViolations(inv) <==> v.line.None? && TotalBreaks(inv.header, inv.body, v.rule)
  {
    hide Sum, N;
  }

  lemma SettlementReports(h: Header, v: Violation)
    ensures v in SettlementViolations(h) <==> v.line.None? && SettlementBreaks(h, v.rule)
  {
  }

  lemma {:induction false} BodyReports(body: seq<Line>, pattern: int, v: Violation)
    ensures v in BodyViolations(body, pattern)
       <==> v.line.Some? && v.line.value < |body| && LineBreaks(body[v.line.value], pattern, v.rule)
  {
    hide LineViolations, LineBreaks;
    if body != [] {
      var m := |body| - 1;
      ViolationsSplit(body, pattern);
      BodyReports(body[..m], pattern, v);
      LineReports(body[m], m, pattern, v);
    }
  }

  /** The check reports a rule for a line, or for the bill, exactly when it is broken there. */
  lemma ReportedIff(inv: Invoice, pattern: int, v: Violation)
    ensures v in Violations(inv, pattern)
       <==> match v.line
            case Some(i) => i < |inv.body| && LineBreaks(inv.body[i], pattern, v.rule)
            case None => TotalBreaks(inv.header, inv.body, v.rule) || SettlementBreaks(inv.header, v.rule)
  {
    hide BodyViolations, TotalViolations, SettlementViolations, LineBreaks, TotalBreaks, SettlementBreaks;
    BodyReports(inv.body, pattern, v);
    TotalReports(inv, v);
    SettlementReports(inv.header, v);
  }

  /** All are about lines below `n`, and line by line. */
  predicate LineByLine(vs: seq<Violation>, n: nat)
  {
    && (forall i | 0 <= i < |vs| :: vs[i].line.Some? && vs[i].line.value < n)
    && (forall i, j | 0 <= i < j < |vs| :: vs[i].line.value <= vs[j].line.value)
  }

  lemma OneMoreLine(front: seq<Violation>, last: seq<Violation>, n: nat)
    requires LineByLine(front, n) && forall i | 0 <= i < |last| :: last[i].line == Some(n)
    ensures LineByLine(front + last, n + 1)
  {
    var vs := front + last;
    assert forall i | 0 <= i < |front| :: vs[i] == front[i];
    assert forall i | |front| <= i < |vs| :: vs[i] == last[i - |front|];
  }

  /** Lines are reported in order, before the bill as a whole. */
  lemma {:induction false} LinesInOrder(body: seq<Line>, pattern: int)
    ensures LineByLine(BodyViolations(body, pattern), |body|)
  {
    if body != [] {
      hide LineViolations, LineByLine;
      var m := |body| - 1;
      LinesInOrder(body[..m], pattern);
      OneLine(body[m], m, pattern);
      OneMoreLine(BodyViolations(body[..m], pattern), LineViolations(body[m], m, pattern), m);
    }
  }

  lemma OneLine(item: Line, index: nat, pattern: int)
    ensures forall i | 0 <= i < |LineViolations(item, index, pattern)| ::
      LineViolations(item, index, pattern)[i].line == Some(index)
  {
    forall i | 0 <= i < |LineViolations(item, index, pattern)|
      ensures LineViolations(item, index, pattern)[i].line == Some(index)
    {
      LineReports(item, index, pattern, LineViolations(item, index, pattern)[i]);
    }
  }

  lemma ReportOrder(inv: Invoice, pattern: int)
    ensures var vs, lines := Violations(inv, pattern), BodyViolations(inv.body, pattern);
      |lines| <= |vs| && vs[..|lines|] == lines && forall i | |lines| <= i < |vs| :: vs[i].line.None?
  {
    hide BodyViolations, TotalViolations, SettlementViolations;
    var vs, lines := Violations(inv, pattern), BodyViolations(inv.body, pattern);
    forall i | |lines| <= i < |vs|
      ensures vs[i].line.None?
    {
      TotalReports(inv, vs[i]);
      SettlementReports(inv.header, vs[i]);
      var rest := TotalViolations(inv) + SettlementViolations(inv.header);
      assert vs == lines + rest && vs[i] == rest[i - |lines|];
    }
  }
}
