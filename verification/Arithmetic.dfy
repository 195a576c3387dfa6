/** The money rules: what each derived amount should be, the check of an invoice against them,
    and the filling in of an invoice from its inputs.

    Quantities, prices and rates are reals; amounts of money are whole rials.
 */
module Arithmetic {
  import opened Results
  import opened Rounding

  type Money = Option<int>

  /** One line of an invoice, restricted to the fields the money rules read or write. */
  datatype Line = Line(
    am: Option<real>, fee: Option<real>, cfee: Option<real>, exr: Option<int>,
    prdis: Money, dis: Money, adis: Money, vra: Option<real>, vam: Money,
    odam: Money, olam: Money, tcpbs: Money, tsstam: Money, ssrv: Money, sovat: Money)

  datatype Header = Header(
    tprdis: Money, tdis: Money, tadis: Money, tvam: Money, todam: Money, tbill: Money,
    setm: Option<int>, cap: Money, insp: Money)

  datatype Invoice = Invoice(header: Header, body: seq<Line>)

  const TOLERANCE_RIAL := 1.0
  const ZERO_VAT_PATTERNS := {7, 11, 14}

  /** Absent money is zero. */
  function N(m: Money): int
  {
    if m.Some? then m.value else 0
  }

  function Q(q: Option<real>): real
  {
    if q.Some? then q.value else 0.0
  }

  function Distance(a: real, b: real): real
  {
    if a < b then b - a else a - b
  }

  predicate Off(actual: Money, expected: real)
  {
    Distance(N(actual) as real, expected) > TOLERANCE_RIAL
  }

  // ---- The formulas ----------------------------------------------------------------------

  function PreDiscount(item: Line, pattern: int): real
  {
    if pattern == 2 then Q(item.cfee) * N(item.exr) as real
    else if pattern == 6 then Q(item.fee)
    else Q(item.am) * Q(item.fee)
  }

  function AfterDiscount(item: Line, pattern: int): real
  {
    var base := if pattern == 3 then PreDiscount(item, pattern) + N(item.tcpbs) as real else PreDiscount(item, pattern);
    base - N(item.dis) as real
  }

  function Vat(item: Line, pattern: int): real
  {
    var rate := Q(item.vra);
    if pattern == 3 then (N(item.tcpbs) as real * 10.0) / 100.0 + (PreDiscount(item, pattern) * rate) / 100.0
    else if pattern == 2 then N(item.sovat) as real * rate / 100.0
    else N(item.adis) as real * rate / 100.0
  }

  function LineTotal(item: Line, pattern: int): int
  {
    (if pattern == 7 then N(item.ssrv) else N(item.adis)) + N(item.vam) + N(item.odam) + N(item.olam)
  }

  // ---- Sums over the body ------------------------------------------------------------------

  datatype Column = Prdis | Dis | Adis | Vam | Odam | Olam | Tsstam

  function Amount(item: Line, c: Column): int
  {
    match c
    case Prdis => N(item.prdis)
    case Dis => N(item.dis)
    case Adis => N(item.adis)
    case Vam => N(item.vam)
    case Odam => N(item.odam)
    case Olam => N(item.olam)
    case Tsstam => N(item.tsstam)
  }

  function Sum(body: seq<Line>, c: Column): int
  {
    if body == [] then 0 else Sum(body[..|body| - 1], c) + Amount(body[|body| - 1], c)
  }

  // ---- The check ---------------------------------------------------------------------------

  datatype Rule =
    | PrdisEqual | PrdisPositive | DisNonNegative | DisAtMostPrdis | AdisEqual | AdisNonNegative
    | VraNonNegative | VraZeroForPattern | VamEqual | TsstamEqual
    | TprdisEqual | TdisEqual | TadisEqual | TvamEqual | TbillEqual | TodamEqual | TprdisPositive
    | SettlementMethod | CapRequired | InspRequired | CapPositive | InspPositive
    | SplitBalances | CapBelowTotal | InspBelowTotal

  datatype Violation = Violation(rule: Rule, line: Option<nat>)

  function When(broken: bool, rule: Rule, line: Option<nat>): seq<Violation>
  {
    if broken then [Violation(rule, line)] else []
  }

  function LineViolations(item: Line, index: nat, pattern: int): seq<Violation>
  {
    var at := Some(index);
    When(Off(item.prdis, PreDiscount(item, pattern)), PrdisEqual, at)
    + When(N(item.prdis) <= 0, PrdisPositive, at)
    + (if N(item.dis) < 0 then [Violation(DisNonNegative, at)]
       else When(N(item.dis) as real > N(item.prdis) as real + TOLERANCE_RIAL, DisAtMostPrdis, at))
    + When(Off(item.adis, AfterDiscount(item, pattern)), AdisEqual, at)
    + When(N(item.adis) < 0, AdisNonNegative, at)
    + When(Q(item.vra) < 0.0, VraNonNegative, at)
    + When(pattern in ZERO_VAT_PATTERNS && Q(item.vra) != 0.0, VraZeroForPattern, at)
    + When(Off(item.vam, Vat(item, pattern)), VamEqual, at)
    + When(Off(item.tsstam, LineTotal(item, pattern) as real), TsstamEqual, at)
  }

  function BodyViolations(body: seq<Line>, pattern: int): seq<Violation>
  {
    if body == [] then []
    else
      BodyViolations(body[..|body| - 1], pattern) + LineViolations(body[|body| - 1], |body| - 1, pattern)
  }

  function TotalViolations(inv: Invoice): seq<Violation>
  {
    var h, b := inv.header, inv.body;
    When(Off(h.tprdis, Sum(b, Prdis) as real), TprdisEqual, None)
    + When(Off(h.tdis, Sum(b, Dis) as real), TdisEqual, None)
    + When(Off(h.tadis, Sum(b, Adis) as real), TadisEqual, None)
    + When(Off(h.tvam, Sum(b, Vam) as real), TvamEqual, None)
    + When(Off(h.tbill, Sum(b, Tsstam) as real), TbillEqual, None)
    + When(Off(h.todam, (Sum(b, Odam) + Sum(b, Olam)) as real), TodamEqual, None)
    + When(N(h.tprdis) <= 0, TprdisPositive, None)
  }

  function SettlementViolations(h: Header): seq<Violation>
  {
    if h.setm.Some? && h.setm.value !in {1, 2, 3} then [Violation(SettlementMethod, None)]
    else if h.setm != Some(3) then []
    else
      When(h.cap.None?, CapRequired, None)
      + When(h.insp.None?, InspRequired, None)
      + When(h.cap.Some? && N(h.cap) <= 0, CapPositive, None)
      + When(h.insp.Some? && N(h.insp) <= 0, InspPositive, None)
      + (if h.cap.Some? && h.insp.Some? then
           When(Off(h.cap, (N(h.tbill) - N(h.todam) - N(h.tvam) - N(h.insp)) as real), SplitBalances, None)
           + When(N(h.cap) >= N(h.tbill), CapBelowTotal, None)
           + When(N(h.insp) >= N(h.tbill), InspBelowTotal, None)
         else [])
  }

  function Violations(inv: Invoice, pattern: int): seq<Violation>
  {
    BodyViolations(inv.body, pattern) + TotalViolations(inv) + SettlementViolations(inv.header)
  }

  method CheckArithmetic(inv: Invoice, pattern: int) returns (violations: seq<Violation>)
    ensures violations == Violations(inv, pattern)
  {
    violations := [];
    for i := 0 to |inv.body|
      invariant violations == BodyViolations(inv.body[..i], pattern)
    {
      assert inv.body[..i + 1][..i] == inv.body[..i];
      violations := violations + LineViolations(inv.body[i], i, pattern);
    }
    assert inv.body[..|inv.body|] == inv.body;
    violations := violations + TotalViolations(inv);
    violations := violations + SettlementViolations(inv.header);
  }

  // ---- Filling in --------------------------------------------------------------------------

  function FilledLine(item: Line, pattern: int): Line
  {
    var a := item.(prdis := Some(Round(PreDiscount(item, pattern))));
    var b := a.(adis := Some(Round(AfterDiscount(a, pattern))));
    var c := b.(vam := Some(Round(Vat(b, pattern))));
    c.(tsstam := Some(LineTotal(c, pattern)))
  }

  function FilledBody(body: seq<Line>, pattern: int): (r: seq<Line>)
    ensures |r| == |body|
    ensures forall i | 0 <= i < |body| :: r[i] == FilledLine(body[i], pattern)
  {
    seq(|body|, i requires 0 <= i < |body| => FilledLine(body[i], pattern))
  }

  function FilledHeader(h: Header, body: seq<Line>): Header
  {
    h.(tprdis := Some(Sum(body, Prdis)), tdis := Some(Sum(body, Dis)), tadis := Some(Sum(body, Adis)),
       tvam := Some(Sum(body, Vam)), todam := Some(Sum(body, Odam) + Sum(body, Olam)), tbill := Some(Sum(body, Tsstam)))
  }

  function Recomputed(inv: Invoice, pattern: int): Invoice
  {
    var body := FilledBody(inv.body, pattern);
    Invoice(FilledHeader(inv.header, body), body)
  }

  method SumOf(body: seq<Line>, c: Column) returns (total: int)
    ensures total == Sum(body, c)
  {
    total := 0;
    for i := 0 to |body|
      invariant total == Sum(body[..i], c)
    {
      assert body[..i + 1][..i] == body[..i];
      total := total + Amount(body[i], c);
    }
    assert body[..|body|] == body;
  }

  method Recompute(inv: Invoice, pattern: int) returns (updated: Invoice)
    ensures updated == Recomputed(inv, pattern)
  {
    var body := inv.body;
    for i := 0 to |body|
      invariant |body| == |inv.body|
      invariant forall k | 0 <= k < i :: body[k] == FilledLine(inv.body[k], pattern)
      invariant forall k | i <= k < |body| :: body[k] == inv.body[k]
    {
      var item := body[i];
      item := item.(prdis := Some(Round(PreDiscount(item, pattern))));
      item := item.(adis := Some(Round(AfterDiscount(item, pattern))));
      item := item.(vam := Some(Round(Vat(item, pattern))));
      RoundOfWhole(LineTotal(item, pattern));
      item := item.(tsstam := Some(Round(LineTotal(item, pattern) as real)));
      body := body[i := item];
    }
    assert body == FilledBody(inv.body, pattern);
    var tprdis := SumOf(body, Prdis);
    var tdis := SumOf(body, Dis);
    var tadis := SumOf(body, Adis);
    var tvam := SumOf(body, Vam);
    var odam := SumOf(body, Odam);
    var olam := SumOf(body, Olam);
    var tbill := SumOf(body, Tsstam);
    RoundOfWhole(tprdis);
    RoundOfWhole(tdis);
    RoundOfWhole(tadis);
    RoundOfWhole(tvam);
    RoundOfWhole(odam + olam);
    RoundOfWhole(tbill);
    var header := inv.header.(
      tprdis := Some(Round(tprdis as real)), tdis := Some(Round(tdis as real)),
      tadis := Some(Round(tadis as real)), tvam := Some(Round(tvam as real)),
      todam := Some(Round((odam + olam) as real)), tbill := Some(Round(tbill as real)));
    updated := Invoice(header, body);
  }
}
