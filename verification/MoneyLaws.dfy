/** What the money rules compute, said in terms of the invoice and not of their formulas. */
module MoneyLaws {
  import opened Results
  import opened Rounding
  import opened Arithmetic
  import opened ArithmeticLaws

  // ---- Amounts before discount -------------------------------------------------------------------

  predicate PricedByQuantity(pattern: int)
  {
    pattern != 2 && pattern != 6
  }

  /** A quantity may be priced in parts, one unit costs the fee, and a fee may be split as well. */
  lemma QuantityAdds(item: Line, x: real, y: real, fee: real, pattern: int)
    requires PricedByQuantity(pattern)
    ensures PreDiscount(item.(am := Some(x + y)), pattern)
         == PreDiscount(item.(am := Some(x)), pattern) + PreDiscount(item.(am := Some(y)), pattern)
    ensures PreDiscount(item.(am := Some(1.0), fee := Some(fee)), pattern) == fee
    ensures PreDiscount(item.(am := Some(x), fee := Some(fee + y)), pattern)
         == PreDiscount(item.(am := Some(x), fee := Some(fee)), pattern)
            + PreDiscount(item.(am := Some(x), fee := Some(y)), pattern)
  {
    var q := Q(item.fee);
    assert (x + y) * q == x * q + y * q;
    assert x * (fee + y) == x * fee + x * y;
  }

  /** Currency is priced by its amount and rate, whatever quantity and fee say; a ticket costs its fee,
      whatever the quantity. */
  lemma CurrencyAdds(item: Line, x: real, y: real, rate: int, am: Option<real>, fee: Option<real>)
    ensures PreDiscount(item.(cfee := Some(x + y)), 2)
         == PreDiscount(item.(cfee := Some(x)), 2) + PreDiscount(item.(cfee := Some(y)), 2)
    ensures PreDiscount(item.(cfee := Some(1.0), exr := Some(rate)), 2) == rate as real
    ensures PreDiscount(item.(am := am, fee := fee), 2) == PreDiscount(item, 2)
    ensures PreDiscount(item.(am := am, fee := Some(x)), 6) == x
  {
    var q := N(item.exr) as real;
    assert (x + y) * q == x * q + y * q;
  }

  lemma RoundedSum(p: real, q: real)
    ensures -1 <= Round(p + q) - (Round(p) + Round(q)) <= 1
  {
    RoundIsNearest(p);
    RoundIsNearest(q);
    RoundIsNearest(p + q);
  }

  /** So a line billed in two parts comes to what it comes to in one, up to a rial. */
  lemma SplitLine(item: Line, x: real, y: real, pattern: int)
    requires PricedByQuantity(pattern)
    ensures var whole, first, second := FilledLine(item.(am := Some(x + y)), pattern),
        FilledLine(item.(am := Some(x)), pattern), FilledLine(item.(am := Some(y)), pattern);
      -1 <= N(whole.prdis) - (N(first.prdis) + N(second.prdis)) <= 1
  {
    hide FilledLine, PreDiscount, Round;
    QuantityAdds(item, x, y, 0.0, pattern);
    FilledAmounts(item.(am := Some(x + y)), pattern);
    FilledAmounts(item.(am := Some(x)), pattern);
    FilledAmounts(item.(am := Some(y)), pattern);
    RoundedSum(PreDiscount(item.(am := Some(x)), pattern), PreDiscount(item.(am := Some(y)), pattern));
  }

  // ---- Tax ---------------------------------------------------------------------------------------

  /** `a` and `b` are at most `bound` apart. */
  predicate Near(a: real, b: real, bound: real)
  {
    -bound <= a - b <= bound
  }

  /** `rate` hundredths of an amount, a hundred times. */
  function Share(rate: real, amount: int): real
  {
    rate * amount as real
  }

  lemma ShareAdds(rate: real, a: int, b: int)
    ensures Share(rate, a + b) == Share(rate, a) + Share(rate, b) && Share(rate, 0) == 0.0
  {
  }

  function Product(a: real, b: real): real
  {
    a * b
  }

  lemma ShareOfNear(rate: real, p: real, r: int, bound: real)
    requires rate >= 0.0 && Near(r as real, p, bound)
    ensures Near(Product(p, rate), Share(rate, r), Product(bound, rate))
  {
    var gap := r as real - p;
    assert rate * gap <= rate * bound;
    assert rate * gap >= rate * -bound;
    assert rate * gap == rate * r as real - p * rate;
  }

  /** A hundred times the tax on a line should be this. */
  function HundredfoldTax(item: Line, rate: real, pattern: int): real
  {
    if pattern == 3 then 10.0 * N(item.tcpbs) as real + Share(rate, N(item.prdis))
    else if pattern == 2 then Share(rate, N(item.sovat))
    else Share(rate, N(item.adis))
  }

  lemma HundredfoldVat(item: Line, rate: real, pattern: int)
    requires item.vra == Some(rate)
    ensures pattern == 3 ==>
      100.0 * Vat(item, pattern) == 10.0 * N(item.tcpbs) as real + Product(PreDiscount(item, pattern), rate)
    ensures pattern != 3 ==> 100.0 * Vat(item, pattern) == HundredfoldTax(item, rate, pattern)
  {
    hide PreDiscount;
  }

  /** How far `tax` may be off when it is within `slack` of the tax computed, and the amount before
      discount within `slack` of the product: gold is taxed on the product. */
  function TaxSlack(rate: real, pattern: int, slack: real): real
  {
    if pattern == 3 then 100.0 * slack + Product(slack, rate) else 100.0 * slack
  }

  lemma LineTax(item: Line, rate: real, pattern: int, slack: real)
    requires item.vra == Some(rate) && rate >= 0.0
    requires Near(N(item.vam) as real, Vat(item, pattern), slack)
    requires Near(N(item.prdis) as real, PreDiscount(item, pattern), slack)
    ensures Near(100.0 * N(item.vam) as real, HundredfoldTax(item, rate, pattern), TaxSlack(rate, pattern, slack))
  {
    HundredfoldVat(item, rate, pattern);
    hide Vat, PreDiscount, Share, Product, N, Q;
    if pattern == 3 {
      ShareOfNear(rate, PreDiscount(item, pattern), N(item.prdis), slack);
    }
  }

  lemma FilledTax(item: Line, rate: real, pattern: int)
    requires item.vra == Some(rate) && rate >= 0.0
    ensures var f := FilledLine(item, pattern);
      Near(100.0 * N(f.vam) as real, HundredfoldTax(f, rate, pattern), TaxSlack(rate, pattern, 0.5))
  {
    hide FilledLine, PreDiscount, AfterDiscount, Round, Vat, HundredfoldTax, TaxSlack;
    var f := FilledLine(item, pattern);
    FilledAmounts(item, pattern);
    RoundIsNearest(Vat(f, pattern));
    RoundIsNearest(PreDiscount(item, pattern));
    LineTax(f, rate, pattern, 0.5);
  }

  lemma AcceptedLineTax(item: Line, index: nat, rate: real, pattern: int)
    requires LineViolations(item, index, pattern) == [] && item.vra == Some(rate) && rate >= 0.0
    ensures Near(100.0 * N(item.vam) as real, HundredfoldTax(item, rate, pattern), TaxSlack(rate, pattern, 1.0))
  {
    hide Vat, PreDiscount, AfterDiscount, HundredfoldTax, TaxSlack;
    assert !Off(item.vam, Vat(item, pattern)) && !Off(item.prdis, PreDiscount(item, pattern));
    LineTax(item, rate, pattern, 1.0);
  }

  // ---- Tax of a body -------------------------------------------------------------------------------

  /** A hundred times the tax on a body should be this. */
  function TaxDue(body: seq<Line>, rate: real, pattern: int): real
  {
    if body == [] then 0.0
    else TaxDue(body[..|body| - 1], rate, pattern) + HundredfoldTax(body[|body| - 1], rate, pattern)
  }

  /** `n` lines, each off by at most `slack`. */
  function Lines(n: nat, slack: real): real
  {
    n as real * slack
  }

  lemma OneMore(n: nat, slack: real)
    ensures Lines(n + 1, slack) == Lines(n, slack) + slack && Lines(0, slack) == 0.0
  {
  }

  lemma {:induction false} BodyTax(body: seq<Line>, rate: real, pattern: int, slack: real)
    requires forall i | 0 <= i < |body| ::
      Near(100.0 * N(body[i].vam) as real, HundredfoldTax(body[i], rate, pattern), slack)
    ensures Near(100.0 * Sum(body, Vam) as real, TaxDue(body, rate, pattern), Lines(|body|, slack))
  {
    hide HundredfoldTax, Lines, N;
    OneMore(0, slack);
    if body != [] {
      var m := |body| - 1;
      assert forall i | 0 <= i < m :: body[..m][i] == body[i];
      BodyTax(body[..m], rate, pattern, slack);
      SumSplits(body);
      OneMore(m, slack);
    }
  }

  /** Amounts of a line that the bill has no total for: what was charged for work on gold, what was
      converted into rials, and what was declared for export. */
  datatype Extra = Charged | Converted | Declared

  function ExtraOf(item: Line, extra: Extra): int
  {
    match extra
    case Charged => N(item.tcpbs)
    case Converted => N(item.sovat)
    case Declared => N(item.ssrv)
  }

  function Total(body: seq<Line>, extra: Extra): int
  {
    if body == [] then 0 else Total(body[..|body| - 1], extra) + ExtraOf(body[|body| - 1], extra)
  }

  lemma {:induction false} DueOnDiscounted(body: seq<Line>, rate: real, pattern: int)
    requires pattern != 2 && pattern != 3
    ensures TaxDue(body, rate, pattern) == Share(rate, Sum(body, Adis))
  {
    hide Share, N;
    if body != [] {
      DueOnDiscounted(body[..|body| - 1], rate, pattern);
      SumSplits(body);
      ShareAdds(rate, Sum(body[..|body| - 1], Adis), N(body[|body| - 1].adis));
    } else {
      NothingSums();
      ShareAdds(rate, 0, 0);
    }
  }

  lemma {:induction false} DueOnConverted(body: seq<Line>, rate: real)
    ensures TaxDue(body, rate, 2) == Share(rate, Total(body, Converted))
  {
    hide Share, N;
    ShareAdds(rate, 0, 0);
    if body != [] {
      DueOnConverted(body[..|body| - 1], rate);
      ShareAdds(rate, Total(body[..|body| - 1], Converted), N(body[|body| - 1].sovat));
    }
  }

  lemma {:induction false} DueOnGold(body: seq<Line>, rate: real)
    ensures TaxDue(body, rate, 3) == 10.0 * Total(body, Charged) as real + Share(rate, Sum(body, Prdis))
  {
    hide Share, N;
    ShareAdds(rate, 0, 0);
    NothingSums();
    if body != [] {
      DueOnGold(body[..|body| - 1], rate);
      SumSplits(body);
      ShareAdds(rate, Sum(body[..|body| - 1], Prdis), N(body[|body| - 1].prdis));
    }
  }

  // ---- Tax of a bill ---------------------------------------------------------------------------------

  lemma RecomputedIs(inv: Invoice, pattern: int)
    ensures var r, body := Recomputed(inv, pattern), FilledBody(inv.body, pattern);
      && r.body == body && N(r.header.tvam) == Sum(body, Vam) && N(r.header.tadis) == Sum(body, Adis)
      && N(r.header.tprdis) == Sum(body, Prdis)
  {
    hide FilledBody, Sum;
  }

  lemma FilledBodyTax(inv: Invoice, rate: real, pattern: int)
    requires rate >= 0.0 && forall i | 0 <= i < |inv.body| :: inv.body[i].vra == Some(rate)
    ensures var r := Recomputed(inv, pattern);
      && |r.body| == |inv.body|
      && Near(100.0 * N(r.header.tvam) as real, TaxDue(r.body, rate, pattern),
              Lines(|inv.body|, TaxSlack(rate, pattern, 0.5)))
  {
    hide FilledLine, HundredfoldTax, TaxSlack, TaxDue, Lines, N, Sum, Near;
    var body := FilledBody(inv.body, pattern);
    forall i | 0 <= i < |body|
      ensures Near(100.0 * N(body[i].vam) as real, HundredfoldTax(body[i], rate, pattern), TaxSlack(rate, pattern, 0.5))
    {
      FilledTax(inv.body[i], rate, pattern);
    }
    BodyTax(body, rate, pattern, TaxSlack(rate, pattern, 0.5));
    RecomputedIs(inv, pattern);
  }

  /** After recompute, when every line has one rate: the tax of the bill is that rate on its discounted
      total, up to half a rial a line. */
  lemma RecomputedTax(inv: Invoice, rate: real, pattern: int)
    requires rate >= 0.0 && forall i | 0 <= i < |inv.body| :: inv.body[i].vra == Some(rate)
    requires pattern != 2 && pattern != 3
    ensures var h := Recomputed(inv, pattern).header;
      Near(100.0 * N(h.tvam) as real, Share(rate, N(h.tadis)), 50.0 * |inv.body| as real)
  {
    hide Recomputed, Accepted, TaxDue, N, Total, Share, Lines, TaxSlack, Sum;
    var r, n := Recomputed(inv, pattern), |inv.body|;
    FilledBodyTax(inv, rate, pattern);
    DueOnDiscounted(r.body, rate, pattern);
    RecomputedIs(inv, pattern);
    var slack, bound := Lines(n, TaxSlack(rate, pattern, 0.5)), 50.0 * n as real;
    assert slack == bound by { SlackIs(rate, pattern, n); }
  }

  lemma SlackIs(rate: real, pattern: int, n: nat)
    ensures Lines(n, TaxSlack(rate, pattern, 0.5))
         == if pattern == 3 then (50.0 + rate * 0.5) * n as real else 50.0 * n as real
  {
  }

  /** In currency it is the rate on what was converted. */
  lemma RecomputedCurrencyTax(inv: Invoice, rate: real)
    requires rate >= 0.0 && forall i | 0 <= i < |inv.body| :: inv.body[i].vra == Some(rate)
    ensures var r := Recomputed(inv, 2);
      Near(100.0 * N(r.header.tvam) as real, Share(rate, Total(r.body, Converted)), 50.0 * |inv.body| as real)
  {
    hide Recomputed, Accepted, TaxDue, N, Share, Lines, TaxSlack, Sum;
    var r, n := Recomputed(inv, 2), |inv.body|;
    FilledBodyTax(inv, rate, 2);
    DueOnConverted(r.body, rate);
    var slack, bound := Lines(n, TaxSlack(rate, 2, 0.5)), 50.0 * n as real;
    assert slack == bound by { SlackIs(rate, 2, n); }
  }

  /** For gold, ten percent of what was charged for the work and the rate on the amount before it, which
      is taxed before it is rounded. */
  lemma RecomputedGoldTax(inv: Invoice, rate: real)
    requires rate >= 0.0 && forall i | 0 <= i < |inv.body| :: inv.body[i].vra == Some(rate)
    ensures var r := Recomputed(inv, 3);
      Near(100.0 * N(r.header.tvam) as real, 10.0 * Total(r.body, Charged) as real + Share(rate, N(r.header.tprdis)),
           (50.0 + rate * 0.5) * |inv.body| as real)
  {
    hide Recomputed, Accepted, TaxDue, N, Total, Share, Lines, TaxSlack, Sum;
    var r, n := Recomputed(inv, 3), |inv.body|;
    FilledBodyTax(inv, rate, 3);
    DueOnGold(r.body, rate);
    RecomputedIs(inv, 3);
    var slack, bound := Lines(n, TaxSlack(rate, 3, 0.5)), (50.0 + rate * 0.5) * n as real;
    assert slack == bound by { SlackIs(rate, 3, n); }
  }

  /** An accepted bill of n lines at one rate, outside currency and gold: its tax is the rate on its
      discounted total up to a rial a line, one for the total, and the rate on a rial. */
  lemma AcceptedTax(inv: Invoice, rate: real, pattern: int)
    requires Accepted(inv, pattern) && pattern != 2 && pattern != 3 && rate >= 0.0
    requires forall i | 0 <= i < |inv.body| :: inv.body[i].vra == Some(rate)
    ensures var h := inv.header;
      Near(100.0 * N(h.tvam) as real, Share(rate, N(h.tadis)), 100.0 * |inv.body| as real + 100.0 + rate)
  {
    hide Recomputed, Accepted, TaxDue, N, Total, Share, Lines, TaxSlack, Sum;
    AcceptedShare(inv, rate, pattern);
    var h, n := inv.header, |inv.body|;
    var slack, bound := Lines(n, 100.0) + 100.0 + rate, 100.0 * n as real + 100.0 + rate;
    assert slack == bound by { LinesAre(n); }
  }

  lemma LinesAre(n: nat)
    ensures Lines(n, 100.0) == 100.0 * n as real
  {
  }

  lemma AcceptedShare(inv: Invoice, rate: real, pattern: int)
    requires Accepted(inv, pattern) && pattern != 2 && pattern != 3 && rate >= 0.0
    requires forall i | 0 <= i < |inv.body| :: inv.body[i].vra == Some(rate)
    ensures var h := inv.header;
      Near(100.0 * N(h.tvam) as real, Share(rate, N(h.tadis)), Lines(|inv.body|, 100.0) + 100.0 + rate)
  {
    AcceptedBodyTax(inv, rate, pattern);
    assert TaxSlack(rate, pattern, 1.0) == 100.0;
    hide Accepted, TaxDue, N, Sum, Share, Product, Lines, TaxSlack;
    DueOnDiscounted(inv.body, rate, pattern);
    var summed, stated := Sum(inv.body, Adis), N(inv.header.tadis);
    ShareOfNear(rate, summed as real, stated, 1.0);
    SumAsProduct(rate, summed);
  }

  lemma SumAsProduct(rate: real, summed: int)
    ensures Product(summed as real, rate) == Share(rate, summed) && Product(1.0, rate) == rate
  {
  }

  lemma AcceptedBodyTax(inv: Invoice, rate: real, pattern: int)
    requires Accepted(inv, pattern) && rate >= 0.0 && forall i | 0 <= i < |inv.body| :: inv.body[i].vra == Some(rate)
    ensures Near(100.0 * Sum(inv.body, Vam) as real, TaxDue(inv.body, rate, pattern),
                 Lines(|inv.body|, TaxSlack(rate, pattern, 1.0)))
    ensures -1 <= N(inv.header.tvam) - Sum(inv.body, Vam) <= 1 && -1 <= N(inv.header.tadis) - Sum(inv.body, Adis) <= 1
  {
    AcceptedParts(inv, pattern);
    hide Accepted, LineViolations, TotalViolations, HundredfoldTax, TaxSlack, TaxDue, Lines, N, Sum, Near;
    forall i | 0 <= i < |inv.body|
      ensures Near(100.0 * N(inv.body[i].vam) as real, HundredfoldTax(inv.body[i], rate, pattern),
                   TaxSlack(rate, pattern, 1.0))
    {
      AcceptedLineTax(inv.body[i], i, rate, pattern);
    }
    BodyTax(inv.body, rate, pattern, TaxSlack(rate, pattern, 1.0));
    TotalSlack(inv);
  }

  lemma AcceptedParts(inv: Invoice, pattern: int)
    requires Accepted(inv, pattern)
    ensures TotalViolations(inv) == []
    ensures forall i | 0 <= i < |inv.body| :: LineViolations(inv.body[i], i, pattern) == []
  {
    hide LineViolations, TotalViolations, BodyViolations, SettlementViolations;
    NothingInParts(BodyViolations(inv.body, pattern), TotalViolations(inv), SettlementViolations(inv.header));
    AcceptedLines(inv.body, pattern);
  }

  // ---- Exports -------------------------------------------------------------------------------------

  lemma {:induction false} ExportLines(body: seq<Line>)
    requires forall i | 0 <= i < |body| :: N(body[i].tsstam) == LineTotal(body[i], 7)
    ensures Sum(body, Tsstam) == Total(body, Declared) + Sum(body, Vam) + Sum(body, Odam) + Sum(body, Olam)
  {
    if body != [] {
      ExportLines(body[..|body| - 1]);
    }
  }

  /** A filled-in export bill is its declared values, its tax and its other charges. */
  lemma ExportBalances(inv: Invoice)
    ensures var r := Recomputed(inv, 7);
      N(r.header.tbill) == Total(r.body, Declared) + N(r.header.tvam) + N(r.header.todam)
  {
    hide FilledLine;
    var filled := FilledBody(inv.body, 7);
    forall i | 0 <= i < |filled|
      ensures N(filled[i].tsstam) == LineTotal(filled[i], 7)
    {
      FilledAmounts(inv.body[i], 7);
    }
    ExportLines(filled);
  }
}
