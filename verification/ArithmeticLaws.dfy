/** What the money rules promise: filled-in invoices meet every equation, accepted invoices
    balance up to an accumulated tolerance, and rounding conserves totals.
 */
module ArithmeticLaws {
  import opened Results
  import opened Rounding
  import opened Arithmetic

  // ---- Filled-in invoices meet every equation ------------------------------------------------

  const EQUATIONS := {PrdisEqual, AdisEqual, VamEqual, TsstamEqual,
                      TprdisEqual, TdisEqual, TadisEqual, TvamEqual, TodamEqual, TbillEqual}

  /** The conditions on a line's inputs that no filling in can mend. */
  predicate InDomain(item: Line, pattern: int)
  {
    && PreDiscount(item, pattern) > 0.5
    && 0 <= N(item.dis) <= Round(PreDiscount(item, pattern)) + 1
    && AfterDiscount(item, pattern) >= -0.5
    && Q(item.vra) >= 0.0
    && (pattern in ZERO_VAT_PATTERNS ==> Q(item.vra) == 0.0)
  }

  /** Lines that agree on everything the formulas read from the operator. */
  predicate SameInputs(a: Line, b: Line)
  {
    a.(prdis := None, adis := None, vam := None, tsstam := None)
    == b.(prdis := None, adis := None, vam := None, tsstam := None)
  }

  lemma FormulasReadInputs(a: Line, b: Line, pattern: int)
    requires SameInputs(a, b)
    ensures PreDiscount(a, pattern) == PreDiscount(b, pattern)
    ensures AfterDiscount(a, pattern) == AfterDiscount(b, pattern)
    ensures a.adis == b.adis ==> Vat(a, pattern) == Vat(b, pattern)
  {
    hide *;
    InputsAreFields(a, b);
    ReadsPre(a, b, pattern);
    ReadsAfter(a, b, pattern);
    if a.adis == b.adis {
      ReadsVat(a, b, pattern);
    }
  }

  lemma ReadsPre(a: Line, b: Line, pattern: int)
    requires a.am == b.am && a.fee == b.fee && a.cfee == b.cfee && a.exr == b.exr
    ensures PreDiscount(a, pattern) == PreDiscount(b, pattern)
  {
    hide Q, N;
  }

  lemma ReadsAfter(a: Line, b: Line, pattern: int)
    requires PreDiscount(a, pattern) == PreDiscount(b, pattern) && a.tcpbs == b.tcpbs && a.dis == b.dis
    ensures AfterDiscount(a, pattern) == AfterDiscount(b, pattern)
  {
    hide PreDiscount, Q, N;
  }

  lemma ReadsVat(a: Line, b: Line, pattern: int)
    requires PreDiscount(a, pattern) == PreDiscount(b, pattern)
    requires a.tcpbs == b.tcpbs && a.vra == b.vra && a.sovat == b.sovat && a.adis == b.adis
    ensures Vat(a, pattern) == Vat(b, pattern)
  {
    hide PreDiscount, Q, N;
  }

  lemma InputsAreFields(a: Line, b: Line)
    requires SameInputs(a, b)
    ensures a.am == b.am && a.fee == b.fee && a.cfee == b.cfee && a.exr == b.exr && a.tcpbs == b.tcpbs
    ensures a.dis == b.dis && a.vra == b.vra && a.sovat == b.sovat
  {
    var x := a.(prdis := None, adis := None, vam := None, tsstam := None);
    var y := b.(prdis := None, adis := None, vam := None, tsstam := None);
    assert x.am == a.am && x.fee == a.fee && x.cfee == a.cfee && x.exr == a.exr && x.tcpbs == a.tcpbs;
    assert x.dis == a.dis && x.vra == a.vra && x.sovat == a.sovat && x == y;
  }

  /** The inputs of a line, which filling in leaves alone, and its derived amounts. */
  lemma FilledAmounts(item: Line, pattern: int)
    ensures var f := FilledLine(item, pattern);
      && PreDiscount(f, pattern) == PreDiscount(item, pattern)
      && AfterDiscount(f, pattern) == AfterDiscount(item, pattern)
      && f.prdis == Some(Round(PreDiscount(item, pattern)))
      && f.adis == Some(Round(AfterDiscount(item, pattern)))
      && f.vam == Some(Round(Vat(f, pattern)))
      && f.tsstam == Some(LineTotal(f, pattern))
      && f.dis == item.dis && f.vra == item.vra
      && SameInputs(f, item)
  {
    hide PreDiscount, AfterDiscount, Vat, Round;
    var a := item.(prdis := Some(Round(PreDiscount(item, pattern))));
    var b := a.(adis := Some(Round(AfterDiscount(a, pattern))));
    var f := FilledLine(item, pattern);
    FormulasReadInputs(a, item, pattern);
    FormulasReadInputs(f, item, pattern);
    FormulasReadInputs(f, b, pattern);
  }

  /** The conditions on a line's own amounts, apart from the equations. */
  predicate SignsRight(item: Line, pattern: int)
  {
    && N(item.prdis) > 0
    && 0 <= N(item.dis) <= N(item.prdis) + 1
    && N(item.adis) >= 0
    && Q(item.vra) >= 0.0
    && (pattern in ZERO_VAT_PATTERNS ==> Q(item.vra) == 0.0)
  }

  predicate EquationsHold(item: Line, pattern: int)
  {
    && !Off(item.prdis, PreDiscount(item, pattern)) && !Off(item.adis, AfterDiscount(item, pattern))
    && !Off(item.vam, Vat(item, pattern)) && !Off(item.tsstam, LineTotal(item, pattern) as real)
  }

  lemma OnlySignsRemain(item: Line, index: nat, pattern: int)
    requires EquationsHold(item, pattern)
    ensures forall v | v in LineViolations(item, index, pattern) :: v.rule !in EQUATIONS
    ensures LineViolations(item, index, pattern) == [] <==> SignsRight(item, pattern)
  {
    hide Off, PreDiscount, AfterDiscount, Vat, LineTotal;
  }

  lemma FilledEquationsHold(item: Line, pattern: int)
    ensures EquationsHold(FilledLine(item, pattern), pattern)
  {
    var f := FilledLine(item, pattern);
    FilledAmounts(item, pattern);
    RoundIsNearest(PreDiscount(item, pattern));
    RoundIsNearest(AfterDiscount(item, pattern));
    RoundIsNearest(Vat(f, pattern));
    hide FilledLine, PreDiscount, AfterDiscount, Vat, LineTotal, Round;
    assert !Off(f.tsstam, LineTotal(f, pattern) as real);
  }

  lemma FilledLineEquations(item: Line, index: nat, pattern: int)
    ensures forall v | v in LineViolations(FilledLine(item, pattern), index, pattern) :: v.rule !in EQUATIONS
    ensures LineViolations(FilledLine(item, pattern), index, pattern) == [] <==> InDomain(item, pattern)
  {
    hide FilledLine, PreDiscount, AfterDiscount, LineViolations, EquationsHold, Round;
    FilledAmounts(item, pattern);
    FilledEquationsHold(item, pattern);
    OnlySignsRemain(FilledLine(item, pattern), index, pattern);
    RoundSign(PreDiscount(item, pattern));
    RoundSign(AfterDiscount(item, pattern));
  }

  lemma {:induction false} FilledBodyEquations(body: seq<Line>, pattern: int)
    ensures forall v | v in BodyViolations(FilledBody(body, pattern), pattern) :: v.rule !in EQUATIONS
    ensures BodyViolations(FilledBody(body, pattern), pattern) == []
       <==> forall i | 0 <= i < |body| :: InDomain(body[i], pattern)
  {
    if body != [] {
      hide *;
      var m := |body| - 1;
      var filled := FilledBody(body, pattern);
      FilledSplits(body, pattern);
      FilledBodyEquations(body[..m], pattern);
      FilledLineEquations(body[m], m, pattern);
      ViolationsSplit(filled, pattern);
      assert forall i | 0 <= i < m :: body[..m][i] == body[i];
    }
  }

  lemma FilledSplits(body: seq<Line>, pattern: int)
    requires body != []
    ensures var m := |body| - 1;
      && |FilledBody(body, pattern)| == |body|
      && FilledBody(body, pattern)[..m] == FilledBody(body[..m], pattern)
      && FilledBody(body, pattern)[m] == FilledLine(body[m], pattern)
  {
    hide FilledLine;
  }

  lemma ViolationsSplit(body: seq<Line>, pattern: int)
    requires body != []
    ensures var front, last := BodyViolations(body[..|body| - 1], pattern),
        LineViolations(body[|body| - 1], |body| - 1, pattern);
      && (BodyViolations(body, pattern) == [] <==> front == [] && last == [])
      && forall v :: v in BodyViolations(body, pattern) <==> v in front || v in last
  {
    hide LineViolations;
  }

  lemma {:induction false} PositivePrdisSum(body: seq<Line>)
    requires forall i | 0 <= i < |body| :: N(body[i].prdis) > 0
    ensures Sum(body, Prdis) >= |body|
  {
    if body != [] {
      PositivePrdisSum(body[..|body| - 1]);
    }
  }

  lemma FilledTotals(inv: Invoice, pattern: int)
    ensures TotalViolations(Recomputed(inv, pattern))
         == When(Sum(FilledBody(inv.body, pattern), Prdis) <= 0, TprdisPositive, None)
  {
  }

  /** After filling in, whatever the invoice and the pattern, no equation is violated; the
      complaints that remain about lines and totals are the domain conditions, and there are
      none exactly when the body is not empty and every line is in its domain. */
  lemma RecomputedMeetsEquations(inv: Invoice, pattern: int)
    ensures var r := Recomputed(inv, pattern);
      && (forall v | v in Violations(r, pattern) :: v.rule !in EQUATIONS)
      && (BodyViolations(r.body, pattern) == [] && TotalViolations(r) == []
          <==> inv.body != [] && forall i | 0 <= i < |inv.body| :: InDomain(inv.body[i], pattern))
  {
    hide InDomain, FilledLine;
    var filled := FilledBody(inv.body, pattern);
    FilledBodyEquations(inv.body, pattern);
    FilledTotals(inv, pattern);
    if inv.body != [] && forall i | 0 <= i < |inv.body| :: InDomain(inv.body[i], pattern) {
      forall i | 0 <= i < |filled|
        ensures N(filled[i].prdis) > 0
      {
        DomainPositive(inv.body[i], pattern);
      }
      PositivePrdisSum(filled);
    }
    SettlementRules(Recomputed(inv, pattern).header);
  }

  lemma DomainPositive(item: Line, pattern: int)
    requires InDomain(item, pattern)
    ensures N(FilledLine(item, pattern).prdis) > 0
  {
    FilledAmounts(item, pattern);
    RoundSign(PreDiscount(item, pattern));
  }

  lemma SettlementRules(h: Header)
    ensures forall v | v in SettlementViolations(h) :: v.rule !in EQUATIONS
  {
  }

  // ---- Filling in twice ------------------------------------------------------------------------

  lemma FilledLineTwice(item: Line, pattern: int)
    ensures FilledLine(FilledLine(item, pattern), pattern) == FilledLine(item, pattern)
  {
    hide PreDiscount, AfterDiscount, Vat, Round;
    var f := FilledLine(item, pattern);
    FilledAmounts(item, pattern);
    var a := f.(prdis := Some(Round(PreDiscount(f, pattern))));
    FormulasReadInputs(a, f, pattern);
    assert a == f;
  }

  /** Filling in is idempotent. */
  lemma RecomputeTwice(inv: Invoice, pattern: int)
    ensures Recomputed(Recomputed(inv, pattern), pattern) == Recomputed(inv, pattern)
  {
    hide FilledLine;
    var once := FilledBody(inv.body, pattern);
    forall i | 0 <= i < |once|
      ensures FilledLine(once[i], pattern) == once[i]
    {
      FilledLineTwice(inv.body[i], pattern);
    }
    assert FilledBody(once, pattern) == once;
  }

  // ---- Rounding conserves totals -----------------------------------------------------------------

  /** What is taken off a line between its two roundings. */
  function TakenOff(item: Line, pattern: int): int
  {
    if pattern == 3 then N(item.dis) - N(item.tcpbs) else N(item.dis)
  }

  /** The lines on which the two roundings disagree: half a rial before an odd deduction. */
  predicate Tips(item: Line, pattern: int)
  {
    IsHalf(PreDiscount(item, pattern)) && TakenOff(item, pattern) % 2 != 0
  }

  /** On a filled line the discounted amount is the rounded amount less the deduction, but for
      one rial on exactly the lines that tip. */
  lemma LineRounding(item: Line, pattern: int)
    ensures var f := FilledLine(item, pattern);
      && -1 <= N(f.adis) - (N(f.prdis) - TakenOff(item, pattern)) <= 1
      && (N(f.adis) == N(f.prdis) - TakenOff(item, pattern) <==> !Tips(item, pattern))
  {
    FilledAmounts(item, pattern);
    RoundShift(PreDiscount(item, pattern), TakenOff(item, pattern));
    assert AfterDiscount(item, pattern) == PreDiscount(item, pattern) - TakenOff(item, pattern) as real;
  }

  function TippingLines(body: seq<Line>, pattern: int): nat
  {
    if body == [] then 0
    else TippingLines(body[..|body| - 1], pattern) + if Tips(body[|body| - 1], pattern) then 1 else 0
  }

  lemma {:induction false} BodyRounding(body: seq<Line>, pattern: int)
    requires pattern != 3
    ensures var filled := FilledBody(body, pattern);
      var gap := Sum(filled, Adis) - (Sum(filled, Prdis) - Sum(filled, Dis));
      -(TippingLines(body, pattern) as int) <= gap <= TippingLines(body, pattern)
  {
    if body != [] {
      hide FilledLine, Tips;
      var m := |body| - 1;
      assert FilledBody(body, pattern)[..m] == FilledBody(body[..m], pattern);
      BodyRounding(body[..m], pattern);
      LineRounding(body[m], pattern);
      assert FilledLine(body[m], pattern).dis == body[m].dis by { FilledAmounts(body[m], pattern); }
    }
  }

  lemma {:induction false} BodyBalances(body: seq<Line>, pattern: int)
    requires pattern != 7
    requires forall i | 0 <= i < |body| :: N(body[i].tsstam) == LineTotal(body[i], pattern)
    ensures Sum(body, Tsstam) == Sum(body, Adis) + Sum(body, Vam) + Sum(body, Odam) + Sum(body, Olam)
  {
    if body != [] {
      BodyBalances(body[..|body| - 1], pattern);
    }
  }

  /** Outside exports a filled-in bill balances to the rial; outside gold, the discounted total
      misses the plain difference by at most one rial for each line that tips. */
  lemma RecomputedBalances(inv: Invoice, pattern: int)
    ensures var h := Recomputed(inv, pattern).header;
      && (pattern != 7 ==> N(h.tbill) == N(h.tadis) + N(h.tvam) + N(h.todam))
      && (pattern != 3 ==>
            -(TippingLines(inv.body, pattern) as int)
            <= N(h.tadis) - (N(h.tprdis) - N(h.tdis))
            <= TippingLines(inv.body, pattern))
  {
    hide FilledLine;
    var filled := FilledBody(inv.body, pattern);
    if pattern != 7 {
      forall i | 0 <= i < |filled|
        ensures N(filled[i].tsstam) == LineTotal(filled[i], pattern)
      {
        FilledAmounts(inv.body[i], pattern);
      }
      BodyBalances(filled, pattern);
    }
    if pattern != 3 {
      BodyRounding(inv.body, pattern);
    }
  }

  // ---- Accepted invoices balance up to the tolerance -------------------------------------------------

  predicate Accepted(inv: Invoice, pattern: int)
  {
    Violations(inv, pattern) == []
  }

  /** A settlement that can be split: both parts positive and below the bill, together what is
      due before taxes up to a rial. */
  predicate Settles(h: Header, due: int)
  {
    || h.setm.None? || h.setm.value in {1, 2}
    || (h.setm == Some(3) && h.cap.Some? && h.insp.Some?
        && 0 < h.cap.value < N(h.tbill) && 0 < h.insp.value < N(h.tbill)
        && -1 <= h.cap.value + h.insp.value - due <= 1)
  }

  lemma SettlesIff(h: Header)
    ensures SettlementViolations(h) == [] <==> Settles(h, N(h.tbill) - N(h.todam) - N(h.tvam))
  {
  }

  /** A filled-in bill is accepted exactly when it has lines, all in their domain, and its
      settlement fits what is due before taxes, which outside exports is the discounted total. */
  lemma RecomputedAcceptedIff(inv: Invoice, pattern: int)
    ensures var h := Recomputed(inv, pattern).header;
      Accepted(Recomputed(inv, pattern), pattern) <==>
        && inv.body != [] && (forall i | 0 <= i < |inv.body| :: InDomain(inv.body[i], pattern))
        && Settles(h, if pattern == 7 then N(h.tbill) - N(h.todam) - N(h.tvam) else N(h.tadis))
  {
    hide InDomain, FilledLine, Settles, Recomputed, BodyViolations, TotalViolations, SettlementViolations;
    var r := Recomputed(inv, pattern);
    RecomputedMeetsEquations(inv, pattern);
    RecomputedBalances(inv, pattern);
    SettlesIff(r.header);
    NothingInParts(BodyViolations(r.body, pattern), TotalViolations(r), SettlementViolations(r.header));
  }

  lemma NothingInParts(a: seq<Violation>, b: seq<Violation>, c: seq<Violation>)
    ensures a + b + c == [] <==> a == [] && b == [] && c == []
  {
    assert |a + b + c| == |a| + |b| + |c|;
  }

  lemma {:induction false} AcceptedLines(body: seq<Line>, pattern: int)
    requires BodyViolations(body, pattern) == []
    ensures forall i | 0 <= i < |body| :: LineViolations(body[i], i, pattern) == []
  {
    hide *;
    if body != [] {
      var front := body[..|body| - 1];
      ViolationsSplit(body, pattern);
      AcceptedLines(front, pattern);
      assert forall i | 0 <= i < |front| :: body[i] == front[i];
    }
  }

  lemma LineSlack(item: Line, index: nat, pattern: int)
    requires LineViolations(item, index, pattern) == []
    ensures -1 <= N(item.tsstam) - LineTotal(item, pattern) <= 1
    ensures -2 <= N(item.adis) - (N(item.prdis) - TakenOff(item, pattern)) <= 2
  {
    assert !Off(item.prdis, PreDiscount(item, pattern)) && !Off(item.adis, AfterDiscount(item, pattern));
    assert !Off(item.tsstam, LineTotal(item, pattern) as real);
  }

  lemma SumSplits(body: seq<Line>)
    requires body != []
    ensures var front, last := body[..|body| - 1], body[|body| - 1];
      && Sum(body, Tsstam) == Sum(front, Tsstam) + N(last.tsstam) && Sum(body, Adis) == Sum(front, Adis) + N(last.adis)
      && Sum(body, Vam) == Sum(front, Vam) + N(last.vam) && Sum(body, Odam) == Sum(front, Odam) + N(last.odam)
      && Sum(body, Olam) == Sum(front, Olam) + N(last.olam) && Sum(body, Prdis) == Sum(front, Prdis) + N(last.prdis)
      && Sum(body, Dis) == Sum(front, Dis) + N(last.dis)
  {
    hide N;
  }

  lemma NothingSums()
    ensures forall c :: Sum([], c) == 0
  {
  }

  /** What a line adds to the two balances of a body. */
  lemma LineAdds(item: Line, pattern: int)
    ensures pattern != 7 ==> LineTotal(item, pattern) == N(item.adis) + N(item.vam) + N(item.odam) + N(item.olam)
    ensures pattern != 3 ==> TakenOff(item, pattern) == N(item.dis)
  {
    hide N;
  }

  lemma {:induction false} BodySlack(body: seq<Line>, pattern: int)
    requires forall i | 0 <= i < |body| :: LineViolations(body[i], i, pattern) == []
    ensures pattern != 7 ==>
      -|body| <= Sum(body, Tsstam) - (Sum(body, Adis) + Sum(body, Vam) + Sum(body, Odam) + Sum(body, Olam)) <= |body|
    ensures pattern != 3 ==>
      -2 * |body| <= Sum(body, Adis) - (Sum(body, Prdis) - Sum(body, Dis)) <= 2 * |body|
  {
    hide *;
    NothingSums();
    if body != [] {
      var m := |body| - 1;
      LineAdds(body[m], pattern);
      BodySlack(body[..m], pattern);
      LineSlack(body[m], m, pattern);
      SumSplits(body);
      assert forall i | 0 <= i < m :: body[..m][i] == body[i];
    }
  }

  lemma TotalSlack(inv: Invoice)
    requires TotalViolations(inv) == []
    ensures var h, b := inv.header, inv.body;
      && -1 <= N(h.tprdis) - Sum(b, Prdis) <= 1
      && -1 <= N(h.tdis) - Sum(b, Dis) <= 1
      && -1 <= N(h.tadis) - Sum(b, Adis) <= 1
      && -1 <= N(h.tvam) - Sum(b, Vam) <= 1
      && -1 <= N(h.tbill) - Sum(b, Tsstam) <= 1
      && -1 <= N(h.todam) - (Sum(b, Odam) + Sum(b, Olam)) <= 1
  {
    var h, b := inv.header, inv.body;
    hide Sum;
    assert !Off(h.tprdis, Sum(b, Prdis) as real) && !Off(h.tdis, Sum(b, Dis) as real);
    assert !Off(h.tadis, Sum(b, Adis) as real) && !Off(h.tvam, Sum(b, Vam) as real);
    assert !Off(h.tbill, Sum(b, Tsstam) as real) && !Off(h.todam, (Sum(b, Odam) + Sum(b, Olam)) as real);
  }

  lemma SplitSlack(h: Header)
    requires SettlementViolations(h) == [] && h.setm == Some(3)
    ensures -1 <= N(h.cap) - (N(h.tbill) - N(h.todam) - N(h.tvam) - N(h.insp)) <= 1
  {
    assert h.cap.Some? && h.insp.Some?;
    assert !Off(h.cap, (N(h.tbill) - N(h.todam) - N(h.tvam) - N(h.insp)) as real);
  }

  /** How far an accepted invoice of n lines can be out: the tolerance of a rial a comparison
      adds up, and no further. */
  lemma AcceptedBalances(inv: Invoice, pattern: int)
    requires Accepted(inv, pattern)
    ensures var h, n := inv.header, |inv.body|;
      && (pattern != 7 ==> -(n + 4) <= N(h.tbill) - (N(h.tadis) + N(h.tvam) + N(h.todam)) <= n + 4)
      && (pattern != 3 ==> -(2 * n + 3) <= N(h.tadis) - (N(h.tprdis) - N(h.tdis)) <= 2 * n + 3)
      && (pattern != 7 && h.setm == Some(3) ==> -(n + 5) <= N(h.cap) + N(h.insp) - N(h.tadis) <= n + 5)
  {
    hide LineViolations;
    AcceptedLines(inv.body, pattern);
    BodySlack(inv.body, pattern);
    TotalSlack(inv);
    if inv.header.setm == Some(3) {
      SplitSlack(inv.header);
    }
  }

  /** A line that is out by a rial where it may be. */
  const LOOSE_LINE := Line(
    Some(1.0), Some(10.0), None, None, Some(11), Some(0), Some(9), Some(0.0), Some(0), None, None, None, Some(10),
    None, None)

  function LooseBody(n: nat): (body: seq<Line>)
    ensures |body| == n && forall i | 0 <= i < n :: body[i] == LOOSE_LINE
  {
    seq(n, i => LOOSE_LINE)
  }

  lemma {:induction false} LooseSums(n: nat)
    ensures Sum(LooseBody(n), Prdis) == 11 * n && Sum(LooseBody(n), Dis) == 0
    ensures Sum(LooseBody(n), Adis) == 9 * n && Sum(LooseBody(n), Tsstam) == 10 * n
    ensures Sum(LooseBody(n), Vam) == 0 && Sum(LooseBody(n), Odam) == 0 && Sum(LooseBody(n), Olam) == 0
  {
    if n > 0 {
      assert LooseBody(n)[..n - 1] == LooseBody(n - 1);
      LooseSums(n - 1);
    }
  }

  lemma {:induction false} LooseBodyPasses(body: seq<Line>)
    requires forall i | 0 <= i < |body| :: body[i] == LOOSE_LINE
    ensures BodyViolations(body, 1) == []
  {
    if body != [] {
      LooseBodyPasses(body[..|body| - 1]);
    }
  }

  /** All three bounds are reached, for every number of lines. */
  lemma BoundsAreReached(n: nat)
    requires n >= 1
    ensures exists inv :: (
      && Accepted(inv, 1) && |inv.body| == n
      && N(inv.header.tbill) - (N(inv.header.tadis) + N(inv.header.tvam) + N(inv.header.todam)) == n + 4
      && N(inv.header.tadis) - (N(inv.header.tprdis) - N(inv.header.tdis)) == -(2 * n + 3)
      && inv.header.setm == Some(3) && N(inv.header.cap) + N(inv.header.insp) - N(inv.header.tadis) == n + 5)
  {
    LooseSums(n);
    LooseBodyPasses(LooseBody(n));
    var h := Header(Some(11 * n + 1), Some(-1), Some(9 * n - 1), Some(-1), Some(-1), Some(10 * n + 1),
                    Some(3), Some(10 * n), Some(4));
    var inv := Invoice(h, LooseBody(n));
    hide Sum;
    assert TotalViolations(inv) == [];
    assert SettlementViolations(h) == [];
    assert Accepted(inv, 1);
  }
}
