/** Numbers as text: fixed-width rendering, and the reading of base-16 integers. */
module Text {
  import opened Results

  const DIGITS := "0123456789ABCDEF"

  // ---- Rendering -------------------------------------------------------------------

  /** Digits of `n` in base `base`, most significant first; "0" for zero. */
  function Render(n: nat, base: nat): (s: string)
    requires 2 <= base <= 16
    ensures |s| >= 1
    ensures forall i | 0 <= i < |s| :: s[i] in DIGITS[..base]
  {
    assert DIGITS[n % base] in DIGITS[..base] by { assert DIGITS[..base][n % base] == DIGITS[n % base]; }
    QuotientSmaller(n, base);
    if n < base then [DIGITS[n % base]] else Render(n / base, base) + [DIGITS[n % base]]
  }

  function Zeros(w: nat): (s: string)
    ensures |s| == w && forall i | 0 <= i < w :: s[i] == '0'
  {
    seq(w, i => '0')
  }

  /** `Render`, padded on the left with zeros to at least `width` characters. */
  function Padded(n: nat, base: nat, width: nat): (s: string)
    requires 2 <= base <= 16
    ensures |s| >= width && |s| >= 1
    ensures forall i | 0 <= i < |s| :: s[i] in DIGITS[..base]
  {
    var digits := Render(n, base);
    assert DIGITS[..base][0] == '0';
    if |digits| < width then Zeros(width - |digits|) + digits else digits
  }

  function Power(base: nat, e: nat): nat
  {
    if e == 0 then 1 else base * Power(base, e - 1)
  }

  // ---- Values ----------------------------------------------------------------------

  predicate IsHex(ch: char)
  {
    '0' <= ch <= '9' || 'A' <= ch <= 'F'
  }

  function HexDigit(ch: char): (d: nat)
    requires IsHex(ch)
    ensures d < 16 && DIGITS[d] == ch
  {
    if ch <= '9' then ch as int - '0' as int else ch as int - 'A' as int + 10
  }

  predicate AllHex(s: string)
  {
    forall i | 0 <= i < |s| :: IsHex(s[i])
  }

  /** The number written by `s` in base `base`. */
  function Value(s: string, base: nat): nat
    requires AllHex(s)
  {
    if s == "" then 0 else Value(s[..|s| - 1], base) * base + HexDigit(s[|s| - 1])
  }

  lemma {:induction false} ValueOfZerosThen(w: nat, s: string, base: nat)
    requires AllHex(s)
    ensures AllHex(Zeros(w) + s) && Value(Zeros(w) + s, base) == Value(s, base)
  {
    if s == "" {
      if w > 0 {
        assert (Zeros(w) + s)[..w - 1] == Zeros(w - 1) + s;
        ValueOfZerosThen(w - 1, s, base);
      }
    } else {
      assert (Zeros(w) + s)[..w + |s| - 1] == Zeros(w) + s[..|s| - 1];
      ValueOfZerosThen(w, s[..|s| - 1], base);
    }
  }

  lemma ValueSnoc(s: string, d: nat, base: nat)
    requires AllHex(s) && d < 16
    ensures AllHex(s + [DIGITS[d]]) && Value(s + [DIGITS[d]], base) == Value(s, base) * base + d
  {
    assert IsHex(DIGITS[d]) && HexDigit(DIGITS[d]) == d by {
      assert d in {0, 1, 2, 3, 4, 5, 6, 7, 8, 9, 10, 11, 12, 13, 14, 15};
    }
    assert (s + [DIGITS[d]])[..|s|] == s;
  }

  lemma RenderStep(n: nat, base: nat)
    requires 2 <= base <= 16
    ensures n % base < base
    ensures Render(n, base) == (if n < base then "" else Render(n / base, base)) + [DIGITS[n % base]]
  {
  }

  lemma Recombine(n: nat, base: nat, quotient: nat)
    requires base > 0 && quotient == n / base
    ensures quotient * base + n % base == n
  {
  }

  /** The last digit of a number and what it is appended to. */
  lemma RenderParts(n: nat, base: nat) returns (front: nat, last: nat)
    requires 2 <= base <= 16
    ensures last < base && front * base + last == n && (if n < base then front == 0 else front < n)
    ensures Render(n, base) == (if n < base then "" else Render(front, base)) + [DIGITS[last]]
  {
    front, last := n / base, n % base;
    RenderStep(n, base);
    hide Render;
    Recombine(n, base, front);
    Small(n, base);
    QuotientSmaller(n, base);
  }

  lemma QuotientSmaller(n: nat, base: nat)
    requires base >= 2
    ensures n >= 1 ==> n / base < n
  {
  }

  lemma {:induction false} ValueOfRender(n: nat, base: nat)
    requires 2 <= base <= 16
    ensures AllHex(Render(n, base)) && Value(Render(n, base), base) == n
  {
    hide *;
    var front, last := RenderParts(n, base);
    ValueOfNothing(base);
    if n < base {
      ValueSnoc("", last, base);
    } else {
      ValueOfRender(front, base);
      ValueSnoc(Render(front, base), last, base);
    }
  }

  lemma Small(n: nat, base: nat)
    requires base > 0
    ensures n < base ==> n / base == 0
  {
  }

  lemma ValueOfNothing(base: nat)
    ensures AllHex("") && Value("", base) == 0
  {
  }

  /** Reading back what was rendered. */
  lemma ValueOfPadded(n: nat, base: nat, width: nat)
    requires 2 <= base <= 16
    ensures AllHex(Padded(n, base, width)) && Value(Padded(n, base, width), base) == n
  {
    ValueOfRender(n, base);
    var w := |Render(n, base)|;
    if w < width {
      ValueOfZerosThen(width - w, Render(n, base), base);
    }
  }

  /** A number below `base^width` needs no more than `width` digits. */
  lemma {:induction false} RenderFits(n: nat, base: nat, width: nat)
    requires 2 <= base <= 16 && width >= 1 && n < Power(base, width)
    ensures |Render(n, base)| <= width
  {
    hide *;
    RenderLength(n, base);
    if n >= base {
      assert Power(base, width) == base * Power(base, width - 1) && Power(base, 0) == 1 by {
        PowerStep(base, width);
      }
      QuotientBelow(n, base, Power(base, width - 1));
      QuotientPositive(n, base);
      RenderFits(n / base, base, width - 1);
    }
  }

  lemma PowerStep(base: nat, e: nat)
    requires e >= 1
    ensures Power(base, e) == base * Power(base, e - 1) && Power(base, 0) == 1
  {
  }

  lemma RenderLength(n: nat, base: nat)
    requires 2 <= base <= 16
    ensures |Render(n, base)| == if n < base then 1 else |Render(n / base, base)| + 1
  {
  }

  lemma QuotientPositive(n: nat, base: nat)
    requires 0 < base <= n
    ensures n / base >= 1
  {
  }

  lemma QuotientBelow(n: nat, base: nat, bound: nat)
    requires base > 0 && n < base * bound
    ensures n / base < bound
  {
    Recombine(n, base, n / base);
    if n / base >= bound {
      TimesMonotone(base, bound, n / base);
    }
  }

  lemma TimesMonotone(k: nat, a: nat, b: nat)
    requires a <= b
    ensures k * a <= k * b
  {
  }

  lemma PaddedExactly(n: nat, base: nat, width: nat)
    requires 2 <= base <= 16 && width >= 1 && n < Power(base, width)
    ensures |Padded(n, base, width)| == width
  {
    RenderFits(n, base, width);
  }

  lemma {:induction false} ValueBelow(s: string)
    requires AllHex(s)
    ensures Value(s, 16) < Power(16, |s|)
  {
    if s != "" {
      ValueBelow(s[..|s| - 1]);
    }
  }

  /** Two texts of one length that write the same number are the same text. */
  lemma {:induction false} ValueInjective(s: string, t: string)
    requires AllHex(s) && AllHex(t) && |s| == |t| && Value(s, 16) == Value(t, 16)
    ensures s == t
  {
    if s != "" {
      var m := |s| - 1;
      SameDivision(Value(s[..m], 16), HexDigit(s[m]), Value(t[..m], 16), HexDigit(t[m]));
      ValueInjective(s[..m], t[..m]);
      assert s == s[..m] + [s[m]] && t == t[..m] + [t[m]];
    }
  }

  lemma SameDivision(q: nat, d: nat, q': nat, d': nat)
    requires d < 16 && d' < 16 && q * 16 + d == q' * 16 + d'
    ensures q == q' && d == d'
  {
  }

  /** Rendering what was read: a hex text of the given width is its own rendering. */
  lemma PaddedOfValue(s: string)
    requires AllHex(s) && s != ""
    ensures Padded(Value(s, 16), 16, |s|) == s
  {
    ValueBelow(s);
    PaddedExactly(Value(s, 16), 16, |s|);
    ValueOfPadded(Value(s, 16), 16, |s|);
    ValueInjective(Padded(Value(s, 16), 16, |s|), s);
  }

  // ---- Normalising typed text --------------------------------------------------------

  function UpperChar(ch: char): char
  {
    if 'a' <= ch <= 'z' then (ch as int - 'a' as int + 'A' as int) as char else ch
  }

  function Upper(s: string): (u: string)
    ensures |u| == |s|
    ensures forall i | 0 <= i < |s| :: u[i] == UpperChar(s[i])
  {
    seq(|s|, i requires 0 <= i < |s| => UpperChar(s[i]))
  }

  predicate IsSpace(ch: char)
  {
    ch == ' ' || '\t' <= ch <= '\r' || '\U{1c}' <= ch <= '\U{1f}'
  }

  function StripLeft(s: string): (t: string)
    ensures |t| <= |s|
  {
    if s != "" && IsSpace(s[0]) then StripLeft(s[1..]) else s
  }

  function StripRight(s: string): (t: string)
    ensures |t| <= |s|
  {
    if s != "" && IsSpace(s[|s| - 1]) then StripRight(s[..|s| - 1]) else s
  }

  function Strip(s: string): string
  {
    StripRight(StripLeft(s))
  }

  // ---- Reading a base-16 integer -----------------------------------------------------

  /** Digits with single underscores allowed between them. */
  function HexDigits(s: string): Option<string>
  {
    if s == "" then None
    else if !IsHex(UpperChar(s[|s| - 1])) then None
    else
      var front := s[..|s| - 1];
      if front == "" then Some([UpperChar(s[0])])
      else
        var rest := if front[|front| - 1] == '_' then front[..|front| - 1] else front;
        match HexDigits(rest)
        case None => None
        case Some(digits) => Some(digits + [UpperChar(s[|s| - 1])])
  }

  lemma {:induction false} HexDigitsShape(s: string)
    ensures HexDigits(s).Some? ==> AllHex(HexDigits(s).value) && |HexDigits(s).value| <= |s|
  {
    if s != "" && IsHex(UpperChar(s[|s| - 1])) && |s| > 1 {
      var front := s[..|s| - 1];
      HexDigitsShape(if front[|front| - 1] == '_' then front[..|front| - 1] else front);
    }
  }

  function DropPrefix(s: string): (t: string)
    ensures |t| <= |s|
  {
    if |s| >= 2 && s[0] == '0' && UpperChar(s[1]) == 'X' then
      if |s| >= 3 && s[2] == '_' then s[3..] else s[2..]
    else s
  }

  /** Python's `int(s, 16)` on ASCII text: surrounding space, a sign, a 0x prefix and single
      underscores between digits are all accepted. */
  function ReadHex(s: string): Option<int>
  {
    var t := Strip(s);
    var negative := t != "" && t[0] == '-';
    var u := if negative || (t != "" && t[0] == '+') then t[1..] else t;
    match HexDigits(DropPrefix(u))
    case None => None
    case Some(digits) =>
      HexDigitsShape(DropPrefix(u));
      Some(if negative then -(Value(digits, 16) as int) else Value(digits, 16))
  }

  lemma {:induction false} HexDigitsOfHex(s: string)
    requires AllHex(s) && s != ""
    ensures HexDigits(s) == Some(s)
  {
    var front := s[..|s| - 1];
    assert IsHex(s[|s| - 1]) && UpperChar(s[|s| - 1]) == s[|s| - 1];
    assert s == front + [s[|s| - 1]];
    if front != "" {
      assert front[|front| - 1] == s[|s| - 2] && IsHex(s[|s| - 2]);
      HexDigitsOfHex(front);
    }
  }

  /** A plain hex text reads as its value. */
  lemma ReadHexOfHex(s: string)
    requires AllHex(s) && s != ""
    ensures ReadHex(s) == Some(Value(s, 16))
  {
    assert IsHex(s[0]) && IsHex(s[|s| - 1]);
    assert Strip(s) == s;
    assert DropPrefix(s) == s by { if |s| >= 2 { assert IsHex(s[1]); } }
    HexDigitsOfHex(s);
  }

  lemma {:induction false} PowerPositive(base: nat, e: nat)
    requires base >= 1
    ensures Power(base, e) >= 1
  {
    if e > 0 {
      hide Power;
      PowerStep(base, e);
      PowerPositive(base, e - 1);
      TimesMonotone(base, 1, Power(base, e - 1));
    } else {
      assert Power(base, 0) == 1;
    }
  }

  lemma {:induction false} PowerMonotone(base: nat, e: nat, f: nat)
    requires base >= 1 && e <= f
    ensures 1 <= Power(base, e) <= Power(base, f)
  {
    hide Power;
    PowerPositive(base, e);
    if e < f {
      PowerMonotone(base, e, f - 1);
      PowerStep(base, f);
      TimesAtLeast(base, Power(base, f - 1));
    }
  }

  lemma TimesAtLeast(a: nat, b: nat)
    requires a >= 1
    ensures a * b >= b
  {
    assert a * b == b + (a - 1) * b;
  }

  /** Nothing of `n` characters reads as a number of more than `n` hex digits. */
  lemma ReadHexBelow(s: string)
    requires ReadHex(s).Some?
    ensures ReadHex(s).value < Power(16, |s|)
  {
    var t := Strip(s);
    var u := if t != "" && (t[0] == '-' || t[0] == '+') then t[1..] else t;
    HexDigitsShape(DropPrefix(u));
    var digits := HexDigits(DropPrefix(u)).value;
    ValueBelow(digits);
    PowerMonotone(16, |digits|, |s|);
  }
}
