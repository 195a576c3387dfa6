/** The Verhoeff check digit: the last character of a tax id.

    The scheme multiplies permuted digits in the dihedral group D5.  The tables are the
    program's own; everything it promises about mistyped digits is derived from the group
    laws and from the permutation table being the powers of one permutation.
 */
module Verhoeff {
  import opened Results

  type Digit = d: int | 0 <= d < 10

  datatype NumberError = EmptyNumber | NotADigit(found: char)

  /** Multiplication table of D5. */
  const D: seq<seq<int>> := [
    [0, 1, 2, 3, 4, 5, 6, 7, 8, 9],
    [1, 2, 3, 4, 0, 6, 7, 8, 9, 5],
    [2, 3, 4, 0, 1, 7, 8, 9, 5, 6],
    [3, 4, 0, 1, 2, 8, 9, 5, 6, 7],
    [4, 0, 1, 2, 3, 9, 5, 6, 7, 8],
    [5, 9, 8, 7, 6, 0, 4, 3, 2, 1],
    [6, 5, 9, 8, 7, 1, 0, 4, 3, 2],
    [7, 6, 5, 9, 8, 2, 1, 0, 4, 3],
    [8, 7, 6, 5, 9, 3, 2, 1, 0, 4],
    [9, 8, 7, 6, 5, 4, 3, 2, 1, 0]]

  /** Permutation table; the row is the position modulo 8. */
  const P: seq<seq<int>> := [
    [0, 1, 2, 3, 4, 5, 6, 7, 8, 9],
    [1, 5, 7, 6, 2, 8, 3, 0, 9, 4],
    [5, 8, 0, 3, 7, 9, 6, 1, 4, 2],
    [8, 9, 1, 6, 0, 4, 3, 5, 2, 7],
    [9, 4, 5, 3, 1, 2, 6, 8, 7, 0],
    [4, 2, 8, 6, 5, 7, 3, 9, 0, 1],
    [2, 7, 9, 3, 8, 0, 6, 4, 1, 5],
    [7, 0, 4, 6, 9, 1, 3, 2, 5, 8]]

  /** Inverses in D5. */
  const INV: seq<int> := [0, 4, 3, 2, 1, 5, 6, 7, 8, 9]

  // ---- The group ----------------------------------------------------------------

  /** The residue modulo 5 of the sum or difference of two rotations. */
  function Turn(n: int): (r: int)
    requires -5 < n < 10
    ensures 0 <= r < 5
    ensures r == n || r == n - 5 || r == n + 5
  {
    if n < 0 then n + 5 else if n < 5 then n else n - 5
  }

  /** The product of two elements of D5 written as rotations 0..4 and reflections 5..9. */
  function Product(a: Digit, b: Digit): Digit
  {
    if a < 5 then
      if b < 5 then Turn(a + b) else 5 + Turn(a + b - 5)
    else
      if b < 5 then 5 + Turn(a - 5 - b) else Turn(a - b)
  }

  lemma TableIsDihedral(a: Digit, b: Digit)
    ensures |D| == 10 && |D[a]| == 10
    ensures D[a][b] == Product(a, b)
  {
    assert a in {0, 1, 2, 3, 4, 5, 6, 7, 8, 9};
    assert b in {0, 1, 2, 3, 4, 5, 6, 7, 8, 9};
  }

  lemma Associative(a: Digit, b: Digit, c: Digit)
    ensures Product(Product(a, b), c) == Product(a, Product(b, c))
  {
  }

  lemma InverseLaw(a: Digit)
    ensures |INV| == 10 && 0 <= INV[a] < 10
    ensures Product(a, INV[a]) == 0 && Product(INV[a], a) == 0
  {
  }

  lemma CancelLeft(a: Digit, x: Digit, y: Digit)
    requires Product(a, x) == Product(a, y)
    ensures x == y
  {
    InverseLaw(a);
    Associative(INV[a], a, x);
    Associative(INV[a], a, y);
  }

  lemma CancelRight(a: Digit, x: Digit, y: Digit)
    requires Product(x, a) == Product(y, a)
    ensures x == y
  {
    InverseLaw(a);
    Associative(x, a, INV[a]);
    Associative(y, a, INV[a]);
  }

  lemma CancelBoth(a: Digit, x: Digit, y: Digit, b: Digit)
    requires Product(Product(a, x), b) == Product(Product(a, y), b)
    ensures x == y
  {
    CancelRight(b, Product(a, x), Product(a, y));
    CancelLeft(a, x, y);
  }

  // ---- The permutations ------------------------------------------------------------

  /** The digit `d` as it enters the product at position `i`, counted from the right. */
  function Permuted(i: nat, d: Digit): (r: Digit)
  {
    var row := i % 8;
    assert row in {0, 1, 2, 3, 4, 5, 6, 7};
    assert d in {0, 1, 2, 3, 4, 5, 6, 7, 8, 9};
    P[row][d]
  }

  /** Each row is the previous one followed by the permutation of row 1, with period 8. */
  lemma PermutedStep(i: nat, d: Digit)
    ensures Permuted(i + 1, d) == Permuted(1, Permuted(i, d))
  {
    assert i % 8 in {0, 1, 2, 3, 4, 5, 6, 7};
    assert d in {0, 1, 2, 3, 4, 5, 6, 7, 8, 9};
    assert (i + 1) % 8 == if i % 8 == 7 then 0 else i % 8 + 1;
  }

  lemma PermutedInjective(i: nat, x: Digit, y: Digit)
    requires Permuted(i, x) == Permuted(i, y)
    ensures x == y
  {
    assert i % 8 in {0, 1, 2, 3, 4, 5, 6, 7};
    assert x in {0, 1, 2, 3, 4, 5, 6, 7, 8, 9};
    assert y in {0, 1, 2, 3, 4, 5, 6, 7, 8, 9};
  }

  /** Row 1 is anti-symmetric for the product: the property that catches swapped digits. */
  lemma AntiSymmetric(x: Digit, y: Digit)
    requires x != y
    ensures Product(x, Permuted(1, y)) != Product(y, Permuted(1, x))
  {
    assert x in {0, 1, 2, 3, 4, 5, 6, 7, 8, 9};
    assert y in {0, 1, 2, 3, 4, 5, 6, 7, 8, 9};
  }

  // ---- Checksums ------------------------------------------------------------------

  /** The product of the permuted digits of `ds`, whose first digit stands at position `k`. */
  function Checksum(ds: seq<Digit>, k: nat): Digit
  {
    if ds == [] then 0
    else Product(Checksum(ds[..|ds| - 1], k), Permuted(k + |ds| - 1, ds[|ds| - 1]))
  }

  /** A number splits anywhere: its checksum is the product of the checksums of its parts. */
  lemma {:induction false} ChecksumSplit(a: seq<Digit>, b: seq<Digit>, k: nat)
    ensures Checksum(a + b, k) == Product(Checksum(a, k), Checksum(b, k + |a|))
  {
    if b == [] {
      assert a + b == a;
    } else {
      var front, last := b[..|b| - 1], b[|b| - 1];
      assert (a + b)[..|a + b| - 1] == a + front;
      ChecksumSplit(a, front, k);
      Associative(Checksum(a, k), Checksum(front, k + |a|), Permuted(k + |a| + |b| - 1, last));
    }
  }

  lemma ChecksumOfOne(d: Digit, k: nat)
    ensures Checksum([d], k) == Permuted(k, d)
  {
    assert [d][..0] == [];
  }

  lemma ChecksumAround(a: seq<Digit>, m: seq<Digit>, b: seq<Digit>, k: nat)
    ensures Checksum(a + m + b, k)
         == Product(Product(Checksum(a, k), Checksum(m, k + |a|)), Checksum(b, k + |a| + |m|))
  {
    hide Product, Checksum;
    ChecksumSplit(a + m, b, k);
    ChecksumSplit(a, m, k);
  }

  /** Parts of equal length that stand at the same place weigh the same only if equal. */
  lemma ChecksumCancel(a: seq<Digit>, m: seq<Digit>, n: seq<Digit>, b: seq<Digit>, k: nat)
    requires |m| == |n|
    requires Checksum(a + m + b, k) == Checksum(a + n + b, k)
    ensures Checksum(m, k + |a|) == Checksum(n, k + |a|)
  {
    hide Product, Checksum;
    ChecksumAround(a, m, b, k);
    ChecksumAround(a, n, b, k);
    CancelBoth(Checksum(a, k), Checksum(m, k + |a|), Checksum(n, k + |a|), Checksum(b, k + |a| + |m|));
  }

  lemma PairOfDigits(x: Digit, y: Digit, k: nat)
    ensures Checksum([x, y], k) == Product(Permuted(k, x), Permuted(1, Permuted(k, y)))
  {
    assert [x, y] == [x] + [y];
    ChecksumSplit([x], [y], k);
    ChecksumOfOne(x, k);
    ChecksumOfOne(y, k + 1);
    PermutedStep(k, y);
  }

  lemma SwappedPairDiffers(x: Digit, y: Digit, k: nat)
    requires x != y
    ensures Checksum([x, y], k) != Checksum([y, x], k)
  {
    PairOfDigits(x, y, k);
    PairOfDigits(y, x, k);
    if Permuted(k, x) == Permuted(k, y) {
      PermutedInjective(k, x, y);
    }
    AntiSymmetric(Permuted(k, x), Permuted(k, y));
  }

  lemma DigitChangeCaught(a: seq<Digit>, x: Digit, y: Digit, b: seq<Digit>, k: nat)
    requires x != y
    ensures Checksum(a + [x] + b, k) != Checksum(a + [y] + b, k)
  {
    hide Product, Checksum;
    if Checksum(a + [x] + b, k) == Checksum(a + [y] + b, k) {
      ChecksumCancel(a, [x], [y], b, k);
      ChecksumOfOne(x, k + |a|);
      ChecksumOfOne(y, k + |a|);
      PermutedInjective(k + |a|, x, y);
    }
  }

  lemma AdjacentSwapCaught(a: seq<Digit>, x: Digit, y: Digit, b: seq<Digit>, k: nat)
    requires x != y
    ensures Checksum(a + [x, y] + b, k) != Checksum(a + [y, x] + b, k)
  {
    hide Product, Checksum;
    if Checksum(a + [x, y] + b, k) == Checksum(a + [y, x] + b, k) {
      ChecksumCancel(a, [x, y], [y, x], b, k);
      SwappedPairDiffers(x, y, k + |a|);
    }
  }

  // ---- Numbers as text -------------------------------------------------------------

  predicate IsAsciiDigit(ch: char)
  {
    '0' <= ch <= '9'
  }

  function DigitOf(ch: char): Digit
    requires IsAsciiDigit(ch)
  {
    ch as int - '0' as int
  }

  function DigitChar(d: Digit): (ch: char)
    ensures IsAsciiDigit(ch) && DigitOf(ch) == d
  {
    (d + '0' as int) as char
  }

  predicate AllDigits(number: string)
  {
    forall i | 0 <= i < |number| :: IsAsciiDigit(number[i])
  }

  /** Least significant digit first. */
  function ReversedDigits(number: string): (ds: seq<Digit>)
    requires AllDigits(number)
    ensures |ds| == |number|
  {
    seq(|number|, i requires 0 <= i < |number| => DigitOf(number[|number| - 1 - i]))
  }

  /** The first character that is not an ASCII digit, from the left. */
  function FirstBad(number: string): (bad: Option<char>)
    ensures bad.None? <==> AllDigits(number)
  {
    if number == "" then None
    else if !IsAsciiDigit(number[0]) then Some(number[0])
    else
      assert forall i | 1 <= i < |number| :: number[i] == number[1..][i - 1];
      FirstBad(number[1..])
  }

  /** What a text that is not a number is refused with. */
  function NumberFault(number: string): Option<NumberError>
  {
    if number == "" then Some(EmptyNumber)
    else
      match FirstBad(number)
      case Some(ch) => Some(NotADigit(ch))
      case None => None
  }

  /** The check digit of a number. */
  function CheckDigitOf(number: string): Result<Digit, NumberError>
  {
    match NumberFault(number)
    case Some(fault) => Err(fault)
    case None =>
      InverseLaw(Checksum(ReversedDigits(number), 1));
      Ok(INV[Checksum(ReversedDigits(number), 1)])
  }

  /** Whether the last digit of a number is right. */
  function Accepts(number: string): Result<bool, NumberError>
  {
    match NumberFault(number)
    case Some(fault) => Err(fault)
    case None => Ok(Checksum(ReversedDigits(number), 0) == 0)
  }

  method CheckDigit(number: string) returns (r: Result<char, NumberError>)
    ensures r == match CheckDigitOf(number)
                 case Ok(d) => Ok(DigitChar(d))
                 case Err(fault) => Err(fault)
  {
    var fault := NumberFault(number);
    if fault.Some? {
      return Err(fault.value);
    }
    var digits := ReversedDigits(number);
    var c: Digit := 0;
    for i := 0 to |digits|
      invariant c == Checksum(digits[..i], 1)
    {
      assert digits[..i + 1][..i] == digits[..i];
      TableIsDihedral(c, Permuted(i + 1, digits[i]));
      c := D[c][Permuted(i + 1, digits[i])];
    }
    assert digits[..|digits|] == digits;
    InverseLaw(c);
    return Ok(DigitChar(INV[c]));
  }

  method Validate(number: string) returns (r: Result<bool, NumberError>)
    ensures r == Accepts(number)
  {
    var fault := NumberFault(number);
    if fault.Some? {
      return Err(fault.value);
    }
    var digits := ReversedDigits(number);
    var c: Digit := 0;
    for i := 0 to |digits|
      invariant c == Checksum(digits[..i], 0)
    {
      assert digits[..i + 1][..i] == digits[..i];
      TableIsDihedral(c, Permuted(i, digits[i]));
      c := D[c][Permuted(i, digits[i])];
    }
    assert digits[..|digits|] == digits;
    return Ok(c == 0);
  }

  // ---- What the check digit promises -------------------------------------------------

  /** Exactly one trailing digit validates, and it is the computed one. */
  lemma OnlyTheCheckDigitValidates(number: string, d: Digit)
    requires number != "" && AllDigits(number)
    ensures Accepts(number + [DigitChar(d)]) == Ok(CheckDigitOf(number) == Ok(d))
  {
    hide Checksum, Product;
    var full := number + [DigitChar(d)];
    var c := Checksum(ReversedDigits(number), 1);
    assert ReversedDigits(full) == [d] + ReversedDigits(number);
    ChecksumSplit([d], ReversedDigits(number), 0);
    ChecksumOfOne(d, 0);
    PermutedFirst(d);
    OnlyInverse(d, c);
  }

  lemma PermutedFirst(d: Digit)
    ensures Permuted(0, d) == d
  {
    assert d in {0, 1, 2, 3, 4, 5, 6, 7, 8, 9};
  }

  lemma OnlyInverse(d: Digit, c: Digit)
    ensures |INV| == 10 && (Product(d, c) == 0 <==> INV[c] == d)
  {
    InverseLaw(c);
    hide Product;
    if Product(d, c) == 0 {
      CancelRight(c, d, INV[c]);
    }
  }

  lemma ReversedAround(number: string, i: nat, w: nat)
    requires AllDigits(number) && i + w <= |number|
    ensures ReversedDigits(number)
         == ReversedDigits(number[i + w..]) + ReversedDigits(number[i..i + w]) + ReversedDigits(number[..i])
  {
  }

  /** Changing one digit anywhere changes the checksum. */
  lemma ChangeAltersChecksum(number: string, i: nat, ch: char, k: nat)
    requires AllDigits(number) && i < |number| && IsAsciiDigit(ch) && ch != number[i]
    ensures AllDigits(number[i := ch])
    ensures Checksum(ReversedDigits(number[i := ch]), k) != Checksum(ReversedDigits(number), k)
  {
    var changed := number[i := ch];
    ReversedAround(number, i, 1);
    ReversedAround(changed, i, 1);
    assert changed[..i] == number[..i] && changed[i + 1..] == number[i + 1..];
    assert ReversedDigits(number[i..i + 1]) == [DigitOf(number[i])];
    assert ReversedDigits(changed[i..i + 1]) == [DigitOf(ch)];
    DigitChangeCaught(ReversedDigits(number[i + 1..]), DigitOf(number[i]), DigitOf(ch),
                      ReversedDigits(number[..i]), k);
  }

  /** Swapping two unequal neighbours changes the checksum. */
  lemma SwapAltersChecksum(number: string, i: nat, k: nat)
    requires AllDigits(number) && i + 1 < |number| && number[i] != number[i + 1]
    ensures AllDigits(Swapped(number, i))
    ensures Checksum(ReversedDigits(Swapped(number, i)), k) != Checksum(ReversedDigits(number), k)
  {
    var swapped := Swapped(number, i);
    ReversedAround(number, i, 2);
    ReversedAround(swapped, i, 2);
    assert swapped[..i] == number[..i] && swapped[i + 2..] == number[i + 2..];
    var x, y := DigitOf(number[i]), DigitOf(number[i + 1]);
    assert ReversedDigits(number[i..i + 2]) == [y, x];
    assert ReversedDigits(swapped[i..i + 2]) == [x, y];
    AdjacentSwapCaught(ReversedDigits(number[i + 2..]), x, y, ReversedDigits(number[..i]), k);
  }

  /** The number with the characters at `i` and `i + 1` exchanged. */
  function Swapped(number: string, i: nat): string
    requires i + 1 < |number|
  {
    number[i := number[i + 1]][i + 1 := number[i]]
  }

  /** Every single-digit change of a valid number is refused. */
  lemma SingleChangeRefused(number: string, i: nat, ch: char)
    requires Accepts(number) == Ok(true)
    requires i < |number| && IsAsciiDigit(ch) && ch != number[i]
    ensures Accepts(number[i := ch]) == Ok(false)
  {
    ChangeAltersChecksum(number, i, ch, 0);
  }

  /** Every swap of two unequal neighbours in a valid number is refused. */
  lemma AdjacentSwapRefused(number: string, i: nat)
    requires Accepts(number) == Ok(true)
    requires i + 1 < |number| && number[i] != number[i + 1]
    ensures Accepts(Swapped(number, i)) == Ok(false)
  {
    SwapAltersChecksum(number, i, 0);
  }

  /** Numbers that differ in one digit, or by one swap of unequal neighbours, have different
      check digits. */
  lemma CheckDigitsDiffer(number: string, other: string)
    requires number != "" && AllDigits(number)
    requires
      || (exists i, ch :: 0 <= i < |number| && IsAsciiDigit(ch) && ch != number[i] && other == number[i := ch])
      || (exists i :: 0 <= i < |number| - 1 && number[i] != number[i + 1] && other == Swapped(number, i))
    ensures CheckDigitOf(number).Ok? && CheckDigitOf(other).Ok?
    ensures CheckDigitOf(number) != CheckDigitOf(other)
  {
    if i, ch :| 0 <= i < |number| && IsAsciiDigit(ch) && ch != number[i] && other == number[i := ch] {
      ChangeAltersChecksum(number, i, ch, 1);
    } else {
      var i :| 0 <= i < |number| - 1 && number[i] != number[i + 1] && other == Swapped(number, i);
      SwapAltersChecksum(number, i, 1);
    }
    InversesDiffer(Checksum(ReversedDigits(number), 1), Checksum(ReversedDigits(other), 1));
  }

  lemma InversesDiffer(x: Digit, y: Digit)
    requires x != y
    ensures |INV| == 10 && INV[x] != INV[y]
  {
    InverseLaw(x);
    InverseLaw(y);
    if INV[x] == INV[y] {
      CancelLeft(INV[x], x, y);
    }
  }
}
