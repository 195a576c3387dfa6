/** How far the check digit protects the memory part of a tax id that is copied by hand: a slip of one
    decimal digit in it is a slip in the control text, and is caught.
 */
module Mistyping {
  import opened Results
  import opened Text
  import opened TaxId
  import V = Verhoeff

  lemma RenderTwo(serial: nat)
    requires 10 <= serial < 100
    ensures Render(serial, 10) == [DIGITS[serial / 10], DIGITS[serial % 10]]
  {
    RenderStep(serial, 10);
    RenderStep(serial / 10, 10);
    hide Render;
    assert serial / 10 % 10 == serial / 10;
  }

  /** Characters whose decimal forms differ in exactly one digit. */
  predicate OneDigitApart(x: char, y: char)
  {
    && x != y
    && (|| (V.IsAsciiDigit(x) && V.IsAsciiDigit(y))
        || ('A' <= x <= 'Z' && 'A' <= y <= 'Z'
            && (x as int / 10 == y as int / 10 || x as int % 10 == y as int % 10)))
  }

  lemma {:induction false} DecimaliseSplit(a: string, b: string)
    ensures Decimalise(a + b) == Decimalise(a) + Decimalise(b)
  {
    if a == "" {
      assert a + b == b;
    } else {
      assert (a + b)[1..] == a[1..] + b;
      DecimaliseSplit(a[1..], b);
    }
  }

  lemma DecimaliseOne(x: char)
    requires V.IsAsciiDigit(x) || 'A' <= x <= 'Z'
    ensures Decimalise([x])
         == if V.IsAsciiDigit(x) then [x] else [V.DigitChar(x as int / 10), V.DigitChar(x as int % 10)]
  {
    hide Render;
    assert [x][1..] == "" && Decimalise([x][1..]) == "";
    if V.IsAsciiDigit(x) {
      assert "0123456789"[x as int - '0' as int] == x;
    } else {
      RenderTwo(x as int);
      DigitsAreDigits(x as int / 10);
      DigitsAreDigits(x as int % 10);
    }
  }

  lemma DigitsAreDigits(d: V.Digit)
    ensures DIGITS[d] == V.DigitChar(d)
  {
    assert d in {0, 1, 2, 3, 4, 5, 6, 7, 8, 9};
  }

  lemma DecimaliseAround(memory: string, i: nat)
    requires i < |memory|
    ensures Decimalise(memory)
         == Decimalise(memory[..i]) + Decimalise([memory[i]]) + Decimalise(memory[i + 1..])
  {
    hide Decimalise;
    DecimaliseSplit(memory[..i], memory[i..]);
    DecimaliseSplit([memory[i]], memory[i + 1..]);
    SplitAt(memory, i);
  }

  lemma SplitAt(memory: string, i: nat)
    requires i < |memory|
    ensures memory == memory[..i] + memory[i..] && memory[i..] == [memory[i]] + memory[i + 1..]
  {
  }

  lemma ControlAround(memory: string, i: nat, ch: char, day: nat, serial: nat)
    returns (before: string, after: string)
    requires i < |memory|
    ensures Control(memory, day, serial) == before + Decimalise([memory[i]]) + after
    ensures Control(memory[i := ch], day, serial) == before + Decimalise([ch]) + after
  {
    hide Decimalise, Decimal;
    before := Decimalise(memory[..i]);
    after := Decimalise(memory[i + 1..]) + Decimal(day, 6) + Decimal(serial, 12);
    DecimaliseAround(memory, i);
    var slipped := memory[i := ch];
    DecimaliseAround(slipped, i);
    assert slipped[..i] == memory[..i] && slipped[i + 1..] == memory[i + 1..];
  }

  /** Replacing a memory character by one a single decimal digit away changes the check digit. */
  lemma MemorySlipChangesDigit(memory: string, i: nat, ch: char, day: nat, serial: nat)
    requires IsPlain(memory) && i < |memory| && OneDigitApart(memory[i], ch)
    ensures LastOf(memory, day, serial) != LastOf(memory[i := ch], day, serial)
  {
    hide Control, Decimalise, V.CheckDigitOf;
    var m, n := Decimalise([memory[i]]), Decimalise([ch]);
    DecimaliseOne(memory[i]);
    DecimaliseOne(ch);
    var before, after := ControlAround(memory, i, ch, day, serial);
    OneDigitDiffers(before, m, n, after);
    ControlIsNumber(memory, day, serial);
    ControlIsNumber(memory[i := ch], day, serial);
    V.CheckDigitsDiffer(Control(memory, day, serial), Control(memory[i := ch], day, serial));
  }

  lemma OneDigitDiffers(before: string, m: string, n: string, after: string)
    requires |m| == |n| && 1 <= |m| <= 2
    requires m != n && (|m| == 2 ==> m[0] == n[0] || m[1] == n[1])
    ensures var at := |before| + if m[0] != n[0] then 0 else 1;
      && at < |before + m + after|
      && (before + m + after)[at] != (before + n + after)[at]
      && before + n + after == (before + m + after)[at := (before + n + after)[at]]
  {
  }

  /** So a tax id with such a slip in its memory part is refused, whatever memory, day and
      serial it belongs to. */
  lemma MemorySlipRefused(memoryId: string, serial: int, issuedAt: real, i: nat, ch: char)
    requires GenerateTaxId(memoryId, serial, issuedAt).Ok?
    requires i < 6 && OneDigitApart(Upper(memoryId)[i], ch)
    ensures var id := GenerateTaxId(memoryId, serial, issuedAt).value;
      |id| == TAX_ID_LENGTH && SerialOf(id[i := ch]) == Err(WrongCheckDigit)
  {
    hide SerialOf, SerialOfNormal, Checked, LastOf, ReadHex, Value, Padded, GenerateTaxId;
    var id := GenerateTaxId(memoryId, serial, issuedAt).value;
    var memory, day := Upper(memoryId), Day(issuedAt);
    Shape(memoryId, serial, issuedAt);
    GeneratedFrom(memoryId, serial, issuedAt);
    GeneratedIsPlain(memoryId, serial, issuedAt);
    assert memory == id[..6];
    MemorySlipChangesDigit(memory, i, ch, day, serial);
    var slipped := id[i := ch];
    assert slipped[..6] == memory[i := ch] && slipped[6..11] == id[6..11] && slipped[11..21] == id[11..21];
    ReadHexOfHex(id[6..11]);
    ReadHexOfHex(id[11..21]);
    PlainIsNormal(slipped);
    ReadNormal(slipped, memory[i := ch], day, serial);
    CheckedWhen(memory[i := ch], day, serial, slipped[21]);
  }
}
