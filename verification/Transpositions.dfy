/** Which exchanges of two neighbouring characters of a tax id its check digit catches.

    The digit is computed over decimal control text, not over the characters of the id.  An
    exchange in the hex part rewrites several control digits at once and may cancel out.
 */
module Transpositions {
  import opened Results
  import opened Text
  import opened TaxId
  import V = Verhoeff
  import M = Mistyping

  // ---- Weights ------------------------------------------------------------------------------

  /** The checksum of a text whose last digit stands at position `k`. */
  function Weight(text: string, k: nat): V.Digit
    requires V.AllDigits(text)
  {
    V.Checksum(V.ReversedDigits(text), k)
  }

  lemma WeightJoin(a: string, b: string, k: nat)
    requires V.AllDigits(a) && V.AllDigits(b)
    ensures V.AllDigits(a + b) && Weight(a + b, k) == V.Product(Weight(b, k), Weight(a, k + |b|))
  {
    hide V.Checksum, V.Product;
    assert V.ReversedDigits(a + b) == V.ReversedDigits(b) + V.ReversedDigits(a);
    V.ChecksumSplit(V.ReversedDigits(b), V.ReversedDigits(a), k);
  }

  /** Numbers have the same check digit exactly when they weigh the same. */
  lemma SameDigitIff(x: string, y: string)
    requires x != "" && y != "" && V.AllDigits(x) && V.AllDigits(y)
    ensures V.CheckDigitOf(x).Ok? && V.CheckDigitOf(y).Ok?
    ensures V.CheckDigitOf(x) == V.CheckDigitOf(y) <==> Weight(x, 1) == Weight(y, 1)
  {
    hide V.Checksum, V.Product, V.ReversedDigits;
    if Weight(x, 1) != Weight(y, 1) {
      V.InversesDiffer(Weight(x, 1), Weight(y, 1));
    }
  }

  /** Exchanging a block for another of the same length leaves the weight exactly when the blocks
      weigh the same where they stand. */
  lemma BlockIff(before: string, m: string, n: string, after: string, k: nat)
    requires V.AllDigits(before) && V.AllDigits(m) && V.AllDigits(n) && V.AllDigits(after) && |m| == |n|
    ensures V.AllDigits(before + m + after) && V.AllDigits(before + n + after)
    ensures Weight(before + m + after, k) == Weight(before + n + after, k)
       <==> Weight(m, k + |after|) == Weight(n, k + |after|)
  {
    hide *;
    AllDigitsJoin(before, m, after);
    AllDigitsJoin(before, n, after);
    var a, x, y := Weight(after, k), Weight(m, k + |after|), Weight(n, k + |after|);
    var b := Weight(before, k + |after| + |m|);
    WeightAround(before, m, after, k);
    WeightAround(before, n, after, k);
    if Weight(before + m + after, k) == Weight(before + n + after, k) {
      V.CancelLeft(a, V.Product(x, b), V.Product(y, b));
      V.CancelRight(b, x, y);
    }
  }

  lemma AllDigitsJoin(before: string, m: string, after: string)
    requires V.AllDigits(before) && V.AllDigits(m) && V.AllDigits(after)
    ensures V.AllDigits(before + m) && V.AllDigits(before + m + after)
  {
  }

  lemma WeightAround(before: string, m: string, after: string, k: nat)
    requires V.AllDigits(before) && V.AllDigits(m) && V.AllDigits(after)
    requires V.AllDigits(before + m + after)
    ensures Weight(before + m + after, k)
         == V.Product(Weight(after, k), V.Product(Weight(m, k + |after|), Weight(before, k + |after| + |m|)))
  {
    hide *;
    AllDigitsJoin(before, m, after);
    WeightJoin(before + m, after, k);
    WeightJoin(before, m, k + |after|);
  }

  // ---- Reading an id whose digit was made for another -------------------------------------------

  /** The memories, days and serials an id can carry. */
  predicate Fits(memory: string, day: nat, serial: nat)
  {
    |memory| == 6 && IsPlain(memory) && day <= MAX_DAY && serial <= MAX_SERIAL
  }

  /** An id's text with any last character is read exactly when that is its check digit. */
  lemma ReadBody(memory: string, day: nat, serial: nat, last: char)
    requires Fits(memory, day, serial) && IsPlain([last])
    ensures SerialOf(Body(memory, day, serial) + [last])
         == if last == LastOf(memory, day, serial) then Ok((memory, serial)) else Err(WrongCheckDigit)
  {
    hide SerialOf, Control, ReadHex, Padded, Value, Checked, V.CheckDigitOf;
    var text := Body(memory, day, serial) + [last];
    Powers();
    PaddedExactly(day, 16, 5);
    PaddedExactly(serial, 16, 10);
    Segments(memory, Padded(day, 16, 5), Padded(serial, 16, 10), last);
    ValueOfPadded(day, 16, 5);
    ValueOfPadded(serial, 16, 10);
    ReadHexOfHex(text[6..11]);
    ReadHexOfHex(text[11..21]);
    BodyIsPlain(memory, day, serial, last);
    PlainIsNormal(text);
    ReadNormal(text, memory, day, serial);
    CheckedWhen(memory, day, serial, last);
  }

  lemma BodyIsPlain(memory: string, day: nat, serial: nat, last: char)
    requires Fits(memory, day, serial) && IsPlain([last])
    ensures IsPlain(Body(memory, day, serial) + [last])
  {
    hide Value;
    ValueOfPadded(day, 16, 5);
    ValueOfPadded(serial, 16, 10);
    assert IsPlain(Padded(day, 16, 5)) && IsPlain(Padded(serial, 16, 10));
    assert '0' <= [last][0] <= '9' || 'A' <= [last][0] <= 'Z';
  }

  /** The decimal text of a day and a serial, as it stands at the end of the control text. */
  function Tail(day: nat, serial: nat): (text: string)
    ensures V.AllDigits(text)
  {
    PaddedIsNumber(day, 6);
    PaddedIsNumber(serial, 12);
    Decimal(day, 6) + Decimal(serial, 12)
  }

  function MemoryText(memory: string): (text: string)
    ensures V.AllDigits(text)
  {
    DecimaliseIsNumber(memory);
    Decimalise(memory)
  }

  /** The weight of the whole control text. */
  function ControlWeight(memory: string, day: nat, serial: nat): V.Digit
  {
    Weight(MemoryText(memory) + Tail(day, serial), 1)
  }

  lemma ControlSplits(memory: string, day: nat, serial: nat)
    ensures Control(memory, day, serial) == MemoryText(memory) + Tail(day, serial)
  {
    hide Decimal, Decimalise;
  }

  /** An id with the check digit that belongs to another memory, day or serial is read exactly when
      the two control texts weigh the same. */
  lemma ReadWithDigitOf(memory: string, day: nat, serial: nat, other: string, otherDay: nat, otherSerial: nat)
    requires Fits(memory, day, serial) && Fits(other, otherDay, otherSerial)
    ensures SerialOf(Body(other, otherDay, otherSerial) + [LastOf(memory, day, serial)])
         == if ControlWeight(memory, day, serial) == ControlWeight(other, otherDay, otherSerial)
            then Ok((other, otherSerial)) else Err(WrongCheckDigit)
  {
    hide SerialOf, Control, Weight, V.CheckDigitOf, MemoryText, Tail;
    ControlIsNumber(memory, day, serial);
    ControlIsNumber(other, otherDay, otherSerial);
    ControlSplits(memory, day, serial);
    ControlSplits(other, otherDay, otherSerial);
    SameDigitIff(Control(memory, day, serial), Control(other, otherDay, otherSerial));
    ReadBody(other, otherDay, otherSerial, LastOf(memory, day, serial));
  }

  // ---- The hex part ----------------------------------------------------------------------------------

  function SerialText(serial: nat): (text: string)
    ensures V.AllDigits(text)
  {
    PaddedIsNumber(serial, 12);
    Decimal(serial, 12)
  }

  /** Under one memory, two days and serials have the same check digit.  With texts of equal length the
      memory does not matter. */
  predicate SameDigitTails(memory: string, a: string, b: string)
    requires V.AllDigits(a) && V.AllDigits(b)
  {
    if |a| == |b| then Weight(a, 1) == Weight(b, 1)
    else V.Product(Weight(a, 1), Weight(MemoryText(memory), 1 + |a|))
         == V.Product(Weight(b, 1), Weight(MemoryText(memory), 1 + |b|))
  }

  lemma TailsDecide(memory: string, a: string, b: string)
    requires V.AllDigits(a) && V.AllDigits(b)
    ensures V.AllDigits(MemoryText(memory) + a) && V.AllDigits(MemoryText(memory) + b)
    ensures Weight(MemoryText(memory) + a, 1) == Weight(MemoryText(memory) + b, 1) <==> SameDigitTails(memory, a, b)
  {
    var m := MemoryText(memory);
    hide *;
    WeightJoin(m, a, 1);
    WeightJoin(m, b, 1);
    assert SameDigitTails(memory, a, b) <==>
      if |a| == |b| then Weight(a, 1) == Weight(b, 1)
      else V.Product(Weight(a, 1), Weight(m, 1 + |a|)) == V.Product(Weight(b, 1), Weight(m, 1 + |b|)) by {
      UnfoldTails(memory, a, b);
    }
    if |a| == |b| && V.Product(Weight(a, 1), Weight(m, 1 + |a|)) == V.Product(Weight(b, 1), Weight(m, 1 + |b|)) {
      V.CancelRight(Weight(m, 1 + |a|), Weight(a, 1), Weight(b, 1));
    }
  }

  lemma UnfoldTails(memory: string, a: string, b: string)
    requires V.AllDigits(a) && V.AllDigits(b)
    ensures SameDigitTails(memory, a, b) <==>
      if |a| == |b| then Weight(a, 1) == Weight(b, 1)
      else V.Product(Weight(a, 1), Weight(MemoryText(memory), 1 + |a|))
           == V.Product(Weight(b, 1), Weight(MemoryText(memory), 1 + |b|))
  {
  }

  /** Replacing the day and the serial of an id and keeping its check digit: what is read. */
  lemma TailReplaced(memory: string, day: nat, serial: nat, otherDay: nat, otherSerial: nat)
    requires Fits(memory, day, serial) && Fits(memory, otherDay, otherSerial)
    ensures SerialOf(Body(memory, otherDay, otherSerial) + [LastOf(memory, day, serial)])
         == if SameDigitTails(memory, Tail(day, serial), Tail(otherDay, otherSerial))
            then Ok((memory, otherSerial)) else Err(WrongCheckDigit)
  {
    hide SerialOf, Body, LastOf, Weight, MemoryText, Tail, SameDigitTails;
    ReadWithDigitOf(memory, day, serial, memory, otherDay, otherSerial);
    TailsDecide(memory, Tail(day, serial), Tail(otherDay, otherSerial));
  }

  /** The day and the serial an id says when two neighbouring characters of its hex part are
      exchanged. */
  function SwappedHex(id: string, i: nat): (hex: string)
    requires |id| == TAX_ID_LENGTH && 6 <= i < 20 && AllHex(id[6..21])
    ensures |hex| == 15 && AllHex(hex) && AllHex(hex[..5]) && AllHex(hex[5..])
  {
    V.Swapped(id[6..21], i - 6)
  }

  /** Exchanging two neighbours anywhere in the hex part of an id: it is accepted, as the day and serial
      it then says, exactly when these weigh what the day and serial of the id weigh. */
  lemma HexSwapIff(memoryId: string, serial: int, issuedAt: real, i: nat)
    requires IsMemoryId(memoryId) && 0 <= serial <= MAX_SERIAL && 0 <= Day(issuedAt) <= MAX_DAY && 6 <= i < 20
    ensures GenerateTaxId(memoryId, serial, issuedAt).Ok?
    ensures var id := GenerateTaxId(memoryId, serial, issuedAt).value;
      && |id| == TAX_ID_LENGTH && AllHex(id[6..21])
      && var hex := SwappedHex(id, i);
         var otherDay, otherSerial := Value(hex[..5], 16), Value(hex[5..], 16);
         SerialOf(V.Swapped(id, i))
         == if SameDigitTails(Upper(memoryId), Tail(Day(issuedAt), serial), Tail(otherDay, otherSerial))
            then Ok((Upper(memoryId), otherSerial)) else Err(WrongCheckDigit)
  {
    hide SerialOf, SameDigitTails, Tail, LastOf, Padded, Value, SwappedHex, V.Swapped;
    var id := GenerateTaxId(memoryId, serial, issuedAt).value;
    var memory, day := Upper(memoryId), Day(issuedAt);
    IdIsBody(memoryId, serial, issuedAt);
    var hex := SwappedHex(id, i);
    var otherDay, otherSerial := Value(hex[..5], 16), Value(hex[5..], 16);
    HexFits(hex);
    SwapInside(id, i);
    HexBody(memory, otherDay, otherSerial, hex);
    TailReplaced(memory, day, serial, otherDay, otherSerial);
  }

  lemma IdIsBody(memoryId: string, serial: int, issuedAt: real)
    requires IsMemoryId(memoryId) && 0 <= serial <= MAX_SERIAL && 0 <= Day(issuedAt) <= MAX_DAY
    ensures GenerateTaxId(memoryId, serial, issuedAt).Ok?
    ensures Fits(Upper(memoryId), Day(issuedAt), serial)
    ensures var id := GenerateTaxId(memoryId, serial, issuedAt).value;
      && |id| == TAX_ID_LENGTH && AllHex(id[6..21]) && id[..6] == Upper(memoryId)
      && id == Body(Upper(memoryId), Day(issuedAt), serial) + [LastOf(Upper(memoryId), Day(issuedAt), serial)]
      && id[21] == LastOf(Upper(memoryId), Day(issuedAt), serial)
  {
    hide LastOf, Padded, Value;
    Shape(memoryId, serial, issuedAt);
    GeneratedFrom(memoryId, serial, issuedAt);
    var id := GenerateTaxId(memoryId, serial, issuedAt).value;
    assert id[6..21] == id[6..11] + id[11..21];
    assert IsPlain(Upper(memoryId));
  }

  lemma HexFits(hex: string)
    requires |hex| == 15 && AllHex(hex) && AllHex(hex[..5]) && AllHex(hex[5..])
    ensures Value(hex[..5], 16) <= MAX_DAY && Value(hex[5..], 16) <= MAX_SERIAL
    ensures Padded(Value(hex[..5], 16), 16, 5) + Padded(Value(hex[5..], 16), 16, 10) == hex
  {
    hide *;
    Powers();
    ValueBelow(hex[..5]);
    ValueBelow(hex[5..]);
    PaddedOfValue(hex[..5]);
    PaddedOfValue(hex[5..]);
    assert hex == hex[..5] + hex[5..];
  }

  lemma HexBody(memory: string, day: nat, serial: nat, hex: string)
    requires Padded(day, 16, 5) + Padded(serial, 16, 10) == hex
    ensures Body(memory, day, serial) == memory + hex
  {
    hide Padded;
  }

  lemma SwapInside(id: string, i: nat)
    requires |id| == TAX_ID_LENGTH && 6 <= i < 20 && AllHex(id[6..21])
    ensures V.Swapped(id, i) == id[..6] + SwappedHex(id, i) + [id[21]]
  {
  }

  // ---- The serial ---------------------------------------------------------------------------------------

  const TRILLION := 1_000_000_000_000

  lemma {:induction false} RenderLong(n: nat, e: nat)
    requires n >= Power(10, e)
    ensures |Render(n, 10)| > e
  {
    if e > 0 {
      PowerStep(10, e);
      PowerMonotone(10, 0, e - 1);
      RenderLength(n, 10);
      assert n / 10 >= Power(10, e - 1);
      hide Power;
      RenderLong(n / 10, e - 1);
    }
  }

  lemma TenToTheTwelfth()
    ensures Power(10, 12) == TRILLION && Power(10, 13) == 10 * TRILLION
  {
    assert Power(10, 4) == 10_000;
    assert Power(10, 8) == 10 * (10 * (10 * (10 * Power(10, 4))));
    assert Power(10, 12) == 10 * (10 * (10 * (10 * Power(10, 8))));
  }

  /** A serial takes 12 digits of the control text, or 13. */
  lemma SerialWidth(serial: nat)
    requires serial <= MAX_SERIAL
    ensures |SerialText(serial)| == if serial < TRILLION then 12 else 13
  {
    hide Render;
    TenToTheTwelfth();
    PaddedExactly(serial, 10, 13);
    if serial < TRILLION {
      PaddedExactly(serial, 10, 12);
    } else {
      RenderLong(serial, 12);
    }
  }

  /** Exchanging two neighbours in the serial part of an id.  While both serials take the same number of
      digits, memory and day do not matter: it is accepted exactly when the two serials weigh the same. */
  lemma SerialSwapIff(memoryId: string, serial: int, issuedAt: real, i: nat)
    requires IsMemoryId(memoryId) && 0 <= serial <= MAX_SERIAL && 0 <= Day(issuedAt) <= MAX_DAY && 11 <= i < 20
    ensures GenerateTaxId(memoryId, serial, issuedAt).Ok?
    ensures var id := GenerateTaxId(memoryId, serial, issuedAt).value;
      && |id| == TAX_ID_LENGTH && AllHex(V.Swapped(id[11..21], i - 11))
      && var other := Value(V.Swapped(id[11..21], i - 11), 16);
         ((serial < TRILLION <==> other < TRILLION) ==>
           SerialOf(V.Swapped(id, i))
           == if Weight(SerialText(serial), 1) == Weight(SerialText(other), 1)
              then Ok((Upper(memoryId), other)) else Err(WrongCheckDigit))
  {
    hide SerialOf, GenerateTaxId, Tail, Weight, Value, SerialText, V.Swapped, Fits, SameDigitTails, SwappedHex;
    HexSwapIff(memoryId, serial, issuedAt, i);
    Shape(memoryId, serial, issuedAt);
    IdIsBody(memoryId, serial, issuedAt);
    var id := GenerateTaxId(memoryId, serial, issuedAt).value;
    SwapInSerial(id, i);
    var other := Value(SwappedHex(id, i)[5..], 16);
    HexFits(SwappedHex(id, i));
    SerialWidth(serial);
    SerialWidth(other);
    if serial < TRILLION <==> other < TRILLION {
      SerialsDecide(Upper(memoryId), Day(issuedAt), serial, other);
    }
  }

  lemma SwapInSerial(id: string, i: nat)
    requires |id| == TAX_ID_LENGTH && 11 <= i < 20 && AllHex(id[6..21])
    ensures SwappedHex(id, i)[..5] == id[6..11] && SwappedHex(id, i)[5..] == V.Swapped(id[11..21], i - 11)
  {
  }

  lemma SerialsDecide(memory: string, day: nat, serial: nat, other: nat)
    requires |SerialText(serial)| == |SerialText(other)|
    ensures SameDigitTails(memory, Tail(day, serial), Tail(day, other))
       <==> Weight(SerialText(serial), 1) == Weight(SerialText(other), 1)
  {
    PaddedIsNumber(day, 6);
    var before := Decimal(day, 6);
    assert V.AllDigits(before);
    hide Weight, Decimal;
    BlockIff(before, SerialText(serial), SerialText(other), "", 1);
    assert Tail(day, serial) == before + SerialText(serial) + "";
    assert Tail(day, other) == before + SerialText(other) + "";
  }

  // ---- One that is accepted ---------------------------------------------------------------------------

  lemma SmallSerialText(serial: nat)
    requires 10 <= serial < 100
    ensures SerialText(serial) == Zeros(10) + [DIGITS[serial / 10], DIGITS[serial % 10]]
  {
    RenderLength(serial, 10);
    RenderLength(serial / 10, 10);
    M.RenderTwo(serial);
  }

  lemma SmallSerialHex(serial: nat)
    requires 16 <= serial < 256
    ensures Padded(serial, 16, 10) == Zeros(8) + [DIGITS[serial / 16], DIGITS[serial % 16]]
  {
    assert Render(serial / 16, 16) == [DIGITS[serial / 16]];
    assert Render(serial, 16) == [DIGITS[serial / 16], DIGITS[serial % 16]];
  }

  lemma ReversedPair(text: string, x: V.Digit, y: V.Digit)
    requires text == [V.DigitChar(y), V.DigitChar(x)]
    ensures V.AllDigits(text) && V.ReversedDigits(text) == [x, y]
  {
    assert text[1] == V.DigitChar(x) && text[0] == V.DigitChar(y);
  }

  /** Serials 35 and 50, hex 23 and 32, weigh the same. */
  lemma SameWeight()
    ensures Weight(SerialText(35), 1) == Weight(SerialText(50), 1)
  {
    SmallSerialText(35);
    SmallSerialText(50);
    V.PairOfDigits(5, 3, 1);
    V.PairOfDigits(0, 5, 1);
    ReversedPair("35", 5, 3);
    ReversedPair("50", 0, 5);
    hide V.Checksum, V.Product;
    BlockIff(Zeros(10), "35", "50", "", 1);
    assert SerialText(35) == Zeros(10) + "35" + "";
    assert SerialText(50) == Zeros(10) + "50" + "";
  }

  /** A transposition the check digit does not catch: in any memory on any day, the id of
      serial 35 with its last two hex digits exchanged reads as serial 50. */
  lemma TranspositionAccepted(memoryId: string, issuedAt: real)
    requires IsMemoryId(memoryId) && 0 <= Day(issuedAt) <= MAX_DAY
    ensures GenerateTaxId(memoryId, 35, issuedAt).Ok?
    ensures var id := GenerateTaxId(memoryId, 35, issuedAt).value;
      && |id| == TAX_ID_LENGTH && id[19] != id[20]
      && SerialOf(id) == Ok((Upper(memoryId), 35))
      && SerialOf(V.Swapped(id, 19)) == Ok((Upper(memoryId), 50))
  {
    hide SerialOf, Weight, SerialText, Value, GenerateTaxId, Padded, Upper, Zeros;
    SerialSwapIff(memoryId, 35, issuedAt, 19);
    SerialOfGenerated(memoryId, 35, issuedAt);
    Shape(memoryId, 35, issuedAt);
    SmallSerialHex(35);
    SmallSerialHex(50);
    var id := GenerateTaxId(memoryId, 35, issuedAt).value;
    assert id[11..21] == Padded(35, 16, 10) && V.Swapped(id[11..21], 8) == Padded(50, 16, 10);
    ValueOfPadded(50, 16, 10);
    SameWeight();
  }

  // ---- The memory ------------------------------------------------------------------------------------------

  /** Two neighbouring characters of the memory in decimal, and what follows them in the control text. */
  function PairText(x: char, y: char): (text: string)
    ensures V.AllDigits(text)
  {
    MemoryText([x]) + MemoryText([y])
  }

  function TextAfter(memory: string, i: nat, day: nat, serial: nat): (text: string)
    requires i <= |memory|
    ensures V.AllDigits(text)
  {
    MemoryText(memory[i..]) + Tail(day, serial)
  }

  lemma ControlAroundPair(memory: string, i: nat, day: nat, serial: nat)
    requires i + 1 < |memory|
    ensures Control(memory, day, serial)
         == MemoryText(memory[..i]) + PairText(memory[i], memory[i + 1]) + TextAfter(memory, i + 2, day, serial)
  {
    hide Decimalise, Decimal;
    var first, rest := memory[..i], memory[i + 2..];
    assert memory == first + ([memory[i]] + ([memory[i + 1]] + rest));
    M.DecimaliseSplit(first, [memory[i]] + ([memory[i + 1]] + rest));
    M.DecimaliseSplit([memory[i]], [memory[i + 1]] + rest);
    M.DecimaliseSplit([memory[i + 1]], rest);
  }

  lemma PairDecides(memory: string, i: nat, day: nat, serial: nat)
    requires i + 1 < |memory|
    ensures var k := 1 + |TextAfter(memory, i + 2, day, serial)|;
      ControlWeight(memory, day, serial) == ControlWeight(V.Swapped(memory, i), day, serial)
      <==> Weight(PairText(memory[i], memory[i + 1]), k) == Weight(PairText(memory[i + 1], memory[i]), k)
  {
    hide Weight, MemoryText, PairText, TextAfter, Control, Tail;
    var other := V.Swapped(memory, i);
    ControlSplits(memory, day, serial);
    ControlSplits(other, day, serial);
    ControlAroundPair(memory, i, day, serial);
    ControlAroundPair(other, i, day, serial);
    assert other[..i] == memory[..i] && other[i + 2..] == memory[i + 2..];
    SameAfter(memory, other, i + 2, day, serial);
    PairLength(memory[i], memory[i + 1]);
    BlockIff(MemoryText(memory[..i]), PairText(memory[i], memory[i + 1]), PairText(memory[i + 1], memory[i]),
             TextAfter(memory, i + 2, day, serial), 1);
  }

  /** Exchanging two neighbours in the memory part of an id: it is accepted, as another memory's, exactly
      when the two orders weigh the same where they stand in the control text. */
  lemma MemorySwapIff(memoryId: string, serial: int, issuedAt: real, i: nat)
    requires IsMemoryId(memoryId) && 0 <= serial <= MAX_SERIAL && 0 <= Day(issuedAt) <= MAX_DAY && i < 5
    ensures GenerateTaxId(memoryId, serial, issuedAt).Ok?
    ensures var id := GenerateTaxId(memoryId, serial, issuedAt).value;
      && |id| == TAX_ID_LENGTH
      && var k := 1 + |TextAfter(id[..6], i + 2, Day(issuedAt), serial)|;
         SerialOf(V.Swapped(id, i))
         == if Weight(PairText(id[i], id[i + 1]), k) == Weight(PairText(id[i + 1], id[i]), k)
            then Ok((V.Swapped(id[..6], i), serial)) else Err(WrongCheckDigit)
  {
    hide SerialOf, GenerateTaxId, Weight, LastOf, PairText, TextAfter, ControlWeight, Padded;
    IdIsBody(memoryId, serial, issuedAt);
    var id := GenerateTaxId(memoryId, serial, issuedAt).value;
    var memory, day := Upper(memoryId), Day(issuedAt);
    SwapInMemory(id, i);
    BodyAfterMemory(memory, V.Swapped(memory, i), day, serial);
    ReadWithDigitOf(memory, day, serial, V.Swapped(memory, i), day, serial);
    PairDecides(memory, i, day, serial);
  }

  lemma SameAfter(memory: string, other: string, i: nat, day: nat, serial: nat)
    requires i <= |memory| && i <= |other| && memory[i..] == other[i..]
    ensures TextAfter(memory, i, day, serial) == TextAfter(other, i, day, serial)
  {
  }

  lemma PairLength(x: char, y: char)
    ensures |PairText(x, y)| == |PairText(y, x)|
  {
  }

  lemma SwapInMemory(id: string, i: nat)
    requires |id| == TAX_ID_LENGTH && i < 5
    ensures V.Swapped(id, i) == V.Swapped(id[..6], i) + id[6..]
    ensures IsPlain(id[..6]) ==> IsPlain(V.Swapped(id[..6], i))
  {
  }

  lemma BodyAfterMemory(memory: string, other: string, day: nat, serial: nat)
    requires |memory| == |other| == 6
    ensures var text := Body(memory, day, serial) + [LastOf(memory, day, serial)];
      |text| >= 6 && Body(other, day, serial) + [LastOf(memory, day, serial)] == other + text[6..]
  {
    hide Padded, LastOf;
  }

  /** In particular two unequal digits of the memory are never exchanged unnoticed. */
  lemma MemoryDigitsSwapRefused(memoryId: string, serial: int, issuedAt: real, i: nat)
    requires IsMemoryId(memoryId) && 0 <= serial <= MAX_SERIAL && 0 <= Day(issuedAt) <= MAX_DAY && i < 5
    requires V.IsAsciiDigit(memoryId[i]) && V.IsAsciiDigit(memoryId[i + 1]) && memoryId[i] != memoryId[i + 1]
    ensures GenerateTaxId(memoryId, serial, issuedAt).Ok?
    ensures var id := GenerateTaxId(memoryId, serial, issuedAt).value;
      |id| == TAX_ID_LENGTH && SerialOf(V.Swapped(id, i)) == Err(WrongCheckDigit)
  {
    hide SerialOf, GenerateTaxId, PairText, Weight, TextAfter, LastOf, Body;
    MemorySwapIff(memoryId, serial, issuedAt, i);
    IdIsBody(memoryId, serial, issuedAt);
    var id := GenerateTaxId(memoryId, serial, issuedAt).value;
    assert id[i] == Upper(memoryId)[i] == memoryId[i] && id[i + 1] == Upper(memoryId)[i + 1] == memoryId[i + 1];
    DigitPairDiffers(id[i], id[i + 1], 1 + |TextAfter(id[..6], i + 2, Day(issuedAt), serial)|);
  }

  lemma DigitPairDiffers(x: char, y: char, k: nat)
    requires V.IsAsciiDigit(x) && V.IsAsciiDigit(y) && x != y
    ensures Weight(PairText(x, y), k) != Weight(PairText(y, x), k)
  {
    hide V.Checksum, Decimalise;
    M.DecimaliseOne(x);
    M.DecimaliseOne(y);
    assert PairText(x, y) == [x, y] && PairText(y, x) == [y, x] == V.Swapped([x, y], 0);
    V.SwapAltersChecksum([x, y], 0, k);
  }

  // ---- The borders ----------------------------------------------------------------------------------------

  /** Exchanging the last character of the serial with the check digit. */
  lemma LastSwapIff(memoryId: string, serial: int, issuedAt: real)
    requires IsMemoryId(memoryId) && 0 <= serial <= MAX_SERIAL && 0 <= Day(issuedAt) <= MAX_DAY
    ensures GenerateTaxId(memoryId, serial, issuedAt).Ok?
    ensures var id := GenerateTaxId(memoryId, serial, issuedAt).value;
      && |id| == TAX_ID_LENGTH && AllHex(id[11..20] + [id[21]])
      && var other := Value(id[11..20] + [id[21]], 16);
         SerialOf(V.Swapped(id, 20))
         == if id[20] == LastOf(Upper(memoryId), Day(issuedAt), other)
            then Ok((Upper(memoryId), other)) else Err(WrongCheckDigit)
  {
    hide SerialOf, GenerateTaxId, LastOf, Padded, Value, V.Swapped;
    IdIsBody(memoryId, serial, issuedAt);
    Shape(memoryId, serial, issuedAt);
    var id := GenerateTaxId(memoryId, serial, issuedAt).value;
    var hex := id[11..20] + [id[21]];
    assert AllHex(hex);
    Powers();
    ValueBelow(hex);
    PaddedOfValue(hex);
    assert IsPlain([id[20]]) by { assert IsHex(id[11..21][9]); }
    ReadBody(Upper(memoryId), Day(issuedAt), Value(hex, 16), id[20]);
    SwapAtEnd(id);
  }

  lemma SwapAtEnd(id: string)
    requires |id| == TAX_ID_LENGTH
    ensures V.Swapped(id, 20) == id[..6] + id[6..11] + (id[11..20] + [id[21]]) + [id[20]]
  {
  }

  /** Exchanging the last character of the memory with the first of the day: a letter past F is no hex
      digit, and anything else is accepted exactly when the control texts weigh the same. */
  lemma FirstSwapIff(memoryId: string, serial: int, issuedAt: real)
    requires IsMemoryId(memoryId) && 0 <= serial <= MAX_SERIAL && 0 <= Day(issuedAt) <= MAX_DAY
    ensures GenerateTaxId(memoryId, serial, issuedAt).Ok?
    ensures var id := GenerateTaxId(memoryId, serial, issuedAt).value;
      && |id| == TAX_ID_LENGTH
      && (!IsHex(id[5]) ==> SerialOf(V.Swapped(id, 5)) == Err(NotHex))
      && (IsHex(id[5]) ==>
            && AllHex([id[5]] + id[7..11])
            && var other, otherDay := id[..5] + [id[6]], Value([id[5]] + id[7..11], 16);
               SerialOf(V.Swapped(id, 5))
                  == if ControlWeight(id[..6], Day(issuedAt), serial) == ControlWeight(other, otherDay, serial)
                     then Ok((other, serial)) else Err(WrongCheckDigit))
  {
    hide SerialOf, GenerateTaxId, LastOf, Padded, Value, V.Swapped, ControlWeight, ReadHex;
    IdIsBody(memoryId, serial, issuedAt);
    Shape(memoryId, serial, issuedAt);
    var id := GenerateTaxId(memoryId, serial, issuedAt).value;
    var hex := [id[5]] + id[7..11];
    SwapAtStart(id);
    assert id[7..11] == id[6..11][1..] && id[6] == id[6..11][0];
    if IsHex(id[5]) {
      assert AllHex(hex);
      Powers();
      ValueBelow(hex);
      PaddedOfValue(hex);
      assert IsPlain(id[..5] + [id[6]]) by { assert IsHex(id[6..11][0]); }
      ReadWithDigitOf(id[..6], Day(issuedAt), serial, id[..5] + [id[6]], Value(hex, 16), serial);
    } else {
      ReadForeign(V.Swapped(id, 5), hex);
    }
  }

  lemma SwapAtStart(id: string)
    requires |id| == TAX_ID_LENGTH
    ensures var text := V.Swapped(id, 5);
      && text == (id[..5] + [id[6]]) + ([id[5]] + id[7..11]) + id[11..21] + [id[21]]
      && |text| == TAX_ID_LENGTH && text[6..11] == [id[5]] + id[7..11]
  {
  }

  /** A letter past F in front makes a text no number. */
  lemma {:induction false} NoHexDigits(s: string)
    requires s != "" && IsPlain(s) && !IsHex(s[0])
    ensures HexDigits(s).None?
  {
    if |s| > 1 && IsHex(s[|s| - 1]) {
      assert s[|s| - 2] != '_';
      NoHexDigits(s[..|s| - 1]);
    }
  }

  lemma ReadForeign(text: string, hex: string)
    requires |text| == TAX_ID_LENGTH && IsPlain(text) && text[6..11] == hex && !IsHex(hex[0])
    ensures SerialOf(text) == Err(NotHex)
  {
    PlainIsNormal(text);
    PlainIsNormal(hex);
    NoHexDigits(hex);
    assert DropPrefix(hex) == hex;
    hide HexDigits, Strip, Upper;
    assert ReadHex(hex).None?;
  }

  // ---- Slips in the hex part ------------------------------------------------------------------------

  /** Texts that differ in exactly one character. */
  ghost predicate OneOff(a: string, b: string)
  {
    exists i :: 0 <= i < |a| && |a| == |b| && a[i] != b[i] && b == a[i := b[i]]
  }

  /** A slip that turns the day or the serial into one a single decimal digit away is refused, in every
      memory. */
  lemma DecimalSlipRefused(memory: string, day: nat, serial: nat, otherDay: nat, otherSerial: nat)
    requires Fits(memory, day, serial) && Fits(memory, otherDay, otherSerial)
    requires
      || (otherSerial == serial && OneOff(Padded(day, 10, 6), Padded(otherDay, 10, 6)))
      || (otherDay == day && OneOff(Padded(serial, 10, 12), Padded(otherSerial, 10, 12)))
    ensures SerialOf(Body(memory, otherDay, otherSerial) + [LastOf(memory, day, serial)]) == Err(WrongCheckDigit)
  {
    hide SerialOf, Padded, Control, V.CheckDigitOf, V.AllDigits, Decimalise, OneOff, Fits;
    assert memory != "" && IsPlain([LastOf(memory, day, serial)]) by { FitsIs(memory, day, serial); }
    ControlIs(memory, day, serial);
    ControlIs(memory, otherDay, otherSerial);
    var control, other := Control(memory, day, serial), Control(memory, otherDay, otherSerial);
    ControlIsNumber(memory, day, serial);
    ControlIsNumber(memory, otherDay, otherSerial);
    if otherSerial == serial && OneOff(Padded(day, 10, 6), Padded(otherDay, 10, 6)) {
      OneOffInside(Decimalise(memory), Padded(day, 10, 6), Padded(otherDay, 10, 6), Padded(serial, 10, 12));
    } else {
      OneOffInside(Decimalise(memory) + Padded(day, 10, 6), Padded(serial, 10, 12), Padded(otherSerial, 10, 12), "");
      assert control == Decimalise(memory) + Padded(day, 10, 6) + Padded(serial, 10, 12) + "";
      assert other == Decimalise(memory) + Padded(day, 10, 6) + Padded(otherSerial, 10, 12) + "";
    }
    OneOffDigits(control, other);
    ReadBody(memory, otherDay, otherSerial, LastOf(memory, day, serial));
  }

  lemma FitsIs(memory: string, day: nat, serial: nat)
    requires Fits(memory, day, serial)
    ensures memory != "" && IsPlain([LastOf(memory, day, serial)])
  {
    hide V.CheckDigitOf, Control;
  }

  lemma OneOffInside(before: string, a: string, b: string, after: string)
    requires OneOff(a, b)
    ensures OneOff(before + a + after, before + b + after)
  {
    var i :| 0 <= i < |a| && |a| == |b| && a[i] != b[i] && b == a[i := b[i]];
    var x, y, k := before + a + after, before + b + after, |before| + i;
    assert x[k] == a[i] && y[k] == b[i] && y == x[k := y[k]];
  }

  lemma OneOffDigits(a: string, b: string)
    requires OneOff(a, b) && a != "" && V.AllDigits(a) && V.AllDigits(b)
    ensures V.CheckDigitOf(a) != V.CheckDigitOf(b)
  {
    var i :| 0 <= i < |a| && |a| == |b| && a[i] != b[i] && b == a[i := b[i]];
    V.CheckDigitsDiffer(a, b);
  }
}
