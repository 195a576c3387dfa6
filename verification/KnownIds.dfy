/** The two tax ids in the repair tool's help: one is from the organization's documents, the other is no tax
    id.
 */
module KnownIds {
  import opened Results
  import opened Text
  import opened TaxId
  import opened Transpositions
  import V = Verhoeff

  /** The control text of A11216, day 19490 and serial 49321217, least significant digit first. */
  const CONTROL: seq<V.Digit> := [7, 1, 2, 1, 2, 3, 9, 4, 0, 0, 0, 0, 0, 9, 4, 9, 1, 0, 6, 1, 2, 1, 1, 5, 6]

  /** One digit further in its checksum. */
  lemma Next(n: nat, permuted: V.Digit, sum: V.Digit, next: V.Digit)
    requires n < |CONTROL| && V.Checksum(CONTROL[..n], 1) == sum
    requires V.Permuted(n + 1, CONTROL[n]) == permuted && V.Product(sum, permuted) == next
    ensures V.Checksum(CONTROL[..n + 1], 1) == next
  {
    assert CONTROL[..n + 1][..n] == CONTROL[..n];
  }

  lemma FirstFive()
    ensures V.Checksum(CONTROL[..5], 1) == 0
  {
    hide V.Checksum;
    NothingYet();
    Next(0, 0, 0, 0);
    Next(1, 8, 0, 8);
    Next(2, 1, 8, 7);
    Next(3, 4, 7, 8);
    Next(4, 8, 8, 0);
  }

  lemma SecondFive()
    ensures V.Checksum(CONTROL[..10], 1) == 1
  {
    hide V.Checksum;
    FirstFive();
    Next(5, 3, 0, 3);
    Next(6, 8, 3, 6);
    Next(7, 4, 6, 7);
    Next(8, 1, 7, 6);
    Next(9, 5, 6, 1);
  }

  lemma ThirdFive()
    ensures V.Checksum(CONTROL[..15], 1) == 0
  {
    hide V.Checksum;
    SecondFive();
    Next(10, 8, 1, 9);
    Next(11, 9, 9, 0);
    Next(12, 4, 0, 4);
    Next(13, 5, 4, 9);
    Next(14, 9, 9, 0);
  }

  lemma FourthFive()
    ensures V.Checksum(CONTROL[..20], 1) == 7
  {
    hide V.Checksum;
    ThirdFive();
    Next(15, 9, 0, 9);
    Next(16, 5, 9, 4);
    Next(17, 5, 4, 9);
    Next(18, 3, 9, 6);
    Next(19, 4, 6, 7);
  }

  lemma LastFive()
    ensures V.Checksum(CONTROL[..25], 1) == 4
  {
    hide V.Checksum;
    FourthFive();
    Next(20, 8, 7, 4);
    Next(21, 7, 4, 6);
    Next(22, 0, 6, 6);
    Next(23, 5, 6, 1);
    Next(24, 3, 1, 4);
  }

  lemma NothingYet()
    ensures V.Checksum(CONTROL[..0], 1) == 0
  {
  }

  /** One digit further in the text of a number. */
  lemma Written(front: nat, text: string, base: nat, last: nat)
    requires (base == 10 || base == 16) && last < base && front >= 1 && Render(front, base) == text
    ensures Render(front * base + last, base) == text + [DIGITS[last]]
  {
    var n := front * base + last;
    QuotientIs(front, base, last);
    assert n >= base;
    RenderStep(n, base);
    hide Render;
  }

  lemma QuotientIs(front: nat, base: nat, last: nat)
    requires (base == 10 || base == 16) && last < base
    ensures (front * base + last) / base == front && (front * base + last) % base == last
  {
    if base == 10 {
      assert (front * 10 + last) / 10 == front;
    } else {
      assert (front * 16 + last) / 16 == front;
    }
  }

  lemma WrittenFirst(digit: nat, base: nat)
    requires (base == 10 || base == 16) && digit < base
    ensures Render(digit, base) == [DIGITS[digit]]
  {
    hide Render;
    RenderStep(digit, base);
    if base == 10 {
      assert digit % 10 == digit;
    } else {
      assert digit % 16 == digit;
    }
  }

  lemma DayInDecimal()
    ensures Render(19490, 10) == "19490"
  {
    hide Render;
    WrittenFirst(1, 10);
    Written(1, "1", 10, 9);
    Written(19, "19", 10, 4);
    Written(194, "194", 10, 9);
    Written(1949, "1949", 10, 0);
  }

  lemma FourOfSerial()
    ensures Render(4932, 10) == "4932"
  {
    hide Render;
    WrittenFirst(4, 10);
    Written(4, "4", 10, 9);
    Written(49, "49", 10, 3);
    Written(493, "493", 10, 2);
  }

  lemma SerialInDecimal()
    ensures Render(4932121, 10) == "4932121"
  {
    hide Render;
    FourOfSerial();
    Written(4932, "4932", 10, 1);
    Written(49321, "49321", 10, 2);
    Written(493212, "493212", 10, 1);
  }

  lemma DayInHex()
    ensures Render(19490, 16) == "4C22"
  {
    hide Render;
    WrittenFirst(4, 16);
    Written(4, "4", 16, 12);
    Written(76, "4C", 16, 2);
    Written(1218, "4C2", 16, 2);
  }

  lemma SerialInHex()
    ensures Render(3082576, 16) == "2F0950"
  {
    hide Render;
    WrittenFirst(2, 16);
    Written(2, "2", 16, 15);
    Written(47, "2F", 16, 0);
    Written(752, "2F0", 16, 9);
    Written(12041, "2F09", 16, 5);
    Written(192661, "2F095", 16, 0);
  }

  lemma Filled(n: nat, base: nat, width: nat, text: string)
    requires 2 <= base <= 16 && Render(n, base) == text && |text| <= width
    ensures Padded(n, base, width) == Zeros(width - |text|) + text
  {
  }

  lemma DecimalTexts()
    ensures Padded(19490, 10, 6) == "019490"
    ensures Padded(49321217, 10, 12) == "000049321217" && Padded(49321218, 10, 12) == "000049321218"
  {
    hide Render, Padded, Zeros;
    DayInDecimal();
    SerialInDecimal();
    Written(4932121, "4932121", 10, 7);
    Written(4932121, "4932121", 10, 8);
    Filled(19490, 10, 6, "19490");
    Filled(49321217, 10, 12, "49321217");
    Filled(49321218, 10, 12, "49321218");
    FourZeros();
  }

  lemma FourZeros()
    ensures Zeros(1) == "0" && Zeros(3) == "000" && Zeros(4) == "0000"
  {
  }

  lemma HexTexts()
    ensures Padded(19490, 16, 5) == "04C22"
    ensures Padded(49321217, 16, 10) == "0002F09501" && Padded(49321218, 16, 10) == "0002F09502"
  {
    hide Render, Padded, Zeros;
    DayInHex();
    SerialInHex();
    Written(3082576, "2F0950", 16, 1);
    Written(3082576, "2F0950", 16, 2);
    Filled(19490, 16, 5, "4C22");
    Filled(49321217, 16, 10, "2F09501");
    Filled(49321218, 16, 10, "2F09502");
    FourZeros();
  }

  lemma DigitFirst(ch: char, rest: string)
    requires V.IsAsciiDigit(ch)
    ensures Decimalise([ch] + rest) == [ch] + Decimalise(rest)
  {
    assert "0123456789"[ch as int - '0' as int] == ch;
    assert ([ch] + rest)[1..] == rest;
  }

  lemma LetterA(rest: string)
    ensures Decimalise("A" + rest) == "65" + Decimalise(rest)
  {
    hide Render;
    WrittenFirst(6, 10);
    Written(6, "6", 10, 5);
    var text := "A" + rest;
    assert text[1..] == rest && text[0] == 'A';
    assert Render('A' as nat, 10) == "65";
  }

  lemma MemoryInDecimal()
    ensures Decimalise("A11216") == "6511216"
  {
    hide Decimalise;
    assert Decimalise("") == "" by { NoCharacters(); }
    DigitFirst('6', "");
    DigitFirst('1', "6");
    DigitFirst('2', "16");
    DigitFirst('1', "216");
    DigitFirst('1', "1216");
    LetterA("11216");
    assert ['6'] + "" == "6" && ['1'] + "6" == "16" && ['2'] + "16" == "216";
    assert ['1'] + "216" == "1216" && ['1'] + "1216" == "11216" && "A" + "11216" == "A11216";
    assert "65" + "11216" == "6511216";
  }

  lemma NoCharacters()
    ensures Decimalise("") == ""
  {
  }

  lemma ControlsAre()
    ensures Control("A11216", 19490, 49321217) == "6511216019490000049321217"
    ensures Control("A11216", 19490, 49321218) == "6511216019490000049321218"
  {
    hide *;
    DecimalTexts();
    MemoryInDecimal();
    ControlIs("A11216", 19490, 49321217);
    ControlIs("A11216", 19490, 49321218);
  }

  /** The check digit of a number, from its digits read backwards. */
  lemma DigitIs(control: string, ds: seq<V.Digit>, sum: V.Digit)
    requires control != "" && V.AllDigits(control) && V.ReversedDigits(control) == ds && V.Checksum(ds, 1) == sum
    ensures |V.INV| == 10 && V.CheckDigitOf(control) == Ok(V.INV[sum])
  {
    hide V.Checksum, V.ReversedDigits, V.AllDigits;
  }

  lemma LastIs(memory: string, day: nat, serial: nat, digit: V.Digit)
    requires memory != "" && V.CheckDigitOf(Control(memory, day, serial)) == Ok(digit)
    ensures LastOf(memory, day, serial) == V.DigitChar(digit)
  {
    hide Control, V.CheckDigitOf;
  }

  lemma KnownDigit()
    ensures LastOf("A11216", 19490, 49321217) == '1'
  {
    hide LastOf, Control, V.CheckDigitOf, V.Checksum, V.ReversedDigits, V.AllDigits;
    ControlsAre();
    KnownControl();
    LastFive();
    assert CONTROL[..25] == CONTROL;
    DigitIs("6511216019490000049321217", CONTROL, 4);
    LastIs("A11216", 19490, 49321217, 1);
  }

  lemma Reversed5(text: string, a: V.Digit, b: V.Digit, c: V.Digit, d: V.Digit, e: V.Digit)
    requires text == [V.DigitChar(e), V.DigitChar(d), V.DigitChar(c), V.DigitChar(b), V.DigitChar(a)]
    ensures V.AllDigits(text) && V.ReversedDigits(text) == [a, b, c, d, e]
  {
  }

  lemma ReversedJoin(x: string, y: string)
    requires V.AllDigits(x) && V.AllDigits(y)
    ensures V.AllDigits(x + y) && V.ReversedDigits(x + y) == V.ReversedDigits(y) + V.ReversedDigits(x)
  {
  }

  lemma ReversedOne(text: string, x: V.Digit)
    requires text == [V.DigitChar(x)]
    ensures V.AllDigits(text) && V.ReversedDigits(text) == [x]
  {
  }

  lemma FirstTen(text: string)
    requires text == "65112" + "16019"
    ensures V.AllDigits(text) && V.ReversedDigits(text) == [9, 1, 0, 6, 1, 2, 1, 1, 5, 6]
  {
    Reversed5("65112", 2, 1, 1, 5, 6);
    Reversed5("16019", 9, 1, 0, 6, 1);
    hide V.ReversedDigits, V.AllDigits;
    ReversedJoin("65112", "16019");
  }

  lemma LastFifteen(text: string)
    requires text == "49000" + "00493" + "21217"
    ensures V.AllDigits(text) && V.ReversedDigits(text) == [7, 1, 2, 1, 2, 3, 9, 4, 0, 0, 0, 0, 0, 9, 4]
  {
    Reversed5("49000", 0, 0, 0, 9, 4);
    Reversed5("00493", 3, 9, 4, 0, 0);
    Reversed5("21217", 7, 1, 2, 1, 2);
    hide V.ReversedDigits, V.AllDigits;
    ReversedJoin("49000", "00493");
    ReversedJoin("49000" + "00493", "21217");
  }

  lemma KnownControl()
    ensures V.AllDigits("6511216019490000049321217") && V.ReversedDigits("6511216019490000049321217") == CONTROL
  {
    var first, last := "65112" + "16019", "49000" + "00493" + "21217";
    assert first + last == "6511216019490000049321217";
    FirstTen(first);
    LastFifteen(last);
    ReversedJoin(first, last);
    hide V.ReversedDigits, V.AllDigits;
  }

  /** The id in the organization's sample, which the help repeats, is generated and read back. */
  lemma KnownIdRead(millis: int)
    requires millis / 86_400_000 == 19490
    ensures GenerateTaxId("A11216", 49321217, millis as real / 1000.0) == Ok("A1121604C220002F095011")
    ensures SerialOf("A1121604C220002F095011") == Ok(("A11216", 49321217))
  {
    hide *;
    var instant := millis as real / 1000.0;
    DayOfMillis(millis);
    GeneratedText(instant);
    SerialOfGenerated("A11216", 49321217, instant);
    UpperKnown();
  }

  lemma UpperKnown()
    ensures Upper("A11216") == "A11216" && IsMemoryId("A11216")
  {
  }

  lemma GeneratedText(instant: real)
    requires Day(instant) == 19490
    ensures GenerateTaxId("A11216", 49321217, instant) == Ok("A1121604C220002F095011")
  {
    UpperKnown();
    HexTexts();
    KnownDigit();
    hide LastOf, Padded, Day, Upper, IsMemoryId;
    assert "A11216" + "04C22" + "0002F09501" + ['1'] == "A1121604C220002F095011";
  }

  /** The other id in the help is none: its digit is not 2 but 5, and the tool refuses it. */
  lemma HelpIdRefused()
    ensures SerialOf("A1121604C220002F095022") == Err(WrongCheckDigit)
    ensures SerialOf("A1121604C220002F095025") == Ok(("A11216", 49321218))
  {
    hide *;
    HelpDigit();
    HexTexts();
    HelpFits();
    ReadBody("A11216", 19490, 49321218, '2');
    ReadBody("A11216", 19490, 49321218, '5');
    HelpBody();
  }

  lemma HelpFits()
    ensures Fits("A11216", 19490, 49321218) && IsPlain(['2']) && IsPlain(['5'])
  {
  }

  lemma HelpBody()
    ensures Body("A11216", 19490, 49321218) + ['2'] == "A1121604C220002F095022"
    ensures Body("A11216", 19490, 49321218) + ['5'] == "A1121604C220002F095025"
  {
    HexTexts();
    hide Padded;
    assert "A11216" + "04C22" + "0002F09502" + ['2'] == "A1121604C220002F095022";
    assert "A11216" + "04C22" + "0002F09502" + ['5'] == "A1121604C220002F095025";
  }

  lemma HelpControl()
    ensures V.AllDigits("6511216019490000049321218")
    ensures V.ReversedDigits("6511216019490000049321218") == [8] + CONTROL[1..]
  {
    var front := "651121601949000004932121";
    assert "6511216019490000049321217" == front + "7" && "6511216019490000049321218" == front + "8";
    KnownControl();
    assert V.AllDigits(front) by { assert forall i | 0 <= i < |front| :: (front + "7")[i] == front[i]; }
    ReversedJoin(front, "7");
    ReversedJoin(front, "8");
    ReversedOne("7", 7);
    ReversedOne("8", 8);
    assert CONTROL == [7] + V.ReversedDigits(front);
    assert CONTROL[1..] == V.ReversedDigits(front);
  }

  lemma HelpDigit()
    ensures LastOf("A11216", 19490, 49321218) == '5'
  {
    hide LastOf, Control, V.CheckDigitOf, V.Checksum, V.ReversedDigits, V.AllDigits, V.Product, V.Permuted;
    ControlsAre();
    HelpControl();
    HelpSum();
    DigitIs("6511216019490000049321218", [8] + CONTROL[1..], 5);
    LastIs("A11216", 19490, 49321218, 5);
  }

  lemma HelpSum()
    ensures V.Checksum([8] + CONTROL[1..], 1) == 5
  {
    hide V.Checksum, V.Product, V.Permuted;
    LastFive();
    var rest := CONTROL[1..];
    assert CONTROL[..25] == [7] + rest;
    V.ChecksumSplit([7], rest, 1);
    V.ChecksumSplit([8], rest, 1);
    V.ChecksumOfOne(7, 1);
    V.ChecksumOfOne(8, 1);
    KnownTurns(V.Checksum(rest, 2));
  }

  lemma KnownTurns(rest: V.Digit)
    requires V.Product(V.Permuted(1, 7), rest) == 4
    ensures V.Product(V.Permuted(1, 8), rest) == 5
  {
  }
}
