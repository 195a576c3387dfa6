/** The 22-character tax id and the `inno` serial, and the reading of a serial back out of
    a tax id.  Layout: memoryId(6) | hex day(5) | hex serial(10) | check digit(1).
 */
module TaxId {
  import opened Results
  import opened Text
  import V = Verhoeff

  const TAX_ID_LENGTH := 22
  const MAX_SERIAL := 0xFF_FFFF_FFFF
  const MAX_DAY := 0xF_FFFF
  const SECONDS_PER_DAY := 86_400

  datatype TaxIdError = BadMemoryId | NegativeSerial | SerialTooLarge | DayOutOfRange

  // ---- Generation -------------------------------------------------------------------

  predicate IsAlnum(ch: char)
  {
    '0' <= ch <= '9' || 'A' <= ch <= 'Z' || 'a' <= ch <= 'z'
  }

  predicate IsMemoryId(memory: string)
  {
    |memory| == 6 && forall i | 0 <= i < 6 :: IsAlnum(memory[i])
  }

  /** Whole days since the epoch of an instant in seconds; floors before it too. */
  function Day(instant: real): int
  {
    instant.Floor / SECONDS_PER_DAY
  }

  /** Digits stand for themselves, any other character for its code point in decimal. */
  function Decimalise(memory: string): string
  {
    if memory == "" then ""
    else
      (if memory[0] in "0123456789" then [memory[0]] else Render(memory[0] as nat, 10))
      + Decimalise(memory[1..])
  }

  /** A number with at least `width` characters, the minus sign counted among them. */
  function Decimal(n: int, width: nat): string
  {
    if n >= 0 then Padded(n, 10, width)
    else "-" + Padded(-n, 10, if width > 0 then width - 1 else 0)
  }

  /** The text the check digit is computed over. */
  function Control(memory: string, day: int, serial: int): string
  {
    Decimalise(memory) + Decimal(day, 6) + Decimal(serial, 12)
  }

  function SerialFault(serial: int): Option<TaxIdError>
  {
    if serial < 0 then Some(NegativeSerial)
    else if serial > MAX_SERIAL then Some(SerialTooLarge)
    else None
  }

  /** The `inno` field. */
  function InvoiceSerialHex(serial: int): Result<string, TaxIdError>
  {
    match SerialFault(serial)
    case Some(fault) => Err(fault)
    case None => Ok(Padded(serial, 16, 10))
  }

  function Body(memory: string, day: nat, serial: nat): string
  {
    memory + Padded(day, 16, 5) + Padded(serial, 16, 10)
  }

  function GenerateTaxId(memoryId: string, serial: int, issuedAt: real): Result<string, TaxIdError>
  {
    if !IsMemoryId(memoryId) then Err(BadMemoryId)
    else
      var memory := Upper(memoryId);
      match SerialFault(serial)
      case Some(fault) => Err(fault)
      case None =>
        var day := Day(issuedAt);
        if !(0 <= day <= MAX_DAY) then Err(DayOutOfRange)
        else
          Ok(Body(memory, day, serial) + [LastOf(memory, day, serial)])
  }

  /** The check digit of an id. */
  function LastOf(memory: string, day: nat, serial: nat): (ch: char)
    requires memory != ""
    ensures V.IsAsciiDigit(ch)
  {
    ControlIsNumber(memory, day, serial);
    V.DigitChar(V.CheckDigitOf(Control(memory, day, serial)).value)
  }

  // ---- Control texts are numbers -----------------------------------------------------

  lemma PaddedIsNumber(n: nat, width: nat)
    ensures V.AllDigits(Padded(n, 10, width))
  {
    forall i | 0 <= i < |Padded(n, 10, width)|
      ensures V.IsAsciiDigit(Padded(n, 10, width)[i])
    {
      var ch := Padded(n, 10, width)[i];
      assert ch in DIGITS[..10];
    }
  }

  lemma {:induction false} DecimaliseIsNumber(memory: string)
    ensures V.AllDigits(Decimalise(memory))
    ensures memory != "" ==> Decimalise(memory) != ""
  {
    if memory != "" {
      DecimaliseIsNumber(memory[1..]);
      if memory[0] !in "0123456789" {
        PaddedIsNumber(memory[0] as nat, 0);
      }
    }
  }

  lemma ControlIsNumber(memory: string, day: nat, serial: nat)
    requires memory != ""
    ensures V.AllDigits(Control(memory, day, serial)) && Control(memory, day, serial) != ""
    ensures V.CheckDigitOf(Control(memory, day, serial)).Ok?
  {
    DecimaliseIsNumber(memory);
    PaddedIsNumber(day, 6);
    PaddedIsNumber(serial, 12);
  }

  lemma ControlIs(memory: string, day: nat, serial: nat)
    ensures Control(memory, day, serial) == Decimalise(memory) + Padded(day, 10, 6) + Padded(serial, 10, 12)
  {
    hide Decimalise, Padded;
  }

  // ---- What an id says ---------------------------------------------------------------

  lemma Powers()
    ensures Power(16, 5) == MAX_DAY + 1
    ensures Power(16, 10) == MAX_SERIAL + 1
  {
    assert Power(16, 3) == 4096;
    assert Power(16, 5) == 16 * (16 * Power(16, 3));
    assert Power(16, 8) == 16 * (16 * (16 * Power(16, 5)));
    assert Power(16, 10) == 16 * (16 * Power(16, 8));
  }

  lemma Segments(memory: string, day: string, serial: string, last: char)
    requires |memory| == 6 && |day| == 5 && |serial| == 10
    ensures var id := memory + day + serial + [last];
      && |id| == 22
      && id[..6] == memory && id[6..11] == day && id[11..21] == serial && id[6..21] == day + serial
      && id[21] == last
  {
    var id := memory + day + serial + [last];
    assert id[..6] == memory;
    assert id[6..11] == day;
    assert id[11..21] == serial;
    assert id[6..21] == day + serial;
  }

  /** An id is 22 characters; its serial segment is the `inno` set with it. */
  lemma Shape(memoryId: string, serial: int, issuedAt: real)
    requires GenerateTaxId(memoryId, serial, issuedAt).Ok?
    ensures var id := GenerateTaxId(memoryId, serial, issuedAt).value;
      && |id| == TAX_ID_LENGTH
      && id[..6] == Upper(memoryId)
      && id[6..11] == Padded(Day(issuedAt), 16, 5)
      && InvoiceSerialHex(serial) == Ok(id[11..21])
      && AllHex(id[6..11]) && Value(id[6..11], 16) == Day(issuedAt)
      && AllHex(id[11..21]) && Value(id[11..21], 16) == serial
  {
    hide Padded, Value, Control, V.CheckDigitOf, Power, Upper, Render;
    Powers();
    var memory, day := Upper(memoryId), Day(issuedAt);
    PaddedExactly(day, 16, 5);
    PaddedExactly(serial, 16, 10);
    ValueOfPadded(day, 16, 5);
    ValueOfPadded(serial, 16, 10);
    Segments(memory, Padded(day, 16, 5), Padded(serial, 16, 10), LastOf(memory, day, serial));
    assert GenerateTaxId(memoryId, serial, issuedAt).value == Body(memory, day, serial) + [LastOf(memory, day, serial)];
  }

  /** Generation succeeds exactly on a six-character alphanumeric memory, a serial of ten hex
      digits and a day of five. */
  lemma GeneratedWhen(memoryId: string, serial: int, issuedAt: real)
    ensures GenerateTaxId(memoryId, serial, issuedAt).Ok?
       <==> IsMemoryId(memoryId) && 0 <= serial <= MAX_SERIAL && 0 <= Day(issuedAt) <= MAX_DAY
  {
  }

  /** Two ids are equal exactly when memory (up to case), serial and day all are. */
  lemma SameIdIff(m: string, s: int, t: real, m': string, s': int, t': real)
    requires GenerateTaxId(m, s, t).Ok? && GenerateTaxId(m', s', t').Ok?
    ensures GenerateTaxId(m, s, t) == GenerateTaxId(m', s', t')
       <==> Upper(m) == Upper(m') && s == s' && Day(t) == Day(t')
  {
    Shape(m, s, t);
    Shape(m', s', t');
  }

  /** The day of an invoice dated in milliseconds, whatever the time of day. */
  lemma DayOfMillis(millis: int)
    ensures Day(millis as real / 1000.0) == millis / 86_400_000
  {
    var seconds := (millis as real / 1000.0).Floor;
    assert seconds == millis / 1000 by { FloorOfThousandth(millis); }
  }

  lemma FloorOfThousandth(millis: int)
    ensures (millis as real / 1000.0).Floor == millis / 1000
  {
    var q, r := millis / 1000, millis % 1000;
    assert millis == 1000 * q + r;
    assert millis as real / 1000.0 == q as real + r as real / 1000.0;
  }

  // ---- Reading a serial back ---------------------------------------------------------

  datatype SerialError = WrongLength | NotHex | BadControl(why: V.NumberError) | WrongCheckDigit

  /** The fiscal memory and the serial in a tax id as typed. */
  function SerialOf(typed: string): Result<(string, int), SerialError>
  {
    SerialOfNormal(Upper(Strip(typed)))
  }

  function SerialOfNormal(id: string): Result<(string, int), SerialError>
  {
    if |id| != TAX_ID_LENGTH then Err(WrongLength)
    else
      match (ReadHex(id[6..11]), ReadHex(id[11..21]))
      case (Some(day), Some(serial)) => Checked(id[..6], day, serial, id[21])
      case _ => Err(NotHex)
  }

  function Checked(memory: string, day: int, serial: int, last: char): Result<(string, int), SerialError>
  {
    match V.CheckDigitOf(Control(memory, day, serial))
    case Err(why) => Err(BadControl(why))
    case Ok(expected) => if last != V.DigitChar(expected) then Err(WrongCheckDigit) else Ok((memory, serial))
  }

  lemma CheckedWhen(memory: string, day: nat, serial: nat, last: char)
    requires memory != ""
    ensures Checked(memory, day, serial, last)
         == if last == LastOf(memory, day, serial) then Ok((memory, serial)) else Err(WrongCheckDigit)
  {
    ControlIsNumber(memory, day, serial);
  }

  /** Upper-case letters and digits, which normalising leaves alone. */
  predicate IsPlain(s: string)
  {
    forall i | 0 <= i < |s| :: '0' <= s[i] <= '9' || 'A' <= s[i] <= 'Z'
  }

  lemma PlainIsNormal(s: string)
    requires IsPlain(s)
    ensures Strip(s) == s && Upper(s) == s
  {
    if s != "" {
      assert !IsSpace(s[0]) && !IsSpace(s[|s| - 1]);
    }
  }

  lemma GeneratedIsPlain(memoryId: string, serial: int, issuedAt: real)
    requires GenerateTaxId(memoryId, serial, issuedAt).Ok?
    ensures IsPlain(GenerateTaxId(memoryId, serial, issuedAt).value)
  {
    hide *;
    var id := GenerateTaxId(memoryId, serial, issuedAt).value;
    Shape(memoryId, serial, issuedAt);
    GeneratedFrom(memoryId, serial, issuedAt);
    UpperIsPlain(memoryId);
    HexJoin(id);
    PlainParts(id);
  }

  lemma HexJoin(id: string)
    requires |id| == TAX_ID_LENGTH && AllHex(id[6..11]) && AllHex(id[11..21])
    ensures AllHex(id[6..21])
  {
    assert id[6..21] == id[6..11] + id[11..21];
  }

  lemma UpperIsPlain(memoryId: string)
    requires IsMemoryId(memoryId)
    ensures IsPlain(Upper(memoryId))
  {
  }

  lemma GeneratedFrom(memoryId: string, serial: int, issuedAt: real)
    requires GenerateTaxId(memoryId, serial, issuedAt).Ok?
    ensures IsMemoryId(memoryId) && 0 <= serial <= MAX_SERIAL && 0 <= Day(issuedAt) <= MAX_DAY
    ensures var id := GenerateTaxId(memoryId, serial, issuedAt).value;
      |id| == 22 && id[21] == LastOf(Upper(memoryId), Day(issuedAt), serial)
  {
    Shape(memoryId, serial, issuedAt);
    var id := GenerateTaxId(memoryId, serial, issuedAt).value;
    assert |Body(Upper(memoryId), Day(issuedAt), serial)| == 21;
  }

  /** Every id generated reads back as its memory and its serial, including serials and days
      too long for the padding of the control text. */
  lemma SerialOfGenerated(memoryId: string, serial: int, issuedAt: real)
    requires GenerateTaxId(memoryId, serial, issuedAt).Ok?
    ensures SerialOf(GenerateTaxId(memoryId, serial, issuedAt).value) == Ok((Upper(memoryId), serial))
  {
    var id := GenerateTaxId(memoryId, serial, issuedAt).value;
    hide *;
    Shape(memoryId, serial, issuedAt);
    GeneratedFrom(memoryId, serial, issuedAt);
    GeneratedIsPlain(memoryId, serial, issuedAt);
    PlainIsNormal(id);
    ReadHexOfHex(id[6..11]);
    ReadHexOfHex(id[11..21]);
    CheckedWhen(Upper(memoryId), Day(issuedAt), serial, id[21]);
    ReadNormal(id, Upper(memoryId), Day(issuedAt), serial);
  }

  lemma ReadNormal(id: string, memory: string, day: int, serial: int)
    requires Strip(id) == id && Upper(id) == id && |id| == TAX_ID_LENGTH
    requires id[..6] == memory && ReadHex(id[6..11]) == Some(day) && ReadHex(id[11..21]) == Some(serial)
    ensures SerialOf(id) == Checked(memory, day, serial, id[21])
  {
    hide ReadHex, Checked, Strip, Upper;
  }

  /** Whatever is read back is a serial a counter may hold. */
  lemma SerialInRange(typed: string)
    requires SerialOf(typed).Ok?
    ensures |SerialOf(typed).value.0| == 6
    ensures 0 <= SerialOf(typed).value.1 <= MAX_SERIAL
  {
    hide ReadHex, Strip, Upper, Decimal, Decimalise, Power, V.CheckDigitOf;
    var id := Upper(Strip(typed));
    var day, serial := ReadHex(id[6..11]).value, ReadHex(id[11..21]).value;
    Powers();
    ReadHexBelow(id[11..21]);
    CheckedIsNumber(id[..6], day, serial, id[21]);
    if serial < 0 {
      NegativeIsNoNumber(Decimalise(id[..6]) + Decimal(day, 6), serial, 12);
    }
  }

  lemma CheckedIsNumber(memory: string, day: int, serial: int, last: char)
    requires Checked(memory, day, serial, last).Ok?
    ensures V.AllDigits(Decimalise(memory) + Decimal(day, 6) + Decimal(serial, 12))
  {
    hide Decimal, Decimalise, V.Checksum;
  }

  lemma NegativeIsNoNumber(before: string, n: int, width: nat)
    requires n < 0
    ensures !V.AllDigits(before + Decimal(n, width))
  {
    var whole := before + Decimal(n, width);
    assert whole[|before|] == '-';
  }

  /** A text laid out as an id: upper-case memory, hex day and serial, any last character. */
  predicate LaidOut(id: string)
  {
    && |id| == TAX_ID_LENGTH
    && IsMemoryId(id[..6]) && Upper(id[..6]) == id[..6]
    && AllHex(id[6..21])
  }

  /** Among texts laid out as ids, exactly the ids that can be generated are read. */
  lemma ReadIffGenerated(id: string)
    requires LaidOut(id)
    ensures SerialOf(id).Ok?
       <==> exists serial: nat, day: nat :: GenerateTaxId(id[..6], serial, DayStart(day)) == Ok(id)
  {
    if exists serial: nat, day: nat :: GenerateTaxId(id[..6], serial, DayStart(day)) == Ok(id) {
      var serial: nat, day: nat :| GenerateTaxId(id[..6], serial, DayStart(day)) == Ok(id);
      SerialOfGenerated(id[..6], serial, DayStart(day));
    }
    if SerialOf(id).Ok? {
      ReadIsGenerated(id);
    }
  }

  /** The first instant of a day. */
  function DayStart(day: nat): (instant: real)
    ensures Day(instant) == day
  {
    (day * SECONDS_PER_DAY) as real
  }

  lemma LaidOutIsNormal(id: string)
    requires LaidOut(id) && SerialOf(id).Ok?
    ensures Upper(Strip(id)) == id
  {
    hide ReadHex, LastOf, Control, V.CheckDigitOf, StripLeft, StripRight;
    assert IsPlain(id[..6]) by {
      forall i | 0 <= i < 6
        ensures '0' <= id[..6][i] <= '9' || 'A' <= id[..6][i] <= 'Z'
      {
        assert IsAlnum(id[..6][i]) && Upper(id[..6])[i] == UpperChar(id[..6][i]);
      }
    }
    StripKeepsStart(id);
    assert V.IsAsciiDigit(Upper(id)[21]);
    assert V.IsAsciiDigit(id[21]);
    PlainParts(id);
    PlainIsNormal(id);
  }

  lemma PlainParts(id: string)
    requires |id| == 22 && IsPlain(id[..6]) && AllHex(id[6..21]) && V.IsAsciiDigit(id[21])
    ensures IsPlain(id)
  {
    forall i | 0 <= i < 22
      ensures '0' <= id[i] <= '9' || 'A' <= id[i] <= 'Z'
    {
      if i < 6 {
        assert id[i] == id[..6][i];
      } else if i < 21 {
        assert id[i] == id[6..21][i - 6];
      }
    }
  }

  /** A text of full length after stripping had nothing to strip. */
  lemma StripKeepsStart(s: string)
    requires |Strip(s)| == |s|
    ensures Strip(s) == s
  {
    assert |StripLeft(s)| == |s|;
  }

  lemma ReadIsGenerated(id: string)
    requires LaidOut(id) && SerialOf(id).Ok?
    ensures exists serial: nat, day: nat :: GenerateTaxId(id[..6], serial, DayStart(day)) == Ok(id)
  {
    hide LastOf, Padded, SerialOf, Upper;
    var day, serial := ReadParts(id);
    assert id == id[..6] + id[6..11] + id[11..21] + [id[21]];
    assert GenerateTaxId(id[..6], serial, DayStart(day)) == Ok(id);
  }

  lemma ReadParts(id: string) returns (day: nat, serial: nat)
    requires LaidOut(id) && SerialOf(id).Ok?
    ensures day <= MAX_DAY && serial <= MAX_SERIAL
    ensures Padded(day, 16, 5) == id[6..11] && Padded(serial, 16, 10) == id[11..21]
    ensures id[21] == LastOf(id[..6], day, serial)
  {
    hide ReadHex, Value, Padded, Power, Strip, Upper, Checked, LastOf;
    LaidOutIsNormal(id);
    var dayText, serialText := id[6..11], id[11..21];
    assert dayText == id[6..21][..5] && serialText == id[6..21][5..];
    assert AllHex(dayText) && AllHex(serialText);
    ReadHexOfHex(dayText);
    ReadHexOfHex(serialText);
    day, serial := Value(dayText, 16), Value(serialText, 16);
    CheckedWhen(id[..6], day, serial, id[21]);
    Powers();
    ValueBelow(dayText);
    ValueBelow(serialText);
    PaddedOfValue(dayText);
    PaddedOfValue(serialText);
  }

  // ---- As typed ---------------------------------------------------------------------------------------

  /** The same text, some of whose letters may be lower case. */
  predicate SameLetters(typed: string, id: string)
  {
    && |typed| == |id|
    && forall i | 0 <= i < |id| ::
         typed[i] == id[i] || ('A' <= id[i] <= 'Z' && typed[i] as int == id[i] as int + 32)
  }

  predicate Blank(s: string)
  {
    forall i | 0 <= i < |s| :: s[i] == ' ' || s[i] == '\t' || s[i] == '\n'
  }

  lemma {:induction false} StripLeftBlank(before: string, s: string)
    requires Blank(before) && s != "" && !IsSpace(s[0])
    ensures StripLeft(before + s) == s
  {
    if before == "" {
      assert before + s == s;
    } else {
      assert (before + s)[1..] == before[1..] + s;
      StripLeftBlank(before[1..], s);
    }
  }

  lemma {:induction false} StripRightBlank(s: string, after: string)
    requires Blank(after) && s != "" && !IsSpace(s[|s| - 1])
    ensures StripRight(s + after) == s
  {
    if after == "" {
      assert s + after == s;
    } else {
      assert (s + after)[..|s + after| - 1] == s + after[..|after| - 1];
      StripRightBlank(s, after[..|after| - 1]);
    }
  }

  /** A generated id may be typed in either case and with blanks around it. */
  lemma ReadAsTyped(memoryId: string, serial: int, issuedAt: real, before: string, typed: string, after: string)
    requires GenerateTaxId(memoryId, serial, issuedAt).Ok? && Blank(before) && Blank(after)
    requires SameLetters(typed, GenerateTaxId(memoryId, serial, issuedAt).value)
    ensures SerialOf(before + typed + after) == Ok((Upper(memoryId), serial))
  {
    hide *;
    var id := GenerateTaxId(memoryId, serial, issuedAt).value;
    GeneratedIsPlain(memoryId, serial, issuedAt);
    GeneratedFrom(memoryId, serial, issuedAt);
    SerialOfGenerated(memoryId, serial, issuedAt);
    PlainIsNormal(id);
    TypedIs(typed, id);
    assert before + typed + after == before + (typed + after);
    StripLeftBlank(before, typed + after);
    StripRightBlank(typed, after);
    ReadStripped(before + typed + after, typed, id);
  }

  lemma ReadStripped(text: string, typed: string, id: string)
    requires StripRight(StripLeft(text)) == typed && Upper(typed) == id && Strip(id) == id && Upper(id) == id
    ensures SerialOf(text) == SerialOf(id)
  {
    hide SerialOfNormal, StripLeft, StripRight, Upper;
  }

  lemma TypedIs(typed: string, id: string)
    requires SameLetters(typed, id) && IsPlain(id) && id != ""
    ensures Upper(typed) == id && !IsSpace(typed[0]) && !IsSpace(typed[|typed| - 1])
  {
  }
}
