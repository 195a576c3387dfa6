/** The counter object and the tool that repairs its file. */
module SerialCounter {
  import opened Results
  import opened TaxId
  import opened CounterFile
  import opened CounterProtocol
  import Text

  datatype ToolError =
    | BothGiven
    | CounterRefuses(reason: CounterError)
    | BadTaxId(why: SerialError)
    | ForeignMemory(memory: string)
    | OutOfRange
    | WouldLower

  function Max(a: nat, b: nat): nat
  {
    if a < b then b else a
  }

  // ---- What the tool computes ---------------------------------------------------------------

  /** The serial in one tax id, which must belong to the memory being repaired. */
  function SerialFor(memory: string, typed: string): Result<nat, ToolError>
  {
    match SerialOf(typed)
    case Err(why) => Err(BadTaxId(why))
    case Ok((found, serial)) =>
      SerialInRange(typed);
      if found != memory then Err(ForeignMemory(found)) else Ok(serial)
  }

  /** The highest serial in the tax ids, or the first complaint about one. */
  function Highest(memory: string, typed: seq<string>): Result<nat, ToolError>
  {
    if typed == [] then Ok(0)
    else
      match Highest(memory, typed[..|typed| - 1])
      case Err(e) => Err(e)
      case Ok(best) =>
        match SerialFor(memory, typed[|typed| - 1])
        case Err(e) => Err(e)
        case Ok(serial) => Ok(Max(best, serial))
  }

  /** The value to move the counter to; None when there is nothing to do. */
  function RepairTarget(
    memory: string, typed: seq<string>, given: Option<int>, force: bool, visible: Contents)
    : Result<Option<nat>, ToolError>
  {
    if given.Some? && typed != [] then Err(BothGiven)
    else
      match ReadContents(visible)
      case Err(why) => Err(CounterRefuses(why))
      case Ok(current) =>
        var wanted: Result<Option<int>, ToolError> :=
          if typed == [] then Ok(given)
          else match Highest(memory, typed) case Err(e) => Err(e) case Ok(best) => Ok(Some(best));
        match wanted
        case Err(e) => Err(e)
        case Ok(None) => Ok(None)
        case Ok(Some(target)) =>
          if target < 0 || target > MAX_SERIAL then Err(OutOfRange)
          else if target == current then Ok(None)
          else if target < current && !force then Err(WouldLower)
          else Ok(Some(target))
  }

  // ---- The object ------------------------------------------------------------------------------

  class MonotonicSerialCounter {
    var file: History

    constructor (file: History)
      ensures this.file == file
    {
      this.file := file;
    }

    method Read() returns (r: Result<nat, CounterError>)
      ensures r == ReadContents(Visible(file))
    {
      match Visible(file) {
        case Missing => r := Ok(0);
        case Unreadable => r := Err(UnreadableFile);
        case NotANumber => r := Err(HoldsNoNumber);
        case Number(n) =>
          if n < 0 {
            r := Err(HoldsNegative);
          } else {
            r := Ok(n);
          }
      }
    }

    /** Temp file, sync, rename, directory sync. */
    method Write(serial: nat)
      modifies this
      ensures file == [Entry(Number(serial), true)]
    {
      var temp := Entry(Number(serial), false);
      temp := temp.(synced := true);
      file := file + [temp];
      file := [file[|file| - 1]];
    }

    method Call() returns (r: Result<nat, CounterError>)
      modifies this
      ensures r == NextSerial(old(Visible(file)))
      ensures r.Ok? ==> file == [Entry(Number(r.value), true)]
      ensures r.Err? ==> file == old(file)
    {
      var last := Read();
      if last.Err? {
        return Err(last.error);
      }
      var serial := last.value + 1;
      if serial > MAX_SERIAL {
        return Err(Exhausted);
      }
      Write(serial);
      return Ok(serial);
    }

    /** The last serial issued, without consuming one. */
    method Current() returns (r: Result<nat, CounterError>)
      ensures r == ReadContents(Visible(file))
    {
      r := Read();
    }

    /** The repair tool's run over this counter. */
    method Repair(memory: string, typed: seq<string>, given: Option<int>, force: bool)
      returns (r: Result<Option<nat>, ToolError>)
      modifies this
      ensures r == RepairTarget(memory, typed, given, force, old(Visible(file)))
      ensures file == if r.Ok? && r.value.Some? then [Entry(Number(r.value.value), true)] else old(file)
    {
      hide SerialFor;
      if given.Some? && typed != [] {
        return Err(BothGiven);
      }
      var current := Current();
      if current.Err? {
        return Err(CounterRefuses(current.error));
      }
      var target := given;
      if typed != [] {
        var best: nat := 0;
        for i := 0 to |typed|
          invariant Highest(memory, typed[..i]) == Ok(best)
        {
          assert typed[..i + 1][..i] == typed[..i];
          var serial := SerialFor(memory, typed[i]);
          if serial.Err? {
            FirstComplaint(memory, typed, i + 1);
            return Err(serial.error);
          }
          best := Max(best, serial.value);
        }
        assert typed[..|typed|] == typed;
        target := Some(best);
      }
      if target.None? {
        return Ok(None);
      }
      if target.value < 0 || target.value > MAX_SERIAL {
        return Err(OutOfRange);
      }
      if target.value == current.value {
        return Ok(None);
      }
      if target.value < current.value && !force {
        return Err(WouldLower);
      }
      Write(target.value);
      return Ok(Some(target.value));
    }
  }

  /** A complaint about an early id is the tool's answer, whatever follows. */
  lemma {:induction false} FirstComplaint(memory: string, typed: seq<string>, n: nat)
    requires n <= |typed| && Highest(memory, typed[..n]).Err?
    ensures Highest(memory, typed) == Highest(memory, typed[..n])
    decreases |typed|
  {
    if n == |typed| {
      assert typed[..n] == typed;
    } else {
      var front := typed[..|typed| - 1];
      assert front[..n] == typed[..n];
      FirstComplaint(memory, front, n);
    }
  }

  // ---- What the tool guarantees -------------------------------------------------------------------

  lemma SerialForInRange(memory: string, typed: string)
    requires SerialFor(memory, typed).Ok?
    ensures SerialFor(memory, typed).value <= MAX_SERIAL
  {
    SerialInRange(typed);
  }

  /** The highest serial is an upper bound of all of them, and one of them. */
  lemma {:induction false} HighestIsMaximum(memory: string, typed: seq<string>)
    requires Highest(memory, typed).Ok?
    ensures forall i | 0 <= i < |typed| ::
      SerialFor(memory, typed[i]).Ok? && SerialFor(memory, typed[i]).value <= Highest(memory, typed).value
    ensures typed != [] ==> exists i | 0 <= i < |typed| :: SerialFor(memory, typed[i]) == Highest(memory, typed)
    ensures Highest(memory, typed).value <= MAX_SERIAL
  {
    hide SerialFor;
    if typed != [] {
      var front := typed[..|typed| - 1];
      HighestIsMaximum(memory, front);
      SerialForInRange(memory, typed[|typed| - 1]);
      assert forall i | 0 <= i < |front| :: typed[i] == front[i];
      var last := SerialFor(memory, typed[|typed| - 1]).value;
      if front != [] && Highest(memory, front).value > last {
        var i :| 0 <= i < |front| && SerialFor(memory, front[i]) == Highest(memory, front);
        assert SerialFor(memory, typed[i]) == Highest(memory, typed);
      }
    }
  }

  /** A tax id the program generated, for a memory and a serial. */
  ghost predicate FiledAs(id: string, memory: string, serial: nat)
  {
    exists day: nat :: GenerateTaxId(memory, serial, DayStart(day)) == Ok(id)
  }

  lemma FiledSerial(id: string, memory: string, serial: nat)
    requires FiledAs(id, memory, serial) && Text.Upper(memory) == memory
    ensures SerialFor(memory, id) == Ok(serial)
  {
    var day: nat :| GenerateTaxId(memory, serial, DayStart(day)) == Ok(id);
    SerialOfGenerated(memory, serial, DayStart(day));
  }

  /** The counter's contents after a run of the tool. */
  function Repaired(outcome: Result<Option<nat>, ToolError>, before: Contents): Contents
  {
    if outcome.Ok? && outcome.value.Some? then Number(outcome.value.value) else before
  }

  /** Among the texts is a tax id filed for each serial issued. */
  ghost predicate AllFiled(memory: string, typed: seq<string>, issued: seq<Issue>)
  {
    forall i | 0 <= i < |issued| :: exists k :: 0 <= k < |typed| && FiledAs(typed[k], memory, issued[i].serial)
  }

  /** Recovery.  Given the ids of an upper-case memory, among them one for every serial ever
      issued, the tool without --force leaves a counter that covers every one of those serials,
      whatever the file held; if the file could not be read the counter goes on refusing. */
  lemma RepairCovers(memory: string, typed: seq<string>, visible: Contents, issued: seq<Issue>)
    requires typed != [] && AllFiled(memory, typed, issued)
    requires Text.Upper(memory) == memory
    requires forall k | 0 <= k < |typed| :: SerialFor(memory, typed[k]).Ok?
    ensures var after := Repaired(RepairTarget(memory, typed, None, false, visible), visible);
      && (forall i | 0 <= i < |issued| :: Covers(after, issued[i].serial))
      && (ReadContents(after).Ok? <==> ReadContents(visible).Ok?)
  {
    hide SerialFor, FiledAs, Highest;
    NoComplaint(memory, typed);
    HighestIsMaximum(memory, typed);
    forall i | 0 <= i < |issued|
      ensures issued[i].serial <= Highest(memory, typed).value
    {
      var k :| 0 <= k < |typed| && FiledAs(typed[k], memory, issued[i].serial);
      FiledSerial(typed[k], memory, issued[i].serial);
    }
  }

  lemma {:induction false} NoComplaint(memory: string, typed: seq<string>)
    requires forall k | 0 <= k < |typed| :: SerialFor(memory, typed[k]).Ok?
    ensures Highest(memory, typed).Ok?
  {
    if typed != [] {
      NoComplaint(memory, typed[..|typed| - 1]);
    }
  }

  /** Which is why the memory must be upper case: the tool reads ids in upper case, and takes a
      memory given in any other form for a different one. */
  lemma RecoverableIffUpperCase(id: string, memory: string, serial: nat)
    requires FiledAs(id, memory, serial)
    ensures SerialFor(memory, id).Ok? <==> Text.Upper(memory) == memory
  {
    var day: nat :| GenerateTaxId(memory, serial, DayStart(day)) == Ok(id);
    SerialOfGenerated(memory, serial, DayStart(day));
  }

  /** The state in which the file has been repaired from the ids: it held `lost` before. */
  function Recovered(s: State, memory: string, typed: seq<string>, lost: Contents): State
  {
    s.(file := [Entry(Repaired(RepairTarget(memory, typed, None, false, lost), lost), true)])
  }

  /** Losing the file, repairing it from the filed ids and going on, when an id was filed under every
      serial issued: over both runs together no serial is issued twice.  `lost` is whatever the file
      holds when the tool is run, `typed` the ids it is run on; no call is in flight then. */
  lemma RecoveredRunsNeverRepeat(
    memory: string, contents: Contents, before: seq<Step>, s: State, lost: Contents, typed: seq<string>,
    after: seq<Step>, end: State)
    requires Run(Start(contents), before) == Some(s)
    requires forall c | c in s.calls :: !s.calls[c].Live()
    requires typed != [] && AllFiled(memory, typed, s.issued) && Text.Upper(memory) == memory
    requires forall k | 0 <= k < |typed| :: SerialFor(memory, typed[k]).Ok?
    requires Run(Recovered(s, memory, typed, lost), after) == Some(end)
    ensures s.issued <= end.issued && Increasing(end.issued)
    ensures forall i, j | 0 <= i < j < |end.returned| :: end.returned[i].serial != end.returned[j].serial
  {
    hide SerialFor, AllFiled, RepairTarget;
    StartHolds(contents);
    RunKeeps(Start(contents), before);
    RepairCovers(memory, typed, lost, s.issued);
    ReplacedFileKeeps(s, Repaired(RepairTarget(memory, typed, None, false, lost), lost));
    var resumed := Recovered(s, memory, typed, lost);
    RunKeeps(resumed, after);
    RunExtends(resumed, after, 0);
    assert after[..0] == [];
    NeverRepeats(end);
  }

  /** The object's call does to the file what a call of the protocol does when left alone. */
  lemma CallIsTheProtocolAlone(s: State, c: nat)
    requires s.holder.None? && c !in s.calls
    ensures NextSerial(Visible(s.file)).Ok? ==>
      var serial := NextSerial(Visible(s.file)).value;
      && Run(s, UntilRelease(c)).Some?
      && Run(s, UntilRelease(c)).value.file == [Entry(Number(serial), true)]
      && Run(s, UntilRelease(c)).value.calls[c] == Released(serial)
    ensures NextSerial(Visible(s.file)).Err? ==>
      && Run(s, [Begin(c), Acquire(c), ReadFile(c)]).Some?
      && Run(s, [Begin(c), Acquire(c), ReadFile(c)]).value.file == s.file
      && Run(s, [Begin(c), Acquire(c), ReadFile(c)]).value.calls[c] == Failed
  {
    if NextSerial(Visible(s.file)).Ok? {
      ReleasesAlone(s, c, NextSerial(Visible(s.file)).value);
    } else {
      RunSnoc(s, [], Begin(c));
      RunSnoc(s, [Begin(c)], Acquire(c));
      RunSnoc(s, [Begin(c), Acquire(c)], ReadFile(c));
      assert [Begin(c)] + [Acquire(c)] == [Begin(c), Acquire(c)];
      assert [Begin(c), Acquire(c)] + [ReadFile(c)] == [Begin(c), Acquire(c), ReadFile(c)];
      assert [] + [Begin(c)] == [Begin(c)];
    }
  }
}
