/** What a counter and its repair tool do when nothing interferes, and what they refuse. */
module CounterLaws {
  import opened Results
  import opened TaxId
  import opened CounterFile
  import opened CounterProtocol
  import opened SerialCounter
  import opened Recovery
  import Text

  // ---- Calls in turn -------------------------------------------------------------------------------

  /** Calls 1 to `n`, one after the other. */
  function InTurn(n: nat): seq<Step>
  {
    if n == 0 then [] else InTurn(n - 1) + UntilRelease(n)
  }

  /** What a file holds once `n` serials have been drawn from a new one. */
  function HoldsAfter(n: nat): Contents
  {
    if n == 0 then Missing else Number(n)
  }

  /** Calls 1 to `n` have drawn serials 1 to `n`, and nothing else happened. */
  ghost predicate DrewInTurn(s: State, n: nat)
  {
    && s.file == [Entry(HoldsAfter(n), true)] && s.holder.None?
    && (forall c | c in s.calls :: 1 <= c <= n)
    && |s.issued| == n && (forall i | 0 <= i < n :: s.issued[i] == Issue(i + 1, i + 1))
  }

  lemma OneMoreCall(s: State, n: nat)
    requires DrewInTurn(s, n) && n < MAX_SERIAL
    ensures CanDraw(s, n + 1, n + 1)
    ensures DrewInTurn(s.(file := [Entry(Number(n + 1), true)], calls := s.calls[n + 1 := Released(n + 1)],
                          issued := s.issued + [Issue(n + 1, n + 1)]), n + 1)
  {
  }

  /** On a new file the n-th call issues serial n. */
  lemma {:induction false} CallsInTurn(n: nat)
    requires n <= MAX_SERIAL
    ensures Run(Start(Missing), InTurn(n)).Some? && DrewInTurn(Run(Start(Missing), InTurn(n)).value, n)
  {
    if n > 0 {
      hide Run, UntilRelease, DrewInTurn, CanDraw;
      CallsInTurn(n - 1);
      var s := Run(Start(Missing), InTurn(n - 1)).value;
      OneMoreCall(s, n - 1);
      ReleasesAlone(s, n, n);
      RunJoin(Start(Missing), InTurn(n - 1), UntilRelease(n));
    }
  }

  /** And so on up to the last serial that ten hex digits can write; then the counter is exhausted. */
  lemma ExhaustedIff(n: nat)
    requires n <= MAX_SERIAL
    ensures Run(Start(Missing), InTurn(n)).Some?
    ensures NextSerial(Visible(Run(Start(Missing), InTurn(n)).value.file))
         == if n < 0xFF_FFFF_FFFF then Ok(n + 1) else Err(Exhausted)
  {
    hide Run, InTurn;
    CallsInTurn(n);
  }

  // ---- The tool -----------------------------------------------------------------------------------

  /** Without --force the tool only ever raises a counter; whatever it writes is a serial that an id can
      carry. */
  lemma RepairOnlyRaises(memory: string, typed: seq<string>, given: Option<int>, force: bool, visible: Contents)
    requires RepairTarget(memory, typed, given, force, visible).Ok?
    requires RepairTarget(memory, typed, given, force, visible).value.Some?
    ensures ReadContents(visible).Ok?
    ensures var target := RepairTarget(memory, typed, given, force, visible).value.value;
      var current := ReadContents(visible).value;
      && target <= 0xFF_FFFF_FFFF && target != current && (target < current ==> force)
      && (typed == [] ==> given == Some(target))
      && (typed != [] ==> given.None? && Highest(memory, typed) == Ok(target))
  {
    hide Highest;
  }

  /** Run again it finds nothing to do. */
  lemma RepairTwice(memory: string, typed: seq<string>, given: Option<int>, force: bool, visible: Contents)
    requires RepairTarget(memory, typed, given, force, visible).Ok?
    ensures var after := Repaired(RepairTarget(memory, typed, given, force, visible), visible);
      RepairTarget(memory, typed, given, force, after) == Ok(None)
  {
    hide Highest;
  }

  /** A damaged file is refused whatever the tool is asked, forced or not. */
  lemma DamagedNotRepaired(memory: string, typed: seq<string>, given: Option<int>, force: bool, found: Contents)
    requires Damaged(found)
    ensures RepairTarget(memory, typed, given, force, found).Err?
    ensures Repaired(RepairTarget(memory, typed, given, force, found), found) == found
  {
  }

  /** An id filed for one memory never moves the counter of another. */
  lemma ForeignIdRefused(id: string, memory: string, other: string, serial: nat)
    requires FiledAs(id, other, serial) && Text.Upper(other) == other && memory != other
    ensures SerialFor(memory, id) == Err(ForeignMemory(other))
  {
    var day: nat :| GenerateTaxId(other, serial, DayStart(day)) == Ok(id);
    SerialOfGenerated(other, serial, DayStart(day));
    hide SerialOf, GenerateTaxId;
  }

  // ---- A deleted file ------------------------------------------------------------------------------

  /** A file that is simply gone starts over: between calls that is safe exactly when nothing was issued. */
  lemma DeletedFileSafeIff(contents: Contents, steps: seq<Step>)
    requires Run(Start(contents), steps).Some?
    requires var s := Run(Start(contents), steps).value; forall c | c in s.calls :: !s.calls[c].Live()
    ensures var s := Run(Start(contents), steps).value;
      Inv(s.(file := [Entry(Missing, true)])) <==> s.issued == []
  {
    var s := Run(Start(contents), steps).value;
    StartHolds(contents);
    RunKeeps(Start(contents), steps);
    StartBeyondZero(contents);
    BeyondRun(Start(contents), steps, 0);
    assert IssuedBeyond(s, 0);
    hide Run, Inv;
    ReplacedFileKeeps(s, Missing);
    if s.issued != [] {
      assert s.issued[0].serial > 0;
    }
  }

  lemma StartBeyondZero(contents: Contents)
    ensures Beyond(Start(contents), 0)
  {
  }
}
