/** Issuing serials while calls interleave, processes die and power fails.

    Every call opens its own lock file handle, so the advisory lock excludes all calls, in one
    process or in several, whichever counter object they come through.  The lock a counter
    object keeps for its own threads only forbids more interleavings and is not needed.
 */
module CounterProtocol {
  import opened Results
  import opened TaxId
  import opened CounterFile

  /** One call of the counter, by how far it has come. */
  datatype Phase =
    | Waiting
    | Locked
    | Drawn(serial: nat)
    | Written(serial: nat)
    | Synced(serial: nat)
    | Renamed(serial: nat)
    | Durable(serial: nat)
    | Released(serial: nat)
    | Returned(serial: nat)
    | Failed
    | Killed
  {
    /** Inside the locked section. */
    predicate Holding()
    {
      Locked? || Drawn? || Written? || Synced? || Renamed? || Durable?
    }

    predicate Live()
    {
      Waiting? || Holding() || Released?
    }
  }

  datatype Issue = Issue(call: nat, serial: nat)

  /** `issued` lists serials in the order the lock was released, `returned` in the order the
      callers received them. */
  datatype State = State(
    file: History, holder: Option<nat>, calls: map<nat, Phase>, issued: seq<Issue>, returned: seq<Issue>)

  datatype Step =
    | Begin(call: nat)
    | Acquire(call: nat)
    | ReadFile(call: nat)
    | WriteTemp(call: nat)
    | SyncTemp(call: nat)
    | Rename(call: nat)
    | SyncDirectory(call: nat)
    | Release(call: nat)
    | Return(call: nat)
    | Fail(call: nat)
    | Kill(call: nat)
    | PowerLoss(survivor: nat, garbage: Contents)
    | Repair(target: nat, directorySynced: bool)
    | Damage(found: Contents)

  function Set(s: State, call: nat, phase: Phase): State
  {
    s.(calls := s.calls[call := phase])
  }

  /** The call leaves the locked section, if it was in it. */
  function Leave(s: State, call: nat, phase: Phase): State
  {
    Set(s, call, phase).(holder := if s.holder == Some(call) then None else s.holder)
  }

  function PhaseOf(s: State, call: nat): Option<Phase>
  {
    if call in s.calls then Some(s.calls[call]) else None
  }

  predicate InFlight(s: State, call: nat)
  {
    call in s.calls && s.calls[call].Live()
  }

  /** The state after a step, or None where the step cannot be taken. */
  function Apply(s: State, step: Step): Option<State>
  {
    match step
    case Begin(c) =>
      if c in s.calls then None else Some(Set(s, c, Waiting))
    case Acquire(c) =>
      if PhaseOf(s, c) == Some(Waiting) && s.holder.None? then Some(Set(s, c, Locked).(holder := Some(c))) else None
    case ReadFile(c) =>
      if PhaseOf(s, c) != Some(Locked) then None
      else
        (match NextSerial(Visible(s.file))
         case Ok(serial) => Some(Set(s, c, Drawn(serial)))
         case Err(_) => Some(Leave(s, c, Failed)))
    case WriteTemp(c) =>
      (match PhaseOf(s, c)
       case Some(Drawn(serial)) => Some(Set(s, c, Written(serial)))
       case _ => None)
    case SyncTemp(c) =>
      (match PhaseOf(s, c)
       case Some(Written(serial)) => Some(Set(s, c, Synced(serial)))
       case _ => None)
    case Rename(c) =>
      (match PhaseOf(s, c)
       case Some(Synced(serial)) =>
         Some(Set(s, c, Renamed(serial)).(file := s.file + [Entry(Number(serial), true)]))
       case _ => None)
    case SyncDirectory(c) =>
      (match PhaseOf(s, c)
       case Some(Renamed(serial)) => Some(Set(s, c, Durable(serial)).(file := [s.file[|s.file| - 1]]))
       case _ => None)
    case Release(c) =>
      (match PhaseOf(s, c)
       case Some(Durable(serial)) =>
         Some(Leave(s, c, Released(serial)).(issued := s.issued + [Issue(c, serial)]))
       case _ => None)
    case Return(c) =>
      (match PhaseOf(s, c)
       case Some(Released(serial)) =>
         Some(Set(s, c, Returned(serial)).(returned := s.returned + [Issue(c, serial)]))
       case _ => None)
    case Fail(c) =>
      if InFlight(s, c) && !s.calls[c].Released? then Some(Leave(s, c, Failed)) else None
    case Kill(c) =>
      if InFlight(s, c) then Some(Leave(s, c, Killed)) else None
    case PowerLoss(survivor, garbage) =>
      if survivor >= |s.file| then None
      else
        var kept := s.file[survivor];
        Some(s.(file := [Entry(if kept.synced then kept.contents else garbage, true)],
                holder := None,
                calls := map c | c in s.calls :: if s.calls[c].Live() then Killed else s.calls[c]))
    case Repair(target, directorySynced) =>
      if (exists c | c in s.calls :: s.calls[c].Live()) then None
      else
        (match ReadContents(Visible(s.file))
         case Err(_) => None
         case Ok(current) =>
           if target <= current || target > MAX_SERIAL then None
           else
             var entry := Entry(Number(target), true);
             Some(s.(file := if directorySynced then [entry] else s.file + [entry])))
    case Damage(found) =>
      if !Damaged(found) || exists c | c in s.calls :: s.calls[c].Live() then None
      else Some(s.(file := [Entry(found, true)]))
  }

  /** The state after a run of steps, or None where some step cannot be taken. */
  function Run(s: State, steps: seq<Step>): Option<State>
  {
    if steps == [] then Some(s)
    else
      match Run(s, steps[..|steps| - 1])
      case None => None
      case Some(before) => Apply(before, steps[|steps| - 1])
  }

  /** Nothing called yet; the file holds anything, as long as it is on disk. */
  function Start(contents: Contents): State
  {
    State([Entry(contents, true)], None, map[], [], [])
  }

  // ---- The invariant ---------------------------------------------------------------------

  predicate Increasing(log: seq<Issue>)
  {
    forall i, j | 0 <= i < j < |log| :: log[i].serial < log[j].serial
  }

  predicate Above(serial: nat, log: seq<Issue>)
  {
    forall i | 0 <= i < |log| :: log[i].serial < serial
  }

  /** Whatever survives a power loss is not behind anything issued. */
  ghost predicate FileCovers(s: State)
  {
    forall k, i | 0 <= k < |s.file| && 0 <= i < |s.issued| ::
      Covers(s.file[k].contents, s.issued[i].serial)
  }

  ghost predicate AllSynced(s: State)
  {
    forall k | 0 <= k < |s.file| :: s.file[k].synced
  }

  /** What the call in the locked section knows about the file. */
  ghost predicate HolderKnows(s: State, c: nat)
    requires c in s.calls
  {
    match s.calls[c]
    case Drawn(serial) => NextSerial(Visible(s.file)) == Ok(serial) && Above(serial, s.issued)
    case Written(serial) => NextSerial(Visible(s.file)) == Ok(serial) && Above(serial, s.issued)
    case Synced(serial) => NextSerial(Visible(s.file)) == Ok(serial) && Above(serial, s.issued)
    case Renamed(serial) => Visible(s.file) == Number(serial) && Above(serial, s.issued)
    case Durable(serial) => s.file == [Entry(Number(serial), true)] && Above(serial, s.issued)
    case _ => true
  }

  ghost predicate LockHeld(s: State)
  {
    forall c | c in s.calls :: s.calls[c].Holding() <==> s.holder == Some(c)
  }

  ghost predicate HolderExists(s: State)
  {
    s.holder.Some? ==> s.holder.value in s.calls && HolderKnows(s, s.holder.value)
  }

  /** Calls that left with a serial are logged with it, and the log names only known calls. */
  ghost predicate Logged(s: State)
  {
    && (forall i | 0 <= i < |s.issued| :: s.issued[i].call in s.calls)
    && (forall c | c in s.calls && s.calls[c].Released? :: Issue(c, s.calls[c].serial) in s.issued)
    && (forall c | c in s.calls && s.calls[c].Returned? :: Issue(c, s.calls[c].serial) in s.issued)
  }

  ghost predicate ReturnedWereIssued(s: State)
  {
    forall i | 0 <= i < |s.returned| ::
      && s.returned[i] in s.issued
      && s.returned[i].call in s.calls && s.calls[s.returned[i].call] == Returned(s.returned[i].serial)
  }

  ghost predicate ReturnedOnce(s: State)
  {
    forall i, j | 0 <= i < j < |s.returned| :: s.returned[i].call != s.returned[j].call
  }

  /** Later names hold later serials: the surviving value is never ahead of the visible one. */
  ghost predicate Ascending(h: History)
  {
    forall k, l | 0 <= k < l < |h| ::
      && ReadContents(h[k].contents).Ok? && ReadContents(h[l].contents).Ok?
      && ReadContents(h[k].contents).value < ReadContents(h[l].contents).value
  }

  ghost predicate Inv(s: State)
  {
    && Increasing(s.issued) && AllSynced(s) && FileCovers(s) && Ascending(s.file)
    && LockHeld(s) && HolderExists(s)
    && Logged(s) && ReturnedWereIssued(s) && ReturnedOnce(s)
  }

  // ---- Every step keeps it ---------------------------------------------------------------

  lemma StartHolds(contents: Contents)
    ensures Inv(Start(contents))
  {
  }

  /** A step that only moves one call on, outside or inside the lock. */
  lemma MoveKeeps(s: State, c: nat, phase: Phase)
    requires Inv(s)
    requires c in s.calls ==> s.calls[c].Holding() == phase.Holding() && !s.calls[c].Released? && !s.calls[c].Returned?
    requires c !in s.calls ==> !phase.Holding()
    requires !phase.Released? && !phase.Returned?
    requires phase.Holding() ==> HolderKnows(Set(s, c, phase), c)
    ensures Inv(Set(s, c, phase))
  {
  }

  /** The temporary file is nobody's business but the holder's. */
  lemma TempKeeps(s: State, c: nat, phase: Phase)
    requires Inv(s) && c in s.calls
    requires
      || (phase.Written? && s.calls[c] == Drawn(phase.serial))
      || (phase.Synced? && s.calls[c] == Written(phase.serial))
    ensures Inv(Set(s, c, phase))
  {
    assert HolderKnows(s, c);
    MoveKeeps(s, c, phase);
  }

  lemma LeaveKeeps(s: State, c: nat, phase: Phase)
    requires Inv(s) && c in s.calls && !s.calls[c].Returned?
    requires phase.Failed? || phase.Killed?
    ensures Inv(Leave(s, c, phase))
  {
  }

  lemma AcquireKeeps(s: State, c: nat)
    requires Inv(s) && PhaseOf(s, c) == Some(Waiting) && s.holder.None?
    ensures Inv(Set(s, c, Locked).(holder := Some(c)))
  {
  }

  lemma ReadKeeps(s: State, c: nat)
    requires Inv(s) && PhaseOf(s, c) == Some(Locked)
    ensures Apply(s, ReadFile(c)).Some? && Inv(Apply(s, ReadFile(c)).value)
  {
    match NextSerial(Visible(s.file)) {
      case Ok(serial) =>
        forall i | 0 <= i < |s.issued|
          ensures s.issued[i].serial < serial
        {
          assert Covers(s.file[|s.file| - 1].contents, s.issued[i].serial);
        }
        MoveKeeps(s, c, Drawn(serial));
      case Err(_) =>
        LeaveKeeps(s, c, Failed);
    }
  }

  /** A name that holds more than the visible one keeps the names ascending. */
  lemma AscendingGrows(h: History, n: nat)
    requires Ascending(h) && ReadContents(Visible(h)).Ok? && ReadContents(Visible(h)).value < n
    ensures Ascending(h + [Entry(Number(n), true)])
  {
    var t := h + [Entry(Number(n), true)];
    forall k, l | 0 <= k < l < |t|
      ensures ReadContents(t[k].contents).Ok? && ReadContents(t[l].contents).Ok?
      ensures ReadContents(t[k].contents).value < ReadContents(t[l].contents).value
    {
      assert t[k] == h[k];
      if l < |h| {
        assert t[l] == h[l];
      } else if k < |h| - 1 {
        assert ReadContents(h[k].contents).value < ReadContents(h[|h| - 1].contents).value;
      }
    }
  }

  /** A name above everything issued keeps the file covering it. */
  lemma CoverGrows(s: State, t: State, n: nat)
    requires FileCovers(s) && AllSynced(s) && t.issued == s.issued && t.file == s.file + [Entry(Number(n), true)]
    requires forall i | 0 <= i < |s.issued| :: s.issued[i].serial <= n
    ensures FileCovers(t) && AllSynced(t)
  {
    forall k | 0 <= k < |t.file|
      ensures t.file[k].synced
      ensures forall i | 0 <= i < |t.issued| :: Covers(t.file[k].contents, t.issued[i].serial)
    {
      if k < |s.file| {
        assert t.file[k] == s.file[k];
      }
    }
  }

  /** Moving a call about inside its call changes nothing about what is logged. */
  lemma LogStays(s: State, t: State, c: nat, phase: Phase)
    requires Logged(s) && ReturnedWereIssued(s) && ReturnedOnce(s)
    requires c in s.calls ==> !s.calls[c].Returned?
    requires !phase.Released? && !phase.Returned?
    requires t.calls == s.calls[c := phase] && t.issued == s.issued && t.returned == s.returned
    ensures Logged(t) && ReturnedWereIssued(t) && ReturnedOnce(t)
  {
  }

  lemma RenameKeeps(s: State, c: nat, serial: nat)
    requires Inv(s) && PhaseOf(s, c) == Some(Synced(serial))
    ensures Inv(Set(s, c, Renamed(serial)).(file := s.file + [Entry(Number(serial), true)]))
  {
    var t := Set(s, c, Renamed(serial)).(file := s.file + [Entry(Number(serial), true)]);
    assert s.holder == Some(c) && HolderKnows(s, c);
    AscendingGrows(s.file, serial);
    CoverGrows(s, t, serial);
    LogStays(s, t, c, Renamed(serial));
    hide Logged, ReturnedWereIssued, ReturnedOnce, Ascending, FileCovers, AllSynced;
    assert LockHeld(t) && HolderExists(t);
  }

  lemma SyncDirectoryKeeps(s: State, c: nat, serial: nat)
    requires Inv(s) && PhaseOf(s, c) == Some(Renamed(serial))
    ensures Inv(Set(s, c, Durable(serial)).(file := [s.file[|s.file| - 1]]))
  {
  }

  lemma ReleaseKeeps(s: State, c: nat, serial: nat)
    requires Inv(s) && PhaseOf(s, c) == Some(Durable(serial))
    ensures Inv(Leave(s, c, Released(serial)).(issued := s.issued + [Issue(c, serial)]))
  {
    var t := Leave(s, c, Released(serial)).(issued := s.issued + [Issue(c, serial)]);
    assert s.holder == Some(c);
    assert FileCovers(t);
    assert LockHeld(t);
    LogGrows(s, t, c, serial);
  }

  lemma LogGrows(s: State, t: State, c: nat, serial: nat)
    requires Logged(s) && ReturnedWereIssued(s) && PhaseOf(s, c) == Some(Durable(serial))
    requires t == Leave(s, c, Released(serial)).(issued := s.issued + [Issue(c, serial)])
    ensures Logged(t) && ReturnedWereIssued(t)
  {
    assert t.issued[|s.issued|] == Issue(c, serial);
    forall d | d in t.calls && (t.calls[d].Released? || t.calls[d].Returned?)
      ensures Issue(d, t.calls[d].serial) in t.issued
    {
      if d != c {
        assert s.calls[d] == t.calls[d] && Issue(d, s.calls[d].serial) in s.issued;
      }
    }
    forall i | 0 <= i < |t.issued|
      ensures t.issued[i].call in t.calls
    {
      assert i < |s.issued| ==> t.issued[i] == s.issued[i];
    }
    forall i | 0 <= i < |t.returned|
      ensures t.returned[i] in t.issued
    {
      assert s.returned[i] in s.issued;
    }
  }

  lemma ReturnKeeps(s: State, c: nat, serial: nat)
    requires Inv(s) && PhaseOf(s, c) == Some(Released(serial))
    ensures Inv(Set(s, c, Returned(serial)).(returned := s.returned + [Issue(c, serial)]))
  {
    var t := Set(s, c, Returned(serial)).(returned := s.returned + [Issue(c, serial)]);
    assert LockHeld(t) && HolderExists(t);
    ReturnLogged(s, t, c, serial);
    hide *;
    assert Inv(t) by { InvIsParts(s, t); }
  }

  lemma InvIsParts(s: State, t: State)
    requires Inv(s) && t.file == s.file && t.issued == s.issued
    requires LockHeld(t) && HolderExists(t) && Logged(t) && ReturnedWereIssued(t) && ReturnedOnce(t)
    ensures Inv(t)
  {
    hide LockHeld, HolderExists, Logged, ReturnedWereIssued, ReturnedOnce, Increasing, Ascending;
  }

  lemma ReturnLogged(s: State, t: State, c: nat, serial: nat)
    requires Logged(s) && ReturnedWereIssued(s) && ReturnedOnce(s) && PhaseOf(s, c) == Some(Released(serial))
    requires t == Set(s, c, Returned(serial)).(returned := s.returned + [Issue(c, serial)])
    ensures Logged(t) && ReturnedWereIssued(t) && ReturnedOnce(t)
  {
    var n := |s.returned|;
    assert forall i | 0 <= i < n :: t.returned[i] == s.returned[i] && t.returned[i].call != c;
    assert t.returned[n] == Issue(c, serial);
  }

  lemma PowerLossKeeps(s: State, survivor: nat, garbage: Contents)
    requires Inv(s) && survivor < |s.file|
    ensures Inv(Apply(s, PowerLoss(survivor, garbage)).value)
  {
    var t := Apply(s, PowerLoss(survivor, garbage)).value;
    assert s.file[survivor].synced;
    assert forall c | c in t.calls :: !t.calls[c].Live();
  }

  lemma RepairKeeps(s: State, target: nat, directorySynced: bool)
    requires Inv(s) && Apply(s, Repair(target, directorySynced)).Some?
    ensures Inv(Apply(s, Repair(target, directorySynced)).value)
  {
    var t := Apply(s, Repair(target, directorySynced)).value;
    assert s.holder.None?;
    forall i | 0 <= i < |s.issued|
      ensures s.issued[i].serial <= target
    {
      assert Covers(s.file[|s.file| - 1].contents, s.issued[i].serial);
    }
    if directorySynced {
      assert FileCovers(t);
    } else {
      AscendingGrows(s.file, target);
      CoverGrows(s, t, target);
    }
    hide Logged, ReturnedWereIssued, ReturnedOnce, Ascending, FileCovers, AllSynced;
    assert LockHeld(t) && HolderExists(t);
  }

  lemma StepKeeps(s: State, step: Step)
    requires Inv(s) && Apply(s, step).Some?
    ensures Inv(Apply(s, step).value)
  {
    hide Inv;
    match step {
      case Begin(c) => MoveKeeps(s, c, Waiting);
      case Acquire(c) => AcquireKeeps(s, c);
      case ReadFile(c) => ReadKeeps(s, c);
      case WriteTemp(c) => TempKeeps(s, c, Written(s.calls[c].serial));
      case SyncTemp(c) => TempKeeps(s, c, Synced(s.calls[c].serial));
      case Rename(c) => RenameKeeps(s, c, s.calls[c].serial);
      case SyncDirectory(c) => SyncDirectoryKeeps(s, c, s.calls[c].serial);
      case Release(c) => ReleaseKeeps(s, c, s.calls[c].serial);
      case Return(c) => ReturnKeeps(s, c, s.calls[c].serial);
      case Fail(c) => LeaveKeeps(s, c, Failed);
      case Kill(c) => LeaveKeeps(s, c, Killed);
      case PowerLoss(survivor, garbage) => PowerLossKeeps(s, survivor, garbage);
      case Repair(target, directorySynced) => RepairKeeps(s, target, directorySynced);
      case Damage(found) => DamageKeeps(s, found);
    }
  }

  /** A damaged file holds nothing a call could go on from. */
  lemma DamageKeeps(s: State, found: Contents)
    requires Inv(s) && Damaged(found) && forall c | c in s.calls :: !s.calls[c].Live()
    ensures Inv(s.(file := [Entry(found, true)]))
  {
    DamagedCovers(s, found);
    hide Covers;
    ReplacedFileKeeps(s, found);
  }

  lemma DamagedCovers(s: State, found: Contents)
    requires Damaged(found)
    ensures forall i | 0 <= i < |s.issued| :: Covers(found, s.issued[i].serial)
  {
  }

  lemma {:induction false} RunKeeps(s: State, steps: seq<Step>)
    requires Inv(s) && Run(s, steps).Some?
    ensures Inv(Run(s, steps).value)
  {
    if steps != [] {
      RunKeeps(s, steps[..|steps| - 1]);
      StepKeeps(Run(s, steps[..|steps| - 1]).value, steps[|steps| - 1]);
    }
  }

  // ---- What every run guarantees -----------------------------------------------------------

  /** The log only grows, known calls stay known, and a returned call stays returned. */
  ghost predicate Extends(s: State, t: State)
  {
    && s.issued <= t.issued
    && (forall c | c in s.calls :: c in t.calls)
    && (forall c | c in s.calls && s.calls[c].Returned? :: t.calls[c] == s.calls[c])
  }

  lemma StepExtends(s: State, step: Step)
    requires Apply(s, step).Some?
    ensures Extends(s, Apply(s, step).value)
  {
  }

  lemma {:induction false} RunExtends(s: State, steps: seq<Step>, n: nat)
    requires n <= |steps| && Run(s, steps).Some?
    ensures Run(s, steps[..n]).Some? && Extends(Run(s, steps[..n]).value, Run(s, steps).value)
    decreases |steps|
  {
    hide Apply;
    if n == |steps| {
      assert steps[..n] == steps;
    } else {
      var front := steps[..|steps| - 1];
      RunExtends(s, front, n);
      assert front[..n] == steps[..n];
      StepExtends(Run(s, front).value, steps[|steps| - 1]);
    }
  }

  lemma SameSerialSameIssue(log: seq<Issue>, x: Issue, y: Issue)
    requires Increasing(log) && x in log && y in log && x.serial == y.serial
    ensures x == y
  {
  }

  lemma NeverRepeats(s: State)
    requires Inv(s)
    ensures forall i, j | 0 <= i < j < |s.returned| :: s.returned[i].serial != s.returned[j].serial
  {
    forall i, j | 0 <= i < j < |s.returned|
      ensures s.returned[i].serial != s.returned[j].serial
    {
      if s.returned[i].serial == s.returned[j].serial {
        SameSerialSameIssue(s.issued, s.returned[i], s.returned[j]);
      }
    }
  }

  /** Over every interleaving of calls, process deaths, power losses and repairs, whatever the
      file held at first: serials are issued in strictly increasing order, and no two callers
      ever receive the same one. */
  lemma SerialsNeverRepeat(contents: Contents, steps: seq<Step>)
    requires Run(Start(contents), steps).Some?
    ensures var s := Run(Start(contents), steps).value;
      && Increasing(s.issued)
      && (forall i | 0 <= i < |s.returned| :: s.returned[i] in s.issued)
      && (forall i, j | 0 <= i < j < |s.returned| :: s.returned[i].serial != s.returned[j].serial)
  {
    StartHolds(contents);
    RunKeeps(Start(contents), steps);
    NeverRepeats(Run(Start(contents), steps).value);
  }

  /** Whatever value a power loss leaves behind, it is at least every serial issued so far and
      at most the value now visible. */
  lemma IssuedSurvives(contents: Contents, steps: seq<Step>, survivor: nat)
    requires Run(Start(contents), steps).Some?
    requires survivor < |Run(Start(contents), steps).value.file|
    ensures var s := Run(Start(contents), steps).value;
      var kept := s.file[survivor];
      && kept.synced
      && (forall i | 0 <= i < |s.issued| :: Covers(kept.contents, s.issued[i].serial))
      && (ReadContents(kept.contents).Ok? && ReadContents(Visible(s.file)).Ok?
          ==> ReadContents(kept.contents).value <= ReadContents(Visible(s.file)).value)
  {
    StartHolds(contents);
    RunKeeps(Start(contents), steps);
  }

  /** A call begun after another has returned receives a greater serial. */
  lemma LaterCallsGetMore(contents: Contents, steps: seq<Step>, n: nat, a: nat, b: nat)
    requires n <= |steps| && Run(Start(contents), steps).Some? && Run(Start(contents), steps[..n]).Some?
    requires var mid := Run(Start(contents), steps[..n]).value;
      a in mid.calls && mid.calls[a].Returned? && b !in mid.calls
    requires var end := Run(Start(contents), steps).value;
      b in end.calls && end.calls[b].Returned?
    ensures var mid, end := Run(Start(contents), steps[..n]).value, Run(Start(contents), steps).value;
      mid.calls[a].serial < end.calls[b].serial
  {
    var mid, end := Run(Start(contents), steps[..n]).value, Run(Start(contents), steps).value;
    StartHolds(contents);
    RunKeeps(Start(contents), steps[..n]);
    RunKeeps(Start(contents), steps);
    RunExtends(Start(contents), steps, n);
    var i :| 0 <= i < |mid.issued| && mid.issued[i] == Issue(a, mid.calls[a].serial);
    var j :| 0 <= j < |end.issued| && end.issued[j] == Issue(b, end.calls[b].serial);
    assert end.issued[i] == mid.issued[i];
  }

  /** A file replaced while nothing is in flight does no harm exactly when, if readable, it
      covers every serial issued: the next runs then keep all the guarantees. */
  lemma ReplacedFileKeeps(s: State, contents: Contents)
    requires Inv(s) && forall c | c in s.calls :: !s.calls[c].Live()
    ensures Inv(s.(file := [Entry(contents, true)]))
       <==> forall i | 0 <= i < |s.issued| :: Covers(contents, s.issued[i].serial)
  {
    var t := s.(file := [Entry(contents, true)]);
    assert s.holder.None?;
    if forall i | 0 <= i < |s.issued| :: Covers(contents, s.issued[i].serial) {
      assert FileCovers(t);
    }
    if Inv(t) {
      assert forall i | 0 <= i < |s.issued| :: Covers(t.file[0].contents, t.issued[i].serial);
    }
  }

  // ---- After damage ----------------------------------------------------------------------------

  /** The file is damaged whatever survives, and no call has drawn a serial it has not handed out. */
  ghost predicate Stuck(s: State)
  {
    && (forall k | 0 <= k < |s.file| :: s.file[k].synced && Damaged(s.file[k].contents))
    && (forall c | c in s.calls ::
          s.calls[c].Waiting? || s.calls[c].Locked? || s.calls[c].Returned? || s.calls[c].Failed? || s.calls[c].Killed?)
  }

  lemma StuckStep(s: State, step: Step)
    requires Stuck(s) && Apply(s, step).Some?
    ensures var t := Apply(s, step).value;
      Stuck(t) && t.issued == s.issued && t.returned == s.returned
  {
    assert Damaged(s.file[|s.file| - 1].contents);
  }

  lemma {:induction false} StuckRun(s: State, steps: seq<Step>)
    requires Stuck(s) && Run(s, steps).Some?
    ensures var t := Run(s, steps).value;
      Stuck(t) && t.issued == s.issued && t.returned == s.returned
  {
    if steps != [] {
      hide Stuck, Apply;
      StuckRun(s, steps[..|steps| - 1]);
      StuckStep(Run(s, steps[..|steps| - 1]).value, steps[|steps| - 1]);
    }
  }

  /** Once the file is damaged, with no call in flight, no serial is issued any more in any run: calls
      refuse, and so does the repair tool, which reads the file first. */
  lemma DamagedIssuesNothing(contents: Contents, before: seq<Step>, found: Contents, after: seq<Step>)
    requires Run(Start(contents), before).Some?
    requires var s := Run(Start(contents), before).value;
      Apply(s, Damage(found)).Some? && Run(Apply(s, Damage(found)).value, after).Some?
    ensures var s := Run(Start(contents), before).value;
      var end := Run(Apply(s, Damage(found)).value, after).value;
      end.issued == s.issued && end.returned == s.returned
  {
    var s := Run(Start(contents), before).value;
    hide Run;
    StuckRun(Apply(s, Damage(found)).value, after);
  }

  // ---- A call on its own ---------------------------------------------------------------------

  /** A whole call up to the release of the lock. */
  function UntilRelease(c: nat): seq<Step>
  {
    [Begin(c), Acquire(c), ReadFile(c), WriteTemp(c), SyncTemp(c), Rename(c), SyncDirectory(c), Release(c)]
  }

  lemma RunSnoc(s: State, front: seq<Step>, step: Step)
    ensures Run(s, front + [step])
         == match Run(s, front) case None => None case Some(t) => Apply(t, step)
  {
    assert (front + [step])[..|front|] == front;
  }

  lemma {:induction false} RunJoin(s: State, a: seq<Step>, b: seq<Step>)
    requires Run(s, a).Some?
    ensures Run(s, a + b) == Run(Run(s, a).value, b)
  {
    if b == [] {
      assert a + b == a;
    } else {
      RunJoin(s, a, b[..|b| - 1]);
      assert (a + b)[..|a + b| - 1] == a + b[..|b| - 1];
    }
  }

  /** The lock is free, call `c` is new, and the file lets it draw `serial`. */
  predicate CanDraw(s: State, c: nat, serial: nat)
  {
    s.holder.None? && c !in s.calls && NextSerial(Visible(s.file)) == Ok(serial)
  }

  /** The state in which nothing has moved but call `c`. */
  function At(s: State, c: nat, phase: Phase): State
  {
    s.(holder := if phase.Holding() then Some(c) else s.holder, calls := s.calls[c := phase])
  }

  lemma Overwrite<K, V>(m: map<K, V>, k: K, x: V, y: V)
    ensures m[k := x][k := y] == m[k := y]
  {
  }

  lemma AloneAt(s: State, before: State, c: nat, serial: nat, steps: seq<Step>, i: nat, phase: Phase)
    requires CanDraw(s, c, serial)
    requires i < |steps| && Run(s, steps[..i]) == Some(before)
    requires
      || (before == s && steps[i] == Begin(c) && phase == Waiting)
      || (before == At(s, c, Waiting) && steps[i] == Acquire(c) && phase == Locked)
      || (before == At(s, c, Locked) && steps[i] == ReadFile(c) && phase == Drawn(serial))
      || (before == At(s, c, Drawn(serial)) && steps[i] == WriteTemp(c) && phase == Written(serial))
      || (before == At(s, c, Written(serial)) && steps[i] == SyncTemp(c) && phase == Synced(serial))
    ensures Run(s, steps[..i + 1]) == Some(At(s, c, phase))
  {
    hide Run;
    RunSnoc(s, steps[..i], steps[i]);
    assert steps[..i] + [steps[i]] == steps[..i + 1];
    if c in before.calls {
      Overwrite(s.calls, c, before.calls[c], phase);
    }
  }

  lemma DrawsAlone(s: State, c: nat, serial: nat)
    requires CanDraw(s, c, serial)
    ensures Run(s, [Begin(c), Acquire(c), ReadFile(c), WriteTemp(c), SyncTemp(c)])
         == Some(s.(holder := Some(c), calls := s.calls[c := Synced(serial)]))
  {
    hide *;
    var steps := [Begin(c), Acquire(c), ReadFile(c), WriteTemp(c), SyncTemp(c)];
    assert steps[..0] == [];
    RunNothing(s);
    AloneAt(s, s, c, serial, steps, 0, Waiting);
    AloneAt(s, At(s, c, Waiting), c, serial, steps, 1, Locked);
    AloneAt(s, At(s, c, Locked), c, serial, steps, 2, Drawn(serial));
    AloneAt(s, At(s, c, Drawn(serial)), c, serial, steps, 3, Written(serial));
    AloneAt(s, At(s, c, Written(serial)), c, serial, steps, 4, Synced(serial));
    assert steps[..5] == steps;
    AtSynced(s, c, serial);
  }

  lemma AtSynced(s: State, c: nat, serial: nat)
    ensures At(s, c, Synced(serial)) == s.(holder := Some(c), calls := s.calls[c := Synced(serial)])
  {
  }

  /** Left alone, a call leaves exactly its serial on disk, and hands it out. */
  lemma ReleasesAlone(s: State, c: nat, serial: nat)
    requires CanDraw(s, c, serial)
    ensures Run(s, UntilRelease(c))
         == Some(s.(file := [Entry(Number(serial), true)],
                    calls := s.calls[c := Released(serial)],
                    issued := s.issued + [Issue(c, serial)]))
  {
    hide *;
    var drawn := [Begin(c), Acquire(c), ReadFile(c), WriteTemp(c), SyncTemp(c)];
    DrawsAlone(s, c, serial);
    LastThreeSteps(s, c, serial);
    RunSnoc(s, drawn, Rename(c));
    RunSnoc(s, drawn + [Rename(c)], SyncDirectory(c));
    RunSnoc(s, drawn + [Rename(c)] + [SyncDirectory(c)], Release(c));
    WholeCall(c);
  }

  lemma WholeCall(c: nat)
    ensures var drawn := [Begin(c), Acquire(c), ReadFile(c), WriteTemp(c), SyncTemp(c)];
      UntilRelease(c) == drawn + [Rename(c)] + [SyncDirectory(c)] + [Release(c)]
  {
  }

  /** From the synced temporary file to the release. */
  lemma LastThreeSteps(s: State, c: nat, serial: nat)
    requires CanDraw(s, c, serial)
    ensures var drawn := s.(holder := Some(c), calls := s.calls[c := Synced(serial)]);
      var renamed := drawn.(calls := s.calls[c := Renamed(serial)], file := s.file + [Entry(Number(serial), true)]);
      var durable := renamed.(calls := s.calls[c := Durable(serial)], file := [Entry(Number(serial), true)]);
      && Apply(drawn, Rename(c)) == Some(renamed)
      && Apply(renamed, SyncDirectory(c)) == Some(durable)
      && Apply(durable, Release(c))
         == Some(s.(file := [Entry(Number(serial), true)], calls := s.calls[c := Released(serial)],
                    issued := s.issued + [Issue(c, serial)]))
  {
    Overwrite(s.calls, c, Synced(serial), Renamed(serial));
    Overwrite(s.calls, c, Renamed(serial), Durable(serial));
    Overwrite(s.calls, c, Durable(serial), Released(serial));
  }

  /** The same for a call already waiting: the lock is free, and it is the next to take it. */
  function FromAcquire(c: nat): seq<Step>
  {
    UntilRelease(c)[1..]
  }

  lemma ReleasesWaiting(s: State, c: nat, serial: nat)
    requires s.holder.None? && PhaseOf(s, c) == Some(Waiting) && NextSerial(Visible(s.file)) == Ok(serial)
    ensures Run(s, FromAcquire(c))
         == Some(s.(file := [Entry(Number(serial), true)],
                    calls := s.calls[c := Released(serial)],
                    issued := s.issued + [Issue(c, serial)]))
  {
    hide Run;
    var before := s.(calls := s.calls - {c});
    assert before.calls[c := Waiting] == s.calls;
    assert before.calls[c := Released(serial)] == s.calls[c := Released(serial)];
    ReleasesAlone(before, c, serial);
    assert Run(before, [Begin(c)]) == Some(s) by {
      RunNothing(before);
      RunSnoc(before, [], Begin(c));
      assert [] + [Begin(c)] == [Begin(c)];
    }
    RunJoin(before, [Begin(c)], FromAcquire(c));
    assert UntilRelease(c) == [Begin(c)] + FromAcquire(c);
  }

  lemma RunNothing(s: State)
    ensures Run(s, []) == Some(s)
  {
  }

  // ---- The order callers see ------------------------------------------------------------------

  /** Of two calls that returned, in whatever order, the one that released the lock earlier has
      the smaller serial. */
  lemma SerialsFollowReleases(contents: Contents, steps: seq<Step>, i: nat, j: nat)
    requires Run(Start(contents), steps).Some?
    requires var s := Run(Start(contents), steps).value;
      i < |s.returned| && j < |s.returned|
    ensures var s := Run(Start(contents), steps).value;
      exists p, q :: 0 <= p < |s.issued| && 0 <= q < |s.issued|
        && s.issued[p] == s.returned[i] && s.issued[q] == s.returned[j]
        && (s.returned[i].serial < s.returned[j].serial <==> p < q)
  {
    SerialsNeverRepeat(contents, steps);
    var s := Run(Start(contents), steps).value;
    assert s.returned[i] in s.issued && s.returned[j] in s.issued;
    var p :| 0 <= p < |s.issued| && s.issued[p] == s.returned[i];
    var q :| 0 <= q < |s.issued| && s.issued[q] == s.returned[j];
    assert s.returned[i].serial < s.returned[j].serial <==> p < q;
  }

  /** Which of two waiting calls gets the smaller serial is open: whichever takes the free lock
      first.  Exchange `a` and `b` for the other outcome. */
  lemma EitherMayGoFirst(s: State, a: nat, b: nat, serial: nat)
    requires a != b && s.holder.None? && PhaseOf(s, a) == Some(Waiting) && PhaseOf(s, b) == Some(Waiting)
    requires NextSerial(Visible(s.file)) == Ok(serial) && serial < MAX_SERIAL
    ensures Run(s, FromAcquire(a) + FromAcquire(b)).Some?
    ensures var t := Run(s, FromAcquire(a) + FromAcquire(b)).value;
      && PhaseOf(t, a) == Some(Released(serial)) && PhaseOf(t, b) == Some(Released(serial + 1))
      && t.issued == s.issued + [Issue(a, serial), Issue(b, serial + 1)]
  {
    hide Run, FromAcquire;
    ReleasesWaiting(s, a, serial);
    var mid := Run(s, FromAcquire(a)).value;
    ReleasesWaiting(mid, b, serial + 1);
    RunJoin(s, FromAcquire(a), FromAcquire(b));
  }

  /** Serials increase in the order the lock is released, not in the order callers resume: a
      call may be overtaken between releasing the lock and returning. */
  lemma ReturnsMayOvertake()
    ensures exists steps ::
      && Run(Start(Missing), steps).Some?
      && Run(Start(Missing), steps).value.returned == [Issue(2, 2), Issue(1, 1)]
  {
    hide Run;
    var s0 := Start(Missing);
    ReleasesAlone(s0, 1, 1);
    var s1 := Run(s0, UntilRelease(1)).value;
    ReleasesAlone(s1, 2, 2);
    RunJoin(s0, UntilRelease(1), UntilRelease(2));
    var both := UntilRelease(1) + UntilRelease(2);
    var s2 := Run(s0, both).value;
    RunSnoc(s0, both, Return(2));
    var s3 := Run(s0, both + [Return(2)]).value;
    RunSnoc(s0, both + [Return(2)], Return(1));
  }
}
