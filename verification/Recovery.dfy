/** Going on after the counter's file was lost and repaired from the ids that were filed.

    Not every serial drawn is filed: a call may be killed, or a sending fail.  Such serials may be drawn
    again; a filed one never is.
 */
module Recovery {
  import opened Results
  import opened CounterFile
  import opened CounterProtocol
  import opened SerialCounter
  import Text

  // ---- A run after a repair is a run of its own ------------------------------------------------

  /** The state with what lies before it forgotten: the first entries of the logs and earlier calls. */
  function Forget(s: State, past: set<nat>, issued: nat, returned: nat): State
    requires issued <= |s.issued| && returned <= |s.returned|
  {
    s.(calls := s.calls - past, issued := s.issued[issued..], returned := s.returned[returned..])
  }

  /** Calls that are over take no further step. */
  ghost predicate Over(s: State, past: set<nat>)
  {
    && (forall c | c in past :: c in s.calls && !s.calls[c].Live())
    && (s.holder.Some? ==> s.holder.value !in past)
  }

  lemma ForgetStep(s: State, step: Step, past: set<nat>, issued: nat, returned: nat)
    requires Over(s, past) && issued <= |s.issued| && returned <= |s.returned| && Apply(s, step).Some?
    ensures var t := Apply(s, step).value;
      && Over(t, past) && issued <= |t.issued| && returned <= |t.returned|
      && Apply(Forget(s, past, issued, returned), step) == Some(Forget(t, past, issued, returned))
  {
    var t := Apply(s, step).value;
    var f, g := Forget(s, past, issued, returned), Forget(t, past, issued, returned);
    if step.PowerLoss? {
      assert Apply(f, step).value.calls == g.calls;
    } else if step.Repair? || step.Damage? {
      assert (exists c | c in f.calls :: f.calls[c].Live()) <==> (exists c | c in s.calls :: s.calls[c].Live());
    } else {
      var c := step.call;
      assert c !in past && PhaseOf(f, c) == PhaseOf(s, c);
      assert t.calls == s.calls[c := t.calls[c]];
      assert g.calls == f.calls[c := t.calls[c]];
      Appending(s.issued, t.issued, issued);
      Appending(s.returned, t.returned, returned);
    }
  }

  lemma Appending(before: seq<Issue>, after: seq<Issue>, n: nat)
    requires n <= |before|
    ensures |after| == |before| + 1 && before == after[..|before|] ==> after[n..] == before[n..] + [after[|before|]]
  {
  }

  lemma {:induction false} ForgetRun(s: State, steps: seq<Step>, past: set<nat>)
    requires Over(s, past) && Run(s, steps).Some?
    ensures var t := Run(s, steps).value;
      && Over(t, past) && |s.issued| <= |t.issued| && |s.returned| <= |t.returned|
      && Run(Forget(s, past, |s.issued|, |s.returned|), steps) == Some(Forget(t, past, |s.issued|, |s.returned|))
  {
    if steps != [] {
      hide Apply, Forget, Over;
      ForgetRun(s, steps[..|steps| - 1], past);
      var t := Run(s, steps[..|steps| - 1]).value;
      ForgetStep(t, steps[|steps| - 1], past, |s.issued|, |s.returned|);
    }
  }

  // ---- Nothing is drawn below what the file covers ---------------------------------------------

  predicate Drawing(phase: Phase)
  {
    phase.Drawn? || phase.Written? || phase.Synced? || phase.Renamed? || phase.Durable?
  }

  ghost predicate FilesBeyond(s: State, v: nat)
  {
    forall k | 0 <= k < |s.file| :: s.file[k].synced && Covers(s.file[k].contents, v)
  }

  ghost predicate DrawnBeyond(s: State, v: nat)
  {
    forall c | c in s.calls && Drawing(s.calls[c]) :: s.calls[c].serial > v
  }

  ghost predicate IssuedBeyond(s: State, v: nat)
  {
    forall i | 0 <= i < |s.issued| :: s.issued[i].serial > v
  }

  /** Every surviving file covers `v`, and every serial drawn is above it. */
  ghost predicate Beyond(s: State, v: nat)
  {
    FilesBeyond(s, v) && DrawnBeyond(s, v) && IssuedBeyond(s, v)
  }

  lemma FilesStep(s: State, step: Step, v: nat)
    requires FilesBeyond(s, v) && DrawnBeyond(s, v) && Apply(s, step).Some?
    ensures FilesBeyond(Apply(s, step).value, v)
  {
    assert Covers(s.file[|s.file| - 1].contents, v);
  }

  lemma DrawnStep(s: State, step: Step, v: nat)
    requires FilesBeyond(s, v) && DrawnBeyond(s, v) && Apply(s, step).Some?
    ensures DrawnBeyond(Apply(s, step).value, v)
  {
    assert Covers(s.file[|s.file| - 1].contents, v);
  }

  lemma IssuedStep(s: State, step: Step, v: nat)
    requires DrawnBeyond(s, v) && IssuedBeyond(s, v) && Apply(s, step).Some?
    ensures IssuedBeyond(Apply(s, step).value, v)
  {
  }

  lemma BeyondStep(s: State, step: Step, v: nat)
    requires Beyond(s, v) && Apply(s, step).Some?
    ensures Beyond(Apply(s, step).value, v)
  {
    hide Apply, FilesBeyond, DrawnBeyond, IssuedBeyond;
    FilesStep(s, step, v);
    DrawnStep(s, step, v);
    IssuedStep(s, step, v);
  }

  lemma {:induction false} BeyondRun(s: State, steps: seq<Step>, v: nat)
    requires Beyond(s, v) && Run(s, steps).Some?
    ensures Beyond(Run(s, steps).value, v)
  {
    if steps != [] {
      hide Beyond, Apply;
      BeyondRun(s, steps[..|steps| - 1], v);
      BeyondStep(Run(s, steps[..|steps| - 1]).value, steps[|steps| - 1], v);
    }
  }

  // ---- Recovery --------------------------------------------------------------------------------------

  /** Losing the file, repairing it from ids among which all filed ones are, and going on: whatever else
      was drawn before, every serial issued afterwards is above every filed one, and the serials issued
      afterwards increase.  `lost` is whatever the file holds when the tool is run; no call is in flight
      then. */
  lemma FiledNeverReused(
    memory: string, contents: Contents, before: seq<Step>, s: State, lost: Contents, typed: seq<string>,
    filed: seq<Issue>, after: seq<Step>, end: State)
    requires Run(Start(contents), before) == Some(s)
    requires forall c | c in s.calls :: !s.calls[c].Live()
    requires typed != [] && AllFiled(memory, typed, filed) && Text.Upper(memory) == memory
    requires forall k | 0 <= k < |typed| :: SerialFor(memory, typed[k]).Ok?
    requires Run(Recovered(s, memory, typed, lost), after) == Some(end)
    ensures |s.issued| <= |end.issued| && |s.returned| <= |end.returned|
    ensures forall i, j | 0 <= i < |filed| && |s.issued| <= j < |end.issued| :: filed[i].serial < end.issued[j].serial
    ensures Increasing(end.issued[|s.issued|..])
    ensures forall i, j | |s.returned| <= i < j < |end.returned| :: end.returned[i].serial != end.returned[j].serial
  {
    hide SerialFor, AllFiled, RepairTarget, Increasing;
    var repaired := Repaired(RepairTarget(memory, typed, None, false, lost), lost);
    var resumed := Recovered(s, memory, typed, lost);
    StartHolds(contents);
    RunKeeps(Start(contents), before);
    NothingHeld(s);
    ForgetRun(resumed, after, s.calls.Keys);
    assert Forget(resumed, s.calls.Keys, |s.issued|, |s.returned|) == Start(repaired);
    var own := Forget(end, s.calls.Keys, |s.issued|, |s.returned|);
    SerialsNeverRepeat(repaired, after);
    RepairCovers(memory, typed, lost, filed);
    forall i, j | 0 <= i < |filed| && |s.issued| <= j < |end.issued|
      ensures filed[i].serial < end.issued[j].serial
    {
      BeyondRun(Start(repaired), after, filed[i].serial);
      assert own.issued[j - |s.issued|] == end.issued[j];
    }
    forall i, j | |s.returned| <= i < j < |end.returned|
      ensures end.returned[i].serial != end.returned[j].serial
    {
      assert own.returned[i - |s.returned|] == end.returned[i];
      assert own.returned[j - |s.returned|] == end.returned[j];
    }
  }

  lemma NothingHeld(s: State)
    requires Inv(s) && forall c | c in s.calls :: !s.calls[c].Live()
    ensures s.holder.None?
  {
  }
}
