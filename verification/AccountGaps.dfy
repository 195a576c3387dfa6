/** Account requests with a gap between their last guard and what they write, in which anything else may
    be decided and written.
 */
module AccountGaps {
  import opened Results
  import opened Sessions
  import opened AccountRoutes

  /** A decision is named by the place in the run of the step that took it. */
  datatype Move = Decide(me: nat, request: Request, at: real) | Carry(decided: nat, at: real)

  datatype State = State(accounts: Accounts, decided: map<nat, seq<Change>>, clock: nat)

  /** A password is set before the guards are asked, so it is written with the decision. */
  function Early(changes: seq<Change>): (n: nat)
    ensures n <= |changes|
  {
    if changes != [] && changes[0].PasswordSet? then 1 else 0
  }

  /** What is left to be written once a request is decided. */
  function Rest(a: Accounts, me: nat, request: Request): seq<Change>
  {
    var changes := BodyEffect(a, me, request).changes;
    changes[Early(changes)..]
  }

  function Advance(s: State, m: Move): State
  {
    match m
    case Decide(me, request, at) =>
      var changes := BodyEffect(s.accounts, me, request).changes;
      State(Write(s.accounts, changes[..Early(changes)], at),
            s.decided[s.clock := Rest(s.accounts, me, request)], s.clock + 1)
    case Carry(d, at) =>
      if d !in s.decided then s.(clock := s.clock + 1)
      else State(Write(s.accounts, s.decided[d], at), s.decided - {d}, s.clock + 1)
  }

  function After(a: Accounts, run: seq<Move>): State
  {
    if run == [] then State(a, map[], 0) else Advance(After(a, run[..|run| - 1]), run[|run| - 1])
  }

  lemma {:induction false} WriteJoin(a: Accounts, c: seq<Change>, d: seq<Change>, now: real)
    ensures Write(a, c + d, now) == Write(Write(a, c, now), d, now)
  {
    if d == [] {
      assert c + d == c;
    } else {
      assert (c + d)[..|c + d| - 1] == c + d[..|d| - 1];
      WriteJoin(a, c, d[..|d| - 1], now);
    }
  }

  /** Without a gap the two steps are the body of the route. */
  lemma TwoStepsAreBody(s: State, me: nat, request: Request, at: real)
    requires s.clock !in s.decided
    ensures var t := Advance(Advance(s, Decide(me, request, at)), Carry(s.clock, at));
      t.accounts == Write(s.accounts, BodyEffect(s.accounts, me, request).changes, at) && t.decided == s.decided
  {
    hide BodyEffect, Write;
    var changes := BodyEffect(s.accounts, me, request).changes;
    assert changes == changes[..Early(changes)] + changes[Early(changes)..];
    WriteJoin(s.accounts, changes[..Early(changes)], changes[Early(changes)..], at);
  }

  // ---- Standing ------------------------------------------------------------------------------------

  ghost predicate UnseatsAny(changes: seq<Change>, id: nat)
  {
    exists i | 0 <= i < |changes| :: Unseats(changes[i], id)
  }

  /** The changes take an active administrator's standing. */
  ghost predicate Takes(a: Accounts, changes: seq<Change>)
  {
    exists id :: IsActiveAdmin(a, id) && UnseatsAny(changes, id)
  }

  /** They leave some active administrator in place. */
  ghost predicate Leaves(a: Accounts, changes: seq<Change>)
  {
    exists id :: IsActiveAdmin(a, id) && !UnseatsAny(changes, id)
  }

  ghost predicate Carries(a: Accounts, run: seq<Move>, k: nat)
    requires k < |run|
  {
    run[k].Carry? && run[k].decided in After(a, run[..k]).decided
  }

  /** Step `k` writes changes that take someone's standing. */
  ghost predicate TakesAt(a: Accounts, run: seq<Move>, k: nat)
    requires k < |run|
  {
    var s := After(a, run[..k]);
    Carries(a, run, k) && Takes(s.accounts, s.decided[run[k].decided])
  }

  /** If step `k` writes, it leaves someone in place. */
  ghost predicate LeavesAt(a: Accounts, run: seq<Move>, k: nat)
    requires k < |run|
  {
    var s := After(a, run[..k]);
    Carries(a, run, k) ==> Leaves(s.accounts, s.decided[run[k].decided])
  }

  /** No change that takes someone's standing is written in the gap of another that does. */
  ghost predicate Apart(a: Accounts, run: seq<Move>)
  {
    forall w | 0 <= w < |run| && TakesAt(a, run, w) :: forall k | run[w].decided < k < w :: !TakesAt(a, run, k)
  }

  ghost predicate OpenAt(a: Accounts, run: seq<Move>, n: nat)
    requires n <= |run|
  {
    HasAdmin(After(a, run[..n]).accounts)
  }

  // ---- One step ----------------------------------------------------------------------------------------

  /** What can be left to write: one change, or one and the end of the sessions with it. */
  predicate RestOk(changes: seq<Change>)
  {
    |changes| <= 2 && (|changes| == 2 ==> changes[1].UserRevoked?)
  }

  lemma RestShape(a: Accounts, me: nat, request: Request)
    ensures RestOk(Rest(a, me, request))
  {
  }

  /** Whatever a body decides leaves somebody in place, if it is written at once. */
  lemma DecidedLeaves(a: Accounts, me: nat, request: Request)
    requires HasAdmin(a)
    ensures Leaves(a, Rest(a, me, request))
  {
    var rest := Rest(a, me, request);
    RestShape(a, me, request);
    if rest == [] {
      var id :| IsActiveAdmin(a, id);
      assert !UnseatsAny(rest, id);
    } else {
      RestIsHarmless(a, me, request);
      OnlyFirstUnseats(rest);
      hide Rest;
      HarmlessIffLeaves(a, rest);
    }
  }

  lemma RestIsHarmless(a: Accounts, me: nat, request: Request)
    requires Rest(a, me, request) != []
    ensures Harmless(a, Rest(a, me, request)[0])
  {
    hide Harmless, BodyEffect;
    var changes := BodyEffect(a, me, request).changes;
    assert Rest(a, me, request)[0] == changes[Early(changes)];
    BodyIsHarmless(a, me, request, Early(changes));
  }

  lemma SparedByAll(a: Accounts, changes: seq<Change>, id: nat, now: real)
    requires a.Valid() && IsActiveAdmin(a, id) && !UnseatsAny(changes, id)
    ensures IsActiveAdmin(Write(a, changes, now), id)
  {
    SparedStays(a, id, changes, now);
  }

  /** Written later, it leaves an active administrator exactly when it leaves one in place then. */
  lemma WrittenLeavesIff(a: Accounts, changes: seq<Change>, now: real)
    requires a.Valid() && HasAdmin(a) && RestOk(changes)
    ensures HasAdmin(Write(a, changes, now)) <==> Leaves(a, changes)
  {
    if changes != [] {
      OnlyFirstUnseats(changes);
      HarmlessIffLeaves(a, changes);
      ChangeLeavesAdminIff(a, changes[0], now);
      FirstDecides(a, changes, now);
    }
  }

  lemma OnlyFirstUnseats(changes: seq<Change>)
    requires changes != [] && RestOk(changes)
    ensures forall id :: UnseatsAny(changes, id) <==> Unseats(changes[0], id)
  {
  }

  lemma HarmlessIffLeaves(a: Accounts, changes: seq<Change>)
    requires HasAdmin(a) && changes != [] && forall id :: UnseatsAny(changes, id) <==> Unseats(changes[0], id)
    ensures Harmless(a, changes[0]) <==> Leaves(a, changes)
  {
    hide UnseatsAny;
    if Harmless(a, changes[0]) {
      var id :| IsActiveAdmin(a, id);
      if Unseats(changes[0], id) {
        assert !IsLastAdmin(a, id);
      }
    }
  }

  lemma FirstDecides(a: Accounts, changes: seq<Change>, now: real)
    requires changes != [] && RestOk(changes)
    ensures HasAdmin(Write(a, changes, now)) <==> HasAdmin(Apply(a, Event(now, changes[0])))
  {
    var b := Apply(a, Event(now, changes[0]));
    if |changes| == 1 {
      assert changes == [changes[0]];
      WriteOne(a, changes[0], now);
    } else {
      assert changes == [changes[0], changes[1]];
      WriteTwo(a, changes[0], changes[1], now);
      assert forall id: nat :: IsActiveAdmin(b.RevokeUser(changes[1].id, now), id) <==> IsActiveAdmin(b, id);
    }
  }

  /** Deciding touches nobody's standing. */
  lemma DecidingKeeps(s: State, me: nat, request: Request, at: real)
    ensures var t := Advance(s, Decide(me, request, at));
      forall id :: IsActiveAdmin(t.accounts, id) <==> IsActiveAdmin(s.accounts, id)
  {
    hide BodyEffect;
    var changes := BodyEffect(s.accounts, me, request).changes;
    if Early(changes) == 1 {
      assert changes[..1] == [changes[0]];
      WriteOne(s.accounts, changes[0], at);
    }
  }

  // ---- Runs --------------------------------------------------------------------------------------------

  /** What waits is what was left of the decision when it was taken. */
  ghost predicate Pending(a: Accounts, run: seq<Move>, d: nat)
  {
    && d < |run| && run[d].Decide? && d in After(a, run).decided
    && After(a, run).decided[d] == Rest(After(a, run[..d]).accounts, run[d].me, run[d].request)
  }

  lemma {:induction false} RunIsFine(a: Accounts, run: seq<Move>)
    requires a.Valid()
    ensures After(a, run).clock == |run| && After(a, run).accounts.Valid()
    ensures forall d | d in After(a, run).decided :: Pending(a, run, d)
  {
    if run != [] {
      var last := |run| - 1;
      var front, m := run[..last], run[last];
      RunIsFine(a, front);
      var s := After(a, front);
      StepIsFine(s, m);
      forall d | d in After(a, run).decided
        ensures Pending(a, run, d)
      {
        if d in s.decided && d < last {
          assert Pending(a, front, d);
          assert front[..d] == run[..d];
        } else {
          assert d == last && front[..last] == front;
        }
      }
    }
  }

  lemma StepIsFine(s: State, m: Move)
    requires s.accounts.Valid()
    ensures var t := Advance(s, m);
      && t.accounts.Valid() && t.clock == s.clock + 1
      && (forall d | d in t.decided && d in s.decided && d != s.clock :: t.decided[d] == s.decided[d])
      && (forall d | d in t.decided && d !in s.decided :: d == s.clock)
      && (s.clock in t.decided && s.clock !in s.decided ==>
            m.Decide? && t.decided[s.clock] == Rest(s.accounts, m.me, m.request))
  {
    match m {
      case Decide(me, request, at) =>
        var changes := BodyEffect(s.accounts, me, request).changes;
        WriteKeepsValid(s.accounts, changes[..Early(changes)], at);
      case Carry(d, at) =>
        if d in s.decided {
          WriteKeepsValid(s.accounts, s.decided[d], at);
        }
    }
  }

  lemma AfterNext(a: Accounts, run: seq<Move>, n: nat)
    requires n < |run|
    ensures After(a, run[..n + 1]) == Advance(After(a, run[..n]), run[n])
  {
    assert run[..n + 1][..n] == run[..n];
  }

  /** A step that takes nobody's standing leaves every active administrator one. */
  lemma StandingStays(a: Accounts, run: seq<Move>, k: nat, id: nat)
    requires a.Valid() && k < |run| && !TakesAt(a, run, k) && IsActiveAdmin(After(a, run[..k]).accounts, id)
    ensures IsActiveAdmin(After(a, run[..k + 1]).accounts, id)
  {
    var s := After(a, run[..k]);
    AfterNext(a, run, k);
    RunIsFine(a, run[..k]);
    match run[k] {
      case Decide(me, request, at) =>
        DecidingKeeps(s, me, request, at);
      case Carry(d, at) =>
        if d in s.decided {
          assert !Takes(s.accounts, s.decided[d]);
          SparedByAll(s.accounts, s.decided[d], id, at);
        }
    }
  }

  lemma {:induction false} StandingStaysThrough(a: Accounts, run: seq<Move>, d: nat, n: nat, id: nat)
    requires a.Valid() && d <= n <= |run| && forall k | d <= k < n :: !TakesAt(a, run, k)
    requires IsActiveAdmin(After(a, run[..d]).accounts, id)
    ensures IsActiveAdmin(After(a, run[..n]).accounts, id)
    decreases n
  {
    if d < n {
      StandingStaysThrough(a, run, d, n - 1, id);
      StandingStays(a, run, n - 1, id);
    }
  }

  /** One step keeps a way in exactly when what it writes leaves someone in place. */
  lemma StepIsOpenIff(a: Accounts, run: seq<Move>, k: nat)
    requires a.Valid() && k < |run| && OpenAt(a, run, k)
    ensures OpenAt(a, run, k + 1) <==> LeavesAt(a, run, k)
  {
    var s := After(a, run[..k]);
    AfterNext(a, run, k);
    RunIsFine(a, run[..k]);
    match run[k] {
      case Decide(me, request, at) =>
        DecidingKeeps(s, me, request, at);
      case Carry(d, at) =>
        if d in s.decided {
          assert Pending(a, run[..k], d);
          RestShape(After(a, run[..k][..d]).accounts, run[d].me, run[d].request);
          WrittenLeavesIff(s.accounts, s.decided[d], at);
        }
    }
  }

  /** Over every run, with gaps wherever: there is a way in at all times exactly when every write leaves
      somebody in place at its moment. */
  lemma AlwaysAWayInIff(a: Accounts, run: seq<Move>)
    requires a.Valid() && HasAdmin(a)
    ensures (forall n | 0 <= n <= |run| :: OpenAt(a, run, n)) <==> forall k | 0 <= k < |run| :: LeavesAt(a, run, k)
  {
    hide OpenAt, LeavesAt;
    if forall n | 0 <= n <= |run| :: OpenAt(a, run, n) {
      forall k | 0 <= k < |run|
        ensures LeavesAt(a, run, k)
      {
        StepIsOpenIff(a, run, k);
      }
    }
    if forall k | 0 <= k < |run| :: LeavesAt(a, run, k) {
      forall n | 0 <= n <= |run|
        ensures OpenAt(a, run, n)
      {
        OpenUpTo(a, run, n);
      }
    }
  }

  lemma {:induction false} OpenUpTo(a: Accounts, run: seq<Move>, n: nat)
    requires a.Valid() && HasAdmin(a) && n <= |run| && forall k | 0 <= k < n :: LeavesAt(a, run, k)
    ensures OpenAt(a, run, n)
    decreases n
  {
    if n == 0 {
      assert run[..0] == [];
    } else {
      hide OpenAt, LeavesAt;
      OpenUpTo(a, run, n - 1);
      StepIsOpenIff(a, run, n - 1);
    }
  }

  /** So there is while no change that takes someone's standing is written in the gap of another that
      does: the guard of each still holds when it is written. */
  lemma {:induction false} WayInWhileApart(a: Accounts, run: seq<Move>, n: nat)
    requires a.Valid() && HasAdmin(a) && Apart(a, run) && n <= |run|
    ensures OpenAt(a, run, n)
    decreases n
  {
    hide *;
    if n == 0 {
      OpenAtStart(a, run);
    } else {
      var w := n - 1;
      WayInWhileApart(a, run, w);
      if TakesAt(a, run, w) {
        WrittenWasDecided(a, run, w);
        WayInWhileApart(a, run, run[w].decided);
        TakenStep(a, run, w);
      } else {
        OpenStays(a, run, w);
      }
    }
  }

  lemma OpenAtStart(a: Accounts, run: seq<Move>)
    requires HasAdmin(a)
    ensures OpenAt(a, run, 0)
  {
    assert run[..0] == [];
  }

  lemma TakenStep(a: Accounts, run: seq<Move>, w: nat)
    requires a.Valid() && Apart(a, run) && w < |run| && TakesAt(a, run, w) && OpenAt(a, run, w)
    requires run[w].Carry? && run[w].decided < w && OpenAt(a, run, run[w].decided)
    ensures OpenAt(a, run, w + 1)
  {
    hide *;
    WrittenWasDecided(a, run, w);
    NothingBetween(a, run, w);
    TakenLeaves(a, run, run[w].decided, w);
    StepIsOpenIff(a, run, w);
  }

  lemma NothingBetween(a: Accounts, run: seq<Move>, w: nat)
    requires Apart(a, run) && w < |run| && TakesAt(a, run, w) && run[w].Carry?
    ensures forall k | run[w].decided < k < w :: !TakesAt(a, run, k)
  {
    hide TakesAt;
  }

  lemma WrittenWasDecided(a: Accounts, run: seq<Move>, w: nat)
    requires a.Valid() && w < |run| && TakesAt(a, run, w)
    ensures Carries(a, run, w) && run[w].Carry?
    ensures var d := run[w].decided;
      && d < w && run[d].Decide?
      && After(a, run[..w]).decided[d] == Rest(After(a, run[..d]).accounts, run[d].me, run[d].request)
  {
    hide Takes, Rest, After;
    var d := run[w].decided;
    RunIsFine(a, run[..w]);
    assert Pending(a, run[..w], d) && run[..w][..d] == run[..d];
  }

  lemma OpenStays(a: Accounts, run: seq<Move>, k: nat)
    requires a.Valid() && k < |run| && OpenAt(a, run, k) && !TakesAt(a, run, k)
    ensures OpenAt(a, run, k + 1)
  {
    hide TakesAt, After, IsActiveAdmin;
    var id :| IsActiveAdmin(After(a, run[..k]).accounts, id);
    StandingStays(a, run, k, id);
  }

  /** What was decided when there was a way in, and is written before anyone's standing is taken, leaves
      somebody in place. */
  lemma TakenLeaves(a: Accounts, run: seq<Move>, d: nat, w: nat)
    requires a.Valid() && d < w < |run| && Carries(a, run, w) && run[w].decided == d && run[d].Decide?
    requires After(a, run[..w]).decided[d] == Rest(After(a, run[..d]).accounts, run[d].me, run[d].request)
    requires OpenAt(a, run, d) && forall k | d < k < w :: !TakesAt(a, run, k)
    ensures LeavesAt(a, run, w)
  {
    hide Rest, UnseatsAny;
    var s := After(a, run[..d]);
    DecidedLeaves(s.accounts, run[d].me, run[d].request);
    var id :| IsActiveAdmin(s.accounts, id) && !UnseatsAny(Rest(s.accounts, run[d].me, run[d].request), id);
    StandingStaysThrough(a, run, d, w, id);
  }

  // ---- It does happen -----------------------------------------------------------------------------------

  /** The only two administrators remove each other, both having passed the guard: nobody is left. */
  lemma MutualRemovalLocksOut(a: Accounts, x: nat, y: nat, hard: bool, at: real)
    requires a.Valid() && x != y && IsActiveAdmin(a, x) && IsActiveAdmin(a, y)
    requires forall id :: IsActiveAdmin(a, id) ==> id == x || id == y
    ensures BodyEffect(a, x, DeleteUser(y, hard)).refused.None? && BodyEffect(a, y, DeleteUser(x, hard)).refused.None?
    ensures var run :=
        [Decide(x, DeleteUser(y, hard), at), Decide(y, DeleteUser(x, hard), at), Carry(0, at), Carry(1, at)];
      !HasAdmin(After(a, run).accounts)
  {
    hide Write, BodyEffect, IsActiveAdmin;
    BothPass(a, x, y, hard);
    BothPass(a, y, x, hard);
    var s := State(a, map[], 0);
    var first, second := Decide(x, DeleteUser(y, hard), at), Decide(y, DeleteUser(x, hard), at);
    AfterFour(a, first, second, Carry(0, at), Carry(1, at));
    WriteNone(a, at);
    Removed(a, y, hard, at);
    Removed(Write(a, RemovalOf(y, hard), at), x, hard, at);
  }

  lemma AfterFour(a: Accounts, m: Move, n: Move, o: Move, p: Move)
    ensures After(a, [m, n, o, p]) == Advance(Advance(Advance(Advance(State(a, map[], 0), m), n), o), p)
  {
    hide Advance;
    assert [m][..0] == [] && After(a, [m]) == Advance(State(a, map[], 0), m);
    assert [m, n][..1] == [m] && After(a, [m, n]) == Advance(After(a, [m]), n);
    assert [m, n, o][..2] == [m, n] && After(a, [m, n, o]) == Advance(After(a, [m, n]), o);
    assert [m, n, o, p][..3] == [m, n, o];
  }

  function RemovalOf(id: nat, hard: bool): seq<Change>
  {
    if hard then [Deleted(id)] else [Updated(id, None, Some(false)), UserRevoked(id)]
  }

  lemma BothPass(a: Accounts, me: nat, id: nat, hard: bool)
    requires me != id && IsActiveAdmin(a, me) && IsActiveAdmin(a, id)
    ensures BodyEffect(a, me, DeleteUser(id, hard)) == Effect(RemovalOf(id, hard), None)
    ensures Early(RemovalOf(id, hard)) == 0
  {
  }

  lemma Removed(a: Accounts, id: nat, hard: bool, now: real)
    ensures forall other :: IsActiveAdmin(Write(a, RemovalOf(id, hard), now), other)
                            <==> IsActiveAdmin(a, other) && other != id
  {
    WriteOne(a, Deleted(id), now);
    WriteTwo(a, Updated(id, None, Some(false)), UserRevoked(id), now);
  }
}
