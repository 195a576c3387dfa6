/** Accounts and sessions: two stored cutoffs stand for the whole history of revocations.

    Times are seconds on the server's clock; tokens are signed and cannot be forged.
 */
module Sessions {
  import opened Results

  datatype Role = PlainUser | Admin

  datatype User = User(role: Role, active: bool, validFrom: Option<real>)

  /** The user table, the next id (ids are never reused) and the global cutoff. */
  datatype Accounts = Accounts(users: map<nat, User>, next: nat, epoch: real)
  {
    ghost predicate Valid()
    {
      forall id | id in users :: id < next
    }

    function Create(role: Role): Accounts
    {
      this.(users := users[next := User(role, true, None)], next := next + 1)
    }

    /** An update by id; on an id that is not there it changes nothing. */
    function Set(id: nat, user: User): Accounts
    {
      if id in users then this.(users := users[id := user]) else this
    }

    /** Voids what was issued to one user before `at`. */
    function RevokeUser(id: nat, at: real): Accounts
    {
      if id in users then Set(id, users[id].(validFrom := Some(at))) else this
    }

    function RevokeAll(at: real): Accounts
    {
      this.(epoch := at)
    }

    function Update(id: nat, role: Option<Role>, active: Option<bool>): Accounts
    {
      if id in users then
        var u := users[id];
        Set(id, u.(role := if role.Some? then role.value else u.role,
                   active := if active.Some? then active.value else u.active))
      else this
    }

    function Delete(id: nat): Accounts
    {
      this.(users := users - {id})
    }
  }

  // ---- Tokens --------------------------------------------------------------------------------

  datatype Token = Token(sub: nat, iat: real, exp: real)

  datatype Denied = BadToken | NoSuchUser | Deactivated | SessionOver

  function MaxReal(a: real, b: real): real
  {
    if a < b then b else a
  }

  /** The instant before which a user's tokens are refused; zero stands for none. */
  function Cutoff(a: Accounts, user: User): real
  {
    if user.validFrom.Some? && user.validFrom.value != 0.0 then MaxReal(a.epoch, user.validFrom.value) else a.epoch
  }

  function CurrentUser(a: Accounts, token: Token, now: real): Result<User, Denied>
  {
    if token.exp <= now then Err(BadToken)
    else if token.sub !in a.users then Err(NoSuchUser)
    else
      var user := a.users[token.sub];
      if !user.active then Err(Deactivated)
      else
        var cutoff := Cutoff(a, user);
        if cutoff != 0.0 && token.iat < cutoff then Err(SessionOver) else Ok(user)
  }

  // ---- The store object -------------------------------------------------------------------------

  class UserStore {
    var users: map<nat, User>
    var next: nat
    var epoch: real

    function Contents(): Accounts
      reads this
    {
      Accounts(users, next, epoch)
    }

    constructor ()
      ensures Contents() == Accounts(map[], 1, 0.0)
    {
      users, next, epoch := map[], 1, 0.0;
    }

    method Create(role: Role) returns (id: nat)
      modifies this
      ensures Contents() == old(Contents()).Create(role) && id == old(next)
    {
      id := next;
      users := users[id := User(role, true, None)];
      next := next + 1;
    }

    /** A password shorter than the minimum is refused before anything changes. */
    method SetPassword(id: nat, longEnough: bool, now: real) returns (ok: bool)
      modifies this
      ensures ok == longEnough
      ensures Contents() == if longEnough then old(Contents()).RevokeUser(id, now) else old(Contents())
    {
      if !longEnough {
        return false;
      }
      if id in users {
        users := users[id := users[id].(validFrom := Some(now))];
      }
      return true;
    }

    method Update(id: nat, role: Option<Role>, active: Option<bool>)
      modifies this
      ensures Contents() == old(Contents()).Update(id, role, active)
    {
      if id in users {
        var u := users[id];
        if role.Some? {
          u := u.(role := role.value);
        }
        if active.Some? {
          u := u.(active := active.value);
        }
        users := users[id := u];
      }
    }

    method Delete(id: nat)
      modifies this
      ensures Contents() == old(Contents()).Delete(id)
    {
      users := users - {id};
    }

    method RevokeUserSessions(id: nat, now: real)
      modifies this
      ensures Contents() == old(Contents()).RevokeUser(id, now)
    {
      if id in users {
        users := users[id := users[id].(validFrom := Some(now))];
      }
    }

    method RevokeAllSessions(now: real)
      modifies this
      ensures Contents() == old(Contents()).RevokeAll(now)
    {
      epoch := now;
    }
  }

  // ---- Histories -----------------------------------------------------------------------------------

  datatype Change =
    | Created(newRole: Role)
    | PasswordSet(id: nat)
    | UserRevoked(id: nat)
    | AllRevoked
    | Updated(id: nat, role: Option<Role>, active: Option<bool>)
    | Deleted(id: nat)

  datatype Event = Event(at: real, change: Change)

  function Apply(a: Accounts, e: Event): Accounts
  {
    match e.change
    case Created(role) => a.Create(role)
    case PasswordSet(id) => a.RevokeUser(id, e.at)
    case UserRevoked(id) => a.RevokeUser(id, e.at)
    case AllRevoked => a.RevokeAll(e.at)
    case Updated(id, role, active) => a.Update(id, role, active)
    case Deleted(id) => a.Delete(id)
  }

  function Replay(log: seq<Event>): Accounts
  {
    if log == [] then Accounts(map[], 1, 0.0) else Apply(Replay(log[..|log| - 1]), log[|log| - 1])
  }

  /** The i-th event of the log ended this user's sessions; revoking an id that is not there yet, or
      not any more, ends nothing. */
  predicate Ended(log: seq<Event>, i: nat, id: nat)
    requires i < |log|
  {
    || log[i].change == AllRevoked
    || ((log[i].change == PasswordSet(id) || log[i].change == UserRevoked(id)) && id in Replay(log[..i]).users)
  }

  ghost predicate TimesArePositive(log: seq<Event>)
  {
    forall i | 0 <= i < |log| :: log[i].at > 0.0
  }

  ghost predicate ClockNeverGoesBack(log: seq<Event>)
  {
    TimesArePositive(log) && forall i, j | 0 <= i <= j < |log| :: log[i].at <= log[j].at
  }

  /** Some event of the log, later than `iat`, ended the sessions of user `id`. */
  ghost predicate EndedAfter(log: seq<Event>, id: nat, iat: real)
  {
    exists i :: 0 <= i < |log| && Ended(log, i, id) && log[i].at > iat
  }

  /** When the last sweep was, if there was one. */
  function LastSweep(log: seq<Event>): Option<real>
  {
    if log == [] then None
    else if log[|log| - 1].change == AllRevoked then Some(log[|log| - 1].at)
    else LastSweep(log[..|log| - 1])
  }

  /** When the user's own sessions were last ended, if they were. */
  function LastOwn(log: seq<Event>, id: nat): Option<real>
  {
    if log == [] then None
    else if log[|log| - 1].change != AllRevoked && Ended(log, |log| - 1, id) then Some(log[|log| - 1].at)
    else LastOwn(log[..|log| - 1], id)
  }

  predicate Later(last: Option<real>, iat: real)
  {
    last.Some? && last.value > iat
  }

  lemma {:induction false} ReplayIsValid(log: seq<Event>)
    ensures Replay(log).Valid()
  {
    if log != [] {
      ReplayIsValid(log[..|log| - 1]);
    }
  }

  /** What is stored is the last of each, whatever the clock does. */
  lemma {:induction false} CutoffsAreLast(log: seq<Event>, id: nat)
    ensures Replay(log).epoch == if LastSweep(log).Some? then LastSweep(log).value else 0.0
    ensures id in Replay(log).users ==> Replay(log).users[id].validFrom == LastOwn(log, id)
    ensures id >= Replay(log).next ==> LastOwn(log, id).None?
  {
    if log != [] {
      var front := log[..|log| - 1];
      CutoffsAreLast(front, id);
      ReplayIsValid(front);
      hide Replay;
      assert Replay(log) == Apply(Replay(front), log[|log| - 1]) by { ReplaySnoc(log); }
    }
  }

  lemma ReplaySnoc(log: seq<Event>)
    requires log != []
    ensures Replay(log) == Apply(Replay(log[..|log| - 1]), log[|log| - 1])
  {
  }

  /** The last events are events of the log. */
  lemma {:induction false} LastIsEvent(log: seq<Event>, id: nat)
    requires TimesArePositive(log)
    ensures LastSweep(log).Some? ==>
      exists i :: 0 <= i < |log| && Ended(log, i, id) && log[i].at == LastSweep(log).value > 0.0
    ensures LastOwn(log, id).Some? ==>
      exists i :: 0 <= i < |log| && Ended(log, i, id) && log[i].at == LastOwn(log, id).value > 0.0
  {
    if log != [] {
      var front := log[..|log| - 1];
      LastIsEvent(front, id);
      EndedInFront(log, id);
    }
  }

  lemma EndedInFront(log: seq<Event>, id: nat)
    requires log != []
    ensures var front := log[..|log| - 1];
      forall i | 0 <= i < |front| :: front[i] == log[i] && (Ended(front, i, id) <==> Ended(log, i, id))
  {
    var front := log[..|log| - 1];
    forall i | 0 <= i < |front|
      ensures front[i] == log[i] && (Ended(front, i, id) <==> Ended(log, i, id))
    {
      assert front[..i] == log[..i];
    }
  }

  /** The law of the two cutoffs, for any clock: a token is accepted, as its user stands now, exactly when
      it has not expired, its user is there and active and neither the last sweep nor the last ending of
      the user's own sessions is later than the token's `iat`. */
  lemma AcceptedIffLastNotLater(log: seq<Event>, token: Token, now: real)
    requires TimesArePositive(log)
    ensures CurrentUser(Replay(log), token, now).Ok?
       <==> now < token.exp && token.sub in Replay(log).users && Replay(log).users[token.sub].active
            && !Later(LastSweep(log), token.iat) && !Later(LastOwn(log, token.sub), token.iat)
    ensures CurrentUser(Replay(log), token, now).Ok? ==>
      CurrentUser(Replay(log), token, now).value == Replay(log).users[token.sub]
  {
    CutoffsAreLast(log, token.sub);
    LastIsEvent(log, token.sub);
  }

  /** Why a token is refused: the first of these that holds. */
  lemma RefusedBecause(log: seq<Event>, token: Token, now: real)
    requires TimesArePositive(log)
    ensures var r, a := CurrentUser(Replay(log), token, now), Replay(log);
      && (r == Err(BadToken) <==> now >= token.exp)
      && (r == Err(NoSuchUser) <==> now < token.exp && token.sub !in a.users)
      && (r == Err(Deactivated) <==> now < token.exp && token.sub in a.users && !a.users[token.sub].active)
      && (r == Err(SessionOver) <==>
            && now < token.exp && token.sub in a.users && a.users[token.sub].active
            && (Later(LastSweep(log), token.iat) || Later(LastOwn(log, token.sub), token.iat)))
  {
    AcceptedIffLastNotLater(log, token, now);
  }

  // ---- Standing ------------------------------------------------------------------------------------

  /** The role a user was last given, by an update of that user while there or when created. */
  function LastRole(log: seq<Event>, id: nat): Option<Role>
  {
    if log == [] then None
    else
      var front, change := log[..|log| - 1], log[|log| - 1].change;
      if change.Created? && id == Replay(front).next then Some(change.newRole)
      else if change.Updated? && change.id == id && change.role.Some? && id in Replay(front).users then change.role
      else LastRole(front, id)
  }

  /** Whether a user was last made active, as everyone is when created. */
  function LastActive(log: seq<Event>, id: nat): bool
  {
    if log == [] then true
    else
      var front, change := log[..|log| - 1], log[|log| - 1].change;
      if change.Created? && id == Replay(front).next then true
      else if change.Updated? && change.id == id && change.active.Some? && id in Replay(front).users then
        change.active.value
      else LastActive(front, id)
  }

  /** Created and not deleted since. */
  ghost predicate IsAround(log: seq<Event>, id: nat)
  {
    exists i :: 0 <= i < |log| && log[i].change.Created? && id == Replay(log[..i]).next
                && forall j | i < j < |log| :: log[j].change != Deleted(id)
  }

  lemma {:induction false} AroundIff(log: seq<Event>, id: nat)
    ensures id in Replay(log).users <==> IsAround(log, id)
  {
    if log != [] {
      var last := |log| - 1;
      var front := log[..last];
      AroundIff(front, id);
      ReplayIsValid(front);
      AroundGrows(log, id);
      hide IsAround;
    }
  }

  lemma AroundGrows(log: seq<Event>, id: nat)
    requires log != []
    ensures var last := |log| - 1;
      IsAround(log, id) <==>
        (log[last].change.Created? && id == Replay(log[..last]).next)
        || (IsAround(log[..last], id) && log[last].change != Deleted(id))
  {
    hide Replay;
    var last := |log| - 1;
    var front := log[..last];
    assert forall i: nat | i < last :: front[i] == log[i] && front[..i] == log[..i];
    assert log[..last] == front;
    if IsAround(front, id) && log[last].change != Deleted(id) {
      var i :| 0 <= i < last && front[i].change.Created? && id == Replay(front[..i]).next
               && forall j | i < j < last :: front[j].change != Deleted(id);
      assert log[i].change.Created? && id == Replay(log[..i]).next;
    }
    if IsAround(log, id) {
      var i :| 0 <= i < |log| && log[i].change.Created? && id == Replay(log[..i]).next
               && forall j | i < j < |log| :: log[j].change != Deleted(id);
      if i < last {
        assert front[i].change.Created? && id == Replay(front[..i]).next;
      }
    }
  }

  /** A user who is around stands as last given, whatever happened to others. */
  lemma {:induction false} StandingIsLast(log: seq<Event>, id: nat)
    requires id in Replay(log).users
    ensures Replay(log).users[id].active == LastActive(log, id)
    ensures LastRole(log, id) == Some(Replay(log).users[id].role)
  {
    var front := log[..|log| - 1];
    ReplayIsValid(front);
    if id in Replay(front).users {
      StandingIsLast(front, id);
    }
  }

  /** The later of the two last events; zero if there was none. */
  function LastEnding(log: seq<Event>, id: nat): real
  {
    var sweep, own := LastSweep(log), LastOwn(log, id);
    MaxReal(if sweep.Some? then sweep.value else 0.0, if own.Some? then own.value else 0.0)
  }

  /** The last events stand for the full history exactly when the clock, by the later of them, was
      not behind any event that ended the user's sessions before. */
  lemma LastTellsLogIff(log: seq<Event>, id: nat)
    requires TimesArePositive(log)
    ensures (forall iat :: iat >= 0.0 ==>
               (Later(LastSweep(log), iat) || Later(LastOwn(log, id), iat) <==> EndedAfter(log, id, iat)))
       <==> forall i | 0 <= i < |log| && Ended(log, i, id) :: log[i].at <= LastEnding(log, id)
  {
    LastIsEvent(log, id);
    if forall iat :: iat >= 0.0 ==>
         (Later(LastSweep(log), iat) || Later(LastOwn(log, id), iat) <==> EndedAfter(log, id, iat)) {
      var iat := LastEnding(log, id);
      assert !Later(LastSweep(log), iat) && !Later(LastOwn(log, id), iat);
      assert !EndedAfter(log, id, iat);
    }
    if forall i | 0 <= i < |log| && Ended(log, i, id) :: log[i].at <= LastEnding(log, id) {
      forall iat | iat >= 0.0
        ensures Later(LastSweep(log), iat) || Later(LastOwn(log, id), iat) <==> EndedAfter(log, id, iat)
      {
        LastLaterIsEnding(log, id, iat);
      }
    }
  }

  lemma LastLaterIsEnding(log: seq<Event>, id: nat, iat: real)
    requires TimesArePositive(log)
    ensures Later(LastSweep(log), iat) || Later(LastOwn(log, id), iat) ==> EndedAfter(log, id, iat)
  {
    LastIsEvent(log, id);
  }

  /** With a clock that never goes back the last event is the latest. */
  lemma {:induction false} LastIsLatest(log: seq<Event>, id: nat)
    requires ClockNeverGoesBack(log)
    ensures forall i | 0 <= i < |log| && Ended(log, i, id) :: log[i].at <= LastEnding(log, id)
  {
    if log != [] {
      var front, last := log[..|log| - 1], log[|log| - 1];
      LastIsLatest(front, id);
      EndedInFront(log, id);
      LastIsEvent(front, id);
      assert LastEnding(front, id) <= last.at;
      hide Ended;
      forall i | 0 <= i < |log| && Ended(log, i, id)
        ensures log[i].at <= LastEnding(log, id)
      {
        LastGrows(log, id);
      }
    }
  }

  lemma LastGrows(log: seq<Event>, id: nat)
    requires log != [] && LastEnding(log[..|log| - 1], id) <= log[|log| - 1].at && log[|log| - 1].at > 0.0
    ensures LastEnding(log, id) >= LastEnding(log[..|log| - 1], id)
    ensures Ended(log, |log| - 1, id) ==> LastEnding(log, id) >= log[|log| - 1].at
  {
  }

  /** The stored cutoff passes a time exactly when an event of the log ended the user's sessions later
      than that time, if the clock never goes back. */
  lemma CutoffTellsLog(log: seq<Event>, id: nat, iat: real)
    requires ClockNeverGoesBack(log) && id in Replay(log).users && iat >= 0.0
    ensures Cutoff(Replay(log), Replay(log).users[id]) > iat <==> EndedAfter(log, id, iat)
  {
    CutoffsAreLast(log, id);
    LastIsEvent(log, id);
    LastIsLatest(log, id);
    LastTellsLogIff(log, id);
  }

  /** The two cutoffs are enough.  While the clock does not go back, an unexpired token is accepted
      exactly when its user is still there and active and no event of the full history, later than
      the token's `iat`, changed that user's password or revoked their sessions or everyone's. */
  lemma AcceptedIffNotEnded(log: seq<Event>, token: Token, now: real)
    requires ClockNeverGoesBack(log) && token.iat >= 0.0 && now < token.exp
    ensures CurrentUser(Replay(log), token, now).Ok?
       <==> token.sub in Replay(log).users && Replay(log).users[token.sub].active
            && !EndedAfter(log, token.sub, token.iat)
  {
    AcceptedIffLastNotLater(log, token, now);
    LastIsLatest(log, token.sub);
    LastTellsLogIff(log, token.sub);
  }

  /** The token handed back by a password change or a sweep is minted after it, and accepted unless
      the clock stood behind a last event made by someone else. */
  lemma ReplacementAccepted(log: seq<Event>, token: Token, now: real)
    requires TimesArePositive(log) && now < token.exp
    requires log != [] && Ended(log, |log| - 1, token.sub) && token.iat >= log[|log| - 1].at
    requires token.sub in Replay(log).users && Replay(log).users[token.sub].active
    ensures CurrentUser(Replay(log), token, now).Ok?
       <==> !Later(if log[|log| - 1].change == AllRevoked then LastOwn(log, token.sub) else LastSweep(log), token.iat)
    ensures ClockNeverGoesBack(log) ==> CurrentUser(Replay(log), token, now) == Ok(Replay(log).users[token.sub])
  {
    AcceptedIffLastNotLater(log, token, now);
    LastIsEvent(log, token.sub);
  }

  /** A sweep ends exactly the accepted sessions whose tokens were issued strictly before it: one
      minted in the same instant survives. */
  lemma SweepEnds(a: Accounts, token: Token, now: real, at: real)
    requires CurrentUser(a, token, now).Ok? && at > 0.0
    ensures CurrentUser(a.RevokeAll(at), token, now).Ok? <==> token.iat >= at
  {
  }

  /** The cutoffs record the last revocation, not the latest: with a clock that went back, a later
      revocation can bring an ended session to life again. */
  lemma ClockGoingBackRevives(a: Accounts, token: Token, now: real, first: real, second: real)
    requires CurrentUser(a, token, now).Ok? && 0.0 < second <= token.iat < first
    ensures CurrentUser(a.RevokeAll(first), token, now).Err?
    ensures CurrentUser(a.RevokeAll(first).RevokeAll(second), token, now).Ok?
  {
  }
}
