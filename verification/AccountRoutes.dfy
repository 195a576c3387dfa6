/** The account administration routes over the user store. */
module AccountRoutes {
  import opened Results
  import opened Sessions

  datatype Refusal = NotAdmin | CannotCreate | UnknownUser | PasswordTooShort | OwnRole | OwnAccount | LastAdmin

  /** A password in a request: not given, or given and judged by its length. */
  datatype NewPassword = Unchanged | TooShort | LongEnough

  /** A request of an authenticated caller. */
  datatype Request =
    | ChangeOwnPassword(currentRight: bool, longEnough: bool)
    | CreateUser(acceptable: bool, newRole: Role)
    | UpdateUser(id: nat, newPassword: NewPassword, role: Option<Role>, active: Option<bool>)
    | DeleteUser(id: nat, hard: bool)
    | RevokeEveryone
    | RevokeOne(id: nat)

  predicate IsActiveAdmin(a: Accounts, id: nat)
  {
    id in a.users && a.users[id].role == Admin && a.users[id].active
  }

  /** The route's guard: the target is the only active administrator. */
  predicate IsLastAdmin(a: Accounts, target: nat)
  {
    IsActiveAdmin(a, target) && !exists id | id in a.users :: id != target && IsActiveAdmin(a, id)
  }

  /** What a request writes, in order, and why it stops, if it does. */
  datatype Effect = Effect(changes: seq<Change>, refused: Option<Refusal>)

  function RoleFault(a: Accounts, me: nat, id: nat, target: User, role: Option<Role>): Option<Refusal>
  {
    if role.None? || role.value == target.role then None
    else if id == me then Some(OwnRole)
    else if target.role == Admin && IsLastAdmin(a, id) then Some(LastAdmin)
    else None
  }

  function ActiveFault(a: Accounts, me: nat, id: nat, target: User, active: Option<bool>): Option<Refusal>
  {
    if active.None? || active.value == target.active then None
    else if id == me then Some(OwnAccount)
    else if !active.value && IsLastAdmin(a, id) then Some(LastAdmin)
    else None
  }

  function UpdateEffect(
    a: Accounts, me: nat, id: nat, newPassword: NewPassword, role: Option<Role>, active: Option<bool>): Effect
  {
    if id !in a.users then Effect([], Some(UnknownUser))
    else if newPassword == TooShort then Effect([], Some(PasswordTooShort))
    else
      var written := if newPassword == LongEnough then [PasswordSet(id)] else [];
      var target := a.users[id];
      match RoleFault(a, me, id, target, role)
      case Some(why) => Effect(written, Some(why))
      case None =>
        match ActiveFault(a, me, id, target, active)
        case Some(why) => Effect(written, Some(why))
        case None => Effect(written + [Updated(id, role, active)], None)
  }

  function DeleteEffect(a: Accounts, me: nat, id: nat, hard: bool): Effect
  {
    if id !in a.users then Effect([], Some(UnknownUser))
    else if id == me then Effect([], Some(OwnAccount))
    else if IsLastAdmin(a, id) then Effect([], Some(LastAdmin))
    else if hard then Effect([Deleted(id)], None)
    else Effect([Updated(id, None, Some(false)), UserRevoked(id)], None)
  }

  /** The body of a route, run for a caller who has been let in. */
  function BodyEffect(a: Accounts, me: nat, request: Request): Effect
  {
    match request
    case ChangeOwnPassword(currentRight, longEnough) =>
      if currentRight && longEnough then Effect([PasswordSet(me)], None) else Effect([], Some(PasswordTooShort))
    case CreateUser(acceptable, newRole) =>
      if acceptable then Effect([Created(newRole)], None) else Effect([], Some(CannotCreate))
    case UpdateUser(id, newPassword, role, active) => UpdateEffect(a, me, id, newPassword, role, active)
    case DeleteUser(id, hard) => DeleteEffect(a, me, id, hard)
    case RevokeEveryone => Effect([AllRevoked], None)
    case RevokeOne(id) => if id in a.users then Effect([UserRevoked(id)], None) else Effect([], Some(UnknownUser))
  }

  /** Who may be let in. */
  predicate MayCall(a: Accounts, me: nat, request: Request)
  {
    request.ChangeOwnPassword? || IsActiveAdmin(a, me)
  }

  /** A whole request as one step. */
  function EffectOf(a: Accounts, me: nat, request: Request): Effect
  {
    if MayCall(a, me, request) then BodyEffect(a, me, request) else Effect([], Some(NotAdmin))
  }

  /** Writing changes one after the other at one time. */
  function Write(a: Accounts, changes: seq<Change>, now: real): Accounts
  {
    if changes == [] then a
    else Apply(Write(a, changes[..|changes| - 1], now), Event(now, changes[|changes| - 1]))
  }

  lemma WriteNone(a: Accounts, now: real)
    ensures Write(a, [], now) == a
  {
  }

  lemma WriteThenUpdate(
    a: Accounts, written: seq<Change>, id: nat, role: Option<Role>, active: Option<bool>, now: real)
    ensures Write(a, written + [Updated(id, role, active)], now) == Write(a, written, now).Update(id, role, active)
  {
    assert (written + [Updated(id, role, active)])[..|written|] == written;
  }

  /** The password step of an update: what it writes, and that the guard sees the same afterwards. */
  lemma PasswordWritten(a: Accounts, id: nat, newPassword: NewPassword, now: real)
    requires newPassword != TooShort
    ensures var b := Write(a, if newPassword == LongEnough then [PasswordSet(id)] else [], now);
      && b == (if newPassword == LongEnough then a.RevokeUser(id, now) else a)
      && (IsLastAdmin(b, id) <==> IsLastAdmin(a, id))
  {
    WriteOne(a, PasswordSet(id), now);
    RevocationKeepsLast(a, id, id, now);
  }

  lemma WriteOne(a: Accounts, c: Change, now: real)
    ensures Write(a, [c], now) == Apply(a, Event(now, c))
  {
    assert [c][..0] == [];
  }

  lemma WriteTwo(a: Accounts, c: Change, d: Change, now: real)
    ensures Write(a, [c, d], now) == Apply(Apply(a, Event(now, c)), Event(now, d))
  {
    assert [c, d][..1] == [c];
    WriteOne(a, c, now);
  }

  // ---- The routes that take several steps ----------------------------------------------------------

  class AccountApi {
    const users: UserStore

    constructor (users: UserStore)
      ensures this.users == users
    {
      this.users := users;
    }

    method UpdateUser(
      me: nat, id: nat, newPassword: NewPassword, role: Option<Role>, active: Option<bool>, now: real)
      returns (refused: Option<Refusal>)
      modifies users
      ensures var e := UpdateEffect(old(users.Contents()), me, id, newPassword, role, active);
        refused == e.refused && users.Contents() == Write(old(users.Contents()), e.changes, now)
    {
      hide IsLastAdmin, IsActiveAdmin, Write, Apply, Accounts.RevokeUser, Accounts.Update;
      ghost var before := users.Contents();
      WriteNone(before, now);
      if id !in users.users {
        return Some(UnknownUser);
      }
      var target := users.users[id];
      if newPassword != Unchanged {
        var ok := users.SetPassword(id, newPassword == LongEnough, now);
        if !ok {
          return Some(PasswordTooShort);
        }
      }
      ghost var written := if newPassword == LongEnough then [PasswordSet(id)] else [];
      PasswordWritten(before, id, newPassword, now);
      if role.Some? && role.value != target.role {
        if id == me {
          return Some(OwnRole);
        }
        if target.role == Admin && IsLastAdmin(users.Contents(), id) {
          return Some(LastAdmin);
        }
      }
      if active.Some? && active.value != target.active {
        if id == me {
          return Some(OwnAccount);
        }
        if !active.value && IsLastAdmin(users.Contents(), id) {
          return Some(LastAdmin);
        }
      }
      users.Update(id, role, active);
      WriteThenUpdate(before, written, id, role, active, now);
      return None;
    }

    method DeleteUser(me: nat, id: nat, hard: bool, now: real) returns (refused: Option<Refusal>)
      modifies users
      ensures var e := DeleteEffect(old(users.Contents()), me, id, hard);
        refused == e.refused && users.Contents() == Write(old(users.Contents()), e.changes, now)
    {
      ghost var before := users.Contents();
      if id !in users.users {
        return Some(UnknownUser);
      }
      if id == me {
        return Some(OwnAccount);
      }
      if IsLastAdmin(users.Contents(), id) {
        return Some(LastAdmin);
      }
      if hard {
        users.Delete(id);
        WriteOne(before, Deleted(id), now);
        return None;
      }
      users.Update(id, None, Some(false));
      users.RevokeUserSessions(id, now);
      WriteTwo(before, Updated(id, None, Some(false)), UserRevoked(id), now);
      return None;
    }
  }

  // ---- Someone can always get in ----------------------------------------------------------------------

  /** A change that leaves user `id` no active administrator. */
  predicate Unseats(c: Change, id: nat)
  {
    c == Deleted(id) || (c.Updated? && c.id == id && (c.role == Some(PlainUser) || c.active == Some(false)))
  }

  lemma RequestsSpareCaller(a: Accounts, me: nat, request: Request)
    requires IsActiveAdmin(a, me)
    ensures forall i | 0 <= i < |EffectOf(a, me, request).changes| :: !Unseats(EffectOf(a, me, request).changes[i], me)
  {
    hide IsLastAdmin;
  }

  /** Ids are never reused. */
  lemma {:induction false} WriteKeepsValid(a: Accounts, changes: seq<Change>, now: real)
    requires a.Valid()
    ensures Write(a, changes, now).Valid()
  {
    if changes != [] {
      WriteKeepsValid(a, changes[..|changes| - 1], now);
    }
  }

  lemma {:induction false} SparedStays(a: Accounts, me: nat, changes: seq<Change>, now: real)
    requires a.Valid() && IsActiveAdmin(a, me) && forall i | 0 <= i < |changes| :: !Unseats(changes[i], me)
    ensures IsActiveAdmin(Write(a, changes, now), me)
  {
    if changes != [] {
      WriteKeepsValid(a, changes[..|changes| - 1], now);
      SparedStays(a, me, changes[..|changes| - 1], now);
    }
  }

  /** An administrator's own request leaves that administrator in place, whatever it does. */
  lemma CallerKeepsStanding(a: Accounts, me: nat, request: Request, now: real)
    requires a.Valid() && IsActiveAdmin(a, me)
    ensures IsActiveAdmin(Write(a, EffectOf(a, me, request).changes, now), me)
  {
    RequestsSpareCaller(a, me, request);
    SparedStays(a, me, EffectOf(a, me, request).changes, now);
  }

  /** A request that asks for such a change. */
  predicate WouldUnseat(request: Request, id: nat)
  {
    match request
    case DeleteUser(target, _) => target == id
    case UpdateUser(target, newPassword, role, active) =>
      target == id && newPassword != TooShort && (role == Some(PlainUser) || active == Some(false))
    case _ => false
  }

  /** When the guard on the last administrator decides: exactly when someone else, let in earlier,
      asks to unseat the only active administrator.  That caller has lost their own standing since. */
  lemma GuardDecidesIff(a: Accounts, me: nat, request: Request)
    ensures BodyEffect(a, me, request).refused == Some(LastAdmin)
       <==> exists id :: id != me && IsLastAdmin(a, id) && WouldUnseat(request, id)
    ensures BodyEffect(a, me, request).refused == Some(LastAdmin) ==> !IsActiveAdmin(a, me)
  {
    if request.DeleteUser? || request.UpdateUser? {
      assert request.id != me && IsLastAdmin(a, request.id) && WouldUnseat(request, request.id)
         <==> BodyEffect(a, me, request).refused == Some(LastAdmin);
    }
  }

  /** So while a request is one step, from letting the caller in to writing, the guard never decides. */
  lemma LastAdminNeverRefused(a: Accounts, me: nat, request: Request)
    ensures EffectOf(a, me, request).refused != Some(LastAdmin)
  {
    GuardDecidesIff(a, me, request);
  }

  ghost predicate HasAdmin(a: Accounts)
  {
    exists id :: IsActiveAdmin(a, id)
  }

  /** Changes that unseat nobody, or not the last one. */
  ghost predicate Harmless(a: Accounts, c: Change)
  {
    forall id | IsLastAdmin(a, id) :: !Unseats(c, id)
  }

  /** One change leaves an active administrator exactly when it does not unseat the last one. */
  lemma ChangeLeavesAdminIff(a: Accounts, c: Change, now: real)
    requires a.Valid() && HasAdmin(a)
    ensures HasAdmin(Apply(a, Event(now, c))) <==> Harmless(a, c)
  {
    var b := Apply(a, Event(now, c));
    if !Harmless(a, c) {
      var id :| IsLastAdmin(a, id) && Unseats(c, id);
      assert forall other :: !IsActiveAdmin(b, other);
    } else {
      var id := Remaining(a, c);
      assert IsActiveAdmin(b, id);
    }
  }

  /** An active administrator whom a harmless change does not unseat. */
  lemma Remaining(a: Accounts, c: Change) returns (id: nat)
    requires a.Valid() && Harmless(a, c) && HasAdmin(a)
    ensures IsActiveAdmin(a, id) && !Unseats(c, id)
  {
    id :| IsActiveAdmin(a, id);
    if Unseats(c, id) {
      assert !IsLastAdmin(a, id);
      id :| id in a.users && id != c.id && IsActiveAdmin(a, id);
    }
  }

  /** Whatever a body writes, for a caller let in whenever, is harmless to what it was decided on:
      this is what the guard is for. */
  lemma BodyIsHarmless(a: Accounts, me: nat, request: Request, i: nat)
    requires i < |BodyEffect(a, me, request).changes|
    ensures Harmless(a, BodyEffect(a, me, request).changes[i])
  {
  }

  datatype Call = Call(me: nat, request: Request, letIn: bool, now: real)

  /** Runs of requests.  Each caller was let in or not at some earlier time; the body runs in one
      step, but anything may have happened in between. */
  function RunCalls(a: Accounts, calls: seq<Call>): Accounts
  {
    if calls == [] then a
    else
      var before, c := RunCalls(a, calls[..|calls| - 1]), calls[|calls| - 1];
      if c.letIn then Write(before, BodyEffect(before, c.me, c.request).changes, c.now) else before
  }

  /** A body leaves the system with an active administrator if it had one. */
  lemma AdminRemains(a: Accounts, me: nat, request: Request, now: real)
    requires a.Valid() && HasAdmin(a)
    ensures HasAdmin(Write(a, BodyEffect(a, me, request).changes, now))
  {
    hide IsLastAdmin, IsActiveAdmin;
    var changes := BodyEffect(a, me, request).changes;
    BodyShape(a, me, request);
    if changes == [] {
      WriteNone(a, now);
    } else {
      assert changes[..1] == [changes[0]] && Harmless(a, changes[0]) by { BodyIsHarmless(a, me, request, 0); }
      WriteOne(a, changes[0], now);
      ChangeLeavesAdminIff(a, changes[0], now);
      if |changes| == 2 {
        var b := Apply(a, Event(now, changes[0]));
        WriteTwo(a, changes[0], changes[1], now);
        BodyIsHarmless(a, me, request, 1);
        SecondIsHarmless(a, changes[0], changes[1], now);
        WriteKeepsValid(a, [changes[0]], now);
        ChangeLeavesAdminIff(b, changes[1], now);
      }
    }
  }

  /** At most two changes; of two, one only ends sessions. */
  lemma BodyShape(a: Accounts, me: nat, request: Request)
    ensures var changes := BodyEffect(a, me, request).changes;
      || changes == [] || changes == [changes[0]]
      || (changes == [changes[0], changes[1]]
          && (EndsSessions(changes[0]) || EndsSessions(changes[1])))
  {
  }

  predicate EndsSessions(c: Change)
  {
    c.PasswordSet? || c.UserRevoked?
  }

  lemma SecondIsHarmless(a: Accounts, c: Change, d: Change, now: real)
    requires Harmless(a, d) && (EndsSessions(c) || EndsSessions(d))
    ensures Harmless(Apply(a, Event(now, c)), d)
  {
    if EndsSessions(c) && !EndsSessions(d) {
      var b := Apply(a, Event(now, c));
      forall id | IsLastAdmin(b, id)
        ensures IsLastAdmin(a, id)
      {
        RevocationKeepsLast(a, c.id, id, now);
      }
    }
  }

  lemma RevocationKeepsLast(a: Accounts, revoked: nat, id: nat, now: real)
    ensures IsLastAdmin(a.RevokeUser(revoked, now), id) <==> IsLastAdmin(a, id)
  {
    var b := a.RevokeUser(revoked, now);
    assert forall other: nat :: IsActiveAdmin(b, other) <==> IsActiveAdmin(a, other);
    if IsActiveAdmin(a, id) {
      if other :| other in a.users && other != id && IsActiveAdmin(a, other) {
        assert other in b.users && IsActiveAdmin(b, other);
      }
      if other :| other in b.users && other != id && IsActiveAdmin(b, other) {
        assert other in a.users && IsActiveAdmin(a, other);
      }
    }
  }

  /** So over every run of requests, with callers let in at any earlier time, there is a way in. */
  lemma {:induction false} AlwaysAWayIn(a: Accounts, calls: seq<Call>)
    requires a.Valid() && HasAdmin(a)
    ensures RunCalls(a, calls).Valid() && HasAdmin(RunCalls(a, calls))
  {
    if calls != [] {
      AlwaysAWayIn(a, calls[..|calls| - 1]);
      var c := calls[|calls| - 1];
      var before := RunCalls(a, calls[..|calls| - 1]);
      if c.letIn {
        AdminRemains(before, c.me, c.request, c.now);
        WriteKeepsValid(before, BodyEffect(before, c.me, c.request).changes, c.now);
      }
    }
  }

  /** A refused update has changed nothing, except that a password given with it, if long enough, is
      already set and the user's sessions ended: the checks on role and standing come after. */
  lemma RefusedUpdate(
    a: Accounts, me: nat, id: nat, newPassword: NewPassword, role: Option<Role>, active: Option<bool>, now: real)
    requires UpdateEffect(a, me, id, newPassword, role, active).refused.Some?
    ensures var b := Write(a, UpdateEffect(a, me, id, newPassword, role, active).changes, now);
      b == (if id in a.users && newPassword == LongEnough then a.RevokeUser(id, now) else a)
  {
    hide RoleFault, ActiveFault;
    WriteOne(a, PasswordSet(id), now);
  }
}
