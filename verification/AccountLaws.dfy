/** What each account request refuses, and what it does to the accounts. */
module AccountLaws {
  import opened Results
  import opened Sessions
  import opened AccountRoutes

  predicate RoleChange(a: Accounts, id: nat, role: Option<Role>)
  {
    id in a.users && role.Some? && role.value != a.users[id].role
  }

  predicate StandingChange(a: Accounts, id: nat, active: Option<bool>)
  {
    id in a.users && active.Some? && active.value != a.users[id].active
  }

  /** Why an update is refused: an unknown user, then a short password, then one's own role, then one's own
      standing; the last administrator apart. */
  lemma UpdateRefusedIff(
    a: Accounts, me: nat, id: nat, newPassword: NewPassword, role: Option<Role>, active: Option<bool>)
    ensures var refused := UpdateEffect(a, me, id, newPassword, role, active).refused;
      && (refused == Some(UnknownUser) <==> id !in a.users)
      && (refused == Some(PasswordTooShort) <==> id in a.users && newPassword == TooShort)
      && (refused == Some(OwnRole) <==> newPassword != TooShort && id == me && RoleChange(a, id, role))
      && (refused == Some(OwnAccount) <==>
            newPassword != TooShort && id == me && !RoleChange(a, id, role) && StandingChange(a, id, active))
  {
    hide IsLastAdmin;
  }

  /** An update that is not refused gives that user the role and standing asked for, ends their sessions
      if it sets a password, and changes nothing else. */
  lemma UpdateDoes(
    a: Accounts, me: nat, id: nat, newPassword: NewPassword, role: Option<Role>, active: Option<bool>, now: real)
    requires UpdateEffect(a, me, id, newPassword, role, active).refused.None?
    ensures var b := Write(a, UpdateEffect(a, me, id, newPassword, role, active).changes, now);
      && id in a.users && b.users.Keys == a.users.Keys && b.next == a.next && b.epoch == a.epoch
      && b.users[id] == User(
           if role.Some? then role.value else a.users[id].role,
           if active.Some? then active.value else a.users[id].active,
           if newPassword == LongEnough then Some(now) else a.users[id].validFrom)
      && (forall other | other in a.users && other != id :: b.users[other] == a.users[other])
  {
    hide IsLastAdmin, RoleFault, ActiveFault;
    var written := if newPassword == LongEnough then [PasswordSet(id)] else [];
    WriteOne(a, PasswordSet(id), now);
    WriteNone(a, now);
    WriteThenUpdate(a, written, id, role, active, now);
    assert UpdateEffect(a, me, id, newPassword, role, active).changes == written + [Updated(id, role, active)];
  }

  lemma RemovalRefusedIff(a: Accounts, me: nat, id: nat, hard: bool)
    ensures var refused := DeleteEffect(a, me, id, hard).refused;
      && (refused == Some(UnknownUser) <==> id !in a.users)
      && (refused == Some(OwnAccount) <==> id in a.users && id == me)
      && (refused.None? ==> id in a.users && id != me)
      && (refused.Some? ==> DeleteEffect(a, me, id, hard).changes == [])
  {
    hide IsLastAdmin;
  }

  /** A removal that is not refused deletes the user or deactivates them and ends their sessions; nobody
      else is touched. */
  lemma RemovalDoes(a: Accounts, me: nat, id: nat, hard: bool, now: real)
    requires DeleteEffect(a, me, id, hard).refused.None?
    ensures var b := Write(a, DeleteEffect(a, me, id, hard).changes, now);
      && b.next == a.next && b.epoch == a.epoch && id in a.users
      && (if hard then b.users == a.users - {id}
          else b.users == a.users[id := User(a.users[id].role, false, Some(now))])
  {
    hide IsLastAdmin;
    WriteOne(a, Deleted(id), now);
    WriteTwo(a, Updated(id, None, Some(false)), UserRevoked(id), now);
  }

  /** So a removed user is locked out: no token of theirs is accepted, and being made active again later
      does not bring back a session from before the removal. */
  lemma RemovedIsLockedOut(
    a: Accounts, me: nat, id: nat, hard: bool, now: real, token: Token, later: real, role: Option<Role>)
    requires DeleteEffect(a, me, id, hard).refused.None? && token.sub == id
    ensures var b := Write(a, DeleteEffect(a, me, id, hard).changes, now);
      && CurrentUser(b, token, later).Err?
      && (0.0 < now && token.iat < now ==> CurrentUser(b.Update(id, role, Some(true)), token, later).Err?)
  {
    hide DeleteEffect, Write;
    RemovalDoes(a, me, id, hard, now);
  }

  /** Someone who is no active administrator can change nothing but end their own sessions with a new
      password, given the right one. */
  lemma OutsiderChangesNothing(a: Accounts, me: nat, request: Request, now: real)
    requires !IsActiveAdmin(a, me)
    ensures var e := EffectOf(a, me, request);
      && (request.ChangeOwnPassword? ==> (e.refused.None? <==> request.currentRight && request.longEnough))
      && (!request.ChangeOwnPassword? ==> e.refused == Some(NotAdmin))
      && Write(a, e.changes, now) == if e.refused.None? then a.RevokeUser(me, now) else a
  {
    WriteNone(a, now);
    WriteOne(a, PasswordSet(me), now);
  }

  /** What an administrator's other requests do. */
  lemma AdministratorDoes(a: Accounts, me: nat, request: Request, now: real)
    requires IsActiveAdmin(a, me)
    ensures var b := Write(a, EffectOf(a, me, request).changes, now);
      match request
      case RevokeEveryone => b == a.(epoch := now)
      case RevokeOne(id) =>
        b == if id in a.users then a.(users := a.users[id := a.users[id].(validFrom := Some(now))]) else a
      case CreateUser(acceptable, newRole) =>
        b == if acceptable
             then a.(users := a.users[a.next := User(newRole, true, None)], next := a.next + 1) else a
      case ChangeOwnPassword(currentRight, longEnough) =>
        b == if currentRight && longEnough
             then a.(users := a.users[me := a.users[me].(validFrom := Some(now))]) else a
      case _ => true
  {
    WriteNone(a, now);
    match request {
      case RevokeEveryone => WriteOne(a, AllRevoked, now);
      case RevokeOne(id) => WriteOne(a, UserRevoked(id), now);
      case CreateUser(_, newRole) => WriteOne(a, Created(newRole), now);
      case ChangeOwnPassword(_, _) => WriteOne(a, PasswordSet(me), now);
      case _ =>
    }
  }
}
