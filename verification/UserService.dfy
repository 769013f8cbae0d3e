/** Creating and updating accounts as the service runs them: the change and its
    audit entry are flushed separately and committed together. */
module UserService {
  import opened School
  import opened UnitOfWork
  import opened Users

  class UserService {
    const session: Session<Store>

    constructor (session: Session<Store>)
      ensures this.session == session
    {
      this.session := session;
    }

    method Create(id: UserId, email: string, role: Role, actor: Option<Actor>) returns (reply: Reply<Error>)
      requires session.Idle() && id !in session.committed.users
      modifies session
      ensures Answers(session, Users.Create(old(session.committed), id, email, role, actor), reply)
    {
      if role == SuperAdmin && actor.Some? && actor.value.role != SuperAdmin {
        return Failed(AdminTierProtected);
      }
      if EmailTaken(session.working, email) {
        return Failed(UserAlreadyExists);
      }
      var user := UserRow(Lower(email), Standing(role, true));
      var ok := session.Flush(session.working.(users := session.working.users[id := user]));
      if !ok {
        return Unavailable;
      }
      var entry := Entry(if actor.Some? then Some(actor.value.id) else None, Created, id, None, user.standing);
      ok := session.Flush(session.working.(audit := session.working.audit + [entry]));
      if !ok {
        return Unavailable;
      }
      ok := session.Commit();
      reply := if ok then Done else Unavailable;
    }

    method Update(id: UserId, role: Option<Role>, active: Option<bool>, actor: Actor) returns (reply: Reply<Error>)
      requires session.Idle()
      modifies session
      ensures Answers(session, Users.Update(old(session.committed), id, role, active, actor), reply)
    {
      if id !in session.working.users {
        return Failed(UserNotFound);
      }
      var user := session.working.users[id];
      var before := user.standing;
      var newRole := if role.Some? then role.value else before.role;
      var touchesAdminTier := AdminTier(before.role) || AdminTier(newRole);
      if touchesAdminTier && actor.role != SuperAdmin {
        return Failed(AdminTierProtected);
      }
      var newActive := if active.Some? then active.value else before.active;
      var losing := before.role == SuperAdmin && before.active && (newRole != SuperAdmin || !newActive);
      if losing {
        var count := |ActiveSupers(session.working.users)|;
        if count <= 1 {
          return Failed(LastSuperAdmin);
        }
      }
      if role.Some? {
        user := user.(standing := user.standing.(role := role.value));
      }
      if active.Some? {
        user := user.(standing := user.standing.(active := active.value));
      }
      var ok := session.Flush(session.working.(users := session.working.users[id := user]));
      if !ok {
        return Unavailable;
      }
      var entry := Entry(Some(actor.id), Updated, id, Some(before), user.standing);
      ok := session.Flush(session.working.(audit := session.working.audit + [entry]));
      if !ok {
        return Unavailable;
      }
      ok := session.Commit();
      reply := if ok then Done else Unavailable;
    }
  }
}
