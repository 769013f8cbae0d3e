/** What one request on accounts may and may not do: when it is refused and why,
    what it changes, and who may raise or lower whom. */
module AccountLaws {
  import opened School
  import opened Users

  predicate TopTier(role: Role) {
    role == Admin || role == SuperAdmin
  }

  predicate SameLetter(c: char, d: char) {
    || c == d
    || ('A' <= c <= 'Z' && d as int - c as int == 'a' as int - 'A' as int)
    || ('A' <= d <= 'Z' && c as int - d as int == 'a' as int - 'A' as int)
  }

  /** The two addresses differ at most in case. */
  predicate SameAddress(a: string, b: string) {
    |a| == |b| && forall i :: 0 <= i < |a| ==> SameLetter(a[i], b[i])
  }

  // ---- refusals ------------------------------------------------------------------

  /** e is a true reason against the request. */
  ghost predicate Reason(store: Store, r: Request, e: Error) {
    match r
    case CreateR(_, email, role, creator) =>
      || (e.AdminTierProtected? && role == SuperAdmin && creator.Some? && creator.value.role != SuperAdmin)
      || (e.UserAlreadyExists? && exists u :: u in store.users && SameAddress(store.users[u].email, email))
    case IssueR(_, email, _) =>
      e.UserAlreadyExists? && exists u :: u in store.users && SameAddress(store.users[u].email, email)
    case UpdateR(id, role, active, actor) =>
      || (e.UserNotFound? && id !in store.users)
      || (id in store.users && e.AdminTierProtected? && actor.role != SuperAdmin
          && (TopTier(store.users[id].standing.role) || (role.Some? && TopTier(role.value))))
      || (id in store.users && e.LastSuperAdmin? && ActiveSupers(store.users) == {id}
          && ((role.Some? && role.value != SuperAdmin) || active == Some(false)))
  }

  function Urgency(e: Error): nat {
    match e
    case UserNotFound => 0
    case AdminTierProtected => 1
    case UserAlreadyExists => 2
    case LastSuperAdmin => 3
  }

  lemma LowerIsCase(a: string, b: string)
    ensures Lower(a) == Lower(b) <==> SameAddress(a, b)
  {
    if Lower(a) == Lower(b) {
      assert |a| == |Lower(a)| && |b| == |Lower(b)|;
      forall i | 0 <= i < |a| ensures SameLetter(a[i], b[i]) {
        assert Lower(a)[i] == Lower(b)[i];
      }
    }
  }

  lemma TakenIff(store: Store, email: string)
    ensures EmailTaken(store, email) <==> exists u :: u in store.users && SameAddress(store.users[u].email, email)
  {
    forall u | u in store.users
      ensures Lower(store.users[u].email) == Lower(email) <==> SameAddress(store.users[u].email, email)
    {
      LowerIsCase(store.users[u].email, email);
    }
  }

  lemma OnlySuper(store: Store, id: UserId)
    requires id in ActiveSupers(store.users)
    ensures |ActiveSupers(store.users)| <= 1 <==> ActiveSupers(store.users) == {id}
  {
    var supers := ActiveSupers(store.users);
    assert |supers - {id}| == |supers| - 1;
    assert supers - {id} == {} ==> supers == {id};
  }

  lemma ChecksMean(store: Store, r: Request)
    ensures r.CreateR? || r.IssueR? ==>
      (EmailTaken(store, r.email) <==>
         exists u :: u in store.users && SameAddress(store.users[u].email, r.email))
    ensures r.UpdateR? && r.id in ActiveSupers(store.users) ==>
      (|ActiveSupers(store.users)| <= 1 <==> ActiveSupers(store.users) == {r.id})
  {
    match r
    case UpdateR(id, _, _, _) =>
      if id in ActiveSupers(store.users) {
        OnlySuper(store, id);
      }
    case _ => TakenIff(store, r.email);
  }

  lemma RefusalIsTrue(store: Store, r: Request)
    requires IsRequest(store, r) && Serve(store, r).Err?
    ensures Reason(store, r, Serve(store, r).error)
  {
    ChecksMean(store, r);
  }

  lemma RefusalIsFirst(store: Store, r: Request, e: Error)
    requires IsRequest(store, r) && Serve(store, r).Err? && Reason(store, r, e)
    ensures Urgency(Serve(store, r).error) <= Urgency(e)
  {
    ChecksMean(store, r);
  }

  lemma AcceptedWithoutReason(store: Store, r: Request, e: Error)
    requires IsRequest(store, r) && Serve(store, r).Ok?
    ensures !Reason(store, r, e)
  {
    ChecksMean(store, r);
    assert r.UpdateR? && ActiveSupers(store.users) == {r.id} ==> r.id in ActiveSupers(store.users);
  }

  /** A request is refused exactly when there is a reason against it, and the reply
      gives the first. */
  lemma RefusedIff(store: Store, r: Request)
    requires IsRequest(store, r)
    ensures Serve(store, r).Ok? <==> forall e :: !Reason(store, r, e)
    ensures Serve(store, r).Err? ==> Reason(store, r, Serve(store, r).error)
    ensures Serve(store, r).Err? ==> forall e :: Reason(store, r, e) ==> Urgency(Serve(store, r).error) <= Urgency(e)
  {
    if Serve(store, r).Err? {
      RefusalIsTrue(store, r);
      forall e | Reason(store, r, e) ensures Urgency(Serve(store, r).error) <= Urgency(e) {
        RefusalIsFirst(store, r, e);
      }
    } else {
      forall e ensures !Reason(store, r, e) {
        AcceptedWithoutReason(store, r, e);
      }
    }
  }

  // ---- effects ---------------------------------------------------------------------

  /** An account appears as asked for, active, and never goes. */
  lemma NewAccounts(store: Store, r: Request, u: UserId)
    ensures
      var store' := After(store, r);
      && (u in store.users ==> u in store'.users)
      && (u !in store.users && u in store'.users <==>
            Accepted(store, r) && (r.CreateR? || r.IssueR?) && r.id == u)
      && (u !in store.users && u in store'.users ==>
            && SameAddress(store'.users[u].email, r.email)
            && store'.users[u].standing.active
            && store'.users[u].standing.role ==
                 if r.CreateR? then r.role else if r.record.TeacherRecord? then TeacherRole else StudentRole)
  {
    if r.CreateR? && Accepted(store, r) {
      LowerIsCase(Lower(r.email), r.email);
      assert Lower(Lower(r.email)) == Lower(r.email);
    }
  }

  /** An account keeps its address, and its standing but for what an update of it
      gives. */
  lemma KeptAccounts(store: Store, r: Request, u: UserId)
    requires u in store.users
    ensures u in After(store, r).users
    ensures
      var row, row' := store.users[u], After(store, r).users[u];
      && row'.email == row.email
      && row'.standing.role ==
           (if Accepted(store, r) && r.UpdateR? && r.id == u && r.newRole.Some? then r.newRole.value
            else row.standing.role)
      && row'.standing.active ==
           if Accepted(store, r) && r.UpdateR? && r.id == u && r.newActive.Some? then r.newActive.value
           else row.standing.active
  {
  }

  /** Each accepted creation or update writes one entry, which names who acted on
      whom; nothing else writes one, and none is ever changed. */
  lemma AuditChanges(store: Store, r: Request)
    ensures
      var audit, audit' := store.audit, After(store, r).audit;
      if Accepted(store, r) && !r.IssueR? then
        && |audit'| == |audit| + 1 && audit'[..|audit|] == audit
        && audit'[|audit|].target == r.id
        && audit'[|audit|].action == (if r.CreateR? then Created else Updated)
        && audit'[|audit|].actor ==
             if r.UpdateR? then Some(r.actor.id) else if r.creator.Some? then Some(r.creator.value.id) else None
      else audit' == audit
  {
  }

  // ---- who may raise or lower whom ---------------------------------------------------

  /** An account of the admin tier, or one that joins it, changes only by a super
      admin's act. */
  lemma TierNeedsSuper(store: Store, r: Request, u: UserId)
    requires u in store.users && After(store, r).users[u].standing != store.users[u].standing
    requires TopTier(store.users[u].standing.role) || TopTier(After(store, r).users[u].standing.role)
    ensures r.UpdateR? && r.id == u && r.actor.role == SuperAdmin
  {
    KeptAccounts(store, r, u);
    RefusedIff(store, r);
    assert !Reason(store, r, AdminTierProtected);
  }

  /** A new super admin is created only by a super admin or the bootstrap script. */
  lemma NewSuperNeedsSuper(store: Store, r: Request, u: UserId)
    requires u !in store.users && u in After(store, r).users && After(store, r).users[u].standing.role == SuperAdmin
    ensures r.CreateR? && r.id == u && (r.creator.None? || r.creator.value.role == SuperAdmin)
  {
    NewAccounts(store, r, u);
    RefusedIff(store, r);
    assert !Reason(store, r, AdminTierProtected);
  }

  /** Actors are who they say: active accounts with the role that is stored. */
  predicate Honest(store: Store, actor: Actor) {
    actor.id in store.users && store.users[actor.id].standing == Standing(actor.role, true)
  }

  predicate HonestRequest(store: Store, r: Request) {
    match r
    case CreateR(_, _, _, creator) => creator.Some? ==> Honest(store, creator.value)
    case IssueR(_, _, _) => true
    case UpdateR(_, _, _, actor) => Honest(store, actor)
  }

  /** With honest actors, the active super admins grow only by the act of one of them
      or by the bootstrap script. */
  lemma SupersGrowBySuper(store: Store, r: Request, u: UserId)
    requires HonestRequest(store, r)
    requires u in ActiveSupers(After(store, r).users) && u !in ActiveSupers(store.users)
    ensures
      || (r.UpdateR? && r.actor.id in ActiveSupers(store.users))
      || (r.CreateR? && (r.creator.None? || r.creator.value.id in ActiveSupers(store.users)))
  {
    if u in store.users {
      TierNeedsSuper(store, r, u);
    } else {
      NewSuperNeedsSuper(store, r, u);
    }
  }

  ghost predicate HonestAt(reqs: seq<Request>, n: int) {
    0 <= n < |reqs| && HonestRequest(Run(reqs[..n]), reqs[n])
  }

  predicate IsBootstrap(r: Request) {
    r.CreateR? && r.creator.None?
  }

  /** Over a run with honest actors there is a super admin only after a bootstrap. */
  lemma {:induction false} SupersDescendFromBootstrap(reqs: seq<Request>) returns (n: nat)
    requires forall m :: 0 <= m < |reqs| ==> HonestAt(reqs, m)
    requires ActiveSupers(Run(reqs).users) != {}
    ensures n < |reqs| && IsBootstrap(reqs[n])
  {
    var last := |reqs| - 1;
    var front := reqs[..last];
    var before := Run(front);
    if ActiveSupers(before.users) != {} {
      forall m | 0 <= m < |front| ensures HonestAt(front, m) {
        assert HonestAt(reqs, m) && front[..m] == reqs[..m];
      }
      n := SupersDescendFromBootstrap(front);
    } else {
      var u :| u in ActiveSupers(Run(reqs).users);
      assert HonestAt(reqs, last);
      SupersGrowBySuper(before, reqs[last], u);
      n := last;
    }
  }

  // ---- addresses ---------------------------------------------------------------------

  /** uq_users_email_lower */
  ghost predicate UniqueAddresses(store: Store) {
    forall u, v :: u in store.users && v in store.users && u != v ==>
      !SameAddress(store.users[u].email, store.users[v].email)
  }

  lemma SameAsNew(a: string, b: string, c: string)
    requires SameAddress(a, b) && SameAddress(b, c)
    ensures SameAddress(a, c)
  {
    LowerIsCase(a, b);
    LowerIsCase(b, c);
    LowerIsCase(a, c);
  }

  lemma SameBack(a: string, b: string)
    ensures SameAddress(a, b) <==> SameAddress(b, a)
  {
  }

  lemma ServeKeepsAddresses(store: Store, r: Request)
    requires UniqueAddresses(store)
    ensures UniqueAddresses(After(store, r))
  {
    var users, users' := store.users, After(store, r).users;
    forall u, v | u in users' && v in users' && u != v ensures !SameAddress(users'[u].email, users'[v].email) {
      if v !in users {
        NewIsUnlike(store, r, v, u);
        SameBack(users'[u].email, users'[v].email);
      } else if u !in users {
        NewIsUnlike(store, r, u, v);
      }
    }
  }

  lemma NewIsUnlike(store: Store, r: Request, u: UserId, v: UserId)
    requires u !in store.users && u in After(store, r).users && v in After(store, r).users && u != v
    ensures !SameAddress(After(store, r).users[u].email, After(store, r).users[v].email)
  {
    NewAccounts(store, r, u);
    NewAccounts(store, r, v);
    KeptAccounts(store, r, v);
    RefusedIff(store, r);
    assert !Reason(store, r, UserAlreadyExists);
    var added, known := After(store, r).users[u].email, store.users[v].email;
    if SameAddress(added, known) {
      SameBack(added, known);
      SameAsNew(known, added, r.email);
    }
  }

  /** No two accounts of any run share an address but for case. */
  lemma {:induction false} RunKeepsAddresses(reqs: seq<Request>)
    ensures UniqueAddresses(Run(reqs))
  {
    if reqs != [] {
      RunKeepsAddresses(reqs[..|reqs| - 1]);
      ServeKeepsAddresses(Run(reqs[..|reqs| - 1]), reqs[|reqs| - 1]);
    }
  }
}
