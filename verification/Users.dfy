/** Accounts, the last-super-admin guard and the audit log, one request at a time. */
module Users {
  import opened School
  import opened UnitOfWork

  type UserId = nat

  datatype Standing = Standing(role: Role, active: bool)

  /** A created account has its address in lower case, issued credentials the
      address of the record as it stands; lookups and the unique index ignore case. */
  datatype UserRow = UserRow(email: string, standing: Standing)

  datatype Action = Created | Updated

  datatype Entry = Entry(
    actor: Option<UserId>, action: Action, target: UserId, before: Option<Standing>, after: Standing)

  datatype Store = Store(users: map<UserId, UserRow>, audit: seq<Entry>)

  /** The acting user; there is none when the bootstrap script creates the first account. */
  datatype Actor = Actor(id: UserId, role: Role)

  datatype Error = UserNotFound | UserAlreadyExists | AdminTierProtected | LastSuperAdmin

  type Result = Outcome<Store, Error>

  predicate IsActiveSuper(st: Standing) {
    st.role == SuperAdmin && st.active
  }

  predicate AdminTier(role: Role) {
    role == Admin || role == SuperAdmin
  }

  function ActiveSupers(users: map<UserId, UserRow>): set<UserId> {
    set u | u in users && IsActiveSuper(users[u].standing)
  }

  function Lower(email: string): string {
    seq(|email|, i requires 0 <= i < |email| =>
      if 'A' <= email[i] <= 'Z' then ('a' as int + (email[i] as int - 'A' as int)) as char else email[i])
  }

  predicate EmailTaken(store: Store, email: string) {
    exists u :: u in store.users && Lower(store.users[u].email) == Lower(email)
  }

  function Create(store: Store, id: UserId, email: string, role: Role, actor: Option<Actor>): Result
    requires id !in store.users   // a generated key
  {
    if role == SuperAdmin && actor.Some? && actor.value.role != SuperAdmin then Err(AdminTierProtected)
    else if EmailTaken(store, email) then Err(UserAlreadyExists)
    else
      var st := Standing(role, true);
      Ok(Store(store.users[id := UserRow(Lower(email), st)],
               store.audit + [Entry(if actor.Some? then Some(actor.value.id) else None, Created, id, None, st)]))
  }

  /** The teacher or student record that credentials are issued for. */
  datatype Record = TeacherRecord | StudentRecord

  /** generate_credentials and generate_pin give a record its account, and write no
      audit entry. */
  function Issue(store: Store, id: UserId, email: string, record: Record): Result
    requires id !in store.users   // a generated key
  {
    if EmailTaken(store, email) then Err(UserAlreadyExists)
    else
      var st := Standing(if record.TeacherRecord? then TeacherRole else StudentRole, true);
      Ok(store.(users := store.users[id := UserRow(email, st)]))
  }

  /** The standing with the fields a PATCH carries. */
  function Patched(st: Standing, role: Option<Role>, active: Option<bool>): Standing {
    Standing(if role.Some? then role.value else st.role, if active.Some? then active.value else st.active)
  }

  /** The change takes an active super admin away. */
  predicate Loses(st: Standing, st': Standing) {
    IsActiveSuper(st) && !IsActiveSuper(st')
  }

  function Update(store: Store, id: UserId, role: Option<Role>, active: Option<bool>, actor: Actor): Result {
    if id !in store.users then Err(UserNotFound)
    else
      var st := store.users[id].standing;
      var st' := Patched(st, role, active);
      if (AdminTier(st.role) || AdminTier(st'.role)) && actor.role != SuperAdmin then Err(AdminTierProtected)
      else if Loses(st, st') && |ActiveSupers(store.users)| <= 1 then Err(LastSuperAdmin)
      else Ok(Store(store.users[id := store.users[id].(standing := st')],
                    store.audit + [Entry(Some(actor.id), Updated, id, Some(st), st')]))
  }

  // ---- runs ---------------------------------------------------------------------------

  datatype Request =
    | CreateR(id: UserId, email: string, role: Role, creator: Option<Actor>)
    | IssueR(id: UserId, email: string, record: Record)
    | UpdateR(id: UserId, newRole: Option<Role>, newActive: Option<bool>, actor: Actor)

  /** A generated key is never one in use, so such a creation is no request. */
  predicate IsRequest(store: Store, r: Request) {
    r.CreateR? || r.IssueR? ==> r.id !in store.users
  }

  function Serve(store: Store, r: Request): Result
    requires IsRequest(store, r)
  {
    match r
    case CreateR(id, email, role, creator) => Create(store, id, email, role, creator)
    case IssueR(id, email, record) => Issue(store, id, email, record)
    case UpdateR(id, role, active, actor) => Update(store, id, role, active, actor)
  }

  predicate Accepted(store: Store, r: Request) {
    IsRequest(store, r) && Serve(store, r).Ok?
  }

  function After(store: Store, r: Request): Store {
    if Accepted(store, r) then Serve(store, r).db else store
  }

  function Run(reqs: seq<Request>): Store {
    if reqs == [] then Store(map[], []) else After(Run(reqs[..|reqs| - 1]), reqs[|reqs| - 1])
  }

  // ---- the last super admin -----------------------------------------------------------

  lemma StepKeepsSuper(store: Store, r: Request)
    requires ActiveSupers(store.users) != {}
    ensures ActiveSupers(After(store, r).users) != {}
  {
    var users, users' := store.users, After(store, r).users;
    var u :| u in ActiveSupers(users);
    if u !in ActiveSupers(users') {
      var others := ActiveSupers(users) - {u};
      assert ActiveSupers(users) == others + {u};
      var o :| o in others;
      assert o in ActiveSupers(users');
    }
  }

  /** Once there is an active super admin there is one for ever. */
  lemma {:induction false} SuperRemains(reqs: seq<Request>, n: nat)
    requires n <= |reqs| && ActiveSupers(Run(reqs[..n]).users) != {}
    ensures ActiveSupers(Run(reqs).users) != {}
  {
    if n == |reqs| {
      assert reqs[..n] == reqs;
    } else {
      var front := reqs[..|reqs| - 1];
      assert front[..n] == reqs[..n];
      SuperRemains(front, n);
      StepKeepsSuper(Run(front), reqs[|reqs| - 1]);
    }
  }

  // ---- the audit trail ------------------------------------------------------------------

  function EntriesOf(audit: seq<Entry>, u: UserId): seq<Entry> {
    if audit == [] then []
    else
      var last := audit[|audit| - 1];
      EntriesOf(audit[..|audit| - 1], u) + (if last.target == u then [last] else [])
  }

  /** The request that made the account, and how the account stood then. */
  datatype Birth = Birth(request: Request, standing: Standing)

  /** The origin of the account after request r, if prior was its origin before. */
  function BornBy(prior: Option<Birth>, r: Request, store': Store, u: UserId): Option<Birth> {
    if prior.Some? then prior
    else if u in store'.users then Some(Birth(r, store'.users[u].standing))
    else None
  }

  function BirthOf(reqs: seq<Request>, u: UserId): Option<Birth> {
    if reqs == [] then None
    else
      var n := |reqs| - 1;
      BornBy(BirthOf(reqs[..n], u), reqs[n], Run(reqs), u)
  }

  /** Request n is the one that made account u. */
  ghost predicate MadeBy(reqs: seq<Request>, n: nat, u: UserId) {
    n < |reqs| && u !in Run(reqs[..n]).users && u in Run(reqs[..n + 1]).users
  }

  /** The entries of one account tell its story from where it began: each update
      starts where the entry before it ended, the first one where the account
      began, and the last one says how the account stands now.  They open with a
      Created entry exactly when the account was created, not issued. */
  ghost predicate Told(store: Store, u: UserId, birth: Option<Birth>) {
    var es := EntriesOf(store.audit, u);
    && (u in store.users <==> birth.Some?)
    && (birth.None? ==> es == [])
    && (birth.Some? ==>
          && (birth.value.request.CreateR? || birth.value.request.IssueR?)
          && (birth.value.request.CreateR? <==> es != [] && es[0].action == Created)
          && (birth.value.request.CreateR? ==> es[0].before == None && es[0].after == birth.value.standing)
          && (birth.value.request.IssueR? && es != [] ==> StartsFrom(es[0], birth.value.standing))
          && store.users[u].standing == if es == [] then birth.value.standing else es[|es| - 1].after)
    && forall k :: 0 < k < |es| ==> StartsFrom(es[k], es[k - 1].after)
  }

  predicate StartsFrom(e: Entry, st: Standing) {
    e.action == Updated && e.before == Some(st)
  }

  lemma Appended(audit: seq<Entry>, e: Entry, u: UserId)
    ensures EntriesOf(audit + [e], u) == EntriesOf(audit, u) + (if e.target == u then [e] else [])
  {
    assert (audit + [e])[..|audit|] == audit;
  }

  /** An entry that says what it did to its target: created it, or changed it
      from how it stood. */
  lemma EntryTells(store: Store, store': Store, e: Entry, u: UserId, birth: Option<Birth>, birth': Option<Birth>)
    requires Told(store, u, birth) && store'.audit == store.audit + [e]
    requires store'.users.Keys == store.users.Keys + {e.target} && store'.users[e.target].standing == e.after
    requires forall o :: o in store.users && o != e.target ==> store'.users[o] == store.users[o]
    requires
      if e.target in store.users then StartsFrom(e, store.users[e.target].standing)
      else e.action == Created && e.before == None
    requires
      if e.target == u && u !in store.users
      then birth'.Some? && birth'.value.request.CreateR? && birth'.value.standing == e.after
      else birth' == birth
    ensures Told(store', u, birth')
  {
    Appended(store.audit, e, u);
    if e.target == u {
      assert EntriesOf(store'.audit, u) == EntriesOf(store.audit, u) + [e];
    }
  }

  lemma IssueTells(store: Store, store': Store, id: UserId, u: UserId, birth: Option<Birth>, birth': Option<Birth>)
    requires Told(store, u, birth) && store'.audit == store.audit && id !in store.users
    requires id in store'.users && store'.users == store.users[id := store'.users[id]]
    requires
      if id == u
      then birth'.Some? && birth'.value.request.IssueR? && birth'.value.standing == store'.users[u].standing
      else birth' == birth
    ensures Told(store', u, birth')
  {
  }

  lemma RequestTells(store: Store, r: Request, u: UserId, prior: Option<Birth>)
    requires Told(store, u, prior)
    ensures Told(After(store, r), u, BornBy(prior, r, After(store, r), u))
  {
    var store' := After(store, r);
    var birth := BornBy(prior, r, store', u);
    if |store'.audit| > |store.audit| {
      EntryTells(store, store', store'.audit[|store.audit|], u, prior, birth);
    } else if store' != store {
      IssueTells(store, store', r.id, u, prior, birth);
    }
  }

  lemma {:induction false} AuditTellsAll(reqs: seq<Request>, u: UserId)
    ensures Told(Run(reqs), u, BirthOf(reqs, u))
  {
    if reqs != [] {
      var n := |reqs| - 1;
      AuditTellsAll(reqs[..n], u);
      RequestTells(Run(reqs[..n]), reqs[n], u, BirthOf(reqs[..n], u));
    }
  }

  /** The birth is what it says: the one request after which the account is there. */
  lemma {:induction false} BirthIs(reqs: seq<Request>, u: UserId, n: nat)
    ensures MadeBy(reqs, n, u) ==> BirthOf(reqs, u) == Some(Birth(reqs[n], Run(reqs[..n + 1]).users[u].standing))
  {
    if MadeBy(reqs, n, u) {
      var front := reqs[..|reqs| - 1];
      if n == |reqs| - 1 {
        assert reqs[..n + 1] == reqs;
        AuditTellsAll(front, u);
      } else {
        assert front[..n] == reqs[..n] && front[..n + 1] == reqs[..n + 1];
        BirthIs(front, u, n);
      }
    }
  }

  /** An account has a Created entry exactly when a create request made it. */
  lemma {:induction false} CreatedEntryIff(reqs: seq<Request>, u: UserId)
    ensures (exists e :: e in EntriesOf(Run(reqs).audit, u) && e.action == Created) <==>
      exists n: nat :: MadeBy(reqs, n, u) && reqs[n].CreateR?
  {
    AuditTellsAll(reqs, u);
    var es := EntriesOf(Run(reqs).audit, u);
    if e :| e in es && e.action == Created {
      var k :| 0 <= k < |es| && es[k] == e;
      assert k > 0 ==> StartsFrom(es[k], es[k - 1].after);
      var n := MadeSomewhere(reqs, u);
      BirthIs(reqs, u, n);
    }
    if n: nat :| MadeBy(reqs, n, u) && reqs[n].CreateR? {
      BirthIs(reqs, u, n);
      assert es[0] in es;
    }
  }

  lemma {:induction false} MadeSomewhere(reqs: seq<Request>, u: UserId) returns (n: nat)
    requires u in Run(reqs).users
    ensures MadeBy(reqs, n, u)
  {
    var front := reqs[..|reqs| - 1];
    if u in Run(front).users {
      n := MadeSomewhere(front, u);
      assert front[..n] == reqs[..n] && front[..n + 1] == reqs[..n + 1];
    } else {
      n := |front|;
      assert reqs[..n + 1] == reqs;
    }
  }
}
