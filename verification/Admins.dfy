/** Account updates interleaving.

    An update reads its target without a lock, and is refused on what it read if the
    actor may not touch the admin tier.  If it would take an active super
    admin away it then runs the locking count as a statement of its own, so others
    may commit in between: the rows that match when that statement starts are
    locked one by one, each is looked at again once its lock is there, and those
    that no longer match do not count.  Only the columns that
    differ from what the update read are written. */
module Admins {
  import opened School
  import opened Users

  type Tid = nat

  datatype Pc = Reading | Querying | Counting | Writing | Committing

  datatype Tx = Tx(
    target: UserId, role: Option<Role>, active: Option<bool>, pc: Pc,
    seen: Standing, guarded: bool, wanted: set<UserId>, locked: set<UserId>,
    actor: Role)

  datatype Sys = Sys(users: map<UserId, Standing>, txs: map<Tid, Tx>)

  function Supers(users: map<UserId, Standing>): set<UserId> {
    set u | u in users && IsActiveSuper(users[u])
  }

  /** The rows a transaction has locked: by the count, or by its own UPDATE. */
  function Held(t: Tx): set<UserId> {
    t.locked + (if t.pc == Committing then {t.target} else {})
  }

  predicate Unheld(a: Sys, i: Tid, u: UserId) {
    forall j :: j in a.txs && j != i ==> u !in Held(a.txs[j])
  }

  /** Accounts of the admin tier, before or after, are for super admins to change. */
  predicate MayAct(actor: Role, st: Standing, st': Standing) {
    AdminTier(st.role) || AdminTier(st'.role) ==> actor == SuperAdmin
  }

  function Wanted(t: Tx): Standing {
    Patched(t.seen, t.role, t.active)
  }

  /** What reaches the row: a field that equals what was read is not written. */
  function Written(now: Standing, t: Tx): Standing {
    Standing(if Wanted(t).role != t.seen.role then Wanted(t).role else now.role,
             if Wanted(t).active != t.seen.active then Wanted(t).active else now.active)
  }

  datatype Action =
    | Begin(i: Tid, target: UserId, role: Option<Role>, active: Option<bool>, actor: Role)
    | Read(i: Tid)
    | Query(i: Tid)
    | Lock(i: Tid, u: UserId)
    | Count(i: Tid)
    | Write(i: Tid)
    | Commit(i: Tid)
    | Abort(i: Tid)
    | Insert(u: UserId, st: Standing)

  predicate Allowed(a: Sys, act: Action) {
    match act
    case Begin(i, _, _, _, _) => i !in a.txs
    case Read(i) =>
      && i in a.txs && a.txs[i].pc == Reading && a.txs[i].target in a.users
      && var seen := a.users[a.txs[i].target];
      MayAct(a.txs[i].actor, seen, Patched(seen, a.txs[i].role, a.txs[i].active))
    case Query(i) => i in a.txs && a.txs[i].pc == Querying
    case Lock(i, u) => i in a.txs && a.txs[i].pc == Counting && u in a.txs[i].wanted && Unheld(a, i, u)
    case Count(i) => i in a.txs && a.txs[i].pc == Counting && a.txs[i].wanted == {} && |a.txs[i].locked| > 1
    case Write(i) => i in a.txs && a.txs[i].pc == Writing && Unheld(a, i, a.txs[i].target)
    case Commit(i) => i in a.txs && a.txs[i].pc == Committing
    case Abort(i) => i in a.txs
    case Insert(u, _) => u !in a.users
  }

  function After(a: Sys, act: Action): Sys
    requires Allowed(a, act)
  {
    match act
    case Begin(i, target, role, active, actor) =>
      a.(txs := a.txs[i := Tx(target, role, active, Reading, Standing(StudentRole, false), false, {}, {}, actor)])
    case Read(i) =>
      var t := a.txs[i];
      var seen := a.users[t.target];
      var losing := Loses(seen, Patched(seen, t.role, t.active));
      a.(txs := a.txs[i := t.(seen := seen, guarded := losing, pc := if losing then Querying else Writing)])
    case Query(i) =>
      a.(txs := a.txs[i := a.txs[i].(pc := Counting, wanted := Supers(a.users))])
    case Lock(i, u) =>
      var t := a.txs[i];
      var locked := if u in Supers(a.users) then t.locked + {u} else t.locked;
      a.(txs := a.txs[i := t.(wanted := t.wanted - {u}, locked := locked)])
    case Count(i) => a.(txs := a.txs[i := a.txs[i].(pc := Writing)])
    case Write(i) => a.(txs := a.txs[i := a.txs[i].(pc := Committing)])
    case Commit(i) =>
      var t := a.txs[i];
      var users := if t.target in a.users then a.users[t.target := Written(a.users[t.target], t)] else a.users;
      a.(users := users, txs := a.txs - {i})
    case Abort(i) => a.(txs := a.txs - {i})
    case Insert(u, st) => a.(users := a.users[u := st])
  }

  /** A run from any store that has an active super admin and no open update. */
  ghost predicate IsRun(run: seq<Sys>, acts: seq<Action>) {
    && |run| == |acts| + 1
    && run[0].txs == map[] && Supers(run[0].users) != {}
    && forall n :: 0 <= n < |acts| ==> Allowed(run[n], acts[n]) && run[n + 1] == After(run[n], acts[n])
  }

  // ---- the guard ------------------------------------------------------------------------

  /** Locked rows are active super admins for as long as they are locked, and a
      transaction that passed the count holds at least two. */
  ghost predicate GuardOk(a: Sys, t: Tx) {
    && t.locked <= Supers(a.users)
    && (t.guarded && (t.pc == Writing || t.pc == Committing) ==> |t.locked| > 1)
    && (!t.guarded || t.pc == Reading ==> t.locked == {} && t.pc != Counting && t.pc != Querying)
    && (t.pc == Querying ==> t.locked == {})
    && (t.pc != Reading ==> (t.guarded <==> Loses(t.seen, Wanted(t))))
  }

  ghost predicate Inv(a: Sys) {
    && (forall i :: i in a.txs ==> GuardOk(a, a.txs[i]))
    && (forall i, j :: i in a.txs && j in a.txs && i != j ==> Held(a.txs[i]) !! Held(a.txs[j]))
  }

  lemma CommitKeepsInv(a: Sys, i: Tid)
    requires Inv(a) && Allowed(a, Commit(i))
    ensures Inv(After(a, Commit(i)))
  {
    var b := After(a, Commit(i));
    forall j | j in b.txs ensures GuardOk(b, b.txs[j]) {
      assert Held(a.txs[i]) !! Held(a.txs[j]) && GuardOk(a, a.txs[j]);
      forall u | u in a.txs[j].locked ensures u in Supers(b.users) {
        assert u in Supers(a.users) && u != a.txs[i].target;
      }
    }
  }

  lemma MoveKeepsInv(a: Sys, b: Sys, i: Tid, t': Tx)
    requires Inv(a) && b == a.(txs := a.txs[i := t'])
    requires GuardOk(a, t') && forall j :: j in a.txs && j != i ==> Held(t') !! Held(a.txs[j])
    ensures Inv(b)
  {
  }

  lemma LockKeepsInv(a: Sys, i: Tid, u: UserId)
    requires Inv(a) && Allowed(a, Lock(i, u))
    ensures Inv(After(a, Lock(i, u)))
  {
    var b := After(a, Lock(i, u));
    assert GuardOk(a, a.txs[i]);
    forall j | j in a.txs && j != i ensures Held(b.txs[i]) !! Held(a.txs[j]) {
      assert Held(b.txs[i]) <= Held(a.txs[i]) + {u};
    }
    MoveKeepsInv(a, b, i, b.txs[i]);
  }

  lemma StepKeepsInv(a: Sys, act: Action)
    requires Inv(a) && Allowed(a, act)
    ensures Inv(After(a, act))
  {
    var b := After(a, act);
    match act
    case Commit(i) => CommitKeepsInv(a, i);
    case Insert(u, st) => assert Supers(a.users) <= Supers(b.users);
    case Abort(i) =>
    case Lock(i, u) => LockKeepsInv(a, i, u);
    case _ =>
      MoveKeepsInv(a, b, act.i, b.txs[act.i]);
  }

  lemma {:induction false} InvAlways(run: seq<Sys>, acts: seq<Action>, n: nat)
    requires IsRun(run, acts) && n < |run|
    ensures Inv(run[n])
  {
    if n > 0 {
      InvAlways(run, acts, n - 1);
      StepKeepsInv(run[n - 1], acts[n - 1]);
    }
  }

  /** The update changes what it read to another role or to inactive. */
  predicate Takes(t: Tx) {
    || (Wanted(t).role != t.seen.role && Wanted(t).role != SuperAdmin)
    || (Wanted(t).active != t.seen.active && !Wanted(t).active)
  }

  /** t read an account that was no active super admin, and so did not count; now
      it is the only one. */
  predicate StaleDemotion(a: Sys, t: Tx) {
    !IsActiveSuper(t.seen) && Supers(a.users) == {t.target} && Takes(t)
  }

  /** Whatever runs, promotions included: a step takes the last active super admin
      away exactly when it is the commit of such a stale update. */
  lemma LastSuperLostIff(run: seq<Sys>, acts: seq<Action>, n: nat)
    requires IsRun(run, acts) && n < |acts| && Supers(run[n].users) != {}
    ensures Supers(run[n + 1].users) == {} <==> acts[n].Commit? && StaleDemotion(run[n], run[n].txs[acts[n].i])
  {
    InvAlways(run, acts, n);
    StepLosesIff(run[n], acts[n]);
  }

  lemma CommitLosesIff(a: Sys, b: Sys, t: Tx)
    requires GuardOk(a, t) && t.pc == Committing && Supers(a.users) != {}
    requires b.users == if t.target in a.users then a.users[t.target := Written(a.users[t.target], t)] else a.users
    ensures Supers(b.users) == {} <==> StaleDemotion(a, t)
  {
    if t.guarded {
      OtherThan(t.locked, t.target);
      var u :| u in t.locked && u != t.target;
      assert u in Supers(a.users) && u in Supers(b.users);
    } else if u :| u in Supers(a.users) && u != t.target {
      assert u in Supers(b.users);
    } else {
      assert Supers(a.users) == {t.target};
      assert t.target in Supers(b.users) <==> !StaleDemotion(a, t);
      assert Supers(b.users) <= {t.target};
    }
  }

  lemma StepLosesIff(a: Sys, act: Action)
    requires Inv(a) && Allowed(a, act) && Supers(a.users) != {}
    ensures Supers(After(a, act).users) == {} <==> act.Commit? && StaleDemotion(a, a.txs[act.i])
  {
    var b := After(a, act);
    match act
    case Commit(i) => CommitLosesIff(a, b, a.txs[i]);
    case Insert(u, st) =>
      assert Supers(a.users) <= Supers(b.users);
    case _ =>
      assert b.users == a.users;
  }

  lemma OtherThan(s: set<UserId>, x: UserId)
    requires |s| > 1
    ensures exists u :: u in s && u != x
  {
    assert s == (s - {x}) + (s * {x});
    assert s - {x} != {};
    var u :| u in s - {x};
  }

  // ---- who may raise or lower whom, under interleaving -----------------------------------

  predicate TopTier(role: Role) {
    role == Admin || role == SuperAdmin
  }

  /** What an actor who is no super admin has read, and wants, is below the tier. */
  ghost predicate BelowTier(t: Tx) {
    t.pc != Reading && t.actor != SuperAdmin ==> !TopTier(t.seen.role) && !TopTier(Wanted(t).role)
  }

  lemma {:induction false} AlwaysBelowTier(run: seq<Sys>, acts: seq<Action>, n: nat)
    requires IsRun(run, acts) && n < |run|
    ensures forall i :: i in run[n].txs ==> BelowTier(run[n].txs[i])
  {
    if n > 0 {
      AlwaysBelowTier(run, acts, n - 1);
      StepKeepsBelow(run[n - 1], acts[n - 1]);
    }
  }

  lemma StepKeepsBelow(a: Sys, act: Action)
    requires Allowed(a, act) && forall i :: i in a.txs ==> BelowTier(a.txs[i])
    ensures forall i :: i in After(a, act).txs ==> BelowTier(After(a, act).txs[i])
  {
  }

  /** In any interleaving no account joins the admin tier, or rises in it, by the
      update of an actor who is no super admin. */
  lemma RaisedOnlyBySuper(run: seq<Sys>, acts: seq<Action>, n: nat, u: UserId)
    requires IsRun(run, acts) && n < |acts| && u in run[n].users && u in run[n + 1].users
    requires TopTier(run[n + 1].users[u].role) && run[n + 1].users[u].role != run[n].users[u].role
    ensures acts[n].Commit? && acts[n].i in run[n].txs
    ensures run[n].txs[acts[n].i].target == u && run[n].txs[acts[n].i].actor == SuperAdmin
  {
    AlwaysBelowTier(run, acts, n);
    if acts[n].Commit? {
      TargetIsThere(run, acts, n, acts[n].i);
      assert BelowTier(run[n].txs[acts[n].i]);
    }
  }

  /** And an account of the tier is changed by such an actor only if it was below the
      tier when it was read, and another update has raised it since. */
  lemma TouchedOnlyIfRaised(run: seq<Sys>, acts: seq<Action>, n: nat) returns (r: nat, h: nat)
    requires IsRun(run, acts) && n < |acts| && acts[n].Commit? && acts[n].i in run[n].txs
    requires run[n].txs[acts[n].i].actor != SuperAdmin
    requires
      var u := run[n].txs[acts[n].i].target;
      u in run[n].users && TopTier(run[n].users[u].role)
    ensures ReadAt(run, acts, r, n, acts[n].i)
    ensures !TopTier(run[r].users[run[n].txs[acts[n].i].target].role)
    ensures r <= h < n && CommitsTo(run[h], acts[h], run[n].txs[acts[n].i].target, acts[n].i)
  {
    AlwaysBelowTier(run, acts, n);
    var i := acts[n].i;
    var u := run[n].txs[i].target;
    assert BelowTier(run[n].txs[i]);
    r := WasRead(run, acts, n, i);
    h := MovedMeanwhile(run, acts, r, n, u, i);
  }

  // ---- what was committed between the reading and the commit ---------------------------------

  /** Update i has been open, with what it read, since action r read it. */
  ghost predicate ReadAt(run: seq<Sys>, acts: seq<Action>, r: nat, n: nat, i: Tid) {
    && r < n < |run| && r < |acts| && acts[r] == Read(i)
    && i in run[n].txs && run[n].txs[i].target in run[r].users
    && run[r].users[run[n].txs[i].target] == run[n].txs[i].seen
    && forall h :: r < h <= n ==>
         i in run[h].txs && run[h].txs[i].target == run[n].txs[i].target && run[h].txs[i].seen == run[n].txs[i].seen
  }

  lemma {:induction false} WasRead(run: seq<Sys>, acts: seq<Action>, n: nat, i: Tid) returns (r: nat)
    requires IsRun(run, acts) && n < |run| && i in run[n].txs && run[n].txs[i].pc != Reading
    ensures ReadAt(run, acts, r, n, i)
  {
    if acts[n - 1] == Read(i) {
      r := n - 1;
    } else {
      KeptReading(run[n - 1], acts[n - 1], i);
      r := WasRead(run, acts, n - 1, i);
    }
  }

  lemma KeptReading(a: Sys, act: Action, i: Tid)
    requires Allowed(a, act) && act != Read(i) && i in After(a, act).txs && After(a, act).txs[i].pc != Reading
    ensures i in a.txs && a.txs[i].pc != Reading
    ensures After(a, act).txs[i].target == a.txs[i].target && After(a, act).txs[i].seen == a.txs[i].seen
  {
  }

  /** Action h commits an update of account u other than i. */
  predicate CommitsTo(a: Sys, act: Action, u: UserId, i: Tid) {
    act.Commit? && act.i in a.txs && act.i != i && a.txs[act.i].target == u
  }

  lemma AccountStays(a: Sys, act: Action, u: UserId, i: Tid)
    requires Allowed(a, act) && u in a.users && i in After(a, act).txs
    ensures u in After(a, act).users
    ensures After(a, act).users[u] == a.users[u] || CommitsTo(a, act, u, i)
  {
  }

  /** If an account is no active super admin at one moment and is one at a later
      moment, an update of it that committed in between made it one. */
  lemma {:induction false} PromotedBetween(run: seq<Sys>, acts: seq<Action>, r: nat, n: nat, u: UserId, i: Tid)
    returns (h: nat)
    requires IsRun(run, acts) && r < n < |run| && u in run[r].users && !IsActiveSuper(run[r].users[u])
    requires forall m :: r < m <= n ==> i in run[m].txs
    requires u in run[n].users && IsActiveSuper(run[n].users[u])
    ensures r <= h < n && CommitsTo(run[h], acts[h], u, i)
    ensures u in run[h].users && !IsActiveSuper(run[h].users[u])
    ensures u in run[h + 1].users && IsActiveSuper(run[h + 1].users[u])
  {
    UserStays(run, acts, r, n - 1, u);
    AccountStays(run[n - 1], acts[n - 1], u, i);
    if IsActiveSuper(run[n - 1].users[u]) {
      h := PromotedBetween(run, acts, r, n - 1, u, i);
    } else {
      h := n - 1;
    }
  }

  lemma {:induction false} UserStays(run: seq<Sys>, acts: seq<Action>, r: nat, n: nat, u: UserId)
    requires IsRun(run, acts) && r <= n < |run| && u in run[r].users
    ensures u in run[n].users
  {
    if r < n {
      UserStays(run, acts, r, n - 1, u);
    }
  }

  /** Behind every loss of the last active super admin is a promotion of that
      account, committed by another update since this one read it. */
  lemma PromotedMeanwhile(run: seq<Sys>, acts: seq<Action>, n: nat) returns (r: nat, h: nat)
    requires IsRun(run, acts) && n < |acts| && Supers(run[n].users) != {} && Supers(run[n + 1].users) == {}
    ensures acts[n].Commit? && acts[n].i in run[n].txs && ReadAt(run, acts, r, n, acts[n].i)
    ensures r <= h < n && CommitsTo(run[h], acts[h], run[n].txs[acts[n].i].target, acts[n].i)
    ensures
      var u := run[n].txs[acts[n].i].target;
      && u in run[h].users && !IsActiveSuper(run[h].users[u])
      && u in run[h + 1].users && IsActiveSuper(run[h + 1].users[u])
  {
    LastSuperLostIff(run, acts, n);
    var i := acts[n].i;
    var u := run[n].txs[i].target;
    r := WasRead(run, acts, n, i);
    assert u in Supers(run[n].users);
    h := PromotedBetween(run, acts, r, n, u, i);
  }

  // ---- the audit trail of an account under interleaving ------------------------------------------

  /** How the last entry, or else the first standing, leaves account u at moment n. */
  function TrailEnd(run: seq<Sys>, acts: seq<Action>, n: nat, u: UserId): Option<Standing>
    requires n < |run| && |run| == |acts| + 1
  {
    if n == 0 then if u in run[0].users then Some(run[0].users[u]) else None
    else if acts[n - 1].Commit? && acts[n - 1].i in run[n - 1].txs && run[n - 1].txs[acts[n - 1].i].target == u then
      Some(EntryOf(run[n - 1], run[n - 1].txs[acts[n - 1].i]).after)
    else if acts[n - 1].Insert? && acts[n - 1].u == u then Some(acts[n - 1].st)
    else TrailEnd(run, acts, n - 1, u)
  }

  datatype Note = Note(before: Standing, after: Standing)

  /** The entry that t writes: before is what t read, after the row as written. */
  function EntryOf(a: Sys, t: Tx): Note {
    Note(t.seen, if t.target in a.users then Written(a.users[t.target], t) else Wanted(t))
  }

  lemma {:induction false} TargetIsThere(run: seq<Sys>, acts: seq<Action>, n: nat, i: Tid)
    requires IsRun(run, acts) && n < |run| && i in run[n].txs && run[n].txs[i].pc != Reading
    ensures run[n].txs[i].target in run[n].users
  {
    var r := WasRead(run, acts, n, i);
    UserStays(run, acts, r, n, run[n].txs[i].target);
  }

  /** Every trail ends at the account's present standing. */
  lemma {:induction false} TrailEndsAtPresent(run: seq<Sys>, acts: seq<Action>, n: nat, u: UserId)
    requires IsRun(run, acts) && n < |run|
    ensures TrailEnd(run, acts, n, u) == if u in run[n].users then Some(run[n].users[u]) else None
  {
    if n > 0 {
      TrailEndsAtPresent(run, acts, n - 1, u);
      if acts[n - 1].Commit? {
        TargetIsThere(run, acts, n - 1, acts[n - 1].i);
      }
    }
  }

  /** The entry of a commit starts where the account's trail has ended exactly when
      the account stands as it did at the reading: unless others have moved it. */
  lemma EntryOnTrailIff(run: seq<Sys>, acts: seq<Action>, n: nat) returns (r: nat)
    requires IsRun(run, acts) && n < |acts| && acts[n].Commit?
    ensures acts[n].i in run[n].txs && ReadAt(run, acts, r, n, acts[n].i)
    ensures
      var t := run[n].txs[acts[n].i];
      Some(EntryOf(run[n], t).before) == TrailEnd(run, acts, n, t.target) <==>
        TrailEnd(run, acts, n, t.target) == TrailEnd(run, acts, r, t.target)
  {
    r := WasRead(run, acts, n, acts[n].i);
    TrailEndsAtPresent(run, acts, n, run[n].txs[acts[n].i].target);
    TrailEndsAtPresent(run, acts, r, run[n].txs[acts[n].i].target);
  }

  /** And when it does not, another update of the account has committed since. */
  lemma {:induction false} MovedMeanwhile(run: seq<Sys>, acts: seq<Action>, r: nat, n: nat, u: UserId, i: Tid)
    returns (h: nat)
    requires IsRun(run, acts) && r < n < |run| && u in run[r].users && u in run[n].users
    requires forall m :: r < m <= n ==> i in run[m].txs
    requires run[n].users[u] != run[r].users[u]
    ensures r <= h < n && CommitsTo(run[h], acts[h], u, i)
  {
    UserStays(run, acts, r, n - 1, u);
    AccountStays(run[n - 1], acts[n - 1], u, i);
    if run[n - 1].users[u] == run[r].users[u] {
      h := n - 1;
    } else {
      h := MovedMeanwhile(run, acts, r, n - 1, u, i);
    }
  }

  // ---- runs that only demote or deactivate ------------------------------------------------

  /** The request names no promotion. */
  predicate OnlyTakes(role: Option<Role>, active: Option<bool>) {
    role != Some(SuperAdmin) && active != Some(true)
  }

  ghost predicate OnlyTakingRun(run: seq<Sys>, acts: seq<Action>) {
    IsRun(run, acts) && forall n :: 0 <= n < |acts| && acts[n].Begin? ==> OnlyTakes(acts[n].role, acts[n].active)
  }

  /** An update that skips the count either writes nothing or has a target that is
      not an active super admin and never will be again. */
  ghost predicate Harmless(a: Sys, t: Tx) {
    && OnlyTakes(t.role, t.active)
    && (t.pc != Reading && !t.guarded ==>
          t.target in a.users && (!IsActiveSuper(a.users[t.target]) || Wanted(t) == t.seen))
  }

  ghost predicate Calm(a: Sys) {
    Inv(a) && Supers(a.users) != {} && forall i :: i in a.txs ==> Harmless(a, a.txs[i])
  }

  lemma HarmlessStays(a: Sys, b: Sys, t: Tx)
    requires Harmless(a, t)
    requires forall u :: u in a.users ==> u in b.users && (IsActiveSuper(b.users[u]) ==> IsActiveSuper(a.users[u]))
    ensures Harmless(b, t)
  {
  }

  lemma CommitKeepsCalm(a: Sys, i: Tid)
    requires Calm(a) && Allowed(a, Commit(i))
    ensures Calm(After(a, Commit(i)))
  {
    var b, t := After(a, Commit(i)), a.txs[i];
    assert Harmless(a, t) && GuardOk(a, t);
    CommitKeepsInv(a, i);
    StepLosesIff(a, Commit(i));
    forall j | j in b.txs ensures Harmless(b, b.txs[j]) {
      HarmlessStays(a, b, a.txs[j]);
    }
  }

  lemma StepKeepsCalm(a: Sys, act: Action)
    requires Calm(a) && Allowed(a, act)
    requires act.Begin? ==> OnlyTakes(act.role, act.active)
    ensures Calm(After(a, act))
  {
    var b := After(a, act);
    StepKeepsInv(a, act);
    StepLosesIff(a, act);
    match act
    case Commit(i) => CommitKeepsCalm(a, i);
    case Insert(u, st) =>
      forall j | j in b.txs ensures Harmless(b, b.txs[j]) {
        assert Harmless(a, a.txs[j]);
      }
    case _ =>
      assert b.users == a.users;
      forall j | j in b.txs ensures Harmless(b, b.txs[j]) {
        assert j in a.txs ==> Harmless(a, a.txs[j]);
      }
  }

  /** In every interleaving of updates that only demote or deactivate, there is
      always an active super admin. */
  lemma {:induction false} SuperRemains(run: seq<Sys>, acts: seq<Action>, n: nat)
    requires OnlyTakingRun(run, acts) && n < |run|
    ensures Supers(run[n].users) != {}
    ensures Calm(run[n])
  {
    if n > 0 {
      SuperRemains(run, acts, n - 1);
      StepKeepsCalm(run[n - 1], acts[n - 1]);
    }
  }

  // ---- and with promotions it can fail -------------------------------------------------------

  const ROOT := Standing(SuperAdmin, true)
  const CLERK := Standing(Admin, true)
  const BEFORE := map[1 := ROOT, 2 := CLERK]
  const PROMOTED := map[1 := ROOT, 2 := ROOT]
  const DEMOTED := map[1 := CLERK, 2 := ROOT]
  const NOBODY := map[1 := CLERK, 2 := Standing(TeacherRole, true)]

  const FRESH := Standing(StudentRole, false)
  const STALE := Tx(2, Some(TeacherRole), None, Writing, CLERK, false, {}, {}, SuperAdmin)
  const PROMOTE := Tx(2, Some(SuperAdmin), None, Writing, CLERK, false, {}, {}, SuperAdmin)
  const DEMOTE := Tx(1, Some(Admin), None, Counting, ROOT, true, {1, 2}, {}, SuperAdmin)

  ghost predicate Reachable(a: Sys) {
    exists run: seq<Sys>, acts: seq<Action> :: IsRun(run, acts) && run[|acts|] == a
  }

  lemma Reach(a: Sys, act: Action, b: Sys)
    requires Reachable(a) && Allowed(a, act) && After(a, act) == b
    ensures Reachable(b)
  {
    var run: seq<Sys>, acts: seq<Action> :| IsRun(run, acts) && run[|acts|] == a;
    var run', acts' := run + [b], acts + [act];
    assert IsRun(run', acts') && run'[|acts'|] == b;
  }

  /** Update 1 has read user 2 as an admin, and user 2 is promoted meanwhile. */
  lemma RaceOpens()
    ensures Reachable(Sys(PROMOTED, map[1 := STALE]))
  {
    assert 1 in Supers(BEFORE);
    assert IsRun([Sys(BEFORE, map[])], []);
    var new1, new2 := STALE.(pc := Reading, seen := FRESH), PROMOTE.(pc := Reading, seen := FRESH);
    Reach(Sys(BEFORE, map[]), Begin(1, 2, Some(TeacherRole), None, SuperAdmin), Sys(BEFORE, map[1 := new1]));
    Reach(Sys(BEFORE, map[1 := new1]), Read(1), Sys(BEFORE, map[1 := STALE]));
    Reach(Sys(BEFORE, map[1 := STALE]), Begin(2, 2, Some(SuperAdmin), None, SuperAdmin),
          Sys(BEFORE, map[1 := STALE, 2 := new2]));
    Promotes(new2);
  }

  lemma Promotes(new2: Tx)
    requires new2 == PROMOTE.(pc := Reading, seen := FRESH) && Reachable(Sys(BEFORE, map[1 := STALE, 2 := new2]))
    ensures Reachable(Sys(PROMOTED, map[1 := STALE]))
  {
    Reach(Sys(BEFORE, map[1 := STALE, 2 := new2]), Read(2), Sys(BEFORE, map[1 := STALE, 2 := PROMOTE]));
    PromotionLands();
  }

  lemma PromotionLands()
    requires Reachable(Sys(BEFORE, map[1 := STALE, 2 := PROMOTE]))
    ensures Reachable(Sys(PROMOTED, map[1 := STALE]))
  {
    var done := PROMOTE.(pc := Committing);
    Reach(Sys(BEFORE, map[1 := STALE, 2 := PROMOTE]), Write(2), Sys(BEFORE, map[1 := STALE, 2 := done]));
    Reach(Sys(BEFORE, map[1 := STALE, 2 := done]), Commit(2), Sys(PROMOTED, map[1 := STALE]));
  }

  /** The store in the middle of the race: update 1 waits with what it read. */
  function Racing(t: Tx): Sys {
    Sys(PROMOTED, map[1 := STALE, 3 := t])
  }

  lemma Advance3(t: Tx, act: Action, t': Tx)
    requires Reachable(Racing(t)) && Allowed(Racing(t), act) && After(Racing(t), act).users == PROMOTED
    requires After(Racing(t), act).txs == Racing(t).txs[3 := t']
    ensures Reachable(Racing(t'))
  {
    assert Racing(t).txs[3 := t'] == Racing(t').txs;
    Reach(Racing(t), act, Racing(t'));
  }

  /** User 1 is demoted, rightly, as there are two active super admins now. */
  lemma RaceGoesOn()
    requires Reachable(Sys(PROMOTED, map[1 := STALE]))
    ensures Reachable(Racing(DEMOTE))
  {
    var new3 := Tx(1, Some(Admin), None, Reading, FRESH, false, {}, {}, SuperAdmin);
    assert Supers(PROMOTED) == {1, 2};
    Reach(Sys(PROMOTED, map[1 := STALE]), Begin(3, 1, Some(Admin), None, SuperAdmin), Racing(new3));
    var asked := DEMOTE.(pc := Querying, wanted := {});
    Advance3(new3, Read(3), asked);
    Advance3(asked, Query(3), DEMOTE);
  }

  lemma LockStep(t: Tx, u: UserId)
    requires Reachable(Racing(t)) && t.pc == Counting && u in t.wanted && (u == 1 || u == 2)
    ensures Reachable(Racing(t.(wanted := t.wanted - {u}, locked := t.locked + {u})))
  {
    assert u in Supers(PROMOTED);
    Advance3(t, Lock(3, u), t.(wanted := t.wanted - {u}, locked := t.locked + {u}));
  }

  lemma CountStep(t: Tx)
    requires Reachable(Racing(t)) && t.pc == Counting && t.wanted == {} && |t.locked| > 1
    ensures Reachable(Racing(t.(pc := Writing)))
  {
    Advance3(t, Count(3), t.(pc := Writing));
  }

  lemma WriteStep(t: Tx)
    requires Reachable(Racing(t)) && t.pc == Writing
    ensures Reachable(Racing(t.(pc := Committing)))
  {
    Advance3(t, Action.Write(3), t.(pc := Committing));
  }

  lemma CommitStep(t: Tx)
    requires Reachable(Racing(t)) && t.pc == Committing
    requires t.target == 1 && t.seen == ROOT && t.role == Some(Admin) && t.active == None
    ensures Reachable(Sys(DEMOTED, map[1 := STALE]))
  {
    assert Written(ROOT, t) == CLERK;
    assert PROMOTED[1 := CLERK] == DEMOTED;
    assert Racing(t).txs - {3} == map[1 := STALE];
    Reach(Racing(t), Commit(3), Sys(DEMOTED, map[1 := STALE]));
  }

  lemma RaceDemotes()
    requires Reachable(Racing(DEMOTE))
    ensures Reachable(Sys(DEMOTED, map[1 := STALE]))
  {
    LockStep(DEMOTE, 1);
    var one := DEMOTE.(wanted := DEMOTE.wanted - {1}, locked := DEMOTE.locked + {1});
    LockStep(one, 2);
    var both := one.(wanted := one.wanted - {2}, locked := one.locked + {2});
    assert both.wanted == {} && both.locked == {1, 2};
    CountStep(both);
    WriteStep(both.(pc := Writing));
    CommitStep(both.(pc := Committing));
  }

  const WRITTEN := STALE.(pc := Committing)

  lemma RaceWrites()
    ensures Reachable(Sys(DEMOTED, map[1 := WRITTEN]))
  {
    RaceOpens();
    RaceGoesOn();
    RaceDemotes();
    Reach(Sys(DEMOTED, map[1 := STALE]), Write(1), Sys(DEMOTED, map[1 := WRITTEN]));
  }

  /** The entry that update 1 is about to commit does not start where the trail of
      its account has ended. */
  lemma TrailCanBreak()
    ensures exists run: seq<Sys>, acts: seq<Action>, i: Tid ::
      && IsRun(run, acts) && Allowed(run[|acts|], Commit(i))
      && Some(EntryOf(run[|acts|], run[|acts|].txs[i]).before) !=
           TrailEnd(run, acts, |acts|, run[|acts|].txs[i].target)
  {
    RaceWrites();
    var a := Sys(DEMOTED, map[1 := WRITTEN]);
    var run: seq<Sys>, acts: seq<Action> :| IsRun(run, acts) && run[|acts|] == a;
    TrailEndsAtPresent(run, acts, |acts|, 2);
    assert IsRun(run, acts) && Allowed(run[|acts|], Commit(1));
    assert EntryOf(a, WRITTEN).before == CLERK && a.users[2] == ROOT;
  }

  /** Update 1 then writes user 2 down: nobody is left. */
  lemma PromotionRaceLosesAll()
    ensures exists a :: Reachable(a) && Supers(a.users) == {}
  {
    RaceWrites();
    Reach(Sys(DEMOTED, map[1 := WRITTEN]), Commit(1), Sys(NOBODY, map[]));
    assert Supers(NOBODY) == {};
  }

  // ---- an ordinary admin and an account that has just been raised -----------------------------

  const TEACHER := Standing(TeacherRole, true)
  const STAFF := map[1 := ROOT, 3 := TEACHER]
  const RAISED := map[1 := ROOT, 3 := CLERK]
  const RETIRE := Tx(3, None, Some(false), Writing, TEACHER, false, {}, {}, Admin)
  const RAISE := Tx(3, Some(Admin), None, Writing, TEACHER, false, {}, {}, SuperAdmin)

  lemma RetireHasRead()
    ensures Reachable(Sys(STAFF, map[1 := RETIRE]))
  {
    assert 1 in Supers(STAFF);
    assert IsRun([Sys(STAFF, map[])], []);
    var start := RETIRE.(pc := Reading, seen := FRESH);
    Reach(Sys(STAFF, map[]), Begin(1, 3, None, Some(false), Admin), Sys(STAFF, map[1 := start]));
    Reach(Sys(STAFF, map[1 := start]), Read(1), Sys(STAFF, map[1 := RETIRE]));
  }

  lemma RaiseHasRead()
    ensures Reachable(Sys(STAFF, map[1 := RETIRE, 2 := RAISE]))
  {
    RetireHasRead();
    var start := RAISE.(pc := Reading, seen := FRESH);
    Reach(Sys(STAFF, map[1 := RETIRE]), Begin(2, 3, Some(Admin), None, SuperAdmin),
          Sys(STAFF, map[1 := RETIRE, 2 := start]));
    Reach(Sys(STAFF, map[1 := RETIRE, 2 := start]), Read(2), Sys(STAFF, map[1 := RETIRE, 2 := RAISE]));
  }

  lemma RaiseLands()
    ensures Reachable(Sys(RAISED, map[1 := RETIRE]))
  {
    RaiseHasRead();
    var done := RAISE.(pc := Committing);
    Reach(Sys(STAFF, map[1 := RETIRE, 2 := RAISE]), Write(2), Sys(STAFF, map[1 := RETIRE, 2 := done]));
    Reach(Sys(STAFF, map[1 := RETIRE, 2 := done]), Commit(2), Sys(RAISED, map[1 := RETIRE]));
  }

  /** The update of an ordinary admin, who read a teacher, deactivates an admin. */
  lemma TierCanBeTouched()
    ensures exists a, i ::
      && Reachable(a) && Allowed(a, Commit(i)) && a.txs[i].actor == Admin && a.txs[i].target in a.users
      && TopTier(a.users[a.txs[i].target].role)
      && After(a, Commit(i)).users[a.txs[i].target] != a.users[a.txs[i].target]
  {
    RaiseLands();
    var done := RETIRE.(pc := Committing);
    var a := Sys(RAISED, map[1 := done]);
    Reach(Sys(RAISED, map[1 := RETIRE]), Write(1), a);
    assert Reachable(a) && Allowed(a, Commit(1)) && a.txs[1] == done;
    assert After(a, Commit(1)).users[3] == Standing(Admin, false);
  }
}
