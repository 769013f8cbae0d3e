/** Which states a run can come to: paths of steps, and whole requests as paths. */
module Reachability {
  import opened School
  import opened Interleaving
  import Solo

  ghost predicate IsPath(path: seq<Sys>, p: Sys -> bool) {
    && |path| > 0
    && (forall n :: 0 <= n < |path| ==> p(path[n]))
    && forall n :: 0 < n < |path| ==> StepAt(path, n)
  }

  /** Some steps lead from a to b, through states that all satisfy p. */
  ghost predicate Leads(a: Sys, b: Sys, p: Sys -> bool) {
    exists path: seq<Sys> :: IsPath(path, p) && path[0] == a && path[|path| - 1] == b
  }

  const ANY: Sys -> bool := (a: Sys) => true

  /** Some run comes to a, through states that all satisfy p. */
  ghost predicate Reached(a: Sys, p: Sys -> bool) {
    Leads(INIT, a, p)
  }

  ghost predicate Reachable(a: Sys) {
    exists run: seq<Sys> :: IsRun(run) && run[|run| - 1] == a
  }

  lemma Joined(a: Sys, b: Sys, c: Sys, p: Sys -> bool)
    requires Leads(a, b, p) && Leads(b, c, p)
    ensures Leads(a, c, p)
  {
    var one: seq<Sys> :| IsPath(one, p) && one[0] == a && one[|one| - 1] == b;
    var two: seq<Sys> :| IsPath(two, p) && two[0] == b && two[|two| - 1] == c;
    var path := one + two[1..];
    forall n | 0 < n < |path| ensures StepAt(path, n) {
      if n < |one| {
        assert StepAt(one, n);
      } else {
        assert StepAt(two, n - |one| + 1);
        assert path[n - 1] == two[n - |one|] && path[n] == two[n - |one| + 1];
      }
    }
    assert IsPath(path, p) && path[0] == a && path[|path| - 1] == c;
  }

  lemma OneStep(a: Sys, b: Sys, act: Action, p: Sys -> bool)
    requires Does(a, b, act) && p(a) && p(b)
    ensures Leads(a, b, p)
  {
    var path := [a, b];
    assert Step(a, b);
    assert IsPath(path, p) && path[0] == a && path[|path| - 1] == b;
  }

  lemma NoStep(a: Sys, p: Sys -> bool)
    requires p(a)
    ensures Leads(a, a, p)
  {
    var path := [a];
    assert IsPath(path, p) && path[0] == a && path[|path| - 1] == a;
  }

  lemma ReachedIsReachable(a: Sys, p: Sys -> bool)
    requires Reached(a, p)
    ensures Reachable(a)
  {
    var path: seq<Sys> :| IsPath(path, p) && path[0] == INIT && path[|path| - 1] == a;
    assert IsRun(path) && path[|path| - 1] == a;
  }

  // ---- requests as paths --------------------------------------------------------

  /** The state with transaction i standing at t. */
  function At(a: Sys, i: Tid, t: Tx): Sys {
    a.(txs := a.txs[i := t])
  }

  /** t never waits for anything open in a. */
  ghost predicate Unhindered(a: Sys, t: Tx) {
    forall j :: j in a.txs ==> !Waits(t, a.txs[j])
  }

  lemma Moved(a: Sys, i: Tid, t: Tx, t': Tx, p: Sys -> bool)
    requires i !in a.txs && Unhindered(a, t) && Moves(a.db, t, t')
    requires p(At(a, i, t)) && p(At(a, i, t'))
    ensures Leads(At(a, i, t), At(a, i, t'), p)
  {
    assert At(a, i, t').txs == At(a, i, t).txs[i := t'];
    OneStep(At(a, i, t), At(a, i, t'), Advance(i, t'), p);
  }

  lemma {:induction false} Follows(a: Sys, i: Tid, path: seq<Tx>, n: nat, p: Sys -> bool)
    requires i !in a.txs && Solo.IsSolo(a.db, path) && n < |path|
    requires forall t: Tx :: t.op == path[0].op ==> Unhindered(a, t) && p(At(a, i, t))
    ensures Leads(At(a, i, path[0]), At(a, i, path[n]), p) && path[n].op == path[0].op
  {
    if n == 0 {
      NoStep(At(a, i, path[0]), p);
    } else {
      Follows(a, i, path, n - 1, p);
      Solo.MoveKeepsOp(a.db, path[n - 1], path[n]);
      Moved(a, i, path[n - 1], path[n], p);
      Joined(At(a, i, path[0]), At(a, i, path[n - 1]), At(a, i, path[n]), p);
    }
  }

  lemma Committed(a: Sys, i: Tid, t: Tx, p: Sys -> bool) returns (b: Sys)
    requires i !in a.txs && t.pc == Committing && p(At(a, i, t))
    requires forall fanned :: p(a.(db := CommitDb(a.db, t), fanned := fanned))
    ensures Does(At(a, i, t), b, Commit(i)) && Leads(At(a, i, t), b, p)
    ensures b == a.(db := CommitDb(a.db, t), fanned := if t.op.Enroll? then a.fanned else b.fanned)
  {
    b := a.(db := CommitDb(a.db, t), fanned := if t.op.Enroll? then a.fanned else a.fanned + t.staged);
    assert At(a, i, t).txs - {i} == a.txs;
    assert b == a.(db := CommitDb(a.db, t), fanned := b.fanned);
    OneStep(At(a, i, t), b, Commit(i), p);
  }

  /** A request that the service accepts and that nobody hinders can run from its
      first statement up to its commit, and commit. */
  lemma Arrives(a: Sys, i: Tid, op: Op, p: Sys -> bool) returns (t: Tx, b: Sys)
    requires i !in a.txs && Solo.Served(a.db, op).Some? && p(a)
    requires forall t: Tx :: t.op == op ==> Unhindered(a, t) && p(At(a, i, t))
    requires forall fanned :: p(a.(db := Solo.Served(a.db, op).value, fanned := fanned))
    ensures t.op == op && t.pc == Committing && Leads(a, At(a, i, t), p)
    ensures Does(At(a, i, t), b, Commit(i)) && Leads(a, b, p)
    ensures b == a.(db := Solo.Served(a.db, op).value, fanned := if op.Enroll? then a.fanned else b.fanned)
  {
    var path: seq<Tx> := Solo.Finish(a.db, Start(op));
    var n := |path| - 1;
    t := path[n];
    Follows(a, i, path, n, p);
    Solo.SoloAgrees(a.db, path);
    OneStep(a, At(a, i, path[0]), Begin(i, op), p);
    Joined(a, At(a, i, path[0]), At(a, i, t), p);
    b := Committed(a, i, t, p);
    Joined(a, At(a, i, t), b, p);
  }

  // ---- from reached states to reached states ---------------------------------------

  lemma Wrote(a: Sys, ch: Change, p: Sys -> bool) returns (b: Sys)
    requires Reached(a, p) && Allowed(a, ch) && p(a) && p(AfterWrite(a, ch))
    ensures Reached(b, p) && Does(a, b, Write(ch)) && b == AfterWrite(a, ch)
  {
    b := AfterWrite(a, ch);
    OneStep(a, b, Write(ch), p);
    Joined(INIT, a, b, p);
  }

  lemma Served(a: Sys, i: Tid, op: Op, p: Sys -> bool) returns (b: Sys)
    requires Reached(a, p) && i !in a.txs && Solo.Served(a.db, op).Some? && p(a)
    requires forall t: Tx :: t.op == op ==> Unhindered(a, t) && p(At(a, i, t))
    requires forall fanned :: p(a.(db := Solo.Served(a.db, op).value, fanned := fanned))
    ensures Reached(b, p)
    ensures b == a.(db := Solo.Served(a.db, op).value, fanned := if op.Enroll? then a.fanned else b.fanned)
  {
    var t;
    t, b := Arrives(a, i, op, p);
    Joined(INIT, a, b, p);
  }

  lemma Began(a: Sys, i: Tid, op: Op, p: Sys -> bool) returns (b: Sys)
    requires Reached(a, p) && i !in a.txs && p(a) && p(At(a, i, Start(op)))
    ensures Reached(b, p) && b == At(a, i, Start(op))
  {
    b := At(a, i, Start(op));
    OneStep(a, b, Begin(i, op), p);
    Joined(INIT, a, b, p);
  }

  /** Transaction i runs a statement that waits for nobody. */
  lemma Went(a: Sys, i: Tid, t: Tx, t': Tx, p: Sys -> bool)
    requires i !in a.txs && Unhindered(a, t) && Reached(At(a, i, t), p) && Moves(a.db, t, t')
    requires p(At(a, i, t)) && p(At(a, i, t'))
    ensures Reached(At(a, i, t'), p)
  {
    Moved(a, i, t, t', p);
    Joined(INIT, At(a, i, t), At(a, i, t'), p);
  }
}
