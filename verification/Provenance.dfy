/** Where enrolment rows come from when transactions interleave.

    One after another, a row is explained by an individual enrolment or by student
    and class having been together through a section.  Interleaved, there is one
    more way: neither unassign nor detach_class waits for the section lock, so a
    fan-out may enrol a student who has left the section, or into a class that has
    been detached, since it made its list. */
module Provenance {
  import opened School
  import opened Interleaving
  import opened Discipline
  import Coverage
  import opened RunProperties

  /** Transaction i stays open, on one operation, from state m up to state n. */
  ghost predicate OpenFrom(run: seq<Sys>, m: nat, n: nat, i: Tid)
    requires m <= n < |run|
  {
    i in run[n].txs && forall h :: m <= h <= n ==> i in run[h].txs && run[h].txs[i].op == run[n].txs[i].op
  }

  /** What the fan-out of op found when it made its list. */
  ghost predicate Found(db: Db, op: Op, k: Key) {
    match op
    case Assign(x, s) => k.0 == x && k.1 in AttachedTo(db, s)
    case Attach(s, c) => k.1 == c && OnRoster(db, k.0, s)
    case _ => false
  }

  ghost predicate CommitsEnroll(a: Sys, b: Sys, k: Key) {
    exists i :: Commits(a, b, i) && a.txs[i].op == Enroll(k.0, k.1)
  }

  ghost predicate EnrolsAt(run: seq<Sys>, n: nat, k: Key) {
    0 < n < |run| && CommitsEnroll(run[n - 1], run[n], k)
  }

  ghost predicate TogetherAt(run: seq<Sys>, n: nat, k: Key) {
    n < |run| && Together(run[n].db, k)
  }

  /** Transaction i commits at n a row for what it had found at m, while it was
      open, and what is no longer so. */
  ghost predicate Overtaken(run: seq<Sys>, n: nat, i: Tid, m: nat, k: Key) {
    && m < n < |run| && Commits(run[n - 1], run[n], i) && k in run[n - 1].txs[i].staged
    && OpenFrom(run, m, n - 1, i)
    && Found(run[m].db, run[n - 1].txs[i].op, k) && !Found(run[n].db, run[n - 1].txs[i].op, k)
  }

  ghost predicate OvertakenAt(run: seq<Sys>, n: nat, k: Key) {
    exists i, m :: Overtaken(run, n, i, m, k)
  }

  /** The next statement makes the list. */
  predicate Lists(t: Tx) {
    t.pc == ListClasses || t.pc == ListRoster
  }

  // ---- what a fan-out has on its list, it has found ---------------------------------

  lemma Listing(a: Sys, t: Tx, t': Tx, k: Key)
    requires RightPc(t) && KeysOk(a.db, t) && Moves(a.db, t, t') && (t.op.Assign? || t.op.Attach?)
    requires k in Pending(t') && k !in Pending(t)
    ensures Found(a.db, t.op, k) && Lists(t)
  {
    if t.pc == ListRoster {
      var seat :| seat in RosterRows(a.db, t.op.s) && k == (seat.0, t.op.c);
    }
  }

  lemma BeganEmpty(a: Sys, b: Sys, i: Tid, k: Key)
    requires Step(a, b) && i in b.txs && k in Pending(b.txs[i])
    ensures i in a.txs
  {
  }

  lemma StaysOrMoves(a: Sys, b: Sys, i: Tid)
    requires Step(a, b) && i in a.txs && i in b.txs
    ensures b.txs[i] == a.txs[i] || (b.db == a.db && Moves(a.db, a.txs[i], b.txs[i]))
  {
  }

  lemma OneStepBack(a: Sys, b: Sys, i: Tid, k: Key)
    requires Discipline.Inv(a) && Step(a, b) && i in b.txs && k in Pending(b.txs[i])
    requires b.txs[i].op.Assign? || b.txs[i].op.Attach?
    ensures i in a.txs && a.txs[i].op == b.txs[i].op
    ensures k in Pending(a.txs[i]) || (Found(a.db, b.txs[i].op, k) && Lists(a.txs[i]))
  {
    BeganEmpty(a, b, i, k);
    StaysOrMoves(a, b, i);
    assert TxOk(a.db, a.txs[i]);
    if b.txs[i] != a.txs[i] {
      MoveKeepsPc(a.db, a.txs[i], b.txs[i]);
      if k !in Pending(a.txs[i]) {
        Listing(a, a.txs[i], b.txs[i], k);
      }
    }
  }

  lemma RunStepBack(run: seq<Sys>, n: nat, i: Tid, k: Key)
    requires IsRun(run) && n < |run| && i in run[n].txs && k in Pending(run[n].txs[i])
    requires run[n].txs[i].op.Assign? || run[n].txs[i].op.Attach?
    ensures n > 0 && i in run[n - 1].txs && run[n - 1].txs[i].op == run[n].txs[i].op
    ensures
      k in Pending(run[n - 1].txs[i]) || (Found(run[n - 1].db, run[n].txs[i].op, k) && Lists(run[n - 1].txs[i]))
  {
    assert n > 0;
    RunStep(run, n);
    OneStepBack(run[n - 1], run[n], i, k);
  }

  lemma {:induction false} WasFound(run: seq<Sys>, n: nat, i: Tid, k: Key) returns (m: nat)
    requires IsRun(run) && n < |run| && i in run[n].txs && k in Pending(run[n].txs[i])
    requires run[n].txs[i].op.Assign? || run[n].txs[i].op.Attach?
    ensures m < n && OpenFrom(run, m, n, i) && Found(run[m].db, run[n].txs[i].op, k) && Lists(run[m].txs[i])
  {
    RunStepBack(run, n, i, k);
    if k in Pending(run[n - 1].txs[i]) {
      m := WasFound(run, n - 1, i, k);
    } else {
      m := n - 1;
      OpenNow(run, m, i);
    }
    StillOpen(run, m, n, i);
  }

  lemma OpenNow(run: seq<Sys>, n: nat, i: Tid)
    requires n < |run| && i in run[n].txs
    ensures OpenFrom(run, n, n, i)
  {
  }

  lemma StillOpen(run: seq<Sys>, m: nat, n: nat, i: Tid)
    requires m < n < |run| && OpenFrom(run, m, n - 1, i)
    requires i in run[n].txs && run[n].txs[i].op == run[n - 1].txs[i].op
    ensures OpenFrom(run, m, n, i)
  {
  }

  // ---- a new row is explained ---------------------------------------------------------

  lemma OthersAddNoRow(a: Sys, b: Sys, act: Action)
    requires Does(a, b, act) && !act.Commit?
    ensures b.db.enrol.Keys == a.db.enrol.Keys
  {
    if act.Write? {
      match act.ch {
        case Drop(k) => assert b.db.enrol.Keys == a.db.enrol.Keys + {k};
        case _ => assert b.db.enrol == a.db.enrol;
      }
    }
  }

  lemma NewRowIsStaged(a: Sys, b: Sys, k: Key) returns (i: Tid)
    requires Step(a, b) && k !in a.db.enrol && k in b.db.enrol
    ensures Commits(a, b, i) && k in a.txs[i].staged
  {
    var act :| Does(a, b, act);
    if act.Commit? {
      i := act.i;
    } else {
      OthersAddNoRow(a, b, act);
    }
  }

  /** A commit that finds things as the list had them brings the pair together. */
  lemma FoundIsTogether(a: Sys, b: Sys, i: Tid, k: Key)
    requires Commits(a, b, i) && TxOk(a.db, a.txs[i]) && Found(b.db, a.txs[i].op, k)
    ensures Together(b.db, k)
  {
    var t := a.txs[i];
    match t.op
    case Assign(x, s) =>
      assert b.db.roster[(x, t.section.year)] == s;
      assert OnRoster(b.db, k.0, s);
    case Attach(s, c) =>
      assert c in AttachedTo(b.db, s);
  }

  lemma StagedByWhom(a: Sys, i: Tid, k: Key)
    requires Discipline.Inv(a) && i in a.txs && k in a.txs[i].staged
    ensures TxOk(a.db, a.txs[i]) && k in Pending(a.txs[i])
    ensures a.txs[i].op == Enroll(k.0, k.1) || a.txs[i].op.Assign? || a.txs[i].op.Attach?
  {
    assert TxOk(a.db, a.txs[i]);
  }

  lemma FannedRow(run: seq<Sys>, n: nat, i: Tid, m: nat, k: Key)
    requires m < n < |run| && Commits(run[n - 1], run[n], i) && k in run[n - 1].txs[i].staged
    requires Found(run[n].db, run[n - 1].txs[i].op, k) ==> Together(run[n].db, k)
    requires OpenFrom(run, m, n - 1, i) && Found(run[m].db, run[n - 1].txs[i].op, k)
    ensures TogetherAt(run, n, k) || OvertakenAt(run, n, k)
  {
    if !Found(run[n].db, run[n - 1].txs[i].op, k) {
      assert Overtaken(run, n, i, m, k);
    }
  }

  lemma NewRowBy(a: Sys, b: Sys, k: Key) returns (i: Tid)
    requires Discipline.Inv(a) && Step(a, b) && k !in a.db.enrol && k in b.db.enrol
    ensures i in a.txs && k in Pending(a.txs[i])
    ensures Found(b.db, a.txs[i].op, k) ==> Together(b.db, k)
    ensures Commits(a, b, i) && k in a.txs[i].staged
    ensures !CommitsEnroll(a, b, k) ==> a.txs[i].op.Assign? || a.txs[i].op.Attach?
  {
    i := NewRowIsStaged(a, b, k);
    StagedByWhom(a, i, k);
    if Found(b.db, a.txs[i].op, k) {
      FoundIsTogether(a, b, i, k);
    }
  }

  lemma NewRowInRun(run: seq<Sys>, n: nat, k: Key) returns (i: Tid)
    requires IsRun(run) && 0 < n < |run| && k !in run[n - 1].db.enrol && k in run[n].db.enrol
    ensures i in run[n - 1].txs && k in Pending(run[n - 1].txs[i])
    ensures Found(run[n].db, run[n - 1].txs[i].op, k) ==> Together(run[n].db, k)
    ensures Commits(run[n - 1], run[n], i) && k in run[n - 1].txs[i].staged
    ensures !CommitsEnroll(run[n - 1], run[n], k) ==> run[n - 1].txs[i].op.Assign? || run[n - 1].txs[i].op.Attach?
  {
    RunStep(run, n);
    i := NewRowBy(run[n - 1], run[n], k);
  }

  lemma NewRow(run: seq<Sys>, n: nat, k: Key)
    requires IsRun(run) && 0 < n < |run| && k !in run[n - 1].db.enrol && k in run[n].db.enrol
    ensures EnrolsAt(run, n, k) || TogetherAt(run, n, k) || OvertakenAt(run, n, k)
  {
    if !EnrolsAt(run, n, k) {
      var i := NewRowInRun(run, n, k);
      var m := WasFound(run, n - 1, i, k);
      FannedRow(run, n, i, m, k);
    }
  }

  lemma {:induction false} RowIsExplained(run: seq<Sys>, n: nat, k: Key) returns (h: nat)
    requires IsRun(run) && n < |run| && k in run[n].db.enrol
    ensures h <= n && (EnrolsAt(run, h, k) || TogetherAt(run, h, k) || OvertakenAt(run, h, k))
  {
    if k in run[n - 1].db.enrol {
      h := RowIsExplained(run, n - 1, k);
    } else {
      NewRow(run, n, k);
      h := n;
    }
  }

  // ---- and nothing else explains without a row ------------------------------------------

  lemma CommitHasRow(a: Sys, b: Sys, i: Tid, k: Key)
    requires Discipline.Inv(a) && Commits(a, b, i)
    requires k in a.txs[i].staged || a.txs[i].op == Enroll(k.0, k.1)
    ensures k in b.db.enrol
  {
    assert TxOk(a.db, a.txs[i]);
  }

  lemma Explaining(run: seq<Sys>, h: nat, k: Key) returns (i: Tid)
    requires EnrolsAt(run, h, k) || OvertakenAt(run, h, k)
    ensures Commits(run[h - 1], run[h], i)
    ensures k in run[h - 1].txs[i].staged || run[h - 1].txs[i].op == Enroll(k.0, k.1)
  {
    if EnrolsAt(run, h, k) {
      var j :| Commits(run[h - 1], run[h], j) && run[h - 1].txs[j].op == Enroll(k.0, k.1);
      i := j;
    } else {
      var j, m :| Overtaken(run, h, j, m, k);
      i := j;
    }
  }

  lemma TogetherHasRow(run: seq<Sys>, h: nat, k: Key)
    requires IsRun(run) && TogetherAt(run, h, k)
    ensures k in run[h].db.enrol
  {
    Coverage.InvAlways(run, h);
    TogetherIsEnrolled(run[h].db, k);
  }

  lemma ExplainedHasRow(run: seq<Sys>, h: nat, k: Key)
    requires IsRun(run) && h < |run|
    requires EnrolsAt(run, h, k) || TogetherAt(run, h, k) || OvertakenAt(run, h, k)
    ensures k in run[h].db.enrol
  {
    if TogetherAt(run, h, k) {
      TogetherHasRow(run, h, k);
    } else {
      var i := Explaining(run, h, k);
      RunStep(run, h);
      CommitHasRow(run[h - 1], run[h], i, k);
    }
  }

  /** In every interleaving: the pairs with a row are exactly those enrolled
      individually, those that were together in some committed state, and those
      that a fan-out had found together and committed after they had parted. */
  lemma InterleavedProvenance(run: seq<Sys>, n: nat, k: Key)
    requires IsRun(run) && n < |run|
    ensures k in run[n].db.enrol <==>
      exists h: nat :: h <= n && (EnrolsAt(run, h, k) || TogetherAt(run, h, k) || OvertakenAt(run, h, k))
  {
    if k in run[n].db.enrol {
      var h := RowIsExplained(run, n, k);
    }
    if h: nat :| h <= n && (EnrolsAt(run, h, k) || TogetherAt(run, h, k) || OvertakenAt(run, h, k)) {
      ExplainedHasRow(run, h, k);
      Coverage.DroppedStaysDropped(run, h, n, k);
    }
  }
}
