/** How a cycle of waits can come about at all: two fan-outs have a key in common
    only if a class on the list of an assignment was of a foreign year when it was
    listed, or has got another term since. */
module Cycles {
  import opened School
  import opened Interleaving
  import opened Discipline
  import opened Provenance
  import opened Deadlock

  // ---- what stays over a run ------------------------------------------------------

  ghost predicate TermsStay(db: Db, db': Db) {
    && (forall m :: m in db.terms ==> m in db'.terms && db'.terms[m] == db.terms[m])
    && (forall c :: c in db.classes ==> c in db'.classes)
  }

  lemma ChangeKeepsTermRows(a: Sys, ch: Change)
    requires Allowed(a, ch)
    ensures TermsStay(a.db, ChangeDb(a.db, ch))
  {
  }

  lemma StepKeepsTermRows(a: Sys, b: Sys)
    requires Step(a, b)
    ensures TermsStay(a.db, b.db)
  {
    var act :| Does(a, b, act);
    match act
    case Commit(i) =>
    case Write(ch) => ChangeKeepsTermRows(a, ch);
    case _ => assert b.db == a.db;
  }

  lemma {:induction false} RunKeepsTermRows(run: seq<Sys>, m: nat, n: nat)
    requires IsRun(run) && m <= n < |run|
    ensures TermsStay(run[m].db, run[n].db)
  {
    if m < n {
      RunKeepsTermRows(run, m, n - 1);
      assert StepAt(run, n);
      StepKeepsTermRows(run[n - 1], run[n]);
    }
  }

  /** Once it lists, a fan-out keeps its section row and does not go back. */
  predicate Past(t: Tx, since: Tx) {
    t.section == since.section && (Lists(t) || t.pc == FanOut || t.pc == Committing)
  }

  lemma MovesOn(db: Db, t: Tx, t': Tx, since: Tx)
    requires RightPc(t) && IsFan(t) && Past(t, since) && Moves(db, t, t')
    ensures Past(t', since)
  {
  }

  lemma {:induction false} StaysPast(run: seq<Sys>, m: nat, n: nat, i: Tid)
    requires IsRun(run) && m <= n < |run| && OpenFrom(run, m, n, i)
    requires Lists(run[m].txs[i]) && IsFan(run[n].txs[i])
    ensures Past(run[n].txs[i], run[m].txs[i])
  {
    if m < n {
      assert OpenFrom(run, m, n - 1, i);
      StaysPast(run, m, n - 1, i);
      StepsPast(run, n, i, run[m].txs[i]);
    }
  }

  lemma StepsPast(run: seq<Sys>, n: nat, i: Tid, since: Tx)
    requires IsRun(run) && 0 < n < |run| && i in run[n - 1].txs && i in run[n].txs
    requires IsFan(run[n - 1].txs[i]) && Past(run[n - 1].txs[i], since)
    ensures Past(run[n].txs[i], since)
  {
    RunStep(run, n);
    StaysOrMoves(run[n - 1], run[n], i);
    var t, t' := run[n - 1].txs[i], run[n].txs[i];
    assert TxOk(run[n - 1].db, t);
    if t' != t {
      MovesOn(run[n - 1].db, t, t', since);
    }
  }

  // ---- two fan-outs with a key in common --------------------------------------------

  /** When transaction i made its list, at m, class c was attached to its section
      but of another year, or its term has changed since. */
  ghost predicate Displaced(run: seq<Sys>, m: nat, n: nat, i: Tid, c: Class)
    requires m <= n < |run| && OpenFrom(run, m, n, i) && run[n].txs[i].op.Assign?
  {
    && c in AttachedTo(run[m].db, run[n].txs[i].op.s) && c in run[n].db.classes
    && (InYear(run[m].db, c, run[n].txs[i].section.year) ==>
          run[n].db.classes[c].term != run[m].db.classes[c].term)
  }

  ghost predicate DisplacedSince(run: seq<Sys>, n: nat, i: Tid, c: Class)
    requires n < |run|
  {
    exists m: nat :: m < n && OpenFrom(run, m, n, i) && run[n].txs[i].op.Assign? && Displaced(run, m, n, i, c)
  }

  lemma NotDisplaced(run: seq<Sys>, m: nat, n: nat, i: Tid, c: Class)
    requires IsRun(run) && m <= n < |run| && OpenFrom(run, m, n, i) && run[n].txs[i].op.Assign?
    requires c in AttachedTo(run[m].db, run[n].txs[i].op.s) && !Displaced(run, m, n, i, c)
    ensures InYear(run[n].db, c, run[n].txs[i].section.year)
  {
    RunKeepsTermRows(run, m, n);
  }

  lemma AssignsMeet(a: Sys, i: Tid, j: Tid, k: Key)
    requires Discipline.Inv(a) && i in a.txs && j in a.txs && i != j
    requires a.txs[i].op.Assign? && a.txs[j].op.Assign? && k in Pending(a.txs[i]) && k in Pending(a.txs[j])
    ensures a.txs[i].section.year != a.txs[j].section.year
  {
    assert TxOk(a.db, a.txs[i]) && TxOk(a.db, a.txs[j]) && PairOk(a.txs[i], a.txs[j]);
  }

  /** An attachment found the student seated while the assignment of that student
      held a seat: not in the same year. */
  lemma SeatsDiffer(a: Sys, i: Tid, j: Tid, k: Key)
    requires Discipline.Inv(a) && i in a.txs && j in a.txs && i != j
    requires a.txs[i].op.Assign? && a.txs[j].op.Attach? && a.txs[j].pc == ListRoster
    requires a.txs[i].op.x == k.0 && StagedOrLists(a.txs[i]) && OnRoster(a.db, k.0, a.txs[j].op.s)
    ensures a.txs[i].section.year != a.txs[j].section.year
  {
    assert TxOk(a.db, a.txs[i]) && TxOk(a.db, a.txs[j]);
  }

  predicate StagedOrLists(t: Tx) {
    t.pc == ListClasses || t.pc == FanOut || t.pc == Committing
  }

  /** An open attachment holds its class, so nobody lists it for another section. */
  lemma HeldClassIsNotListed(a: Sys, i: Tid, j: Tid, c: Class)
    requires Discipline.Inv(a) && i in a.txs && j in a.txs && i != j
    requires a.txs[i].op.Assign? && a.txs[i].pc == ListClasses && c in AttachedTo(a.db, a.txs[i].op.s)
    requires a.txs[j].op.Attach? && a.txs[j].op.c == c
    ensures a.txs[j].pc != ListRoster && a.txs[j].pc != FanOut && a.txs[j].pc != Committing
  {
    assert TxOk(a.db, a.txs[i]) && TxOk(a.db, a.txs[j]) && PairOk(a.txs[i], a.txs[j]);
  }

  lemma AssignMeetsAttach(run: seq<Sys>, n: nat, i: Tid, j: Tid, k: Key)
    requires IsRun(run) && n < |run| && i in run[n].txs && j in run[n].txs && i != j
    requires run[n].txs[i].op.Assign? && run[n].txs[j].op.Attach?
    requires k in Pending(run[n].txs[i]) && k in Pending(run[n].txs[j])
    ensures DisplacedSince(run, n, i, k.1)
  {
    var m := WasFound(run, n, i, k);
    var h := WasFound(run, n, j, k);
    Discipline.InvAlways(run, n);
    Discipline.InvAlways(run, m);
    Discipline.InvAlways(run, h);
    assert TxOk(run[n].db, run[n].txs[j]) && TxOk(run[m].db, run[m].txs[i]) && TxOk(run[h].db, run[h].txs[j]);
    if h < m {
      assert OpenFrom(run, h, m, j);
      StaysPast(run, h, m, j);
      HeldClassIsNotListed(run[m], i, j, k.1);
    } else {
      assert OpenFrom(run, m, h, i);
      StaysPast(run, m, h, i);
      StaysPast(run, m, n, i);
      StaysPast(run, h, n, j);
      SeatsDiffer(run[h], i, j, k);
      if !Displaced(run, m, n, i, k.1) {
        NotDisplaced(run, m, n, i, k.1);
      }
    }
  }

  lemma AssignMeetsAssign(run: seq<Sys>, n: nat, i: Tid, j: Tid, k: Key)
    requires IsRun(run) && n < |run| && i in run[n].txs && j in run[n].txs && i != j
    requires run[n].txs[i].op.Assign? && run[n].txs[j].op.Assign?
    requires k in Pending(run[n].txs[i]) && k in Pending(run[n].txs[j])
    ensures DisplacedSince(run, n, i, k.1) || DisplacedSince(run, n, j, k.1)
  {
    var m := WasFound(run, n, i, k);
    var h := WasFound(run, n, j, k);
    Discipline.InvAlways(run, n);
    AssignsMeet(run[n], i, j, k);
    if !Displaced(run, m, n, i, k.1) && !Displaced(run, h, n, j, k.1) {
      NotDisplaced(run, m, n, i, k.1);
      NotDisplaced(run, h, n, j, k.1);
    }
  }

  lemma AttachesNeverMeet(a: Sys, i: Tid, j: Tid, k: Key)
    requires Discipline.Inv(a) && i in a.txs && j in a.txs && i != j
    requires a.txs[i].op.Attach? && a.txs[j].op.Attach?
    ensures !(k in Pending(a.txs[i]) && k in Pending(a.txs[j]))
  {
    assert TxOk(a.db, a.txs[i]) && TxOk(a.db, a.txs[j]) && PairOk(a.txs[i], a.txs[j]);
  }

  /** Two fan-outs of any run have a key in common only if its class was displaced
      behind an assignment that has it on its list. */
  lemma MeetingIsExplained(run: seq<Sys>, n: nat, i: Tid, j: Tid, k: Key)
    requires IsRun(run) && n < |run| && i in run[n].txs && j in run[n].txs && i != j
    requires IsFan(run[n].txs[i]) && IsFan(run[n].txs[j])
    requires k in Pending(run[n].txs[i]) && k in Pending(run[n].txs[j])
    ensures DisplacedSince(run, n, i, k.1) || DisplacedSince(run, n, j, k.1)
  {
    if run[n].txs[i].op.Assign? && run[n].txs[j].op.Assign? {
      AssignMeetsAssign(run, n, i, j, k);
    } else if run[n].txs[i].op.Assign? {
      AssignMeetsAttach(run, n, i, j, k);
    } else if run[n].txs[j].op.Assign? {
      AssignMeetsAttach(run, n, j, i, k);
    } else {
      Discipline.InvAlways(run, n);
      AttachesNeverMeet(run[n], i, j, k);
    }
  }

  /** So a cycle of waits, in any run, has two neighbours that share such a class. */
  lemma CycleIsExplained(run: seq<Sys>, n: nat, path: seq<Tid>) returns (k: Key)
    requires IsRun(run) && n < |run| && WaitPath(run[n], path) && path[0] == path[|path| - 1]
    ensures path[0] in run[n].txs && path[1] in run[n].txs
    ensures k in Pending(run[n].txs[path[0]]) && k in Pending(run[n].txs[path[1]])
    ensures DisplacedSince(run, n, path[0], k.1) || DisplacedSince(run, n, path[1], k.1)
  {
    CycleIsOfFanOuts(run, n, path);
    Discipline.InvAlways(run, n);
    k := FanOutWaitShares(run[n], path[0], path[1]);
    MeetingIsExplained(run, n, path[0], path[1], k);
  }
}
