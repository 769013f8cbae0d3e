/** Changing the term of a class beside everything else.

    ClassService.update reads the class without a lock, checks on that row that an
    attached class keeps its term, and writes later; the write waits for the row
    lock but checks nothing again.  So an attachment can slip in between. */
module TermUpdates {
  import opened School
  import opened Interleaving
  import opened Discipline

  /** The commit of an update whose check saw the class unattached; meanwhile the
      class is attached, to a section of another year than the new term's. */
  predicate LateWrite(a: Sys, act: Action) {
    && act.Commit? && act.i in a.txs && SetsTerm(a.db, a.txs[act.i])
    && var t, db := a.txs[act.i], a.db;
    && t.cls.section.None?
    && db.classes[t.op.c].section.Some? && db.classes[t.op.c].section.value in db.sections
    && t.op.term in db.terms
    && db.terms[t.op.term] != db.sections[db.classes[t.op.c].section.value].year
  }

  lemma TermWriteKeepsYearsIff(a: Sys, b: Sys, i: Tid)
    requires YearsRight(a.db) && Commits(a, b, i) && RowsOk(a.db, a.txs[i]) && a.txs[i].op.SetTerm?
    ensures YearsRight(b.db) <==> !LateWrite(a, Commit(i))
  {
    var t := a.txs[i];
    if LateWrite(a, Commit(i)) {
      var s := a.db.classes[t.op.c].section.value;
      assert !InYear(b.db, t.op.c, b.db.sections[s].year);
    }
  }

  lemma OtherCommitKeepsYears(db: Db, t: Tx)
    requires YearsRight(db) && RightPc(t) && RowsOk(db, t) && t.pc == Committing && !t.op.SetTerm?
    ensures YearsRight(CommitDb(db, t))
  {
  }

  lemma CommitBreaksYearsIff(a: Sys, b: Sys, i: Tid)
    requires YearsRight(a.db) && Commits(a, b, i) && TxOk(a.db, a.txs[i])
    ensures !YearsRight(b.db) <==> LateWrite(a, Commit(i))
  {
    if a.txs[i].op.SetTerm? {
      TermWriteKeepsYearsIff(a, b, i);
    } else {
      OtherCommitKeepsYears(a.db, a.txs[i]);
    }
  }

  lemma ChangeKeepsYears(a: Sys, ch: Change)
    requires DbOk(a.db) && YearsRight(a.db) && Allowed(a, ch)
    ensures YearsRight(ChangeDb(a.db, ch))
  {
  }

  lemma StepBreaksYearsIff(a: Sys, b: Sys, act: Action)
    requires Inv(a) && YearsRight(a.db) && Does(a, b, act)
    ensures !YearsRight(b.db) <==> LateWrite(a, act)
  {
    match act
    case Commit(i) => CommitBreaksYearsIff(a, b, i);
    case Write(ch) => ChangeKeepsYears(a, ch);
    case _ => assert b.db == a.db;
  }

  /** In any run a step breaks the year rule exactly when it is such a late write. */
  lemma YearsBrokenIff(run: seq<Sys>, n: nat, act: Action)
    requires IsRun(run) && n + 1 < |run| && Does(run[n], run[n + 1], act) && YearsRight(run[n].db)
    ensures !YearsRight(run[n + 1].db) <==> LateWrite(run[n], act)
  {
    InvAlways(run, n);
    StepBreaksYearsIff(run[n], run[n + 1], act);
  }

  // ---- an attachment did slip in ---------------------------------------------------------

  ghost predicate CommitsAttach(a: Sys, b: Sys, c: Class) {
    exists i :: Commits(a, b, i) && a.txs[i].op.Attach? && a.txs[i].op.c == c
  }

  lemma ChangeNeverAttaches(a: Sys, ch: Change, c: Class)
    requires Allowed(a, ch) && c in a.db.classes
    ensures c in ChangeDb(a.db, ch).classes && ChangeDb(a.db, ch).classes[c].section == a.db.classes[c].section
  {
  }

  lemma AttachedBy(a: Sys, b: Sys, act: Action, c: Class)
    requires Does(a, b, act) && c in a.db.classes && c in b.db.classes && b.db.classes[c].section.Some?
    ensures a.db.classes[c].section.Some? || CommitsAttach(a, b, c)
  {
    match act
    case Commit(i) =>
      if a.txs[i].op.Attach? && a.txs[i].op.c == c {
        assert CommitsAttach(a, b, c);
      }
    case Write(ch) => ChangeNeverAttaches(a, ch, c);
    case _ => assert b.db == a.db;
  }

  /** The open update i of class c has read the class, and saw it unattached. */
  predicate ReadDetached(a: Sys, i: Tid, c: Class) {
    && i in a.txs && a.txs[i].op.SetTerm? && a.txs[i].op.c == c && a.txs[i].pc != Find
    && a.txs[i].cls.section.None?
  }

  predicate IsAttached(db: Db, c: Class) {
    c in db.classes && db.classes[c].section.Some?
  }

  lemma ReadBefore(a: Sys, b: Sys, act: Action, i: Tid, c: Class)
    requires Does(a, b, act) && ReadDetached(b, i, c) && IsAttached(b.db, c)
    ensures ReadDetached(a, i, c)
  {
  }

  lemma SlipsIn(a: Sys, b: Sys, i: Tid, c: Class)
    requires Inv(a) && Step(a, b) && ReadDetached(b, i, c) && IsAttached(b.db, c)
    ensures ReadDetached(a, i, c) && (IsAttached(a.db, c) || CommitsAttach(a, b, c))
  {
    var act :| Does(a, b, act);
    ReadBefore(a, b, act, i, c);
    assert TxOk(a.db, a.txs[i]);
    AttachedBy(a, b, act, c);
  }

  lemma RunSlipsIn(run: seq<Sys>, n: nat, i: Tid, c: Class)
    requires IsRun(run) && n < |run| && ReadDetached(run[n], i, c) && IsAttached(run[n].db, c)
    ensures n > 0 && ReadDetached(run[n - 1], i, c)
    ensures IsAttached(run[n - 1].db, c) || CommitsAttach(run[n - 1], run[n], c)
  {
    assert n > 0;
    RunStep(run, n);
    SlipsIn(run[n - 1], run[n], i, c);
  }

  /** While the late write was pending, an attachment of its class committed. */
  lemma {:induction false} AttachedMeanwhile(run: seq<Sys>, n: nat, i: Tid, c: Class) returns (h: nat)
    requires IsRun(run) && n < |run| && ReadDetached(run[n], i, c) && IsAttached(run[n].db, c)
    ensures h < n && CommitsAttach(run[h], run[h + 1], c)
    ensures forall m :: h <= m <= n ==> ReadDetached(run[m], i, c)
  {
    RunSlipsIn(run, n, i, c);
    if CommitsAttach(run[n - 1], run[n], c) {
      h := n - 1;
    } else {
      h := AttachedMeanwhile(run, n - 1, i, c);
    }
  }

  // ---- with a locking read the rule would hold --------------------------------------------

  /** The guard, looked at again when the write has its lock. */
  predicate Rechecked(a: Sys, act: Action) {
    act.Commit? && act.i in a.txs && SetsTerm(a.db, a.txs[act.i]) ==>
      MayTake(a.db.classes[a.txs[act.i].op.c], a.txs[act.i].op.term)
  }

  ghost predicate StepsRechecked(a: Sys, b: Sys) {
    exists act :: Does(a, b, act) && Rechecked(a, act)
  }

  ghost predicate RecheckedAt(run: seq<Sys>, n: int) {
    0 < n < |run| && StepsRechecked(run[n - 1], run[n])
  }

  lemma RecheckedIsNotLate(a: Sys, act: Action)
    requires Inv(a) && YearsRight(a.db) && Rechecked(a, act)
    ensures !LateWrite(a, act)
  {
  }

  lemma RecheckedStepKeepsYears(a: Sys, b: Sys)
    requires Inv(a) && YearsRight(a.db) && StepsRechecked(a, b)
    ensures YearsRight(b.db)
  {
    var act :| Does(a, b, act) && Rechecked(a, act);
    RecheckedIsNotLate(a, act);
    StepBreaksYearsIff(a, b, act);
  }

  lemma {:induction false} RecheckKeepsYears(run: seq<Sys>, n: nat)
    requires IsRun(run) && n < |run| && forall h :: 0 < h <= n ==> RecheckedAt(run, h)
    ensures YearsRight(run[n].db)
  {
    if n > 0 {
      RecheckKeepsYears(run, n - 1);
      assert RecheckedAt(run, n);
      InvAlways(run, n - 1);
      RecheckedStepKeepsYears(run[n - 1], run[n]);
    }
  }
}
