/** What the locks and the unique keys give every open transaction: its locked
    rows do not move and its staged keys are its own. */
module Discipline {
  import opened School
  import opened Interleaving

  /** References lead somewhere, and copied years agree with the section. */
  ghost predicate DbOk(db: Db) {
    && (forall k :: k in db.roster ==> db.roster[k] in db.sections && db.sections[db.roster[k]].year == k.1)
    && (forall c :: c in db.classes ==> db.classes[c].term in db.terms)
    && (forall c :: c in db.classes && db.classes[c].section.Some? ==> db.classes[c].section.value in db.sections)
  }

  predicate RightPc(t: Tx) {
    match t.pc
    case Find => t.op.Assign? || t.op.Detach? || t.op.Enroll? || t.op.SetTerm?
    case WantSection | FanOut => t.op.Assign? || t.op.Attach?
    case CheckYear | CountRoster | InsertSeat | ListClasses => t.op.Assign?
    case WantClass => !t.op.Assign?
    case CheckClass => t.op.Attach? || t.op.Detach?
    case ListRoster => t.op.Attach?
    case CheckDuplicate | CountActive | InsertEnrolment => t.op.Enroll?
    case WantPeriod | CheckSlot | ListRivals | ReadRivals | InsertSlot => t.op.Book?
    case Committing => true
  }

  /** The keys a fan-out has inserted or may still insert. */
  function Pending(t: Tx): set<Key> {
    t.todo + t.staged
  }

  ghost predicate KeysOk(db: Db, t: Tx) {
    && (t.pc != FanOut && t.pc != Committing ==> Pending(t) == {})
    && (t.pc == Committing ==> t.todo == {})
    && (t.probe.Some? ==> t.pc == FanOut && t.probe.value in t.todo)
    && t.todo !! t.staged
    && t.staged !! db.enrol.Keys
    && match t.op
       case Assign(x, _) => forall k :: k in Pending(t) ==> k.0 == x && k.1 in db.classes
       case Attach(_, c) => forall k :: k in Pending(t) ==> k.1 == c
       case Enroll(x, c) => t.staged == if t.pc == Committing then {(x, c)} else {}
       case _ => t.staged == {}
  }

  ghost predicate RowsOk(db: Db, t: Tx) {
    && (SectionLock(t).Some? ==> t.op.s in db.sections && t.section.year == db.sections[t.op.s].year)
    && (ClassLock(t).Some? ==> t.op.c in db.classes && (!t.op.SetTerm? ==> t.cls == db.classes[t.op.c]))
    && (PeriodLock(t).Some? ==> t.op.p in db.periods)
    && (StagedSeat(t).Some? ==> StagedSeat(t).value !in db.roster)
    && (t.op.Attach? && (t.pc == ListRoster || t.pc == FanOut || t.pc == Committing) ==>
          && (t.cls.section == None || t.cls.section == Some(t.op.s))
          && InYear(db, t.op.c, t.section.year))
    && (t.op.Detach? && t.pc == Committing ==> t.cls.section == Some(t.op.s))
    && (t.op.SetTerm? && t.pc != Find ==>
          t.op.c in db.classes && t.op.term in db.terms && MayTake(t.cls, t.op.term))
  }

  ghost predicate TxOk(db: Db, t: Tx) {
    RightPc(t) && RowsOk(db, t) && KeysOk(db, t)
  }

  predicate Distinct<T(==)>(a: Option<T>, b: Option<T>) {
    a.Some? ==> a != b
  }

  predicate LocksApart(t: Tx, u: Tx) {
    && Distinct(SectionLock(t), SectionLock(u))
    && Distinct(ClassLock(t), ClassLock(u))
    && Distinct(PeriodLock(t), PeriodLock(u))
    && Distinct(StagedSeat(t), StagedSeat(u))
  }

  /** No lock is held twice, and no key inserted twice. */
  predicate PairOk(t: Tx, u: Tx) {
    LocksApart(t, u) && t.staged !! u.staged
  }

  ghost predicate Inv(a: Sys) {
    && DbOk(a.db)
    && (forall i :: i in a.txs ==> TxOk(a.db, a.txs[i]))
    && (forall i, j :: i in a.txs && j in a.txs && i != j ==> PairOk(a.txs[i], a.txs[j]))
  }

  /** A locked section gains neither a student nor a class. */
  ghost predicate ListsShrink(db: Db, db': Db, s: Section) {
    && (forall k :: k in db'.roster && db'.roster[k] == s ==> k in db.roster && db.roster[k] == s)
    && (forall c :: c in db'.classes && db'.classes[c].section == Some(s) ==>
          c in db.classes && db.classes[c].section == Some(s))
  }

  /** What another transaction may do to the store while t is open. */
  ghost predicate Stable(db: Db, db': Db, t: Tx) {
    && (forall m :: m in db.terms ==> m in db'.terms && db'.terms[m] == db.terms[m])
    && (forall s :: s in db.sections ==> s in db'.sections && db'.sections[s].year == db.sections[s].year)
    && (forall c :: c in db.classes ==> c in db'.classes)
    && (forall k :: k in db.enrol ==> k in db'.enrol)
    && (forall k :: k in t.staged && k in db'.enrol ==> k in db.enrol)
    && (StagedSeat(t).Some? && StagedSeat(t).value in db'.roster ==> StagedSeat(t).value in db.roster)
    && (SectionLock(t).Some? ==> ListsShrink(db, db', t.op.s))
    && (ClassLock(t).Some? && t.op.c in db.classes ==> db'.classes[t.op.c] == db.classes[t.op.c])
    && (PeriodLock(t).Some? && t.op.p in db.periods ==>
          && t.op.p in db'.periods
          && forall sl :: sl in db'.slots && sl.period == t.op.p ==> sl in db.slots)
  }

  // ---- how transactions see each other ------------------------------------

  lemma CommitShrinksLists(db: Db, u: Tx, s: Section)
    requires u.pc == Committing && SectionLock(u) != Some(s)
    ensures ListsShrink(db, CommitDb(db, u), s)
  {
  }

  lemma CommitStable(db: Db, u: Tx, t: Tx)
    requires TxOk(db, u) && TxOk(db, t) && PairOk(t, u) && u.pc == Committing
    ensures Stable(db, CommitDb(db, u), t)
  {
    if SectionLock(t).Some? {
      CommitShrinksLists(db, u, t.op.s);
    }
    assert CommitDb(db, u).enrol.Keys == db.enrol.Keys + u.staged;
  }

  lemma ChangeStable(a: Sys, ch: Change, i: Tid)
    requires Allowed(a, ch) && i in a.txs && TxOk(a.db, a.txs[i])
    ensures Stable(a.db, ChangeDb(a.db, ch), a.txs[i])
  {
    match ch
    case AddStudent(_) =>
    case AddTerm(_, _) =>
    case AddSection(_, _) =>
    case AddClass(_, _) =>
    case SetSectionCapacity(_, _) =>
    case UpdateClass(_, _, _, _) =>
    case Unassign(_) =>
    case Drop(_) =>
    case DeleteSlot(_) =>
    case PutPeriod(_, _) =>
    case DeletePeriod(_) =>
  }

  lemma StableKeepsTx(db: Db, db': Db, t: Tx)
    requires TxOk(db, t) && Stable(db, db', t)
    ensures TxOk(db', t)
  {
  }

  lemma CommitKeepsDb(db: Db, t: Tx)
    requires DbOk(db) && TxOk(db, t) && t.pc == Committing
    ensures DbOk(CommitDb(db, t))
  {
  }

  lemma ChangeKeepsDb(a: Sys, ch: Change)
    requires DbOk(a.db) && Allowed(a, ch)
    ensures DbOk(ChangeDb(a.db, ch))
  {
  }

  lemma MoveKeepsPc(db: Db, t: Tx, t': Tx)
    requires RightPc(t) && Moves(db, t, t')
    ensures RightPc(t') && t'.op == t.op
  {
  }

  lemma MoveKeepsRows(db: Db, t: Tx, t': Tx)
    requires RightPc(t) && RowsOk(db, t) && Moves(db, t, t')
    ensures RowsOk(db, t')
  {
    MoveKeepsPc(db, t, t');
  }

  lemma FanKeepsKeys(db: Db, t: Tx, t': Tx)
    requires t.pc == FanOut && RightPc(t) && KeysOk(db, t) && Moves(db, t, t')
    ensures KeysOk(db, t') && Pending(t') <= Pending(t)
  {
  }

  lemma MoveKeepsKeys(db: Db, t: Tx, t': Tx)
    requires DbOk(db) && TxOk(db, t) && Moves(db, t, t')
    ensures KeysOk(db, t')
  {
    if t.pc == FanOut {
      FanKeepsKeys(db, t, t');
    }
  }

  lemma MoveKeepsLocks(db: Db, t: Tx, t': Tx, u: Tx)
    requires RightPc(t) && LocksApart(t, u) && Moves(db, t, t') && !Waits(t, u)
    ensures LocksApart(t', u) && LocksApart(u, t')
  {
  }

  /** What t inserts without waiting, u has not inserted. */
  lemma MoveKeepsKeysApart(db: Db, t: Tx, t': Tx, u: Tx)
    requires RightPc(t) && t.staged !! u.staged && Moves(db, t, t') && !Waits(t, u)
    ensures t'.staged !! u.staged
  {
  }

  // ---- the invariant ---------------------------------------------------------

  lemma BeginKeepsInv(a: Sys, b: Sys, i: Tid, op: Op)
    requires Inv(a) && Begins(a, b, i, op)
    ensures Inv(b)
  {
    assert TxOk(a.db, Start(op));
    forall j | j in a.txs ensures PairOk(a.txs[j], Start(op)) && PairOk(Start(op), a.txs[j]) {}
  }

  lemma AbortKeepsInv(a: Sys, b: Sys, i: Tid)
    requires Inv(a) && Aborts(a, b, i)
    ensures Inv(b)
  {
  }

  lemma AdvanceKeepsInv(a: Sys, b: Sys, i: Tid, t': Tx)
    requires Inv(a) && Advances(a, b, i, t')
    ensures Inv(b)
  {
    MoveKeepsPc(a.db, a.txs[i], t');
    MoveKeepsRows(a.db, a.txs[i], t');
    MoveKeepsKeys(a.db, a.txs[i], t');
    forall j | j in a.txs && j != i ensures PairOk(t', a.txs[j]) && PairOk(a.txs[j], t') {
      MoveKeepsLocks(a.db, a.txs[i], t', a.txs[j]);
      MoveKeepsKeysApart(a.db, a.txs[i], t', a.txs[j]);
    }
  }

  lemma CommitKeepsInv(a: Sys, b: Sys, i: Tid)
    requires Inv(a) && Commits(a, b, i)
    ensures Inv(b)
  {
    CommitKeepsDb(a.db, a.txs[i]);
    forall j | j in b.txs ensures TxOk(b.db, b.txs[j]) {
      CommitStable(a.db, a.txs[i], a.txs[j]);
      StableKeepsTx(a.db, b.db, a.txs[j]);
    }
  }

  lemma ChangeKeepsInv(a: Sys, b: Sys, ch: Change)
    requires Inv(a) && Writes(a, b, ch)
    ensures Inv(b)
  {
    ChangeKeepsDb(a, ch);
    forall j | j in b.txs ensures TxOk(b.db, b.txs[j]) {
      ChangeStable(a, ch, j);
      StableKeepsTx(a.db, b.db, a.txs[j]);
    }
  }

  lemma StepKeepsInv(a: Sys, b: Sys, act: Action)
    requires Inv(a) && Does(a, b, act)
    ensures Inv(b)
  {
    match act
    case Begin(i, op) => BeginKeepsInv(a, b, i, op);
    case Advance(i, next) => AdvanceKeepsInv(a, b, i, next);
    case Commit(i) => CommitKeepsInv(a, b, i);
    case Abort(i) => AbortKeepsInv(a, b, i);
    case Write(ch) => ChangeKeepsInv(a, b, ch);
  }

  lemma {:induction false} InvAlways(run: seq<Sys>, i: nat)
    requires IsRun(run) && i < |run|
    ensures Inv(run[i])
  {
    if i > 0 {
      InvAlways(run, i - 1);
      assert StepAt(run, i);
      var act :| Does(run[i - 1], run[i], act);
      StepKeepsInv(run[i - 1], run[i], act);
    }
  }

  lemma RunStep(run: seq<Sys>, n: nat)
    requires IsRun(run) && 0 < n < |run|
    ensures Inv(run[n - 1]) && Step(run[n - 1], run[n])
  {
    InvAlways(run, n - 1);
    assert StepAt(run, n);
  }
}
