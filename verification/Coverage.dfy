/** Assignment and attachment compose: whoever is on a section's roster has an
    enrolment row in every class attached to the section, in every committed
    state of every interleaving. */
module Coverage {
  import opened School
  import opened Interleaving
  import opened Discipline

  ghost predicate Covered(db: Db) {
    forall k, c :: k in db.roster && c in db.classes && db.classes[c].section == Some(db.roster[k]) ==>
      (k.0, c) in db.enrol
  }

  /** What a fan-out has neither inserted nor found is still on its list. */
  ghost predicate FanOk(db: Db, t: Tx) {
    t.pc == FanOut || t.pc == Committing ==>
      && (t.op.Assign? ==>
            forall c :: c in db.classes && db.classes[c].section == Some(t.op.s) ==>
              (t.op.x, c) in Pending(t) || (t.op.x, c) in db.enrol)
      && (t.op.Attach? ==>
            forall k :: k in db.roster && db.roster[k] == t.op.s ==>
              (k.0, t.op.c) in Pending(t) || (k.0, t.op.c) in db.enrol)
  }

  ghost predicate Inv(a: Sys) {
    && Discipline.Inv(a)
    && Covered(a.db)
    && forall i :: i in a.txs ==> FanOk(a.db, a.txs[i])
  }

  /** The fan-out loop probes what it has still to do, and ends with nothing to do. */
  predicate Looping(t: Tx) {
    && (t.pc == Committing ==> t.todo == {})
    && (t.probe.Some? ==> t.pc == FanOut && t.probe.value in t.todo)
    && (t.pc != FanOut ==> t.todo == {})
  }

  lemma MoveKeepsLooping(db: Db, t: Tx, t': Tx)
    requires Looping(t) && Moves(db, t, t')
    ensures Looping(t')
  {
  }

  lemma MoveKeepsFan(db: Db, t: Tx, t': Tx)
    requires RightPc(t) && Looping(t) && FanOk(db, t) && Moves(db, t, t')
    ensures FanOk(db, t')
  {
    match t.pc
    case ListClasses =>
      forall c | c in db.classes && db.classes[c].section == Some(t.op.s)
        ensures (t.op.x, c) in t'.todo
      {
        assert c in AttachedTo(db, t.op.s);
      }
    case ListRoster =>
      forall k | k in db.roster && db.roster[k] == t.op.s
        ensures (k.0, t.op.c) in t'.todo
      {
        assert k in RosterRows(db, t.op.s);
      }
    case FanOut =>
      assert forall k :: k in Pending(t) ==> k in Pending(t') || k in db.enrol;
    case _ =>
  }

  lemma StableKeepsFan(db: Db, db': Db, t: Tx)
    requires RightPc(t) && FanOk(db, t) && forall k :: k in db.enrol ==> k in db'.enrol
    requires SectionLock(t).Some? ==> ListsShrink(db, db', t.op.s)
    ensures FanOk(db', t)
  {
  }

  lemma SeatCovers(db: Db, x: Student, y: Year, s: Section, staged: set<Key>)
    requires Covered(db)
    requires forall c :: c in db.classes && db.classes[c].section == Some(s) ==> (x, c) in staged || (x, c) in db.enrol
    ensures Covered(db.(roster := db.roster[(x, y) := s], enrol := AddRows(db.enrol, staged)))
  {
  }

  lemma AttachmentCovers(db: Db, s: Section, c: Class, staged: set<Key>)
    requires Covered(db) && c in db.classes
    requires forall k :: k in db.roster && db.roster[k] == s ==> (k.0, c) in staged || (k.0, c) in db.enrol
    ensures Covered(db.(classes := db.classes[c := db.classes[c].(section := Some(s))],
                        enrol := AddRows(db.enrol, staged)))
  {
  }

  lemma OtherCovers(db: Db, t: Tx)
    requires Covered(db) && !t.op.Assign? && !t.op.Attach?
    ensures Covered(CommitDb(db, t))
  {
  }

  lemma CommitCovers(db: Db, t: Tx)
    requires RowsOk(db, t) && t.todo == {} && FanOk(db, t) && t.pc == Committing && Covered(db)
    ensures Covered(CommitDb(db, t))
  {
    match t.op
    case Assign(x, s) => SeatCovers(db, x, t.section.year, s, t.staged);
    case Attach(s, c) => AttachmentCovers(db, s, c, t.staged);
    case _ => OtherCovers(db, t);
  }

  lemma ChangeCovers(a: Sys, ch: Change)
    requires Covered(a.db) && Allowed(a, ch)
    ensures Covered(ChangeDb(a.db, ch))
  {
  }

  lemma StepKeepsInv(a: Sys, b: Sys, act: Action)
    requires Inv(a) && Does(a, b, act)
    ensures Inv(b)
  {
    Discipline.StepKeepsInv(a, b, act);
    match act
    case Begin(i, op) =>
      assert FanOk(a.db, Start(op));
    case Advance(i, next) =>
      assert TxOk(a.db, a.txs[i]);
      MoveKeepsFan(a.db, a.txs[i], next);
    case Commit(i) =>
      CommitCovers(a.db, a.txs[i]);
      forall j | j in b.txs ensures FanOk(b.db, b.txs[j]) {
        CommitStable(a.db, a.txs[i], a.txs[j]);
        StableKeepsFan(a.db, b.db, a.txs[j]);
      }
    case Abort(i) =>
    case Write(ch) =>
      ChangeCovers(a, ch);
      forall j | j in b.txs ensures FanOk(b.db, b.txs[j]) {
        ChangeStable(a, ch, j);
        StableKeepsFan(a.db, b.db, a.txs[j]);
      }
  }

  lemma {:induction false} InvAlways(run: seq<Sys>, i: nat)
    requires IsRun(run) && i < |run|
    ensures Inv(run[i])
  {
    if i > 0 {
      InvAlways(run, i - 1);
      assert StepAt(run, i);
      var act :| Does(run[i - 1], run[i], act);
      StepKeepsInv(run[i - 1], run[i], act);
    }
  }

  /** Every interleaving, every committed state. */
  lemma RosterIsEnrolled(run: seq<Sys>, i: nat, x: Student, s: Section, c: Class)
    requires IsRun(run) && i < |run|
    requires OnRoster(run[i].db, x, s) && c in AttachedTo(run[i].db, s)
    ensures (x, c) in run[i].db.enrol
  {
    InvAlways(run, i);
    var k :| k in run[i].db.roster && run[i].db.roster[k] == s && k.0 == x;
    assert Covered(run[i].db);
  }

  // ---- rows are kept and never revived -----------------------------------

  lemma StagedIsNew(a: Sys, k: Key)
    requires Discipline.Inv(a) && k in a.db.enrol
    ensures forall i :: i in a.txs ==> k !in a.txs[i].staged
  {
    forall i | i in a.txs ensures k !in a.txs[i].staged {
      assert KeysOk(a.db, a.txs[i]);
    }
  }

  lemma CommitKeepsRow(db: Db, t: Tx, k: Key)
    requires k in db.enrol && k !in t.staged
    ensures k in CommitDb(db, t).enrol && CommitDb(db, t).enrol[k] == db.enrol[k]
  {
  }

  lemma ChangeKeepsRow(db: Db, ch: Change, k: Key)
    requires k in db.enrol
    ensures k in ChangeDb(db, ch).enrol && (db.enrol[k] != Active ==> ChangeDb(db, ch).enrol[k] != Active)
  {
  }

  lemma StepKeepsRow(a: Sys, b: Sys, act: Action, k: Key)
    requires forall i :: i in a.txs ==> k !in a.txs[i].staged
    requires Does(a, b, act) && k in a.db.enrol
    ensures k in b.db.enrol && (a.db.enrol[k] != Active ==> b.db.enrol[k] != Active)
  {
    match act
    case Commit(i) => CommitKeepsRow(a.db, a.txs[i], k);
    case Write(ch) => ChangeKeepsRow(a.db, ch, k);
    case _ =>
  }

  /** Once a row exists it stays, and once it is not ACTIVE no later fan-out or
      enrolment makes it ACTIVE again. */
  lemma {:induction false} DroppedStaysDropped(run: seq<Sys>, i: nat, j: nat, k: Key)
    requires IsRun(run) && i <= j < |run| && k in run[i].db.enrol
    ensures k in run[j].db.enrol && (run[i].db.enrol[k] != Active ==> run[j].db.enrol[k] != Active)
  {
    if i < j {
      DroppedStaysDropped(run, i, j - 1, k);
      Discipline.InvAlways(run, j - 1);
      StagedIsNew(run[j - 1], k);
      assert StepAt(run, j);
      var act :| Does(run[j - 1], run[j], act);
      StepKeepsRow(run[j - 1], run[j], act, k);
    }
  }
}
