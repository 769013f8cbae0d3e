/** Which step of a run changes which row, table by table, and that every row
    refers to rows that are there. */
module StepLaws {
  import opened School
  import opened Interleaving
  import opened Discipline
  import Requests
  import Timetable
  import RequestLaws
  import Solo

  // ---- the frame of a step ---------------------------------------------------------

  predicate CommitsOp(a: Sys, act: Action, op: Op) {
    act.Commit? && act.i in a.txs && a.txs[act.i].op == op
  }

  /** A slot goes only by its deletion and comes only by the commit of its creation. */
  lemma SlotsStep(a: Sys, b: Sys, act: Action, sl: Slot)
    requires Does(a, b, act)
    ensures sl in a.db.slots && sl !in b.db.slots <==> act == Write(DeleteSlot(sl))
    ensures sl !in a.db.slots && sl in b.db.slots <==>
      sl !in a.db.slots && CommitsOp(a, act, Book(sl.cls, sl.day, sl.period))
  {
    match act
    case Commit(i) =>
    case Write(ch) =>
      match ch {
        case DeleteSlot(_) =>
        case _ => assert b.db.slots == a.db.slots;
      }
    case _ => assert b.db == a.db;
  }

  /** A seat goes only by its unassignment, comes only by the commit of an assignment
      of that student in that year, and never passes to another section. */
  lemma RosterStep(a: Sys, b: Sys, act: Action, k: Seat)
    requires Does(a, b, act) && Inv(a)
    ensures k in a.db.roster && k !in b.db.roster <==> act == Write(Unassign(k))
    ensures k !in a.db.roster && k in b.db.roster ==>
      && CommitsOp(a, act, Assign(k.0, b.db.roster[k]))
      && b.db.roster[k] in a.db.sections && a.db.sections[b.db.roster[k]].year == k.1
    ensures k in a.db.roster && k in b.db.roster ==> b.db.roster[k] == a.db.roster[k]
  {
    match act
    case Commit(i) => assert TxOk(a.db, a.txs[i]);
    case Write(ch) =>
      match ch {
        case Unassign(_) =>
        case _ => assert b.db.roster == a.db.roster;
      }
    case _ => assert b.db == a.db;
  }

  /** An assignment that commits seats its student. */
  lemma AssignSeats(a: Sys, b: Sys, i: Tid)
    requires Commits(a, b, i) && Inv(a) && a.txs[i].op.Assign?
    ensures a.txs[i].op.s in a.db.sections
    ensures
      var seat := (a.txs[i].op.x, a.db.sections[a.txs[i].op.s].year);
      seat !in a.db.roster && seat in b.db.roster && b.db.roster[seat] == a.txs[i].op.s
  {
    assert TxOk(a.db, a.txs[i]);
  }

  /** An enrolment row never goes; it comes, ACTIVE, only with a commit that has
      inserted it, and changes only by being dropped. */
  lemma EnrolStep(a: Sys, b: Sys, act: Action, k: Key)
    requires Does(a, b, act) && Inv(a)
    ensures k in a.db.enrol ==> k in b.db.enrol
    ensures k !in a.db.enrol && k in b.db.enrol <==> act.Commit? && act.i in a.txs && k in a.txs[act.i].staged
    ensures k !in a.db.enrol && k in b.db.enrol ==> b.db.enrol[k] == Active
    ensures k in a.db.enrol && b.db.enrol[k] != a.db.enrol[k] <==> act == Write(Drop(k)) && a.db.enrol[k] != Dropped
    ensures k in a.db.enrol && b.db.enrol[k] != a.db.enrol[k] ==> b.db.enrol[k] == Dropped
  {
    match act
    case Commit(i) => assert TxOk(a.db, a.txs[i]);
    case Write(ch) =>
      match ch {
        case Drop(_) =>
        case _ => assert b.db.enrol == a.db.enrol;
      }
    case _ => assert b.db == a.db;
  }

  /** A class stays; its section changes only by attaching or detaching it, its term
      only by a term change, the rest only by an update of the class. */
  lemma ClassesStep(a: Sys, b: Sys, act: Action, c: Class)
    requires Does(a, b, act) && Inv(a) && c in a.db.classes
    ensures c in b.db.classes
    ensures
      var row, row' := a.db.classes[c], b.db.classes[c];
      && (row'.section != row.section ==> SectionSetBy(a, act, c, row'.section))
      && (row'.term != row.term ==> CommitsOp(a, act, SetTerm(c, row'.term)))
      && ((row'.teacher, row'.room, row'.capacity) != (row.teacher, row.room, row.capacity) ==>
            act == Write(UpdateClass(c, row'.teacher, row'.room, row'.capacity)))
  {
    match act
    case Commit(i) => CommitSetsClass(a, b, i, c);
    case Write(ch) => WriteSetsClass(a, ch, c);
    case _ => assert b.db == a.db;
  }

  lemma CommitSetsClass(a: Sys, b: Sys, i: Tid, c: Class)
    requires Commits(a, b, i) && TxOk(a.db, a.txs[i]) && c in a.db.classes
    ensures c in b.db.classes
    ensures
      var row, row' := a.db.classes[c], b.db.classes[c];
      && (row'.section != row.section ==> SectionSetBy(a, Commit(i), c, row'.section))
      && (row'.term != row.term ==> CommitsOp(a, Commit(i), SetTerm(c, row'.term)))
      && row' == row.(section := row'.section, term := row'.term)
  {
  }

  lemma WriteSetsClass(a: Sys, ch: Change, c: Class)
    requires Allowed(a, ch) && c in a.db.classes
    ensures c in ChangeDb(a.db, ch).classes
    ensures
      var row, row' := a.db.classes[c], ChangeDb(a.db, ch).classes[c];
      && row' == row.(teacher := row'.teacher, room := row'.room, capacity := row'.capacity)
      && (row' != row ==> ch == UpdateClass(c, row'.teacher, row'.room, row'.capacity))
  {
  }

  predicate SectionSetBy(a: Sys, act: Action, c: Class, section: Option<Section>) {
    && act.Commit? && act.i in a.txs
    && var t := a.txs[act.i];
    && (t.op.Attach? || t.op.Detach?) && t.op.c == c
    && section == (if t.op.Attach? then Some(t.op.s) else None)
  }

  /** The tables that only one-statement requests write. */
  lemma OthersStep(a: Sys, b: Sys, act: Action)
    requires Does(a, b, act)
    ensures b.db.students == a.db.students || (act.Write? && act.ch.AddStudent?)
    ensures b.db.sections == a.db.sections || (act.Write? && (act.ch.AddSection? || act.ch.SetSectionCapacity?))
    ensures b.db.terms == a.db.terms || (act.Write? && act.ch.AddTerm?)
    ensures b.db.periods == a.db.periods || (act.Write? && (act.ch.PutPeriod? || act.ch.DeletePeriod?))
    ensures a.db.students <= b.db.students && a.db.classes.Keys <= b.db.classes.Keys
  {
    match act
    case Commit(i) =>
    case Write(ch) => WriteOthers(a, ch);
    case _ => assert b.db == a.db;
  }

  lemma WriteOthers(a: Sys, ch: Change)
    requires Allowed(a, ch)
    ensures
      var db' := ChangeDb(a.db, ch);
      && (db'.students == a.db.students || ch.AddStudent?)
      && (db'.sections == a.db.sections || ch.AddSection? || ch.SetSectionCapacity?)
      && (db'.terms == a.db.terms || ch.AddTerm?)
      && (db'.periods == a.db.periods || ch.PutPeriod? || ch.DeletePeriod?)
      && a.db.students <= db'.students && a.db.classes.Keys <= db'.classes.Keys
  {
  }

  /** A period goes only by its deletion, and not from under a slot or an open slot
      creation; it is stored only as somebody put it. */
  lemma PeriodsStep(a: Sys, b: Sys, act: Action, p: Period)
    requires Does(a, b, act)
    ensures p in a.db.periods && p !in b.db.periods ==>
      act == Write(DeletePeriod(p)) && (forall sl :: sl in a.db.slots ==> sl.period != p)
      && forall i :: i in a.txs ==> PeriodLock(a.txs[i]) != Some(p)
    ensures p in b.db.periods && (p !in a.db.periods || b.db.periods[p] != a.db.periods[p]) ==>
      act == Write(PutPeriod(p, b.db.periods[p]))
  {
    OthersStep(a, b, act);
  }

  // ---- references -------------------------------------------------------------------

  /** The students a transaction is about to write exist. */
  ghost predicate TxReferenced(db: Db, t: Tx) {
    && ((t.op.Assign? || t.op.Enroll?) && t.pc != Find ==> t.op.x in db.students)
    && (forall k :: k in Pending(t) ==> k.0 in db.students)
  }

  ghost predicate AllReferenced(a: Sys) {
    RequestLaws.Referenced(a.db) && forall i :: i in a.txs ==> TxReferenced(a.db, a.txs[i])
  }

  lemma MoveKeepsReferences(db: Db, t: Tx, t': Tx)
    requires RequestLaws.Referenced(db) && TxOk(db, t) && TxReferenced(db, t) && Moves(db, t, t')
    ensures TxReferenced(db, t')
  {
    if t.pc == FanOut {
      FanKeepsKeys(db, t, t');
    }
  }

  lemma CommitKeepsReferences(db: Db, t: Tx)
    requires RequestLaws.Referenced(db) && TxOk(db, t) && TxReferenced(db, t) && t.pc == Committing
    ensures RequestLaws.Referenced(CommitDb(db, t))
  {
    assert forall k :: k in t.staged ==> k in Pending(t);
  }

  lemma ChangeKeepsReferences(a: Sys, ch: Change)
    requires RequestLaws.Referenced(a.db) && Allowed(a, ch)
    ensures RequestLaws.Referenced(ChangeDb(a.db, ch))
  {
  }

  lemma StepKeepsReferences(a: Sys, b: Sys, act: Action)
    requires Inv(a) && AllReferenced(a) && Does(a, b, act)
    ensures AllReferenced(b)
  {
    OthersStep(a, b, act);
    match act
    case Begin(i, op) => assert TxReferenced(a.db, Start(op));
    case Advance(i, next) =>
      assert TxOk(a.db, a.txs[i]);
      MoveKeepsReferences(a.db, a.txs[i], next);
    case Commit(i) =>
      assert TxOk(a.db, a.txs[i]);
      CommitKeepsReferences(a.db, a.txs[i]);
    case Abort(i) =>
    case Write(ch) => ChangeKeepsReferences(a, ch);
  }

  /** In every state of every interleaving, seats and enrolment rows are of students
      that exist, and enrolment rows of classes that do. */
  lemma {:induction false} AlwaysReferenced(run: seq<Sys>, n: nat)
    requires IsRun(run) && n < |run|
    ensures AllReferenced(run[n])
  {
    if n > 0 {
      AlwaysReferenced(run, n - 1);
      RunStep(run, n);
      StepsReferenced(run[n - 1], run[n]);
    }
  }

  lemma StepsReferenced(a: Sys, b: Sys)
    requires Inv(a) && AllReferenced(a) && Step(a, b)
    ensures AllReferenced(b)
  {
    var act :| Does(a, b, act);
    StepKeepsReferences(a, b, act);
  }

  // ---- the one-statement requests are the services' ---------------------------------------

  /** The store alone, with nothing open. */
  function Quiet(db: Db): Sys {
    Sys(db, map[], map[], map[], {})
  }

  /** The write that a request of one statement makes. */
  function WriteOf(db: Db, r: Requests.Request): Option<Change> {
    match r
    case AddStudent(x) => Some(AddStudent(x))
    case AddTerm(m, y) => Some(AddTerm(m, y))
    case AddSection(s, row) => Some(AddSection(s, row))
    case AddClass(c, row) => Some(AddClass(c, row.(section := None)))
    case CapacityR(s, n) => Some(SetSectionCapacity(s, n))
    case UnassignR(x, s) =>
      if s in db.sections then Some(Unassign((x, db.sections[s].year))) else None
    case DropR(_, k) => Some(Drop(k))
    case UpdateR(c, p) =>
      if c in db.classes && p.term.None? then
        var row := Requests.Patched(db.classes[c], p);
        Some(UpdateClass(c, row.teacher, row.room, row.capacity))
      else None
    case _ => None
  }

  /** In a sound store an accepted one-statement request is that write, with the
      result that the services give. */
  lemma WritesAreRequests(db: Db, r: Requests.Request)
    requires DbOk(db) && Requests.Serve(db, r).Ok? && RequestLaws.PositiveCapacities(db)
    requires !r.AssignR? && !r.AttachR? && !r.DetachR? && !r.EnrollR? && !(r.UpdateR? && r.patch.term.Some?)
    ensures WriteOf(db, r).Some? && Allowed(Quiet(db), WriteOf(db, r).value)
    ensures ChangeDb(db, WriteOf(db, r).value) == Requests.Serve(db, r).db
  {
    if r.UnassignR? {
      OneSeat(db, r.x, r.s);
    }
  }

  lemma OneSeat(db: Db, x: Student, s: Section)
    requires DbOk(db) && Requests.SeatsIn(db, x, s) != {}
    ensures s in db.sections && Requests.SeatsIn(db, x, s) == {(x, db.sections[s].year)}
  {
    var k :| k in Requests.SeatsIn(db, x, s);
  }

  /** Likewise for the timetable. */
  function TimetableWriteOf(db: Db, r: Timetable.Request): Option<Change> {
    match r
    case BookR(_) => None
    case UnbookR(sl) => Some(DeleteSlot(sl))
    case CreateR(p, row) => Some(PutPeriod(p, row))
    case UpdateR(p, name, start, end) =>
      if p in db.periods then Some(PutPeriod(p, Timetable.Retimed(db.periods[p], name, start, end))) else None
    case DeleteR(p) => Some(DeletePeriod(p))
  }

  lemma TimetableWritesAreRequests(db: Db, r: Timetable.Request)
    requires PeriodsDisjoint(db.periods)
    requires Timetable.IsRequest(db, r) && Timetable.Serve(db, r).Ok? && !r.BookR?
    ensures TimetableWriteOf(db, r).Some? && Allowed(Quiet(db), TimetableWriteOf(db, r).value)
    ensures ChangeDb(db, TimetableWriteOf(db, r).value) == Timetable.Serve(db, r).db
  {
  }
}
