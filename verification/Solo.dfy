/** A transaction that runs alone does what the request function says: the
    statement-by-statement machine refines the one-step services. */
module Solo {
  import opened School
  import opened Interleaving
  import UnitOfWork
  import Requests
  import Timetable

  const ADMIN := Caller(Admin, None, None)

  /** The store after the request, or None when the service refuses it. */
  function Served(db: Db, op: Op): Option<Db> {
    match op
    case Assign(x, s) => FromRequest(Requests.Assign(db, x, s))
    case Attach(s, c) => FromRequest(Requests.Attach(db, s, c))
    case Detach(s, c) => FromRequest(Requests.Detach(db, s, c))
    case Enroll(x, c) => FromRequest(Requests.Enroll(db, ADMIN, x, c))
    case Book(c, day, p) =>
      var r := Timetable.Book(db, Slot(c, day, p));
      if r.Ok? then Some(r.db) else None
    case SetTerm(c, term) => FromRequest(Requests.UpdateClass(db, c, Requests.Patch(Some(term), None, None, None)))
  }

  function FromRequest(r: Requests.Result): Option<Db> {
    if r.Ok? then Some(r.db) else None
  }

  /** Where a statement stands in its transaction. */
  function Order(pc: Pc): nat {
    match pc
    case Find => 0
    case WantSection => 1
    case CheckYear => 2
    case CountRoster => 3
    case InsertSeat => 4
    case ListClasses => 5
    case WantClass => 6
    case CheckClass | CheckDuplicate | WantPeriod => 7
    case ListRoster | CountActive | CheckSlot => 8
    case InsertEnrolment | ListRivals => 9
    case ReadRivals => 10
    case InsertSlot => 11
    case FanOut => 12
    case Committing => 13
  }

  /** The keys a fan-out starts from. */
  function Targets(db: Db, op: Op): set<Key> {
    match op
    case Assign(x, s) => Requests.ClassKeys(db, x, s)
    case Attach(s, c) => Requests.RosterKeys(db, s, c)
    case _ => {}
  }

  predicate FanSoFar(db: Db, t: Tx) {
    && t.todo <= Targets(db, t.op)
    && t.staged <= Targets(db, t.op) - db.enrol.Keys
    && Targets(db, t.op) - db.enrol.Keys <= t.todo + t.staged
    && (t.probe.Some? ==> t.probe.value in t.todo && t.probe.value !in db.enrol)
    && (t.pc == Committing ==> t.todo == {})
  }

  /** What the statements so far have established about the store. */
  predicate SoFar(db: Db, t: Tx) {
    match t.op
    case Assign(_, _) => AssignSoFar(db, t)
    case Attach(_, _) => AttachSoFar(db, t)
    case Detach(_, _) => DetachSoFar(db, t)
    case Enroll(_, _) => EnrollSoFar(db, t)
    case Book(_, _, _) => BookSoFar(db, t)
    case SetTerm(_, _) => TermSoFar(db, t)
  }

  predicate TermSoFar(db: Db, t: Tx) {
    && t.op.SetTerm?
    && t.pc in {Find, WantClass, Committing} && t.staged == {}
    && (Order(t.pc) > 0 ==>
          && t.op.c in db.classes && t.op.term in db.terms && t.cls == db.classes[t.op.c]
          && MayTake(db.classes[t.op.c], t.op.term))
  }

  predicate AssignSoFar(db: Db, t: Tx) {
    && t.op.Assign?
    && t.pc in {Find, WantSection, CheckYear, CountRoster, InsertSeat, ListClasses, FanOut, Committing}
    && (Order(t.pc) > 0 ==> t.op.x in db.students)
    && (Order(t.pc) > 1 ==> t.op.s in db.sections && t.section == db.sections[t.op.s])
    && (Order(t.pc) > 2 ==> (t.op.x, t.section.year) !in db.roster)
    && (Order(t.pc) > 3 ==> |RosterRows(db, t.op.s)| < t.section.capacity)
    && (if Order(t.pc) >= 12 then FanSoFar(db, t) else t.staged == {})
    && (t.pc != FanOut ==> t.probe == None)
  }

  predicate AttachSoFar(db: Db, t: Tx) {
    && t.op.Attach?
    && t.pc in {WantSection, WantClass, CheckClass, ListRoster, FanOut, Committing}
    && (Order(t.pc) > 1 ==> t.op.s in db.sections && t.section == db.sections[t.op.s])
    && (Order(t.pc) > 6 ==> t.op.c in db.classes && t.cls == db.classes[t.op.c])
    && (Order(t.pc) > 7 ==> Requests.Attach(db, t.op.s, t.op.c).Ok?)
    && (if Order(t.pc) >= 12 then FanSoFar(db, t) else t.staged == {})
    && (t.pc != FanOut ==> t.probe == None)
  }

  predicate DetachSoFar(db: Db, t: Tx) {
    && t.op.Detach?
    && t.pc in {Find, WantClass, CheckClass, Committing} && t.staged == {}
    && (Order(t.pc) > 0 ==> t.op.s in db.sections)
    && (Order(t.pc) > 6 ==> t.op.c in db.classes && t.cls == db.classes[t.op.c])
    && (Order(t.pc) > 7 ==> t.cls.section == Some(t.op.s))
  }

  predicate EnrollSoFar(db: Db, t: Tx) {
    && t.op.Enroll?
    && t.pc in {Find, WantClass, CheckDuplicate, CountActive, InsertEnrolment, Committing}
    && t.staged == (if t.pc == Committing then {(t.op.x, t.op.c)} else {})
    && (Order(t.pc) > 0 ==> t.op.x in db.students)
    && (Order(t.pc) > 6 ==> t.op.c in db.classes && t.cls == db.classes[t.op.c])
    && (Order(t.pc) > 7 ==> (t.op.x, t.op.c) !in db.enrol)
    && (Order(t.pc) > 8 ==> |ActiveRows(db, t.op.c)| < t.cls.capacity)
  }

  predicate BookSoFar(db: Db, t: Tx) {
    && t.op.Book?
    && t.pc in {WantClass, WantPeriod, CheckSlot, ListRivals, ReadRivals, InsertSlot, Committing} && t.staged == {}
    && (Order(t.pc) > 6 ==> t.op.c in db.classes && t.cls == db.classes[t.op.c])
    && (Order(t.pc) > 7 ==> t.op.p in db.periods)
    && (Order(t.pc) > 8 ==> SlotOf(t) !in db.slots)
    && (Order(t.pc) > 9 ==> forall o :: o in Rivals(db, SlotOf(t)) ==> o in t.rivals || ReadsRival(db, t, o))
    && (t.pc == ReadRivals ==> t.rivals <= Rivals(db, SlotOf(t)))
    && (Order(t.pc) > 10 ==> t.rivals == {})
  }

  lemma FanMove(db: Db, t: Tx, t': Tx)
    requires t.pc == FanOut && FanSoFar(db, t) && Moves(db, t, t')
    ensures FanSoFar(db, t') && (t'.pc == FanOut || (t'.pc == Committing && t'.probe == None))
    ensures t' == t.(pc := t'.pc, todo := t'.todo, staged := t'.staged, probe := t'.probe)
  {
  }

  lemma AssignMove(db: Db, t: Tx, t': Tx)
    requires AssignSoFar(db, t) && Moves(db, t, t')
    ensures AssignSoFar(db, t')
  {
    if t.pc == FanOut {
      FanMove(db, t, t');
    }
  }

  lemma AttachMove(db: Db, t: Tx, t': Tx)
    requires AttachSoFar(db, t) && Moves(db, t, t')
    ensures AttachSoFar(db, t')
  {
    if t.pc == FanOut {
      FanMove(db, t, t');
    }
  }

  lemma DetachMove(db: Db, t: Tx, t': Tx)
    requires DetachSoFar(db, t) && Moves(db, t, t')
    ensures DetachSoFar(db, t')
  {
  }

  lemma EnrollMove(db: Db, t: Tx, t': Tx)
    requires EnrollSoFar(db, t) && Moves(db, t, t')
    ensures EnrollSoFar(db, t')
  {
  }

  lemma BookMove(db: Db, t: Tx, t': Tx)
    requires BookSoFar(db, t) && Moves(db, t, t')
    ensures BookSoFar(db, t')
  {
  }

  lemma TermMove(db: Db, t: Tx, t': Tx)
    requires TermSoFar(db, t) && Moves(db, t, t')
    ensures TermSoFar(db, t')
  {
  }

  lemma MoveKeepsSoFar(db: Db, t: Tx, t': Tx)
    requires SoFar(db, t) && Moves(db, t, t') && t'.op == t.op
    ensures SoFar(db, t')
  {
    match t.op
    case Assign(_, _) => AssignMove(db, t, t');
    case Attach(_, _) => AttachMove(db, t, t');
    case Detach(_, _) => DetachMove(db, t, t');
    case Enroll(_, _) => EnrollMove(db, t, t');
    case Book(_, _, _) => BookMove(db, t, t');
    case SetTerm(_, _) => TermMove(db, t, t');
  }

  lemma MoveKeepsOp(db: Db, t: Tx, t': Tx)
    requires Moves(db, t, t')
    ensures t'.op == t.op
  {
  }

  lemma SeatCommit(db: Db, t: Tx, keys: set<Key>)
    requires t.op.Assign? && t.op.s in db.sections && t.section == db.sections[t.op.s]
    requires t.staged == keys - db.enrol.Keys
    ensures CommitDb(db, t) == Requests.EnrolMissing(Requests.Seated(db, t.op.x, t.op.s), keys)
  {
  }

  lemma AssignServed(db: Db, t: Tx)
    requires AssignSoFar(db, t) && t.pc == Committing
    ensures Requests.Assign(db, t.op.x, t.op.s) == UnitOfWork.Ok(CommitDb(db, t))
  {
    var keys := Requests.ClassKeys(db, t.op.x, t.op.s);
    assert t.staged == keys - db.enrol.Keys;
    SeatCommit(db, t, keys);
  }

  lemma AttachServed(db: Db, t: Tx)
    requires AttachSoFar(db, t) && t.pc == Committing
    ensures Requests.Attach(db, t.op.s, t.op.c) == UnitOfWork.Ok(CommitDb(db, t))
  {
    var keys := Requests.RosterKeys(db, t.op.s, t.op.c);
    assert t.staged == keys - db.enrol.Keys;
    assert CommitDb(db, t) == Requests.EnrolMissing(Requests.Linked(db, t.op.s, t.op.c), keys);
  }

  lemma TermServed(db: Db, t: Tx)
    requires TermSoFar(db, t) && t.pc == Committing
    ensures Served(db, t.op) == Some(CommitDb(db, t))
  {
    assert AddRows(db.enrol, {}) == db.enrol;
    assert CommitDb(db, t).classes == db.classes[t.op.c := db.classes[t.op.c].(term := t.op.term)];
  }

  lemma OthersServed(db: Db, t: Tx)
    requires SoFar(db, t) && t.pc == Committing && !t.op.Assign? && !t.op.Attach?
    ensures Served(db, t.op) == Some(CommitDb(db, t))
  {
    match t.op
    case Enroll(x, c) => assert AddRows(db.enrol, t.staged) == db.enrol[(x, c) := Active];
    case Detach(_, _) => assert AddRows(db.enrol, {}) == db.enrol;
    case Book(_, _, _) => assert AddRows(db.enrol, {}) == db.enrol;
    case SetTerm(_, _) => TermServed(db, t);
  }

  /** Reaching the commit means the service accepts, and the commit writes what
      the request function writes. */
  lemma CommitIsServed(db: Db, t: Tx)
    requires SoFar(db, t) && t.pc == Committing
    ensures Served(db, t.op) == Some(CommitDb(db, t))
  {
    match t.op
    case Assign(_, _) => AssignServed(db, t);
    case Attach(_, _) => AttachServed(db, t);
    case _ => OthersServed(db, t);
  }

  /** The statements of one transaction running alone. */
  ghost predicate IsSolo(db: Db, path: seq<Tx>) {
    && path != []
    && path[0] == Start(path[0].op)
    && forall n :: 0 < n < |path| ==> Moves(db, path[n - 1], path[n])
  }

  lemma {:induction false} SoloSoFar(db: Db, path: seq<Tx>, n: nat)
    requires IsSolo(db, path) && n < |path|
    ensures SoFar(db, path[n]) && path[n].op == path[0].op
  {
    if n > 0 {
      SoloSoFar(db, path, n - 1);
      MoveKeepsOp(db, path[n - 1], path[n]);
      MoveKeepsSoFar(db, path[n - 1], path[n]);
    }
  }

  lemma SoloAgrees(db: Db, path: seq<Tx>)
    requires IsSolo(db, path) && path[|path| - 1].pc == Committing
    ensures Served(db, path[0].op) == Some(CommitDb(db, path[|path| - 1]))
  {
    SoloSoFar(db, path, |path| - 1);
    CommitIsServed(db, path[|path| - 1]);
  }

  // ---- and a request that the service accepts does reach its commit -----------------

  function Left(t: Tx): nat {
    2 * |t.todo| + (if t.probe.None? then 1 else 0) + |t.rivals|
  }

  lemma NextFan(db: Db, t: Tx) returns (t': Tx)
    requires SoFar(db, t) && t.pc == FanOut
    ensures Moves(db, t, t')
    ensures t'.pc == Committing || (t'.pc == FanOut && Left(t') < Left(t))
  {
    if t.probe.Some? {
      t' := t.(todo := t.todo - {t.probe.value}, staged := t.staged + {t.probe.value}, probe := None);
    } else if t.todo == {} {
      t' := t.(pc := Committing);
    } else {
      var k :| k in t.todo;
      t' := Visit(db, t, k);
    }
  }

  lemma NextRival(db: Db, t: Tx) returns (t': Tx)
    requires SoFar(db, t) && t.pc == ReadRivals && Served(db, t.op).Some?
    ensures Moves(db, t, t')
    ensures t'.pc == InsertSlot || (t'.pc == ReadRivals && Left(t') < Left(t))
  {
    if t.rivals == {} {
      t' := t.(pc := InsertSlot);
    } else {
      var o :| o in t.rivals;
      assert o in Rivals(db, SlotOf(t));
      assert ReadsRival(db, t, o);
      t' := ReadRival(db, t, o);
    }
  }

  lemma NextAssign(db: Db, t: Tx) returns (t': Tx)
    requires AssignSoFar(db, t) && Served(db, t.op).Some? && t.pc != FanOut && t.pc != Committing
    ensures Moves(db, t, t') && Order(t'.pc) > Order(t.pc)
  {
    match t.pc
    case Find => t' := t.(pc := WantSection);
    case WantSection => t' := t.(pc := CheckYear, section := db.sections[t.op.s]);
    case CheckYear => t' := t.(pc := CountRoster);
    case CountRoster => t' := t.(pc := InsertSeat);
    case InsertSeat => t' := t.(pc := ListClasses);
    case ListClasses => t' := t.(pc := FanOut, todo := set c | c in AttachedTo(db, t.op.s) :: (t.op.x, c));
  }

  lemma NextAttach(db: Db, t: Tx) returns (t': Tx)
    requires AttachSoFar(db, t) && Served(db, t.op).Some? && t.pc != FanOut && t.pc != Committing
    ensures Moves(db, t, t') && Order(t'.pc) > Order(t.pc)
  {
    match t.pc
    case WantSection => t' := t.(pc := WantClass, section := db.sections[t.op.s]);
    case WantClass => t' := t.(pc := CheckClass, cls := db.classes[t.op.c]);
    case CheckClass => t' := t.(pc := ListRoster);
    case ListRoster => t' := t.(pc := FanOut, todo := set k | k in RosterRows(db, t.op.s) :: (k.0, t.op.c));
  }

  lemma NextBook(db: Db, t: Tx) returns (t': Tx)
    requires BookSoFar(db, t) && Served(db, t.op).Some? && t.pc != ReadRivals && t.pc != Committing
    ensures Moves(db, t, t') && Order(t'.pc) > Order(t.pc)
  {
    match t.pc
    case WantClass => t' := t.(cls := db.classes[t.op.c], pc := WantPeriod);
    case WantPeriod => t' := t.(pc := CheckSlot);
    case CheckSlot => t' := t.(pc := ListRivals);
    case ListRivals => t' := t.(pc := ReadRivals, rivals := Rivals(db, SlotOf(t)));
    case InsertSlot => t' := t.(pc := Committing);
  }

  lemma NextOther(db: Db, t: Tx) returns (t': Tx)
    requires DetachSoFar(db, t) || EnrollSoFar(db, t) || TermSoFar(db, t)
    requires Served(db, t.op).Some? && t.pc != Committing
    ensures Moves(db, t, t') && Order(t'.pc) > Order(t.pc)
  {
    match t.pc
    case Find =>
      t' := if t.op.SetTerm? then t.(pc := WantClass, cls := db.classes[t.op.c]) else t.(pc := WantClass);
    case WantClass =>
      t' := if t.op.SetTerm? then t.(pc := Committing)
            else t.(cls := db.classes[t.op.c], pc := if t.op.Enroll? then CheckDuplicate else CheckClass);
    case CheckClass => t' := t.(pc := Committing);
    case CheckDuplicate => t' := t.(pc := CountActive);
    case CountActive => t' := t.(pc := InsertEnrolment);
    case InsertEnrolment => t' := t.(pc := Committing, staged := {(t.op.x, t.op.c)});
  }

  /** One more statement, and less to go. */
  lemma Next(db: Db, t: Tx) returns (t': Tx)
    requires SoFar(db, t) && Served(db, t.op).Some? && t.pc != Committing
    ensures Moves(db, t, t')
    ensures Order(t'.pc) > Order(t.pc) || (t'.pc == t.pc && Left(t') < Left(t))
  {
    if t.pc == FanOut {
      t' := NextFan(db, t);
    } else if t.pc == ReadRivals {
      t' := NextRival(db, t);
    } else if t.op.Assign? {
      t' := NextAssign(db, t);
    } else if t.op.Attach? {
      t' := NextAttach(db, t);
    } else if t.op.Book? {
      t' := NextBook(db, t);
    } else {
      t' := NextOther(db, t);
    }
  }

  lemma {:induction false} Finish(db: Db, t: Tx) returns (rest: seq<Tx>)
    requires SoFar(db, t) && Served(db, t.op).Some?
    ensures rest != [] && rest[0] == t && rest[|rest| - 1].pc == Committing
    ensures forall n :: 0 < n < |rest| ==> Moves(db, rest[n - 1], rest[n])
    decreases 13 - Order(t.pc), Left(t)
  {
    if t.pc == Committing {
      return [t];
    }
    var t' := Next(db, t);
    MoveKeepsOp(db, t, t');
    MoveKeepsSoFar(db, t, t');
    var tail := Finish(db, t');
    rest := [t] + tail;
  }

  /** The service accepts the request exactly when the transaction, running alone,
      can reach its commit. */
  lemma SoloCompletesIff(db: Db, op: Op)
    ensures Served(db, op).Some? <==>
      exists path: seq<Tx> :: IsSolo(db, path) && path[0].op == op && path[|path| - 1].pc == Committing
  {
    if Served(db, op).Some? {
      var path := Finish(db, Start(op));
      assert IsSolo(db, path);
    }
    if path: seq<Tx> :| IsSolo(db, path) && path[0].op == op && path[|path| - 1].pc == Committing {
      SoloAgrees(db, path);
    }
  }
}
