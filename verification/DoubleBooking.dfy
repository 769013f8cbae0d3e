/** The timetable under interleaving, and on the clock.

    A slot creation locks its own class and the period, never the rows of the
    classes it competes with.  So the rule can be broken by editing a class that is
    on the timetable, and also by editing one that an open creation has already
    read. */
module DoubleBooking {
  import opened School
  import opened Interleaving
  import opened Discipline

  /** The rows a slot refers to exist (RESTRICT), and the bell schedule is sound. */
  ghost predicate SlotsOk(db: Db) {
    && (forall sl :: sl in db.slots ==> sl.cls in db.classes && sl.period in db.periods)
    && PeriodsDisjoint(db.periods)
  }

  /** Different classes timetabled at the same (day, period). */
  predicate Competing(sl: Slot, other: Slot) {
    sl.day == other.day && sl.period == other.period && sl.cls != other.cls
  }

  /** Competing classes share no teacher, no named room and no section. */
  ghost predicate NoDoubleBooking(db: Db) {
    forall sl, other ::
      (sl in db.slots && other in db.slots && Competing(sl, other) && sl.cls in db.classes && other.cls in db.classes)
      ==> !Clash(db.classes[sl.cls], db.classes[other.cls])
  }

  // ---- in every run ----------------------------------------------------------

  predicate PastListing(t: Tx) {
    t.op.Book? && (t.pc == ReadRivals || t.pc == InsertSlot || t.pc == Committing)
  }

  /** A slot creation has read, or will read, every class it competes with, and
      none of the rows it read clashes. */
  ghost predicate HasRead(db: Db, t: Tx) {
    if PastListing(t) then
      && (t.pc != ReadRivals ==> t.rivals == {})
      && (forall sl :: sl in db.slots && Competing(SlotOf(t), sl) ==> sl.cls in t.rivals || sl.cls in t.seen)
      && (forall o :: o in t.seen ==> !Clash(t.cls, t.seen[o]))
    else t.seen == map[]
  }

  lemma MoveKeepsRead(db: Db, t: Tx, t': Tx)
    requires RightPc(t) && HasRead(db, t) && Moves(db, t, t')
    ensures HasRead(db, t')
  {
    if t.pc == ListRivals {
      forall sl | sl in db.slots && Competing(SlotOf(t), sl) ensures sl.cls in t'.rivals {}
    }
  }

  lemma StableKeepsRead(db: Db, db': Db, t: Tx)
    requires TxOk(db, t) && Stable(db, db', t) && HasRead(db, t)
    ensures HasRead(db', t)
  {
  }

  lemma CommitKeepsSlots(db: Db, t: Tx)
    requires SlotsOk(db) && TxOk(db, t) && t.pc == Committing
    ensures SlotsOk(CommitDb(db, t))
  {
  }

  lemma ChangeKeepsSlots(a: Sys, ch: Change)
    requires SlotsOk(a.db) && Allowed(a, ch)
    ensures SlotsOk(ChangeDb(a.db, ch)) && ChangeDb(a.db, ch).slots <= a.db.slots
  {
  }

  ghost predicate AllRead(a: Sys) {
    SlotsOk(a.db) && forall i :: i in a.txs ==> HasRead(a.db, a.txs[i])
  }

  lemma CommitKeepsRead(a: Sys, b: Sys, i: Tid)
    requires Discipline.Inv(a) && AllRead(a) && Commits(a, b, i)
    ensures AllRead(b)
  {
    CommitKeepsSlots(a.db, a.txs[i]);
    forall j | j in b.txs ensures HasRead(b.db, b.txs[j]) {
      CommitStable(a.db, a.txs[i], a.txs[j]);
      StableKeepsRead(a.db, b.db, a.txs[j]);
    }
  }

  lemma ChangeKeepsRead(a: Sys, b: Sys, ch: Change)
    requires Discipline.Inv(a) && AllRead(a) && Writes(a, b, ch)
    ensures AllRead(b)
  {
    ChangeKeepsSlots(a, ch);
    forall j | j in b.txs ensures HasRead(b.db, b.txs[j]) {
      ChangeStable(a, ch, j);
      StableKeepsRead(a.db, b.db, a.txs[j]);
    }
  }

  lemma StepKeepsRead(a: Sys, b: Sys, act: Action)
    requires Discipline.Inv(a) && AllRead(a) && Does(a, b, act)
    ensures AllRead(b)
  {
    match act
    case Begin(i, op) => assert HasRead(a.db, Start(op));
    case Advance(i, next) => MoveKeepsRead(a.db, a.txs[i], next);
    case Commit(i) => CommitKeepsRead(a, b, i);
    case Abort(i) =>
    case Write(ch) => ChangeKeepsRead(a, b, ch);
  }

  lemma {:induction false} AlwaysRead(run: seq<Sys>, i: nat)
    requires IsRun(run) && i < |run|
    ensures AllRead(run[i])
  {
    if i > 0 {
      AlwaysRead(run, i - 1);
      Discipline.InvAlways(run, i - 1);
      assert StepAt(run, i);
      var act :| Does(run[i - 1], run[i], act);
      StepKeepsRead(run[i - 1], run[i], act);
    }
  }

  // ---- exactly which steps double-book ------------------------------------------

  /** A class that competes with c has the section: nothing rechecks an attach. */
  ghost predicate SectionTaken(db: Db, s: Section, c: Class) {
    exists sl, other ::
      && sl in db.slots && other in db.slots && Competing(sl, other) && sl.cls == c
      && other.cls in db.classes && db.classes[other.cls].section == Some(s)
  }

  /** A class that competes with c has the teacher or the named room. */
  ghost predicate TeacherOrRoomTaken(db: Db, c: Class, teacher: Teacher, room: Option<string>) {
    exists sl, other ::
      && sl in db.slots && other in db.slots && Competing(sl, other) && sl.cls == c
      && other.cls in db.classes
      && (db.classes[other.cls].teacher == teacher || (room.Some? && db.classes[other.cls].room == room))
  }

  predicate Edited(row: ClassRow, row': ClassRow) {
    row.teacher != row'.teacher || row.room != row'.room || row.section != row'.section
  }

  /** A class that competes with the slot being created was edited after the
      creation had read it, and clashes now. */
  ghost predicate RivalOvertook(db: Db, t: Tx)
    requires t.op.Book?
  {
    exists sl ::
      && sl in db.slots && Competing(SlotOf(t), sl) && sl.cls in t.seen && sl.cls in db.classes
      && Edited(t.seen[sl.cls], db.classes[sl.cls]) && Clash(t.cls, db.classes[sl.cls])
  }

  ghost predicate DoubleBooks(a: Sys, act: Action) {
    match act
    case Commit(i) =>
      && i in a.txs
      && (a.txs[i].op.Attach? || a.txs[i].op.Book?)
      && (a.txs[i].op.Attach? ==> SectionTaken(a.db, a.txs[i].op.s, a.txs[i].op.c))
      && (a.txs[i].op.Book? ==> RivalOvertook(a.db, a.txs[i]))
    case Write(ch) => ch.UpdateClass? && TeacherOrRoomTaken(a.db, ch.cls, ch.teacher, ch.room)
    case _ => false
  }

  lemma BookKeepsBookingsIff(db: Db, t: Tx)
    requires SlotsOk(db) && NoDoubleBooking(db) && RowsOk(db, t) && HasRead(db, t)
    requires t.op.Book? && t.pc == Committing
    ensures NoDoubleBooking(CommitDb(db, t)) <==> !RivalOvertook(db, t)
  {
    var db' := CommitDb(db, t);
    assert db'.classes == db.classes && db'.slots == db.slots + {SlotOf(t)};
    if sl :| sl in db.slots && Competing(SlotOf(t), sl) && Clash(t.cls, db.classes[sl.cls]) {
      assert SlotOf(t) in db'.slots && sl in db'.slots;
      assert sl.cls in t.seen;
    }
  }

  lemma AttachKeepsBookingsIff(db: Db, t: Tx)
    requires SlotsOk(db) && NoDoubleBooking(db) && RowsOk(db, t)
    requires t.op.Attach? && t.pc == Committing
    ensures NoDoubleBooking(CommitDb(db, t)) <==> !SectionTaken(db, t.op.s, t.op.c)
  {
    var db' := CommitDb(db, t);
    assert db'.slots == db.slots;
    assert db'.classes == db.classes[t.op.c := db.classes[t.op.c].(section := Some(t.op.s))];
  }

  lemma UpdateKeepsBookingsIff(db: Db, c: Class, teacher: Teacher, room: Option<string>, capacity: int)
    requires SlotsOk(db) && NoDoubleBooking(db) && c in db.classes
    ensures
      NoDoubleBooking(ChangeDb(db, UpdateClass(c, teacher, room, capacity))) <==>
        !TeacherOrRoomTaken(db, c, teacher, room)
  {
  }

  /** Detaching, dropping slots and everything that leaves the timetabled rows
      alone breaks nothing. */
  lemma OthersKeepBookings(db: Db, db': Db)
    requires SlotsOk(db) && NoDoubleBooking(db) && db'.slots <= db.slots
    requires forall c :: c in db.classes ==>
      c in db'.classes && (Edited(db.classes[c], db'.classes[c]) ==> db'.classes[c] == db.classes[c].(section := None))
    ensures NoDoubleBooking(db')
  {
  }

  lemma ChangeDoubleBooksIff(a: Sys, b: Sys, ch: Change)
    requires SlotsOk(a.db) && NoDoubleBooking(a.db) && Writes(a, b, ch)
    ensures !NoDoubleBooking(b.db) <==> DoubleBooks(a, Write(ch))
  {
    match ch
    case UpdateClass(c, teacher, room, n) => UpdateKeepsBookingsIff(a.db, c, teacher, room, n);
    case _ =>
      ChangeKeepsSlots(a, ch);
      OthersKeepBookings(a.db, b.db);
  }

  lemma CommitDoubleBooksIff(a: Sys, b: Sys, i: Tid)
    requires SlotsOk(a.db) && NoDoubleBooking(a.db) && Commits(a, b, i)
    requires TxOk(a.db, a.txs[i]) && HasRead(a.db, a.txs[i])
    ensures !NoDoubleBooking(b.db) <==> DoubleBooks(a, Commit(i))
  {
    var t := a.txs[i];
    match t.op
    case Attach(_, _) => AttachKeepsBookingsIff(a.db, t);
    case Book(_, _, _) => BookKeepsBookingsIff(a.db, t);
    case _ => OthersKeepBookings(a.db, b.db);
  }

  /** In any run, a step double-books exactly when it commits the attachment of a
      class one of whose competitors has that section, writes a teacher or room
      that a competitor has, or commits a slot one of whose competitors was edited
      into a clash after it had been read. */
  lemma StepDoubleBooksIff(run: seq<Sys>, n: nat, act: Action)
    requires IsRun(run) && n + 1 < |run| && Does(run[n], run[n + 1], act) && NoDoubleBooking(run[n].db)
    ensures !NoDoubleBooking(run[n + 1].db) <==> DoubleBooks(run[n], act)
  {
    Discipline.InvAlways(run, n);
    AlwaysRead(run, n);
    DoesDoubleBookIff(run[n], run[n + 1], act);
  }

  lemma DoesDoubleBookIff(a: Sys, b: Sys, act: Action)
    requires Discipline.Inv(a) && AllRead(a) && NoDoubleBooking(a.db) && Does(a, b, act)
    ensures !NoDoubleBooking(b.db) <==> DoubleBooks(a, act)
  {
    match act
    case Commit(i) => CommitDoubleBooksIff(a, b, i);
    case Write(ch) => ChangeDoubleBooksIff(a, b, ch);
    case _ => assert b.db == a.db;
  }

  // ---- runs whose edits are safe ----------------------------------------------------

  /** The row that the step gives a class, if it gives one a new teacher, room or
      section. */
  ghost predicate Edits(a: Sys, act: Action, c: Class, row: ClassRow) {
    && c in a.db.classes && Edited(a.db.classes[c], row)
    && match act
       case Commit(i) =>
         && i in a.txs && a.txs[i].op.Attach? && a.txs[i].op.c == c
         && row == a.db.classes[c].(section := Some(a.txs[i].op.s))
       case Write(ch) =>
         ch.UpdateClass? && ch.cls == c && row == a.db.classes[c].(teacher := ch.teacher, room := ch.room)
       case _ => false
  }

  /** What would have to be checked before such an edit: the new row clashes with
      no competitor, and no slot creation is past its listing at a (day, period)
      where the class is timetabled. */
  ghost predicate SafeEdit(a: Sys, c: Class, row: ClassRow) {
    && (forall sl, other :: sl in a.db.slots && other in a.db.slots && Competing(sl, other) && sl.cls == c ==>
          other.cls in a.db.classes && !Clash(row, a.db.classes[other.cls]))
    && forall i :: i in a.txs && PastListing(a.txs[i]) ==> Slot(c, a.txs[i].op.day, a.txs[i].op.p) !in a.db.slots
  }

  ghost predicate SafeStep(a: Sys, act: Action) {
    forall c, row :: Edits(a, act, c, row) ==> SafeEdit(a, c, row)
  }

  ghost predicate StepsSafely(a: Sys, b: Sys) {
    exists act :: Does(a, b, act) && SafeStep(a, act)
  }

  ghost predicate SafeAt(run: seq<Sys>, i: int) {
    0 < i < |run| && StepsSafely(run[i - 1], run[i])
  }

  ghost predicate IsSafeRun(run: seq<Sys>) {
    IsRun(run) && forall i :: 0 < i < |run| ==> SafeAt(run, i)
  }

  /** What a slot creation has read does not clash now either. */
  ghost predicate Clear(db: Db, t: Tx) {
    PastListing(t) ==>
      forall sl :: sl in db.slots && Competing(SlotOf(t), sl) && sl.cls in db.classes ==>
        sl.cls in t.rivals || !Clash(t.cls, db.classes[sl.cls])
  }

  ghost predicate Inv(a: Sys) {
    && AllRead(a) && NoDoubleBooking(a.db)
    && forall i :: i in a.txs ==> Clear(a.db, a.txs[i])
  }

  lemma MoveKeepsClear(db: Db, t: Tx, t': Tx)
    requires RightPc(t) && Clear(db, t) && Moves(db, t, t')
    ensures Clear(db, t')
  {
    if t.pc == ListRivals {
      forall sl | sl in db.slots && Competing(SlotOf(t), sl) ensures sl.cls in t'.rivals {}
    }
  }

  lemma ClearStays(db: Db, db': Db, t: Tx)
    requires TxOk(db, t) && Clear(db, t) && SlotsOk(db)
    requires PastListing(t) ==> forall sl :: sl in db'.slots && Competing(SlotOf(t), sl) ==>
      && sl in db.slots && sl.cls in db'.classes
      && (Clash(t.cls, db'.classes[sl.cls]) ==> Clash(t.cls, db.classes[sl.cls]))
    ensures Clear(db', t)
  {
  }

  /** A commit beside an open slot creation adds no competitor to it, and a safe
      one makes none of them clash. */
  lemma CommitKeepsRival(a: Sys, b: Sys, i: Tid, j: Tid, sl: Slot)
    requires Commits(a, b, i) && SafeStep(a, Commit(i)) && j in b.txs && PastListing(a.txs[j])
    requires LocksApart(a.txs[j], a.txs[i]) && RowsOk(a.db, a.txs[i]) && RightPc(a.txs[i])
    requires SlotsOk(a.db) && sl in b.db.slots && Competing(SlotOf(a.txs[j]), sl)
    ensures sl in a.db.slots && sl.cls in b.db.classes
    ensures Clash(a.txs[j].cls, b.db.classes[sl.cls]) ==> Clash(a.txs[j].cls, a.db.classes[sl.cls])
  {
    var t, u := a.txs[i], a.txs[j];
    assert sl in a.db.slots;
    if t.op.Attach? && sl.cls == t.op.c {
      var row := a.db.classes[t.op.c].(section := Some(t.op.s));
      assert sl == Slot(t.op.c, u.op.day, u.op.p);
      assert !Edits(a, Commit(i), t.op.c, row);
    }
  }

  lemma CommitKeepsClear(a: Sys, b: Sys, i: Tid, j: Tid)
    requires Discipline.Inv(a) && Inv(a) && Commits(a, b, i) && SafeStep(a, Commit(i)) && j in b.txs
    ensures Clear(b.db, b.txs[j])
  {
    var t, u := a.txs[i], a.txs[j];
    assert TxOk(a.db, t) && TxOk(a.db, u) && PairOk(u, t) && Clear(a.db, u);
    if PastListing(u) {
      forall sl | sl in b.db.slots && Competing(SlotOf(u), sl)
        ensures sl in a.db.slots && sl.cls in b.db.classes
        ensures Clash(u.cls, b.db.classes[sl.cls]) ==> Clash(u.cls, a.db.classes[sl.cls])
      {
        CommitKeepsRival(a, b, i, j, sl);
      }
      ClearStays(a.db, b.db, u);
    }
  }

  lemma ChangeKeepsRival(a: Sys, b: Sys, ch: Change, j: Tid, sl: Slot)
    requires Writes(a, b, ch) && SafeStep(a, Write(ch)) && j in b.txs && PastListing(a.txs[j])
    requires SlotsOk(a.db) && sl in b.db.slots && Competing(SlotOf(a.txs[j]), sl)
    ensures sl in a.db.slots && sl.cls in b.db.classes
    ensures Clash(a.txs[j].cls, b.db.classes[sl.cls]) ==> Clash(a.txs[j].cls, a.db.classes[sl.cls])
  {
    var u := a.txs[j];
    ChangeKeepsSlots(a, ch);
    if ch.UpdateClass? && sl.cls == ch.cls {
      var row := a.db.classes[ch.cls].(teacher := ch.teacher, room := ch.room);
      assert sl == Slot(ch.cls, u.op.day, u.op.p);
      assert !Edits(a, Write(ch), ch.cls, row);
    }
  }

  lemma ChangeKeepsClear(a: Sys, b: Sys, ch: Change, j: Tid)
    requires Discipline.Inv(a) && Inv(a) && Writes(a, b, ch) && SafeStep(a, Write(ch)) && j in b.txs
    ensures Clear(b.db, b.txs[j])
  {
    var u := a.txs[j];
    assert TxOk(a.db, u) && Clear(a.db, u);
    if PastListing(u) {
      forall sl | sl in b.db.slots && Competing(SlotOf(u), sl)
        ensures sl in a.db.slots && sl.cls in b.db.classes
        ensures Clash(u.cls, b.db.classes[sl.cls]) ==> Clash(u.cls, a.db.classes[sl.cls])
      {
        ChangeKeepsRival(a, b, ch, j, sl);
      }
      ClearStays(a.db, b.db, u);
    }
  }

  /** A safe step is not one of those that double-book. */
  lemma SafeStepsDoNot(a: Sys, act: Action)
    requires Discipline.Inv(a) && Inv(a) && SafeStep(a, act)
    requires act.Commit? ==> act.i in a.txs && a.txs[act.i].pc == Committing
    requires act.Write? ==> Allowed(a, act.ch)
    ensures !DoubleBooks(a, act)
  {
    if act.Commit? {
      var t := a.txs[act.i];
      assert TxOk(a.db, t) && Clear(a.db, t) && HasRead(a.db, t);
      if t.op.Attach? && SectionTaken(a.db, t.op.s, t.op.c) {
        assert Edits(a, act, t.op.c, a.db.classes[t.op.c].(section := Some(t.op.s)));
      }
    } else if act.Write? && act.ch.UpdateClass? {
      var ch := act.ch;
      if TeacherOrRoomTaken(a.db, ch.cls, ch.teacher, ch.room) {
        assert Edits(a, act, ch.cls, a.db.classes[ch.cls].(teacher := ch.teacher, room := ch.room));
      }
    }
  }

  lemma StepKeepsInv(a: Sys, b: Sys, act: Action)
    requires Discipline.Inv(a) && Inv(a) && Does(a, b, act) && SafeStep(a, act)
    ensures Inv(b)
  {
    StepKeepsRead(a, b, act);
    SafeStepsDoNot(a, act);
    DoesDoubleBookIff(a, b, act);
    StepKeepsClear(a, b, act);
  }

  lemma StepKeepsClear(a: Sys, b: Sys, act: Action)
    requires Discipline.Inv(a) && Inv(a) && Does(a, b, act) && SafeStep(a, act)
    ensures forall j :: j in b.txs ==> Clear(b.db, b.txs[j])
  {
    match act
    case Begin(i, op) => assert Clear(a.db, Start(op));
    case Advance(i, next) => MoveKeepsClear(a.db, a.txs[i], next);
    case Commit(i) =>
      forall j | j in b.txs ensures Clear(b.db, b.txs[j]) {
        CommitKeepsClear(a, b, i, j);
      }
    case Abort(i) =>
    case Write(ch) =>
      forall j | j in b.txs ensures Clear(b.db, b.txs[j]) {
        ChangeKeepsClear(a, b, ch, j);
      }
  }

  lemma {:induction false} NeverDoubleBooked(run: seq<Sys>, i: nat)
    requires IsSafeRun(run) && i < |run|
    ensures SlotsOk(run[i].db) && NoDoubleBooking(run[i].db)
    ensures Inv(run[i])
  {
    if i > 0 {
      NeverDoubleBooked(run, i - 1);
      Discipline.InvAlways(run, i - 1);
      assert SafeAt(run, i);
      var act :| Does(run[i - 1], run[i], act) && SafeStep(run[i - 1], act);
      StepKeepsInv(run[i - 1], run[i], act);
    }
  }

  /** In particular: runs in which a class that is on the timetable keeps its
      teacher, room and section. */
  ghost predicate Pinned(db: Db, db': Db) {
    forall sl :: sl in db.slots && sl.cls in db.classes ==>
      sl.cls in db'.classes && !Edited(db.classes[sl.cls], db'.classes[sl.cls])
  }

  lemma PinnedStepIsSafe(a: Sys, b: Sys, act: Action)
    requires Does(a, b, act) && Pinned(a.db, b.db)
    ensures SafeStep(a, act)
  {
    forall c, row | Edits(a, act, c, row) ensures SafeEdit(a, c, row) {
      assert c in b.db.classes && Edited(a.db.classes[c], b.db.classes[c]);
    }
  }

  lemma PinnedRunIsSafe(run: seq<Sys>)
    requires IsRun(run) && forall i :: 0 < i < |run| ==> Pinned(run[i - 1].db, run[i].db)
    ensures IsSafeRun(run)
  {
    forall i | 0 < i < |run| ensures SafeAt(run, i) {
      assert StepAt(run, i);
      var act :| Does(run[i - 1], run[i], act);
      PinnedStepIsSafe(run[i - 1], run[i], act);
    }
  }

  // ---- on the clock ------------------------------------------------------------

  /** The rule the school means: two different slots of one weekday that share a
      minute share no teacher, no named room and no section. */
  ghost predicate NoClashOnTheClock(db: Db)
    requires SlotsOk(db)
  {
    forall sl, other ::
      (sl in db.slots && other in db.slots && sl != other && sl.day == other.day
       && Overlap(db.periods[sl.period], db.periods[other.period]))
      ==> !Clash(db.classes[sl.cls], db.classes[other.cls])
  }

  /** With disjoint periods the checks by period id are exactly that rule. */
  lemma IdChecksAreClockChecks(db: Db)
    requires SlotsOk(db)
    ensures NoDoubleBooking(db) <==> NoClashOnTheClock(db)
  {
    if NoClashOnTheClock(db) {
      forall sl, other | sl in db.slots && other in db.slots && Competing(sl, other)
        ensures !Clash(db.classes[sl.cls], db.classes[other.cls])
      {
        assert Overlap(db.periods[sl.period], db.periods[other.period]);
      }
    }
  }

  lemma NeverClashOnTheClock(run: seq<Sys>, i: nat)
    requires IsSafeRun(run) && i < |run|
    ensures SlotsOk(run[i].db) && NoClashOnTheClock(run[i].db)
  {
    NeverDoubleBooked(run, i);
    IdChecksAreClockChecks(run[i].db);
  }

  /** Without the exclusion constraint the id checks are not enough: two periods
      at the same time, one teacher in both, and no (day, period) is shared. */
  lemma OverlappingPeriodsBypassIds()
    ensures exists db: Db, sl, other ::
      && sl in db.slots && other in db.slots && sl != other && sl.day == other.day
      && sl.cls in db.classes && other.cls in db.classes
      && sl.period in db.periods && other.period in db.periods
      && (forall x, y :: x in db.slots && y in db.slots ==> !Competing(x, y))
      && Overlap(db.periods[sl.period], db.periods[other.period])
      && Clash(db.classes[sl.cls], db.classes[other.cls])
  {
    var sl, other := Slot(1, Monday, 1), Slot(2, Monday, 2);
    var db := EMPTY.(
      classes := map[1 := ClassRow(0, 7, None, None, 1), 2 := ClassRow(0, 7, None, None, 1)],
      periods := map[1 := PeriodRow("Period 3", 600, 645), 2 := PeriodRow("Period 3 Science", 600, 645)],
      slots := {sl, other});
    assert sl in db.slots && other in db.slots;
  }
}
