/** Reachable states in which the rules that hold only on a condition do fail: a
    small school of one section, two classes, two students and one period. */
module Witnesses {
  import opened School
  import opened Interleaving
  import opened Reachability
  import Solo
  import Requests
  import Timetable
  import DoubleBooking
  import Capacity
  import Provenance
  import RunProperties

  const SECTION: Section := 5
  const LESSON := Slot(1, Monday, 3)
  const RIVAL := Slot(2, Monday, 3)

  const MATHS := ClassRow(1, 7, None, None, 2)
  const ART := ClassRow(1, 8, None, None, 2)

  const OPENED := Db(
    {1, 2}, map[1 := 2024], map[SECTION := SectionRow(2024, 2)], map[1 := MATHS, 2 := ART],
    map[], map[], map[3 := PeriodRow("First", 480, 525)], {})

  lemma Founds(p: Sys -> bool) returns (a: Sys)
    requires forall a: Sys :: a.txs == map[] && a.db.roster == map[] ==> p(a)
    ensures Reached(a, p) && a.txs == map[] && a.fanned == {}
    ensures a.db == OPENED.(classes := map[], periods := map[])
  {
    NoStep(INIT, p);
    a := Wrote(INIT, AddStudent(1), p);
    a := Wrote(a, AddStudent(2), p);
    a := Wrote(a, AddTerm(1, 2024), p);
    a := Wrote(a, AddSection(SECTION, SectionRow(2024, 2)), p);
  }

  lemma Opens(p: Sys -> bool) returns (a: Sys)
    requires forall a: Sys :: a.txs == map[] && a.db.roster == map[] ==> p(a)
    ensures Reached(a, p) && a.db == OPENED && a.txs == map[] && a.fanned == {}
  {
    a := Founds(p);
    a := Wrote(a, AddClass(1, MATHS), p);
    a := Wrote(a, AddClass(2, ART), p);
    a := Wrote(a, PutPeriod(3, PeriodRow("First", 480, 525)), p);
    assert a.db == OPENED;
  }

  // ---- double bookings --------------------------------------------------------------

  /** A reachable step from a timetable without double bookings to one with. */
  ghost predicate CanDoubleBook(a: Sys, b: Sys, act: Action) {
    && Reachable(a) && Does(a, b, act)
    && DoubleBooking.NoDoubleBooking(a.db) && !DoubleBooking.NoDoubleBooking(b.db)
  }

  /** The store once these slots are timetabled and class 1 is in the section. */
  function Timetabled(slots: set<Slot>): Db {
    OPENED.(classes := map[1 := MATHS.(section := Some(SECTION)), 2 := ART], slots := slots)
  }

  lemma AttachServed(db: Db, s: Section, c: Class)
    requires db.roster == map[] && s in db.sections && c in db.classes && db.classes[c].section == None
    requires db.classes[c].term in db.terms && db.terms[db.classes[c].term] == db.sections[s].year
    ensures Solo.Served(db, Attach(s, c)) ==
      Some(db.(classes := db.classes[c := db.classes[c].(section := Some(s))]))
  {
    assert RosterRows(db, s) == {};
    assert Requests.RosterKeys(db, s, c) == {};
    assert AddRows(db.enrol, {}) == db.enrol;
  }

  lemma BookServed(slots: set<Slot>, sl: Slot)
    requires sl !in slots && slots <= {LESSON, RIVAL} && sl in {LESSON, RIVAL}
    ensures Solo.Served(Timetabled(slots), Book(sl.cls, sl.day, sl.period)) == Some(Timetabled(slots + {sl}))
  {
    var db := Timetabled(slots);
    assert Slot(sl.cls, sl.day, sl.period) == sl;
    Timetable.BookSucceedsIff(db, sl);
  }

  lemma ArtIsTimetabled() returns (a: Sys)
    ensures Reached(a, ANY) && a.db == Timetabled({RIVAL}) && a.txs == map[]
  {
    a := Opens(ANY);
    AttachServed(OPENED, SECTION, 1);
    a := Served(a, 0, Attach(SECTION, 1), ANY);
    assert a.db == Timetabled({});
    BookServed({}, RIVAL);
    a := Served(a, 0, Book(2, Monday, 3), ANY);
  }

  lemma BothAreTimetabled() returns (a: Sys)
    ensures Reached(a, ANY) && a.db == Timetabled({LESSON, RIVAL}) && a.txs == map[]
    ensures DoubleBooking.NoDoubleBooking(a.db)
  {
    a := ArtIsTimetabled();
    BookServed({RIVAL}, LESSON);
    a := Served(a, 0, Book(1, Monday, 3), ANY);
    assert {RIVAL} + {LESSON} == {LESSON, RIVAL};
  }

  /** Both classes are timetabled together, then the second joins the section. */
  lemma AttachDoubleBooks()
    ensures exists a, b, i :: CanDoubleBook(a, b, Commit(i)) && i in a.txs && a.txs[i].op.Attach?
  {
    var a := BothAreTimetabled();
    AttachServed(a.db, SECTION, 2);
    var t, b := Arrives(a, 0, Attach(SECTION, 2), ANY);
    Joined(INIT, a, At(a, 0, t), ANY);
    ReachedIsReachable(At(a, 0, t), ANY);
    assert DoubleBooking.Competing(LESSON, RIVAL);
    assert LESSON in b.db.slots && RIVAL in b.db.slots;
    assert Clash(b.db.classes[1], b.db.classes[2]);
    assert CanDoubleBook(At(a, 0, t), b, Commit(0));
  }

  /** Both are timetabled together, then the second is given the first's teacher. */
  lemma UpdateDoubleBooks()
    ensures exists a, b, ch :: CanDoubleBook(a, b, Write(ch)) && ch.UpdateClass?
  {
    var a := BothAreTimetabled();
    ReachedIsReachable(a, ANY);
    var ch := UpdateClass(2, 7, None, 2);
    var b := Wrote(a, ch, ANY);
    assert DoubleBooking.Competing(LESSON, RIVAL);
    assert LESSON in b.db.slots && RIVAL in b.db.slots;
    assert Clash(b.db.classes[1], b.db.classes[2]);
    assert CanDoubleBook(a, b, Write(ch));
  }

  /** The slot creation for class 1 that has read class 2 and is about to insert. */
  const READY := Tx(
    Book(1, Monday, 3), InsertSlot, SectionRow(0, 0), MATHS.(section := Some(SECTION)),
    {}, None, {}, {}, map[2 := ART])

  const LISTING := READY.(pc := ListRivals, seen := map[])

  lemma LessonIsChecked() returns (a: Sys)
    ensures a.db == Timetabled({RIVAL}) && a.txs == map[] && Reached(At(a, 1, LISTING), ANY)
  {
    a := ArtIsTimetabled();
    var start := Start(Book(1, Monday, 3));
    var b := Began(a, 1, Book(1, Monday, 3), ANY);
    var held := start.(pc := WantPeriod, cls := READY.cls);
    Went(a, 1, start, held, ANY);
    Went(a, 1, held, held.(pc := CheckSlot), ANY);
    Went(a, 1, held.(pc := CheckSlot), LISTING, ANY);
  }

  lemma LessonIsReady() returns (a: Sys)
    ensures a.db == Timetabled({RIVAL}) && a.txs == map[] && Reached(At(a, 1, READY), ANY)
  {
    a := LessonIsChecked();
    assert RIVAL in a.db.slots;
    assert Rivals(a.db, LESSON) == {2};
    var listed := LISTING.(pc := ReadRivals, rivals := {2});
    Went(a, 1, LISTING, listed, ANY);
    var read := ReadRival(a.db, listed, 2);
    assert ReadsRival(a.db, listed, 2);
    Went(a, 1, listed, read, ANY);
    assert read == READY.(pc := ReadRivals);
    Went(a, 1, read, READY, ANY);
  }

  lemma RivalOvertakes() returns (e: Sys)
    ensures Reached(At(e, 1, READY.(pc := Committing)), ANY) && e.txs == map[]
    ensures e.db == Timetabled({RIVAL}).(classes := map[1 := READY.cls, 2 := ART.(section := Some(SECTION))])
  {
    var a := LessonIsReady();
    AttachServed(a.db, SECTION, 2);
    var d := Served(At(a, 1, READY), 0, Attach(SECTION, 2), ANY);
    e := d.(txs := map[]);
    assert d == At(e, 1, READY);
    Went(e, 1, READY, READY.(pc := Committing), ANY);
  }

  /** No slot competes with class 2 when it joins the section; the creation that
      had read it before then commits. */
  lemma StaleReadDoubleBooks()
    ensures exists a, b, i :: CanDoubleBook(a, b, Commit(i)) && i in a.txs && a.txs[i].op.Book?
  {
    var e := RivalOvertakes();
    var done := READY.(pc := Committing);
    ReachedIsReachable(At(e, 1, done), ANY);
    var b := Committed(e, 1, done, ANY);
    assert DoubleBooking.Competing(LESSON, RIVAL);
    assert LESSON in b.db.slots && RIVAL in b.db.slots;
    assert Clash(b.db.classes[1], b.db.classes[2]);
    assert CanDoubleBook(At(e, 1, done), b, Commit(1));
  }

  // ---- capacities -------------------------------------------------------------------

  lemma AssignServed(db: Db, x: Student)
    requires x in db.students && SECTION in db.sections && (x, 2024) !in db.roster
    requires db.sections[SECTION].year == 2024 && |RosterRows(db, SECTION)| < db.sections[SECTION].capacity
    requires AttachedTo(db, SECTION) == {}
    ensures Solo.Served(db, Assign(x, SECTION)) == Some(db.(roster := db.roster[(x, 2024) := SECTION]))
  {
    assert Requests.ClassKeys(db, x, SECTION) == {};
    assert AddRows(db.enrol, {}) == db.enrol;
  }

  lemma FullSection() returns (a: Sys)
    ensures Reached(a, ANY) && a.db == OPENED.(roster := map[(1, 2024) := SECTION, (2, 2024) := SECTION])
    ensures a.txs == map[] && RosterRows(a.db, SECTION) == {(1, 2024), (2, 2024)}
  {
    a := Opens(ANY);
    assert RosterRows(a.db, SECTION) == {} && AttachedTo(a.db, SECTION) == {};
    AssignServed(a.db, 1);
    a := Served(a, 0, Assign(1, SECTION), ANY);
    assert RosterRows(a.db, SECTION) == {(1, 2024)} && AttachedTo(a.db, SECTION) == {};
    AssignServed(a.db, 2);
    a := Served(a, 0, Assign(2, SECTION), ANY);
    assert RosterRows(a.db, SECTION) == {(1, 2024), (2, 2024)};
  }

  /** A section of two, holding two, is lowered to one. */
  lemma LoweredSection()
    ensures exists a: Sys, b: Sys ::
      && Reachable(a) && SECTION in a.db.sections && SECTION in b.db.sections
      && Does(a, b, Write(SetSectionCapacity(SECTION, 1)))
      && |RosterRows(a.db, SECTION)| == a.db.sections[SECTION].capacity == 2
      && |RosterRows(b.db, SECTION)| == 2 > b.db.sections[SECTION].capacity == 1
  {
    var a := FullSection();
    ReachedIsReachable(a, ANY);
    var b := Wrote(a, SetSectionCapacity(SECTION, 1), ANY);
    assert RosterRows(b.db, SECTION) == {(1, 2024), (2, 2024)};
  }

  lemma FullClass() returns (a: Sys)
    ensures Reached(a, ANY) && a.db == OPENED.(enrol := map[(1, 1) := Active, (2, 1) := Active])
    ensures a.txs == map[] && a.fanned == {}
  {
    a := Opens(ANY);
    assert ActiveRows(a.db, 1) == {};
    a := Served(a, 0, Enroll(1, 1), ANY);
    assert ActiveRows(a.db, 1) == {(1, 1)};
    a := Served(a, 0, Enroll(2, 1), ANY);
  }

  /** A class of two, with two students enrolled one by one, is lowered to one. */
  lemma LoweredClass()
    ensures exists a: Sys, b: Sys ::
      && Reachable(a) && 1 in a.db.classes && 1 in b.db.classes
      && Does(a, b, Write(UpdateClass(1, 7, None, 1)))
      && |Capacity.Individual(a.db, a.fanned, 1)| == a.db.classes[1].capacity == 2
      && |Capacity.Individual(b.db, b.fanned, 1)| == 2 > b.db.classes[1].capacity == 1
  {
    var a := FullClass();
    ReachedIsReachable(a, ANY);
    assert Capacity.Individual(a.db, {}, 1) == {(1, 1), (2, 1)};
    var b := Wrote(a, UpdateClass(1, 7, None, 1), ANY);
    assert Capacity.Individual(b.db, {}, 1) == {(1, 1), (2, 1)};
  }

  // ---- enrolled without ever having been together ---------------------------------------

  const PAIR: Key := (1, 1)

  /** Student 1 and class 1 are not together, and nobody enrols anybody singly. */
  ghost const APART: Sys -> bool := (a: Sys) =>
    !RunProperties.Together(a.db, PAIR) && forall i :: i in a.txs ==> !a.txs[i].op.Enroll?

  lemma IsApart(a: Sys)
    requires a.db.roster == map[] || (1 in a.db.classes ==> a.db.classes[1].section == None)
    requires forall i :: i in a.txs ==> !a.txs[i].op.Enroll?
    ensures APART(a)
  {
    assert forall s: Section :: 1 in AttachedTo(a.db, s) ==> a.db.classes[1].section == Some(s);
  }

  const JOIN := Attach(SECTION, 1)

  /** The attachment of class 1 with student 1 on its list. */
  const LISTED := Tx(JOIN, FanOut, SectionRow(2024, 2), MATHS, {PAIR}, None, {}, {}, map[])

  lemma SeatedAlone() returns (a: Sys)
    ensures Reached(a, APART) && a.txs == map[] && a.db == OPENED.(roster := map[(1, 2024) := SECTION])
  {
    forall a: Sys | a.txs == map[] && a.db.roster == map[] ensures APART(a) {
      IsApart(a);
    }
    a := Opens(APART);
    assert RosterRows(a.db, SECTION) == {} && AttachedTo(a.db, SECTION) == {};
    AssignServed(a.db, 1);
    var db := Solo.Served(a.db, Assign(1, SECTION)).value;
    forall t: Tx | t.op == Assign(1, SECTION) ensures APART(At(a, 0, t)) {
      IsApart(At(a, 0, t));
    }
    forall fanned ensures APART(a.(db := db, fanned := fanned)) {
      IsApart(a.(db := db, fanned := fanned));
    }
    a := Served(a, 0, Assign(1, SECTION), APART);
  }

  /** One more statement of the attachment, with the class not attached yet or
      nobody on the roster. */
  lemma GoesApart(a: Sys, t: Tx, t': Tx)
    requires a.txs == map[] && Reached(At(a, 1, t), APART) && t.op == JOIN && Moves(a.db, t, t') && t'.op == JOIN
    requires a.db.roster == map[] || (1 in a.db.classes ==> a.db.classes[1].section == None)
    ensures Reached(At(a, 1, t'), APART)
  {
    IsApart(At(a, 1, t));
    IsApart(At(a, 1, t'));
    Went(a, 1, t, t', APART);
  }

  const HELD := LISTED.(pc := CheckClass, todo := {})

  lemma HoldsBothRows() returns (a: Sys)
    ensures Reached(At(a, 1, HELD), APART) && a.txs == map[]
    ensures a.db == OPENED.(roster := map[(1, 2024) := SECTION])
  {
    a := SeatedAlone();
    IsApart(a);
    var start := Start(JOIN);
    IsApart(At(a, 1, start));
    var b := Began(a, 1, JOIN, APART);
    var found := start.(pc := WantClass, section := SectionRow(2024, 2));
    GoesApart(a, start, found);
    GoesApart(a, found, HELD);
  }

  lemma ListsTheSeat() returns (a: Sys)
    ensures Reached(At(a, 1, LISTED), APART) && a.txs == map[]
    ensures a.db == OPENED.(roster := map[(1, 2024) := SECTION])
  {
    a := HoldsBothRows();
    var checked := HELD.(pc := ListRoster);
    GoesApart(a, HELD, checked);
    ListsPair(a.db);
    GoesApart(a, checked, LISTED);
  }

  lemma ListsPair(db: Db)
    requires db.roster == map[(1, 2024) := SECTION]
    ensures Moves(db, LISTED.(pc := ListRoster, todo := {}), LISTED)
  {
    assert RosterRows(db, SECTION) == {(1, 2024)};
    assert (set k | k in RosterRows(db, SECTION) :: (k.0, JOIN.c)) == {PAIR};
  }

  /** The one open transaction stays where it is while a request changes the store. */
  lemma ChangesApart(a: Sys, t: Tx, ch: Change) returns (b: Sys)
    requires a.txs == map[] && Reached(At(a, 1, t), APART) && APART(At(a, 1, t)) && Allowed(At(a, 1, t), ch)
    requires APART(AfterWrite(At(a, 1, t), ch))
    ensures Reached(At(b, 1, t), APART) && b.txs == map[] && b.db == ChangeDb(a.db, ch)
  {
    var c := Wrote(At(a, 1, t), ch, APART);
    b := c.(txs := map[]);
    assert c == At(b, 1, t);
  }

  lemma LosesTheSeat() returns (a: Sys)
    ensures Reached(At(a, 1, LISTED), APART) && a.txs == map[] && a.db == OPENED
  {
    var b := ListsTheSeat();
    var c := At(b, 1, LISTED);
    var ch := Unassign((1, 2024));
    IsApart(c);
    IsApart(AfterWrite(c, ch));
    a := ChangesApart(b, LISTED, ch);
    assert a.db == OPENED;
  }

  const STAGED := LISTED.(todo := {}, staged := {PAIR})

  lemma StagesTheLeaver() returns (a: Sys)
    ensures Reached(At(a, 1, STAGED), APART) && a.txs == map[] && a.db == OPENED
  {
    a := LosesTheSeat();
    var probing := LISTED.(probe := Some(PAIR));
    assert probing == Visit(a.db, LISTED, PAIR);
    GoesApart(a, LISTED, probing);
    assert STAGED == probing.(todo := probing.todo - {PAIR}, staged := probing.staged + {PAIR}, probe := None);
    GoesApart(a, probing, STAGED);
  }

  lemma EnrolsTheLeaver() returns (b: Sys)
    ensures Reached(b, APART) && PAIR in b.db.enrol
  {
    var a := StagesTheLeaver();
    var done := STAGED.(pc := Committing);
    GoesApart(a, STAGED, done);
    IsApart(At(a, 1, done));
    forall fanned ensures APART(a.(db := CommitDb(a.db, done), fanned := fanned)) {
      IsApart(a.(db := CommitDb(a.db, done), fanned := fanned));
    }
    b := Committed(a, 1, done, APART);
    Joined(INIT, At(a, 1, done), b, APART);
  }

  /** A run after which student 1 is enrolled in class 1 although nobody enrolled
      them singly and they were together in no committed state: the student left
      the section between the roster listing and the commit of the attachment. */
  lemma LeaverIsEnrolled()
    ensures exists run: seq<Sys> ::
      && IsRun(run) && PAIR in run[|run| - 1].db.enrol
      && forall h: nat :: h < |run| ==> !Provenance.EnrolsAt(run, h, PAIR) && !Provenance.TogetherAt(run, h, PAIR)
  {
    var b := EnrolsTheLeaver();
    var run: seq<Sys> :| IsPath(run, APART) && run[0] == INIT && run[|run| - 1] == b;
    assert IsRun(run);
    forall h: nat | h < |run|
      ensures !Provenance.EnrolsAt(run, h, PAIR) && !Provenance.TogetherAt(run, h, PAIR)
    {
      assert APART(run[h]);
      assert h > 0 ==> APART(run[h - 1]);
    }
  }
}
