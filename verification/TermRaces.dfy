/** What term changes can do: a run that ends with an attached class of a foreign
    year, and a run in which two assignments of one student wait for each other. */
module TermRaces {
  import opened School
  import opened Interleaving
  import opened Reachability
  import opened Witnesses
  import Solo
  import Requests
  import TermUpdates
  import Deadlock

  /** Section 6 and term 2 are of the year after. */
  const LATER: Section := 6

  const TWO_YEARS := OPENED.(
    terms := map[1 := 2024, 2 := 2025],
    sections := map[SECTION := SectionRow(2024, 2), LATER := SectionRow(2025, 2)])

  lemma OpensTwoYears() returns (a: Sys)
    ensures Reached(a, ANY) && a.db == TWO_YEARS && a.txs == map[]
  {
    a := Opens(ANY);
    a := Wrote(a, AddTerm(2, 2025), ANY);
    a := Wrote(a, AddSection(LATER, SectionRow(2025, 2)), ANY);
    assert a.db == TWO_YEARS;
  }

  // ---- a late write ---------------------------------------------------------------

  /** Class 1, of a term of 2024, is about to move to one of 2025. */
  const MOVING := Tx(SetTerm(1, 2), WantClass, SectionRow(0, 0), MATHS, {}, None, {}, {}, map[])

  lemma AttachSlipsIn() returns (a: Sys)
    ensures Reached(At(a, 1, MOVING.(pc := Committing)), ANY) && a.txs == map[]
    ensures a.db == TWO_YEARS.(classes := map[1 := MATHS.(section := Some(SECTION)), 2 := ART])
  {
    var b := OpensTwoYears();
    var c := Began(b, 1, SetTerm(1, 2), ANY);
    Went(b, 1, Start(SetTerm(1, 2)), MOVING, ANY);
    AttachServed(b.db, SECTION, 1);
    var d := Served(At(b, 1, MOVING), 0, Attach(SECTION, 1), ANY);
    a := d.(txs := map[]);
    assert d == At(a, 1, MOVING);
    Went(a, 1, MOVING, MOVING.(pc := Committing), ANY);
  }

  /** A run that ends with an attached class of a foreign year. */
  lemma StaleTermBreaksYears()
    ensures exists a, b, act :: Reachable(a) && YearsRight(a.db) && Does(a, b, act) && !YearsRight(b.db)
  {
    var a := AttachSlipsIn();
    var done := MOVING.(pc := Committing);
    ReachedIsReachable(At(a, 1, done), ANY);
    var b := Committed(a, 1, done, ANY);
    assert !InYear(b.db, 1, 2024);
    assert b.db.classes[1].section == Some(SECTION);
    assert YearsRight(At(a, 1, done).db) && !YearsRight(b.db);
    assert Does(At(a, 1, done), b, Commit(1));
  }

  // ---- a cycle of waits -------------------------------------------------------------

  /** The store with both classes of one term, in one section or in none. */
  function Holding(term: Term, section: Option<Section>): Db {
    Halfway(term, section, term, section)
  }

  /** One class has been changed, the other not yet. */
  function Halfway(term: Term, section: Option<Section>, term': Term, section': Option<Section>): Db {
    TWO_YEARS.(classes := map[
      1 := MATHS.(term := term', section := section'),
      2 := ART.(term := term, section := section)])
  }

  const BOTH: set<Key> := {(1, 1), (1, 2)}

  /** The assignment of student 1 with both classes on its list. */
  function Listed(s: Section, y: Year): Tx {
    Tx(Assign(1, s), FanOut, SectionRow(y, 2), ClassRow(0, 0, None, None, 0), BOTH, None, {}, {}, map[])
  }

  function Seating(s: Section, y: Year): Tx {
    Listed(s, y).(pc := InsertSeat, todo := {})
  }

  /** Nothing open in a has inserted a key or holds section s. */
  ghost predicate Aside(a: Sys, s: Section)
    requires s in a.db.sections
  {
    forall i :: i in a.txs ==>
      && a.txs[i].op.Assign? && a.txs[i].op.s != s && a.txs[i].staged == {}
      && a.txs[i].section.year != a.db.sections[s].year
  }

  lemma AssignSeats(a: Sys, i: Tid, s: Section)
    requires Reached(a, ANY) && i !in a.txs && s in a.db.sections && Aside(a, s)
    requires a.db.roster == map[] && 1 in a.db.students && a.db.sections[s].capacity == 2
    ensures Reached(At(a, i, Seating(s, a.db.sections[s].year)), ANY)
  {
    var b := Began(a, i, Assign(1, s), ANY);
    var start := Start(Assign(1, s));
    var want := start.(pc := WantSection);
    Went(a, i, start, want, ANY);
    var check := want.(pc := CheckYear, section := a.db.sections[s]);
    Went(a, i, want, check, ANY);
    var count := check.(pc := CountRoster);
    Went(a, i, check, count, ANY);
    assert RosterRows(a.db, s) == {};
    Went(a, i, count, Seating(s, a.db.sections[s].year), ANY);
  }

  lemma AssignLists(a: Sys, i: Tid, s: Section)
    requires Reached(a, ANY) && i !in a.txs && s in a.db.sections && Aside(a, s)
    requires a.db.roster == map[] && 1 in a.db.students && a.db.sections[s].capacity == 2
    requires AttachedTo(a.db, s) == {1, 2}
    ensures Reached(At(a, i, Listed(s, a.db.sections[s].year)), ANY)
  {
    var y := a.db.sections[s].year;
    AssignSeats(a, i, s);
    var lists := Seating(s, y).(pc := ListClasses);
    Went(a, i, Seating(s, y), lists, ANY);
    assert (set c | c in AttachedTo(a.db, s) :: (1, c)) == BOTH;
    Went(a, i, lists, Listed(s, y), ANY);
  }

  /** A request of the classes that is served beside the waiting assignment. */
  lemma ServedBeside(a: Sys, t: Tx, op: Op) returns (b: Sys)
    requires Reached(At(a, 1, t), ANY) && a.txs == map[] && t == Listed(SECTION, 2024)
    requires op.Attach? || op.Detach? || op.SetTerm?
    requires op.Attach? ==> op.s != SECTION
    requires Solo.Served(a.db, op).Some?
    ensures Reached(At(b, 1, t), ANY) && b.txs == map[] && b.db == Solo.Served(a.db, op).value
  {
    var c := Served(At(a, 1, t), 0, op, ANY);
    b := c.(txs := map[]);
    assert c == At(b, 1, t);
  }

  lemma BothAttached() returns (a: Sys)
    ensures Reached(a, ANY) && a.db == Holding(1, Some(SECTION)) && a.txs == map[]
  {
    a := OpensTwoYears();
    assert a.db == Holding(1, None);
    AttachServed(a.db, SECTION, 1);
    a := Served(a, 0, Attach(SECTION, 1), ANY);
    assert a.db == Halfway(1, None, 1, Some(SECTION));
    AttachServed(a.db, SECTION, 2);
    a := Served(a, 0, Attach(SECTION, 2), ANY);
    assert a.db == Holding(1, Some(SECTION));
  }

  lemma FirstLists() returns (a: Sys)
    ensures Reached(At(a, 1, Listed(SECTION, 2024)), ANY) && a.db == Holding(1, Some(SECTION)) && a.txs == map[]
  {
    a := BothAttached();
    assert AttachedTo(a.db, SECTION) == {1, 2};
    AssignLists(a, 1, SECTION);
  }

  lemma BothDetached() returns (a: Sys)
    ensures Reached(At(a, 1, Listed(SECTION, 2024)), ANY) && a.db == Holding(1, None) && a.txs == map[]
  {
    a := FirstLists();
    a := ServedBeside(a, Listed(SECTION, 2024), Detach(SECTION, 1));
    assert a.db == Halfway(1, Some(SECTION), 1, None);
    a := ServedBeside(a, Listed(SECTION, 2024), Detach(SECTION, 2));
    assert a.db == Holding(1, None);
  }

  lemma BothMoved() returns (a: Sys)
    ensures Reached(At(a, 1, Listed(SECTION, 2024)), ANY) && a.db == Holding(2, None) && a.txs == map[]
  {
    a := BothDetached();
    a := ServedBeside(a, Listed(SECTION, 2024), SetTerm(1, 2));
    assert a.db == Halfway(1, None, 2, None);
    a := ServedBeside(a, Listed(SECTION, 2024), SetTerm(2, 2));
    assert a.db == Holding(2, None);
  }

  lemma BothAttachedAgain() returns (a: Sys)
    ensures Reached(At(a, 1, Listed(SECTION, 2024)), ANY) && a.db == Holding(2, Some(LATER)) && a.txs == map[]
  {
    a := BothMoved();
    AttachServed(a.db, LATER, 1);
    a := ServedBeside(a, Listed(SECTION, 2024), Attach(LATER, 1));
    assert a.db == Halfway(2, None, 2, Some(LATER));
    AttachServed(a.db, LATER, 2);
    a := ServedBeside(a, Listed(SECTION, 2024), Attach(LATER, 2));
    assert a.db == Holding(2, Some(LATER));
  }

  /** Both assignments stand in their loops. */
  function Pair(a: Sys, t: Tx, u: Tx): Sys {
    At(At(a, 1, t), 2, u)
  }

  lemma BothListed() returns (a: Sys)
    ensures Reached(Pair(a, Listed(SECTION, 2024), Listed(LATER, 2025)), ANY)
    ensures a.db == Holding(2, Some(LATER)) && a.txs == map[]
  {
    a := BothAttachedAgain();
    assert AttachedTo(a.db, LATER) == {1, 2};
    AssignLists(At(a, 1, Listed(SECTION, 2024)), 2, LATER);
  }

  lemma FirstGoes(a: Sys, t: Tx, t': Tx, u: Tx)
    requires a.txs == map[] && Reached(Pair(a, t, u), ANY) && Moves(a.db, t, t') && !Waits(t, u)
    ensures Reached(Pair(a, t', u), ANY)
  {
    assert Pair(a, t, u) == At(At(a, 2, u), 1, t) && Pair(a, t', u) == At(At(a, 2, u), 1, t');
    Went(At(a, 2, u), 1, t, t', ANY);
  }

  lemma SecondGoes(a: Sys, t: Tx, u: Tx, u': Tx)
    requires a.txs == map[] && Reached(Pair(a, t, u), ANY) && Moves(a.db, u, u') && !Waits(u, t)
    ensures Reached(Pair(a, t, u'), ANY)
  {
    Went(At(a, 1, t), 2, u, u', ANY);
  }

  /** The assignment has inserted one key and wants the other. */
  function Wanting(t: Tx, has: Key, wants: Key): Tx {
    t.(todo := {wants}, staged := {has}, probe := Some(wants))
  }

  function Inserted(t: Tx, has: Key, wants: Key): Tx {
    t.(todo := {wants}, staged := {has})
  }

  lemma Inserts(db: Db, t: Tx, has: Key, wants: Key)
    requires db.enrol == map[] && has != wants && BOTH == {has, wants}
    requires t.pc == FanOut && t.todo == BOTH && t.staged == {} && t.probe == None
    ensures Moves(db, t, t.(probe := Some(has)))
    ensures Moves(db, t.(probe := Some(has)), Inserted(t, has, wants))
    ensures Moves(db, Inserted(t, has, wants), Wanting(t, has, wants))
  {
    assert t.(probe := Some(has)) == Visit(db, t, has);
    assert BOTH - {has} == {wants} && {} + {has} == {has};
    var s := Inserted(t, has, wants);
    assert Wanting(t, has, wants) == Visit(db, s, wants);
  }

  lemma EachHasOne() returns (a: Sys)
    ensures Reached(Pair(a, Inserted(Listed(SECTION, 2024), (1, 1), (1, 2)),
                            Inserted(Listed(LATER, 2025), (1, 2), (1, 1))), ANY)
    ensures a.db == Holding(2, Some(LATER)) && a.txs == map[]
  {
    a := BothListed();
    var t, u := Listed(SECTION, 2024), Listed(LATER, 2025);
    Inserts(a.db, t, (1, 1), (1, 2));
    Inserts(a.db, u, (1, 2), (1, 1));
    var t', u' := Inserted(t, (1, 1), (1, 2)), Inserted(u, (1, 2), (1, 1));
    FirstGoes(a, t, t.(probe := Some((1, 1))), u);
    FirstGoes(a, t.(probe := Some((1, 1))), t', u);
    SecondGoes(a, t', u, u.(probe := Some((1, 2))));
    SecondGoes(a, t', u.(probe := Some((1, 2))), u');
  }

  const FIRST := Wanting(Listed(SECTION, 2024), (1, 1), (1, 2))
  const SECOND := Wanting(Listed(LATER, 2025), (1, 2), (1, 1))

  lemma EachWantsTheOther() returns (a: Sys)
    ensures Reached(Pair(a, FIRST, SECOND), ANY) && a.db == Holding(2, Some(LATER)) && a.txs == map[]
  {
    a := EachHasOne();
    var t, u := Listed(SECTION, 2024), Listed(LATER, 2025);
    Inserts(a.db, t, (1, 1), (1, 2));
    Inserts(a.db, u, (1, 2), (1, 1));
    FirstGoes(a, Inserted(t, (1, 1), (1, 2)), FIRST, Inserted(u, (1, 2), (1, 1)));
    SecondGoes(a, FIRST, Inserted(u, (1, 2), (1, 1)), SECOND);
  }

  /** Where everybody waits, nobody has a step of its own. */
  lemma StandsStill(a: Sys)
    requires forall i :: i in a.txs ==> !Free(a, i) && a.txs[i].pc != Committing
    ensures forall b, i :: !Deadlock.Proceeds(a, b, i)
  {
  }

  lemma PairWaits(a: Sys)
    requires a.txs == map[1 := FIRST, 2 := SECOND]
    ensures Deadlock.WaitPath(a, [1, 2, 1])
    ensures forall i :: i in a.txs ==> !Free(a, i) && a.txs[i].pc != Committing
  {
    assert Waits(FIRST, SECOND) && Waits(SECOND, FIRST);
    assert Deadlock.WaitsFor(a, 1, 2) && Deadlock.WaitsFor(a, 2, 1);
  }

  /** A reachable state, with every attached class of its section's year, in which
      two assignments wait for each other and none of them has a step of its own. */
  lemma AssignmentsDeadlock()
    ensures exists a ::
      && Reachable(a) && YearsRight(a.db) && a.txs.Keys == {1, 2}
      && Deadlock.WaitPath(a, [1, 2, 1])
      && forall b, i :: !Deadlock.Proceeds(a, b, i)
  {
    var base := EachWantsTheOther();
    var a := Pair(base, FIRST, SECOND);
    ReachedIsReachable(a, ANY);
    PairWaits(a);
    StandsStill(a);
  }
}
