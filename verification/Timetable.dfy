/** The timetable as request functions: what a booking needs to succeed, what a
    period change is checked for, which slots a filter selects. */
module Timetable {
  import opened School
  import opened UnitOfWork
  import DoubleBooking

  datatype Error =
    | ClassNotFound | PeriodNotFound | SlotAlreadyScheduled | SlotNotFound
    | TeacherDoubleBooked | RoomDoubleBooked | SectionDoubleBooked
    | PeriodAlreadyExists | PeriodOverlaps | InvalidPeriodTimes | PeriodInUse
    | FilterRequired

  type Result = Outcome<Db, Error>

  // ---- bookings ------------------------------------------------------------------

  /** Teacher before room before section, so the error is deterministic. */
  function Conflict(db: Db, row: ClassRow, rivals: set<Class>): Option<Error> {
    if exists o :: o in rivals && o !in db.classes then Some(ClassNotFound)
    else if exists o :: o in rivals && db.classes[o].teacher == row.teacher then Some(TeacherDoubleBooked)
    else if row.room.Some? && exists o :: o in rivals && db.classes[o].room == row.room then Some(RoomDoubleBooked)
    else if row.section.Some? && exists o :: o in rivals && db.classes[o].section == row.section
    then Some(SectionDoubleBooked)
    else None
  }

  function Book(db: Db, sl: Slot): Result {
    if sl.cls !in db.classes then Err(ClassNotFound)
    else if sl.period !in db.periods then Err(PeriodNotFound)
    else if sl in db.slots then Err(SlotAlreadyScheduled)
    else if Conflict(db, db.classes[sl.cls], Rivals(db, sl)).Some? then
      Err(Conflict(db, db.classes[sl.cls], Rivals(db, sl)).value)
    else Ok(db.(slots := db.slots + {sl}))
  }

  function Unbook(db: Db, sl: Slot): Result {
    if sl !in db.slots then Err(SlotNotFound) else Ok(db.(slots := db.slots - {sl}))
  }

  /** Said without the errors: a booking succeeds exactly when the place is free
      and no class already there shares a teacher, a named room or a section. */
  lemma BookSucceedsIff(db: Db, sl: Slot)
    ensures Book(db, sl).Ok? <==>
      && sl.cls in db.classes && sl.period in db.periods && sl !in db.slots
      && forall o :: o in db.slots && DoubleBooking.Competing(sl, o) ==>
           o.cls in db.classes && !Clash(db.classes[sl.cls], db.classes[o.cls])
  {
    forall o | o in db.slots && DoubleBooking.Competing(sl, o) ensures o.cls in Rivals(db, sl) {}
    if Book(db, sl).Ok? {
      forall o | o in db.slots && DoubleBooking.Competing(sl, o)
        ensures o.cls in db.classes && !Clash(db.classes[sl.cls], db.classes[o.cls])
      {
        assert o.cls in Rivals(db, sl);
      }
    }
  }

  /** One request after another, the clock rule is kept. */
  lemma BookKeepsClockRule(db: Db, sl: Slot)
    requires DoubleBooking.SlotsOk(db) && DoubleBooking.NoClashOnTheClock(db) && Book(db, sl).Ok?
    ensures
      var db' := Book(db, sl).db;
      DoubleBooking.SlotsOk(db') && DoubleBooking.NoClashOnTheClock(db')
  {
    DoubleBooking.IdChecksAreClockChecks(db);
    BookSucceedsIff(db, sl);
    DoubleBooking.IdChecksAreClockChecks(Book(db, sl).db);
  }

  // ---- periods -------------------------------------------------------------------

  predicate NameTaken(db: Db, p: Period, name: string) {
    exists q :: q in db.periods && q != p && db.periods[q].name == name
  }

  /** ex_periods_no_overlap would refuse this row. */
  predicate WouldOverlap(db: Db, p: Period, row: PeriodRow) {
    exists q :: q in db.periods && q != p && Overlap(row, db.periods[q])
  }

  function CreatePeriod(db: Db, p: Period, row: PeriodRow): Result
    requires p !in db.periods   // a generated key
  {
    if row.end <= row.start then Err(InvalidPeriodTimes)
    else if NameTaken(db, p, row.name) then Err(PeriodAlreadyExists)
    else if WouldOverlap(db, p, row) then Err(PeriodOverlaps)
    else Ok(db.(periods := db.periods[p := row]))
  }

  /** The stored row with the fields a PATCH carries. */
  function Retimed(row: PeriodRow, name: Option<string>, start: Option<int>, end: Option<int>): PeriodRow {
    PeriodRow(if name.Some? then name.value else row.name,
              if start.Some? then start.value else row.start,
              if end.Some? then end.value else row.end)
  }

  /** Times given together are checked before anything is read, a single one
      against the stored row and after the name. */
  function UpdatePeriod(db: Db, p: Period, name: Option<string>, start: Option<int>, end: Option<int>): Result {
    if start.Some? && end.Some? && end.value <= start.value then Err(InvalidPeriodTimes)
    else if p !in db.periods then Err(PeriodNotFound)
    else
      var row := Retimed(db.periods[p], name, start, end);
      if name.Some? && name.value != db.periods[p].name && NameTaken(db, p, name.value) then Err(PeriodAlreadyExists)
      else if row.end <= row.start then Err(InvalidPeriodTimes)
      else if WouldOverlap(db, p, row) then Err(PeriodOverlaps)
      else Ok(db.(periods := db.periods[p := row]))
  }

  function DeletePeriod(db: Db, p: Period): Result {
    if p !in db.periods then Err(PeriodNotFound)
    else if exists sl :: sl in db.slots && sl.period == p then Err(PeriodInUse)
    else Ok(db.(periods := db.periods - {p}))
  }

  // ---- requests ------------------------------------------------------------------

  datatype Request =
    | BookR(sl: Slot)
    | UnbookR(sl: Slot)
    | CreateR(p: Period, row: PeriodRow)
    | UpdateR(p: Period, name: Option<string>, start: Option<int>, end: Option<int>)
    | DeleteR(p: Period)

  /** A generated key is never one in use, so such a creation is no request. */
  predicate IsRequest(db: Db, r: Request) {
    r.CreateR? ==> r.p !in db.periods
  }

  function Serve(db: Db, r: Request): Result
    requires IsRequest(db, r)
  {
    match r
    case BookR(sl) => Book(db, sl)
    case UnbookR(sl) => Unbook(db, sl)
    case CreateR(p, row) => CreatePeriod(db, p, row)
    case UpdateR(p, name, start, end) => UpdatePeriod(db, p, name, start, end)
    case DeleteR(p) => DeletePeriod(db, p)
  }

  function After(db: Db, r: Request): Db
    requires IsRequest(db, r)
  {
    if Serve(db, r).Ok? then Serve(db, r).db else db
  }

  lemma NewTimesKeepClockRule(db: Db, p: Period, row: PeriodRow)
    requires DoubleBooking.SlotsOk(db) && DoubleBooking.NoClashOnTheClock(db)
    requires row.start < row.end && !WouldOverlap(db, p, row)
    ensures
      var db' := db.(periods := db.periods[p := row]);
      DoubleBooking.SlotsOk(db') && DoubleBooking.NoClashOnTheClock(db')
  {
    var db' := db.(periods := db.periods[p := row]);
    assert DoubleBooking.SlotsOk(db');
    DoubleBooking.IdChecksAreClockChecks(db);
    assert DoubleBooking.NoDoubleBooking(db');
    DoubleBooking.IdChecksAreClockChecks(db');
  }

  lemma CreateKeepsClockRule(db: Db, p: Period, row: PeriodRow)
    requires DoubleBooking.SlotsOk(db) && DoubleBooking.NoClashOnTheClock(db)
    requires p !in db.periods && CreatePeriod(db, p, row).Ok?
    ensures
      var db' := CreatePeriod(db, p, row).db;
      DoubleBooking.SlotsOk(db') && DoubleBooking.NoClashOnTheClock(db')
  {
    NewTimesKeepClockRule(db, p, row);
  }

  /** A retimed period takes its slots with it and still meets nobody. */
  lemma RetimeKeepsClockRule(db: Db, p: Period, name: Option<string>, start: Option<int>, end: Option<int>)
    requires DoubleBooking.SlotsOk(db) && DoubleBooking.NoClashOnTheClock(db)
    requires UpdatePeriod(db, p, name, start, end).Ok?
    ensures
      var db' := UpdatePeriod(db, p, name, start, end).db;
      DoubleBooking.SlotsOk(db') && DoubleBooking.NoClashOnTheClock(db')
  {
    NewTimesKeepClockRule(db, p, Retimed(db.periods[p], name, start, end));
  }

  lemma DeleteKeepsClockRule(db: Db, p: Period)
    requires DoubleBooking.SlotsOk(db) && DoubleBooking.NoClashOnTheClock(db)
    requires DeletePeriod(db, p).Ok?
    ensures
      var db' := DeletePeriod(db, p).db;
      DoubleBooking.SlotsOk(db') && DoubleBooking.NoClashOnTheClock(db')
  {
  }

  // ---- the filtered timetable ------------------------------------------------------

  /** The slots a caller asks for: of a class that meets every given filter, on
      the given day. */
  predicate Selected(db: Db, sl: Slot, cls: Option<Class>, teacher: Option<Teacher>, section: Option<Section>,
                     day: Option<Day>) {
    && sl in db.slots
    && (cls.Some? ==> sl.cls == cls.value)
    && (teacher.Some? ==> sl.cls in db.classes && db.classes[sl.cls].teacher == teacher.value)
    && (section.Some? ==> sl.cls in db.classes && db.classes[sl.cls].section == Some(section.value))
    && (day.Some? ==> sl.day == day.value)
  }
}
