/** What one timetable request may and may not do: when it is refused and why, and
    which slots and periods it changes. */
module TimetableLaws {
  import opened School
  import opened Timetable
  import DoubleBooking

  /** A class already in the slot's (day, period) that is not the slot's own. */
  predicate Rivalling(db: Db, sl: Slot, o: Slot) {
    o in db.slots && DoubleBooking.Competing(sl, o)
  }

  /** e is a true reason against the request. */
  ghost predicate Reason(db: Db, r: Request, e: Error) {
    match r
    case BookR(sl) =>
      || (e.ClassNotFound? && (sl.cls !in db.classes || exists o :: Rivalling(db, sl, o) && o.cls !in db.classes))
      || (e.PeriodNotFound? && sl.period !in db.periods)
      || (e.SlotAlreadyScheduled? && sl in db.slots)
      || (sl.cls in db.classes && exists o ::
            Rivalling(db, sl, o) && o.cls in db.classes && Contends(db.classes[sl.cls], db.classes[o.cls], e))
    case UnbookR(sl) => e.SlotNotFound? && sl !in db.slots
    case CreateR(p, row) =>
      || (e.InvalidPeriodTimes? && row.end <= row.start)
      || (e.PeriodAlreadyExists? && exists q :: q in db.periods && db.periods[q].name == row.name)
      || (e.PeriodOverlaps? && exists q :: q in db.periods && Overlap(row, db.periods[q]))
    case UpdateR(p, name, start, end) =>
      || (e.InvalidPeriodTimes? && start.Some? && end.Some? && end.value <= start.value)
      || (e.PeriodNotFound? && p !in db.periods)
      || (p in db.periods && e.InvalidPeriodTimes?
          && Wanted(db.periods[p].end, end) <= Wanted(db.periods[p].start, start))
      || (p in db.periods && e.PeriodAlreadyExists? && name.Some? && name.value != db.periods[p].name
          && (exists q :: q in db.periods && q != p && db.periods[q].name == name.value))
      || (p in db.periods && e.PeriodOverlaps?
          && (exists q :: q in db.periods && q != p
                && Wanted(db.periods[p].start, start) < db.periods[q].end
                && db.periods[q].start < Wanted(db.periods[p].end, end)))
    case DeleteR(p) =>
      || (e.PeriodNotFound? && p !in db.periods)
      || (e.PeriodInUse? && exists sl :: sl in db.slots && sl.period == p)
  }

  function Wanted<T>(stored: T, given: Option<T>): T {
    if given.Some? then given.value else stored
  }

  /** The two classes want the same teacher, named room or section. */
  predicate Contends(row: ClassRow, other: ClassRow, e: Error) {
    || (e.TeacherDoubleBooked? && other.teacher == row.teacher)
    || (e.RoomDoubleBooked? && row.room.Some? && other.room == row.room)
    || (e.SectionDoubleBooked? && row.section.Some? && other.section == row.section)
  }

  /** The order of the checks: times given together before anything else, then
      what is missing, then what is taken; teacher before room before section. */
  function Urgency(r: Request, e: Error): nat {
    match e
    case InvalidPeriodTimes => if r.CreateR? || (r.UpdateR? && r.start.Some? && r.end.Some?) then 0 else 5
    case ClassNotFound => 1
    case PeriodNotFound => 2
    case SlotNotFound => 3
    case SlotAlreadyScheduled => 3
    case PeriodAlreadyExists => 4
    case PeriodOverlaps => 6
    case PeriodInUse => 6
    case TeacherDoubleBooked => 7
    case RoomDoubleBooked => 8
    case SectionDoubleBooked => 9
    case FilterRequired => 10
  }

  lemma RivalsAre(db: Db, sl: Slot)
    ensures forall c :: c in Rivals(db, sl) <==> exists o :: Rivalling(db, sl, o) && o.cls == c
  {
    forall c ensures c in Rivals(db, sl) <==> exists o :: Rivalling(db, sl, o) && o.cls == c {
      if c in Rivals(db, sl) {
        var o :| o in db.slots && o.day == sl.day && o.period == sl.period && o.cls != sl.cls && o.cls == c;
        assert Rivalling(db, sl, o);
      }
    }
  }

  lemma RefusalIsTrue(db: Db, r: Request)
    requires IsRequest(db, r) && Serve(db, r).Err?
    ensures Reason(db, r, Serve(db, r).error)
  {
    if r.BookR? {
      RivalsAre(db, r.sl);
    }
  }

  lemma AcceptedWithoutReason(db: Db, r: Request, e: Error)
    requires IsRequest(db, r) && Serve(db, r).Ok?
    ensures !Reason(db, r, e)
  {
    if r.BookR? {
      RivalsAre(db, r.sl);
    }
  }

  lemma RefusalIsFirst(db: Db, r: Request, e: Error)
    requires IsRequest(db, r) && Serve(db, r).Err? && Reason(db, r, e)
    requires forall sl :: sl in db.slots ==> sl.cls in db.classes
    ensures Urgency(r, Serve(db, r).error) <= Urgency(r, e)
  {
    if r.BookR? {
      RivalsAre(db, r.sl);
    }
  }

  /** A request is refused exactly when there is a reason against it, with a true
      one, and with the first where every slot is of an existing class. */
  lemma RefusedIff(db: Db, r: Request)
    requires IsRequest(db, r)
    ensures Serve(db, r).Ok? <==> forall e :: !Reason(db, r, e)
    ensures Serve(db, r).Err? ==> Reason(db, r, Serve(db, r).error)
    ensures Serve(db, r).Err? && (forall sl :: sl in db.slots ==> sl.cls in db.classes) ==>
      forall e :: Reason(db, r, e) ==> Urgency(r, Serve(db, r).error) <= Urgency(r, e)
  {
    if Serve(db, r).Err? {
      RefusalIsTrue(db, r);
      if forall sl :: sl in db.slots ==> sl.cls in db.classes {
        forall e | Reason(db, r, e) ensures Urgency(r, Serve(db, r).error) <= Urgency(r, e) {
          RefusalIsFirst(db, r, e);
        }
      }
    } else {
      forall e ensures !Reason(db, r, e) {
        AcceptedWithoutReason(db, r, e);
      }
    }
  }

  predicate Accepted(db: Db, r: Request)
    requires IsRequest(db, r)
  {
    Serve(db, r).Ok?
  }

  /** A slot comes only by being created and goes only by being deleted. */
  lemma SlotChanges(db: Db, r: Request, sl: Slot)
    requires IsRequest(db, r)
    ensures
      var db' := After(db, r);
      && (sl in db.slots && sl !in db'.slots <==> Accepted(db, r) && r == UnbookR(sl))
      && (sl !in db.slots && sl in db'.slots <==> Accepted(db, r) && r == BookR(sl))
  {
  }

  /** A period is stored as asked for, keeps what an update does not give, and goes
      only by being deleted. */
  lemma PeriodChanges(db: Db, r: Request, p: Period)
    requires IsRequest(db, r)
    ensures
      var db' := After(db, r);
      && (p in db.periods && p !in db'.periods <==> Accepted(db, r) && r == DeleteR(p))
      && (p !in db.periods && p in db'.periods <==> Accepted(db, r) && r.CreateR? && r.p == p)
      && (p !in db.periods && p in db'.periods ==> db'.periods[p] == r.row)
      && (p in db.periods && p in db'.periods ==>
            var row, row' := db.periods[p], db'.periods[p];
            if Accepted(db, r) && r.UpdateR? && r.p == p
            then row' == PeriodRow(Wanted(row.name, r.name), Wanted(row.start, r.start), Wanted(row.end, r.end))
            else row' == row)
  {
  }

  lemma OtherChanges(db: Db, r: Request)
    requires IsRequest(db, r)
    ensures
      var db' := After(db, r);
      db' == db.(slots := db'.slots, periods := db'.periods)
  {
  }
}
