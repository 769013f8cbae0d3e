/** The timetable services as they run. */
module TimetableService {
  import opened School
  import opened UnitOfWork
  import opened Timetable

  datatype Listing = Slots(slots: seq<Slot>) | Refused(error: Error)

  /** set.intersection(*candidates) */
  function Intersection(candidates: seq<set<Class>>): (common: set<Class>)
    requires candidates != []
    ensures forall c :: c in common <==> forall s :: s in candidates ==> c in s
  {
    if |candidates| == 1 then candidates[0]
    else
      var front := candidates[..|candidates| - 1];
      assert candidates == front + [candidates[|candidates| - 1]];
      Intersection(front) * candidates[|candidates| - 1]
  }

  predicate Meets(db: Db, c: Class, cls: Option<Class>, teacher: Option<Teacher>, section: Option<Section>) {
    && (cls.Some? ==> c in {cls.value})
    && (teacher.Some? ==> c in OwnedBy(db, teacher.value))
    && (section.Some? ==> c in AttachedTo(db, section.value))
  }

  lemma CommonIds(db: Db, candidates: seq<set<Class>>, cls: Option<Class>, teacher: Option<Teacher>,
                  section: Option<Section>)
    requires candidates != []
    requires cls.Some? ==> {cls.value} in candidates
    requires teacher.Some? ==> OwnedBy(db, teacher.value) in candidates
    requires section.Some? ==> AttachedTo(db, section.value) in candidates
    requires forall s :: s in candidates ==>
      || (cls.Some? && s == {cls.value})
      || (teacher.Some? && s == OwnedBy(db, teacher.value))
      || (section.Some? && s == AttachedTo(db, section.value))
    ensures forall c :: c in Intersection(candidates) <==> Meets(db, c, cls, teacher, section)
  {
  }

  class ScheduleSlotService {
    const session: Session<Db>

    constructor (session: Session<Db>)
      ensures this.session == session
    {
      this.session := session;
    }

    /** _check_conflicts: gather the other classes of the place, then compare. */
    method CheckConflicts(sl: Slot, row: ClassRow) returns (conflict: Option<Error>)
      requires session.Idle()
      ensures conflict == Conflict(session.working, row, Rivals(session.working, sl))
    {
      var db := session.working;
      var competing := InSomeOrder(set o | o in db.slots && o.day == sl.day && o.period == sl.period);
      ghost var rivals := Rivals(db, sl);
      if competing == [] {
        assert forall o :: o in db.slots && o.day == sl.day && o.period == sl.period ==> o in competing;
        return None;
      }
      var others: seq<Class> := [];
      for n := 0 to |competing|
        invariant forall o :: o in others ==> o in rivals && o in db.classes
        invariant forall m :: 0 <= m < n && competing[m].cls != sl.cls ==> competing[m].cls in others
      {
        if competing[n].cls != sl.cls {
          var other := competing[n].cls;
          assert competing[n] in competing;
          assert other in rivals;
          if other !in db.classes {
            return Some(ClassNotFound);
          }
          others := others + [other];
        }
      }
      forall o | o in rivals ensures o in others {
        var slot :|
          slot in db.slots && slot.day == sl.day && slot.period == sl.period && slot.cls != sl.cls && slot.cls == o;
        assert slot in competing;
        var m :| 0 <= m < |competing| && competing[m] == slot;
      }
      if exists o :: o in others && db.classes[o].teacher == row.teacher {
        return Some(TeacherDoubleBooked);
      }
      if row.room.Some? && exists o :: o in others && db.classes[o].room == row.room {
        return Some(RoomDoubleBooked);
      }
      if row.section.Some? && exists o :: o in others && db.classes[o].section == row.section {
        return Some(SectionDoubleBooked);
      }
      return None;
    }

    method Create(sl: Slot) returns (reply: Reply<Error>)
      requires session.Idle()
      modifies session
      ensures Answers(session, Book(old(session.committed), sl), reply)
    {
      if sl.cls !in session.working.classes {
        return Failed(ClassNotFound);
      }
      if sl.period !in session.working.periods {
        return Failed(PeriodNotFound);
      }
      if sl in session.working.slots {
        return Failed(SlotAlreadyScheduled);
      }
      var conflict := CheckConflicts(sl, session.working.classes[sl.cls]);
      if conflict.Some? {
        return Failed(conflict.value);
      }
      var ok := session.Flush(session.working.(slots := session.working.slots + {sl}));
      if ok {
        ok := session.Commit();
      }
      reply := if ok then Done else Unavailable;
    }

    method Delete(sl: Slot) returns (reply: Reply<Error>)
      requires session.Idle()
      modifies session
      ensures Answers(session, Unbook(old(session.committed), sl), reply)
    {
      if sl !in session.working.slots {
        return Failed(SlotNotFound);
      }
      var ok := session.Save(session.working.(slots := session.working.slots - {sl}));
      reply := if ok then Done else Unavailable;
    }

    /** _resolve_class_ids: None is "no class filter", an empty list is "filtered,
        and nothing matched". */
    method ResolveClassIds(cls: Option<Class>, teacher: Option<Teacher>, section: Option<Section>)
      returns (ids: Option<seq<Class>>)
      ensures ids.None? <==> cls.None? && teacher.None? && section.None?
      ensures ids.Some? ==> forall c :: c in ids.value <==> Meets(session.working, c, cls, teacher, section)
    {
      if cls.None? && teacher.None? && section.None? {
        return None;
      }
      var candidates: seq<set<Class>> := [];
      if cls.Some? {
        candidates := candidates + [{cls.value}];
      }
      if teacher.Some? {
        candidates := candidates + [OwnedBy(session.working, teacher.value)];
      }
      if section.Some? {
        candidates := candidates + [AttachedTo(session.working, section.value)];
      }
      CommonIds(session.working, candidates, cls, teacher, section);
      var resolved := Intersection(candidates);
      var list := InSomeOrder(resolved);
      ids := Some(list);
    }

    /** list_filtered: no ids given is no class condition, no ids left is no rows. */
    method ListFiltered(ids: Option<seq<Class>>, day: Option<Day>) returns (slots: seq<Slot>)
      ensures forall sl :: sl in slots <==>
        && sl in session.working.slots
        && (ids.Some? ==> sl.cls in ids.value)
        && (day.Some? ==> sl.day == day.value)
      ensures forall i, j :: 0 <= i < j < |slots| ==> slots[i] != slots[j]
    {
      if ids.Some? && ids.value == [] {
        return [];
      }
      var rows := set sl | sl in session.working.slots
                        && (ids.Some? ==> sl.cls in ids.value)
                        && (day.Some? ==> sl.day == day.value);
      slots := InSomeOrder(rows);
    }

    /** The list is exactly the selected slots, each once; a request without a
        class, teacher or section filter is refused, never an unfiltered scan. */
    method List(cls: Option<Class>, teacher: Option<Teacher>, section: Option<Section>, day: Option<Day>)
      returns (reply: Listing)
      ensures reply.Refused? <==> cls.None? && teacher.None? && section.None?
      ensures reply.Refused? ==> reply.error == FilterRequired
      ensures reply.Slots? ==>
        && (forall sl :: sl in reply.slots <==> Selected(session.working, sl, cls, teacher, section, day))
        && (forall i, j :: 0 <= i < j < |reply.slots| ==> reply.slots[i] != reply.slots[j])
    {
      if cls.None? && teacher.None? && section.None? {
        return Refused(FilterRequired);
      }
      var ids := ResolveClassIds(cls, teacher, section);
      var slots := ListFiltered(ids, day);
      reply := Slots(slots);
    }
  }

  class PeriodService {
    const session: Session<Db>

    constructor (session: Session<Db>)
      ensures this.session == session
    {
      this.session := session;
    }

    method Create(p: Period, row: PeriodRow) returns (reply: Reply<Error>)
      requires session.Idle() && p !in session.committed.periods
      modifies session
      ensures Answers(session, CreatePeriod(old(session.committed), p, row), reply)
    {
      if row.end <= row.start {
        return Failed(InvalidPeriodTimes);
      }
      if NameTaken(session.working, p, row.name) {
        return Failed(PeriodAlreadyExists);
      }
      if WouldOverlap(session.working, p, row) {
        return Failed(PeriodOverlaps);
      }
      var ok := session.Save(session.working.(periods := session.working.periods[p := row]));
      reply := if ok then Done else Unavailable;
    }

    method Update(p: Period, name: Option<string>, start: Option<int>, end: Option<int>) returns (reply: Reply<Error>)
      requires session.Idle()
      modifies session
      ensures Answers(session, UpdatePeriod(old(session.committed), p, name, start, end), reply)
    {
      if start.Some? && end.Some? && end.value <= start.value {
        return Failed(InvalidPeriodTimes);
      }
      if p !in session.working.periods {
        return Failed(PeriodNotFound);
      }
      var period := session.working.periods[p];
      if name.Some? && name.value != period.name && NameTaken(session.working, p, name.value) {
        return Failed(PeriodAlreadyExists);
      }
      var from := if start.Some? then start.value else period.start;
      var until := if end.Some? then end.value else period.end;
      if until <= from {
        return Failed(InvalidPeriodTimes);
      }
      if name.Some? {
        period := period.(name := name.value);
      }
      if start.Some? {
        period := period.(start := start.value);
      }
      if end.Some? {
        period := period.(end := end.value);
      }
      if WouldOverlap(session.working, p, period) {
        return Failed(PeriodOverlaps);
      }
      var ok := session.Save(session.working.(periods := session.working.periods[p := period]));
      reply := if ok then Done else Unavailable;
    }

    method Delete(p: Period) returns (reply: Reply<Error>)
      requires session.Idle()
      modifies session
      ensures Answers(session, DeletePeriod(old(session.committed), p), reply)
    {
      if p !in session.working.periods {
        return Failed(PeriodNotFound);
      }
      if exists sl :: sl in session.working.slots && sl.period == p {
        return Failed(PeriodInUse);
      }
      var ok := session.Save(session.working.(periods := session.working.periods - {p}));
      reply := if ok then Done else Unavailable;
    }
  }
}
