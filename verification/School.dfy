/** The rows of the school's store, shared by every service.

    A table is a map from its primary or unique key to the rest of the row, so
    a unique constraint is "the key is not there yet" at the moment of the
    insert.  Identifiers are opaque; they are numbered here. */
module School {
  type Student = nat
  type Section = nat
  type Class = nat
  type Year = nat
  type Term = nat
  type Teacher = nat
  type Period = nat

  datatype Option<+T> = None | Some(value: T)

  datatype Day = Monday | Tuesday | Wednesday | Thursday | Friday

  /** Key of an enrolment row: uq_enrollments_student_class. */
  type Key = (Student, Class)

  /** Key of a section assignment: uq_section_assignments_student_year. */
  type Seat = (Student, Year)

  datatype Status = Active | Dropped | Completed

  datatype SectionRow = SectionRow(year: Year, capacity: int)

  datatype ClassRow = ClassRow(
    term: Term, teacher: Teacher, room: Option<string>,
    section: Option<Section>, capacity: int)

  /** Times of day are minutes; a period covers start <= minute < end. */
  datatype PeriodRow = PeriodRow(name: string, start: int, end: int)

  datatype Slot = Slot(cls: Class, day: Day, period: Period)

  datatype Db = Db(
    students: set<Student>,
    terms: map<Term, Year>,
    sections: map<Section, SectionRow>,
    classes: map<Class, ClassRow>,
    roster: map<Seat, Section>,
    enrol: map<Key, Status>,
    periods: map<Period, PeriodRow>,
    slots: set<Slot>)

  datatype Role = SuperAdmin | Admin | TeacherRole | StudentRole

  /** The user behind a request, with the teacher and student records linked to
      the account, if any. */
  datatype Caller = Caller(role: Role, teacher: Option<Teacher>, student: Option<Student>)

  const EMPTY := Db({}, map[], map[], map[], map[], map[], map[], {})

  /** The assignments of one section (list_by_section_id of the assignments). */
  function RosterRows(db: Db, s: Section): set<Seat> {
    set k | k in db.roster && db.roster[k] == s
  }

  /** The classes taught to one section (list_by_section_id of the classes). */
  function AttachedTo(db: Db, s: Section): set<Class> {
    set c | c in db.classes && db.classes[c].section == Some(s)
  }

  /** The classes of one teacher (list_by_teacher_id). */
  function OwnedBy(db: Db, teacher: Teacher): set<Class> {
    set c | c in db.classes && db.classes[c].teacher == teacher
  }

  /** The other classes already timetabled in the slot's (day, period). */
  function Rivals(db: Db, sl: Slot): set<Class> {
    set o | o in db.slots && o.day == sl.day && o.period == sl.period && o.cls != sl.cls :: o.cls
  }

  function ActiveRows(db: Db, c: Class): set<Key> {
    set k | k in db.enrol && k.1 == c && db.enrol[k] == Active
  }

  predicate OnRoster(db: Db, x: Student, s: Section) {
    exists k :: k in db.roster && db.roster[k] == s && k.0 == x
  }

  /** Inserting enrolment rows: every new row starts ACTIVE. */
  function AddRows(enrol: map<Key, Status>, keys: set<Key>): map<Key, Status> {
    enrol + map k | k in keys :: Active
  }

  /** Two half-open ranges share a minute (the && of tsrange). */
  predicate Overlap(p: PeriodRow, q: PeriodRow) {
    p.start < q.end && q.start < p.end
  }

  /** ck_periods_end_after_start and ex_periods_no_overlap. */
  predicate PeriodsDisjoint(periods: map<Period, PeriodRow>) {
    && (forall p :: p in periods ==> periods[p].start < periods[p].end)
    && (forall p, q :: p in periods && q in periods && p != q ==> !Overlap(periods[p], periods[q]))
  }

  /** Two classes contend for a teacher, a named room or a section. */
  predicate Clash(a: ClassRow, b: ClassRow) {
    || a.teacher == b.teacher
    || (a.room.Some? && a.room == b.room)
    || (a.section.Some? && a.section == b.section)
  }

  /** An attached class keeps its term. */
  predicate MayTake(row: ClassRow, term: Term) {
    row.section.Some? ==> term == row.term
  }

  /** Every attached class is of its section's year. */
  ghost predicate YearsRight(db: Db) {
    forall c :: c in db.classes && db.classes[c].section.Some? && db.classes[c].section.value in db.sections ==>
      InYear(db, c, db.sections[db.classes[c].section.value].year)
  }

  /** The academic year of a class, reached through its term. */
  predicate InYear(db: Db, c: Class, y: Year) {
    c in db.classes && db.classes[c].term in db.terms && db.terms[db.classes[c].term] == y
  }
}
