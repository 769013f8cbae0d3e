/** One request at a time: what each operation of the sections, enrolments and
    classes services makes of the store, and whole runs of them. */
module Requests {
  import opened School
  import opened UnitOfWork

  datatype Error =
    | StudentNotFound | SectionNotFound | ClassNotFound | TermNotFound
    | StudentAlreadyAssigned | SectionFull | AssignmentNotFound | SeveralAssignments
    | ClassAlreadyAttached | ClassYearMismatch | ClassNotAttached | ClassAttachedToSection
    | NotYourClass | EnrolmentAlreadyExists | ClassFull | EnrolmentNotFound | EnrolmentNotActive
    | IdTaken | InvalidCapacity

  type Result = Outcome<Db, Error>

  /** The fan-out: a row for every key that has none. */
  function EnrolMissing(db: Db, keys: set<Key>): Db {
    db.(enrol := AddRows(db.enrol, keys - db.enrol.Keys))
  }

  function ClassKeys(db: Db, x: Student, s: Section): set<Key> {
    set c | c in AttachedTo(db, s) :: (x, c)
  }

  function RosterKeys(db: Db, s: Section, c: Class): set<Key> {
    set k | k in RosterRows(db, s) :: (k.0, c)
  }

  /** The student's row on the roster, with the year copied from the section. */
  function Seated(db: Db, x: Student, s: Section): Db
    requires s in db.sections
  {
    db.(roster := db.roster[(x, db.sections[s].year) := s])
  }

  function Linked(db: Db, s: Section, c: Class): Db
    requires c in db.classes
  {
    db.(classes := db.classes[c := db.classes[c].(section := Some(s))])
  }

  // ---- SectionAssignmentService ------------------------------------------------

  function Assign(db: Db, x: Student, s: Section): Result {
    if x !in db.students then Err(StudentNotFound)
    else if s !in db.sections then Err(SectionNotFound)
    else if (x, db.sections[s].year) in db.roster then Err(StudentAlreadyAssigned)
    else if |RosterRows(db, s)| >= db.sections[s].capacity then Err(SectionFull)
    else Ok(EnrolMissing(Seated(db, x, s), ClassKeys(db, x, s)))
  }

  /** The rows of one student in one section; at most one in a sound store. */
  function SeatsIn(db: Db, x: Student, s: Section): set<Seat> {
    set k | k in db.roster && db.roster[k] == s && k.0 == x
  }

  function Unassign(db: Db, x: Student, s: Section): Result {
    if SeatsIn(db, x, s) == {} then Err(AssignmentNotFound)
    else if |SeatsIn(db, x, s)| > 1 then Err(SeveralAssignments)
    else Ok(db.(roster := db.roster - SeatsIn(db, x, s)))
  }

  // ---- SectionService ------------------------------------------------------------

  function Attach(db: Db, s: Section, c: Class): Result {
    if s !in db.sections then Err(SectionNotFound)
    else if c !in db.classes then Err(ClassNotFound)
    else if db.classes[c].section.Some? && db.classes[c].section != Some(s) then Err(ClassAlreadyAttached)
    else if db.classes[c].term !in db.terms then Err(TermNotFound)
    else if db.terms[db.classes[c].term] != db.sections[s].year then Err(ClassYearMismatch)
    else Ok(EnrolMissing(Linked(db, s, c), RosterKeys(db, s, c)))
  }

  function Detach(db: Db, s: Section, c: Class): Result {
    if s !in db.sections then Err(SectionNotFound)
    else if c !in db.classes then Err(ClassNotFound)
    else if db.classes[c].section != Some(s) then Err(ClassNotAttached)
    else Ok(db.(classes := db.classes[c := db.classes[c].(section := None)]))
  }

  function SetSectionCapacity(db: Db, s: Section, n: int): Result {
    if n <= 0 then Err(InvalidCapacity)
    else if s !in db.sections then Err(SectionNotFound)
    else Ok(db.(sections := db.sections[s := db.sections[s].(capacity := n)]))
  }

  // ---- EnrollmentService -----------------------------------------------------------

  predicate OwnsClass(caller: Caller, row: ClassRow) {
    caller.role == TeacherRole ==> caller.teacher == Some(row.teacher)
  }

  function Enroll(db: Db, caller: Caller, x: Student, c: Class): Result {
    if x !in db.students then Err(StudentNotFound)
    else if c !in db.classes then Err(ClassNotFound)
    else if !OwnsClass(caller, db.classes[c]) then Err(NotYourClass)
    else if (x, c) in db.enrol then Err(EnrolmentAlreadyExists)
    else if |ActiveRows(db, c)| >= db.classes[c].capacity then Err(ClassFull)
    else Ok(db.(enrol := db.enrol[(x, c) := Active]))
  }

  /** EnrollmentService.get: None when the caller may see the row. */
  function GetError(db: Db, caller: Caller, k: Key): Option<Error> {
    if caller.role == StudentRole then
      if k in db.enrol && caller.student == Some(k.0) then None else Some(EnrolmentNotFound)
    else if k !in db.enrol then Some(EnrolmentNotFound)
    else if caller.role == TeacherRole && (k.1 !in db.classes || !OwnsClass(caller, db.classes[k.1]))
    then Some(NotYourClass)
    else None
  }

  function Drop(db: Db, caller: Caller, k: Key): Result {
    if GetError(db, caller, k).Some? then Err(GetError(db, caller, k).value)
    else if k !in db.enrol || db.enrol[k] != Active then Err(EnrolmentNotActive)
    else Ok(db.(enrol := db.enrol[k := Dropped]))
  }

  // ---- ClassService ------------------------------------------------------------------

  /** The fields a PATCH may carry; None leaves a field as it is. */
  datatype Patch = Patch(
    term: Option<Term>, teacher: Option<Teacher>, room: Option<Option<string>>, capacity: Option<int>)

  function Patched(row: ClassRow, p: Patch): ClassRow {
    row.(term := if p.term.Some? then p.term.value else row.term,
         teacher := if p.teacher.Some? then p.teacher.value else row.teacher,
         room := if p.room.Some? then p.room.value else row.room,
         capacity := if p.capacity.Some? then p.capacity.value else row.capacity)
  }

  function UpdateClass(db: Db, c: Class, p: Patch): Result {
    if p.capacity.Some? && p.capacity.value <= 0 then Err(InvalidCapacity)
    else if c !in db.classes then Err(ClassNotFound)
    else if p.term.Some? && p.term.value !in db.terms then Err(TermNotFound)
    else if p.term.Some? && !MayTake(db.classes[c], p.term.value)
    then Err(ClassAttachedToSection)
    else Ok(db.(classes := db.classes[c := Patched(db.classes[c], p)]))
  }

  // ---- runs -----------------------------------------------------------------------------

  datatype Request =
    | AddStudent(x: Student)
    | AddTerm(term: Term, year: Year)
    | AddSection(s: Section, srow: SectionRow)
    | AddClass(c: Class, crow: ClassRow)
    | AssignR(x: Student, s: Section)
    | UnassignR(x: Student, s: Section)
    | AttachR(s: Section, c: Class)
    | DetachR(s: Section, c: Class)
    | CapacityR(s: Section, n: int)
    | EnrollR(caller: Caller, x: Student, c: Class)
    | DropR(caller: Caller, k: Key)
    | UpdateR(c: Class, patch: Patch)

  function Serve(db: Db, r: Request): Result {
    match r
    case AddStudent(x) => if x in db.students then Err(IdTaken) else Ok(db.(students := db.students + {x}))
    case AddTerm(m, y) => if m in db.terms then Err(IdTaken) else Ok(db.(terms := db.terms[m := y]))
    case AddSection(s, row) =>
      if row.capacity <= 0 then Err(InvalidCapacity)
      else if s in db.sections then Err(IdTaken) else Ok(db.(sections := db.sections[s := row]))
    case AddClass(c, row) =>
      if row.capacity <= 0 then Err(InvalidCapacity)
      else if row.term !in db.terms then Err(TermNotFound)
      else if c in db.classes then Err(IdTaken)
      else Ok(db.(classes := db.classes[c := row.(section := None)]))
    case AssignR(x, s) => Assign(db, x, s)
    case UnassignR(x, s) => Unassign(db, x, s)
    case AttachR(s, c) => Attach(db, s, c)
    case DetachR(s, c) => Detach(db, s, c)
    case CapacityR(s, n) => SetSectionCapacity(db, s, n)
    case EnrollR(caller, x, c) => Enroll(db, caller, x, c)
    case DropR(caller, k) => Drop(db, caller, k)
    case UpdateR(c, p) => UpdateClass(db, c, p)
  }

  /** A request that fails leaves the store as it was. */
  function Settle(db: Db, r: Result): Db {
    if r.Ok? then r.db else db
  }

  function After(db: Db, r: Request): Db {
    Settle(db, Serve(db, r))
  }

  function Run(reqs: seq<Request>): Db {
    if reqs == [] then EMPTY else After(Run(reqs[..|reqs| - 1]), reqs[|reqs| - 1])
  }
}
