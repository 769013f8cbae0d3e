/** Several requests interleaving on the shared store.

    A transaction runs one statement at a time.  It reads committed rows (READ
    COMMITTED), keeps its own inserts staged until it commits, and holds every
    row lock it takes until it commits or aborts.  A statement that needs a
    locked row, or that inserts a unique key another open transaction has
    already inserted, waits for that transaction. */
module Interleaving {
  import opened School

  type Tid = nat

  datatype Op =
    | Assign(x: Student, s: Section)
    | Attach(s: Section, c: Class)
    | Detach(s: Section, c: Class)
    | Enroll(x: Student, c: Class)
    | Book(c: Class, day: Day, p: Period)
    | SetTerm(c: Class, term: Term)

  /** The statement a transaction runs next. */
  datatype Pc =
    | Find | WantSection | CheckYear | CountRoster | InsertSeat | ListClasses
    | WantClass | CheckClass | ListRoster
    | CheckDuplicate | CountActive | InsertEnrolment
    | WantPeriod | CheckSlot | ListRivals | ReadRivals | InsertSlot
    | FanOut | Committing

  /** section and cls are the rows as the locking reads returned them, for SetTerm
      cls is the row as it was read without a lock; todo,
      probe and staged belong to the fan-out loop: keys still to visit, the key
      just found missing, the keys inserted but not committed.  rivals are the
      classes a slot creation has still to read, seen the rows it has read. */
  datatype Tx = Tx(
    op: Op, pc: Pc, section: SectionRow, cls: ClassRow,
    todo: set<Key>, probe: Option<Key>, staged: set<Key>,
    rivals: set<Class>, seen: map<Class, ClassRow>)

  /** peakSection and peakClass record the largest capacity held so far, fanned
      the enrolment keys that a fan-out inserted. */
  datatype Sys = Sys(
    db: Db, txs: map<Tid, Tx>,
    peakSection: map<Section, int>, peakClass: map<Class, int>, fanned: set<Key>)

  function Start(op: Op): Tx {
    Tx(op, if op.Attach? then WantSection else if op.Book? then WantClass else Find,
       SectionRow(0, 0), ClassRow(0, 0, None, None, 0), {}, None, {}, {}, map[])
  }

  // ---- locks and staged keys -------------------------------------------

  function SectionLock(t: Tx): Option<Section> {
    if (t.op.Assign? || t.op.Attach?) && t.pc != Find && t.pc != WantSection then Some(t.op.s) else None
  }

  function ClassLock(t: Tx): Option<Class> {
    if !t.op.Assign? && t.pc != Find && t.pc != WantSection && t.pc != WantClass then Some(t.op.c) else None
  }

  function PeriodLock(t: Tx): Option<Period> {
    if t.op.Book? && t.pc != Find && t.pc != WantClass && t.pc != WantPeriod then Some(t.op.p) else None
  }

  /** The section assignment a transaction has inserted but not committed. */
  function StagedSeat(t: Tx): Option<Seat> {
    if t.op.Assign? && (t.pc == ListClasses || t.pc == FanOut || t.pc == Committing)
    then Some((t.op.x, t.section.year)) else None
  }

  function SlotOf(t: Tx): Slot
    requires t.op.Book?
  {
    Slot(t.op.c, t.op.day, t.op.p)
  }

  /** The next statement of t waits for u to finish. */
  predicate Waits(t: Tx, u: Tx) {
    match t.pc
    case WantSection => (t.op.Assign? || t.op.Attach?) && SectionLock(u) == Some(t.op.s)
    case WantClass => !t.op.Assign? && ClassLock(u) == Some(t.op.c)
    case WantPeriod => t.op.Book? && PeriodLock(u) == Some(t.op.p)
    case InsertSeat => t.op.Assign? && StagedSeat(u) == Some((t.op.x, t.section.year))
    case InsertEnrolment => t.op.Enroll? && (t.op.x, t.op.c) in u.staged
    case FanOut => t.probe.Some? && t.probe.value in u.staged
    case InsertSlot => t.op.Book? && u.op.Book? && u.pc == Committing && SlotOf(u) == SlotOf(t)
    case _ => false
  }

  // ---- one statement ----------------------------------------------------

  /** t runs its next statement against the committed rows and becomes t'.
      No t' exists when a check of the service fails; then t aborts. */
  predicate Moves(db: Db, t: Tx, t': Tx) {
    match t.pc
    case Find =>
      if t.op.Detach? then t.op.s in db.sections && t' == t.(pc := WantClass)
      else if t.op.SetTerm? then
        && t.op.c in db.classes && t.op.term in db.terms && MayTake(db.classes[t.op.c], t.op.term)
        && t' == t.(pc := WantClass, cls := db.classes[t.op.c])
      else (t.op.Assign? || t.op.Enroll?) && t.op.x in db.students
           && t' == t.(pc := if t.op.Assign? then WantSection else WantClass)
    case WantSection =>
      && (t.op.Assign? || t.op.Attach?) && t.op.s in db.sections
      && t' == t.(pc := if t.op.Assign? then CheckYear else WantClass, section := db.sections[t.op.s])
    case CheckYear =>
      t.op.Assign? && (t.op.x, t.section.year) !in db.roster && t' == t.(pc := CountRoster)
    case CountRoster =>
      t.op.Assign? && |RosterRows(db, t.op.s)| < t.section.capacity && t' == t.(pc := InsertSeat)
    case InsertSeat =>
      t.op.Assign? && (t.op.x, t.section.year) !in db.roster && t' == t.(pc := ListClasses)
    case ListClasses =>
      t.op.Assign? && t' == t.(pc := FanOut, todo := set c | c in AttachedTo(db, t.op.s) :: (t.op.x, c))
    case WantClass =>
      && !t.op.Assign? && t.op.c in db.classes
      && t' == if t.op.SetTerm? then t.(pc := Committing) else t.(cls := db.classes[t.op.c],
                  pc := if t.op.Enroll? then CheckDuplicate else if t.op.Book? then WantPeriod else CheckClass)
    case CheckClass =>
      if t.op.Attach? then
        && (t.cls.section == None || t.cls.section == Some(t.op.s))
        && t.cls.term in db.terms && db.terms[t.cls.term] == t.section.year
        && t' == t.(pc := ListRoster)
      else
        t.op.Detach? && t.cls.section == Some(t.op.s) && t' == t.(pc := Committing)
    case ListRoster =>
      t.op.Attach? && t' == t.(pc := FanOut, todo := set k | k in RosterRows(db, t.op.s) :: (k.0, t.op.c))
    case FanOut =>
      if t.probe.None? then
        || (t.todo == {} && t' == t.(pc := Committing))
        || (exists k :: k in t.todo && t' == Visit(db, t, k))
      else
        && t.probe.value !in db.enrol
        && t' == t.(todo := t.todo - {t.probe.value}, staged := t.staged + {t.probe.value}, probe := None)
    case CheckDuplicate =>
      t.op.Enroll? && (t.op.x, t.op.c) !in db.enrol && t' == t.(pc := CountActive)
    case CountActive =>
      t.op.Enroll? && |ActiveRows(db, t.op.c)| < t.cls.capacity && t' == t.(pc := InsertEnrolment)
    case InsertEnrolment =>
      t.op.Enroll? && (t.op.x, t.op.c) !in db.enrol && t' == t.(pc := Committing, staged := {(t.op.x, t.op.c)})
    case WantPeriod =>
      t.op.Book? && t.op.p in db.periods && t' == t.(pc := CheckSlot)
    case CheckSlot =>
      t.op.Book? && SlotOf(t) !in db.slots && t' == t.(pc := ListRivals)
    case ListRivals =>
      t.op.Book? && t' == t.(pc := ReadRivals, rivals := Rivals(db, SlotOf(t)))
    case ReadRivals =>
      || (t.rivals == {} && t' == t.(pc := InsertSlot))
      || (exists o :: o in t.rivals && ReadsRival(db, t, o) && t' == ReadRival(db, t, o))
    case InsertSlot =>
      t.op.Book? && SlotOf(t) !in db.slots && t' == t.(pc := Committing)
    case Committing => false
  }

  /** One turn of the fan-out loop: skip a student who has a row, else probe. */
  function Visit(db: Db, t: Tx, k: Key): Tx {
    if k in db.enrol then t.(todo := t.todo - {k}) else t.(probe := Some(k))
  }

  predicate ReadsRival(db: Db, t: Tx, o: Class) {
    o in db.classes && !Clash(t.cls, db.classes[o])
  }

  function ReadRival(db: Db, t: Tx, o: Class): Tx
    requires o in db.classes
  {
    t.(rivals := t.rivals - {o}, seen := t.seen[o := db.classes[o]])
  }

  /** A field that equals what was read is not written. */
  predicate SetsTerm(db: Db, t: Tx) {
    t.op.SetTerm? && t.op.c in db.classes && t.op.term != t.cls.term
  }

  /** The store after t commits: what each operation writes to each table. */
  function CommitDb(db: Db, t: Tx): Db {
    db.(
      roster := if t.op.Assign? then db.roster[(t.op.x, t.section.year) := t.op.s] else db.roster,
      classes :=
        if t.op.Attach? && t.op.c in db.classes
        then db.classes[t.op.c := db.classes[t.op.c].(section := Some(t.op.s))]
        else if t.op.Detach? && t.op.c in db.classes
        then db.classes[t.op.c := db.classes[t.op.c].(section := None)]
        else if SetsTerm(db, t)
        then db.classes[t.op.c := db.classes[t.op.c].(term := t.op.term)]
        else db.classes,
      enrol := AddRows(db.enrol, t.staged),
      slots := if t.op.Book? then db.slots + {SlotOf(t)} else db.slots)
  }

  // ---- requests that write in one statement ------------------------------

  datatype Change =
    | AddStudent(student: Student)
    | AddTerm(term: Term, year: Year)
    | AddSection(sec: Section, row: SectionRow)
    | AddClass(cls: Class, crow: ClassRow)
    | SetSectionCapacity(sec: Section, capacity: int)
    | UpdateClass(cls: Class, teacher: Teacher, room: Option<string>, capacity: int)
    | Unassign(seat: Seat)
    | Drop(key: Key)
    | DeleteSlot(slot: Slot)
    | PutPeriod(period: Period, prow: PeriodRow)   // create or retime
    | DeletePeriod(period: Period)

  /** An UPDATE or DELETE also waits for the lock on its row; a constraint that
      fails leaves the store as it was, so only the allowed writes are steps. */
  predicate Allowed(a: Sys, ch: Change) {
    match ch
    case AddStudent(x) => true
    case AddTerm(m, _) => m !in a.db.terms
    case AddSection(s, row) => s !in a.db.sections && row.capacity > 0
    case AddClass(c, row) => c !in a.db.classes && row.section == None && row.term in a.db.terms && row.capacity > 0
    case SetSectionCapacity(s, n) =>
      s in a.db.sections && n > 0 && forall i :: i in a.txs ==> SectionLock(a.txs[i]) != Some(s)
    case UpdateClass(c, _, _, n) =>
      c in a.db.classes && n > 0 && forall i :: i in a.txs ==> ClassLock(a.txs[i]) != Some(c)
    case Unassign(k) => k in a.db.roster
    case Drop(k) => k in a.db.enrol
    case DeleteSlot(sl) => sl in a.db.slots
    case PutPeriod(p, row) =>
      PeriodsDisjoint(a.db.periods[p := row]) && forall i :: i in a.txs ==> PeriodLock(a.txs[i]) != Some(p)
    case DeletePeriod(p) =>
      && (forall sl :: sl in a.db.slots ==> sl.period != p)
      && forall i :: i in a.txs ==> PeriodLock(a.txs[i]) != Some(p)
  }

  function ChangeDb(db: Db, ch: Change): Db {
    match ch
    case AddStudent(x) => db.(students := db.students + {x})
    case AddTerm(m, y) => db.(terms := db.terms[m := y])
    case AddSection(s, row) => db.(sections := db.sections[s := row])
    case AddClass(c, row) => db.(classes := db.classes[c := row])
    case SetSectionCapacity(s, n) =>
      if s in db.sections then db.(sections := db.sections[s := db.sections[s].(capacity := n)]) else db
    case UpdateClass(c, teacher, room, n) =>
      if c in db.classes
      then db.(classes := db.classes[c := db.classes[c].(teacher := teacher, room := room, capacity := n)])
      else db
    case Unassign(k) => db.(roster := db.roster - {k})
    case Drop(k) => db.(enrol := db.enrol[k := Dropped])
    case DeleteSlot(sl) => db.(slots := db.slots - {sl})
    case PutPeriod(p, row) => db.(periods := db.periods[p := row])
    case DeletePeriod(p) => db.(periods := db.periods - {p})
  }

  function Raise<K(==)>(peak: map<K, int>, k: K, n: int): map<K, int> {
    if k in peak && peak[k] >= n then peak else peak[k := n]
  }

  // ---- steps and runs ----------------------------------------------------

  predicate Begins(a: Sys, b: Sys, i: Tid, op: Op) {
    i !in a.txs && b == a.(txs := a.txs[i := Start(op)])
  }

  predicate Free(a: Sys, i: Tid)
    requires i in a.txs
  {
    forall j :: j in a.txs && j != i ==> !Waits(a.txs[i], a.txs[j])
  }

  predicate Advances(a: Sys, b: Sys, i: Tid, t': Tx) {
    i in a.txs && Free(a, i) && Moves(a.db, a.txs[i], t') && b == a.(txs := a.txs[i := t'])
  }

  predicate Commits(a: Sys, b: Sys, i: Tid) {
    && i in a.txs && a.txs[i].pc == Committing
    && b == a.(db := CommitDb(a.db, a.txs[i]), txs := a.txs - {i},
               fanned := if a.txs[i].op.Enroll? then a.fanned else a.fanned + a.txs[i].staged)
  }

  /** A failed check, a constraint violation or a lost connection. */
  predicate Aborts(a: Sys, b: Sys, i: Tid) {
    i in a.txs && b == a.(txs := a.txs - {i})
  }

  function AfterWrite(a: Sys, ch: Change): Sys {
    a.(db := ChangeDb(a.db, ch),
       peakSection := match ch
         case AddSection(s, row) => Raise(a.peakSection, s, row.capacity)
         case SetSectionCapacity(s, n) => Raise(a.peakSection, s, n)
         case _ => a.peakSection,
       peakClass := match ch
         case AddClass(c, row) => Raise(a.peakClass, c, row.capacity)
         case UpdateClass(c, _, _, n) => Raise(a.peakClass, c, n)
         case _ => a.peakClass)
  }

  predicate Writes(a: Sys, b: Sys, ch: Change) {
    Allowed(a, ch) && b == AfterWrite(a, ch)
  }

  datatype Action =
    | Begin(i: Tid, op: Op)
    | Advance(i: Tid, next: Tx)
    | Commit(i: Tid)
    | Abort(i: Tid)
    | Write(ch: Change)

  predicate Does(a: Sys, b: Sys, act: Action) {
    match act
    case Begin(i, op) => Begins(a, b, i, op)
    case Advance(i, next) => Advances(a, b, i, next)
    case Commit(i) => Commits(a, b, i)
    case Abort(i) => Aborts(a, b, i)
    case Write(ch) => Writes(a, b, ch)
  }

  ghost predicate Step(a: Sys, b: Sys) {
    exists act :: Does(a, b, act)
  }

  ghost predicate StepAt(run: seq<Sys>, i: int) {
    0 < i < |run| && Step(run[i - 1], run[i])
  }

  const INIT := Sys(EMPTY, map[], map[], map[], {})

  ghost predicate IsRun(run: seq<Sys>) {
    && |run| > 0 && run[0] == INIT
    && forall i :: 0 < i < |run| ==> StepAt(run, i)
  }
}
