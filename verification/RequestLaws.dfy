/** What one request may and may not do, said without saying how: when it is
    refused and why, which rows of which table it changes, and on whose behalf. */
module RequestLaws {
  import opened School
  import opened Requests

  // ---- refusals ------------------------------------------------------------------

  predicate OwnsNot(db: Db, caller: Caller, c: Class) {
    caller.role == TeacherRole && (caller.teacher.None? || c !in OwnedBy(db, caller.teacher.value))
  }

  /** e is a true reason against the request. */
  ghost predicate Reason(db: Db, r: Request, e: Error) {
    match r
    case AddStudent(x) => e.IdTaken? && x in db.students
    case AddTerm(m, _) => e.IdTaken? && m in db.terms
    case AddSection(s, row) => (e.InvalidCapacity? && row.capacity <= 0) || (e.IdTaken? && s in db.sections)
    case AddClass(c, row) =>
      || (e.InvalidCapacity? && row.capacity <= 0)
      || (e.TermNotFound? && row.term !in db.terms)
      || (e.IdTaken? && c in db.classes)
    case AssignR(x, s) =>
      || (e.StudentNotFound? && x !in db.students)
      || (e.SectionNotFound? && s !in db.sections)
      || (s in db.sections && e.StudentAlreadyAssigned? && (x, db.sections[s].year) in db.roster)
      || (s in db.sections && e.SectionFull? && |RosterRows(db, s)| >= db.sections[s].capacity)
    case UnassignR(x, s) =>
      || (e.AssignmentNotFound? && !OnRoster(db, x, s))
      || (e.SeveralAssignments? && exists k, k' :: SeatOf(db, k, x, s) && SeatOf(db, k', x, s) && k != k')
    case AttachR(s, c) =>
      || (e.SectionNotFound? && s !in db.sections)
      || (e.ClassNotFound? && c !in db.classes)
      || (c in db.classes && e.ClassAlreadyAttached? && db.classes[c].section.Some? && db.classes[c].section.value != s)
      || (c in db.classes && e.TermNotFound? && db.classes[c].term !in db.terms)
      || (c in db.classes && db.classes[c].term in db.terms && s in db.sections && e.ClassYearMismatch?
          && !InYear(db, c, db.sections[s].year))
    case DetachR(s, c) =>
      || (e.SectionNotFound? && s !in db.sections)
      || (e.ClassNotFound? && c !in db.classes)
      || (e.ClassNotAttached? && c in db.classes && c !in AttachedTo(db, s))
    case CapacityR(s, n) => (e.InvalidCapacity? && n <= 0) || (e.SectionNotFound? && s !in db.sections)
    case EnrollR(caller, x, c) =>
      || (e.StudentNotFound? && x !in db.students)
      || (e.ClassNotFound? && c !in db.classes)
      || (e.NotYourClass? && c in db.classes && OwnsNot(db, caller, c))
      || (e.EnrolmentAlreadyExists? && (x, c) in db.enrol)
      || (e.ClassFull? && c in db.classes && |ActiveRows(db, c)| >= db.classes[c].capacity)
    case DropR(caller, k) =>
      || (e.EnrolmentNotFound? && (k !in db.enrol || (caller.role == StudentRole && caller.student != Some(k.0))))
      || (e.NotYourClass? && k in db.enrol && OwnsNot(db, caller, k.1))
      || (e.EnrolmentNotActive? && k in db.enrol && db.enrol[k] != Active)
    case UpdateR(c, p) =>
      || (e.InvalidCapacity? && p.capacity.Some? && p.capacity.value <= 0)
      || (e.ClassNotFound? && c !in db.classes)
      || (e.TermNotFound? && p.term.Some? && p.term.value !in db.terms)
      || (e.ClassAttachedToSection? && c in db.classes && p.term.Some? && !MayTake(db.classes[c], p.term.value))
  }

  /** k seats x in s. */
  predicate SeatOf(db: Db, k: Seat, x: Student, s: Section) {
    k in db.roster && db.roster[k] == s && k.0 == x
  }

  /** The order of the checks is one order for all the services. */
  function Urgency(e: Error): nat {
    match e
    case InvalidCapacity => 0
    case StudentNotFound => 1
    case SectionNotFound => 2
    case ClassNotFound => 3
    case AssignmentNotFound => 4
    case SeveralAssignments => 5
    case StudentAlreadyAssigned => 6
    case SectionFull => 7
    case ClassAlreadyAttached => 8
    case TermNotFound => 9
    case ClassYearMismatch => 10
    case ClassNotAttached => 11
    case ClassAttachedToSection => 12
    case EnrolmentNotFound => 13
    case NotYourClass => 14
    case EnrolmentAlreadyExists => 15
    case ClassFull => 16
    case EnrolmentNotActive => 17
    case IdTaken => 18
  }

  /** e is the first reason there is. */
  ghost predicate FirstReason(db: Db, r: Request, e: Error) {
    Reason(db, r, e) && forall e' :: Reason(db, r, e') ==> Urgency(e) <= Urgency(e')
  }

  lemma SeveralSeats(db: Db, x: Student, s: Section)
    ensures SeatsIn(db, x, s) != {} <==> OnRoster(db, x, s)
    ensures |SeatsIn(db, x, s)| > 1 <==> exists k, k' :: SeatOf(db, k, x, s) && SeatOf(db, k', x, s) && k != k'
  {
    var seats := SeatsIn(db, x, s);
    if k :| k in db.roster && db.roster[k] == s && k.0 == x {
      assert k in seats;
    }
    if k, k' :| SeatOf(db, k, x, s) && SeatOf(db, k', x, s) && k != k' {
      assert k in seats && k' in seats && |seats - {k}| == |seats| - 1;
      assert k' in seats - {k};
    }
    if |seats| > 1 {
      var k :| k in seats;
      assert |seats - {k}| > 0;
      var k' :| k' in seats - {k};
      assert SeatOf(db, k, x, s) && SeatOf(db, k', x, s);
    }
  }

  lemma RefusalIsTrue(db: Db, r: Request)
    requires Serve(db, r).Err?
    ensures Reason(db, r, Serve(db, r).error)
  {
    if r.UnassignR? {
      SeveralSeats(db, r.x, r.s);
    }
  }

  lemma RefusalIsFirst(db: Db, r: Request, e: Error)
    requires Serve(db, r).Err? && Reason(db, r, e)
    ensures Urgency(Serve(db, r).error) <= Urgency(e)
  {
    if r.UnassignR? {
      SeveralSeats(db, r.x, r.s);
    }
  }

  lemma AcceptedWithoutReason(db: Db, r: Request, e: Error)
    requires Serve(db, r).Ok?
    ensures !Reason(db, r, e)
  {
    if r.UnassignR? {
      SeveralSeats(db, r.x, r.s);
    }
  }

  /** A request is refused exactly when there is a reason against it, and the reply
      gives the first. */
  lemma RefusedIff(db: Db, r: Request)
    ensures Serve(db, r).Ok? <==> forall e :: !Reason(db, r, e)
    ensures Serve(db, r).Err? ==> FirstReason(db, r, Serve(db, r).error)
  {
    if Serve(db, r).Err? {
      RefusalIsTrue(db, r);
      forall e | Reason(db, r, e) ensures Urgency(Serve(db, r).error) <= Urgency(e) {
        RefusalIsFirst(db, r, e);
      }
    } else {
      forall e ensures !Reason(db, r, e) {
        AcceptedWithoutReason(db, r, e);
      }
    }
  }

  // ---- effects, table by table ---------------------------------------------------------

  predicate Accepted(db: Db, r: Request) {
    Serve(db, r).Ok?
  }

  /** The roster gains one seat by an assignment and loses one by an unassignment. */
  lemma RosterChanges(db: Db, r: Request, k: Seat)
    ensures
      var db' := After(db, r);
      && (k in db.roster && k !in db'.roster <==>
            k in db.roster && Accepted(db, r) && r.UnassignR? && r.x == k.0 && r.s == db.roster[k])
      && (k !in db.roster && k in db'.roster <==>
            Accepted(db, r) && r.AssignR? && k == (r.x, db.sections[r.s].year))
      && (k !in db.roster && k in db'.roster ==> db'.roster[k] == r.s)
      && (k in db.roster && k in db'.roster ==> db'.roster[k] == db.roster[k])
  {
  }

  /** An enrolment row comes, ACTIVE, by an enrolment or a fan-out, and goes never. */
  lemma EnrolAppears(db: Db, r: Request, k: Key)
    ensures
      var db' := After(db, r);
      && (k in db.enrol ==> k in db'.enrol)
      && (k !in db.enrol && k in db'.enrol <==>
            k !in db.enrol && Accepted(db, r) &&
            match r
            case EnrollR(_, x, c) => k == (x, c)
            case AssignR(x, s) => k.0 == x && k.1 in AttachedTo(db, s)
            case AttachR(s, c) => k.1 == c && OnRoster(db, k.0, s)
            case _ => false)
      && (k !in db.enrol && k in db'.enrol ==> db'.enrol[k] == Active)
  {
    match r
    case AttachR(s, c) => assert k.1 == c && OnRoster(db, k.0, s) <==> k in RosterKeys(db, s, c);
    case AssignR(x, s) => assert k.0 == x && k.1 in AttachedTo(db, s) <==> k in ClassKeys(db, x, s);
    case _ =>
  }

  /** It changes only by being dropped, once. */
  lemma EnrolChanges(db: Db, r: Request, k: Key)
    requires k in db.enrol
    ensures k in After(db, r).enrol
    ensures After(db, r).enrol[k] != db.enrol[k] <==> Accepted(db, r) && r.DropR? && r.k == k
    ensures After(db, r).enrol[k] != db.enrol[k] ==> db.enrol[k] == Active && After(db, r).enrol[k] == Dropped
  {
  }

  lemma ClassesStay(db: Db, r: Request, c: Class)
    ensures
      var db' := After(db, r);
      && (c in db'.classes <==> c in db.classes || (Accepted(db, r) && r.AddClass? && r.c == c))
      && (c !in db.classes && c in db'.classes ==> db'.classes[c] == r.crow.(section := None))
  {
  }

  /** A class keeps every field that no request of its own changes. */
  lemma ClassChanges(db: Db, r: Request, c: Class)
    requires c in db.classes
    ensures c in After(db, r).classes
    ensures
      var row, row' := db.classes[c], After(db, r).classes[c];
      && row'.section == (if Accepted(db, r) && r.AttachR? && r.c == c then Some(r.s)
                          else if Accepted(db, r) && r.DetachR? && r.c == c then None else row.section)
      && var patch := if Accepted(db, r) && r.UpdateR? && r.c == c then r.patch else Patch(None, None, None, None);
      && row'.term == Given(patch.term, row.term)
      && row'.teacher == Given(patch.teacher, row.teacher)
      && row'.room == Given(patch.room, row.room)
      && row'.capacity == Given(patch.capacity, row.capacity)
  {
    ClassesStay(db, r, c);
  }

  function Given<T>(field: Option<T>, stored: T): T {
    if field.Some? then field.value else stored
  }

  /** Students only come, and no request of these services touches the timetable. */
  lemma OtherChanges(db: Db, r: Request)
    ensures
      var db' := After(db, r);
      && db'.periods == db.periods && db'.slots == db.slots
      && forall x :: x in db'.students <==> x in db.students || r == AddStudent(x)
  {
  }

  /** A term comes with its year and never moves to another. */
  lemma TermChanges(db: Db, r: Request, m: Term)
    ensures
      var db' := After(db, r);
      && (m in db'.terms <==> m in db.terms || (r.AddTerm? && r.term == m))
      && (m in db.terms ==> db'.terms[m] == db.terms[m])
      && (m in db'.terms && m !in db.terms ==> db'.terms[m] == r.year)
  {
  }

  lemma SectionChanges(db: Db, r: Request, s: Section)
    ensures
      var db' := After(db, r);
      && (s in db'.sections <==> s in db.sections || (Accepted(db, r) && r.AddSection? && r.s == s))
      && (s in db.sections ==>
            db'.sections[s] == if Accepted(db, r) && r.CapacityR? && r.s == s
                               then SectionRow(db.sections[s].year, r.n) else db.sections[s])
      && (s in db'.sections && s !in db.sections ==> db'.sections[s] == r.srow)
  {
  }

  // ---- whose rows -----------------------------------------------------------------------

  /** On behalf of a teacher an enrolment row comes or changes only in a class of
      their own, and none without a linked record. */
  lemma TeachersStayInTheirClasses(db: Db, r: Request, k: Key)
    requires (r.EnrollR? || r.DropR?) && r.caller.role == TeacherRole
    requires k in After(db, r).enrol && (k !in db.enrol || db.enrol[k] != After(db, r).enrol[k])
    ensures r.caller.teacher.Some? && k.1 in OwnedBy(db, r.caller.teacher.value)
  {
    RefusedIff(db, r);
    if k in db.enrol {
      EnrolChanges(db, r, k);
    } else {
      EnrolAppears(db, r, k);
    }
    assert !Reason(db, r, NotYourClass);
  }

  /** On behalf of a student only rows of their own are dropped. */
  lemma StudentsDropTheirOwn(db: Db, r: Request, k: Key)
    requires r.DropR? && r.caller.role == StudentRole
    requires k in db.enrol && db.enrol[k] != After(db, r).enrol[k]
    ensures r.caller.student == Some(k.0)
  {
    RefusedIff(db, r);
    EnrolChanges(db, r, k);
    assert !Reason(db, r, EnrolmentNotFound);
  }

  /** A student leaves a section's roster exactly by being unassigned from it. */
  lemma LeavesIff(db: Db, r: Request, x: Student, s: Section)
    ensures OnRoster(db, x, s) && !OnRoster(After(db, r), x, s) <==> Accepted(db, r) && r == UnassignR(x, s)
  {
    forall k ensures SeatOf(db, k, x, s) && !SeatOf(After(db, r), k, x, s) ==> Accepted(db, r) && r == UnassignR(x, s) {
      RosterChanges(db, r, k);
    }
    if OnRoster(db, x, s) {
      var k :| k in db.roster && db.roster[k] == s && k.0 == x;
      assert SeatOf(db, k, x, s);
      assert SeatOf(After(db, r), k, x, s) ==> OnRoster(After(db, r), x, s);
    }
    if Accepted(db, r) && r == UnassignR(x, s) {
      SeveralSeats(db, x, s);
    }
  }

  // ---- references, over every run ---------------------------------------------------------

  /** Every seat and every enrolment row is of a student, and every row of a class. */
  ghost predicate Referenced(db: Db) {
    && (forall k :: k in db.roster ==> k.0 in db.students)
    && (forall k :: k in db.enrol ==> k.0 in db.students && k.1 in db.classes)
  }

  lemma ServeKeepsReferences(db: Db, r: Request)
    requires Referenced(db)
    ensures Referenced(After(db, r))
  {
    RefusedIff(db, r);
    forall k | k in After(db, r).roster ensures k.0 in After(db, r).students {
      RosterChanges(db, r, k);
      OtherChanges(db, r);
      assert !Reason(db, r, StudentNotFound) || !Accepted(db, r);
    }
    forall k | k in After(db, r).enrol ensures k.0 in After(db, r).students && k.1 in After(db, r).classes {
      EnrolRefers(db, r, k);
    }
  }

  lemma EnrolRefers(db: Db, r: Request, k: Key)
    requires Referenced(db) && k in After(db, r).enrol
    ensures k.0 in After(db, r).students && k.1 in After(db, r).classes
  {
    RefusedIff(db, r);
    EnrolAppears(db, r, k);
    OtherChanges(db, r);
    ClassesStay(db, r, k.1);
    assert Accepted(db, r) ==> !Reason(db, r, StudentNotFound) && !Reason(db, r, ClassNotFound);
  }

  lemma {:induction false} RunKeepsReferences(reqs: seq<Request>)
    ensures Referenced(Run(reqs))
  {
    if reqs != [] {
      RunKeepsReferences(reqs[..|reqs| - 1]);
      ServeKeepsReferences(Run(reqs[..|reqs| - 1]), reqs[|reqs| - 1]);
    }
  }

  /** ck_sections_capacity_positive and its like for classes. */
  ghost predicate PositiveCapacities(db: Db) {
    && (forall s :: s in db.sections ==> db.sections[s].capacity > 0)
    && (forall c :: c in db.classes ==> db.classes[c].capacity > 0)
  }

  lemma ServeKeepsCapacities(db: Db, r: Request)
    requires PositiveCapacities(db)
    ensures PositiveCapacities(After(db, r))
  {
  }

  lemma {:induction false} RunKeepsCapacities(reqs: seq<Request>)
    ensures PositiveCapacities(Run(reqs))
  {
    if reqs != [] {
      RunKeepsCapacities(reqs[..|reqs| - 1]);
      ServeKeepsCapacities(Run(reqs[..|reqs| - 1]), reqs[|reqs| - 1]);
    }
  }
}
