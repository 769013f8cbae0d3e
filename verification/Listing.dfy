/** Who sees what: for enrolments, assessments and grades alike, paging through
    the unfiltered list shows a caller exactly the rows that get would return. */
module Listing {
  import opened School
  import opened Ordering
  import Requests

  type Aid = nat
  type Gid = nat

  datatype AssessmentRow = AssessmentRow(cls: Class, name: string, maxScore: real, date: int)
  datatype GradeRow = GradeRow(assessment: Aid, student: Student, score: real)

  datatype Store = Store(db: Db, assessments: map<Aid, AssessmentRow>, grades: map<Gid, GradeRow>)

  datatype Error = NotFound | NotYourClass

  datatype Reply<T> = Shown(page: Page<T>) | Refused(error: Error)

  predicate Owns(db: Db, caller: Caller, c: Class) {
    c in db.classes && Requests.OwnsClass(caller, db.classes[c])
  }

  function Nothing<T>(): Reply<T> {
    Shown(Page([], 0))
  }

  // ---- enrolments (get is Requests.GetError) -----------------------------------------------------------------------

  /** The conditions of EnrollmentRepository.list: class_id goes before class_ids. */
  function EnrolmentWhere(student: Option<Student>, cls: Option<Class>, classes: Option<set<Class>>): Key -> bool {
    (k: Key) =>
      (student.Some? ==> k.0 == student.value) &&
      (if cls.Some? then k.1 == cls.value else classes.Some? ==> k.1 in classes.value)
  }

  function QueryEnrolments(order: seq<Key>, limit: nat, offset: nat,
                           student: Option<Student>, cls: Option<Class>, classes: Option<set<Class>>): Reply<Key> {
    Shown(Paginate(Filter(order, EnrolmentWhere(student, cls, classes)), limit, offset))
  }

  function ListEnrolments(store: Store, order: seq<Key>, caller: Caller, limit: nat, offset: nat,
                          student: Option<Student>, cls: Option<Class>): Reply<Key> {
    if caller.role == StudentRole then
      if caller.student.None? then Nothing()
      else QueryEnrolments(order, limit, offset, caller.student, cls, None)
    else if caller.role == TeacherRole then
      if caller.teacher.None? then Nothing()
      else if cls.Some? then
        if cls.value !in OwnedBy(store.db, caller.teacher.value) then Refused(NotYourClass)
        else QueryEnrolments(order, limit, offset, student, cls, None)
      else QueryEnrolments(order, limit, offset, student, None, Some(OwnedBy(store.db, caller.teacher.value)))
    else QueryEnrolments(order, limit, offset, student, cls, None)
  }

  // ---- assessments ------------------------------------------------------------------------

  function GetAssessment(store: Store, caller: Caller, a: Aid): Option<Error> {
    if a !in store.assessments then Some(NotFound)
    else if caller.role == TeacherRole && !Owns(store.db, caller, store.assessments[a].cls) then Some(NotYourClass)
    else None
  }

  function AssessmentWhere(store: Store, cls: Option<Class>, classes: Option<set<Class>>): Aid -> bool {
    (a: Aid) =>
      a in store.assessments &&
      (if cls.Some? then store.assessments[a].cls == cls.value
       else classes.Some? ==> store.assessments[a].cls in classes.value)
  }

  function QueryAssessments(store: Store, order: seq<Aid>, limit: nat, offset: nat,
                            cls: Option<Class>, classes: Option<set<Class>>): Reply<Aid> {
    Shown(Paginate(Filter(order, AssessmentWhere(store, cls, classes)), limit, offset))
  }

  function ListAssessments(store: Store, order: seq<Aid>, caller: Caller, limit: nat, offset: nat,
                           cls: Option<Class>): Reply<Aid> {
    if caller.role == TeacherRole then
      if caller.teacher.None? then Nothing()
      else if cls.Some? then
        if cls.value !in OwnedBy(store.db, caller.teacher.value) then Refused(NotYourClass)
        else QueryAssessments(store, order, limit, offset, cls, None)
      else QueryAssessments(store, order, limit, offset, None, Some(OwnedBy(store.db, caller.teacher.value)))
    else QueryAssessments(store, order, limit, offset, cls, None)
  }

  // ---- grades ---------------------------------------------------------------------------------

  function GetGrade(store: Store, caller: Caller, g: Gid): Option<Error> {
    if caller.role == StudentRole then
      if g !in store.grades || caller.student.None? || store.grades[g].student != caller.student.value
      then Some(NotFound) else None
    else if g !in store.grades then Some(NotFound)
    else if caller.role == TeacherRole then
      if store.grades[g].assessment !in store.assessments then Some(NotYourClass)
      else if !Owns(store.db, caller, store.assessments[store.grades[g].assessment].cls) then Some(NotYourClass)
      else None
    else None
  }

  /** The conditions of GradeRepository.list: a class condition joins through the
      assessment. */
  function GradeWhere(store: Store, cls: Option<Class>, classes: Option<set<Class>>,
                      student: Option<Student>, assessment: Option<Aid>): Gid -> bool {
    (g: Gid) =>
      g in store.grades &&
      (cls.Some? || classes.Some? ==>
         store.grades[g].assessment in store.assessments &&
         var c := store.assessments[store.grades[g].assessment].cls;
         if cls.Some? then c == cls.value else c in classes.value) &&
      (student.Some? ==> store.grades[g].student == student.value) &&
      (assessment.Some? ==> store.grades[g].assessment == assessment.value)
  }

  function QueryGrades(store: Store, order: seq<Gid>, limit: nat, offset: nat, cls: Option<Class>,
                       classes: Option<set<Class>>, student: Option<Student>, assessment: Option<Aid>): Reply<Gid> {
    Shown(Paginate(Filter(order, GradeWhere(store, cls, classes, student, assessment)), limit, offset))
  }

  function ListGrades(store: Store, order: seq<Gid>, caller: Caller, limit: nat, offset: nat,
                      cls: Option<Class>, student: Option<Student>, assessment: Option<Aid>): Reply<Gid> {
    if caller.role == StudentRole then
      if caller.student.None? then Nothing()
      else QueryGrades(store, order, limit, offset, cls, None, caller.student, assessment)
    else if caller.role == TeacherRole then
      if caller.teacher.None? then Nothing()
      else if cls.Some? then
        if cls.value !in OwnedBy(store.db, caller.teacher.value) then Refused(NotYourClass)
        else QueryGrades(store, order, limit, offset, cls, None, student, assessment)
      else
        var owned := OwnedBy(store.db, caller.teacher.value);
        QueryGrades(store, order, limit, offset, None, Some(owned), student, assessment)
    else QueryGrades(store, order, limit, offset, cls, None, student, assessment)
  }

  // ---- paging shows what get returns ----------------------------------------------------------

  /** The answers a client gathers, asking for page after page of size limit until
      the offset passes the total it was told. */
  ghost function Gather<T>(list: nat -> Reply<T>, limit: nat, offset: nat, total: nat): seq<T>
    requires limit > 0
    decreases if offset < total then total - offset else 0
  {
    if offset >= total then []
    else
      var reply := list(offset);
      (if reply.Shown? then reply.page.items else []) + Gather(list, limit, offset + limit, total)
  }

  lemma {:induction false} GatherReadsOn<T>(list: nat -> Reply<T>, rows: seq<T>, limit: nat, offset: nat)
    requires limit > 0 && forall o: nat :: list(o) == Shown(Paginate(rows, limit, o))
    ensures Gather(list, limit, offset, |rows|) == ReadOn(rows, limit, offset)
    decreases if offset < |rows| then |rows| - offset else 0
  {
    if offset < |rows| {
      GatherReadsOn(list, rows, limit, offset + limit);
    }
  }

  /** What it means for a list to agree with get: every call is answered, all tell
      the same total, and the pages together hold each visible row exactly once. */
  ghost predicate Agrees<T(!new)>(list: nat -> Reply<T>, limit: nat, visible: T -> bool, total: nat) {
    && limit > 0
    && (forall o: nat :: list(o).Shown? && list(o).page.total == total)
    && var all := Gather(list, limit, 0, total);
       Once(all) && |all| == total && forall x :: x in all <==> visible(x)
  }

  lemma PagesAgree<T(!new)>(list: nat -> Reply<T>, order: seq<T>, limit: nat, visible: T -> bool)
    requires limit > 0 && Once(order) && forall x :: visible(x) ==> x in order
    requires forall o: nat :: list(o) == Shown(Paginate(Filter(order, visible), limit, o))
    ensures Agrees(list, limit, visible, |Filter(order, visible)|)
  {
    var rows := Filter(order, visible);
    forall x ensures x in rows <==> visible(x) {
      FilterKeeps(order, visible, x);
    }
    FilterOnce(order, visible);
    GatherReadsOn(list, rows, limit, 0);
    ReadOnIsTheRest(rows, limit, 0);
  }

  /** A fixed total order of a table: every key once. */
  ghost predicate OrderOf<T(!new)>(order: seq<T>, keys: set<T>) {
    Once(order) && forall x :: x in order <==> x in keys
  }

  lemma {:induction false} FilterNothing<T>(xs: seq<T>, keep: T -> bool)
    requires forall x :: x in xs ==> !keep(x)
    ensures Filter(xs, keep) == []
  {
    if xs != [] {
      FilterNothing(xs[1..], keep);
    }
  }

  // The unfiltered list of a caller as a function of the offset, and the rows that
  // get returns to the caller.

  function EnrolmentPages(store: Store, order: seq<Key>, caller: Caller, limit: nat): nat -> Reply<Key> {
    (o: nat) => ListEnrolments(store, order, caller, limit, o, None, None)
  }

  function VisibleEnrolments(store: Store, caller: Caller): Key -> bool {
    (k: Key) => Requests.GetError(store.db, caller, k).None?
  }

  function AssessmentPages(store: Store, order: seq<Aid>, caller: Caller, limit: nat): nat -> Reply<Aid> {
    (o: nat) => ListAssessments(store, order, caller, limit, o, None)
  }

  function VisibleAssessments(store: Store, caller: Caller): Aid -> bool {
    (a: Aid) => GetAssessment(store, caller, a).None?
  }

  function GradePages(store: Store, order: seq<Gid>, caller: Caller, limit: nat): nat -> Reply<Gid> {
    (o: nat) => ListGrades(store, order, caller, limit, o, None, None, None)
  }

  function VisibleGrades(store: Store, caller: Caller): Gid -> bool {
    (g: Gid) => GetGrade(store, caller, g).None?
  }

  /** The caller is a student or a teacher without a linked record. */
  predicate Unlinked(caller: Caller) {
    (caller.role == StudentRole && caller.student.None?) || (caller.role == TeacherRole && caller.teacher.None?)
  }

  function ScopeOf(db: Db, caller: Caller): Option<set<Class>> {
    if caller.role == TeacherRole && caller.teacher.Some? then Some(OwnedBy(db, caller.teacher.value)) else None
  }

  lemma EnrolmentListAgrees(store: Store, order: seq<Key>, caller: Caller, limit: nat)
    requires limit > 0 && OrderOf(order, store.db.enrol.Keys)
    ensures Agrees(EnrolmentPages(store, order, caller, limit), limit, VisibleEnrolments(store, caller),
                   |Filter(order, VisibleEnrolments(store, caller))|)
  {
    var visible := VisibleEnrolments(store, caller);
    if Unlinked(caller) {
      FilterNothing(order, visible);
    } else {
      var student := if caller.role == StudentRole then caller.student else None;
      FilterAlike(order, visible, EnrolmentWhere(student, None, ScopeOf(store.db, caller)));
    }
    PagesAgree(EnrolmentPages(store, order, caller, limit), order, limit, visible);
  }

  lemma AssessmentListAgrees(store: Store, order: seq<Aid>, caller: Caller, limit: nat)
    requires limit > 0 && OrderOf(order, store.assessments.Keys)
    ensures Agrees(AssessmentPages(store, order, caller, limit), limit, VisibleAssessments(store, caller),
                   |Filter(order, VisibleAssessments(store, caller))|)
  {
    var visible := VisibleAssessments(store, caller);
    if caller.role == TeacherRole && caller.teacher.None? {
      FilterNothing(order, visible);
    } else {
      FilterAlike(order, visible, AssessmentWhere(store, None, ScopeOf(store.db, caller)));
    }
    PagesAgree(AssessmentPages(store, order, caller, limit), order, limit, visible);
  }

  lemma GradeListAgrees(store: Store, order: seq<Gid>, caller: Caller, limit: nat)
    requires limit > 0 && OrderOf(order, store.grades.Keys)
    ensures Agrees(GradePages(store, order, caller, limit), limit, VisibleGrades(store, caller),
                   |Filter(order, VisibleGrades(store, caller))|)
  {
    var visible := VisibleGrades(store, caller);
    if Unlinked(caller) {
      FilterNothing(order, visible);
    } else {
      var student := if caller.role == StudentRole then caller.student else None;
      FilterAlike(order, visible, GradeWhere(store, None, ScopeOf(store.db, caller), student, None));
    }
    PagesAgree(GradePages(store, order, caller, limit), order, limit, visible);
  }

  // ---- who may see what, and what a filter shows ------------------------------------------------

  /** A student sees what is theirs, a teacher what is of their own classes, the
      administration everything; without a linked record nothing is theirs. */
  predicate InScope(db: Db, caller: Caller, owner: Option<Student>, cls: Option<Class>) {
    match caller.role
    case StudentRole => owner.Some? ==> caller.student == owner
    case TeacherRole => cls.Some? && caller.teacher.Some? && cls.value in OwnedBy(db, caller.teacher.value)
    case _ => true
  }

  /** The class a grade belongs to, through its assessment. */
  function ClassOfGrade(store: Store, g: Gid): Option<Class>
    requires g in store.grades
  {
    var a := store.grades[g].assessment;
    if a in store.assessments then Some(store.assessments[a].cls) else None
  }

  lemma GetShowsTheScope(store: Store, caller: Caller)
    ensures forall k :: Requests.GetError(store.db, caller, k).None? <==>
      k in store.db.enrol && InScope(store.db, caller, Some(k.0), Some(k.1))
    ensures forall a :: GetAssessment(store, caller, a).None? <==>
      a in store.assessments && InScope(store.db, caller, None, Some(store.assessments[a].cls))
    ensures forall g :: GetGrade(store, caller, g).None? <==>
      g in store.grades && InScope(store.db, caller, Some(store.grades[g].student), ClassOfGrade(store, g))
  {
  }

  /** A filter on students is for callers who are not students themselves. */
  predicate OfStudent(caller: Caller, filter: Option<Student>, x: Student) {
    caller.role != StudentRole && filter.Some? ==> x == filter.value
  }

  predicate OfClass(filter: Option<Class>, cls: Option<Class>) {
    filter.Some? ==> cls == filter
  }

  /** A teacher asks for a class that is not theirs. */
  predicate AsksForForeignClass(db: Db, caller: Caller, cls: Option<Class>) {
    && caller.role == TeacherRole && caller.teacher.Some?
    && cls.Some? && cls.value !in OwnedBy(db, caller.teacher.value)
  }

  /** The pages of a list show exactly the rows of a kind, or the list is refused. */
  ghost predicate Shows<T(!new)>(list: nat -> Reply<T>, order: seq<T>, limit: nat, refused: bool, shown: T -> bool) {
    if refused then forall o: nat :: list(o) == Refused(NotYourClass)
    else Agrees(list, limit, shown, |Filter(order, shown)|)
  }

  function ShownEnrolments(store: Store, caller: Caller, student: Option<Student>, cls: Option<Class>): Key -> bool {
    (k: Key) =>
      k in store.db.enrol && InScope(store.db, caller, Some(k.0), Some(k.1))
      && OfStudent(caller, student, k.0) && OfClass(cls, Some(k.1))
  }

  /** The conditions the service puts into the query are the scope and the filters. */
  lemma EnrolmentConditions(store: Store, caller: Caller, student: Option<Student>, cls: Option<Class>, k: Key)
    requires k in store.db.enrol && !AsksForForeignClass(store.db, caller, cls)
    ensures
      var shown := ShownEnrolments(store, caller, student, cls)(k);
      if Unlinked(caller) then !shown
      else shown == EnrolmentWhere(Asked(caller, student), cls, Scope(store.db, caller, cls))(k)
  {
  }

  /** A student asks for their own rows, whatever student they name. */
  function Asked(caller: Caller, student: Option<Student>): Option<Student> {
    if caller.role == StudentRole then caller.student else student
  }

  function Scope(db: Db, caller: Caller, cls: Option<Class>): Option<set<Class>> {
    if cls.Some? then None else ScopeOf(db, caller)
  }

  /** Whatever the filters: no filter shows a caller more than their scope, and a
      teacher who names a foreign class is refused. */
  lemma EnrolmentListShows(
      store: Store, order: seq<Key>, caller: Caller, limit: nat, student: Option<Student>, cls: Option<Class>)
    requires limit > 0 && OrderOf(order, store.db.enrol.Keys)
    ensures Shows((o: nat) => ListEnrolments(store, order, caller, limit, o, student, cls), order, limit,
                  AsksForForeignClass(store.db, caller, cls), ShownEnrolments(store, caller, student, cls))
  {
    if !AsksForForeignClass(store.db, caller, cls) {
      var shown := ShownEnrolments(store, caller, student, cls);
      var query := EnrolmentWhere(Asked(caller, student), cls, Scope(store.db, caller, cls));
      forall k | k in order ensures if Unlinked(caller) then !shown(k) else shown(k) == query(k) {
        EnrolmentConditions(store, caller, student, cls, k);
      }
      if Unlinked(caller) {
        FilterNothing(order, shown);
      } else {
        FilterAlike(order, shown, query);
      }
      PagesAgree((o: nat) => ListEnrolments(store, order, caller, limit, o, student, cls), order, limit, shown);
    }
  }

  function ShownAssessments(store: Store, caller: Caller, cls: Option<Class>): Aid -> bool {
    (a: Aid) =>
      a in store.assessments && InScope(store.db, caller, None, Some(store.assessments[a].cls))
      && OfClass(cls, Some(store.assessments[a].cls))
  }

  predicate InClasses(classes: Option<set<Class>>, c: Option<Class>) {
    classes.Some? ==> c.Some? && c.value in classes.value
  }

  lemma AssessmentConditions(store: Store, caller: Caller, cls: Option<Class>, a: Aid)
    requires a in store.assessments && !AsksForForeignClass(store.db, caller, cls)
    ensures
      var shown := ShownAssessments(store, caller, cls)(a);
      if UnlinkedTeacher(caller) then !shown
      else shown == AssessmentWhere(store, cls, Scope(store.db, caller, cls))(a)
  {
    var c, scope := store.assessments[a].cls, Scope(store.db, caller, cls);
    assert ShownAssessments(store, caller, cls)(a) <==>
      InScope(store.db, caller, None, Some(c)) && OfClass(cls, Some(c));
    assert AssessmentWhere(store, cls, scope)(a) <==> if cls.Some? then c == cls.value else InClasses(scope, Some(c));
  }

  predicate UnlinkedTeacher(caller: Caller) {
    caller.role == TeacherRole && caller.teacher.None?
  }

  lemma AssessmentListShows(store: Store, order: seq<Aid>, caller: Caller, limit: nat, cls: Option<Class>)
    requires limit > 0 && OrderOf(order, store.assessments.Keys)
    ensures Shows((o: nat) => ListAssessments(store, order, caller, limit, o, cls), order, limit,
                  AsksForForeignClass(store.db, caller, cls), ShownAssessments(store, caller, cls))
  {
    if !AsksForForeignClass(store.db, caller, cls) {
      var shown := ShownAssessments(store, caller, cls);
      var query := AssessmentWhere(store, cls, Scope(store.db, caller, cls));
      forall a | a in order ensures if UnlinkedTeacher(caller) then !shown(a) else shown(a) == query(a) {
        AssessmentConditions(store, caller, cls, a);
      }
      if UnlinkedTeacher(caller) {
        FilterNothing(order, shown);
      } else {
        FilterAlike(order, shown, query);
      }
      PagesAgree((o: nat) => ListAssessments(store, order, caller, limit, o, cls), order, limit, shown);
    }
  }

  function ShownGrades(store: Store, caller: Caller, cls: Option<Class>, student: Option<Student>,
                       assessment: Option<Aid>): Gid -> bool {
    (g: Gid) =>
      g in store.grades && InScope(store.db, caller, Some(store.grades[g].student), ClassOfGrade(store, g))
      && OfStudent(caller, student, store.grades[g].student) && OfClass(cls, ClassOfGrade(store, g))
      && (assessment.Some? ==> store.grades[g].assessment == assessment.value)
  }

  lemma GradeConditions(store: Store, caller: Caller, cls: Option<Class>, student: Option<Student>,
                        assessment: Option<Aid>, g: Gid)
    requires g in store.grades && !AsksForForeignClass(store.db, caller, cls)
    ensures
      var shown := ShownGrades(store, caller, cls, student, assessment)(g);
      if Unlinked(caller) then !shown
      else shown == GradeWhere(store, cls, Scope(store.db, caller, cls), Asked(caller, student), assessment)(g)
  {
    var c, scope := ClassOfGrade(store, g), Scope(store.db, caller, cls);
    var x, a := store.grades[g].student, store.grades[g].assessment;
    assert ShownGrades(store, caller, cls, student, assessment)(g) <==>
      && InScope(store.db, caller, Some(x), c) && OfStudent(caller, student, x) && OfClass(cls, c)
      && (assessment.Some? ==> a == assessment.value);
    assert GradeWhere(store, cls, scope, Asked(caller, student), assessment)(g) <==>
      && (if cls.Some? then c == cls else InClasses(scope, c))
      && (Asked(caller, student).Some? ==> x == Asked(caller, student).value)
      && (assessment.Some? ==> a == assessment.value);
  }

  lemma GradeListShows(store: Store, order: seq<Gid>, caller: Caller, limit: nat, cls: Option<Class>,
                       student: Option<Student>, assessment: Option<Aid>)
    requires limit > 0 && OrderOf(order, store.grades.Keys)
    ensures Shows((o: nat) => ListGrades(store, order, caller, limit, o, cls, student, assessment), order, limit,
                  AsksForForeignClass(store.db, caller, cls), ShownGrades(store, caller, cls, student, assessment))
  {
    if !AsksForForeignClass(store.db, caller, cls) {
      var shown := ShownGrades(store, caller, cls, student, assessment);
      var query := GradeWhere(store, cls, Scope(store.db, caller, cls), Asked(caller, student), assessment);
      forall g | g in order ensures if Unlinked(caller) then !shown(g) else shown(g) == query(g) {
        GradeConditions(store, caller, cls, student, assessment, g);
      }
      if Unlinked(caller) {
        FilterNothing(order, shown);
      } else {
        FilterAlike(order, shown, query);
      }
      var list := (o: nat) => ListGrades(store, order, caller, limit, o, cls, student, assessment);
      PagesAgree(list, order, limit, shown);
    }
  }
}
