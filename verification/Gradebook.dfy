/** The gradebook of a class: who is on it, in which order, under which columns,
    with which scores. */
module Gradebook {
  import opened School
  import opened Ordering
  import opened UnitOfWork
  import Requests
  import Listing

  type Aid = Listing.Aid
  type Gid = Listing.Gid

  datatype StudentRow = StudentRow(number: string, first: string, last: string)

  datatype Row = Row(id: Student, number: string, first: string, last: string)
  datatype Line = Line(row: Row, scores: map<Aid, Option<real>>)
  datatype Column = Column(id: Aid, assessment: Listing.AssessmentRow)

  datatype Reply = Book(columns: seq<Column>, lines: seq<Line>) | ClassNotFound | NotYourClass

  /** uq_grades_assessment_student */
  ghost predicate UniqueGrades(grades: map<Gid, Listing.GradeRow>) {
    forall g, g' ::
      (g in grades && g' in grades
       && grades[g].assessment == grades[g'].assessment && grades[g].student == grades[g'].student)
      ==> g == g'
  }

  // ---- the two orders ------------------------------------------------------------------

  /** sorted by (last_name, first_name) */
  predicate NameLeq(a: Row, b: Row) {
    if a.last == b.last then StringLeq(a.first, b.first) else StringLeq(a.last, b.last)
  }

  predicate DateLeq(a: Column, b: Column) {
    a.assessment.date <= b.assessment.date
  }

  const BY_NAME: (Row, Row) -> bool := (a: Row, b: Row) => NameLeq(a, b)
  const BY_DATE: (Column, Column) -> bool := (a: Column, b: Column) => DateLeq(a, b)

  lemma NamesOrder()
    ensures Orders(BY_NAME)
  {
    forall a, b ensures BY_NAME(a, b) || BY_NAME(b, a) {
      StringLeqTotal(a.last, b.last);
      StringLeqTotal(a.first, b.first);
    }
    forall a, b, c | BY_NAME(a, b) && BY_NAME(b, c) ensures BY_NAME(a, c) {
      if a.last == b.last && b.last == c.last {
        StringLeqTransitive(a.first, b.first, c.first);
      } else {
        StringLeqTotal(a.last, a.last);
        StringLeqTotal(c.last, c.last);
        StringLeqTransitive(a.last, b.last, c.last);
        if a.last == c.last {
          StringLeqAntisymmetric(a.last, b.last);
        }
      }
    }
  }

  // ---- the plain specification ------------------------------------------------------------

  predicate IsGradeOf(row: Listing.GradeRow, x: Student, a: Aid) {
    row.assessment == a && row.student == x
  }

  /** The score of the grade for this student and assessment, if there is one. */
  ghost predicate IsScore(grades: map<Gid, Listing.GradeRow>, x: Student, a: Aid, score: Option<real>) {
    && (score.Some? ==> exists g :: g in grades && IsGradeOf(grades[g], x, a) && grades[g].score == score.value)
    && (score.None? ==> forall g :: g in grades ==> !IsGradeOf(grades[g], x, a))
  }

  /** The unique constraint leaves no choice of score. */
  lemma ScoreIsDetermined(
      grades: map<Gid, Listing.GradeRow>, x: Student, a: Aid, score: Option<real>, score': Option<real>)
    requires UniqueGrades(grades) && IsScore(grades, x, a, score) && IsScore(grades, x, a, score')
    ensures score == score'
  {
    if score.Some? && score'.Some? {
      var g :| g in grades && IsGradeOf(grades[g], x, a) && grades[g].score == score.value;
      var g' :| g' in grades && IsGradeOf(grades[g'], x, a) && grades[g'].score == score'.value;
    }
  }

  ghost predicate RightColumns(store: Listing.Store, c: Class, columns: seq<Column>) {
    && Once(columns) && Sorted(columns, BY_DATE)
    && forall col :: col in columns <==>
         col.id in store.assessments && col.assessment == store.assessments[col.id] && col.assessment.cls == c
  }

  function RowOf(students: map<Student, StudentRow>, x: Student): Row
    requires x in students
  {
    Row(x, students[x].number, students[x].first, students[x].last)
  }

  function Rows(lines: seq<Line>): seq<Row> {
    if lines == [] then [] else [lines[0].row] + Rows(lines[1..])
  }

  /** One line for each student with an ACTIVE enrolment, in the order of names. */
  ghost predicate RightRows(store: Listing.Store, students: map<Student, StudentRow>, c: Class, rows: seq<Row>) {
    && Once(rows) && Sorted(rows, BY_NAME)
    && forall row :: row in rows <==>
         && (row.id, c) in store.db.enrol && store.db.enrol[(row.id, c)] == Active
         && row.id in students && row.number == students[row.id].number
         && row.first == students[row.id].first && row.last == students[row.id].last
  }

  ghost predicate RightCells(store: Listing.Store, columns: seq<Column>, lines: seq<Line>) {
    forall line :: line in lines ==>
      && (forall a :: a in line.scores <==> exists col :: col in columns && col.id == a)
      && forall a :: a in line.scores ==> IsScore(store.grades, line.row.id, a, line.scores[a])
  }

  // ---- the queries -------------------------------------------------------------------------

  /** list_by_class_id ... ORDER BY date */
  method AssessmentsByDate(store: Listing.Store, c: Class) returns (columns: seq<Column>)
    ensures RightColumns(store, c, columns)
  {
    var hits := set a | a in store.assessments && store.assessments[a].cls == c :: Column(a, store.assessments[a]);
    var list := InSomeOrder(hits);
    columns := Sort(list, BY_DATE);
    SortSorts(list, BY_DATE);
    SameRowsOnce(list, columns);
  }

  /** list_by_class_id(status=ACTIVE) */
  method ActiveStudents(db: Db, c: Class) returns (ids: seq<Student>)
    ensures Once(ids) && forall x :: x in ids <==> (x, c) in db.enrol && db.enrol[(x, c)] == Active
  {
    var keys := InSomeOrder(ActiveRows(db, c));
    ids := [];
    for n := 0 to |keys|
      invariant |ids| == n && forall m :: 0 <= m < n ==> ids[m] == keys[m].0
    {
      ids := ids + [keys[n].0];
    }
    forall i, j | 0 <= i < j < |ids| ensures ids[i] != ids[j] {
      assert keys[i] in ActiveRows(db, c) && keys[j] in ActiveRows(db, c);
    }
    forall x ensures x in ids <==> (x, c) in ActiveRows(db, c) {
      if x in ids {
        var m :| 0 <= m < |ids| && ids[m] == x;
        assert keys[m] in ActiveRows(db, c);
      }
      if (x, c) in ActiveRows(db, c) {
        assert (x, c) in keys;
        var m :| 0 <= m < |keys| && keys[m] == (x, c);
        assert ids[m] == x;
      }
    }
  }

  /** grade_map */
  method GradeMap(grades: map<Gid, Listing.GradeRow>, columns: seq<Column>) returns (scores: map<(Student, Aid), real>)
    ensures forall x: Student, col :: col in columns ==>
      IsScore(grades, x, col.id, if (x, col.id) in scores then Some(scores[(x, col.id)]) else None)
  {
    var wanted := set g: Gid | g in grades && exists col :: col in columns && col.id == grades[g].assessment;
    var list: seq<Gid> := InSomeOrder(wanted);
    scores := map[];
    for n := 0 to |list|
      invariant forall m :: 0 <= m < n ==>
        list[m] in grades && (grades[list[m]].student, grades[list[m]].assessment) in scores
      invariant forall x: Student, a: Aid :: (x, a) in scores ==>
        exists g :: g in grades && IsGradeOf(grades[g], x, a) && grades[g].score == scores[(x, a)]
    {
      var g: Gid := list[n];
      assert g in wanted;
      scores := scores[(grades[g].student, grades[g].assessment) := grades[g].score];
    }
    forall x: Student, col | col in columns
      ensures IsScore(grades, x, col.id, if (x, col.id) in scores then Some(scores[(x, col.id)]) else None)
    {
      forall g | g in grades && grades[g].assessment == col.id ensures g in list {}
    }
  }

  /** The rows of the students that exist, sorted by name. */
  method SortedRows(students: map<Student, StudentRow>, ids: seq<Student>) returns (rows: seq<Row>)
    requires Once(ids)
    ensures Once(rows) && Sorted(rows, BY_NAME)
    ensures forall row :: row in rows <==> row.id in ids && row.id in students && row == RowOf(students, row.id)
  {
    var found: seq<Row> := [];
    for n := 0 to |ids|
      invariant forall row :: row in found <==>
        row.id in ids[..n] && row.id in students && row == RowOf(students, row.id)
      invariant Once(found)
    {
      assert ids[..n + 1] == ids[..n] + [ids[n]];
      assert ids[n] !in ids[..n];
      if ids[n] in students {
        found := found + [RowOf(students, ids[n])];
      }
    }
    assert ids[..|ids|] == ids;
    rows := Sort(found, BY_NAME);
    NamesOrder();
    SortSorts(found, BY_NAME);
    SameRowsOnce(found, rows);
  }

  // ---- the gradebook -----------------------------------------------------------------------

  lemma {:induction false} RowsAppend(lines: seq<Line>, line: Line)
    ensures Rows(lines + [line]) == Rows(lines) + [line.row]
  {
    if lines != [] {
      assert (lines + [line])[1..] == lines[1..] + [line];
      RowsAppend(lines[1..], line);
    }
  }

  method GetClassGradebook(store: Listing.Store, students: map<Student, StudentRow>, caller: Caller, c: Class)
    returns (reply: Reply)
    ensures reply.ClassNotFound? <==> c !in store.db.classes
    ensures reply.NotYourClass? <==> c in store.db.classes && !Requests.OwnsClass(caller, store.db.classes[c])
    ensures reply.Book? ==>
      && RightColumns(store, c, reply.columns)
      && RightRows(store, students, c, Rows(reply.lines))
      && RightCells(store, reply.columns, reply.lines)
  {
    if c !in store.db.classes {
      return ClassNotFound;
    }
    if !Requests.OwnsClass(caller, store.db.classes[c]) {
      return NotYourClass;
    }
    var columns := AssessmentsByDate(store, c);
    var ids := ActiveStudents(store.db, c);
    var gradeMap := GradeMap(store.grades, columns);
    var rows := SortedRows(students, ids);
    var lines: seq<Line> := [];
    for n := 0 to |rows|
      invariant |lines| == n && Rows(lines) == rows[..n]
      invariant RightCells(store, columns, lines)
    {
      var x := rows[n].id;
      var scores := map col | col in columns ::
        col.id := if (x, col.id) in gradeMap then Some(gradeMap[(x, col.id)]) else None;
      RowsAppend(lines, Line(rows[n], scores));
      lines := lines + [Line(rows[n], scores)];
      assert rows[..n + 1] == rows[..n] + [rows[n]];
    }
    assert rows[..|rows|] == rows;
    reply := Book(columns, lines);
  }
}
