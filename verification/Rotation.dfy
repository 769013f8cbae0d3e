/** The rotation that seeds a timetable: section number i meets subject
    (period + i) mod n in each period.  It works for any number of subjects and
    periods, and for exactly as many sections as there are subjects. */
module Rotation {
  import opened School
  import Requests
  import Timetable

  /** One teacher per subject, one room per section. */
  datatype Plan = Plan(
    term: Term, teachers: seq<Teacher>, sections: seq<Section>, rooms: seq<string>, periods: seq<Period>)

  predicate AllDistinct<T(==)>(list: seq<T>) {
    forall i, j :: 0 <= i < j < |list| ==> list[i] != list[j]
  }

  /** What the script has created before the loop: everything but the classes. */
  predicate Prepared(db: Db, plan: Plan) {
    && |plan.teachers| > 0 && |plan.rooms| == |plan.sections|
    && AllDistinct(plan.teachers) && AllDistinct(plan.sections) && AllDistinct(plan.rooms) && AllDistinct(plan.periods)
    && plan.term in db.terms
    && (forall s :: s in plan.sections ==> s in db.sections && db.sections[s].year == db.terms[plan.term])
    && (forall p :: p in plan.periods ==> p in db.periods)
  }

  function TeacherAt(plan: Plan, i: nat, j: nat): Teacher
    requires |plan.teachers| > 0
  {
    plan.teachers[(j + i) % |plan.teachers|]
  }

  /** Class c is timetabled for section i in period j as the rotation has it. */
  predicate Placed(db: Db, plan: Plan, c: Class, i: nat, j: nat)
    requires |plan.teachers| > 0 && |plan.rooms| == |plan.sections|
  {
    && i < |plan.sections| && j < |plan.periods|
    && Slot(c, Monday, plan.periods[j]) in db.slots
    && c in db.classes
    && db.classes[c].teacher == TeacherAt(plan, i, j)
    && db.classes[c].room == Some(plan.rooms[i])
    && db.classes[c].section == Some(plan.sections[i])
  }

  /** The slot sits in a cell that comes before (i, j). */
  ghost predicate InEarlierCell(db: Db, plan: Plan, sl: Slot, i: nat, j: nat)
    requires |plan.teachers| > 0 && |plan.rooms| == |plan.sections|
  {
    && sl.day == Monday
    && exists a: nat, b: nat ::
         Placed(db, plan, sl.cls, a, b) && (a < i || (a == i && b < j)) && sl.period == plan.periods[b]
  }

  /** Every slot is a cell of the rotation that has already been filled. */
  ghost predicate OnlyCells(db: Db, plan: Plan, i: nat, j: nat)
    requires |plan.teachers| > 0 && |plan.rooms| == |plan.sections|
  {
    forall sl :: sl in db.slots ==> InEarlierCell(db, plan, sl, i, j)
  }

  lemma RemainderIs(x: nat, q: nat, r: nat, n: nat)
    requires r < n && x == q * n + r
    ensures x % n == r
  {
    var d := x / n - q;
    assert x == (x / n) * n + x % n;
    assert d * n == r - x % n;
    assert d == 0 by {
      if d > 0 { MulMonotone(1, d, n); }
      if d < 0 { MulMonotone(d, -1, n); }
    }
  }

  lemma MulMonotone(a: int, b: int, n: nat)
    requires a <= b
    ensures a * n <= b * n
  {
  }

  /** Two sections never meet the same subject in one period while there are no
      more sections than subjects. */
  lemma RowsOfTheSquareDiffer(n: nat, a: nat, i: nat, j: nat)
    requires a < i < n
    ensures (j + a) % n != (j + i) % n
  {
    var q, r := (j + a) / n, (j + a) % n;
    var sum := r + (i - a);
    if sum < n {
      RemainderIs(j + i, q, sum, n);
    } else {
      assert (q + 1) * n == q * n + n;
      RemainderIs(j + i, q + 1, sum - n, n);
    }
  }

  lemma Wraps(n: nat)
    requires n > 0
    ensures (0 + n) % n == (0 + 0) % n
  {
  }

  /** A cell of the rotation is free for its class. */
  lemma CellIsFree(db: Db, plan: Plan, c: Class, i: nat, j: nat)
    requires Prepared(db, plan) && OnlyCells(db, plan, i, j)
    requires i < |plan.sections| && j < |plan.periods| && i < |plan.teachers|
    requires c in db.classes && db.classes[c].teacher == TeacherAt(plan, i, j)
    requires db.classes[c].room == Some(plan.rooms[i]) && db.classes[c].section == Some(plan.sections[i])
    requires forall sl :: sl in db.slots ==> sl.cls != c
    ensures Timetable.Book(db, Slot(c, Monday, plan.periods[j])).Ok?
  {
    var sl := Slot(c, Monday, plan.periods[j]);
    forall o | o in Rivals(db, sl) ensures o in db.classes && !Clash(db.classes[c], db.classes[o]) {
      var other :| other in db.slots && other.day == Monday && other.period == sl.period && other.cls == o;
      assert InEarlierCell(db, plan, other, i, j);
      var a: nat, b: nat :|
        Placed(db, plan, other.cls, a, b) && (a < i || (a == i && b < j)) && other.period == plan.periods[b];
      assert b == j;
      RowsOfTheSquareDiffer(|plan.teachers|, a, i, j);
    }
  }

  /** In section n + 1 the first period finds the first section's teacher busy. */
  lemma CellIsTaken(db: Db, plan: Plan, first: Class, c: Class)
    requires |plan.teachers| > 0 && |plan.rooms| == |plan.sections|
    requires Placed(db, plan, first, 0, 0) && first != c
    requires c in db.classes && db.classes[c].teacher == TeacherAt(plan, |plan.teachers|, 0)
    ensures Timetable.Book(db, Slot(c, Monday, plan.periods[0])).Err?
  {
    Wraps(|plan.teachers|);
    assert first in Rivals(db, Slot(c, Monday, plan.periods[0]));
  }

  /** A new class for the cell: created, then attached to its section. */
  function NewClass(db: Db, plan: Plan, c: Class, i: nat, j: nat): Db
    requires |plan.teachers| > 0 && |plan.rooms| == |plan.sections| && i < |plan.sections|
  {
    db.(classes := db.classes[c := ClassRow(plan.term, TeacherAt(plan, i, j), Some(plan.rooms[i]), None, 30)])
  }

  lemma NewClassAttaches(db: Db, plan: Plan, c: Class, i: nat, j: nat)
    requires Prepared(db, plan) && i < |plan.sections| && c !in db.classes
    ensures
      var r := Requests.Attach(NewClass(db, plan, c, i, j), plan.sections[i], c);
      r.Ok? && Prepared(r.db, plan) && r.db.slots == db.slots && r.db.classes.Keys == db.classes.Keys + {c} &&
      r.db.classes[c] == ClassRow(plan.term, TeacherAt(plan, i, j), Some(plan.rooms[i]), Some(plan.sections[i]), 30) &&
      (forall o :: o in db.classes ==> r.db.classes[o] == db.classes[o])
  {
    assert plan.sections[i] in plan.sections;
  }

  lemma CellStays(db: Db, db': Db, plan: Plan, sl: Slot, i: nat, j: nat, i': nat, j': nat)
    requires |plan.teachers| > 0 && |plan.rooms| == |plan.sections|
    requires InEarlierCell(db, plan, sl, i, j) && db.slots <= db'.slots
    requires forall o :: o in db.classes ==> o in db'.classes && db'.classes[o] == db.classes[o]
    requires i < i' || (i == i' && j <= j')
    ensures InEarlierCell(db', plan, sl, i', j')
  {
    var a: nat, b: nat :|
      Placed(db, plan, sl.cls, a, b) && (a < i || (a == i && b < j)) && sl.period == plan.periods[b];
    assert Placed(db', plan, sl.cls, a, b);
  }

  lemma CellsStay(db: Db, db': Db, plan: Plan, i: nat, j: nat)
    requires |plan.teachers| > 0 && |plan.rooms| == |plan.sections|
    requires OnlyCells(db, plan, i, j) && db'.slots == db.slots
    requires forall o :: o in db.classes ==> o in db'.classes && db'.classes[o] == db.classes[o]
    ensures OnlyCells(db', plan, i, j)
  {
    forall sl | sl in db'.slots ensures InEarlierCell(db', plan, sl, i, j) {
      CellStays(db, db', plan, sl, i, j, i, j);
    }
  }

  lemma CellFilled(db: Db, plan: Plan, c: Class, i: nat, j: nat)
    requires Prepared(db, plan) && OnlyCells(db, plan, i, j) && i < |plan.sections| && j < |plan.periods|
    requires c in db.classes && db.classes[c].teacher == TeacherAt(plan, i, j)
    requires db.classes[c].room == Some(plan.rooms[i]) && db.classes[c].section == Some(plan.sections[i])
    ensures
      var db' := db.(slots := db.slots + {Slot(c, Monday, plan.periods[j])});
      OnlyCells(db', plan, i, j + 1) && Placed(db', plan, c, i, j)
  {
    var db' := db.(slots := db.slots + {Slot(c, Monday, plan.periods[j])});
    assert Placed(db', plan, c, i, j);
    forall sl | sl in db'.slots ensures InEarlierCell(db', plan, sl, i, j + 1) {
      if sl in db.slots {
        CellStays(db, db', plan, sl, i, j, i, j + 1);
      }
    }
  }

  lemma RowDone(db: Db, plan: Plan, i: nat)
    requires |plan.teachers| > 0 && |plan.rooms| == |plan.sections|
    requires OnlyCells(db, plan, i, |plan.periods|)
    ensures OnlyCells(db, plan, i + 1, 0)
  {
    forall sl | sl in db.slots ensures InEarlierCell(db, plan, sl, i + 1, 0) {
      CellStays(db, db, plan, sl, i, |plan.periods|, i + 1, 0);
    }
  }

  ghost predicate RowPlaced(db: Db, plan: Plan, row: seq<Class>, i: nat)
    requires |plan.teachers| > 0 && |plan.rooms| == |plan.sections|
  {
    forall b :: 0 <= b < |row| ==> Placed(db, plan, row[b], i, b)
  }

  /** What was timetabled stays as it is. */
  ghost predicate Keeps(db: Db, db': Db) {
    && db.slots <= db'.slots
    && forall o :: o in db.classes ==> o in db'.classes && db'.classes[o] == db.classes[o]
  }

  lemma RowKept(db: Db, db': Db, plan: Plan, row: seq<Class>, i: nat)
    requires |plan.teachers| > 0 && |plan.rooms| == |plan.sections|
    requires RowPlaced(db, plan, row, i) && Keeps(db, db')
    ensures RowPlaced(db', plan, row, i)
  {
    forall b | 0 <= b < |row| ensures Placed(db', plan, row[b], i, b) {
      assert Placed(db, plan, row[b], i, b);
    }
  }

  /** The store after creating and attaching the class of one cell. */
  function Attached(db: Db, plan: Plan, c: Class, i: nat, j: nat): Db
    requires Prepared(db, plan) && i < |plan.sections| && c !in db.classes
  {
    NewClassAttaches(db, plan, c, i, j);
    Requests.Attach(NewClass(db, plan, c, i, j), plan.sections[i], c).db
  }

  /** One cell: its booking succeeds exactly while the section has a number below n. */
  lemma FillCell(db: Db, plan: Plan, c: Class, i: nat, j: nat, first: Class)
    requires Prepared(db, plan) && i < |plan.sections| && j < |plan.periods| && c !in db.classes
    requires OnlyCells(db, plan, i, j) && (forall sl :: sl in db.slots ==> sl.cls in db.classes)
    requires i < |plan.teachers| || (i == |plan.teachers| && j == 0 && Placed(db, plan, first, 0, 0))
    ensures
      var r := Timetable.Book(Attached(db, plan, c, i, j), Slot(c, Monday, plan.periods[j]));
      (r.Ok? <==> i < |plan.teachers|) &&
      (r.Ok? ==>
        && Prepared(r.db, plan) && OnlyCells(r.db, plan, i, j + 1) && Placed(r.db, plan, c, i, j) && Keeps(db, r.db)
        && r.db.classes.Keys == db.classes.Keys + {c}
        && forall sl :: sl in r.db.slots ==> sl.cls in r.db.classes)
  {
    NewClassAttaches(db, plan, c, i, j);
    var db' := Attached(db, plan, c, i, j);
    if i < |plan.teachers| {
      CellsStay(db, db', plan, i, j);
      CellIsFree(db', plan, c, i, j);
      CellFilled(db', plan, c, i, j);
    } else {
      CellIsTaken(db', plan, first, c);
    }
  }

  /** The loop has filled the sections in done and the first cells of row. */
  ghost predicate Progress(db: Db, plan: Plan, done: seq<seq<Class>>, row: seq<Class>, nextId: nat) {
    && Prepared(db, plan)
    && OnlyCells(db, plan, |done|, |row|)
    && (plan.periods != [] ==> |done| <= |plan.teachers|)
    && (row != [] ==> |done| < |plan.teachers|)
    && (forall c :: c in db.classes ==> c < nextId)
    && (forall sl :: sl in db.slots ==> sl.cls in db.classes)
    && (forall a :: 0 <= a < |done| ==> |done[a]| == |plan.periods| && RowPlaced(db, plan, done[a], a))
    && RowPlaced(db, plan, row, |done|)
  }

  lemma CarryOver(db: Db, db': Db, plan: Plan, done: seq<seq<Class>>, row: seq<Class>, c: nat)
    requires Progress(db, plan, done, row, c) && |done| < |plan.teachers|
    requires Keeps(db, db') && Prepared(db', plan) && OnlyCells(db', plan, |done|, |row| + 1)
    requires Placed(db', plan, c, |done|, |row|) && db'.classes.Keys == db.classes.Keys + {c}
    requires forall sl :: sl in db'.slots ==> sl.cls in db'.classes
    ensures Progress(db', plan, done, row + [c], c + 1)
  {
    forall a | 0 <= a < |done| ensures RowPlaced(db', plan, done[a], a) {
      RowKept(db, db', plan, done[a], a);
    }
    RowKept(db, db', plan, row, |done|);
  }

  lemma NextCell(db: Db, plan: Plan, done: seq<seq<Class>>, row: seq<Class>, c: nat)
    requires Progress(db, plan, done, row, c) && |done| < |plan.sections| && |row| < |plan.periods|
    ensures
      var r := Timetable.Book(Attached(db, plan, c, |done|, |row|), Slot(c, Monday, plan.periods[|row|]));
      (r.Ok? <==> |done| < |plan.teachers|) && (r.Ok? ==> Progress(r.db, plan, done, row + [c], c + 1))
  {
    if |done| > 0 {
      assert RowPlaced(db, plan, done[0], 0);
      assert Placed(db, plan, done[0][0], 0, 0);
    }
    FillCell(db, plan, c, |done|, |row|, if |done| > 0 then done[0][0] else 0);
    var r := Timetable.Book(Attached(db, plan, c, |done|, |row|), Slot(c, Monday, plan.periods[|row|]));
    if r.Ok? {
      CarryOver(db, r.db, plan, done, row, c);
    }
  }

  lemma NextRow(db: Db, plan: Plan, done: seq<seq<Class>>, row: seq<Class>, nextId: nat)
    requires Progress(db, plan, done, row, nextId) && |row| == |plan.periods|
    ensures Progress(db, plan, done + [row], [], nextId)
  {
    RowDone(db, plan, |done|);
  }

  /** The nested loop of the script.  No booking is refused exactly when there
      are no more sections than subjects (or nothing to timetable). */
  method SeedTimetable(start: Db, plan: Plan)
    returns (db: Db, sectionClasses: seq<seq<Class>>, refused: Option<Timetable.Error>)
    requires Prepared(start, plan) && start.slots == {}
    ensures refused.None? <==> |plan.sections| <= |plan.teachers| || plan.periods == []
    ensures refused.None? ==> |sectionClasses| == |plan.sections| && OnlyCells(db, plan, |plan.sections|, 0)
    ensures refused.None? ==> forall i :: 0 <= i < |sectionClasses| ==>
      |sectionClasses[i]| == |plan.periods| && RowPlaced(db, plan, sectionClasses[i], i)
  {
    db, sectionClasses, refused := start, [], None;
    var nextId: nat := FreshId(start.classes.Keys);
    for i := 0 to |plan.sections|
      invariant refused == None && |sectionClasses| == i
      invariant Progress(db, plan, sectionClasses, [], nextId)
    {
      var row: seq<Class> := [];
      for j := 0 to |plan.periods|
        invariant refused == None && |row| == j
        invariant Progress(db, plan, sectionClasses, row, nextId)
      {
        var klass := nextId;
        NextCell(db, plan, sectionClasses, row, klass);
        var attached := Attached(db, plan, klass, i, j);
        var booked := Timetable.Book(attached, Slot(klass, Monday, plan.periods[j]));
        if booked.Err? {
          refused := Some(booked.error);
          return;
        }
        db := booked.db;
        row := row + [klass];
        nextId := klass + 1;
      }
      NextRow(db, plan, sectionClasses, row, nextId);
      sectionClasses := sectionClasses + [row];
    }
  }

  /** A generated key: above every key in use. */
  method FreshId(used: set<Class>) returns (id: nat)
    ensures forall c :: c in used ==> c < id
  {
    id := 0;
    var left := used;
    while left != {}
      invariant left <= used
      invariant forall c :: c in used && c !in left ==> c < id
      decreases left
    {
      var c: Class :| c in left;
      if c >= id {
        id := c + 1;
      }
      left := left - {c};
    }
  }
}
