/** Whole sequential runs from the empty store. */
module RunProperties {
  import opened School
  import opened Requests
  import Coverage
  import Discipline

  /** Copied years agree with the section, attached classes with its year. */
  ghost predicate Sound(db: Db) {
    Discipline.DbOk(db) && YearsRight(db)
  }

  lemma EnrolKeepsDb(db: Db, db': Db)
    requires Sound(db) && db' == db.(enrol := db'.enrol)
    ensures Sound(db')
  {
  }

  lemma SeatedKeepsDb(db: Db, x: Student, s: Section)
    requires Sound(db) && s in db.sections
    ensures Sound(Seated(db, x, s))
  {
  }

  lemma AttachKeepsDb(db: Db, s: Section, c: Class)
    requires Sound(db) && Attach(db, s, c).Ok?
    ensures Sound(Linked(db, s, c))
  {
  }

  lemma OthersKeepDb(db: Db, r: Request)
    requires Sound(db) && !r.AssignR? && !r.AttachR? && !r.EnrollR? && !r.DropR?
    ensures Sound(After(db, r))
  {
  }

  lemma ServeKeepsDb(db: Db, r: Request)
    requires Sound(db)
    ensures Sound(After(db, r))
  {
    match r
    case AssignR(x, s) =>
      if Assign(db, x, s).Ok? {
        SeatedKeepsDb(db, x, s);
        EnrolKeepsDb(Seated(db, x, s), After(db, r));
      }
    case AttachR(s, c) =>
      if Attach(db, s, c).Ok? {
        AttachKeepsDb(db, s, c);
        EnrolKeepsDb(Linked(db, s, c), After(db, r));
      }
    case EnrollR(_, _, _) => EnrolKeepsDb(db, After(db, r));
    case DropR(_, _) => EnrolKeepsDb(db, After(db, r));
    case _ => OthersKeepDb(db, r);
  }

  lemma AssignKeepsCovered(db: Db, x: Student, s: Section)
    requires Coverage.Covered(db) && s in db.sections
    ensures Coverage.Covered(EnrolMissing(Seated(db, x, s), ClassKeys(db, x, s)))
  {
    var missing := ClassKeys(db, x, s) - db.enrol.Keys;
    forall c | c in db.classes && db.classes[c].section == Some(s) ensures (x, c) in missing || (x, c) in db.enrol {
      assert (x, c) in ClassKeys(db, x, s);
    }
    Coverage.SeatCovers(db, x, db.sections[s].year, s, missing);
  }

  lemma AttachKeepsCovered(db: Db, s: Section, c: Class)
    requires Coverage.Covered(db) && c in db.classes
    ensures Coverage.Covered(EnrolMissing(Linked(db, s, c), RosterKeys(db, s, c)))
  {
    var missing := RosterKeys(db, s, c) - db.enrol.Keys;
    forall k | k in db.roster && db.roster[k] == s ensures (k.0, c) in missing || (k.0, c) in db.enrol {
      assert k in RosterRows(db, s) && (k.0, c) in RosterKeys(db, s, c);
    }
    Coverage.AttachmentCovers(db, s, c, missing);
  }

  lemma OthersKeepCovered(db: Db, r: Request)
    requires Sound(db) && Coverage.Covered(db) && !r.AssignR? && !r.AttachR?
    ensures Coverage.Covered(After(db, r))
  {
  }

  lemma ServeKeepsCovered(db: Db, r: Request)
    requires Sound(db) && Coverage.Covered(db)
    ensures Coverage.Covered(After(db, r))
  {
    match r
    case AssignR(x, s) =>
      if Assign(db, x, s).Ok? {
        AssignKeepsCovered(db, x, s);
      }
    case AttachR(s, c) =>
      if Attach(db, s, c).Ok? {
        AttachKeepsCovered(db, s, c);
      }
    case _ => OthersKeepCovered(db, r);
  }

  /** In every run: copied years are right, and attached classes are of the
      section's year. */
  lemma {:induction false} RunKeepsYears(reqs: seq<Request>)
    ensures Sound(Run(reqs)) && Coverage.Covered(Run(reqs))
  {
    if reqs != [] {
      var before := Run(reqs[..|reqs| - 1]);
      RunKeepsYears(reqs[..|reqs| - 1]);
      ServeKeepsDb(before, reqs[|reqs| - 1]);
      ServeKeepsCovered(before, reqs[|reqs| - 1]);
    }
  }

  /** So a student is on the roster of at most one section of a year. */
  lemma OneSectionPerYear(reqs: seq<Request>, x: Student, s: Section, s': Section)
    requires OnRoster(Run(reqs), x, s) && OnRoster(Run(reqs), x, s')
    ensures s in Run(reqs).sections && s' in Run(reqs).sections
    ensures Run(reqs).sections[s].year == Run(reqs).sections[s'].year ==> s == s'
  {
    RunKeepsYears(reqs);
  }

  // ---- where enrolment rows come from -----------------------------------------------

  /** x on the roster of a section that c is attached to. */
  ghost predicate Together(db: Db, k: Key) {
    exists s :: OnRoster(db, k.0, s) && k.1 in AttachedTo(db, s)
  }

  predicate Enrols(db: Db, r: Request, k: Key) {
    r.EnrollR? && (r.x, r.c) == k && Serve(db, r).Ok?
  }

  lemma TogetherIsEnrolled(db: Db, k: Key)
    requires Coverage.Covered(db) && Together(db, k)
    ensures k in db.enrol
  {
  }

  /** A fan-out only adds rows for a student and a class it has brought together. */
  lemma NewRowIsExplained(db: Db, r: Request, k: Key)
    requires k !in db.enrol && k in After(db, r).enrol
    ensures Enrols(db, r, k) || Together(After(db, r), k)
  {
    var db' := After(db, r);
    match r
    case AssignR(x, s) =>
      assert db'.roster[(x, db.sections[s].year)] == s && k.1 in AttachedTo(db', s);
      assert OnRoster(db', k.0, s);
    case AttachR(s, c) =>
      var seat :| seat in RosterRows(db, s) && k == (seat.0, c);
      assert db'.roster[seat] == s && c in AttachedTo(db', s);
      assert OnRoster(db', k.0, s);
    case _ =>
  }

  lemma RowsStay(db: Db, r: Request, k: Key)
    requires k in db.enrol
    ensures k in After(db, r).enrol
  {
  }

  ghost predicate EnrolledAlone(reqs: seq<Request>, k: Key) {
    exists n :: 0 <= n < |reqs| && Enrols(Run(reqs[..n]), reqs[n], k)
  }

  ghost predicate OnceTogether(reqs: seq<Request>, k: Key) {
    exists n :: 0 <= n <= |reqs| && Together(Run(reqs[..n]), k)
  }

  lemma {:induction false} RowIsExplained(reqs: seq<Request>, k: Key)
    requires k in Run(reqs).enrol
    ensures EnrolledAlone(reqs, k) || OnceTogether(reqs, k)
  {
    if reqs != [] {
      var n := |reqs| - 1;
      var front := reqs[..n];
      if k in Run(front).enrol {
        RowIsExplained(front, k);
        if EnrolledAlone(front, k) {
          var m :| 0 <= m < |front| && Enrols(Run(front[..m]), front[m], k);
          assert front[..m] == reqs[..m];
        } else {
          var m :| 0 <= m <= |front| && Together(Run(front[..m]), k);
          assert front[..m] == reqs[..m];
        }
      } else {
        NewRowIsExplained(Run(front), reqs[n], k);
        assert reqs[..|reqs|] == reqs;
      }
    }
  }

  lemma {:induction false} ExplainedHasRow(reqs: seq<Request>, k: Key, n: nat)
    requires n <= |reqs|
    requires (n < |reqs| && Enrols(Run(reqs[..n]), reqs[n], k)) || Together(Run(reqs[..n]), k)
    ensures k in Run(reqs).enrol
  {
    if Together(Run(reqs[..n]), k) {
      RunKeepsYears(reqs[..n]);
      TogetherIsEnrolled(Run(reqs[..n]), k);
      RowsStayInRun(reqs, k, n);
    } else {
      assert reqs[..n + 1][..n] == reqs[..n];
      RowsStayInRun(reqs, k, n + 1);
    }
  }

  lemma {:induction false} RowsStayInRun(reqs: seq<Request>, k: Key, n: nat)
    requires n <= |reqs| && k in Run(reqs[..n]).enrol
    ensures k in Run(reqs).enrol
  {
    if n == |reqs| {
      assert reqs[..n] == reqs;
    } else {
      var front := reqs[..|reqs| - 1];
      assert front[..n] == reqs[..n];
      RowsStayInRun(front, k, n);
      RowsStay(Run(front), reqs[|reqs| - 1], k);
    }
  }

  /** The rows of the enrolment table are exactly the pairs enrolled one by one
      and the pairs that were at some moment together through a section. */
  lemma EnrolmentProvenance(reqs: seq<Request>, k: Key)
    ensures k in Run(reqs).enrol <==> EnrolledAlone(reqs, k) || OnceTogether(reqs, k)
  {
    if k in Run(reqs).enrol {
      RowIsExplained(reqs, k);
    }
    if EnrolledAlone(reqs, k) {
      var n :| 0 <= n < |reqs| && Enrols(Run(reqs[..n]), reqs[n], k);
      ExplainedHasRow(reqs, k, n);
    }
    if OnceTogether(reqs, k) {
      var n :| 0 <= n <= |reqs| && Together(Run(reqs[..n]), k);
      ExplainedHasRow(reqs, k, n);
    }
  }

  /** No fan-out crosses years: a row that is not an individual enrolment starts
      with the student in a section of the class's own year. */
  lemma NoFanOutAcrossYears(reqs: seq<Request>, r: Request, k: Key)
    requires k !in Run(reqs).enrol && k in After(Run(reqs), r).enrol && !Enrols(Run(reqs), r, k)
    ensures
      var db := After(Run(reqs), r);
      exists y :: (k.0, y) in db.roster && InYear(db, k.1, y)
  {
    RunKeepsYears(reqs);
    ServeKeepsDb(Run(reqs), r);
    NewRowIsExplained(Run(reqs), r, k);
    var db := After(Run(reqs), r);
    var s :| OnRoster(db, k.0, s) && k.1 in AttachedTo(db, s);
    var seat :| seat in db.roster && db.roster[seat] == s && seat.0 == k.0;
    assert (k.0, seat.1) in db.roster && InYear(db, k.1, seat.1);
  }

  // ---- order does not matter ----------------------------------------------------------

  /** The pair that only the second of the two operations can see. */
  function Shared(x: Student, s: Section, s': Section, c: Class): set<Key> {
    if s == s' then {(x, c)} else {}
  }

  lemma LinkedKeys(db: Db, keys: set<Key>, x: Student, s: Section, s': Section, c: Class)
    requires c in db.classes && (db.classes[c].section.Some? ==> db.classes[c].section == Some(s'))
    ensures ClassKeys(EnrolMissing(Linked(db, s', c), keys), x, s) == ClassKeys(db, x, s) + Shared(x, s, s', c)
  {
    var db' := EnrolMissing(Linked(db, s', c), keys);
    assert AttachedTo(db', s) == AttachedTo(db, s) + (if s == s' then {c} else {});
  }

  lemma SeatedKeys(db: Db, keys: set<Key>, x: Student, s: Section, s': Section, c: Class)
    requires s in db.sections && (x, db.sections[s].year) !in db.roster
    ensures RosterKeys(EnrolMissing(Seated(db, x, s), keys), s', c) == RosterKeys(db, s', c) + Shared(x, s, s', c)
  {
    var db' := EnrolMissing(Seated(db, x, s), keys);
    var seat := (x, db.sections[s].year);
    assert RosterRows(db', s') == RosterRows(db, s') + (if s == s' then {seat} else {});
    assert s == s' ==> seat in RosterRows(db', s');
  }

  lemma MissingTwice(enrol: map<Key, Status>, one: set<Key>, two: set<Key>)
    ensures
      var once := AddRows(enrol, one - enrol.Keys);
      AddRows(once, two - once.Keys) == AddRows(enrol, one + two - enrol.Keys)
  {
  }

  lemma EnrolTwice(db: Db, one: set<Key>, two: set<Key>)
    ensures EnrolMissing(EnrolMissing(db, one), two) == EnrolMissing(db, one + two)
  {
    MissingTwice(db.enrol, one, two);
  }

  lemma LinkThenEnrol(db: Db, keys: set<Key>, s: Section, c: Class)
    requires c in db.classes
    ensures Linked(EnrolMissing(db, keys), s, c) == EnrolMissing(Linked(db, s, c), keys)
  {
  }

  lemma SeatThenEnrol(db: Db, keys: set<Key>, x: Student, s: Section)
    requires s in db.sections
    ensures Seated(EnrolMissing(db, keys), x, s) == EnrolMissing(Seated(db, x, s), keys)
  {
  }

  lemma AssignSucceedsAlike(db: Db, x: Student, s: Section, s': Section, c: Class)
    requires Attach(db, s', c).Ok?
    ensures Assign(Attach(db, s', c).db, x, s).Ok? == Assign(db, x, s).Ok?
  {
    assert RosterRows(Attach(db, s', c).db, s) == RosterRows(db, s);
  }

  /** Both done, in whichever order: the seat, the attachment, and a row for every
      pair that either of them brings together. */
  function Joint(db: Db, x: Student, s: Section, s': Section, c: Class): Db
    requires s in db.sections && c in db.classes
  {
    EnrolMissing(Linked(Seated(db, x, s), s', c), ClassKeys(db, x, s) + RosterKeys(db, s', c) + Shared(x, s, s', c))
  }

  lemma AttachAfterAssign(db: Db, x: Student, s: Section, s': Section, c: Class)
    requires Assign(db, x, s).Ok? && Attach(db, s', c).Ok?
    ensures After(Assign(db, x, s).db, AttachR(s', c)) == Joint(db, x, s, s', c)
  {
    var one, two, both := ClassKeys(db, x, s), RosterKeys(db, s', c), Shared(x, s, s', c);
    SeatedKeys(db, one, x, s, s', c);
    LinkThenEnrol(Seated(db, x, s), one, s', c);
    EnrolTwice(Linked(Seated(db, x, s), s', c), one, two + both);
    assert one + (two + both) == one + two + both;
  }

  lemma AssignIs(db: Db, x: Student, s: Section)
    requires Assign(db, x, s).Ok?
    ensures s in db.sections && After(db, AssignR(x, s)) == EnrolMissing(Seated(db, x, s), ClassKeys(db, x, s))
  {
  }

  lemma SeatLinked(db: Db, keys: set<Key>, x: Student, s: Section, s': Section, c: Class)
    requires s in db.sections && c in db.classes
    ensures EnrolMissing(Seated(Linked(db, s', c), x, s), keys) == EnrolMissing(Linked(Seated(db, x, s), s', c), keys)
  {
  }

  lemma AssignAfterAttach(db: Db, x: Student, s: Section, s': Section, c: Class)
    requires Assign(db, x, s).Ok? && Attach(db, s', c).Ok?
    ensures After(Attach(db, s', c).db, AssignR(x, s)) == Joint(db, x, s, s', c)
  {
    var one, two, both := ClassKeys(db, x, s), RosterKeys(db, s', c), Shared(x, s, s', c);
    AssignSucceedsAlike(db, x, s, s', c);
    AssignIs(EnrolMissing(Linked(db, s', c), two), x, s);
    LinkedKeys(db, two, x, s, s', c);
    SeatThenEnrol(Linked(db, s', c), two, x, s);
    EnrolTwice(Seated(Linked(db, s', c), x, s), two, one + both);
    assert two + (one + both) == one + two + both;
    SeatLinked(db, one + two + both, x, s, s', c);
  }

  lemma AttachSucceedsAlike(db: Db, x: Student, s: Section, s': Section, c: Class)
    requires Assign(db, x, s).Ok?
    ensures Attach(Assign(db, x, s).db, s', c).Ok? == Attach(db, s', c).Ok?
  {
  }

  lemma BothOrders(db: Db, x: Student, s: Section, s': Section, c: Class)
    requires Assign(db, x, s).Ok? && Attach(db, s', c).Ok?
    ensures After(Assign(db, x, s).db, AttachR(s', c)) == After(Attach(db, s', c).db, AssignR(x, s))
  {
    AttachAfterAssign(db, x, s, s', c);
    AssignAfterAttach(db, x, s, s', c);
  }

  /** Assigning and attaching commute: whatever the store, whichever of the two
      fails, both orders end in the same store. */
  lemma AssignAttachCommute(db: Db, x: Student, s: Section, s': Section, c: Class)
    ensures After(After(db, AssignR(x, s)), AttachR(s', c)) == After(After(db, AttachR(s', c)), AssignR(x, s))
  {
    if Assign(db, x, s).Ok? && Attach(db, s', c).Ok? {
      BothOrders(db, x, s, s', c);
    } else if Attach(db, s', c).Ok? {
      AssignSucceedsAlike(db, x, s, s', c);
    } else if Assign(db, x, s).Ok? {
      AttachSucceedsAlike(db, x, s, s', c);
    }
  }

  /** Attaching again changes nothing. */
  lemma AttachTwice(db: Db, s: Section, c: Class)
    requires Attach(db, s, c).Ok?
    ensures After(Attach(db, s, c).db, AttachR(s, c)) == Attach(db, s, c).db
    ensures Attach(Attach(db, s, c).db, s, c).Ok?
  {
  }
}
