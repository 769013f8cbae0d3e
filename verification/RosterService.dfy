/** The sections, enrolments and classes services as they run: statement by
    statement on a session, with the fan-out loops, and all or nothing. */
module RosterService {
  import opened School
  import opened UnitOfWork
  import opened Requests

  /** One turn of a fan-out loop. */
  lemma OneMoreKey(db: Db, keys: set<Key>, key: Key)
    ensures
      var so := EnrolMissing(db, keys);
      EnrolMissing(db, keys + {key}) == if key in so.enrol then so else so.(enrol := so.enrol[key := Active])
  {
  }

  function KeysOfClasses(x: Student, classes: seq<Class>): set<Key> {
    set c | c in classes :: (x, c)
  }

  function KeysOfSeats(seats: seq<Seat>, c: Class): set<Key> {
    set k | k in seats :: (k.0, c)
  }

  lemma NextClass(x: Student, classes: seq<Class>, n: nat)
    requires n < |classes|
    ensures KeysOfClasses(x, classes[..n + 1]) == KeysOfClasses(x, classes[..n]) + {(x, classes[n])}
  {
    assert classes[..n + 1] == classes[..n] + [classes[n]];
  }

  lemma NextSeat(seats: seq<Seat>, c: Class, n: nat)
    requires n < |seats|
    ensures KeysOfSeats(seats[..n + 1], c) == KeysOfSeats(seats[..n], c) + {(seats[n].0, c)}
  {
    assert seats[..n + 1] == seats[..n] + [seats[n]];
  }

  class SectionAssignmentService {
    const session: Session<Db>

    constructor (session: Session<Db>)
      ensures this.session == session
    {
      this.session := session;
    }

    method Assign(x: Student, s: Section) returns (reply: Reply<Error>)
      requires session.Idle()
      modifies session
      ensures Answers(session, Requests.Assign(old(session.committed), x, s), reply)
    {
      var db := session.committed;
      if x !in db.students {
        return Failed(StudentNotFound);
      }
      if s !in db.sections {
        return Failed(SectionNotFound);
      }
      var section := db.sections[s];
      if (x, section.year) in db.roster {
        return Failed(StudentAlreadyAssigned);
      }
      var assignedCount := |RosterRows(db, s)|;
      if assignedCount >= section.capacity {
        return Failed(SectionFull);
      }
      var ok := session.Flush(db.(roster := db.roster[(x, section.year) := s]));
      if !ok {
        return Unavailable;
      }
      var classes := InSomeOrder(AttachedTo(session.working, s));
      assert AttachedTo(session.working, s) == AttachedTo(db, s);
      var n := 0;
      while n < |classes|
        invariant 0 <= n <= |classes|
        invariant session.committed == db && session.faults == old(session.faults)
        invariant session.working == EnrolMissing(Seated(db, x, s), KeysOfClasses(x, classes[..n]))
      {
        var key := (x, classes[n]);
        NextClass(x, classes, n);
        OneMoreKey(Seated(db, x, s), KeysOfClasses(x, classes[..n]), key);
        if key !in session.working.enrol {
          ok := session.Flush(session.working.(enrol := session.working.enrol[key := Active]));
          if !ok {
            return Unavailable;
          }
        }
        n := n + 1;
      }
      assert classes[..n] == classes;
      assert KeysOfClasses(x, classes) == ClassKeys(db, x, s);
      ok := session.Commit();
      reply := if ok then Done else Unavailable;
    }

    method Unassign(x: Student, s: Section) returns (reply: Reply<Error>)
      requires session.Idle()
      modifies session
      ensures Answers(session, Requests.Unassign(old(session.committed), x, s), reply)
    {
      var rows := SeatsIn(session.working, x, s);
      if rows == {} {
        return Failed(AssignmentNotFound);
      }
      if |rows| > 1 {
        return Failed(SeveralAssignments);
      }
      var ok := session.Save(session.working.(roster := session.working.roster - rows));
      reply := if ok then Done else Unavailable;
    }
  }

  class SectionService {
    const session: Session<Db>

    constructor (session: Session<Db>)
      ensures this.session == session
    {
      this.session := session;
    }

    method AttachClass(s: Section, c: Class) returns (reply: Reply<Error>)
      requires session.Idle()
      modifies session
      ensures Answers(session, Requests.Attach(old(session.committed), s, c), reply)
    {
      var db := session.committed;
      if s !in db.sections {
        return Failed(SectionNotFound);
      }
      if c !in db.classes {
        return Failed(ClassNotFound);
      }
      var section, cls := db.sections[s], db.classes[c];
      if cls.section.Some? && cls.section != Some(s) {
        return Failed(ClassAlreadyAttached);
      }
      if cls.term !in db.terms {
        return Failed(TermNotFound);
      }
      if db.terms[cls.term] != section.year {
        return Failed(ClassYearMismatch);
      }
      var ok := session.Flush(db.(classes := db.classes[c := cls.(section := Some(s))]));
      if !ok {
        return Unavailable;
      }
      var assignments := InSomeOrder(RosterRows(session.working, s));
      assert RosterRows(session.working, s) == RosterRows(db, s);
      var n := 0;
      while n < |assignments|
        invariant 0 <= n <= |assignments|
        invariant session.committed == db && session.faults == old(session.faults)
        invariant session.working == EnrolMissing(Linked(db, s, c), KeysOfSeats(assignments[..n], c))
      {
        var key := (assignments[n].0, c);
        NextSeat(assignments, c, n);
        OneMoreKey(Linked(db, s, c), KeysOfSeats(assignments[..n], c), key);
        if key !in session.working.enrol {
          ok := session.Flush(session.working.(enrol := session.working.enrol[key := Active]));
          if !ok {
            return Unavailable;
          }
        }
        n := n + 1;
      }
      assert assignments[..n] == assignments;
      assert KeysOfSeats(assignments, c) == RosterKeys(db, s, c);
      ok := session.Commit();
      reply := if ok then Done else Unavailable;
    }

    method DetachClass(s: Section, c: Class) returns (reply: Reply<Error>)
      requires session.Idle()
      modifies session
      ensures Answers(session, Requests.Detach(old(session.committed), s, c), reply)
    {
      if s !in session.working.sections {
        return Failed(SectionNotFound);
      }
      if c !in session.working.classes {
        return Failed(ClassNotFound);
      }
      var cls := session.working.classes[c];
      if cls.section != Some(s) {
        return Failed(ClassNotAttached);
      }
      var ok := session.Save(session.working.(classes := session.working.classes[c := cls.(section := None)]));
      reply := if ok then Done else Unavailable;
    }
  }

  class EnrollmentService {
    const session: Session<Db>

    constructor (session: Session<Db>)
      ensures this.session == session
    {
      this.session := session;
    }

    method Enroll(caller: Caller, x: Student, c: Class) returns (reply: Reply<Error>)
      requires session.Idle()
      modifies session
      ensures Answers(session, Requests.Enroll(old(session.committed), caller, x, c), reply)
    {
      if x !in session.working.students {
        return Failed(StudentNotFound);
      }
      if c !in session.working.classes {
        return Failed(ClassNotFound);
      }
      var cls := session.working.classes[c];
      if !OwnsClass(caller, cls) {
        return Failed(NotYourClass);
      }
      if (x, c) in session.working.enrol {
        return Failed(EnrolmentAlreadyExists);
      }
      var activeCount := |ActiveRows(session.working, c)|;
      if activeCount >= cls.capacity {
        return Failed(ClassFull);
      }
      var ok := session.Save(session.working.(enrol := session.working.enrol[(x, c) := Active]));
      reply := if ok then Done else Unavailable;
    }

    method Drop(caller: Caller, key: Key) returns (reply: Reply<Error>)
      requires session.Idle()
      modifies session
      ensures Answers(session, Requests.Drop(old(session.committed), caller, key), reply)
    {
      var hidden := GetError(session.working, caller, key);
      if hidden.Some? {
        return Failed(hidden.value);
      }
      if session.working.enrol[key] != Active {
        return Failed(EnrolmentNotActive);
      }
      var ok := session.Save(session.working.(enrol := session.working.enrol[key := Dropped]));
      reply := if ok then Done else Unavailable;
    }
  }

  class ClassService {
    const session: Session<Db>

    constructor (session: Session<Db>)
      ensures this.session == session
    {
      this.session := session;
    }

    method Update(c: Class, patch: Patch) returns (reply: Reply<Error>)
      requires session.Idle()
      modifies session
      ensures Answers(session, Requests.UpdateClass(old(session.committed), c, patch), reply)
    {
      if patch.capacity.Some? && patch.capacity.value <= 0 {
        return Failed(InvalidCapacity);
      }
      if c !in session.working.classes {
        return Failed(ClassNotFound);
      }
      var cls := session.working.classes[c];
      if patch.term.Some? && patch.term.value !in session.working.terms {
        return Failed(TermNotFound);
      }
      if patch.term.Some? && cls.section.Some? && patch.term.value != cls.term {
        return Failed(ClassAttachedToSection);
      }
      if patch.term.Some? {
        cls := cls.(term := patch.term.value);
      }
      if patch.teacher.Some? {
        cls := cls.(teacher := patch.teacher.value);
      }
      if patch.room.Some? {
        cls := cls.(room := patch.room.value);
      }
      if patch.capacity.Some? {
        cls := cls.(capacity := patch.capacity.value);
      }
      var ok := session.Save(session.working.(classes := session.working.classes[c := cls]));
      reply := if ok then Done else Unavailable;
    }
  }
}
