/** Capacity under interleaving.  A section's roster stays within the largest
    capacity the section has had.  A class's ACTIVE rows stay within the largest
    capacity the class has had plus the rows that fan-outs put into it, which
    ignore class capacity by design. */
module Capacity {
  import opened School
  import opened Interleaving
  import opened Discipline

  /** ACTIVE rows that came from individual enrolment. */
  function Individual(db: Db, fanned: set<Key>, c: Class): set<Key> {
    ActiveRows(db, c) - fanned
  }

  function FannedInto(fanned: set<Key>, c: Class): set<Key> {
    set k | k in fanned && k.1 == c
  }

  lemma SubsetSize<T>(a: set<T>, b: set<T>)
    requires a <= b
    ensures |a| <= |b|
  {
    assert b == a + (b - a);
  }

  // ---- sections -------------------------------------------------------------

  ghost predicate SectionOk(a: Sys, s: Section)
    requires s in a.db.sections
  {
    && s in a.peakSection
    && a.db.sections[s].capacity <= a.peakSection[s]
    && |RosterRows(a.db, s)| <= a.peakSection[s]
  }

  ghost predicate RoomLeft(a: Sys, t: Tx) {
    t.op.Assign? && t.op.s in a.peakSection ==>
      && (SectionLock(t).Some? ==> t.section.capacity <= a.peakSection[t.op.s])
      && (t.pc == InsertSeat || StagedSeat(t).Some? ==> |RosterRows(a.db, t.op.s)| < a.peakSection[t.op.s])
  }

  // ---- classes --------------------------------------------------------------

  ghost predicate ClassOk(a: Sys, c: Class)
    requires c in a.db.classes
  {
    && c in a.peakClass
    && a.db.classes[c].capacity <= a.peakClass[c]
    && |Individual(a.db, a.fanned, c)| <= a.peakClass[c]
  }

  ghost predicate PlaceLeft(a: Sys, t: Tx) {
    t.op.Enroll? && t.op.c in a.peakClass && (t.pc == InsertEnrolment || t.pc == Committing) ==>
      |Individual(a.db, a.fanned, t.op.c)| < a.peakClass[t.op.c]
  }

  ghost predicate Bounded(a: Sys) {
    && (forall s :: s in a.db.sections ==> SectionOk(a, s))
    && (forall c :: c in a.db.classes ==> ClassOk(a, c))
    && (forall i :: i in a.txs ==> RoomLeft(a, a.txs[i]) && PlaceLeft(a, a.txs[i]))
    && (forall k :: k in a.db.enrol ==> k.1 in a.db.classes)
  }

  // ---- one transaction moves -------------------------------------------------

  lemma MoveKeepsRoom(a: Sys, t: Tx, t': Tx)
    requires RoomLeft(a, t) && Moves(a.db, t, t')
    requires forall s :: s in a.db.sections ==> SectionOk(a, s)
    ensures RoomLeft(a, t')
  {
    assert t.op.Assign? && t.op.s in a.db.sections ==> SectionOk(a, t.op.s);
  }

  lemma MoveKeepsPlace(a: Sys, t: Tx, t': Tx)
    requires RightPc(t) && RowsOk(a.db, t) && PlaceLeft(a, t) && Moves(a.db, t, t')
    requires t.op.Enroll? && t.op.c in a.db.classes ==> ClassOk(a, t.op.c)
    ensures PlaceLeft(a, t')
  {
    if t.pc == CountActive {
      SubsetSize(Individual(a.db, a.fanned, t.op.c), ActiveRows(a.db, t.op.c));
    }
  }

  // ---- the store changes: counts seen by everyone else only shrink -----------

  /** Counts and peaks of section s and class c seen from b are no worse. */
  ghost predicate NoWorse(a: Sys, b: Sys, s: Section, c: Class) {
    && |RosterRows(b.db, s)| <= |RosterRows(a.db, s)|
    && |Individual(b.db, b.fanned, c)| <= |Individual(a.db, a.fanned, c)|
  }

  lemma RosterShrinks(db: Db, db': Db, s: Section)
    requires forall k :: k in db'.roster && db'.roster[k] == s ==> k in db.roster && db.roster[k] == s
    ensures |RosterRows(db', s)| <= |RosterRows(db, s)|
  {
    SubsetSize(RosterRows(db', s), RosterRows(db, s));
  }

  lemma IndividualShrinks(a: Sys, b: Sys, c: Class)
    requires a.fanned <= b.fanned
    requires forall k :: k in b.db.enrol && k.1 == c && b.db.enrol[k] == Active && k !in b.fanned ==>
                           k in a.db.enrol && a.db.enrol[k] == Active
    ensures |Individual(b.db, b.fanned, c)| <= |Individual(a.db, a.fanned, c)|
  {
    SubsetSize(Individual(b.db, b.fanned, c), Individual(a.db, a.fanned, c));
  }

  lemma SeatTaken(a: Sys, b: Sys, i: Tid)
    requires Commits(a, b, i) && TxOk(a.db, a.txs[i]) && a.txs[i].op.Assign?
    ensures |RosterRows(b.db, a.txs[i].op.s)| <= |RosterRows(a.db, a.txs[i].op.s)| + 1
  {
    var t := a.txs[i];
    SubsetSize(RosterRows(b.db, t.op.s), RosterRows(a.db, t.op.s) + {(t.op.x, t.section.year)});
  }

  lemma PlaceTaken(a: Sys, b: Sys, i: Tid)
    requires Commits(a, b, i) && TxOk(a.db, a.txs[i]) && a.txs[i].op.Enroll?
    ensures |Individual(b.db, b.fanned, a.txs[i].op.c)| <= |Individual(a.db, a.fanned, a.txs[i].op.c)| + 1
  {
    var t := a.txs[i];
    SubsetSize(Individual(b.db, b.fanned, t.op.c), Individual(a.db, a.fanned, t.op.c) + {(t.op.x, t.op.c)});
  }

  lemma ChangeNoWorse(a: Sys, b: Sys, ch: Change, s: Section, c: Class)
    requires Writes(a, b, ch)
    ensures NoWorse(a, b, s, c)
  {
    RosterShrinks(a.db, b.db, s);
    IndividualShrinks(a, b, c);
  }

  // ---- the invariant ---------------------------------------------------------

  lemma CommitKeepsSection(a: Sys, b: Sys, i: Tid, s: Section)
    requires Commits(a, b, i) && TxOk(a.db, a.txs[i]) && RoomLeft(a, a.txs[i])
    requires s in a.db.sections && SectionOk(a, s)
    ensures SectionOk(b, s)
  {
    if a.txs[i].op.Assign? && a.txs[i].op.s == s {
      SeatTaken(a, b, i);
    } else {
      RosterShrinks(a.db, b.db, s);
    }
  }

  lemma CommitKeepsClass(a: Sys, b: Sys, i: Tid, c: Class)
    requires Commits(a, b, i) && TxOk(a.db, a.txs[i]) && PlaceLeft(a, a.txs[i])
    requires c in a.db.classes && ClassOk(a, c)
    ensures ClassOk(b, c)
  {
    if a.txs[i].op.Enroll? && a.txs[i].op.c == c {
      PlaceTaken(a, b, i);
    } else {
      IndividualShrinks(a, b, c);
    }
  }

  lemma CommitKeepsBounded(a: Sys, b: Sys, i: Tid)
    requires Discipline.Inv(a) && Bounded(a) && Commits(a, b, i)
    ensures Bounded(b)
  {
    assert TxOk(a.db, a.txs[i]) && RoomLeft(a, a.txs[i]) && PlaceLeft(a, a.txs[i]);
    forall s | s in b.db.sections ensures SectionOk(b, s) {
      CommitKeepsSection(a, b, i, s);
    }
    forall c | c in b.db.classes ensures ClassOk(b, c) {
      CommitKeepsClass(a, b, i, c);
    }
    forall j | j in b.txs ensures RoomLeft(b, b.txs[j]) && PlaceLeft(b, b.txs[j]) {
      CommitKeepsRoom(a, b, i, j);
      CommitKeepsPlace(a, b, i, j);
    }
    CommitKeepsKeys(a, b, i);
  }

  lemma CommitKeepsKeys(a: Sys, b: Sys, i: Tid)
    requires Discipline.Inv(a) && Commits(a, b, i)
    requires forall k :: k in a.db.enrol ==> k.1 in a.db.classes
    ensures forall k :: k in b.db.enrol ==> k.1 in b.db.classes
  {
    assert TxOk(a.db, a.txs[i]);
  }

  lemma CommitKeepsRoom(a: Sys, b: Sys, i: Tid, j: Tid)
    requires Commits(a, b, i) && j in b.txs && PairOk(a.txs[j], a.txs[i])
    requires RoomLeft(a, a.txs[j])
    ensures RoomLeft(b, b.txs[j])
  {
    if a.txs[j].op.Assign? && SectionLock(a.txs[j]).Some? {
      RosterShrinks(a.db, b.db, a.txs[j].op.s);
    }
  }

  lemma CommitKeepsPlace(a: Sys, b: Sys, i: Tid, j: Tid)
    requires Commits(a, b, i) && j in b.txs && PairOk(a.txs[j], a.txs[i]) && TxOk(a.db, a.txs[i])
    requires PlaceLeft(a, a.txs[j])
    ensures PlaceLeft(b, b.txs[j])
  {
    if a.txs[j].op.Enroll? && ClassLock(a.txs[j]).Some? {
      IndividualShrinks(a, b, a.txs[j].op.c);
    }
  }

  lemma ChangeKeepsSection(a: Sys, b: Sys, ch: Change, s: Section)
    requires Discipline.DbOk(a.db) && Writes(a, b, ch) && s in b.db.sections
    requires s in a.db.sections ==> SectionOk(a, s)
    ensures SectionOk(b, s)
  {
    ChangeNoWorse(a, b, ch, s, 0);
    if s !in a.db.sections {
      assert RosterRows(a.db, s) == {};
    }
  }

  lemma ChangeKeepsClass(a: Sys, b: Sys, ch: Change, c: Class)
    requires Writes(a, b, ch) && c in b.db.classes
    requires c in a.db.classes ==> ClassOk(a, c)
    requires forall k :: k in a.db.enrol ==> k.1 in a.db.classes
    ensures ClassOk(b, c)
  {
    ChangeNoWorse(a, b, ch, 0, c);
    if c !in a.db.classes {
      assert Individual(a.db, a.fanned, c) == {};
    }
  }

  lemma ChangeKeepsRoom(a: Sys, b: Sys, ch: Change, u: Tx)
    requires Writes(a, b, ch) && RowsOk(a.db, u) && RoomLeft(a, u)
    requires u.op.Assign? && SectionLock(u).Some? ==> SectionOk(a, u.op.s)
    ensures RoomLeft(b, u)
  {
    ChangeNoWorse(a, b, ch, if u.op.Assign? then u.op.s else 0, 0);
  }

  lemma ChangeKeepsPlace(a: Sys, b: Sys, ch: Change, u: Tx)
    requires Writes(a, b, ch) && RowsOk(a.db, u) && PlaceLeft(a, u)
    requires u.op.Enroll? && ClassLock(u).Some? ==> ClassOk(a, u.op.c)
    ensures PlaceLeft(b, u)
  {
    ChangeNoWorse(a, b, ch, 0, if u.op.Enroll? then u.op.c else 0);
  }

  lemma ChangeKeepsBounded(a: Sys, b: Sys, ch: Change)
    requires Discipline.Inv(a) && Bounded(a) && Writes(a, b, ch)
    ensures Bounded(b)
  {
    forall s | s in b.db.sections ensures SectionOk(b, s) {
      ChangeKeepsSection(a, b, ch, s);
    }
    forall c | c in b.db.classes ensures ClassOk(b, c) {
      ChangeKeepsClass(a, b, ch, c);
    }
    forall j | j in b.txs ensures RoomLeft(b, b.txs[j]) && PlaceLeft(b, b.txs[j]) {
      ChangeKeepsLeft(a, b, ch, j);
    }
    ChangeKeepsKeys(a, ch);
  }

  lemma ChangeKeepsKeys(a: Sys, ch: Change)
    requires Allowed(a, ch)
    ensures ChangeDb(a.db, ch).enrol.Keys == a.db.enrol.Keys && a.db.classes.Keys <= ChangeDb(a.db, ch).classes.Keys
  {
  }

  lemma ChangeKeepsLeft(a: Sys, b: Sys, ch: Change, j: Tid)
    requires Discipline.Inv(a) && Bounded(a) && Writes(a, b, ch) && j in a.txs
    ensures RoomLeft(b, a.txs[j]) && PlaceLeft(b, a.txs[j])
  {
    assert TxOk(a.db, a.txs[j]);
    ChangeKeepsRoom(a, b, ch, a.txs[j]);
    ChangeKeepsPlace(a, b, ch, a.txs[j]);
  }

  /** Beginning, aborting or moving one transaction leaves the counts alone. */
  lemma TxsKeepBounded(a: Sys, b: Sys)
    requires Bounded(a) && b == a.(txs := b.txs)
    requires forall j :: j in b.txs ==> RoomLeft(a, b.txs[j]) && PlaceLeft(a, b.txs[j])
    ensures Bounded(b)
  {
  }

  lemma AdvanceKeepsBounded(a: Sys, b: Sys, i: Tid, next: Tx)
    requires Discipline.Inv(a) && Bounded(a) && Advances(a, b, i, next)
    ensures Bounded(b)
  {
    assert TxOk(a.db, a.txs[i]) && RoomLeft(a, a.txs[i]) && PlaceLeft(a, a.txs[i]);
    MoveKeepsRoom(a, a.txs[i], next);
    MoveKeepsPlace(a, a.txs[i], next);
    TxsKeepBounded(a, b);
  }

  lemma BeginKeepsBounded(a: Sys, b: Sys, i: Tid, op: Op)
    requires Bounded(a) && Begins(a, b, i, op)
    ensures Bounded(b)
  {
    assert RoomLeft(a, Start(op)) && PlaceLeft(a, Start(op));
    TxsKeepBounded(a, b);
  }

  lemma AbortKeepsBounded(a: Sys, b: Sys, i: Tid)
    requires Bounded(a) && Aborts(a, b, i)
    ensures Bounded(b)
  {
    TxsKeepBounded(a, b);
  }

  lemma StepKeepsBounded(a: Sys, b: Sys, act: Action)
    requires Discipline.Inv(a) && Bounded(a) && Does(a, b, act)
    ensures Bounded(b)
  {
    match act
    case Begin(i, op) => BeginKeepsBounded(a, b, i, op);
    case Advance(i, next) => AdvanceKeepsBounded(a, b, i, next);
    case Commit(i) => CommitKeepsBounded(a, b, i);
    case Abort(i) => AbortKeepsBounded(a, b, i);
    case Write(ch) => ChangeKeepsBounded(a, b, ch);
  }

  lemma {:induction false} BoundedAlways(run: seq<Sys>, i: nat)
    requires IsRun(run) && i < |run|
    ensures Bounded(run[i])
  {
    if i > 0 {
      BoundedAlways(run, i - 1);
      Discipline.InvAlways(run, i - 1);
      assert StepAt(run, i);
      var act :| Does(run[i - 1], run[i], act);
      StepKeepsBounded(run[i - 1], run[i], act);
    }
  }

  // ---- the recorded peak is a capacity the row really had ---------------------

  /** A peak that is new or has changed is the capacity just written. */
  ghost predicate PeakIsNew(a: Sys, b: Sys) {
    && (forall s :: s in b.peakSection && !(s in a.peakSection && a.peakSection[s] == b.peakSection[s]) ==>
          s in b.db.sections && b.db.sections[s].capacity == b.peakSection[s])
    && (forall c :: c in b.peakClass && !(c in a.peakClass && a.peakClass[c] == b.peakClass[c]) ==>
          c in b.db.classes && b.db.classes[c].capacity == b.peakClass[c])
  }

  lemma WritePeak(a: Sys, b: Sys, ch: Change)
    requires Writes(a, b, ch)
    ensures PeakIsNew(a, b)
  {
  }

  lemma PeakStep(a: Sys, b: Sys, act: Action)
    requires Does(a, b, act)
    ensures PeakIsNew(a, b)
  {
    match act
    case Begin(i, op) =>
    case Advance(i, next) =>
    case Commit(i) =>
    case Abort(i) =>
    case Write(ch) => WritePeak(a, b, ch);
  }

  lemma {:induction false} SectionPeakWasHeld(run: seq<Sys>, i: nat, s: Section) returns (j: nat)
    requires IsRun(run) && i < |run| && s in run[i].peakSection
    ensures j <= i && s in run[j].db.sections && run[j].db.sections[s].capacity == run[i].peakSection[s]
  {
    assert i > 0 && StepAt(run, i);
    var act :| Does(run[i - 1], run[i], act);
    PeakStep(run[i - 1], run[i], act);
    if s in run[i - 1].peakSection && run[i].peakSection[s] == run[i - 1].peakSection[s] {
      j := SectionPeakWasHeld(run, i - 1, s);
    } else {
      j := i;
    }
  }

  lemma {:induction false} ClassPeakWasHeld(run: seq<Sys>, i: nat, c: Class) returns (j: nat)
    requires IsRun(run) && i < |run| && c in run[i].peakClass
    ensures j <= i && c in run[j].db.classes && run[j].db.classes[c].capacity == run[i].peakClass[c]
  {
    assert i > 0 && StepAt(run, i);
    var act :| Does(run[i - 1], run[i], act);
    PeakStep(run[i - 1], run[i], act);
    if c in run[i - 1].peakClass && run[i].peakClass[c] == run[i - 1].peakClass[c] {
      j := ClassPeakWasHeld(run, i - 1, c);
    } else {
      j := i;
    }
  }

  /** A roster never exceeds a capacity its section has had. */
  lemma RosterWithinPeak(run: seq<Sys>, i: nat, s: Section) returns (j: nat)
    requires IsRun(run) && i < |run| && s in run[i].db.sections
    ensures j <= i && s in run[j].db.sections
    ensures |RosterRows(run[i].db, s)| <= run[j].db.sections[s].capacity
  {
    BoundedAlways(run, i);
    assert SectionOk(run[i], s);
    j := SectionPeakWasHeld(run, i, s);
  }

  /** ACTIVE rows never exceed a capacity the class has had plus its fanned rows. */
  lemma ActiveWithinPeakPlusFanned(run: seq<Sys>, i: nat, c: Class) returns (j: nat)
    requires IsRun(run) && i < |run| && c in run[i].db.classes
    ensures j <= i && c in run[j].db.classes
    ensures |ActiveRows(run[i].db, c)| <= run[j].db.classes[c].capacity + |FannedInto(run[i].fanned, c)|
  {
    BoundedAlways(run, i);
    var a := run[i];
    assert ClassOk(a, c);
    SubsetSize(ActiveRows(a.db, c), Individual(a.db, a.fanned, c) + FannedInto(a.fanned, c));
    j := ClassPeakWasHeld(run, i, c);
  }

  // ---- a class that was never attached has no fanned rows ---------------------

  /** Only an attachment of c itself may be about to fan out into c. */
  predicate Quiet(t: Tx, c: Class) {
    t.op.Enroll? || (t.op.Attach? && t.op.c == c) || forall k :: k in Pending(t) ==> k.1 != c
  }

  ghost predicate NoFan(a: Sys, c: Class) {
    && (forall k :: k in a.fanned ==> k.1 != c)
    && (forall i :: i in a.txs ==> Quiet(a.txs[i], c))
  }

  predicate Detached(db: Db, c: Class) {
    c in db.classes ==> db.classes[c].section == None
  }

  lemma MoveKeepsQuiet(db: Db, t: Tx, t': Tx, c: Class)
    requires TxOk(db, t) && Moves(db, t, t') && Quiet(t, c)
    requires Detached(db, c)
    ensures Quiet(t', c)
  {
    if t.pc == FanOut {
      assert Pending(t') <= Pending(t);
    }
  }

  lemma CommitKeepsNoFan(a: Sys, b: Sys, i: Tid, c: Class)
    requires NoFan(a, c) && Commits(a, b, i) && TxOk(a.db, a.txs[i])
    requires Detached(b.db, c)
    ensures NoFan(b, c)
  {
    assert Quiet(a.txs[i], c);
  }

  lemma StepKeepsNoFan(a: Sys, b: Sys, act: Action, c: Class)
    requires Discipline.Inv(a) && NoFan(a, c) && Does(a, b, act)
    requires Detached(a.db, c) && Detached(b.db, c)
    ensures NoFan(b, c)
  {
    match act
    case Begin(i, op) => assert Quiet(Start(op), c);
    case Advance(i, next) => MoveKeepsQuiet(a.db, a.txs[i], next, c);
    case Commit(i) => CommitKeepsNoFan(a, b, i, c);
    case _ =>
  }

  lemma StaysUnfanned(a: Sys, b: Sys, c: Class)
    requires Discipline.Inv(a) && Step(a, b) && NoFan(a, c) && Detached(a.db, c) && Detached(b.db, c)
    ensures NoFan(b, c)
  {
    var act :| Does(a, b, act);
    StepKeepsNoFan(a, b, act, c);
  }

  lemma {:induction false} NeverAttachedNeverFanned(run: seq<Sys>, i: nat, c: Class)
    requires IsRun(run) && i < |run|
    requires forall j :: 0 <= j <= i ==> Detached(run[j].db, c)
    ensures NoFan(run[i], c)
  {
    if i > 0 {
      NeverAttachedNeverFanned(run, i - 1, c);
      Discipline.InvAlways(run, i - 1);
      assert StepAt(run, i);
      StaysUnfanned(run[i - 1], run[i], c);
    }
  }

  /** So a class that no state ever shows attached stays within a capacity it had. */
  lemma NeverAttachedWithinPeak(run: seq<Sys>, i: nat, c: Class) returns (j: nat)
    requires IsRun(run) && i < |run| && c in run[i].db.classes
    requires forall h :: 0 <= h <= i ==> Detached(run[h].db, c)
    ensures j <= i && c in run[j].db.classes
    ensures |ActiveRows(run[i].db, c)| <= run[j].db.classes[c].capacity
  {
    NeverAttachedNeverFanned(run, i, c);
    assert FannedInto(run[i].fanned, c) == {};
    j := ActiveWithinPeakPlusFanned(run, i, c);
  }
}
