/** When a section or a class can end up over its capacity.  Neither an
    assignment nor an individual enrolment ever does it, whatever runs beside it:
    the only way is to lower the capacity, which no service checks. */
module Overflow {
  import opened School
  import opened Interleaving
  import opened Discipline
  import opened Capacity

  /** An assignment past its locking read knows the present capacity, and past
      its count it has a seat left. */
  ghost predicate SeatFits(a: Sys, t: Tx) {
    t.op.Assign? && SectionLock(t).Some? ==>
      && t.op.s in a.db.sections && t.section.capacity == a.db.sections[t.op.s].capacity
      && (t.pc == InsertSeat || StagedSeat(t).Some? ==> |RosterRows(a.db, t.op.s)| < t.section.capacity)
  }

  ghost predicate PlaceFits(a: Sys, t: Tx) {
    t.op.Enroll? && (t.pc == InsertEnrolment || t.pc == Committing) ==>
      |Individual(a.db, a.fanned, t.op.c)| < t.cls.capacity
  }

  ghost predicate AllFit(a: Sys) {
    forall i :: i in a.txs ==> SeatFits(a, a.txs[i]) && PlaceFits(a, a.txs[i])
  }

  lemma MoveKeepsSeat(a: Sys, t: Tx, t': Tx)
    requires RightPc(t) && SeatFits(a, t) && Moves(a.db, t, t')
    ensures SeatFits(a, t')
  {
  }

  lemma MoveKeepsEnrol(a: Sys, t: Tx, t': Tx)
    requires RightPc(t) && PlaceFits(a, t) && Moves(a.db, t, t')
    ensures PlaceFits(a, t')
  {
    if t.pc == CountActive {
      SubsetSize(Individual(a.db, a.fanned, t.op.c), ActiveRows(a.db, t.op.c));
    }
  }

  lemma CommitKeepsFit(a: Sys, b: Sys, i: Tid, j: Tid)
    requires Commits(a, b, i) && j in b.txs && PairOk(a.txs[j], a.txs[i]) && TxOk(a.db, a.txs[i])
    requires SeatFits(a, a.txs[j]) && PlaceFits(a, a.txs[j])
    ensures SeatFits(b, b.txs[j]) && PlaceFits(b, b.txs[j])
  {
    var u := a.txs[j];
    if u.op.Assign? && SectionLock(u).Some? {
      RosterShrinks(a.db, b.db, u.op.s);
    }
    if u.op.Enroll? && ClassLock(u).Some? {
      IndividualShrinks(a, b, u.op.c);
    }
  }

  lemma ChangeKeepsSeat(a: Sys, b: Sys, ch: Change, i: Tid)
    requires Writes(a, b, ch) && i in a.txs && SeatFits(a, a.txs[i])
    ensures SeatFits(b, a.txs[i])
  {
    var u := a.txs[i];
    if u.op.Assign? && SectionLock(u).Some? {
      ChangeNoWorse(a, b, ch, u.op.s, 0);
      LockedCapacityStays(a, ch, i);
    }
  }

  lemma LockedCapacityStays(a: Sys, ch: Change, i: Tid)
    requires Allowed(a, ch) && i in a.txs && SectionLock(a.txs[i]).Some? && a.txs[i].op.s in a.db.sections
    ensures a.txs[i].op.s in ChangeDb(a.db, ch).sections
    ensures ChangeDb(a.db, ch).sections[a.txs[i].op.s] == a.db.sections[a.txs[i].op.s]
  {
  }

  lemma ChangeKeepsEnrol(a: Sys, b: Sys, ch: Change, u: Tx)
    requires Writes(a, b, ch) && PlaceFits(a, u)
    ensures PlaceFits(b, u)
  {
    if u.op.Enroll? {
      ChangeNoWorse(a, b, ch, 0, u.op.c);
    }
  }

  lemma StepKeepsFit(a: Sys, b: Sys, act: Action)
    requires Discipline.Inv(a) && AllFit(a) && Does(a, b, act)
    ensures AllFit(b)
  {
    match act
    case Begin(i, op) => assert SeatFits(a, Start(op)) && PlaceFits(a, Start(op));
    case Advance(i, next) =>
      assert TxOk(a.db, a.txs[i]);
      MoveKeepsSeat(a, a.txs[i], next);
      MoveKeepsEnrol(a, a.txs[i], next);
    case Commit(i) =>
      forall j | j in b.txs ensures SeatFits(b, b.txs[j]) && PlaceFits(b, b.txs[j]) {
        CommitKeepsFit(a, b, i, j);
      }
    case Abort(i) =>
    case Write(ch) =>
      forall j | j in b.txs ensures SeatFits(b, b.txs[j]) && PlaceFits(b, b.txs[j]) {
        ChangeKeepsSeat(a, b, ch, j);
        ChangeKeepsEnrol(a, b, ch, a.txs[j]);
      }
  }

  lemma {:induction false} AlwaysFit(run: seq<Sys>, i: nat)
    requires IsRun(run) && i < |run|
    ensures AllFit(run[i])
  {
    if i > 0 {
      AlwaysFit(run, i - 1);
      Discipline.InvAlways(run, i - 1);
      assert StepAt(run, i);
      var act :| Does(run[i - 1], run[i], act);
      StepKeepsFit(run[i - 1], run[i], act);
    }
  }

  // ---- which steps overfill -----------------------------------------------------

  predicate LowersSection(act: Action, s: Section, below: nat) {
    act.Write? && act.ch.SetSectionCapacity? && act.ch.sec == s && act.ch.capacity < below
  }

  predicate LowersClass(act: Action, c: Class, below: nat) {
    act.Write? && act.ch.UpdateClass? && act.ch.cls == c && act.ch.capacity < below
  }

  lemma CommitFillsSection(a: Sys, b: Sys, i: Tid, s: Section)
    requires Commits(a, b, i) && TxOk(a.db, a.txs[i]) && SeatFits(a, a.txs[i])
    requires s in a.db.sections && |RosterRows(a.db, s)| <= a.db.sections[s].capacity
    ensures s in b.db.sections && |RosterRows(b.db, s)| <= b.db.sections[s].capacity
  {
    if a.txs[i].op.Assign? && a.txs[i].op.s == s {
      SeatTaken(a, b, i);
    } else {
      RosterShrinks(a.db, b.db, s);
    }
  }

  lemma OthersKeepCapacity(a: Sys, ch: Change, s: Section)
    requires Allowed(a, ch) && !ch.SetSectionCapacity? && s in a.db.sections
    ensures s in ChangeDb(a.db, ch).sections && ChangeDb(a.db, ch).sections[s] == a.db.sections[s]
  {
  }

  lemma ChangeFillsSection(a: Sys, b: Sys, ch: Change, s: Section)
    requires Writes(a, b, ch)
    requires s in a.db.sections && |RosterRows(a.db, s)| <= a.db.sections[s].capacity
    ensures s in b.db.sections
    ensures |RosterRows(b.db, s)| > b.db.sections[s].capacity <==> LowersSection(Write(ch), s, |RosterRows(a.db, s)|)
  {
    if ch.SetSectionCapacity? {
      assert RosterRows(b.db, s) == RosterRows(a.db, s);
    } else {
      ChangeNoWorse(a, b, ch, s, 0);
      OthersKeepCapacity(a, ch, s);
    }
  }

  lemma StepFillsSection(a: Sys, b: Sys, act: Action, s: Section)
    requires Does(a, b, act)
    requires forall i :: i in a.txs ==> TxOk(a.db, a.txs[i])
    requires AllFit(a)
    requires s in a.db.sections && |RosterRows(a.db, s)| <= a.db.sections[s].capacity
    ensures s in b.db.sections
    ensures |RosterRows(b.db, s)| > b.db.sections[s].capacity <==> LowersSection(act, s, |RosterRows(a.db, s)|)
  {
    match act
    case Begin(i, op) =>
    case Advance(i, next) =>
    case Commit(i) => CommitFillsSection(a, b, i, s);
    case Abort(i) =>
    case Write(ch) => ChangeFillsSection(a, b, ch, s);
  }

  /** A step of any run takes a section over its capacity exactly when it lowers
      that capacity below the roster. */
  lemma SectionOverfilledIff(run: seq<Sys>, n: nat, act: Action, s: Section)
    requires IsRun(run) && 0 < n < |run| && Does(run[n - 1], run[n], act)
    requires s in run[n - 1].db.sections && |RosterRows(run[n - 1].db, s)| <= run[n - 1].db.sections[s].capacity
    ensures s in run[n].db.sections
    ensures |RosterRows(run[n].db, s)| > run[n].db.sections[s].capacity <==>
      LowersSection(act, s, |RosterRows(run[n - 1].db, s)|)
  {
    Discipline.InvAlways(run, n - 1);
    AlwaysFit(run, n - 1);
    StepFillsSection(run[n - 1], run[n], act, s);
  }

  lemma CommitFillsClass(a: Sys, b: Sys, i: Tid, c: Class)
    requires Commits(a, b, i) && TxOk(a.db, a.txs[i]) && PlaceFits(a, a.txs[i])
    requires c in a.db.classes && |Individual(a.db, a.fanned, c)| <= a.db.classes[c].capacity
    ensures c in b.db.classes && |Individual(b.db, b.fanned, c)| <= b.db.classes[c].capacity
  {
    if a.txs[i].op.Enroll? && a.txs[i].op.c == c {
      PlaceTaken(a, b, i);
    } else {
      IndividualShrinks(a, b, c);
    }
  }

  lemma ChangeFillsClass(a: Sys, b: Sys, ch: Change, c: Class)
    requires Writes(a, b, ch)
    requires c in a.db.classes && |Individual(a.db, a.fanned, c)| <= a.db.classes[c].capacity
    ensures c in b.db.classes
    ensures |Individual(b.db, b.fanned, c)| > b.db.classes[c].capacity <==>
      LowersClass(Write(ch), c, |Individual(a.db, a.fanned, c)|)
  {
    if ch.UpdateClass? {
      assert Individual(b.db, b.fanned, c) == Individual(a.db, a.fanned, c);
    } else {
      ChangeNoWorse(a, b, ch, 0, c);
    }
  }

  lemma StepFillsClass(a: Sys, b: Sys, act: Action, c: Class)
    requires Does(a, b, act)
    requires forall i :: i in a.txs ==> TxOk(a.db, a.txs[i])
    requires AllFit(a)
    requires c in a.db.classes && |Individual(a.db, a.fanned, c)| <= a.db.classes[c].capacity
    ensures c in b.db.classes
    ensures |Individual(b.db, b.fanned, c)| > b.db.classes[c].capacity <==>
      LowersClass(act, c, |Individual(a.db, a.fanned, c)|)
  {
    match act
    case Begin(i, op) =>
    case Advance(i, next) =>
    case Commit(i) => CommitFillsClass(a, b, i, c);
    case Abort(i) =>
    case Write(ch) => ChangeFillsClass(a, b, ch, c);
  }

  /** Likewise for the ACTIVE rows of a class that no fan-out inserted. */
  lemma ClassOverfilledIff(run: seq<Sys>, n: nat, act: Action, c: Class)
    requires IsRun(run) && 0 < n < |run| && Does(run[n - 1], run[n], act)
    requires c in run[n - 1].db.classes
    requires |Individual(run[n - 1].db, run[n - 1].fanned, c)| <= run[n - 1].db.classes[c].capacity
    ensures c in run[n].db.classes
    ensures |Individual(run[n].db, run[n].fanned, c)| > run[n].db.classes[c].capacity <==>
      LowersClass(act, c, |Individual(run[n - 1].db, run[n - 1].fanned, c)|)
  {
    Discipline.InvAlways(run, n - 1);
    AlwaysFit(run, n - 1);
    StepFillsClass(run[n - 1], run[n], act, c);
  }
}
