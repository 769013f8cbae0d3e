/** Waiting points from an earlier statement to a later one, fan-outs aside.

    Locks are taken in the order Section, Class, Period, and the only other thing
    a transaction waits for is a unique key somebody has inserted.  So a cycle of
    waits could only be one of fan-outs.  There is none while no class gets another
    term behind an assignment that has it on its list. */
module Deadlock {
  import opened School
  import opened Interleaving
  import opened Discipline
  import opened Provenance
  import TermUpdates
  import Solo

  function Rank(pc: Pc): nat {
    match pc
    case Find | WantSection => 0
    case WantClass | CheckYear | CountRoster | InsertSeat => 1
    case CheckClass | CheckDuplicate | CountActive | InsertEnrolment | WantPeriod => 2
    case ListClasses | ListRoster | CheckSlot | ListRivals | ReadRivals | InsertSlot => 3
    case FanOut => 4
    case Committing => 5
  }

  predicate WaitsFor(a: Sys, i: Tid, j: Tid) {
    i in a.txs && j in a.txs && i != j && Waits(a.txs[i], a.txs[j])
  }

  lemma WaitingRises(a: Sys, i: Tid, j: Tid)
    requires Inv(a) && WaitsFor(a, i, j) && !FanOutWait(a, i, j)
    ensures Rank(a.txs[i].pc) < Rank(a.txs[j].pc)
  {
    assert TxOk(a.db, a.txs[i]) && TxOk(a.db, a.txs[j]) && PairOk(a.txs[i], a.txs[j]);
  }

  /** One fan-out waits for a key that another has inserted. */
  predicate FanOutWait(a: Sys, i: Tid, j: Tid) {
    WaitsFor(a, i, j) && a.txs[i].pc == FanOut && a.txs[j].pc == FanOut
  }

  lemma FanOutWaitShares(a: Sys, i: Tid, j: Tid) returns (k: Key)
    requires Inv(a) && FanOutWait(a, i, j)
    ensures k in Pending(a.txs[i]) && k in Pending(a.txs[j]) && IsFan(a.txs[i]) && IsFan(a.txs[j])
  {
    assert TxOk(a.db, a.txs[i]) && TxOk(a.db, a.txs[j]);
    k := a.txs[i].probe.value;
  }

  predicate IsFan(t: Tx) {
    t.op.Assign? || t.op.Attach?
  }

  /** What one fan-out has inserted or still has on its list, no other has. */
  ghost predicate FansApart(a: Sys) {
    forall i, j :: i in a.txs && j in a.txs && i != j && IsFan(a.txs[i]) && IsFan(a.txs[j]) ==>
      Pending(a.txs[i]) !! Pending(a.txs[j])
  }

  /** A path in the wait-for graph. */
  ghost predicate WaitPath(a: Sys, path: seq<Tid>) {
    |path| > 1 && forall n :: 0 < n < |path| ==> WaitsFor(a, path[n - 1], path[n])
  }

  lemma {:induction false} PathNeverFalls(a: Sys, path: seq<Tid>, n: nat)
    requires Inv(a) && WaitPath(a, path) && 0 < n < |path|
    ensures path[1] in a.txs && path[n] in a.txs && Rank(a.txs[path[1]].pc) <= Rank(a.txs[path[n]].pc)
  {
    assert WaitsFor(a, path[n - 1], path[n]);
    if n > 1 {
      PathNeverFalls(a, path, n - 1);
      if !FanOutWait(a, path[n - 1], path[n]) {
        WaitingRises(a, path[n - 1], path[n]);
      }
    }
  }

  /** In any reachable state, whatever ran: a cycle of waits is one of fan-outs. */
  lemma CycleIsOfFanOuts(run: seq<Sys>, n: nat, path: seq<Tid>)
    requires IsRun(run) && n < |run| && WaitPath(run[n], path) && path[0] == path[|path| - 1]
    ensures FanOutWait(run[n], path[0], path[1])
  {
    InvAlways(run, n);
    PathNeverFalls(run[n], path, |path| - 1);
    if !FanOutWait(run[n], path[0], path[1]) {
      assert WaitsFor(run[n], path[0], path[1]);
      WaitingRises(run[n], path[0], path[1]);
    }
  }

  // ---- what keeps the fan-outs apart ------------------------------------------------

  /** Each class an assignment is about to enrol in is of its section's year. */
  ghost predicate ListInYear(db: Db, t: Tx) {
    t.op.Assign? ==> forall k :: k in Pending(t) ==> InYear(db, k.1, t.section.year)
  }

  ghost predicate Ordered(a: Sys) {
    && YearsRight(a.db) && FansApart(a)
    && forall i :: i in a.txs ==> ListInYear(a.db, a.txs[i])
  }

  /** The one thing to watch: a term is only written if the class may still take
      it, and while no open assignment has the class on its list. */
  ghost predicate SteadyStep(a: Sys, act: Action) {
    act.Commit? && act.i in a.txs && SetsTerm(a.db, a.txs[act.i]) ==>
      && MayTake(a.db.classes[a.txs[act.i].op.c], a.txs[act.i].op.term)
      && forall j, k :: j in a.txs && a.txs[j].op.Assign? && k in Pending(a.txs[j]) ==> k.1 != a.txs[act.i].op.c
  }

  ghost predicate StepsSteadily(a: Sys, b: Sys) {
    exists act :: Does(a, b, act) && SteadyStep(a, act)
  }

  ghost predicate SteadyAt(run: seq<Sys>, n: int) {
    0 < n < |run| && StepsSteadily(run[n - 1], run[n])
  }

  ghost predicate IsSteadyRun(run: seq<Sys>) {
    IsRun(run) && forall n :: 0 < n < |run| ==> SteadyAt(run, n)
  }

  lemma MoveKeepsListInYear(db: Db, t: Tx, t': Tx)
    requires DbOk(db) && YearsRight(db) && TxOk(db, t) && ListInYear(db, t) && Moves(db, t, t')
    ensures ListInYear(db, t')
  {
    if t.pc == FanOut {
      FanKeepsKeys(db, t, t');
    }
  }

  /** Listing the classes of a section, or the students, meets no other list. */
  lemma ListingMeetsNobody(db: Db, t: Tx, t': Tx, u: Tx)
    requires DbOk(db) && YearsRight(db) && TxOk(db, t) && TxOk(db, u) && PairOk(t, u)
    requires ListInYear(db, u) && IsFan(t) && IsFan(u) && Moves(db, t, t')
    requires t.pc == ListClasses || t.pc == ListRoster
    ensures Pending(t') !! Pending(u)
  {
    forall k | k in Pending(t') ensures k !in Pending(u) {
      if t.op.Attach? {
        var seat :| seat in RosterRows(db, t.op.s) && k == (seat.0, t.op.c);
      }
    }
  }

  lemma MoveKeepsFansApart(db: Db, t: Tx, t': Tx, u: Tx)
    requires DbOk(db) && YearsRight(db) && TxOk(db, t) && TxOk(db, u) && PairOk(t, u)
    requires ListInYear(db, u) && IsFan(t) && IsFan(u) && Moves(db, t, t') && Pending(t) !! Pending(u)
    ensures Pending(t') !! Pending(u)
  {
    if t.pc == FanOut {
      FanKeepsKeys(db, t, t');
    } else if t.pc == ListClasses || t.pc == ListRoster {
      ListingMeetsNobody(db, t, t', u);
    }
  }

  lemma AdvanceKeepsOrdered(a: Sys, b: Sys, i: Tid, t': Tx)
    requires Inv(a) && Ordered(a) && Advances(a, b, i, t')
    ensures Ordered(b)
  {
    MoveKeepsPc(a.db, a.txs[i], t');
    MoveKeepsListInYear(a.db, a.txs[i], t');
    forall j | j in a.txs && j != i && IsFan(t') && IsFan(a.txs[j]) ensures Pending(t') !! Pending(a.txs[j]) {
      assert TxOk(a.db, a.txs[i]) && TxOk(a.db, a.txs[j]) && PairOk(a.txs[i], a.txs[j]);
      MoveKeepsFansApart(a.db, a.txs[i], t', a.txs[j]);
    }
  }

  lemma CommitKeepsListInYear(a: Sys, b: Sys, i: Tid, t: Tx)
    requires Commits(a, b, i) && ListInYear(a.db, t)
    requires SetsTerm(a.db, a.txs[i]) && t.op.Assign? ==> forall k :: k in Pending(t) ==> k.1 != a.txs[i].op.c
    ensures ListInYear(b.db, t)
  {
  }

  lemma CommitKeepsOrdered(a: Sys, b: Sys, i: Tid)
    requires Inv(a) && Ordered(a) && Commits(a, b, i) && SteadyStep(a, Commit(i))
    ensures Ordered(b)
  {
    assert TxOk(a.db, a.txs[i]);
    TermUpdates.CommitBreaksYearsIff(a, b, i);
    forall j | j in b.txs ensures ListInYear(b.db, b.txs[j]) {
      CommitKeepsListInYear(a, b, i, a.txs[j]);
    }
  }

  lemma ChangeKeepsTerms(a: Sys, ch: Change, c: Class, y: Year)
    requires Allowed(a, ch) && InYear(a.db, c, y)
    ensures InYear(ChangeDb(a.db, ch), c, y)
  {
  }

  lemma ChangeKeepsOrdered(a: Sys, b: Sys, ch: Change)
    requires Inv(a) && Ordered(a) && Writes(a, b, ch)
    ensures Ordered(b)
  {
    TermUpdates.ChangeKeepsYears(a, ch);
    forall j | j in b.txs ensures ListInYear(b.db, b.txs[j]) {
      assert ListInYear(a.db, a.txs[j]);
      forall k | k in Pending(a.txs[j]) && a.txs[j].op.Assign?
        ensures InYear(b.db, k.1, a.txs[j].section.year)
      {
        ChangeKeepsTerms(a, ch, k.1, a.txs[j].section.year);
      }
    }
  }

  lemma StepKeepsOrdered(a: Sys, b: Sys, act: Action)
    requires Inv(a) && Ordered(a) && Does(a, b, act) && SteadyStep(a, act)
    ensures Ordered(b)
  {
    match act
    case Begin(i, op) => assert Pending(Start(op)) == {};
    case Advance(i, next) => AdvanceKeepsOrdered(a, b, i, next);
    case Commit(i) => CommitKeepsOrdered(a, b, i);
    case Abort(i) =>
    case Write(ch) => ChangeKeepsOrdered(a, b, ch);
  }

  lemma {:induction false} OrderedAlways(run: seq<Sys>, n: nat)
    requires IsSteadyRun(run) && n < |run|
    ensures Ordered(run[n])
  {
    if n > 0 {
      OrderedAlways(run, n - 1);
      assert SteadyAt(run, n);
      var act :| Does(run[n - 1], run[n], act) && SteadyStep(run[n - 1], act);
      InvAlways(run, n - 1);
      StepKeepsOrdered(run[n - 1], run[n], act);
    }
  }

  lemma FanOutsNeverMeet(a: Sys, i: Tid, j: Tid)
    requires Inv(a) && FansApart(a)
    ensures !FanOutWait(a, i, j)
  {
    if FanOutWait(a, i, j) {
      var k := FanOutWaitShares(a, i, j);
    }
  }

  /** In every state of a steady run the wait-for graph has no cycle. */
  lemma NoWaitCycle(run: seq<Sys>, n: nat, path: seq<Tid>)
    requires IsSteadyRun(run) && n < |run| && WaitPath(run[n], path)
    ensures path[0] != path[|path| - 1]
  {
    OrderedAlways(run, n);
    InvAlways(run, n);
    if path[0] == path[|path| - 1] {
      CycleIsOfFanOuts(run, n, path);
      FanOutsNeverMeet(run[n], path[0], path[1]);
    }
  }

  // ---- progress ------------------------------------------------------------------

  /** The next check of the service fails, or the row it needs is not there. */
  ghost predicate Fails(db: Db, t: Tx) {
    t.pc != Committing && forall t' :: !Moves(db, t, t')
  }

  /** Transaction i takes a step of its own: a statement, its commit, or the
      abort that a failed check forces.  Crashes do not count. */
  ghost predicate Proceeds(a: Sys, b: Sys, i: Tid) {
    || (exists t' :: Advances(a, b, i, t'))
    || Commits(a, b, i)
    || (i in a.txs && Free(a, i) && Fails(a.db, a.txs[i]) && Aborts(a, b, i))
  }

  lemma FreeProceeds(a: Sys, i: Tid) returns (b: Sys)
    requires i in a.txs && Free(a, i)
    ensures Proceeds(a, b, i)
  {
    var t := a.txs[i];
    if t.pc == Committing {
      b := a.(db := CommitDb(a.db, t), txs := a.txs - {i},
              fanned := if t.op.Enroll? then a.fanned else a.fanned + t.staged);
      assert Commits(a, b, i);
    } else if t' :| Moves(a.db, t, t') {
      b := a.(txs := a.txs[i := t']);
      assert Advances(a, b, i, t');
    } else {
      b := a.(txs := a.txs - {i});
    }
  }

  /** Some open transaction has come furthest. */
  lemma {:induction false} Furthest(txs: map<Tid, Tx>) returns (i: Tid)
    requires txs.Keys != {}
    ensures i in txs && forall j :: j in txs ==> Rank(txs[j].pc) <= Rank(txs[i].pc)
    decreases |txs.Keys|
  {
    var one :| one in txs.Keys;
    var rest := txs - {one};
    assert rest.Keys == txs.Keys - {one};
    if rest.Keys == {} {
      i := one;
    } else {
      var best := Furthest(rest);
      i := if Rank(txs[best].pc) > Rank(txs[one].pc) then best else one;
    }
    forall j | j in txs ensures Rank(txs[j].pc) <= Rank(txs[i].pc) {
      assert j == one || j in rest;
    }
  }

  /** Any number of open transactions in a steady run: one of them can always go on,
      and its step is a step of the system. */
  lemma SomeoneProceeds(run: seq<Sys>, n: nat) returns (i: Tid, b: Sys)
    requires IsSteadyRun(run) && n < |run| && run[n].txs.Keys != {}
    ensures Proceeds(run[n], b, i) && Step(run[n], b)
  {
    var a := run[n];
    InvAlways(run, n);
    OrderedAlways(run, n);
    i := Furthest(a.txs);
    FurthestIsFree(a, i);
    b := FreeProceeds(a, i);
    if t' :| Advances(a, b, i, t') {
      assert Does(a, b, Advance(i, t'));
    } else if Commits(a, b, i) {
      assert Does(a, b, Commit(i));
    } else {
      assert Does(a, b, Abort(i));
    }
  }

  // ---- and all of them can finish ---------------------------------------------------

  /** A statement brings its transaction closer to its end, whatever the others do
      in between: a later statement, or less left of the same loop. */
  lemma MoveGoesOn(db: Db, t: Tx, t': Tx)
    requires RightPc(t) && KeysOk(db, t) && Moves(db, t, t')
    ensures Solo.Order(t.pc) < Solo.Order(t'.pc) <= 13 || (t'.pc == t.pc && Solo.Left(t') < Solo.Left(t))
    ensures Rank(t.pc) <= Rank(t'.pc)
  {
    match t.pc
    case ReadRivals => ReadingGoesOn(db, t, t');
    case FanOut => FanGoesOn(db, t, t');
    case _ => OthersGoOn(db, t, t');
  }

  lemma OthersGoOn(db: Db, t: Tx, t': Tx)
    requires RightPc(t) && t.pc != ReadRivals && t.pc != FanOut && Moves(db, t, t')
    ensures Solo.Order(t.pc) < Solo.Order(t'.pc) <= 13 && Rank(t.pc) <= Rank(t'.pc)
  {
  }

  lemma ReadingGoesOn(db: Db, t: Tx, t': Tx)
    requires t.pc == ReadRivals && Moves(db, t, t')
    ensures t'.pc == InsertSlot || (t'.pc == ReadRivals && Solo.Left(t') < Solo.Left(t))
  {
    if t'.pc != InsertSlot {
      var o :| o in t.rivals && ReadsRival(db, t, o) && t' == ReadRival(db, t, o);
      assert |t.rivals - {o}| == |t.rivals| - 1;
    }
  }

  lemma FanGoesOn(db: Db, t: Tx, t': Tx)
    requires t.pc == FanOut && KeysOk(db, t) && Moves(db, t, t')
    ensures t'.pc == Committing || (t'.pc == FanOut && Solo.Left(t') < Solo.Left(t))
  {
    if t.probe.Some? {
      assert |t.todo - {t.probe.value}| == |t.todo| - 1;
    } else if t'.pc != Committing {
      var k :| k in t.todo && t' == Visit(db, t, k);
      assert |t.todo - {k}| == |t.todo| - 1;
    }
  }

  ghost predicate OwnStep(a: Sys, b: Sys) {
    exists i :: Proceeds(a, b, i)
  }

  /** Own steps of the open transactions lead from a to b. */
  ghost predicate Drains(a: Sys, b: Sys) {
    exists path: seq<Sys> :: IsOwnPath(path) && path[0] == a && path[|path| - 1] == b
  }

  ghost predicate OwnStepAt(path: seq<Sys>, n: int) {
    0 < n < |path| && OwnStep(path[n - 1], path[n])
  }

  ghost predicate IsOwnPath(path: seq<Sys>) {
    |path| > 0 && forall n :: 0 < n < |path| ==> OwnStepAt(path, n)
  }

  lemma DrainsOn(a: Sys, b: Sys, c: Sys)
    requires OwnStep(a, b) && Drains(b, c)
    ensures Drains(a, c)
  {
    var path: seq<Sys> :| IsOwnPath(path) && path[0] == b && path[|path| - 1] == c;
    var longer := [a] + path;
    forall n | 0 < n < |longer| ensures OwnStepAt(longer, n) {
      assert n > 1 ==> OwnStepAt(path, n - 1);
    }
    assert IsOwnPath(longer) && longer[0] == a && longer[|longer| - 1] == c;
  }

  lemma DrainsBoth(a: Sys, b: Sys, c: Sys)
    requires Drains(a, b) && Drains(b, c)
    ensures Drains(a, c)
  {
    var one: seq<Sys> :| IsOwnPath(one) && one[0] == a && one[|one| - 1] == b;
    var two: seq<Sys> :| IsOwnPath(two) && two[0] == b && two[|two| - 1] == c;
    var path := one + two[1..];
    forall n | 0 < n < |path| ensures OwnStepAt(path, n) {
      if n < |one| {
        assert OwnStepAt(one, n);
      } else {
        assert OwnStepAt(two, n - |one| + 1);
        assert path[n - 1] == two[n - |one|] && path[n] == two[n - |one| + 1];
      }
    }
    assert IsOwnPath(path) && path[0] == a && path[|path| - 1] == c;
  }

  lemma DrainsNothing(a: Sys)
    ensures Drains(a, a)
  {
    assert IsOwnPath([a]) && [a][0] == a && [a][|[a]| - 1] == a;
  }

  predicate IsFurthest(a: Sys, i: Tid) {
    i in a.txs && forall j :: j in a.txs ==> Rank(a.txs[j].pc) <= Rank(a.txs[i].pc)
  }

  lemma FurthestWaitsForNone(a: Sys, i: Tid, j: Tid)
    requires Inv(a) && FansApart(a) && IsFurthest(a, i)
    ensures !WaitsFor(a, i, j)
  {
    if WaitsFor(a, i, j) {
      FanOutsNeverMeet(a, i, j);
      WaitingRises(a, i, j);
    }
  }

  lemma FurthestIsFree(a: Sys, i: Tid)
    requires Inv(a) && FansApart(a) && IsFurthest(a, i)
    ensures Free(a, i)
  {
    forall j | j in a.txs && j != i ensures !Waits(a.txs[i], a.txs[j]) {
      FurthestWaitsForNone(a, i, j);
    }
  }

  /** When the furthest transaction makes its list, nobody else has one. */
  lemma FurthestKeepsApart(a: Sys, b: Sys, i: Tid, t': Tx)
    requires Inv(a) && FansApart(a) && IsFurthest(a, i) && Advances(a, b, i, t')
    ensures FansApart(b)
  {
    MoveKeepsPc(a.db, a.txs[i], t');
    forall j | j in a.txs && j != i && IsFan(t') && IsFan(a.txs[j])
      ensures Pending(t') !! Pending(a.txs[j])
    {
      assert TxOk(a.db, a.txs[i]) && TxOk(a.db, a.txs[j]);
      FurthestMeetsNobody(a.db, a.txs[i], t', a.txs[j]);
    }
  }

  lemma FurthestMeetsNobody(db: Db, t: Tx, t': Tx, u: Tx)
    requires TxOk(db, t) && KeysOk(db, u) && Rank(u.pc) <= Rank(t.pc) && Pending(t) !! Pending(u)
    requires IsFan(t) && Moves(db, t, t')
    ensures Pending(t') !! Pending(u)
  {
    if t.pc == FanOut {
      FanKeepsKeys(db, t, t');
    }
  }

  lemma FurthestGoesOn(a: Sys, i: Tid, t': Tx) returns (b: Sys)
    requires Inv(a) && FansApart(a) && IsFurthest(a, i) && Moves(a.db, a.txs[i], t')
    ensures OwnStep(a, b) && Inv(b) && FansApart(b) && IsFurthest(b, i) && b.txs == a.txs[i := t']
    ensures
      var t := a.txs[i];
      Solo.Order(t.pc) < Solo.Order(t'.pc) <= 13 || (t'.pc == t.pc && Solo.Left(t') < Solo.Left(t))
  {
    FurthestIsFree(a, i);
    b := a.(txs := a.txs[i := t']);
    assert Advances(a, b, i, t');
    assert Proceeds(a, b, i);
    AdvanceKeepsInv(a, b, i, t');
    FurthestKeepsApart(a, b, i, t');
    assert TxOk(a.db, a.txs[i]);
    MoveGoesOn(a.db, a.txs[i], t');
  }

  lemma FurthestEnds(a: Sys, i: Tid) returns (b: Sys)
    requires Inv(a) && FansApart(a) && IsFurthest(a, i) && forall t' :: !Moves(a.db, a.txs[i], t')
    ensures OwnStep(a, b) && Inv(b) && FansApart(b) && b.txs == a.txs - {i}
  {
    FurthestIsFree(a, i);
    b := FreeProceeds(a, i);
    if Commits(a, b, i) {
      CommitKeepsInv(a, b, i);
    } else {
      AbortKeepsInv(a, b, i);
    }
  }

  lemma FurthestSteps(a: Sys, i: Tid) returns (ended: bool, b: Sys)
    requires Inv(a) && FansApart(a) && IsFurthest(a, i)
    ensures Drains(a, b) && Inv(b) && FansApart(b)
    ensures if ended then b.txs == a.txs - {i} else IsFurthest(b, i) && b.txs == a.txs[i := b.txs[i]]
    ensures !ended ==>
      || Solo.Order(a.txs[i].pc) < Solo.Order(b.txs[i].pc) <= 13
      || (b.txs[i].pc == a.txs[i].pc && Solo.Left(b.txs[i]) < Solo.Left(a.txs[i]))
  {
    if t' :| Moves(a.db, a.txs[i], t') {
      b := FurthestGoesOn(a, i, t');
      ended := false;
    } else {
      b := FurthestEnds(a, i);
      ended := true;
    }
    DrainsNothing(b);
    DrainsOn(a, b, b);
  }

  lemma FinishedToo(a: Sys, next: Sys, b: Sys, i: Tid)
    requires i in a.txs && i in next.txs && next.txs == a.txs[i := next.txs[i]] && b.txs == next.txs - {i}
    requires Drains(a, next) && Drains(next, b)
    ensures Drains(a, b) && b.txs == a.txs - {i}
  {
    DrainsBoth(a, next, b);
  }

  /** The transaction that has come furthest runs to its end while the others stand. */
  lemma {:induction false} FinishesOne(a: Sys, i: Tid) returns (b: Sys)
    requires Inv(a) && FansApart(a) && IsFurthest(a, i)
    ensures Drains(a, b) && Inv(b) && FansApart(b) && b.txs == a.txs - {i}
    decreases 13 - Solo.Order(a.txs[i].pc), Solo.Left(a.txs[i])
  {
    var ended;
    ended, b := FurthestSteps(a, i);
    if !ended {
      var next := b;
      b := FinishesOne(next, i);
      FinishedToo(a, next, b, i);
    }
  }

  lemma {:induction false} FinishesAll(a: Sys) returns (b: Sys)
    requires Inv(a) && FansApart(a)
    ensures Drains(a, b) && b.txs == map[]
    decreases |a.txs.Keys|
  {
    if a.txs.Keys == {} {
      b := a;
      assert a.txs == map[];
      DrainsNothing(a);
    } else {
      var i := Furthest(a.txs);
      var next := FinishesOne(a, i);
      assert next.txs.Keys == a.txs.Keys - {i};
      b := FinishesAll(next);
      DrainsBoth(a, next, b);
    }
  }

  /** From every state of a steady run the open transactions can all finish by steps
      of their own. */
  lemma AllCanFinish(run: seq<Sys>, n: nat) returns (b: Sys)
    requires IsSteadyRun(run) && n < |run|
    ensures Drains(run[n], b) && b.txs == map[]
  {
    InvAlways(run, n);
    OrderedAlways(run, n);
    b := FinishesAll(run[n]);
  }
}
