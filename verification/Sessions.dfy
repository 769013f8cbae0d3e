/** Refresh-token sessions: rotation by compare-and-swap, racing with logout.

    Raw tokens are fresh when they are minted and the store keeps only a hash of
    them; h is that hash and is injective. */
module Sessions {
  import opened School

  type Sid = nat
  type Pid = nat
  type User = nat
  type Token = nat
  type Hash = nat

  datatype Row = Row(user: User, hash: Hash, expires: int, revoked: Option<int>, lastUsed: int)

  ghost predicate Injective(h: Token -> Hash) {
    forall t, t' :: h(t) == h(t') ==> t == t'
  }

  // ---- the repository's statements -------------------------------------------------

  function ByHash(rows: map<Sid, Row>, hash: Hash): set<Sid> {
    set s | s in rows && rows[s].hash == hash
  }

  /** The WHERE clause of the rotation: this hash, and not revoked. */
  function Matching(rows: map<Sid, Row>, prior: Hash): set<Sid> {
    set s | s in rows && rows[s].hash == prior && rows[s].revoked.None?
  }

  function Rotated(rows: map<Sid, Row>, prior: Hash, next: Hash, now: int): map<Sid, Row> {
    map s | s in rows :: if s in Matching(rows, prior) then rows[s].(hash := next, lastUsed := now) else rows[s]
  }

  function Revoked(rows: map<Sid, Row>, s: Sid, now: int): map<Sid, Row> {
    if s in rows then rows[s := rows[s].(revoked := Some(now))] else rows
  }

  // ---- the step machine ----------------------------------------------------------------

  /** token is what the client presented, prior the hash found in the row, looked
      the time of the look-up.  A
      refresh looks the token up, checks the account, then swaps; a logout looks
      the token up, then revokes the row it found by its primary key. */
  datatype Proc =
    | Refresh(token: Token)
    | CheckUser(token: Token, prior: Hash, looked: int)
    | Rotate(token: Token, prior: Hash, looked: int)
    | Logout(token: Token)
    | Revoke(sid: Sid)

  datatype Event =
    | Refreshed(sid: Sid, used: Token, minted: Token)
    | LoggedOut(sid: Sid)

  /** chain lists the tokens of each session from the login on, log what has been
      committed, in order. */
  datatype Sys = Sys(
    rows: map<Sid, Row>, procs: map<Pid, Proc>, issued: set<Token>,
    chain: map<Sid, seq<Token>>, log: seq<Event>)

  const INIT := Sys(map[], map[], {}, map[], [])

  datatype Action =
    | Login(s: Sid, t: Token, user: User, expires: int, now: int)
    | Request(p: Pid, proc: Proc)
    | Look(p: Pid, s: Sid, now: int)     // found the row and it may be refreshed, or revoked
    | Account(p: Pid)                    // the account is active
    | Swap(p: Pid, t: Token, now: int)
    | Stamp(p: Pid, now: int)
    | End(p: Pid)                        // any error reply, or a lost request

  predicate Allowed(h: Token -> Hash, a: Sys, act: Action) {
    match act
    case Login(s, t, _, _, _) => s !in a.rows && t !in a.issued
    case Request(p, proc) => p !in a.procs && (proc.Refresh? || proc.Logout?)
    case Look(p, s, now) =>
      && p in a.procs && s in a.rows
      && (a.procs[p].Refresh? || a.procs[p].Logout?)
      && a.rows[s].hash == h(a.procs[p].token) && a.rows[s].revoked.None?
      && (a.procs[p].Refresh? ==> a.rows[s].expires >= now)
    case Account(p) => p in a.procs && a.procs[p].CheckUser?
    case Swap(p, t, _) => p in a.procs && a.procs[p].Rotate? && t !in a.issued
    case Stamp(p, _) => p in a.procs && a.procs[p].Revoke?
    case End(p) => p in a.procs
  }

  function Last(chain: seq<Token>): Token
    requires chain != []
  {
    chain[|chain| - 1]
  }

  /** The session a swap hits; its rowcount is 1 exactly when there is one. */
  ghost function Hit(rows: map<Sid, Row>, prior: Hash): Option<Sid> {
    if |Matching(rows, prior)| == 1 then var s :| s in Matching(rows, prior); Some(s) else None
  }

  ghost function After(h: Token -> Hash, a: Sys, act: Action): Sys
    requires Allowed(h, a, act)
  {
    match act
    case Login(s, t, user, expires, now) =>
      a.(rows := a.rows[s := Row(user, h(t), expires, None, now)], issued := a.issued + {t}, chain := a.chain[s := [t]])
    case Request(p, proc) => a.(procs := a.procs[p := proc])
    case Look(p, s, now) =>
      var token := a.procs[p].token;
      a.(procs := a.procs[p := if a.procs[p].Refresh? then CheckUser(token, a.rows[s].hash, now) else Revoke(s)])
    case Account(p) => a.(procs := a.procs[p := Rotate(a.procs[p].token, a.procs[p].prior, a.procs[p].looked)])
    case Swap(p, t, now) =>
      var s := Hit(a.rows, a.procs[p].prior);
      var b := a.(rows := Rotated(a.rows, a.procs[p].prior, h(t), now),
                  procs := a.procs - {p}, issued := a.issued + {t});
      if s.Some? && s.value in a.chain && a.chain[s.value] != []
      then b.(chain := a.chain[s.value := a.chain[s.value] + [t]],
              log := a.log + [Refreshed(s.value, a.procs[p].token, t)])
      else b
    case Stamp(p, now) =>
      a.(rows := Revoked(a.rows, a.procs[p].sid, now), procs := a.procs - {p},
         log := a.log + [LoggedOut(a.procs[p].sid)])
    case End(p) => a.(procs := a.procs - {p})
  }

  ghost predicate IsRun(h: Token -> Hash, run: seq<Sys>) {
    && Injective(h)
    && |run| > 0 && run[0] == INIT
    && forall i :: 0 < i < |run| ==> StepAt(h, run, i)
  }

  ghost predicate Does(h: Token -> Hash, a: Sys, b: Sys, act: Action) {
    Allowed(h, a, act) && b == After(h, a, act)
  }

  ghost predicate Step(h: Token -> Hash, a: Sys, b: Sys) {
    exists act :: Does(h, a, b, act)
  }

  ghost predicate StepAt(h: Token -> Hash, run: seq<Sys>, i: int) {
    0 < i < |run| && Step(h, run[i - 1], run[i])
  }

  // ---- the invariant --------------------------------------------------------------------

  /** The event consumed one token of the chain and minted the one after it. */
  predicate Link(chain: map<Sid, seq<Token>>, e: Event, i: int) {
    && e.Refreshed? && e.sid in chain && 0 <= i < |chain[e.sid]| - 1
    && e.used == chain[e.sid][i] && e.minted == chain[e.sid][i + 1]
  }

  /** The newest token of each chain is the one whose hash is stored. */
  ghost predicate RowsOk(h: Token -> Hash, a: Sys) {
    && a.chain.Keys == a.rows.Keys
    && (forall s :: s in a.rows ==> a.chain[s] != [] && a.rows[s].hash == h(Last(a.chain[s])))
    && (forall p :: p in a.procs && a.procs[p].Revoke? ==> a.procs[p].sid in a.rows)
    && (forall p :: p in a.procs && (a.procs[p].CheckUser? || a.procs[p].Rotate?) ==>
          a.procs[p].prior == h(a.procs[p].token))
  }

  /** No token occurs twice, in one chain or in two. */
  ghost predicate TokensOk(a: Sys) {
    && (forall s, i :: s in a.chain && 0 <= i < |a.chain[s]| ==> a.chain[s][i] in a.issued)
    && (forall s, s', i, j ::
          (s in a.chain && s' in a.chain && 0 <= i < |a.chain[s]| && 0 <= j < |a.chain[s']|
           && a.chain[s][i] == a.chain[s'][j])
          ==> s == s' && i == j)
  }

  ghost predicate LogOk(a: Sys) {
    && (forall n :: 0 <= n < |a.log| && a.log[n].Refreshed? ==> exists i :: Link(a.chain, a.log[n], i))
    && (forall n, m :: 0 <= n < m < |a.log| && a.log[n].Refreshed? && a.log[m].Refreshed? ==>
          a.log[n].used != a.log[m].used)
    && (forall s, i :: s in a.chain && 0 <= i < |a.chain[s]| - 1 ==>
          Refreshed(s, a.chain[s][i], a.chain[s][i + 1]) in a.log)
  }

  ghost predicate LogoutsOk(a: Sys) {
    && (forall n :: 0 <= n < |a.log| && a.log[n].LoggedOut? ==>
          a.log[n].sid in a.rows && a.rows[a.log[n].sid].revoked.Some?)
    && (forall n, m :: 0 <= n < m < |a.log| && a.log[n].LoggedOut? && a.log[m].Refreshed? ==>
          a.log[m].sid != a.log[n].sid)
  }

  ghost predicate Inv(h: Token -> Hash, a: Sys) {
    RowsOk(h, a) && TokensOk(a) && LogOk(a) && LogoutsOk(a)
  }

  /** A stored hash belongs to one session. */
  lemma OneHolder(h: Token -> Hash, a: Sys, hash: Hash, s: Sid)
    requires Injective(h) && RowsOk(h, a) && TokensOk(a) && s in Matching(a.rows, hash)
    ensures Matching(a.rows, hash) == {s} && Hit(a.rows, hash) == Some(s)
  {
    forall s' | s' in Matching(a.rows, hash) ensures s' == s {
      assert h(Last(a.chain[s'])) == h(Last(a.chain[s]));
    }
  }

  lemma HitMatches(rows: map<Sid, Row>, hash: Hash)
    ensures Hit(rows, hash).Some? ==> Hit(rows, hash).value in Matching(rows, hash)
  {
  }

  lemma SwapMisses(h: Token -> Hash, a: Sys, p: Pid, t: Token, now: int)
    requires Injective(h) && Inv(h, a) && Allowed(h, a, Swap(p, t, now)) && Hit(a.rows, a.procs[p].prior).None?
    ensures After(h, a, Swap(p, t, now)).rows == a.rows && Inv(h, After(h, a, Swap(p, t, now)))
  {
    if s :| s in Matching(a.rows, a.procs[p].prior) {
      OneHolder(h, a, a.procs[p].prior, s);
    }
    assert Rotated(a.rows, a.procs[p].prior, h(t), now) == a.rows;
  }

  /** The token that was presented is the newest of the session it refreshes. */
  lemma SwapHits(h: Token -> Hash, a: Sys, p: Pid, t: Token, now: int, s: Sid)
    requires Injective(h) && Inv(h, a) && Allowed(h, a, Swap(p, t, now)) && Hit(a.rows, a.procs[p].prior) == Some(s)
    ensures
      var b := After(h, a, Swap(p, t, now));
      && s in a.rows && a.rows[s].revoked.None?
      && b.chain == a.chain[s := a.chain[s] + [t]] && b.log == a.log + [Refreshed(s, Last(a.chain[s]), t)]
      && b.rows == a.rows[s := a.rows[s].(hash := h(t), lastUsed := now)] && b.issued == a.issued + {t}
      && b.procs == a.procs - {p}
  {
    HitMatches(a.rows, a.procs[p].prior);
    OneHolder(h, a, a.procs[p].prior, s);
    assert h(a.procs[p].token) == h(Last(a.chain[s]));
  }

  lemma SwapKeepsTokens(h: Token -> Hash, a: Sys, b: Sys, s: Sid, t: Token)
    requires TokensOk(a) && s in a.chain && t !in a.issued
    requires b.chain == a.chain[s := a.chain[s] + [t]] && b.issued == a.issued + {t}
    ensures TokensOk(b)
  {
  }

  lemma SwapKeepsLog(a: Sys, b: Sys, s: Sid, t: Token)
    requires TokensOk(a) && LogOk(a) && s in a.chain && a.chain[s] != []
    requires b.chain == a.chain[s := a.chain[s] + [t]] && b.log == a.log + [Refreshed(s, Last(a.chain[s]), t)]
    ensures LogOk(b)
  {
    forall n | 0 <= n < |b.log| && b.log[n].Refreshed?
      ensures exists i :: Link(b.chain, b.log[n], i)
      ensures n < |a.log| ==> b.log[n].used != Last(a.chain[s])
    {
      if n < |a.log| {
        var i :| Link(a.chain, a.log[n], i);
        assert Link(b.chain, b.log[n], i);
      } else {
        assert Link(b.chain, b.log[n], |a.chain[s]| - 1);
      }
    }
    forall s', i | s' in b.chain && 0 <= i < |b.chain[s']| - 1
      ensures Refreshed(s', b.chain[s'][i], b.chain[s'][i + 1]) in b.log
    {
      if s' != s || i < |a.chain[s]| - 1 {
        assert Refreshed(s', a.chain[s'][i], a.chain[s'][i + 1]) in a.log;
      }
    }
  }

  /** The row and the chain move together; a revoked row is never the one hit. */
  lemma SwapKeepsRows(h: Token -> Hash, a: Sys, b: Sys, s: Sid, t: Token, now: int)
    requires RowsOk(h, a) && LogoutsOk(a) && s in a.rows && a.rows[s].revoked.None?
    requires b.rows == a.rows[s := a.rows[s].(hash := h(t), lastUsed := now)]
    requires b.chain == a.chain[s := a.chain[s] + [t]] && b.log == a.log + [Refreshed(s, Last(a.chain[s]), t)]
    requires forall p :: p in b.procs ==> p in a.procs && b.procs[p] == a.procs[p]
    ensures RowsOk(h, b) && LogoutsOk(b)
  {
  }

  lemma SwapKeepsInv(h: Token -> Hash, a: Sys, p: Pid, t: Token, now: int)
    requires Injective(h) && Inv(h, a) && Allowed(h, a, Swap(p, t, now))
    ensures Inv(h, After(h, a, Swap(p, t, now)))
  {
    var b := After(h, a, Swap(p, t, now));
    var s := Hit(a.rows, a.procs[p].prior);
    if s.None? {
      SwapMisses(h, a, p, t, now);
    } else {
      SwapHits(h, a, p, t, now, s.value);
      SwapKeepsRows(h, a, b, s.value, t, now);
      SwapKeepsTokens(h, a, b, s.value, t);
      SwapKeepsLog(a, b, s.value, t);
    }
  }

  lemma LoginKeepsTokens(a: Sys, b: Sys, s: Sid, t: Token)
    requires TokensOk(a) && s !in a.chain && t !in a.issued
    requires b.issued == a.issued + {t} && b.chain == a.chain[s := [t]]
    ensures TokensOk(b)
  {
  }

  lemma LoginKeepsInv(h: Token -> Hash, a: Sys, b: Sys, s: Sid, t: Token)
    requires Inv(h, a) && s !in a.rows && t !in a.issued && b.procs == a.procs && b.log == a.log
    requires b.issued == a.issued + {t} && b.chain == a.chain[s := [t]]
    requires s in b.rows && b.rows == a.rows[s := b.rows[s]] && b.rows[s].hash == h(t)
    ensures Inv(h, b)
  {
    LoginKeepsTokens(a, b, s, t);
    LoginKeepsLog(a, b, s, t);
  }

  lemma StampKeepsInv(h: Token -> Hash, a: Sys, b: Sys, s: Sid, now: int)
    requires Inv(h, a) && s in a.rows && b.issued == a.issued && b.chain == a.chain
    requires b.rows == a.rows[s := a.rows[s].(revoked := Some(now))] && b.log == a.log + [LoggedOut(s)]
    requires forall p :: p in b.procs ==> p in a.procs && b.procs[p] == a.procs[p]
    ensures Inv(h, b)
  {
    StampKeepsLog(a, b);
  }

  /** Reading, or giving up, writes nothing. */
  lemma ProcsKeepInv(h: Token -> Hash, a: Sys, b: Sys)
    requires Inv(h, a) && b == a.(procs := b.procs) && RowsOk(h, b)
    ensures Inv(h, b)
  {
    assert LogOk(b);
  }

  lemma StepKeepsInv(h: Token -> Hash, a: Sys, act: Action)
    requires Injective(h) && Inv(h, a) && Allowed(h, a, act)
    ensures Inv(h, After(h, a, act))
  {
    match act
    case Swap(p, t, now) => SwapKeepsInv(h, a, p, t, now);
    case Login(s, t, _, _, _) => LoginKeepsInv(h, a, After(h, a, act), s, t);
    case Stamp(p, now) => StampKeepsInv(h, a, After(h, a, act), a.procs[p].sid, now);
    case _ => ProcsKeepInv(h, a, After(h, a, act));
  }

  lemma LoginKeepsLog(a: Sys, b: Sys, s: Sid, t: Token)
    requires LogOk(a) && s !in a.chain && b.chain == a.chain[s := [t]] && b.log == a.log
    ensures LogOk(b)
  {
    forall n | 0 <= n < |b.log| && b.log[n].Refreshed? ensures exists i :: Link(b.chain, b.log[n], i) {
      var i :| Link(a.chain, a.log[n], i);
      assert Link(b.chain, b.log[n], i);
    }
  }

  lemma StampKeepsLog(a: Sys, b: Sys)
    requires LogOk(a) && b.chain == a.chain && |b.log| == |a.log| + 1 && b.log[..|a.log|] == a.log
    requires b.log[|a.log|].LoggedOut?
    ensures LogOk(b)
  {
    assert b.log == a.log + [b.log[|a.log|]];
    forall n | 0 <= n < |b.log| && b.log[n].Refreshed? ensures exists i :: Link(b.chain, b.log[n], i) {
      assert b.log[n] == a.log[n];
    }
  }

  lemma {:induction false} InvAlways(h: Token -> Hash, run: seq<Sys>, i: nat)
    requires IsRun(h, run) && i < |run|
    ensures Inv(h, run[i])
  {
    if i > 0 {
      InvAlways(h, run, i - 1);
      assert StepAt(h, run, i);
      var act :| Does(h, run[i - 1], run[i], act);
      StepKeepsInv(h, run[i - 1], act);
    }
  }

  // ---- what every run guarantees ----------------------------------------------------------

  /** Each raw token is consumed by at most one successful refresh. */
  lemma ConsumedOnce(h: Token -> Hash, run: seq<Sys>, i: nat, n: nat, m: nat)
    requires IsRun(h, run) && i < |run| && n < |run[i].log| && m < |run[i].log|
    requires run[i].log[n].Refreshed? && run[i].log[m].Refreshed? && run[i].log[n].used == run[i].log[m].used
    ensures n == m
  {
    InvAlways(h, run, i);
  }

  /** A session's tokens form one chain: the refreshes of the log are exactly the
      links of the chains. */
  lemma OneChain(h: Token -> Hash, run: seq<Sys>, i: nat, e: Event)
    requires IsRun(h, run) && i < |run| && e.Refreshed?
    ensures e in run[i].log <==> exists k :: Link(run[i].chain, e, k)
  {
    InvAlways(h, run, i);
    if k :| Link(run[i].chain, e, k) {
      assert Refreshed(e.sid, run[i].chain[e.sid][k], run[i].chain[e.sid][k + 1]) in run[i].log;
    }
    if e in run[i].log {
      var n :| 0 <= n < |run[i].log| && run[i].log[n] == e;
    }
  }

  predicate Newest(a: Sys, s: Sid, t: Token) {
    s in a.chain && a.chain[s] != [] && Last(a.chain[s]) == t
  }

  /** Only the newest token of a session that is not revoked can still be swapped. */
  lemma LiveIffNewest(h: Token -> Hash, run: seq<Sys>, i: nat, t: Token)
    requires IsRun(h, run) && i < |run|
    ensures Hit(run[i].rows, h(t)).Some? <==>
      exists s :: s in run[i].rows && run[i].rows[s].revoked.None? && Newest(run[i], s, t)
  {
    InvAlways(h, run, i);
    var a := run[i];
    HitMatches(a.rows, h(t));
    if s :| s in a.rows && a.rows[s].revoked.None? && Newest(a, s, t) {
      OneHolder(h, a, h(t), s);
    }
    if Hit(a.rows, h(t)).Some? {
      var s := Hit(a.rows, h(t)).value;
      assert h(Last(a.chain[s])) == h(t);
    }
  }

  lemma StepKeepsExpiry(h: Token -> Hash, a: Sys, act: Action, s: Sid)
    requires Allowed(h, a, act) && s in a.rows
    ensures s in After(h, a, act).rows && After(h, a, act).rows[s].expires == a.rows[s].expires
  {
  }

  /** A session stays, and its expiry is the one fixed at the login. */
  lemma {:induction false} ExpiryIsFixed(h: Token -> Hash, run: seq<Sys>, i: nat, j: nat, s: Sid)
    requires IsRun(h, run) && i <= j < |run| && s in run[i].rows
    ensures s in run[j].rows && run[j].rows[s].expires == run[i].rows[s].expires
  {
    if i < j {
      ExpiryIsFixed(h, run, i, j - 1, s);
      assert StepAt(h, run, j);
      var act :| Does(h, run[j - 1], run[j], act);
      StepKeepsExpiry(h, run[j - 1], act, s);
    }
  }

  /** Once a logout that found the session has committed, nothing of its chain is
      ever refreshed again, whichever token of the chain is presented. */
  lemma LogoutEndsChain(h: Token -> Hash, run: seq<Sys>, i: nat, n: nat, m: nat)
    requires IsRun(h, run) && i < |run| && n < m < |run[i].log|
    requires run[i].log[n].LoggedOut? && run[i].log[m].Refreshed?
    ensures run[i].log[n].sid in run[i].chain
    ensures run[i].log[m].used !in run[i].chain[run[i].log[n].sid]
  {
    InvAlways(h, run, i);
    var a := run[i];
    var s := a.log[n].sid;
    var k :| Link(a.chain, a.log[m], k);
  }

  // ---- no refresh of an expired session ---------------------------------------------------

  /** A refresh under way looked its session up before that session expires. */
  ghost predicate InTime(a: Sys) {
    forall p :: p in a.procs && (a.procs[p].CheckUser? || a.procs[p].Rotate?) ==>
      && a.procs[p].token in a.issued
      && forall s :: s in a.chain && s in a.rows && a.procs[p].token in a.chain[s] ==>
           a.procs[p].looked <= a.rows[s].expires
  }

  lemma LookIsInTime(h: Token -> Hash, a: Sys, p: Pid, s: Sid, now: int)
    requires Injective(h) && Inv(h, a) && Allowed(h, a, Look(p, s, now)) && a.procs[p].Refresh?
    ensures a.procs[p].token in a.issued
    ensures forall s' :: s' in a.chain && s' in a.rows && a.procs[p].token in a.chain[s'] ==> now <= a.rows[s'].expires
  {
    var token := a.procs[p].token;
    assert h(token) == h(Last(a.chain[s]));
    assert token == a.chain[s][|a.chain[s]| - 1];
    forall s' | s' in a.chain && s' in a.rows && token in a.chain[s'] ensures s' == s {
      var i :| 0 <= i < |a.chain[s']| && a.chain[s'][i] == token;
    }
  }

  lemma StepKeepsInTime(h: Token -> Hash, a: Sys, act: Action)
    requires Injective(h) && Inv(h, a) && InTime(a) && Allowed(h, a, act)
    ensures InTime(After(h, a, act))
  {
    match act
    case Look(p, s, now) =>
      if a.procs[p].Refresh? {
        LookIsInTime(h, a, p, s, now);
      }
    case Swap(p, t, now) => SwapKeepsInTime(h, a, p, t, now);
    case Login(s, t, _, _, _) => LoginKeepsInTime(a, After(h, a, act), s, t);
    case _ =>
  }

  lemma LoginKeepsInTime(a: Sys, b: Sys, s: Sid, t: Token)
    requires InTime(a) && t !in a.issued && b.procs == a.procs && b.issued == a.issued + {t}
    requires b.chain == a.chain[s := [t]] && s in b.rows && b.rows == a.rows[s := b.rows[s]]
    ensures InTime(b)
  {
  }

  lemma LongerKeepsInTime(a: Sys, b: Sys, s: Sid, t: Token)
    requires InTime(a) && t !in a.issued && b.issued == a.issued + {t}
    requires s in a.chain && b.chain == a.chain[s := a.chain[s] + [t]]
    requires s in a.rows && s in b.rows && b.rows == a.rows[s := b.rows[s]] && b.rows[s].expires == a.rows[s].expires
    requires forall p :: p in b.procs ==> p in a.procs && b.procs[p] == a.procs[p]
    ensures InTime(b)
  {
    assert forall o: Token :: o in b.chain[s] <==> o in a.chain[s] || o == t;
  }

  lemma SwapKeepsInTime(h: Token -> Hash, a: Sys, p: Pid, t: Token, now: int)
    requires Injective(h) && Inv(h, a) && InTime(a) && Allowed(h, a, Swap(p, t, now))
    ensures InTime(After(h, a, Swap(p, t, now)))
  {
    var s := Hit(a.rows, a.procs[p].prior);
    if s.Some? {
      SwapHits(h, a, p, t, now, s.value);
      LongerKeepsInTime(a, After(h, a, Swap(p, t, now)), s.value, t);
    } else {
      SwapMisses(h, a, p, t, now);
    }
  }

  lemma {:induction false} AlwaysInTime(h: Token -> Hash, run: seq<Sys>, i: nat)
    requires IsRun(h, run) && i < |run|
    ensures InTime(run[i])
  {
    if i > 0 {
      AlwaysInTime(h, run, i - 1);
      InvAlways(h, run, i - 1);
      assert StepAt(h, run, i);
      var act :| Does(h, run[i - 1], run[i], act);
      StepKeepsInTime(h, run[i - 1], act);
    }
  }

  /** A swap that hits a session belongs to a refresh that looked it up no later than
      its expiry. */
  lemma RefreshedInTime(h: Token -> Hash, run: seq<Sys>, i: nat, p: Pid, t: Token, now: int, s: Sid)
    requires IsRun(h, run) && i < |run| && Allowed(h, run[i], Swap(p, t, now))
    requires Hit(run[i].rows, run[i].procs[p].prior) == Some(s)
    ensures s in run[i].rows && run[i].procs[p].looked <= run[i].rows[s].expires
  {
    InvAlways(h, run, i);
    AlwaysInTime(h, run, i);
    var a := run[i];
    HitMatches(a.rows, a.procs[p].prior);
    assert h(a.procs[p].token) == h(Last(a.chain[s]));
    assert a.chain[s][|a.chain[s]| - 1] == a.procs[p].token;
  }
}
