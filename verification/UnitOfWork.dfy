/** The database session a request works on: flushed writes are staged on top of
    the committed store and reach it only through a commit.  A flush or a commit
    may fail at any time; the repositories roll back when it does. */
module UnitOfWork {
  /** What a request comes to when the session does not fail. */
  datatype Outcome<T, E> = Ok(db: T) | Err(error: E)

  datatype Reply<E> = Done | Failed(error: E) | Unavailable

  /** faults counts the flushes and commits that failed so far. */
  class Session<T(==)> {
    var committed: T
    var working: T
    var faults: nat

    /** No transaction has staged anything. */
    predicate Idle()
      reads this
    {
      working == committed
    }

    constructor (store: T)
      ensures committed == store && faults == 0 && Idle()
    {
      committed, working, faults := store, store, 0;
    }

    method Flush(next: T) returns (ok: bool)
      modifies `working, `faults
      ensures working == if ok then next else committed
      ensures faults == old(faults) + if ok then 0 else 1
    {
      ok := *;
      working, faults := if ok then next else committed, faults + if ok then 0 else 1;
    }

    method Commit() returns (ok: bool)
      modifies this
      ensures Idle()
      ensures committed == if ok then old(working) else old(committed)
      ensures faults == old(faults) + if ok then 0 else 1
    {
      ok := *;
      if ok {
        committed := working;
      } else {
        working, faults := committed, faults + 1;
      }
    }

    /** add(entity): one write, flushed and committed. */
    method Save(next: T) returns (ok: bool)
      modifies this
      ensures Idle()
      ensures committed == if ok then next else old(committed)
      ensures faults == old(faults) + if ok then 0 else 1
    {
      ok := Flush(next);
      if ok {
        ok := Commit();
      }
    }
  }

  /** All or nothing: a request whose statements all went through has the given
      outcome; one that a fault cut short has changed nothing, and every check it
      could fail comes before its first write.  Nothing is left staged. */
  twostate predicate Answers<T, E>(session: Session<T>, spec: Outcome<T, E>, new reply: Reply<E>)
    reads session
  {
    && session.Idle()
    && (reply == Unavailable <==> session.faults != old(session.faults))
    && (spec.Err? ==> reply == Failed(spec.error))
    && (spec.Ok? ==> !reply.Failed?)
    && session.committed == if reply.Done? && spec.Ok? then spec.db else old(session.committed)
  }

  /** A query without ORDER BY: the rows in some order, each once. */
  method InSomeOrder<R(==)>(rows: set<R>) returns (list: seq<R>)
    ensures forall x :: x in list <==> x in rows
    ensures |list| == |rows|
    ensures forall i, j :: 0 <= i < j < |list| ==> list[i] != list[j]
  {
    list := [];
    var left := rows;
    while left != {}
      invariant left <= rows
      invariant forall x :: x in list <==> x in rows && x !in left
      invariant |list| + |left| == |rows|
      invariant forall i, j :: 0 <= i < j < |list| ==> list[i] != list[j]
      decreases left
    {
      var x :| x in left;
      list := list + [x];
      left := left - {x};
    }
  }
}
