/** Issuing, rotating and revoking sessions as the service runs them. */
module AuthService {
  import opened School
  import opened Sessions

  /** uq_sessions_refresh_token_hash */
  ghost predicate UniqueHashes(rows: map<Sid, Row>) {
    forall s, s' :: s in rows && s' in rows && rows[s].hash == rows[s'].hash ==> s == s'
  }

  class SessionRepository {
    var rows: map<Sid, Row>

    constructor ()
      ensures rows == map[] && UniqueHashes(rows)
    {
      rows := map[];
    }

    method GetByTokenHash(hash: Hash) returns (found: Option<Sid>)
      requires UniqueHashes(rows)
      ensures found.Some? ==> found.value in rows && rows[found.value].hash == hash
      ensures found.None? ==> forall s :: s in rows ==> rows[s].hash != hash
    {
      var hits := ByHash(rows, hash);
      if hits == {} {
        assert forall s :: s in rows && rows[s].hash == hash ==> s in hits;
        return None;
      }
      var s :| s in hits;
      return Some(s);
    }

    /** UPDATE ... WHERE hash = prior AND revoked_at IS NULL, and its rowcount. */
    method Rotate(prior: Hash, next: Hash, now: int) returns (rotated: bool)
      requires UniqueHashes(rows) && forall s :: s in rows ==> rows[s].hash != next
      modifies this
      ensures UniqueHashes(rows)
      ensures rows == Rotated(old(rows), prior, next, now)
      ensures rotated <==> exists s :: s in Matching(old(rows), prior)
    {
      var hits := Matching(rows, prior);
      rotated := |hits| == 1;
      if s :| s in hits {
        assert hits == {s};
      }
      rows := Rotated(rows, prior, next, now);
    }

    method Save(s: Sid, row: Row)
      requires UniqueHashes(rows) && forall o :: o in rows && o != s ==> rows[o].hash != row.hash
      modifies this
      ensures UniqueHashes(rows) && rows == old(rows)[s := row]
    {
      rows := rows[s := row];
    }
  }

  class AuthService {
    const sessions: SessionRepository
    const h: Token -> Hash
    const lifetime: int

    constructor (sessions: SessionRepository, h: Token -> Hash, lifetime: int)
      ensures this.sessions == sessions && this.h == h && this.lifetime == lifetime
    {
      this.sessions, this.h, this.lifetime := sessions, h, lifetime;
    }

    /** _issue_session: s and raw are freshly generated. */
    method IssueSession(user: User, s: Sid, raw: Token, now: int)
      requires UniqueHashes(sessions.rows) && s !in sessions.rows
      requires forall o :: o in sessions.rows ==> sessions.rows[o].hash != h(raw)
      modifies sessions
      ensures UniqueHashes(sessions.rows)
      ensures sessions.rows == old(sessions.rows)[s := Row(user, h(raw), now + lifetime, None, now)]
    {
      sessions.Save(s, Row(user, h(raw), now + lifetime, None, now));
    }

    /** The session a token may refresh at the time now. */
    predicate Refreshable(rows: map<Sid, Row>, s: Sid, raw: Token, now: int, active: set<User>)
    {
      s in rows && rows[s].hash == h(raw) && rows[s].revoked.None? && rows[s].expires >= now && rows[s].user in active
    }

    /** A refresh succeeds exactly on the current token of a session that is not
        revoked, not expired and of an active account; it then replaces that
        session's token and touches nothing else. */
    method Refresh(raw: Token, minted: Token, now: int, active: set<User>) returns (reply: Option<Token>)
      requires UniqueHashes(sessions.rows)
      requires forall o :: o in sessions.rows ==> sessions.rows[o].hash != h(minted)
      modifies sessions
      ensures UniqueHashes(sessions.rows)
      ensures reply.Some? <==> exists s :: Refreshable(old(sessions.rows), s, raw, now, active)
      ensures reply.None? ==> sessions.rows == old(sessions.rows)
      ensures reply.Some? ==> reply.value == minted
      ensures forall s :: reply.Some? && Refreshable(old(sessions.rows), s, raw, now, active) ==>
        sessions.rows == old(sessions.rows)[s := old(sessions.rows)[s].(hash := h(minted), lastUsed := now)]
    {
      var found := sessions.GetByTokenHash(h(raw));
      if found.None? {
        return None;
      }
      var session := sessions.rows[found.value];
      if session.revoked.Some? || session.expires < now {
        return None;
      }
      if session.user !in active {
        return None;
      }
      assert Refreshable(sessions.rows, found.value, raw, now, active);
      assert found.value in Matching(sessions.rows, session.hash);
      var rotated := sessions.Rotate(session.hash, h(minted), now);
      if !rotated {
        return None;
      }
      assert sessions.rows == old(sessions.rows)[found.value := session.(hash := h(minted), lastUsed := now)];
      reply := Some(minted);
    }

    /** A logout revokes the session whose current token it is given; an unknown
        or already revoked token changes nothing. */
    method Logout(raw: Token, now: int)
      requires UniqueHashes(sessions.rows)
      modifies sessions
      ensures UniqueHashes(sessions.rows)
      ensures forall s :: s in old(sessions.rows) ==>
        s in sessions.rows && sessions.rows[s] ==
          if old(sessions.rows)[s].hash == h(raw) && old(sessions.rows)[s].revoked.None?
          then old(sessions.rows)[s].(revoked := Some(now)) else old(sessions.rows)[s]
      ensures sessions.rows.Keys == old(sessions.rows).Keys
    {
      var found := sessions.GetByTokenHash(h(raw));
      if found.None? || sessions.rows[found.value].revoked.Some? {
        return;
      }
      sessions.Save(found.value, sessions.rows[found.value].(revoked := Some(now)));
    }
  }
}
