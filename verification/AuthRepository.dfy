/** The auth repository's in-memory store: maps from keys to rows that are updated in place.

  Every method is proved against the value-level operation of the protocol modules. `up` says
  whether the call gets through to the database at all; a call that does not changes nothing.
 */
module AuthRepository {
  import opened Common
  import opened SessionStore
  import opened SessionForest
  import SP = SessionProtocol

  class SessionRow {
    const id: SessionId
    const user: UserId
    const remember: bool
    const expiresAt: Time
    const rotatedFrom: Option<SessionId>
    var revokedAt: Option<Time>

    function View(): Session
      reads this
    {
      Session(id, user, remember, expiresAt, rotatedFrom, revokedAt)
    }

    constructor (s: Session)
      ensures View() == s
    {
      id, user, remember := s.id, s.user, s.remember;
      expiresAt, rotatedFrom, revokedAt := s.expiresAt, s.rotatedFrom, s.revokedAt;
    }
  }

  lemma RotateOneRow(rows: Sessions, k: Token, token: Token, next: Session, now: Time)
    requires IdsUnique(rows) && k in rows && rows[k].Live() && token !in rows
    ensures Rotate(rows, rows[k].id, token, next, now) ==
            (rows[k := rows[k].Revoked(now)][token := next.(rotatedFrom := Some(rows[k].id))], Rotated)
  {
    assert RevokeId(rows, rows[k].id, now) == rows[k := rows[k].Revoked(now)];
  }

  class AuthRepository {
    var memUsers: map<UserId, SP.User>
    var memSessions: map<Token, SessionRow>
    var nextId: SessionId

    // What the stored session objects amount to, and what has been handed out.
    ghost var rows: Sessions
    ghost var issued: seq<SP.Issue>

    constructor ()
      ensures Valid() && World(0) == SP.INITIAL.w
    {
      memUsers, memSessions, nextId := map[], map[], 0;
      rows, issued := map[], [];
    }

    /** No row is filed under two keys, so updating one object in place changes one entry. */
    ghost predicate Valid()
      reads `memSessions, `rows, memSessions.Values
    {
      && (forall k, l :: k in memSessions && l in memSessions && memSessions[k] == memSessions[l] ==> k == l)
      && rows.Keys == memSessions.Keys
      && (forall k :: k in memSessions ==> memSessions[k].View() == rows[k])
    }

    ghost function World(now: Time): SP.World
      reads this
    {
      SP.World(now, memUsers, rows, nextId, issued)
    }

    /** A session id has been used and its token handed out. */
    method Issued(ghost x: SP.Issue)
      modifies `nextId, `issued
      ensures nextId == old(nextId) + 1 && issued == old(issued) + [x]
    {
      nextId, issued := nextId + 1, issued + [x];
    }

    /** Returns a copy, as the source does: what the caller holds goes stale, never shared. */
    method GetSessionByRefreshToken(token: Token) returns (found: Option<Session>)
      requires Valid()
      ensures found == if token in rows then Some(rows[token]) else None
    {
      if token in memSessions {
        return Some(memSessions[token].View());
      }
      return None;
    }

    method GetUserByID(user: UserId) returns (found: Option<SP.User>)
      requires Valid()
      ensures found == if user in memUsers then Some(memUsers[user]) else None
    {
      if user in memUsers {
        return Some(memUsers[user]);
      }
      return None;
    }

    method UpdateStatus(user: UserId, status: SP.Status)
      modifies `memUsers
      ensures forall now :: World(now) == SP.WithStatus(old(World(now)), user, status)
    {
      if user in memUsers {
        memUsers := memUsers[user := memUsers[user].(status := status)];
      }
    }

    method CreateSession(token: Token, s: Session, up: bool) returns (ok: bool)
      requires Valid()
      modifies `memSessions, `rows
      ensures Valid() && fresh(memSessions.Values - old(memSessions.Values))
      ensures ok <==> up && token !in old(rows)
      ensures rows == if ok then old(rows)[token := s] else old(rows)
    {
      if !up || token in memSessions {
        return false;
      }
      var row := new SessionRow(s);
      memSessions, rows := memSessions[token := row], rows[token := s];
      return true;
    }

    method RevokeSession(id: SessionId, now: Time, up: bool) returns (ok: bool)
      requires Valid()
      modifies `rows, memSessions.Values
      ensures Valid()
      ensures ok == up
      ensures rows == if up then RevokeId(old(rows), id, now) else old(rows)
    {
      if !up {
        return false;
      }
      var pending := memSessions.Keys;
      while pending != {}
        invariant pending <= memSessions.Keys
        invariant rows == old(rows)
        invariant forall k :: k in memSessions ==>
          memSessions[k].View() == if k !in pending && rows[k].id == id then rows[k].Revoked(now) else rows[k]
      {
        var k :| k in pending;
        if memSessions[k].id == id {
          memSessions[k].revokedAt := Some(now);
        }
        pending := pending - {k};
      }
      rows := RevokeId(rows, id, now);
      return true;
    }

    method RevokeAllUserSessions(user: UserId, now: Time, up: bool) returns (ok: bool)
      requires Valid()
      modifies `rows, memSessions.Values
      ensures Valid()
      ensures ok == up
      ensures rows == if up then RevokeUser(old(rows), user, now) else old(rows)
    {
      if !up {
        return false;
      }
      var pending := memSessions.Keys;
      while pending != {}
        invariant pending <= memSessions.Keys
        invariant rows == old(rows)
        invariant forall k :: k in memSessions ==>
          memSessions[k].View() == if k !in pending && rows[k].user == user then rows[k].Revoked(now) else rows[k]
      {
        var k :| k in pending;
        if memSessions[k].user == user {
          memSessions[k].revokedAt := Some(now);
        }
        pending := pending - {k};
      }
      rows := RevokeUser(rows, user, now);
      return true;
    }

    /** Stamps the row under `k` and files its successor under `token`. */
    method Supersede(k: Token, token: Token, next: Session, now: Time)
      requires Valid() && k in rows && token !in rows
      modifies `memSessions, `rows, memSessions[k]
      ensures Valid() && fresh(memSessions.Values - old(memSessions.Values))
      ensures rows == old(rows[k := rows[k].Revoked(now)][token := next])
    {
      var row := new SessionRow(next);
      memSessions[k].revokedAt := Some(now);
      memSessions := memSessions[token := row];
      rows := rows[k := rows[k].Revoked(now)][token := next];
    }

    /** Scans for the old row; whichever branch is taken, both halves land or neither does. The
      taken-token branch is the table's UNIQUE constraint rolling the transaction back. */
    method RotateSession(id: SessionId, token: Token, next: Session, now: Time) returns (result: RotateResult)
      requires Valid() && IdsUnique(rows)
      modifies `memSessions, `rows, memSessions.Values
      ensures Valid() && fresh(memSessions.Values - old(memSessions.Values))
      ensures (rows, result) == Rotate(old(rows), id, token, next, now)
    {
      var pending := memSessions.Keys;
      while pending != {}
        invariant pending <= memSessions.Keys
        invariant forall k :: k in rows && k !in pending ==> rows[k].id != id
      {
        var k :| k in pending;
        pending := pending - {k};
        if memSessions[k].id == id {
          assert rows[k].id == id;
          if memSessions[k].revokedAt.Some? {
            return AlreadyRotated;
          }
          assert rows[k].Live();
          if token in memSessions {
            return TokenTaken;
          }
          RotateOneRow(rows, k, token, next, now);
          Supersede(k, token, next.(rotatedFrom := Some(id)), now);
          return Rotated;
        }
      }
      return NotFound;
    }

    /** New password and end of every session, or neither. */
    method UpdatePasswordAndRevokeSessions(user: UserId, password: SP.Password, now: Time, up: bool) returns (ok: bool)
      requires Valid()
      modifies `memUsers, `rows, memSessions.Values
      ensures Valid()
      ensures ok == up
      ensures World(now) == SP.Advance(old(World(now)), SP.ResetCommit(user, password), SP.Choice(!up, 0)).0
    {
      if !up {
        return false;
      }
      if user in memUsers {
        memUsers := memUsers[user := memUsers[user].(password := password)];
      }
      ok := RevokeAllUserSessions(user, now, true);
    }
  }
}
