/** The authentication service's calls, run over the in-memory repository.

  Each method is the source's sequence of reads, checks and writes; its contract says that the
  call, run without interference, is exactly its thread of the protocol run to completion.
  Interference is what the protocol's runs add.
 */
module AuthService {
  import opened Common
  import opened SessionStore
  import opened SessionForest
  import opened SessionProtocol
  import opened SessionInvariant
  import Repo = AuthRepository

  class AuthService {
    const repo: Repo.AuthRepository

    constructor (repo: Repo.AuthRepository)
      ensures this.repo == repo
    {
      this.repo := repo;
    }

    method Login(user: UserId, password: Password, remember: bool, now: Time, cs: seq<Choice>) returns (o: Outcome)
      requires repo.Valid() && |cs| == 5
      modifies repo
      ensures repo.Valid() && fresh(repo.memSessions.Values - old(repo.memSessions.Values))
      ensures (repo.World(now), Done(o)) == Complete(old(repo.World(now)), LoginStart(user, password, remember), cs, 0)
    {
      ghost var w := repo.World(now);
      if cs[0].fault {
        return Fault;
      }
      var first := repo.GetUserByID(user);
      if first.None? {
        return LoginRejected;
      }
      if !first.value.status.CanAuthenticate() {
        return LoginIneligible(first.value.status);
      }
      CompleteStep(w, LoginStart(user, password, remember), cs, 0);
      CompleteStep(w, LoginFound(user, password, remember, first.value.password), cs, 1);
      if password != first.value.password {
        return LoginRejected;
      }
      CompleteStep(w, LoginMatched(user, remember), cs, 2);
      if !cs[2].fault {
        var again := repo.GetUserByID(user);
        match again {
          case None =>
          case Some(latest) =>
            if !latest.status.CanAuthenticate() {
              return LoginIneligible(latest.status);
            }
        }
      }
      if cs[3].fault {
        return Fault;
      }
      CompleteStep(w, LoginCleared(user, remember), cs, 3);
      o := StoreLogin(user, remember, now, cs[4]);
      CompleteStep(w, LoginReady(user, remember, now), cs, 4);
    }

    method StoreLogin(user: UserId, remember: bool, now: Time, c: Choice) returns (o: Outcome)
      requires repo.Valid()
      modifies repo
      ensures repo.Valid() && fresh(repo.memSessions.Values - old(repo.memSessions.Values))
      ensures (repo.World(now), Done(o)) == Advance(old(repo.World(now)), LoginReady(user, remember, now), c)
    {
      ghost var w := repo.World(now);
      var row := Session(repo.nextId, user, remember, now + Lifetime(remember), None, None);
      StoreSpec(w, user, remember, c);
      var stored := repo.CreateSession(c.token, row, !c.fault);
      if stored {
        repo.Issued(ByLogin(user, c.token, now, remember));
      }
      o := if stored then LoggedIn(c.token) else Fault;
    }

    method Refresh(token: Token, now: Time, cs: seq<Choice>) returns (o: Outcome)
      requires repo.Valid() && IdsUnique(repo.rows) && |cs| == 4
      modifies repo, repo.memSessions.Values
      ensures repo.Valid() && fresh(repo.memSessions.Values - old(repo.memSessions.Values))
      ensures (repo.World(now), Done(o)) == Complete(old(repo.World(now)), RefreshStart(token), cs, 0)
    {
      ghost var w := repo.World(now);
      if cs[0].fault {
        return Fault;
      }
      var found := repo.GetSessionByRefreshToken(token);
      if found.None? {
        return SessionInvalid;
      }
      var sess := found.value;
      CompleteStep(w, RefreshStart(token), cs, 0);
      if cs[1].fault {
        return Fault;
      }
      var standing := repo.GetUserByID(sess.user);
      CompleteStep(w, RefreshFound(token, sess), cs, 1);
      if standing.None? {
        return Fault;
      }
      if !standing.value.status.CanAuthenticate() {
        return AccountUnavailable;
      }
      o := Decide(token, sess, now, cs);
    }

    /** The verdict on a session whose account is in good standing, and what follows from it. */
    method Decide(token: Token, sess: Session, now: Time, cs: seq<Choice>) returns (o: Outcome)
      requires repo.Valid() && IdsUnique(repo.rows) && |cs| == 4
      modifies repo, repo.memSessions.Values
      ensures repo.Valid() && fresh(repo.memSessions.Values - old(repo.memSessions.Values))
      ensures (repo.World(now), Done(o)) == Complete(old(repo.World(now)), RefreshStanding(token, sess), cs, 2)
    {
      ghost var w := repo.World(now);
      CompleteStep(w, RefreshStanding(token, sess), cs, 2);
      if sess.revokedAt.Some? && now <= sess.revokedAt.value + REFRESH_ROTATION_GRACE {
        return RotationRaced;
      }
      if sess.revokedAt.Some? {
        CompleteStep(w, RefreshReuse(sess.user), cs, 3);
        o := Contain(sess.user, now, cs[3]);
        return;
      }
      if sess.expiresAt < now {
        return SessionExpired;
      }
      CompleteStep(w, RefreshReady(token, sess), cs, 3);
      if cs[3].fault {
        return Fault;
      }
      o := StoreRotation(token, sess, now, cs[3]);
    }

    /** A revoked token came back after the grace window: end every session of its account. */
    method Contain(user: UserId, now: Time, c: Choice) returns (o: Outcome)
      requires repo.Valid()
      modifies repo, repo.memSessions.Values
      ensures repo.Valid() && repo.memSessions == old(repo.memSessions)
      ensures (repo.World(now), Done(o)) == Advance(old(repo.World(now)), RefreshReuse(user), c)
    {
      var contained := repo.RevokeAllUserSessions(user, now, !c.fault);
      return ReuseDetected(contained);
    }

    method StoreRotation(token: Token, sess: Session, now: Time, c: Choice) returns (o: Outcome)
      requires repo.Valid() && IdsUnique(repo.rows) && !c.fault
      modifies repo, repo.memSessions.Values
      ensures repo.Valid() && fresh(repo.memSessions.Values - old(repo.memSessions.Values))
      ensures (repo.World(now), Done(o)) == Advance(old(repo.World(now)), RefreshReady(token, sess), c)
    {
      ghost var w := repo.World(now);
      var next := Session(repo.nextId, sess.user, sess.remember, sess.expiresAt, None, None);
      RotationSpec(w, token, sess, next, c);
      var result := repo.RotateSession(sess.id, c.token, next, now);
      if result.Rotated? {
        repo.Issued(ByRefresh(sess.user, c.token, token));
      }
      o := if result.Rotated? then Refreshed(c.token, sess.expiresAt, sess.remember)
           else if result.AlreadyRotated? then RotationRaced else Fault;
    }

    method Logout(token: Token, now: Time, cs: seq<Choice>) returns (o: Outcome)
      requires repo.Valid() && |cs| == 2
      modifies repo, repo.memSessions.Values
      ensures repo.Valid()
      ensures (repo.World(now), Done(o)) == Complete(old(repo.World(now)), LogoutStart(token), cs, 0)
    {
      ghost var w := repo.World(now);
      if cs[0].fault {
        return Fault;
      }
      var found := repo.GetSessionByRefreshToken(token);
      if found.None? {
        return LoggedOut;
      }
      CompleteStep(w, LogoutStart(token), cs, 0);
      CompleteStep(w, LogoutFound(found.value.id), cs, 1);
      var revoked := repo.RevokeSession(found.value.id, now, !cs[1].fault);
      if !revoked {
        return Fault;
      }
      return LoggedOut;
    }
  }

  /** The administrator's side of an account's standing. */
  class AdminService {
    const repo: Repo.AuthRepository

    constructor (repo: Repo.AuthRepository)
      ensures this.repo == repo
    {
      this.repo := repo;
    }

    /** The status is written first, the sessions ended second and the audit entry made last; a failed
      revocation is only logged, a failed audit entry is returned. A call without a reason is refused. */
    method UpdateUserStatus(user: UserId, status: Status, reason: string, now: Time, cs: seq<Choice>)
      returns (o: Option<Outcome>)
      requires repo.Valid() && |cs| == 3
      modifies repo, repo.memSessions.Values
      ensures repo.Valid()
      ensures if reason == "" then o == None && repo.World(now) == old(repo.World(now))
              else o.Some? && (repo.World(now), Done(o.value)) ==
                              Complete(old(repo.World(now)), StatusStart(user, status), cs, 0)
    {
      if reason == "" {
        return None;
      }
      ghost var w := repo.World(now);
      CompleteStep(w, StatusStart(user, status), cs, 0);
      if !status.IsKnown() {
        return Some(UnknownStatus);
      }
      if cs[0].fault {
        return Some(Fault);
      }
      repo.UpdateStatus(user, status);
      var logged := !cs[1].fault;
      if !status.CanAuthenticate() {
        CompleteStep(repo.World(now), StatusWritten(user), cs, 1);
        EndSessions(user, now, cs[1]);
        logged := !cs[2].fault;
      }
      CompleteStep(repo.World(now), StatusSettled(user), cs, if status.CanAuthenticate() then 1 else 2);
      return Some(if logged then StatusChanged else AuditFailed);
    }

    method EndSessions(user: UserId, now: Time, c: Choice)
      requires repo.Valid()
      modifies repo, repo.memSessions.Values
      ensures repo.Valid()
      ensures (repo.World(now), StatusSettled(user)) == Advance(old(repo.World(now)), StatusWritten(user), c)
    {
      var _ := repo.RevokeAllUserSessions(user, now, !c.fault);
    }
  }

  lemma StoreSpec(w: World, user: UserId, remember: bool, c: Choice)
    ensures Advance(w, LoginReady(user, remember, w.now), c) ==
            if c.fault || c.token in w.sessions then (w, Done(Fault))
            else
              (World(w.now, w.users,
                     w.sessions[c.token := Session(w.nextId, user, remember, w.now + Lifetime(remember), None, None)],
                     w.nextId + 1, w.issued + [ByLogin(user, c.token, w.now, remember)]),
               Done(LoggedIn(c.token)))
  {
  }

  lemma RotationSpec(w: World, token: Token, row: Session, next: Session, c: Choice)
    requires !c.fault && next == Session(w.nextId, row.user, row.remember, row.expiresAt, None, None)
    ensures var (rows, result) := Rotate(w.sessions, row.id, c.token, next, w.now);
            Advance(w, RefreshReady(token, row), c) ==
            if result.Rotated? then
              (World(w.now, w.users, rows, w.nextId + 1, w.issued + [ByRefresh(row.user, c.token, token)]),
               Done(Refreshed(c.token, row.expiresAt, row.remember)))
            else (w, Done(if result.AlreadyRotated? then RotationRaced else Fault))
  {
  }
}
