/** Exactly when an undisturbed call succeeds, and what it leaves behind. */
module SessionCalls {
  import opened Common
  import opened SessionStore
  import opened SessionForest
  import opened SessionProtocol
  import opened SessionInvariant
  import opened SessionReplay

  /** A login that is not answered with tokens says why: an account that exists and is not active is
    told its status, before the password is looked at; an unknown account and a wrong password get
    one and the same answer; the rest is a fault. */
  lemma LoginRefusals(w: World, user: UserId, password: Password, remember: bool, cs: seq<Choice>)
    requires |cs| == 5
    ensures var q := Complete(w, LoginStart(user, password, remember), cs, 0).1;
            var matches := user in w.users && w.users[user].status == Active && w.users[user].password == password;
            && q.Done?
            && (q.outcome.LoginIneligible? <==> !cs[0].fault && user in w.users && w.users[user].status != Active)
            && (q.outcome.LoginIneligible? ==> q.outcome.status == w.users[user].status)
            && (q.outcome == LoginRejected <==>
                  && !cs[0].fault
                  && (user !in w.users || (w.users[user].status == Active && w.users[user].password != password)))
            && (q.outcome == Fault <==>
                  || cs[0].fault
                  || (matches && (cs[3].fault || cs[4].fault || cs[4].token in w.sessions)))
  {
    CompleteStep(w, LoginStart(user, password, remember), cs, 0);
    if !cs[0].fault && InGoodStanding(w, user) {
      CompleteStep(w, LoginFound(user, password, remember, w.users[user].password), cs, 1);
      CompleteStep(w, LoginMatched(user, remember), cs, 2);
      CompleteStep(w, LoginCleared(user, remember), cs, 3);
      CompleteStep(w, LoginReady(user, remember, w.now), cs, 4);
    }
  }

  /** Login hands out tokens if and only if the account is active, the password is its own, and
    nothing it needs fails; a second standing read that fails is not needed. It then adds one session,
    for seven days or with Remember Me for thirty, and otherwise it changes nothing. */
  lemma LoginSucceedsIff(w: World, user: UserId, password: Password, remember: bool, cs: seq<Choice>)
    requires |cs| == 5
    ensures var (b, q) := Complete(w, LoginStart(user, password, remember), cs, 0);
            && q.Done?
            && (q.outcome.LoggedIn? <==>
                  && user in w.users && w.users[user].status == Active && w.users[user].password == password
                  && !cs[0].fault && !cs[3].fault && !cs[4].fault && cs[4].token !in w.sessions)
            && (if q.outcome.LoggedIn? then
                  var days := if remember then 30 else 7;
                  && q.outcome.token == cs[4].token && b.users == w.users
                  && b.sessions == w.sessions[cs[4].token :=
                       Session(w.nextId, user, remember, w.now + days * 86_400_000_000_000, None, None)]
                else b == w)
  {
    CompleteStep(w, LoginStart(user, password, remember), cs, 0);
    if !cs[0].fault && InGoodStanding(w, user) {
      CompleteStep(w, LoginFound(user, password, remember, w.users[user].password), cs, 1);
      CompleteStep(w, LoginMatched(user, remember), cs, 2);
      CompleteStep(w, LoginCleared(user, remember), cs, 3);
      CompleteStep(w, LoginReady(user, remember, w.now), cs, 4);
    }
  }

  ghost predicate MayRefresh(w: World, token: Token) {
    && token in w.sessions && w.sessions[token].revokedAt == None && w.now <= w.sessions[token].expiresAt
    && InGoodStanding(w, w.sessions[token].user)
  }

  /** Refresh hands out tokens if and only if the session is live and in time, its account is in
    good standing, and nothing fails. The only refusal that changes anything is containment. */
  lemma RefreshSucceedsIff(w: World, token: Token, cs: seq<Choice>)
    requires WorldOk(w) && |cs| == 4
    ensures var (b, q) := Complete(w, RefreshStart(token), cs, 0);
            && q.Done?
            && (q.outcome.Refreshed? <==>
                  MayRefresh(w, token) && !cs[0].fault && !cs[1].fault && !cs[3].fault && cs[3].token !in w.sessions)
            && (q.outcome.Refreshed? || q.outcome == ReuseDetected(true) || b == w)
  {
    CompleteStep(w, RefreshStart(token), cs, 0);
    if !cs[0].fault && token in w.sessions {
      FoundRefresh(w, token, cs);
    }
  }

  lemma FoundRefresh(w: World, token: Token, cs: seq<Choice>)
    requires WorldOk(w) && token in w.sessions && |cs| == 4
    ensures var (b, q) := Complete(w, RefreshFound(token, w.sessions[token]), cs, 1);
            && q.Done?
            && (q.outcome.Refreshed? <==>
                  MayRefresh(w, token) && !cs[1].fault && !cs[3].fault && cs[3].token !in w.sessions)
            && (q.outcome.Refreshed? || q.outcome == ReuseDetected(true) || b == w)
  {
    var row := w.sessions[token];
    CompleteStep(w, RefreshFound(token, row), cs, 1);
    if !cs[1].fault && InGoodStanding(w, row.user) {
      CompleteStep(w, RefreshStanding(token, row), cs, 2);
      JudgedRefresh(w, token, cs);
    }
  }

  lemma JudgedRefresh(w: World, token: Token, cs: seq<Choice>)
    requires WorldOk(w) && token in w.sessions && |cs| == 4
    ensures var row := w.sessions[token];
            var (b, q) := Complete(w, Judge(token, row, w.now), cs, 3);
            && q.Done?
            && (q.outcome.Refreshed? <==>
                  row.Live() && w.now <= row.expiresAt && !cs[3].fault && cs[3].token !in w.sessions)
            && (q.outcome.Refreshed? || q.outcome == ReuseDetected(true) || b == w)
  {
    var row := w.sessions[token];
    if row.revokedAt.Some? {
      if w.now > row.revokedAt.value + REFRESH_ROTATION_GRACE {
        CompleteStep(w, RefreshReuse(row.user), cs, 3);
      }
    } else if w.now <= row.expiresAt {
      CompleteStep(w, RefreshReady(token, row), cs, 3);
      assert IdKnown(w.sessions, row.id) && IdLive(w.sessions, row.id);
    }
  }

  /** The refusal that answers a row of an account in good standing. */
  ghost predicate RefusesRow(row: Session, now: Time, c: Choice, taken: bool, o: Outcome) {
    && (o == RotationRaced <==> row.revokedAt.Some? && now <= row.revokedAt.value + 10_000_000_000)
    && (o == ReuseDetected(!c.fault) <==> row.revokedAt.Some? && row.revokedAt.value + 10_000_000_000 < now)
    && (o == SessionExpired <==> row.revokedAt.None? && row.expiresAt < now)
    && (o == Fault <==> row.revokedAt.None? && now <= row.expiresAt && (c.fault || taken))
  }

  lemma JudgedRefusals(w: World, token: Token, cs: seq<Choice>)
    requires WorldOk(w) && token in w.sessions && |cs| == 4
    ensures var q := Complete(w, Judge(token, w.sessions[token], w.now), cs, 3).1;
            q.Done? && RefusesRow(w.sessions[token], w.now, cs[3], cs[3].token in w.sessions, q.outcome)
  {
    var row := w.sessions[token];
    if row.revokedAt.Some? {
      if w.now > row.revokedAt.value + REFRESH_ROTATION_GRACE {
        CompleteStep(w, RefreshReuse(row.user), cs, 3);
      }
    } else if w.now <= row.expiresAt {
      CompleteStep(w, RefreshReady(token, row), cs, 3);
      assert IdKnown(w.sessions, row.id) && IdLive(w.sessions, row.id);
    }
  }

  /** A refresh that yields nothing says why. In this order: a lookup that fails; a token nobody knows;
    a lookup of the account that fails, or no such account; an account that is not active; a session
    revoked within the last ten seconds; one revoked before; one expired. */
  lemma RefreshRefusals(w: World, token: Token, cs: seq<Choice>)
    requires WorldOk(w) && |cs| == 4
    ensures var q := Complete(w, RefreshStart(token), cs, 0).1;
            && q.Done?
            && (if cs[0].fault then q.outcome == Fault
                else if token !in w.sessions then q.outcome == SessionInvalid
                else if cs[1].fault || w.sessions[token].user !in w.users then q.outcome == Fault
                else if w.users[w.sessions[token].user].status != Active then q.outcome == AccountUnavailable
                else RefusesRow(w.sessions[token], w.now, cs[3], cs[3].token in w.sessions, q.outcome))
  {
    CompleteStep(w, RefreshStart(token), cs, 0);
    if !cs[0].fault && token in w.sessions {
      FoundRefusals(w, token, cs);
    }
  }

  lemma FoundRefusals(w: World, token: Token, cs: seq<Choice>)
    requires WorldOk(w) && token in w.sessions && |cs| == 4
    ensures var q := Complete(w, RefreshFound(token, w.sessions[token]), cs, 1).1;
            && q.Done?
            && (if cs[1].fault || w.sessions[token].user !in w.users then q.outcome == Fault
                else if w.users[w.sessions[token].user].status != Active then q.outcome == AccountUnavailable
                else RefusesRow(w.sessions[token], w.now, cs[3], cs[3].token in w.sessions, q.outcome))
  {
    var row := w.sessions[token];
    CompleteStep(w, RefreshFound(token, row), cs, 1);
    if !cs[1].fault && InGoodStanding(w, row.user) {
      CompleteStep(w, RefreshStanding(token, row), cs, 2);
      JudgedRefusals(w, token, cs);
    }
  }

  /** The rotation itself decides again: whatever happened since the verdict, tokens are handed out if
    and only if the session is still live; the loser of a race is told so, and nothing changes. */
  lemma RotationDecides(w: World, token: Token, row: Session, c: Choice)
    requires WorldOk(w) && ThreadOk(w, RefreshReady(token, row))
    ensures var (b, q) := Advance(w, RefreshReady(token, row), c);
            var live := w.sessions[token].revokedAt == None;
            && q.Done?
            && (q.outcome.Refreshed? <==> !c.fault && live && c.token !in w.sessions)
            && (q.outcome == RotationRaced <==> !c.fault && !live)
            && (q.outcome == Fault <==> c.fault || (live && c.token in w.sessions))
            && (!q.outcome.Refreshed? ==> b == w)
  {
    assert IdKnown(w.sessions, row.id);
    if w.sessions[token].Live() {
      assert IdLive(w.sessions, row.id);
    }
  }

  /** Logout stamps the presented session and no other; an unknown token is already logged out; a call
    that fails is a fault and changes nothing. */
  lemma LogoutEndsOneSession(w: World, token: Token, cs: seq<Choice>)
    requires WorldOk(w) && |cs| == 2
    ensures Complete(w, LogoutStart(token), cs, 0) ==
            if cs[0].fault then (w, Done(Fault))
            else if token !in w.sessions then (w, Done(LoggedOut))
            else if cs[1].fault then (w, Done(Fault))
            else (w.(sessions := w.sessions[token := w.sessions[token].(revokedAt := Some(w.now))]), Done(LoggedOut))
  {
    CompleteStep(w, LogoutStart(token), cs, 0);
    if !cs[0].fault && token in w.sessions {
      CompleteStep(w, LogoutFound(w.sessions[token].id), cs, 1);
      assert RevokeId(w.sessions, w.sessions[token].id, w.now) == w.sessions[token := w.sessions[token].Revoked(w.now)];
    }
  }

  lemma WrittenStatus(m: World, user: UserId, cs: seq<Choice>)
    requires |cs| == 3
    ensures Complete(m, StatusWritten(user), cs, 1) ==
            (if cs[1].fault then m else m.(sessions := RevokeUser(m.sessions, user, m.now)),
             Done(if cs[2].fault then AuditFailed else StatusChanged))
  {
    CompleteStep(m, StatusWritten(user), cs, 1);
    CompleteStep(Advance(m, StatusWritten(user), cs[1]).0, StatusSettled(user), cs, 2);
  }

  /** A known status is always written once the write gets through. A change to anything but active
    stamps every session of the account and no other, unless that revocation fails, which the answer
    hides: the answer depends on the audit entry alone. A status the product does not know, or a write
    that fails, changes nothing. */
  lemma StatusChangeEndsSessions(w: World, user: UserId, status: Status, cs: seq<Choice>)
    requires |cs| == 3 && user in w.users
    ensures var (b, q) := Complete(w, StatusStart(user, status), cs, 0);
            if status.Other? then b == w && q == Done(UnknownStatus)
            else if cs[0].fault then b == w && q == Done(Fault)
            else
              var logged := if status == Active then !cs[1].fault else !cs[2].fault;
              && q == Done(if logged then StatusChanged else AuditFailed)
              && b.users == w.users[user := w.users[user].(status := status)]
              && (if status == Active || cs[1].fault then b.sessions == w.sessions
                  else NoLiveSession(b.sessions, user) && StampedFor(w.sessions, b.sessions, user, w.now))
  {
    CompleteStep(w, StatusStart(user, status), cs, 0);
    if status.IsKnown() && !cs[0].fault {
      var m := WithStatus(w, user, status);
      if status == Active {
        CompleteStep(m, StatusSettled(user), cs, 1);
      } else {
        WrittenStatus(m, user, cs);
      }
    }
  }

  /** After a reset's write the new password is the account's only one: a login that nothing disturbs
    succeeds with it and with no other. Every session from before has ended; a write that fails
    leaves everything as it was. */
  lemma OnlyTheNewPasswordWorks(w: World, user: UserId, password: Password, c: Choice, tried: Password, cs: seq<Choice>)
    requires user in w.users && w.users[user].status == Active && |cs| == 5
    requires (forall i :: 0 <= i < 5 ==> !cs[i].fault) && cs[4].token !in w.sessions
    ensures var (b, q) := Advance(w, ResetCommit(user, password), c);
            if c.fault then b == w && q == Done(Fault)
            else
              && q == Done(PasswordReset) && StampedFor(w.sessions, b.sessions, user, w.now)
              && (Complete(b, LoginStart(user, tried, false), cs, 0).1 == Done(LoggedIn(cs[4].token)) <==> tried == password)
              && forall u :: u in w.users && u != user ==> u in b.users && b.users[u] == w.users[u]
  {
    if !c.fault {
      LoginSucceedsIff(Advance(w, ResetCommit(user, password), c).0, user, tried, false, cs);
    }
  }
}
