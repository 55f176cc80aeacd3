/** What one refresh call does when nothing interferes: rotation, and reuse detection. */
module SessionReplay {
  import opened Common
  import opened SessionStore
  import opened SessionForest
  import opened SessionProtocol
  import opened SessionInvariant

  ghost predicate InGoodStanding(w: World, user: UserId) {
    user in w.users && w.users[user].status == Active
  }

  /** Replaying a revoked token issues nothing. Within ten seconds of its latest stamp the store is
    untouched; after that, every session of the account is stamped anew, unless the revocation
    itself fails, and then the caller is not told that it happened. */
  lemma ReplayIsContained(w: World, token: Token, cs: seq<Choice>)
    requires token in w.sessions && w.sessions[token].revokedAt.Some?
    requires InGoodStanding(w, w.sessions[token].user)
    requires |cs| == 4 && !cs[0].fault && !cs[1].fault
    ensures var row := w.sessions[token];
            var (b, q) := Complete(w, RefreshStart(token), cs, 0);
            if w.now <= row.revokedAt.value + 10_000_000_000 then b == w && q == Done(RotationRaced)
            else if cs[3].fault then b == w && q == Done(ReuseDetected(false))
            else
              && q == Done(ReuseDetected(true))
              && NoLiveSession(b.sessions, row.user)
              && b == w.(sessions := b.sessions) && StampedFor(w.sessions, b.sessions, row.user, w.now)
  {
    var row := w.sessions[token];
    CompleteStep(w, RefreshStart(token), cs, 0);
    CompleteStep(w, RefreshFound(token, row), cs, 1);
    CompleteStep(w, RefreshStanding(token, row), cs, 2);
    if w.now > row.revokedAt.value + REFRESH_ROTATION_GRACE {
      CompleteStep(w, RefreshReuse(row.user), cs, 3);
    }
  }

  /** A live, unexpired session of an account in good standing is exchanged for one successor
    that inherits its user, policy and absolute expiry. */
  lemma RefreshRotates(w: World, token: Token, cs: seq<Choice>)
    requires WorldOk(w) && token in w.sessions && w.sessions[token].Live()
    requires w.now <= w.sessions[token].expiresAt && InGoodStanding(w, w.sessions[token].user)
    requires |cs| == 4 && !cs[0].fault && !cs[1].fault && !cs[3].fault && cs[3].token !in w.sessions
    ensures var row := w.sessions[token];
            var (b, q) := Complete(w, RefreshStart(token), cs, 0);
            && q == Done(Refreshed(cs[3].token, row.expiresAt, row.remember))
            && b.now == w.now && b.users == w.users
            && b.sessions == w.sessions[token := row.(revokedAt := Some(w.now))]
                [cs[3].token := Session(w.nextId, row.user, row.remember, row.expiresAt, Some(row.id), None)]
  {
    var row := w.sessions[token];
    CompleteStep(w, RefreshStart(token), cs, 0);
    CompleteStep(w, RefreshFound(token, row), cs, 1);
    CompleteStep(w, RefreshStanding(token, row), cs, 2);
    CompleteStep(w, RefreshReady(token, row), cs, 3);
    assert IdKnown(w.sessions, row.id) && IdLive(w.sessions, row.id);
    assert RevokeId(w.sessions, row.id, w.now) == w.sessions[token := row.Revoked(w.now)];
  }

  /** Present one token twice, the second time at `later`: inside the grace period the loser is
    told to retry and the winner's session survives; after it, the winner's session is ended too. */
  lemma PresentedTwice(w: World, token: Token, cs: seq<Choice>, later: Time, ds: seq<Choice>)
    requires WorldOk(w) && token in w.sessions && w.sessions[token].Live()
    requires w.now <= w.sessions[token].expiresAt && InGoodStanding(w, w.sessions[token].user)
    requires |cs| == 4 && !cs[0].fault && !cs[1].fault && !cs[3].fault && cs[3].token !in w.sessions
    requires |ds| == 4 && !ds[0].fault && !ds[1].fault && !ds[3].fault
    requires w.now <= later
    ensures var b := Complete(w, RefreshStart(token), cs, 0).0;
            var (c, q) := Complete(b.(now := later), RefreshStart(token), ds, 0);
            && cs[3].token in c.sessions
            && c.issued == b.issued
            && if later <= w.now + 10_000_000_000
               then q == Done(RotationRaced) && c.sessions[cs[3].token].Live()
               else q == Done(ReuseDetected(true)) && NoLiveSession(c.sessions, w.sessions[token].user)
  {
    RefreshRotates(w, token, cs);
    var b := Complete(w, RefreshStart(token), cs, 0).0.(now := later);
    ReplayIsContained(b, token, ds);
    if later > w.now + REFRESH_ROTATION_GRACE {
      CompleteStep(b, RefreshStart(token), ds, 0);
      CompleteStep(b, RefreshFound(token, b.sessions[token]), ds, 1);
      CompleteStep(b, RefreshStanding(token, b.sessions[token]), ds, 2);
      CompleteStep(b, RefreshReuse(b.sessions[token].user), ds, 3);
    }
  }

  /** Standing is decided before anything about the session: a suspended account is told so even
    when its session was revoked a moment ago and would otherwise read as a race. */
  lemma StandingComesFirst(w: World, token: Token, cs: seq<Choice>)
    requires token in w.sessions && w.sessions[token].user in w.users
    requires w.users[w.sessions[token].user].status != Active
    requires |cs| == 4 && !cs[0].fault && !cs[1].fault
    ensures Complete(w, RefreshStart(token), cs, 0) == (w, Done(AccountUnavailable))
  {
    CompleteStep(w, RefreshStart(token), cs, 0);
    CompleteStep(w, RefreshFound(token, w.sessions[token]), cs, 1);
  }
}
