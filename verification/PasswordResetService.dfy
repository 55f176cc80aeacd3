/** The password-reset half of the auth repository, and the two calls that use it.

  As in AuthService, each call is proved to be its thread of the protocol run to completion,
  and the repository's loops to be the protocol's operations on the table of links.
 */
module PasswordResetService {
  import opened Common
  import opened SessionStore
  import opened ResetProtocol
  import SP = SessionProtocol
  import Repo = AuthRepository

  class ResetRow {
    const user: UserId
    const expiresAt: Time
    const createdAt: Time
    var usedAt: Option<Time>

    function View(): Reset
      reads this
    {
      Reset(user, expiresAt, createdAt, usedAt)
    }

    constructor (r: Reset)
      ensures View() == r
    {
      user, expiresAt, createdAt, usedAt := r.user, r.expiresAt, r.createdAt, r.usedAt;
    }
  }

  class ResetRepository {
    var memPasswordResets: map<Token, ResetRow>
    ghost var resets: Resets
    ghost var log: seq<Entry>

    constructor ()
      ensures Valid() && resets == map[] && log == []
    {
      memPasswordResets, resets, log := map[], map[], [];
    }

    ghost predicate Valid()
      reads `memPasswordResets, `resets, memPasswordResets.Values
    {
      && (forall k, l :: k in memPasswordResets && l in memPasswordResets && memPasswordResets[k] == memPasswordResets[l]
            ==> k == l)
      && resets.Keys == memPasswordResets.Keys
      && (forall k :: k in memPasswordResets ==> memPasswordResets[k].View() == resets[k])
    }

    method GetPasswordResetByTokenHash(token: Token) returns (found: Option<Reset>)
      requires Valid()
      ensures found == if token in resets then Some(resets[token]) else None
    {
      if token in memPasswordResets {
        return Some(memPasswordResets[token].View());
      }
      return None;
    }

    method CountRecentPasswordResets(user: UserId, since: int) returns (count: nat)
      requires Valid()
      ensures count == |set k | k in resets && resets[k].user == user && since <= resets[k].createdAt|
    {
      count := 0;
      ghost var seen: set<Token> := {};
      var pending := memPasswordResets.Keys;
      while pending != {}
        invariant pending <= memPasswordResets.Keys
        invariant seen == set k | k in resets && k !in pending && resets[k].user == user && since <= resets[k].createdAt
        invariant count == |seen|
      {
        var k :| k in pending;
        pending := pending - {k};
        if memPasswordResets[k].user == user && since <= memPasswordResets[k].createdAt {
          count, seen := count + 1, seen + {k};
        }
      }
      assert seen == set k | k in resets && resets[k].user == user && since <= resets[k].createdAt;
    }

    method InvalidateUserPasswordResets(user: UserId, now: Time, up: bool) returns (ok: bool)
      requires Valid()
      modifies `resets, memPasswordResets.Values
      ensures Valid() && ok == up
      ensures resets == if up then Retire(old(resets), user, now) else old(resets)
      ensures resets.Keys == old(resets).Keys
      ensures forall k :: k in resets ==>
        (resets[k] == if up && old(resets)[k].user == user && old(resets)[k].usedAt == None
                      then old(resets)[k].(usedAt := Some(now)) else old(resets)[k])
    {
      if !up {
        return false;
      }
      var pending := memPasswordResets.Keys;
      while pending != {}
        invariant pending <= memPasswordResets.Keys
        invariant resets == old(resets)
        invariant forall k :: k in memPasswordResets ==>
          memPasswordResets[k].View() == if k !in pending && resets[k].user == user && resets[k].Unused()
                                         then resets[k].Used(now) else resets[k]
      {
        var k :| k in pending;
        if memPasswordResets[k].user == user && memPasswordResets[k].usedAt.None? {
          memPasswordResets[k].usedAt := Some(now);
        }
        pending := pending - {k};
      }
      resets := Retire(resets, user, now);
      return true;
    }

    method CreatePasswordReset(token: Token, r: Reset, up: bool) returns (ok: bool)
      requires Valid()
      modifies `memPasswordResets, `resets
      ensures Valid() && fresh(memPasswordResets.Values - old(memPasswordResets.Values))
      ensures ok <==> up && token !in old(resets)
      ensures resets == if ok then old(resets)[token := r] else old(resets)
    {
      if !up || token in memPasswordResets {
        return false;
      }
      var row := new ResetRow(r);
      memPasswordResets, resets := memPasswordResets[token := row], resets[token := r];
      return true;
    }

    /** Conditional on the link still being unused: of two redemptions exactly one proceeds. */
    method MarkPasswordResetUsed(token: Token, now: Time, up: bool) returns (ok: bool, already: bool)
      requires Valid()
      modifies `resets, memPasswordResets.Values
      ensures Valid()
      ensures ok <==> up && token in old(resets) && old(resets)[token].Unused()
      ensures already <==> up && token in old(resets) && !old(resets)[token].Unused()
      ensures resets == if ok then old(resets)[token := old(resets)[token].Used(now)] else old(resets)
    {
      if !up || token !in memPasswordResets {
        return false, false;
      }
      if memPasswordResets[token].usedAt.Some? {
        return false, true;
      }
      memPasswordResets[token].usedAt := Some(now);
      resets := resets[token := resets[token].Used(now)];
      return true, false;
    }

    method Record(ghost x: Entry)
      modifies `log
      ensures log == old(log) + [x]
    {
      log := log + [x];
    }
  }

  class PasswordResetService {
    const accounts: Repo.AuthRepository
    const repo: ResetRepository

    constructor (accounts: Repo.AuthRepository, repo: ResetRepository)
      ensures this.accounts == accounts && this.repo == repo
    {
      this.accounts, this.repo := accounts, repo;
    }

    ghost function View(now: Time): World
      reads accounts, repo
    {
      World(now, accounts.memUsers, repo.resets, accounts.rows, repo.log)
    }

    method Eligible(user: UserId) returns (found: bool, eligible: bool)
      requires accounts.Valid()
      ensures found == (user in accounts.memUsers)
      ensures eligible == (found && accounts.memUsers[user].status.CanAuthenticate())
    {
      var u := accounts.GetUserByID(user);
      return u.Some?, u.Some? && u.value.status.CanAuthenticate();
    }

    method ForgotPassword(ghost call: ThreadId, user: UserId, now: Time, cs: seq<Choice>) returns (o: Outcome)
      requires accounts.Valid() && repo.Valid() && |cs| == 6
      modifies repo, repo.memPasswordResets.Values
      ensures repo.Valid() && fresh(repo.memPasswordResets.Values - old(repo.memPasswordResets.Values))
      ensures (View(now), Done(o)) == Complete(old(View(now)), call, ForgotStart(user), cs, 0)
    {
      ghost var w := View(now);
      CompleteStep(w, call, ForgotStart(user), cs, 0);
      var _, eligible := Eligible(user);
      if cs[0].fault || !eligible {
        return NothingSent;
      }
      o := Admit(call, user, now, cs);
    }

    /** For an account that may reset: the throttle, then the link. */
    method Admit(ghost call: ThreadId, user: UserId, now: Time, cs: seq<Choice>) returns (o: Outcome)
      requires repo.Valid() && |cs| == 6
      modifies repo, repo.memPasswordResets.Values
      ensures repo.Valid() && fresh(repo.memPasswordResets.Values - old(repo.memPasswordResets.Values))
      ensures (View(now), Done(o)) == Complete(old(View(now)), call, ForgotEligible(user), cs, 1)
    {
      ghost var w := View(now);
      var since := now - RESET_THROTTLE_SPAN;
      CompleteStep(w, call, ForgotEligible(user), cs, 1);
      assert Complete(w, call, ForgotEligible(user), cs, 1) == Complete(w, call, ForgotCounting(user, since), cs, 2);
      o := Throttle(call, user, since, now, cs);
    }

    method Throttle(ghost call: ThreadId, user: UserId, since: int, now: Time, cs: seq<Choice>) returns (o: Outcome)
      requires repo.Valid() && |cs| == 6
      modifies repo, repo.memPasswordResets.Values
      ensures repo.Valid() && fresh(repo.memPasswordResets.Values - old(repo.memPasswordResets.Values))
      ensures (View(now), Done(o)) == Complete(old(View(now)), call, ForgotCounting(user, since), cs, 2)
    {
      CompleteStep(View(now), call, ForgotCounting(user, since), cs, 2);
      var throttled := OverLimit(call, user, since, now, cs[2]);
      if throttled {
        return Throttled;
      }
      o := Issue(call, user, now, cs);
    }

    /** A count that fails throttles nobody. */
    method OverLimit(ghost call: ThreadId, user: UserId, since: int, now: Time, c: Choice) returns (throttled: bool)
      requires repo.Valid()
      ensures Advance(View(now), call, ForgotCounting(user, since), c)
              == (View(now), if throttled then Done(Throttled) else ForgotAllowed(user))
    {
      var recent := repo.CountRecentPasswordResets(user, since);
      assert Recent(repo.resets, user, since) ==
             set k | k in repo.resets && repo.resets[k].user == user && since <= repo.resets[k].createdAt;
      return !c.fault && recent >= MAX_RESETS_PER_USER;
    }

    /** Past the throttle: retire what is outstanding, then store the new link. */
    method Issue(ghost call: ThreadId, user: UserId, now: Time, cs: seq<Choice>) returns (o: Outcome)
      requires repo.Valid() && |cs| == 6
      modifies repo, repo.memPasswordResets.Values
      ensures repo.Valid() && fresh(repo.memPasswordResets.Values - old(repo.memPasswordResets.Values))
      ensures (View(now), Done(o)) == Complete(old(View(now)), call, ForgotAllowed(user), cs, 3)
    {
      CompleteStep(View(now), call, ForgotAllowed(user), cs, 3);
      var retired := repo.InvalidateUserPasswordResets(user, now, !cs[3].fault);
      if !retired {
        return NothingSent;
      }
      CompleteStep(View(now), call, ForgotRetired(user), cs, 4);
      CompleteStep(View(now), call, ForgotReady(user, now), cs, 5);
      o := StoreLink(call, user, now, cs[5]);
    }

    method StoreLink(ghost call: ThreadId, user: UserId, now: Time, c: Choice) returns (o: Outcome)
      requires repo.Valid()
      modifies repo
      ensures repo.Valid() && fresh(repo.memPasswordResets.Values - old(repo.memPasswordResets.Values))
      ensures (View(now), Done(o)) == Advance(old(View(now)), call, ForgotReady(user, now), c)
    {
      var row := Reset(user, now + PASSWORD_RESET_TTL, now, None);
      var stored := repo.CreatePasswordReset(c.token, row, !c.fault);
      o := if stored then LinkIssued(c.token) else Fault;
    }

    method ResetPassword(
      ghost call: ThreadId, token: Token, password: Password, acceptable: bool, now: Time, cs: seq<Choice>)
      returns (o: Outcome)
      requires accounts.Valid() && repo.Valid() && |cs| == 5
      modifies accounts, accounts.memSessions.Values, repo, repo.memPasswordResets.Values
      ensures accounts.Valid() && repo.Valid()
      ensures (View(now), Done(o)) ==
              Complete(old(View(now)), call, ResetStart(token, password, acceptable), cs, 0)
    {
      ghost var w := View(now);
      CompleteStep(w, call, ResetStart(token, password, acceptable), cs, 0);
      if !acceptable {
        return PolicyRefused;
      }
      var found := repo.GetPasswordResetByTokenHash(token);
      if cs[0].fault || found.None? {
        return TokenInvalid;
      }
      o := Validate(call, token, found.value, password, now, cs);
    }

    /** The link that was found: unused, in time, and of an account that may reset. */
    method Validate(ghost call: ThreadId, token: Token, pr: Reset, password: Password, now: Time, cs: seq<Choice>)
      returns (o: Outcome)
      requires accounts.Valid() && repo.Valid() && |cs| == 5
      modifies accounts, accounts.memSessions.Values, repo, repo.memPasswordResets.Values
      ensures accounts.Valid() && repo.Valid()
      ensures (View(now), Done(o)) == Complete(old(View(now)), call, ResetFound(token, pr, password), cs, 1)
    {
      ghost var w := View(now);
      CompleteStep(w, call, ResetFound(token, pr, password), cs, 1);
      if pr.usedAt.Some? {
        return LinkUsed;
      }
      if pr.expiresAt < now {
        return LinkExpired;
      }
      CompleteStep(w, call, ResetValid(token, pr, password), cs, 2);
      var known, eligible := Eligible(pr.user);
      if !cs[2].fault && known && !eligible {
        return AccountCannotReset;
      }
      o := Redeem(call, token, pr, password, now, cs);
    }

    /** Consume the link first; only the call that consumed it goes on to change the password. */
    method Redeem(ghost call: ThreadId, token: Token, pr: Reset, password: Password, now: Time, cs: seq<Choice>)
      returns (o: Outcome)
      requires accounts.Valid() && repo.Valid() && |cs| == 5
      modifies accounts, accounts.memSessions.Values, repo, repo.memPasswordResets.Values
      ensures accounts.Valid() && repo.Valid()
      ensures (View(now), Done(o)) == Complete(old(View(now)), call, ResetEligible(token, pr, password), cs, 3)
    {
      CompleteStep(View(now), call, ResetEligible(token, pr, password), cs, 3);
      var refusal := Consume(call, token, pr, password, now, cs[3]);
      if refusal.Some? {
        return refusal.value;
      }
      CompleteStep(View(now), call, ResetConsumed(token, pr.user, password), cs, 4);
      o := Change(call, token, pr.user, password, now, cs[4]);
    }

    method Consume(ghost call: ThreadId, token: Token, pr: Reset, password: Password, now: Time, c: Choice)
      returns (refusal: Option<Outcome>)
      requires repo.Valid()
      modifies repo, repo.memPasswordResets.Values
      ensures repo.Valid() && repo.memPasswordResets == old(repo.memPasswordResets)
      ensures (View(now), if refusal.Some? then Done(refusal.value) else ResetConsumed(token, pr.user, password))
              == Advance(old(View(now)), call, ResetEligible(token, pr, password), c)
    {
      var consumed, already := repo.MarkPasswordResetUsed(token, now, !c.fault);
      if !consumed {
        return Some(if already then LinkUsed else Fault);
      }
      repo.Record(Consumed(call, token, pr.user));
      return None;
    }

    /** The new password and the end of every session of the account, or neither. */
    method Change(ghost call: ThreadId, token: Token, user: UserId, password: Password, now: Time, c: Choice)
      returns (o: Outcome)
      requires accounts.Valid() && repo.Valid()
      modifies accounts, accounts.memSessions.Values, repo`log
      ensures accounts.Valid() && repo.Valid() && repo.memPasswordResets == old(repo.memPasswordResets)
      ensures (View(now), Done(o)) == Advance(old(View(now)), call, ResetConsumed(token, user, password), c)
    {
      ChangeSpec(View(now), call, token, user, password, c);
      var ok := accounts.UpdatePasswordAndRevokeSessions(user, password, now, !c.fault);
      assert repo.Valid() by {
        assert unchanged(repo);
        assert forall k :: k in repo.memPasswordResets ==>
          repo.memPasswordResets[k].usedAt == old(repo.memPasswordResets[k].usedAt);
      }
      if !ok {
        return Fault;
      }
      repo.Record(Changed(call, token, user, password));
      return PasswordChanged;
    }
  }

  lemma ChangeSpec(w: World, t: ThreadId, token: Token, user: UserId, password: Password, c: Choice)
    ensures Advance(w, t, ResetConsumed(token, user, password), c) ==
            if c.fault then (w, Done(Fault))
            else
              (World(w.now, SP.WithPassword(SP.World(w.now, w.users, w.sessions, 0, []), user, password).users, w.resets,
                     RevokeUser(w.sessions, user, w.now), w.log + [Changed(t, token, user, password)]),
               Done(PasswordChanged))
  {
  }
}
