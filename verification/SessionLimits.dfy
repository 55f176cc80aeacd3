/** The conditions the session theorems carry are exact: in every state that violates one, some
  run does what the theorem rules out.
 */
module SessionLimits {
  import opened Common
  import opened SessionStore
  import opened SessionForest
  import opened SessionProtocol
  import opened SessionInvariant
  import opened SessionTheorems

  // ----- suspension outrun -----

  /** The run brings a session of the account to life although the account stays ineligible and,
    if `rechecks`, although second standing reads succeed. */
  ghost predicate Revives(s: State, user: UserId, rechecks: bool, es: seq<Event>) {
    && IneligibleThroughout(s, user, es) && (rechecks ==> RechecksRead(s, user, es))
    && !NoLiveSession(Run(s, es).w.sessions, user)
  }

  ghost predicate CanRevive(s: State, user: UserId, rechecks: bool) {
    exists es :: Revives(s, user, rechecks, es)
  }

  lemma ReviveLater(s: State, user: UserId, rechecks: bool, e: Event)
    requires Ineligible(s, user) && (rechecks ==> !RecheckFails(s, user, e))
    requires CanRevive(Apply(s, e), user, rechecks)
    ensures CanRevive(s, user, rechecks)
  {
    var es :| Revives(Apply(s, e), user, rechecks, es);
    assert ([e] + es)[1..] == es;
    assert Revives(s, user, rechecks, [e] + es);
  }

  /** A login that will not look at the account's standing again, or whose one remaining look may
    still fail. */
  predicate PendingLogin(pc: Pc, user: UserId) {
    || LateLogin(pc, user)
    || (pc.LoginMatched? && pc.user == user)
    || (pc.LoginFound? && pc.user == user && pc.password == pc.stored)
  }

  ghost predicate NoPendingLogin(s: State, user: UserId) {
    forall t :: t in s.threads ==> !PendingLogin(s.threads[t], user)
  }

  function LoginStepsLeft(pc: Pc): nat {
    if pc.LoginFound? then 4 else if pc.LoginMatched? then 3 else if pc.LoginCleared? then 2 else 1
  }

  lemma StoredSessionLives(s: State, user: UserId, rechecks: bool, t: ThreadId)
    requires Ineligible(s, user) && t in s.threads && s.threads[t].LoginReady? && s.threads[t].user == user
    ensures CanRevive(s, user, rechecks)
  {
    var k := UpperBound(s.w.sessions.Keys);
    var e := Step(t, Choice(false, k));
    var z := Apply(s, e);
    assert k !in s.w.sessions && z.w.sessions[k].Live() && z.w.sessions[k].user == user;
    assert Revives(z, user, rechecks, []);
    ReviveLater(s, user, rechecks, e);
  }

  lemma {:induction false} LoginRevives(s: State, user: UserId, rechecks: bool, t: ThreadId)
    requires Ineligible(s, user) && t in s.threads
    requires LateLogin(s.threads[t], user) || (!rechecks && PendingLogin(s.threads[t], user))
    ensures CanRevive(s, user, rechecks)
    decreases LoginStepsLeft(s.threads[t])
  {
    var pc := s.threads[t];
    if pc.LoginReady? {
      StoredSessionLives(s, user, rechecks, t);
    } else {
      var e := Step(t, Choice(pc.LoginMatched?, 0));
      LoginRevives(Apply(s, e), user, rechecks, t);
      ReviveLater(s, user, rechecks, e);
    }
  }

  /** While second reads succeed, a suspension can be outrun if and only if some login of the account
    is already past its second read. */
  lemma OnlyLateLoginsOutrun(s: State, user: UserId)
    requires Inv(s) && NoLiveSession(s.w.sessions, user) && Ineligible(s, user)
    ensures CanRevive(s, user, true) <==> !NoLateLogin(s, user)
  {
    if NoLateLogin(s, user) {
      forall es | IneligibleThroughout(s, user, es) && RechecksRead(s, user, es) ensures !Revives(s, user, true, es) {
        SuspensionSticks(s, user, es);
      }
    } else {
      var t :| t in s.threads && LateLogin(s.threads[t], user);
      LoginRevives(s, user, true, t);
    }
  }

  lemma NoLoginBecomesPending(w: World, pc: Pc, c: Choice, user: UserId)
    requires user in w.users && w.users[user].status != Active && !PendingLogin(pc, user)
    ensures !PendingLogin(Advance(w, pc, c).1, user)
  {
  }

  lemma EventWithoutPendingLogin(s: State, user: UserId, e: Event)
    requires Inv(s) && NoLiveSession(s.w.sessions, user) && NoPendingLogin(s, user) && Ineligible(s, user)
    ensures NoLiveSession(Apply(s, e).w.sessions, user) && NoPendingLogin(Apply(s, e), user)
  {
    if e.Step? && e.t in s.threads {
      StepShape(s.w, s.threads[e.t], e.c);
      NoLoginBecomesPending(s.w, s.threads[e.t], e.c, user);
    }
  }

  lemma {:induction false} RunWithoutPendingLogin(s: State, user: UserId, es: seq<Event>)
    requires Inv(s) && NoLiveSession(s.w.sessions, user) && NoPendingLogin(s, user)
    requires IneligibleThroughout(s, user, es)
    ensures NoLiveSession(Run(s, es).w.sessions, user)
    decreases |es|
  {
    if es != [] {
      EventKeepsInv(s, es[0]);
      EventWithoutPendingLogin(s, user, es[0]);
      RunWithoutPendingLogin(Apply(s, es[0]), user, es[1..]);
    }
  }

  /** If second reads may fail, a suspension can be outrun if and only if some login of the account is
    past its first read with the right password. */
  lemma OnlyPendingLoginsOutrun(s: State, user: UserId)
    requires Inv(s) && NoLiveSession(s.w.sessions, user) && Ineligible(s, user)
    ensures CanRevive(s, user, false) <==> !NoPendingLogin(s, user)
  {
    if NoPendingLogin(s, user) {
      forall es | IneligibleThroughout(s, user, es) ensures !Revives(s, user, false, es) {
        RunWithoutPendingLogin(s, user, es);
      }
    } else {
      var t :| t in s.threads && PendingLogin(s.threads[t], user);
      LoginRevives(s, user, false, t);
    }
  }

  // ----- expired chains extended -----

  ghost predicate AddsSuccessor(s: State, expiresAt: Time, es: seq<Event>, k: Token) {
    var b := Run(s, es).w.sessions;
    k in b && k !in s.w.sessions && b[k].rotatedFrom.Some? && b[k].expiresAt == expiresAt
  }

  lemma PendingRotationExtends(s: State, expiresAt: Time, t: ThreadId) returns (es: seq<Event>, k: Token)
    requires Inv(s) && PendingRotation(s, t, expiresAt)
    ensures AddsSuccessor(s, expiresAt, es, k)
  {
    k := UpperBound(s.w.sessions.Keys);
    var pc := s.threads[t];
    var e := Step(t, Choice(false, k));
    assert ThreadOk(s.w, pc);
    assert s.w.sessions[pc.token].id == pc.row.id;
    assert IdKnown(s.w.sessions, pc.row.id) && IdLive(s.w.sessions, pc.row.id);
    es := [e];
    assert Run(s, [e]) == Run(Apply(s, e), []);
  }

  /** After an expiry has passed, a successor with that expiry can still appear if and only if some
    refresh judged before it is still to rotate a session that is live. */
  lemma OnlyPendingRotationsExtend(s: State, expiresAt: Time)
    requires Inv(s) && expiresAt < s.w.now
    ensures (exists es, k :: AddsSuccessor(s, expiresAt, es, k)) <==> !NoPendingRotation(s, expiresAt)
  {
    if NoPendingRotation(s, expiresAt) {
      forall es, k ensures !AddsSuccessor(s, expiresAt, es, k) {
        ExpiredChainIsNeverExtended(s, expiresAt, es);
      }
    } else {
      var t :| PendingRotation(s, t, expiresAt);
      var es, k := PendingRotationExtends(s, expiresAt, t);
    }
  }

  // ----- such states are reached -----

  const OK := Choice(false, 7)
  const FAILS := Choice(true, 7)

  lemma Unroll(s: State, e: Event, es: seq<Event>)
    ensures Run(s, [e] + es) == Run(Apply(s, e), es)
  {
    assert ([e] + es)[1..] == es;
  }

  /** Register, then run a login up to (not including) its second standing check. */
  function AfterPassword(): State {
    var w := INITIAL.w.(users := map[0 := User(1, Active)]);
    State(w, map[0 := LoginMatched(0, false)])
  }

  const TO_PASSWORD: seq<Event> :=
    [Register(0, 1), Spawn(0, LoginStart(0, 1, false)), Step(0, OK), Step(0, OK)]

  lemma ReachesAfterPassword(rest: seq<Event>)
    ensures Run(INITIAL, TO_PASSWORD + rest) == Run(AfterPassword(), rest)
  {
    var s1 := Apply(INITIAL, TO_PASSWORD[0]);
    var s2 := Apply(s1, TO_PASSWORD[1]);
    var s3 := Apply(s2, TO_PASSWORD[2]);
    var s4 := Apply(s3, TO_PASSWORD[3]);
    assert s4.threads == AfterPassword().threads;
    assert s4 == AfterPassword();
    Unroll(INITIAL, TO_PASSWORD[0], TO_PASSWORD[1..] + rest);
    Unroll(s1, TO_PASSWORD[1], TO_PASSWORD[2..] + rest);
    Unroll(s2, TO_PASSWORD[2], TO_PASSWORD[3..] + rest);
    Unroll(s3, TO_PASSWORD[3], rest);
    assert TO_PASSWORD + rest == [TO_PASSWORD[0]] + (TO_PASSWORD[1..] + rest);
    assert TO_PASSWORD[1..] + rest == [TO_PASSWORD[1]] + (TO_PASSWORD[2..] + rest);
    assert TO_PASSWORD[2..] + rest == [TO_PASSWORD[2]] + (TO_PASSWORD[3..] + rest);
    assert TO_PASSWORD[3..] + rest == [TO_PASSWORD[3]] + rest;
  }

  lemma Run3(s: State, a: Event, b: Event, c: Event)
    ensures Run(s, [a, b, c]) == Apply(Apply(Apply(s, a), b), c)
  {
    Unroll(s, a, [b, c]);
    Unroll(Apply(s, a), b, [c]);
    Unroll(Apply(Apply(s, a), b), c, []);
    assert [a, b, c] == [a] + [b, c] && [b, c] == [b] + [c] && [c] == [c] + [];
  }

  /** A login already past its last standing check stores a live session after the account was
    suspended and every session revoked: the "no late login" premise is needed. */
  lemma LateLoginOutrunsSuspension()
    ensures exists before: seq<Event>, after: seq<Event> ::
      var s := Run(INITIAL, before);
      && Ineligible(s, 0) && NoLiveSession(s.w.sessions, 0)
      && RechecksRead(s, 0, after) && IneligibleThroughout(s, 0, after)
      && !NoLiveSession(Run(s, after).w.sessions, 0)
  {
    var before := TO_PASSWORD + [Step(0, OK), Step(0, OK), StatusInSql(0, Suspended)];
    ReachesAfterPassword([Step(0, OK), Step(0, OK), StatusInSql(0, Suspended)]);
    Run3(AfterPassword(), Step(0, OK), Step(0, OK), StatusInSql(0, Suspended));
    var s := Run(INITIAL, before);
    assert s.w.users[0].status == Suspended && s.threads[0] == LoginReady(0, false, 0);
    var after := [Step(0, OK)];
    Unroll(s, Step(0, OK), []);
    assert [Step(0, OK)] == [Step(0, OK)] + [];
    assert Run(s, after) == Apply(s, Step(0, OK));
    assert after[1..] == [];
    assert IneligibleThroughout(Apply(s, after[0]), 0, []) && IneligibleThroughout(s, 0, after);
    assert RechecksRead(Apply(s, after[0]), 0, []) && RechecksRead(s, 0, after);
    assert 7 in Run(s, after).w.sessions;
    assert Ineligible(s, 0) && NoLiveSession(s.w.sessions, 0);
  }

  /** A failed second read is ignored, so a login that began before the suspension completes
    after it: the "second reads succeed" premise is needed. */
  lemma FailedRecheckOutrunsSuspension()
    ensures exists before: seq<Event>, after: seq<Event> ::
      var s := Run(INITIAL, before);
      && Ineligible(s, 0) && NoLiveSession(s.w.sessions, 0) && NoLateLogin(s, 0)
      && IneligibleThroughout(s, 0, after)
      && !NoLiveSession(Run(s, after).w.sessions, 0)
  {
    var before := TO_PASSWORD + [StatusInSql(0, Suspended)];
    ReachesAfterPassword([StatusInSql(0, Suspended)]);
    Unroll(AfterPassword(), StatusInSql(0, Suspended), []);
    assert [StatusInSql(0, Suspended)] == [StatusInSql(0, Suspended)] + [];
    var s := Run(INITIAL, before);
    assert s.threads[0] == LoginMatched(0, false) && s.w.users[0].status == Suspended;
    var after := [Step(0, FAILS), Step(0, OK), Step(0, OK)];
    Run3(s, Step(0, FAILS), Step(0, OK), Step(0, OK));
    var s1 := Apply(s, after[0]);
    var s2 := Apply(s1, after[1]);
    var s3 := Apply(s2, after[2]);
    assert after[1..] == [Step(0, OK), Step(0, OK)] && after[1..][1..] == [Step(0, OK)] && after[1..][1..][1..] == [];
    assert IneligibleThroughout(s3, 0, []);
    assert IneligibleThroughout(s2, 0, after[1..][1..]);
    assert IneligibleThroughout(s1, 0, after[1..]);
    assert IneligibleThroughout(s, 0, after);
    assert 7 in Run(s, after).w.sessions;
    assert Ineligible(s, 0) && NoLiveSession(s.w.sessions, 0) && NoLateLogin(s, 0);
  }
}
