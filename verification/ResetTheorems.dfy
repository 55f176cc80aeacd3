/** Single use, retirement and the true bounds of the reset throttle, over every interleaving. */
module ResetTheorems {
  import opened Common
  import opened SessionStore
  import opened ResetProtocol

  // ----- redemption: one password change per consumed link -----

  ghost predicate Inv(s: State) {
    && LogOk(s.w)
    && forall t :: t in s.threads ==> ThreadOk(s.w, t, s.threads[t])
  }

  ghost predicate LogOk(w: World) {
    && (forall i :: 0 <= i < |w.log| && w.log[i].Consumed? ==>
          w.log[i].token in w.resets && !w.resets[w.log[i].token].Unused())
    && (forall i, j :: 0 <= i < j < |w.log| && w.log[i].Consumed? && w.log[j].Consumed? ==> w.log[i].token != w.log[j].token)
    && (forall j :: 0 <= j < |w.log| && w.log[j].Changed? ==> Preceded(w.log, j))
    && (forall i, j :: 0 <= i < j < |w.log| && w.log[i].Changed? && w.log[j].Changed? ==> w.log[i].token != w.log[j].token)
  }

  /** The call that set this password is the very call that consumed its link, earlier. */
  ghost predicate Preceded(log: seq<Entry>, j: nat)
    requires j < |log| && log[j].Changed?
  {
    exists i :: 0 <= i < j && log[i] == Consumed(log[j].call, log[j].token, log[j].user)
  }

  ghost predicate ThreadOk(w: World, t: ThreadId, pc: Pc) {
    && (pc.ResetConsumed? ==>
          && Consumed(t, pc.token, pc.owner) in w.log
          && forall j :: 0 <= j < |w.log| && w.log[j].Changed? && w.log[j].call == t ==> w.log[j].token != pc.token)
    && (pc.ForgotCounting? ==> pc.since + RESET_THROTTLE_SPAN <= w.now)
    && (pc.ForgotReady? ==> pc.at <= w.now)
  }

  /** Rows persist, a used link stays used, the log only grows and time never goes back. */
  ghost predicate Later(a: World, b: World) {
    && a.now <= b.now
    && a.log <= b.log
    && forall k :: k in a.resets ==>
         k in b.resets && b.resets[k].user == a.resets[k].user && b.resets[k].createdAt == a.resets[k].createdAt
         && (b.resets[k].Unused() ==> a.resets[k].Unused())
  }

  lemma StepIsLater(w: World, t: ThreadId, pc: Pc, c: Choice)
    ensures Later(w, Advance(w, t, pc, c).0)
    ensures var b := Advance(w, t, pc, c).0; b.now == w.now
    ensures var b := Advance(w, t, pc, c).0;
            if pc.ResetEligible? && !c.fault && pc.token in w.resets && w.resets[pc.token].Unused()
            then b.log == w.log + [Consumed(t, pc.token, pc.row.user)] && !b.resets[pc.token].Unused()
            else if pc.ResetConsumed? && !c.fault
            then b.log == w.log + [Changed(t, pc.token, pc.owner, pc.password)]
            else b.log == w.log
  {
  }

  lemma PrecededPersists(log: seq<Entry>, x: Entry, j: nat)
    requires j < |log| && log[j].Changed? && Preceded(log, j)
    ensures Preceded(log + [x], j)
  {
    var i :| 0 <= i < j && log[i] == Consumed(log[j].call, log[j].token, log[j].user);
    assert (log + [x])[i] == Consumed(log[j].call, log[j].token, log[j].user);
  }

  lemma ConsumeKeepsLog(a: World, b: World, t: ThreadId, token: Token, user: UserId)
    requires LogOk(a) && Later(a, b) && b.log == a.log + [Consumed(t, token, user)]
    requires token in a.resets && a.resets[token].Unused() && !b.resets[token].Unused()
    ensures LogOk(b)
  {
    forall j | 0 <= j < |b.log| && b.log[j].Changed? ensures Preceded(b.log, j) {
      PrecededPersists(a.log, Consumed(t, token, user), j);
    }
  }

  lemma ChangeKeepsLog(a: World, b: World, t: ThreadId, token: Token, user: UserId, password: Password)
    requires LogOk(a) && Later(a, b) && b.log == a.log + [Changed(t, token, user, password)]
    requires ThreadOk(a, t, ResetConsumed(token, user, password))
    ensures LogOk(b)
  {
    var x := Changed(t, token, user, password);
    var c :| 0 <= c < |a.log| && a.log[c] == Consumed(t, token, user);
    forall j | 0 <= j < |b.log| && b.log[j].Changed? ensures Preceded(b.log, j) {
      if j < |a.log| {
        PrecededPersists(a.log, x, j);
      } else {
        assert b.log[c] == Consumed(t, token, user);
      }
    }
    forall i | 0 <= i < |a.log| && a.log[i].Changed? ensures a.log[i].token != token {
      var d :| 0 <= d < i && a.log[d] == Consumed(a.log[i].call, a.log[i].token, a.log[i].user);
    }
  }

  lemma StepKeepsLog(w: World, t: ThreadId, pc: Pc, c: Choice)
    requires LogOk(w) && ThreadOk(w, t, pc)
    ensures LogOk(Advance(w, t, pc, c).0)
  {
    var b := Advance(w, t, pc, c).0;
    StepIsLater(w, t, pc, c);
    if b.log != w.log {
      if pc.ResetEligible? {
        ConsumeKeepsLog(w, b, t, pc.token, pc.row.user);
      } else {
        ChangeKeepsLog(w, b, t, pc.token, pc.owner, pc.password);
      }
    }
  }

  lemma NextThreadOk(w: World, t: ThreadId, pc: Pc, c: Choice)
    requires LogOk(w) && ThreadOk(w, t, pc)
    ensures var (b, q) := Advance(w, t, pc, c); ThreadOk(b, t, q)
  {
    var (b, q) := Advance(w, t, pc, c);
    if q.ResetConsumed? && pc.ResetEligible? {
      assert b.log[|w.log|] == Consumed(t, q.token, q.owner);
      forall j | 0 <= j < |b.log| && b.log[j].Changed? && b.log[j].call == t ensures b.log[j].token != q.token {
        assert Preceded(w.log, j);
      }
    }
  }

  lemma OtherThreadOk(a: World, b: World, t: ThreadId, pc: Pc, u: ThreadId)
    requires ThreadOk(a, t, pc) && Later(a, b) && t != u
    requires forall j :: |a.log| <= j < |b.log| ==> b.log[j].call == u
    ensures ThreadOk(b, t, pc)
  {
  }

  lemma EventKeepsInv(s: State, e: Event)
    requires Inv(s)
    ensures Inv(Apply(s, e)) && Later(s.w, Apply(s, e).w)
  {
    var z := Apply(s, e);
    if e.Step? && e.t in s.threads {
      var pc := s.threads[e.t];
      StepIsLater(s.w, e.t, pc, e.c);
      StepKeepsLog(s.w, e.t, pc, e.c);
      NextThreadOk(s.w, e.t, pc, e.c);
      forall t | t in z.threads && t != e.t ensures ThreadOk(z.w, t, z.threads[t]) {
        OtherThreadOk(s.w, z.w, t, z.threads[t], e.t);
      }
    }
  }

  lemma {:induction false} RunKeepsInv(s: State, es: seq<Event>)
    requires Inv(s)
    ensures Inv(Run(s, es)) && Later(s.w, Run(s, es).w)
    decreases |es|
  {
    if es != [] {
      EventKeepsInv(s, es[0]);
      RunKeepsInv(Apply(s, es[0]), es[1..]);
    }
  }

  /** From the empty system, over every run: password changes and consumed links match one to
    one, and each change was made by the very call that moved its link from unused to used. */
  lemma ChangesMatchConsumedLinks(es: seq<Event>)
    ensures var w := Run(INITIAL, es).w;
            && (forall j :: 0 <= j < |w.log| && w.log[j].Changed? ==> Preceded(w.log, j))
            && (forall i, j :: 0 <= i < j < |w.log| && w.log[i].Changed? && w.log[j].Changed?
                  ==> w.log[i].token != w.log[j].token)
            && (forall i, j :: 0 <= i < j < |w.log| && w.log[i].Consumed? && w.log[j].Consumed?
                  ==> w.log[i].token != w.log[j].token)
  {
    RunKeepsInv(INITIAL, es);
  }

  lemma EventSparesUsedLinks(s: State, k: Token, e: Event)
    requires Inv(s) && k in s.w.resets && !s.w.resets[k].Unused()
    ensures var b := Apply(s, e).w;
            forall i :: |s.w.log| <= i < |b.log| && b.log[i].Consumed? ==> b.log[i].token != k
  {
    if e.Step? && e.t in s.threads {
      StepIsLater(s.w, e.t, s.threads[e.t], e.c);
    }
  }

  /** A link that is used, by redemption or because a newer request retired it, is never redeemed
    afterwards: not even by a call that had already read it as unused. */
  lemma {:induction false} RetiredLinkIsNeverRedeemed(s: State, k: Token, es: seq<Event>)
    requires Inv(s) && k in s.w.resets && !s.w.resets[k].Unused()
    ensures var b := Run(s, es).w;
            forall i :: |s.w.log| <= i < |b.log| && b.log[i].Consumed? ==> b.log[i].token != k
    decreases |es|
  {
    if es != [] {
      var z := Apply(s, es[0]);
      EventKeepsInv(s, es[0]);
      EventSparesUsedLinks(s, k, es[0]);
      RetiredLinkIsNeverRedeemed(z, k, es[1..]);
      RunKeepsInv(z, es[1..]);
      var b := Run(s, es).w;
      assert b == Run(z, es[1..]).w;
      forall i | |s.w.log| <= i < |b.log| && b.log[i].Consumed? ensures b.log[i].token != k {
        if i < |z.w.log| {
          assert b.log[i] == z.w.log[i];
        }
      }
    }
  }

  /** The password a user ends up with: the one the last change in the log gave them. */
  function PasswordAfter(log: seq<Entry>, user: UserId, before: Password): Password {
    if log == [] then before
    else
      var x := log[|log| - 1];
      if x.Changed? && x.user == user then x.password else PasswordAfter(log[..|log| - 1], user, before)
  }

  ghost predicate LeavesAccountAlone(es: seq<Event>, user: UserId) {
    forall i :: 0 <= i < |es| ==> !(es[i].SetAccount? && es[i].user == user)
  }

  lemma PasswordAfterAppend(log: seq<Entry>, x: Entry, user: UserId, before: Password)
    ensures PasswordAfter(log + [x], user, before) ==
            if x.Changed? && x.user == user then x.password else PasswordAfter(log, user, before)
  {
    assert (log + [x])[..|log|] == log;
  }

  ghost predicate PasswordLogged(w: World, user: UserId, before: Password) {
    user in w.users && w.users[user].password == PasswordAfter(w.log, user, before)
  }

  lemma RedemptionIsLogged(w: World, t: ThreadId, token: Token, owner: UserId, password: Password, c: Choice,
                           user: UserId, before: Password)
    requires PasswordLogged(w, user, before)
    ensures PasswordLogged(Advance(w, t, ResetConsumed(token, owner, password), c).0, user, before)
  {
    PasswordAfterAppend(w.log, Changed(t, token, owner, password), user, before);
  }

  lemma ConsumptionSetsNoPassword(w: World, t: ThreadId, token: Token, row: Reset, password: Password, c: Choice,
                                  user: UserId, before: Password)
    requires PasswordLogged(w, user, before)
    ensures PasswordLogged(Advance(w, t, ResetEligible(token, row, password), c).0, user, before)
  {
    PasswordAfterAppend(w.log, Consumed(t, token, row.user), user, before);
  }

  lemma OtherStepsSetNoPassword(w: World, t: ThreadId, pc: Pc, c: Choice)
    requires !pc.ResetEligible? && !pc.ResetConsumed?
    ensures var b := Advance(w, t, pc, c).0; b.users == w.users && b.log == w.log
  {
  }

  lemma StepKeepsPassword(w: World, t: ThreadId, pc: Pc, c: Choice, user: UserId, before: Password)
    requires PasswordLogged(w, user, before)
    ensures PasswordLogged(Advance(w, t, pc, c).0, user, before)
  {
    match pc {
      case ResetEligible(token, row, password) => ConsumptionSetsNoPassword(w, t, token, row, password, c, user, before);
      case ResetConsumed(token, owner, password) => RedemptionIsLogged(w, t, token, owner, password, c, user, before);
      case _ => OtherStepsSetNoPassword(w, t, pc, c);
    }
  }

  lemma EventKeepsPassword(s: State, e: Event, user: UserId, before: Password)
    requires PasswordLogged(s.w, user, before) && !(e.SetAccount? && e.user == user)
    ensures PasswordLogged(Apply(s, e).w, user, before)
  {
    if e.Step? && e.t in s.threads {
      StepKeepsPassword(s.w, e.t, s.threads[e.t], e.c, user, before);
    }
  }

  /** Nothing but a logged change ever touches a password: after any run of resets a user's password
    is the one set by the last call that consumed a link of theirs and finished, or the old one. */
  lemma {:induction false} PasswordIsTheLastChange(s: State, es: seq<Event>, user: UserId, before: Password)
    requires user in s.w.users && s.w.users[user].password == PasswordAfter(s.w.log, user, before)
    requires LeavesAccountAlone(es, user)
    ensures var b := Run(s, es).w;
            user in b.users && b.users[user].password == PasswordAfter(b.log, user, before)
    decreases |es|
  {
    if es != [] {
      EventKeepsPassword(s, es[0], user, before);
      assert forall i :: 0 <= i < |es[1..]| ==> es[1..][i] == es[i + 1];
      PasswordIsTheLastChange(Apply(s, es[0]), es[1..], user, before);
    }
  }

  // ----- how many calls are in flight -----

  ghost function InFlight(s: State, user: UserId): set<ThreadId> {
    set t | t in s.threads && s.threads[t].Forgetting(user)
  }

  ghost predicate AtMostInFlight(s: State, es: seq<Event>, user: UserId, k: nat)
    decreases |es|
  {
    |InFlight(s, user)| <= k && (es != [] ==> AtMostInFlight(Apply(s, es[0]), es[1..], user, k))
  }

  // ----- unused links -----

  ghost function Unused(w: World, user: UserId): set<Token> {
    set k | k in w.resets && w.resets[k].user == user && w.resets[k].Unused()
  }

  /** Calls that have retired the old links and not yet stored their own. */
  ghost function PastRetire(s: State, user: UserId): set<ThreadId> {
    set t | t in s.threads && (s.threads[t].ForgotRetired? || s.threads[t].ForgotReady?) && s.threads[t].user == user
  }

  ghost predicate FewUnused(s: State, user: UserId, k: nat) {
    |Unused(s.w, user)| + |PastRetire(s, user)| <= k
  }

  predicate Retires(pc: Pc, c: Choice, user: UserId) {
    pc.ForgotAllowed? && pc.user == user && !c.fault
  }

  lemma UnusedAfterStep(w: World, t: ThreadId, pc: Pc, c: Choice, user: UserId)
    ensures var b := Advance(w, t, pc, c).0;
            if Retires(pc, c, user) then Unused(b, user) == {}
            else if pc.ForgotReady? && pc.user == user then Unused(b, user) <= Unused(w, user) + {c.token}
            else Unused(b, user) <= Unused(w, user)
  {
  }

  lemma PastRetireAfterStep(s: State, t: ThreadId, c: Choice, user: UserId)
    requires t in s.threads
    ensures var z := Apply(s, Step(t, c));
            if Retires(s.threads[t], c, user) then PastRetire(z, user) <= InFlight(z, user)
            else if s.threads[t].ForgotReady? && s.threads[t].user == user
            then t in PastRetire(s, user) && PastRetire(z, user) <= PastRetire(s, user) - {t}
            else PastRetire(z, user) <= PastRetire(s, user)
  {
  }

  lemma EventKeepsFewUnused(s: State, e: Event, user: UserId, k: nat)
    requires FewUnused(s, user, k) && |InFlight(Apply(s, e), user)| <= k
    ensures FewUnused(Apply(s, e), user, k)
  {
    var z := Apply(s, e);
    if e.Step? && e.t in s.threads {
      UnusedAfterStep(s.w, e.t, s.threads[e.t], e.c, user);
      PastRetireAfterStep(s, e.t, e.c, user);
      if Retires(s.threads[e.t], e.c, user) {
        SubsetSize(PastRetire(z, user), InFlight(z, user));
      } else if s.threads[e.t].ForgotReady? && s.threads[e.t].user == user {
        SubsetSize(Unused(z.w, user), Unused(s.w, user) + {e.c.token});
        SubsetSize(PastRetire(z, user), PastRetire(s, user) - {e.t});
      } else {
        SubsetSize(Unused(z.w, user), Unused(s.w, user));
        SubsetSize(PastRetire(z, user), PastRetire(s, user));
      }
    } else {
      assert Unused(z.w, user) == Unused(s.w, user) && PastRetire(z, user) == PastRetire(s, user);
    }
  }

  lemma {:induction false} RunKeepsFewUnused(s: State, es: seq<Event>, user: UserId, k: nat)
    requires FewUnused(s, user, k) && AtMostInFlight(s, es, user, k)
    ensures FewUnused(Run(s, es), user, k)
    decreases |es|
  {
    if es != [] {
      EventKeepsFewUnused(s, es[0], user, k);
      RunKeepsFewUnused(Apply(s, es[0]), es[1..], user, k);
    }
  }

  /** With at most k ForgotPassword calls of an account in flight, it never has more than k
    unused links. */
  lemma AtMostKUnusedLinks(es: seq<Event>, user: UserId, k: nat)
    requires AtMostInFlight(INITIAL, es, user, k)
    ensures |Unused(Run(INITIAL, es).w, user)| <= k
  {
    assert Unused(INITIAL.w, user) == {} && PastRetire(INITIAL, user) == {};
    RunKeepsFewUnused(INITIAL, es, user, k);
  }

  /** When calls are serial, a call that stores a link leaves exactly that one unused. */
  lemma SerialIssueLeavesOne(es: seq<Event>, t: ThreadId, c: Choice, user: UserId)
    requires AtMostInFlight(INITIAL, es, user, 1)
    requires var s := Run(INITIAL, es); t in s.threads && s.threads[t].ForgotReady? && s.threads[t].user == user
    requires !c.fault && c.token !in Run(INITIAL, es).w.resets
    ensures Unused(Apply(Run(INITIAL, es), Step(t, c)).w, user) == {c.token}
  {
    var s := Run(INITIAL, es);
    assert Unused(INITIAL.w, user) == {} && PastRetire(INITIAL, user) == {};
    RunKeepsFewUnused(INITIAL, es, user, 1);
    SubsetSize({t}, PastRetire(s, user));
    assert Unused(s.w, user) == {};
  }

  // ----- the throttle -----

  ghost predicate InWindow(at: Time, start: Time) {
    start <= at <= start + RESET_THROTTLE_SPAN
  }

  /** Links of the account created inside the window that opens at `start`. */
  ghost function Issued(w: World, user: UserId, start: Time): set<Token> {
    set k | k in w.resets && w.resets[k].user == user && InWindow(w.resets[k].createdAt, start)
  }

  /** Calls past the throttle whose link could still carry a stamp inside the window. */
  predicate CouldIssue(w: World, pc: Pc, user: UserId, start: Time) {
    || ((pc.ForgotAllowed? || pc.ForgotRetired?) && pc.user == user && w.now <= start + RESET_THROTTLE_SPAN)
    || (pc.ForgotReady? && pc.user == user && start <= pc.at <= start + RESET_THROTTLE_SPAN)
  }

  ghost function Pending(s: State, user: UserId, start: Time): set<ThreadId> {
    set t | t in s.threads && CouldIssue(s.w, s.threads[t], user, start)
  }

  ghost predicate WithinAllowance(s: State, user: UserId, start: Time, k: nat) {
    |Issued(s.w, user, start)| + |Pending(s, user, start)| <= k + MAX_RESETS_PER_USER - 1
  }

  /** The event is a throttle count of this account, and the count fails. */
  ghost predicate CountFails(s: State, e: Event, user: UserId) {
    e.Step? && e.c.fault && e.t in s.threads && s.threads[e.t].ForgotCounting? && s.threads[e.t].user == user
  }

  /** How many of the account's throttle counts fail in the run. */
  ghost function FailedCounts(s: State, es: seq<Event>, user: UserId): nat
    decreases |es|
  {
    if es == [] then 0
    else (if CountFails(s, es[0], user) then 1 else 0) + FailedCounts(Apply(s, es[0]), es[1..], user)
  }

  lemma PassingTheThrottle(s: State, t: ThreadId, c: Choice, user: UserId, start: Time, k: nat)
    requires Inv(s) && t in s.threads && s.threads[t].ForgotCounting? && s.threads[t].user == user && !c.fault
    requires s.w.now <= start + RESET_THROTTLE_SPAN
    requires Apply(s, Step(t, c)).threads[t].ForgotAllowed?
    requires |InFlight(Apply(s, Step(t, c)), user)| <= k
    ensures WithinAllowance(Apply(s, Step(t, c)), user, start, k)
  {
    var z := Apply(s, Step(t, c));
    SubsetSize(Issued(z.w, user, start), Recent(s.w.resets, user, s.threads[t].since));
    SubsetSize(Pending(z, user, start), InFlight(z, user));
  }

  lemma IssuedAfterStep(w: World, t: ThreadId, pc: Pc, c: Choice, user: UserId, start: Time)
    ensures var b := Advance(w, t, pc, c).0;
            if pc.ForgotReady? && CouldIssue(w, pc, user, start)
            then Issued(b, user, start) <= Issued(w, user, start) + {c.token}
            else Issued(b, user, start) <= Issued(w, user, start)
  {
  }

  lemma PendingAfterStep(s: State, t: ThreadId, c: Choice, user: UserId, start: Time)
    requires Inv(s) && t in s.threads
    requires !(s.threads[t].ForgotCounting? && s.threads[t].user == user && s.w.now <= start + RESET_THROTTLE_SPAN)
    ensures var z := Apply(s, Step(t, c));
            if s.threads[t].ForgotReady? && CouldIssue(s.w, s.threads[t], user, start)
            then t in Pending(s, user, start) && Pending(z, user, start) <= Pending(s, user, start) - {t}
            else Pending(z, user, start) <= Pending(s, user, start)
  {
  }

  /** A count that fails lets one more call past the throttle. */
  lemma FailedCountKeepsAllowance(s: State, t: ThreadId, c: Choice, user: UserId, start: Time, n: nat)
    requires Inv(s) && WithinAllowance(s, user, start, n) && t in s.threads && CountFails(s, Step(t, c), user)
    ensures WithinAllowance(Apply(s, Step(t, c)), user, start, n + 1)
  {
    var z := Apply(s, Step(t, c));
    assert Issued(z.w, user, start) == Issued(s.w, user, start);
    SubsetSize(Pending(z, user, start), Pending(s, user, start) + {t});
  }

  lemma OtherEventKeepsAllowance(s: State, e: Event, user: UserId, start: Time, n: nat)
    requires WithinAllowance(s, user, start, n) && !(e.Step? && e.t in s.threads)
    ensures WithinAllowance(Apply(s, e), user, start, n)
  {
    var z := Apply(s, e);
    assert Issued(z.w, user, start) == Issued(s.w, user, start);
    SubsetSize(Pending(z, user, start), Pending(s, user, start));
  }

  lemma StepKeepsAllowance(s: State, t: ThreadId, c: Choice, user: UserId, start: Time, k: nat, n: nat)
    requires Inv(s) && WithinAllowance(s, user, start, n) && t in s.threads && k <= n
    requires |InFlight(Apply(s, Step(t, c)), user)| <= k && !CountFails(s, Step(t, c), user)
    ensures WithinAllowance(Apply(s, Step(t, c)), user, start, n)
  {
    var z := Apply(s, Step(t, c));
    var pc := s.threads[t];
    IssuedAfterStep(s.w, t, pc, c, user, start);
    if pc.ForgotCounting? && pc.user == user && s.w.now <= start + RESET_THROTTLE_SPAN {
      if z.threads[t].ForgotAllowed? {
        PassingTheThrottle(s, t, c, user, start, k);
      } else {
        SubsetSize(Issued(z.w, user, start), Issued(s.w, user, start));
        SubsetSize(Pending(z, user, start), Pending(s, user, start));
      }
    } else {
      PendingAfterStep(s, t, c, user, start);
      if pc.ForgotReady? && CouldIssue(s.w, pc, user, start) {
        SubsetSize(Issued(z.w, user, start), Issued(s.w, user, start) + {c.token});
        SubsetSize(Pending(z, user, start), Pending(s, user, start) - {t});
      } else {
        SubsetSize(Issued(z.w, user, start), Issued(s.w, user, start));
        SubsetSize(Pending(z, user, start), Pending(s, user, start));
      }
    }
  }

  lemma EventKeepsAllowance(s: State, e: Event, user: UserId, start: Time, k: nat, n: nat)
    requires Inv(s) && WithinAllowance(s, user, start, n) && k <= n && |InFlight(Apply(s, e), user)| <= k
    ensures WithinAllowance(Apply(s, e), user, start, n + if CountFails(s, e, user) then 1 else 0)
  {
    if !(e.Step? && e.t in s.threads) {
      OtherEventKeepsAllowance(s, e, user, start, n);
    } else if CountFails(s, e, user) {
      FailedCountKeepsAllowance(s, e.t, e.c, user, start, n);
    } else {
      StepKeepsAllowance(s, e.t, e.c, user, start, k, n);
    }
  }

  lemma {:induction false} RunKeepsAllowance(
    s: State, es: seq<Event>, user: UserId, start: Time, k: nat, n: nat)
    requires Inv(s) && WithinAllowance(s, user, start, n) && k <= n && AtMostInFlight(s, es, user, k)
    ensures WithinAllowance(Run(s, es), user, start, n + FailedCounts(s, es, user))
    decreases |es|
  {
    if es != [] {
      EventKeepsInv(s, es[0]);
      EventKeepsAllowance(s, es[0], user, start, k, n);
      RunKeepsAllowance(Apply(s, es[0]), es[1..], user, start, k, n + if CountFails(s, es[0], user) then 1 else 0);
    }
  }

  /** With at most k calls in flight for an account and f failing counts, no one-hour window, wherever
    it is placed, holds more than k + 2 + f of its links. Serial calls whose counts succeed: three,
    the allowance itself. */
  lemma AtMostKPlusTwoPerWindow(es: seq<Event>, user: UserId, start: Time, k: nat)
    requires AtMostInFlight(INITIAL, es, user, k)
    ensures |Issued(Run(INITIAL, es).w, user, start)| <= k + 2 + FailedCounts(INITIAL, es, user)
  {
    assert Issued(INITIAL.w, user, start) == {} && Pending(INITIAL, user, start) == {};
    RunKeepsAllowance(INITIAL, es, user, start, k, k);
  }
}
