/** What an undisturbed reset call answers, exactly when, and what it leaves behind. */
module ResetCalls {
  import opened Common
  import opened SessionStore
  import opened ResetProtocol
  import opened ResetTheorems
  import SP = SessionProtocol

  ghost predicate MayReset(w: World, user: UserId) {
    user in w.users && w.users[user].status == SP.Active
  }

  /** Three links or more in the last hour. */
  ghost predicate OverAllowance(w: World, user: UserId) {
    |set k | k in w.resets && w.resets[k].user == user && w.now <= w.resets[k].createdAt + 3_600_000_000_000| >= 3
  }

  /** The user's unused links are spent at this moment and otherwise keep their fields; every other
    link is as it was. */
  ghost predicate SpentFor(a: Resets, b: Resets, user: UserId, now: Time) {
    forall k :: k in a ==>
      && k in b
      && b[k] == if a[k].user == user && a[k].usedAt == None then a[k].(usedAt := Some(now)) else a[k]
  }

  lemma OverAllowanceIsCounted(w: World, user: UserId)
    ensures OverAllowance(w, user) <==>
            |Recent(w.resets, user, w.now - RESET_THROTTLE_SPAN)| >= MAX_RESETS_PER_USER
  {
    assert Recent(w.resets, user, w.now - RESET_THROTTLE_SPAN) ==
           set k | k in w.resets && w.resets[k].user == user && w.now <= w.resets[k].createdAt + 3_600_000_000_000;
  }

  /** A link is issued if and only if the account is active, has had fewer than three links in the last
    hour (or the count fails), and nothing else fails. It is good for an hour and then the account's
    only unused link. A call that gets as far as retiring the old links but cannot store the new one
    leaves none. No link of another account is touched, and no call that is refused touches any. */
  lemma ForgotIssuesIff(w: World, t: ThreadId, user: UserId, cs: seq<Choice>)
    requires |cs| == 6
    ensures var (b, q) := Complete(w, t, ForgotStart(user), cs, 0);
            var allowed := MayReset(w, user) && !cs[0].fault && (cs[2].fault || !OverAllowance(w, user));
            var admitted := allowed && !cs[3].fault;
            && q.Done? && b.users == w.users && b.sessions == w.sessions && b.log == w.log
            && (q.outcome.LinkIssued? <==> admitted && !cs[5].fault && cs[5].token !in w.resets)
            && (q.outcome == Throttled <==> MayReset(w, user) && !cs[0].fault && !cs[2].fault && OverAllowance(w, user))
            && (q.outcome == NothingSent <==> !MayReset(w, user) || cs[0].fault || (allowed && cs[3].fault))
            && (if !admitted then b == w
                else
                  && SpentFor(w.resets, b.resets, user, w.now)
                  && (if q.outcome.LinkIssued? then
                        && b.resets.Keys == w.resets.Keys + {cs[5].token}
                        && b.resets[cs[5].token] == Reset(user, w.now + 3_600_000_000_000, w.now, None)
                        && Unused(b, user) == {cs[5].token}
                      else b.resets.Keys == w.resets.Keys && Unused(b, user) == {}))
  {
    CompleteStep(w, t, ForgotStart(user), cs, 0);
    if !cs[0].fault && MayReset(w, user) {
      CompleteStep(w, t, ForgotEligible(user), cs, 1);
      CountedForgot(w, t, user, cs);
    }
  }

  lemma CountedForgot(w: World, t: ThreadId, user: UserId, cs: seq<Choice>)
    requires |cs| == 6
    ensures var (b, q) := Complete(w, t, ForgotCounting(user, w.now - RESET_THROTTLE_SPAN), cs, 2);
            if !cs[2].fault && OverAllowance(w, user) then b == w && q == Done(Throttled)
            else if cs[3].fault then b == w && q == Done(NothingSent)
            else (b, q) == Complete(w.(resets := Retire(w.resets, user, w.now)), t, ForgotRetired(user), cs, 4)
                 && AdmittedResult(w, b, q, user, cs)
  {
    OverAllowanceIsCounted(w, user);
    CompleteStep(w, t, ForgotCounting(user, w.now - RESET_THROTTLE_SPAN), cs, 2);
    if cs[2].fault || !OverAllowance(w, user) {
      CompleteStep(w, t, ForgotAllowed(user), cs, 3);
      AdmittedForgot(w, t, user, cs);
    }
  }

  ghost predicate AdmittedResult(w: World, b: World, q: Pc, user: UserId, cs: seq<Choice>)
    requires |cs| == 6
  {
    && b.users == w.users && b.sessions == w.sessions && b.log == w.log
    && SpentFor(w.resets, b.resets, user, w.now)
    && (if !cs[5].fault && cs[5].token !in w.resets then
          && q == Done(LinkIssued(cs[5].token))
          && b.resets.Keys == w.resets.Keys + {cs[5].token}
          && b.resets[cs[5].token] == Reset(user, w.now + 3_600_000_000_000, w.now, None)
          && Unused(b, user) == {cs[5].token}
        else q == Done(Fault) && b.resets.Keys == w.resets.Keys && Unused(b, user) == {})
  }

  lemma AdmittedForgot(w: World, t: ThreadId, user: UserId, cs: seq<Choice>)
    requires |cs| == 6
    ensures var (b, q) := Complete(w.(resets := Retire(w.resets, user, w.now)), t, ForgotRetired(user), cs, 4);
            AdmittedResult(w, b, q, user, cs)
  {
    var m := w.(resets := Retire(w.resets, user, w.now));
    CompleteStep(m, t, ForgotRetired(user), cs, 4);
    CompleteStep(m, t, ForgotReady(user, m.now), cs, 5);
  }

  ghost predicate Redeemable(w: World, token: Token) {
    token in w.resets && w.resets[token].usedAt == None && w.now <= w.resets[token].expiresAt
  }

  /** Not, as far as could be found out, an account that may not reset. */
  ghost predicate NotBarred(w: World, user: UserId, lookupFails: bool) {
    lookupFails || user !in w.users || w.users[user].status == SP.Active
  }

  /** The user has this password, and nothing else about any account is different. */
  ghost predicate PasswordSet(a: map<UserId, SP.User>, b: map<UserId, SP.User>, user: UserId, password: Password) {
    && b.Keys == a.Keys
    && forall u :: u in a ==> b[u] == if u == user then a[u].(password := password) else a[u]
  }

  /** The password changes if and only if it is acceptable, the link is unused and in time, its
    account is active (or cannot be looked up), and nothing else fails. Every session of the account
    ends with it, and no other. A password write that fails costs the link all the same. */
  lemma ResetSucceedsIff(w: World, t: ThreadId, token: Token, password: Password, acceptable: bool, cs: seq<Choice>)
    requires |cs| == 5
    ensures var (b, q) := Complete(w, t, ResetStart(token, password, acceptable), cs, 0);
            var consumes := acceptable && !cs[0].fault && Redeemable(w, token) && !cs[3].fault
                            && NotBarred(w, w.resets[token].user, cs[2].fault);
            && q.Done?
            && (q.outcome == PasswordChanged <==> consumes && !cs[4].fault)
            && (if q.outcome == PasswordChanged then
                  && PasswordSet(w.users, b.users, w.resets[token].user, password)
                  && StampedFor(w.sessions, b.sessions, w.resets[token].user, w.now)
                  && NoLiveSession(b.sessions, w.resets[token].user)
                else b.users == w.users && b.sessions == w.sessions)
            && b.resets == (if consumes then w.resets[token := w.resets[token].(usedAt := Some(w.now))] else w.resets)
  {
    CompleteStep(w, t, ResetStart(token, password, acceptable), cs, 0);
    if acceptable && !cs[0].fault && token in w.resets {
      var row := w.resets[token];
      CompleteStep(w, t, ResetFound(token, row, password), cs, 1);
      if Redeemable(w, token) {
        CompleteStep(w, t, ResetValid(token, row, password), cs, 2);
        if NotBarred(w, row.user, cs[2].fault) {
          RedeemedLink(w, t, token, password, cs);
        }
      }
    }
  }

  lemma RedeemedLink(w: World, t: ThreadId, token: Token, password: Password, cs: seq<Choice>)
    requires |cs| == 5 && Redeemable(w, token)
    ensures var (b, q) := Complete(w, t, ResetEligible(token, w.resets[token], password), cs, 3);
            && q == Done(if cs[3].fault || cs[4].fault then Fault else PasswordChanged)
            && (if q.outcome == PasswordChanged then
                  && PasswordSet(w.users, b.users, w.resets[token].user, password)
                  && StampedFor(w.sessions, b.sessions, w.resets[token].user, w.now)
                  && NoLiveSession(b.sessions, w.resets[token].user)
                else b.users == w.users && b.sessions == w.sessions)
            && b.resets == (if cs[3].fault then w.resets else w.resets[token := w.resets[token].(usedAt := Some(w.now))])
  {
    CompleteStep(w, t, ResetEligible(token, w.resets[token], password), cs, 3);
    if !cs[3].fault {
      var m := Advance(w, t, ResetEligible(token, w.resets[token], password), cs[3]).0;
      CompleteStep(m, t, ResetConsumed(token, w.resets[token].user, password), cs, 4);
    }
  }

  /** A redemption that changes no password says why, in this order: the password is not acceptable;
    the link is unknown or cannot be looked up; it is used; it has expired; its account is not
    active; something failed. */
  lemma ResetRefusals(w: World, t: ThreadId, token: Token, password: Password, acceptable: bool, cs: seq<Choice>)
    requires |cs| == 5
    ensures Complete(w, t, ResetStart(token, password, acceptable), cs, 0).1 == Done(
              if !acceptable then PolicyRefused
              else if cs[0].fault || token !in w.resets then TokenInvalid
              else if w.resets[token].usedAt != None then LinkUsed
              else if w.resets[token].expiresAt < w.now then LinkExpired
              else if !NotBarred(w, w.resets[token].user, cs[2].fault) then AccountCannotReset
              else if cs[3].fault || cs[4].fault then Fault
              else PasswordChanged)
  {
    CompleteStep(w, t, ResetStart(token, password, acceptable), cs, 0);
    if acceptable && !cs[0].fault && token in w.resets {
      var row := w.resets[token];
      CompleteStep(w, t, ResetFound(token, row, password), cs, 1);
      if Redeemable(w, token) {
        CompleteStep(w, t, ResetValid(token, row, password), cs, 2);
        if NotBarred(w, row.user, cs[2].fault) {
          RedeemedLink(w, t, token, password, cs);
        }
      }
    }
  }

  // ----- who spends a link -----

  /** The event is a request of the link's own account retiring its links, or a redemption of this
    very link. */
  ghost predicate Spends(s: State, e: Event, k: Token) {
    && k in s.w.resets && e.Step? && !e.c.fault && e.t in s.threads
    && (|| (s.threads[e.t].ForgotAllowed? && s.threads[e.t].user == s.w.resets[k].user)
        || (s.threads[e.t].ResetEligible? && s.threads[e.t].token == k))
  }

  ghost predicate SomeoneSpends(s: State, es: seq<Event>, k: Token)
    decreases |es|
  {
    es != [] && (Spends(s, es[0], k) || SomeoneSpends(Apply(s, es[0]), es[1..], k))
  }

  lemma EventSpendsIff(s: State, e: Event, k: Token)
    requires k in s.w.resets && s.w.resets[k].usedAt == None
    ensures var b := Apply(s, e).w.resets; k in b && (b[k].usedAt != None <==> Spends(s, e, k))
    ensures Apply(s, e).w.resets[k].user == s.w.resets[k].user
  {
  }

  lemma UsedStaysUsed(s: State, e: Event, k: Token)
    requires k in s.w.resets && s.w.resets[k].usedAt != None
    ensures var b := Apply(s, e).w.resets; k in b && b[k].usedAt != None
  {
  }

  lemma {:induction false} RunKeepsUsed(s: State, es: seq<Event>, k: Token)
    requires k in s.w.resets && s.w.resets[k].usedAt != None
    ensures var b := Run(s, es).w.resets; k in b && b[k].usedAt != None
    decreases |es|
  {
    if es != [] {
      UsedStaysUsed(s, es[0], k);
      RunKeepsUsed(Apply(s, es[0]), es[1..], k);
    }
  }

  /** Once a link is used, whatever happens in between, a redemption that had found it unused is told
    so at its last check and changes nothing. */
  lemma LoserIsTold(s: State, es: seq<Event>, t: ThreadId, token: Token, row: Reset, password: Password, c: Choice)
    requires token in s.w.resets && s.w.resets[token].usedAt != None
    ensures var w := Run(s, es).w;
            Advance(w, t, ResetEligible(token, row, password), c) == (w, Done(if c.fault then Fault else LinkUsed))
  {
    RunKeepsUsed(s, es, token);
  }

  /** Over any run an unused link is used in the end if and only if a ForgotPassword call of its own
    account retired it or a ResetPassword call redeemed it: nobody else's request can spend it. */
  lemma {:induction false} OnlyItsOwnCallsSpendALink(s: State, es: seq<Event>, k: Token)
    requires k in s.w.resets && s.w.resets[k].usedAt == None
    ensures var b := Run(s, es).w.resets; k in b && (b[k].usedAt != None <==> SomeoneSpends(s, es, k))
    decreases |es|
  {
    if es != [] {
      EventSpendsIff(s, es[0], k);
      if Spends(s, es[0], k) {
        RunKeepsUsed(Apply(s, es[0]), es[1..], k);
      } else {
        OnlyItsOwnCallsSpendALink(Apply(s, es[0]), es[1..], k);
      }
    }
  }
}
