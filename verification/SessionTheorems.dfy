/** Safety of the session protocol over whole runs and every interleaving. */
module SessionTheorems {
  import opened Common
  import opened SessionStore
  import opened SessionForest
  import opened SessionProtocol
  import opened SessionInvariant

  // ----- one event at a time -----

  /** At most one new entry per event; a login's entry is a login's, a refresh's spends a live row. */
  ghost predicate Extends(a: World, b: World) {
    || (Restamped(a.sessions, b.sessions) && b.nextId == a.nextId && b.issued == a.issued)
    || (exists user, at, remember, k :: IssuedByLogin(a, b, user, at, remember, k))
    || (exists spent, k :: IssuedByRefresh(a, b, spent, k))
  }

  lemma EventExtends(s: State, e: Event)
    requires Inv(s)
    ensures Extends(s.w, Apply(s, e).w)
  {
    if e.Step? && e.t in s.threads {
      StepShape(s.w, s.threads[e.t], e.c);
    }
  }

  // ----- revocation is a barrier -----

  ghost predicate NothingNewFor(a: seq<Issue>, b: seq<Issue>, user: UserId) {
    a <= b && forall i :: |a| <= i < |b| ==> b[i].user != user
  }

  /** Nothing but a login can give the user a session or tokens once all are revoked. */
  ghost predicate Barred(a: World, b: World, user: UserId) {
    || (NoLiveSession(b.sessions, user) && NothingNewFor(a.issued, b.issued, user))
    || Logins(a.issued, user) < Logins(b.issued, user)
  }

  lemma LoginBarred(a: World, b: World, user: UserId, u: UserId, at: Time, remember: bool, k: Token)
    requires NoLiveSession(a.sessions, user) && IssuedByLogin(a, b, u, at, remember, k)
    ensures Barred(a, b, user)
  {
    LoginsAppend(a.issued, ByLogin(u, k, at, remember), user);
  }

  lemma RefreshBarred(a: World, b: World, user: UserId, spent: Token, k: Token)
    requires NoLiveSession(a.sessions, user) && IssuedByRefresh(a, b, spent, k)
    ensures Barred(a, b, user)
  {
    assert a.sessions[spent].user != user;
  }

  lemma EventBarred(s: State, user: UserId, e: Event)
    requires Inv(s) && NoLiveSession(s.w.sessions, user)
    ensures Barred(s.w, Apply(s, e).w, user)
  {
    var a, b := s.w, Apply(s, e).w;
    EventExtends(s, e);
    if Restamped(a.sessions, b.sessions) && b.issued == a.issued {
    } else if u, at, remember, k :| IssuedByLogin(a, b, u, at, remember, k) {
      LoginBarred(a, b, user, u, at, remember, k);
    } else {
      var spent, k :| IssuedByRefresh(a, b, spent, k);
      RefreshBarred(a, b, user, spent, k);
    }
  }

  lemma {:induction false} LoginsOnlyGrow(a: seq<Issue>, b: seq<Issue>, user: UserId)
    requires a <= b
    ensures Logins(a, user) <= Logins(b, user)
    decreases |b|
  {
    if a != b {
      LoginsOnlyGrow(a, b[..|b| - 1], user);
    }
  }

  /** In every interleaving, once all of a user's sessions are revoked there is no live one,
    and no token is issued to them, until a login of that user stores a session. Threads that
    had read a session as live beforehand are included. */
  lemma {:induction false} RevocationIsABarrier(s: State, user: UserId, es: seq<Event>)
    requires Inv(s) && NoLiveSession(s.w.sessions, user)
    requires Logins(Run(s, es).w.issued, user) == Logins(s.w.issued, user)
    ensures NoLiveSession(Run(s, es).w.sessions, user)
    ensures NothingNewFor(s.w.issued, Run(s, es).w.issued, user)
    decreases |es|
  {
    if es != [] {
      var z := Apply(s, es[0]);
      EventKeepsInv(s, es[0]);
      EventBarred(s, user, es[0]);
      RunKeepsInv(z, es[1..]);
      LoginsOnlyGrow(s.w.issued, z.w.issued, user);
      LoginsOnlyGrow(z.w.issued, Run(z, es[1..]).w.issued, user);
      RevocationIsABarrier(z, user, es[1..]);
    }
  }

  lemma RevocationTakesEffect(w: World, pc: Pc, c: Choice)
    requires pc.RefreshReuse? || pc.StatusWritten? || pc.ResetCommit?
    requires !c.fault
    ensures var b := Advance(w, pc, c).0; NoLiveSession(b.sessions, pc.user) && b.issued == w.issued
  {
  }

  /** Reuse containment, suspension and password reset each raise the barrier the moment they take
    effect: in the rest of any run nothing lives and nothing is issued until a login is. */
  lemma RevocationsRaiseTheBarrier(s: State, t: ThreadId, c: Choice, es: seq<Event>)
    requires Inv(s) && t in s.threads && !c.fault
    requires s.threads[t].RefreshReuse? || s.threads[t].StatusWritten? || s.threads[t].ResetCommit?
    requires var z := Apply(s, Step(t, c));
             Logins(Run(z, es).w.issued, s.threads[t].user) == Logins(z.w.issued, s.threads[t].user)
    ensures var b := Run(Apply(s, Step(t, c)), es).w;
            && NoLiveSession(b.sessions, s.threads[t].user)
            && NothingNewFor(s.w.issued, b.issued, s.threads[t].user)
  {
    var z := Apply(s, Step(t, c));
    EventKeepsInv(s, Step(t, c));
    RevocationTakesEffect(s.w, s.threads[t], c);
    RevocationIsABarrier(z, s.threads[t].user, es);
  }

  // ----- a spent token stays spent -----

  lemma EventSparesDeadTokens(s: State, k: Token, e: Event)
    requires Inv(s) && k in s.w.sessions && !s.w.sessions[k].Live()
    ensures var b := Apply(s, e).w;
            forall i :: |s.w.issued| <= i < |b.issued| && b.issued[i].ByRefresh? ==> b.issued[i].spent != k
  {
    EventExtends(s, e);
  }

  /** A refresh token whose session is revoked never again yields tokens, whoever presents it
    and whatever they had already read. */
  lemma {:induction false} RevokedTokenNeverIssues(s: State, k: Token, es: seq<Event>)
    requires Inv(s) && k in s.w.sessions && !s.w.sessions[k].Live()
    ensures var b := Run(s, es).w;
            && k in b.sessions && !b.sessions[k].Live()
            && forall i :: |s.w.issued| <= i < |b.issued| && b.issued[i].ByRefresh? ==> b.issued[i].spent != k
    decreases |es|
  {
    if es != [] {
      var z := Apply(s, es[0]);
      EventKeepsInv(s, es[0]);
      EventSparesDeadTokens(s, k, es[0]);
      RevokedTokenNeverIssues(z, k, es[1..]);
      RunKeepsInv(z, es[1..]);
    }
  }

  /** From the empty system, over any run: a refresh token succeeds at most once. */
  lemma TokenSucceedsOnce(es: seq<Event>, i: nat, j: nat)
    requires var issued := Run(INITIAL, es).w.issued;
             i < j < |issued| && issued[i].ByRefresh? && issued[j].ByRefresh?
    ensures var issued := Run(INITIAL, es).w.issued;
            issued[i].spent != issued[j].spent
  {
    InitialHolds();
    RunKeepsInv(INITIAL, es);
    var w := Run(INITIAL, es).w;
    assert IssueOk(w, w.issued[i]) && IssueOk(w, w.issued[j]);
  }

  // ----- chains over runs -----

  /** From the empty system, over any run: sessions form linear chains rooted at logins, a chain
    has at most one live session, and a user never has more live sessions than logins. */
  lemma LiveSessionsAreBounded(es: seq<Event>, user: UserId)
    ensures var w := Run(INITIAL, es).w;
            && Forest(w.sessions, w.nextId)
            && |LiveOf(w.sessions, user)| <= Logins(w.issued, user)
            && (forall k, l | k in w.sessions && l in w.sessions && w.sessions[k].Live() && w.sessions[l].Live()
                  && Root(w.sessions, w.nextId, k) == Root(w.sessions, w.nextId, l) :: k == l)
  {
    InitialHolds();
    RunKeepsInv(INITIAL, es);
    var w := Run(INITIAL, es).w;
    forall k, l | k in w.sessions && l in w.sessions && w.sessions[k].Live() && w.sessions[l].Live()
      && Root(w.sessions, w.nextId, k) == Root(w.sessions, w.nextId, l) ensures k == l
    {
      OneLivePerChain(w.sessions, w.nextId, k, l);
    }
  }

  lemma RestampKeepsChainDead(a: World, b: World, root: Token)
    requires Forest(a.sessions, a.nextId) && ChainDead(a.sessions, a.nextId, root)
    requires Forest(b.sessions, b.nextId) && Restamped(a.sessions, b.sessions)
    ensures ChainDead(b.sessions, b.nextId, root)
  {
    forall k | k in b.sessions && Root(b.sessions, b.nextId, k) == root ensures !b.sessions[k].Live() {
      RootIsStable(a.sessions, a.nextId, b.sessions, b.nextId, k);
    }
  }

  lemma OldRowsStayDead(a: Sessions, m: SessionId, b: Sessions, n: SessionId, root: Token, k: Token)
    requires Forest(a, m) && ChainDead(a, m, root) && Forest(b, n) && RowsPersist(a, b)
    requires k in a && Root(b, n, k) == root
    ensures !b[k].Live()
  {
    RootIsStable(a, m, b, n, k);
  }

  lemma RootKeepsRows(a: Sessions, b: Sessions, k: Token, r: Session)
    requires RootAdded(a, b, k, r)
    ensures RowsPersist(a, b) && b.Keys == a.Keys + {k} && b[k].rotatedFrom.None?
  {
  }

  lemma NewChainIsAnother(
    a: Sessions, m: SessionId, b: Sessions, n: SessionId, root: Token, added: Token)
    requires Forest(a, m) && root in a && ChainDead(a, m, root) && Forest(b, n)
    requires RowsPersist(a, b) && b.Keys == a.Keys + {added} && added !in a && b[added].rotatedFrom.None?
    ensures ChainDead(b, n, root)
  {
    forall k | k in b && Root(b, n, k) == root ensures !b[k].Live() {
      if k != added {
        OldRowsStayDead(a, m, b, n, root, k);
      }
    }
  }

  lemma LoginKeepsChainDead(
    a: World, b: World, root: Token, user: UserId, at: Time, remember: bool, added: Token)
    requires Forest(a.sessions, a.nextId) && root in a.sessions && ChainDead(a.sessions, a.nextId, root)
    requires Forest(b.sessions, b.nextId) && IssuedByLogin(a, b, user, at, remember, added)
    ensures ChainDead(b.sessions, b.nextId, root)
  {
    RootKeepsRows(a.sessions, b.sessions, added, b.sessions[added]);
    NewChainIsAnother(a.sessions, a.nextId, b.sessions, b.nextId, root, added);
  }

  /** The spent row was live, so its chain is not the dead one; its successor joins its chain. */
  lemma ChildKeepsChainDead(
    a: Sessions, m: SessionId, b: Sessions, n: SessionId, root: Token, spent: Token, added: Token)
    requires Forest(a, m) && ChainDead(a, m, root) && Forest(b, n)
    requires RowsPersist(a, b) && b.Keys == a.Keys + {added}
    requires spent in a && a[spent].Live() && IsParent(b, spent, added)
    ensures ChainDead(b, n, root)
  {
    assert b[Parent(b, added)].id == b[spent].id;
    RootIsStable(a, m, b, n, spent);
    forall k | k in a && Root(b, n, k) == root ensures !b[k].Live() {
      OldRowsStayDead(a, m, b, n, root, k);
    }
  }

  lemma RefreshKeepsChainDead(a: World, b: World, root: Token, spent: Token, added: Token)
    requires Forest(a.sessions, a.nextId) && ChainDead(a.sessions, a.nextId, root)
    requires Forest(b.sessions, b.nextId) && IssuedByRefresh(a, b, spent, added)
    ensures ChainDead(b.sessions, b.nextId, root)
  {
    var p := a.sessions[spent];
    var r := Session(a.nextId, p.user, p.remember, p.expiresAt, Some(p.id), None);
    ChildKeepsRows(a.sessions, b.sessions, spent, added, r);
    ChildKeepsForest(a.sessions, b.sessions, a.nextId, spent, added, r);
    ChildKeepsChainDead(a.sessions, a.nextId, b.sessions, b.nextId, root, spent, added);
  }

  lemma EventKeepsChainDead(s: State, root: Token, e: Event)
    requires Inv(s) && root in s.w.sessions && ChainDead(s.w.sessions, s.w.nextId, root)
    ensures var b := Apply(s, e).w;
            Forest(b.sessions, b.nextId) && ChainDead(b.sessions, b.nextId, root)
  {
    var a, b := s.w, Apply(s, e).w;
    EventKeepsInv(s, e);
    EventExtends(s, e);
    if Restamped(a.sessions, b.sessions) {
      RestampKeepsChainDead(a, b, root);
    } else if user, at, remember, k :| IssuedByLogin(a, b, user, at, remember, k) {
      LoginKeepsChainDead(a, b, root, user, at, remember, k);
    } else {
      var spent, k :| IssuedByRefresh(a, b, spent, k);
      RefreshKeepsChainDead(a, b, root, spent, k);
    }
  }

  /** A chain with no live session never regains one. */
  lemma {:induction false} DeadChainStaysDead(s: State, root: Token, es: seq<Event>)
    requires Inv(s) && root in s.w.sessions && ChainDead(s.w.sessions, s.w.nextId, root)
    ensures var b := Run(s, es).w;
            Forest(b.sessions, b.nextId) && ChainDead(b.sessions, b.nextId, root)
    decreases |es|
  {
    if es != [] {
      EventKeepsInv(s, es[0]);
      EventKeepsChainDead(s, root, es[0]);
      DeadChainStaysDead(Apply(s, es[0]), root, es[1..]);
    }
  }

  // ----- absolute expiry -----

  /** Every session of every run dates back to a login that was answered with tokens: it carries
    that login's Remember Me flag, and expires one policy lifetime after that login. */
  lemma ExpiryIsAbsolute(es: seq<Event>, k: Token)
    requires k in Run(INITIAL, es).w.sessions
    ensures var w := Run(INITIAL, es).w;
            && Forest(w.sessions, w.nextId)
            && exists i :: 0 <= i < |w.issued| && w.issued[i].ByLogin?
                 && w.issued[i].token == Root(w.sessions, w.nextId, k)
                 && w.issued[i].at <= w.now
                 && w.sessions[k].user == w.issued[i].user
                 && w.sessions[k].remember == w.issued[i].remember
                 && w.sessions[k].expiresAt == w.issued[i].at + Lifetime(w.issued[i].remember)
  {
    InitialHolds();
    RunKeepsInv(INITIAL, es);
    var w := Run(INITIAL, es).w;
    var root := Root(w.sessions, w.nextId, k);
    RootFixesThePolicy(w.sessions, w.nextId, k);
    var i :| 0 <= i < |w.issued| && w.issued[i].token == root;
    assert IssueOk(w, w.issued[i]);
  }

  /** A refresh judged in time that has not rotated yet and whose session is still live. */
  predicate AboutToRotate(w: World, pc: Pc, expiresAt: Time) {
    pc.RefreshReady? && pc.row.expiresAt == expiresAt && pc.token in w.sessions && w.sessions[pc.token].Live()
  }

  ghost predicate PendingRotation(s: State, t: ThreadId, expiresAt: Time) {
    t in s.threads && AboutToRotate(s.w, s.threads[t], expiresAt)
  }

  ghost predicate NoPendingRotation(s: State, expiresAt: Time) {
    forall t :: !PendingRotation(s, t, expiresAt)
  }

  lemma ThreadAfterExpiry(w: World, pc: Pc, c: Choice, expiresAt: Time)
    requires expiresAt < w.now
    requires pc.RefreshReady? ==> pc.row.expiresAt != expiresAt
    ensures var q := Advance(w, pc, c).1; q.RefreshReady? ==> q.row.expiresAt != expiresAt
  {
  }

  lemma RotationsStayDead(s: State, expiresAt: Time, e: Event)
    requires Inv(s) && expiresAt < s.w.now && NoPendingRotation(s, expiresAt)
    ensures NoPendingRotation(Apply(s, e), expiresAt)
  {
    var z := Apply(s, e);
    EventKeepsInv(s, e);
    if e.Step? && e.t in s.threads {
      SteppedRotation(s.w, s.threads[e.t], e.c, expiresAt);
    }
    forall t | t in z.threads ensures !AboutToRotate(z.w, z.threads[t], expiresAt) {
      if t in s.threads && z.threads[t] == s.threads[t] {
        assert !PendingRotation(s, t, expiresAt);
        RotationStaysDead(s.w, z.w, s.threads[t], expiresAt);
      }
    }
  }

  lemma RotationStaysDead(a: World, b: World, pc: Pc, expiresAt: Time)
    requires ThreadOk(a, pc) && Later(a, b) && !AboutToRotate(a, pc, expiresAt)
    ensures !AboutToRotate(b, pc, expiresAt)
  {
  }

  lemma SteppedRotation(w: World, pc: Pc, c: Choice, expiresAt: Time)
    requires expiresAt < w.now
    ensures var (b, q) := Advance(w, pc, c); !AboutToRotate(b, q, expiresAt)
  {
    if !pc.RefreshReady? {
      ThreadAfterExpiry(w, pc, c, expiresAt);
    }
  }

  lemma EventAfterExpiry(s: State, expiresAt: Time, e: Event)
    requires Inv(s) && expiresAt < s.w.now && NoPendingRotation(s, expiresAt)
    ensures NoPendingRotation(Apply(s, e), expiresAt)
    ensures var b := Apply(s, e).w;
            forall k :: k in b.sessions && b.sessions[k].rotatedFrom.Some? && b.sessions[k].expiresAt == expiresAt
              ==> k in s.w.sessions
  {
    RotationsStayDead(s, expiresAt, e);
    if e.Step? && e.t in s.threads {
      StepShape(s.w, s.threads[e.t], e.c);
      assert ThreadOk(s.w, s.threads[e.t]) && !PendingRotation(s, e.t, expiresAt);
    }
  }

  /** Once the absolute expiry has passed and no judged rotation of a live session is pending, no run
    of any length adds a successor with that expiry, so an expired chain is never extended. */
  lemma {:induction false} ExpiredChainIsNeverExtended(s: State, expiresAt: Time, es: seq<Event>)
    requires Inv(s) && expiresAt < s.w.now && NoPendingRotation(s, expiresAt)
    ensures var b := Run(s, es).w;
            forall k :: k in b.sessions && b.sessions[k].rotatedFrom.Some? && b.sessions[k].expiresAt == expiresAt
              ==> k in s.w.sessions
    decreases |es|
  {
    if es != [] {
      EventKeepsInv(s, es[0]);
      EventAfterExpiry(s, expiresAt, es[0]);
      ExpiredChainIsNeverExtended(Apply(s, es[0]), expiresAt, es[1..]);
      RunKeepsInv(Apply(s, es[0]), es[1..]);
      var a, b, c := s.w.sessions, Apply(s, es[0]).w.sessions, Run(s, es).w.sessions;
      forall k | k in c && c[k].rotatedFrom.Some? && c[k].expiresAt == expiresAt ensures k in a {
        assert k in b;
      }
    }
  }

  // ----- suspension sticks -----

  ghost predicate Ineligible(s: State, user: UserId) {
    user in s.w.users && s.w.users[user].status != Active
  }

  /** Past its second standing check: such a login no longer asks. */
  predicate LateLogin(pc: Pc, user: UserId) {
    (pc.LoginCleared? || pc.LoginReady?) && pc.user == user
  }

  ghost predicate NoLateLogin(s: State, user: UserId) {
    forall t :: t in s.threads ==> !LateLogin(s.threads[t], user)
  }

  ghost predicate IneligibleThroughout(s: State, user: UserId, es: seq<Event>)
    decreases |es|
  {
    Ineligible(s, user) && (es != [] ==> IneligibleThroughout(Apply(s, es[0]), user, es[1..]))
  }

  /** The event is a login's second standing check of this user, and the read fails. */
  ghost predicate RecheckFails(s: State, user: UserId, e: Event) {
    e.Step? && e.c.fault && e.t in s.threads && s.threads[e.t].LoginMatched? && s.threads[e.t].user == user
  }

  ghost predicate RechecksRead(s: State, user: UserId, es: seq<Event>)
    decreases |es|
  {
    es != [] ==> !RecheckFails(s, user, es[0]) && RechecksRead(Apply(s, es[0]), user, es[1..])
  }

  lemma LoginWhileIneligible(w: World, pc: Pc, c: Choice, user: UserId)
    requires user in w.users && w.users[user].status != Active
    requires !LateLogin(pc, user)
    requires !(c.fault && pc.LoginMatched? && pc.user == user)
    ensures !LateLogin(Advance(w, pc, c).1, user)
  {
  }

  lemma EventWhileIneligible(s: State, user: UserId, e: Event)
    requires Inv(s) && NoLiveSession(s.w.sessions, user) && NoLateLogin(s, user) && Ineligible(s, user)
    requires !RecheckFails(s, user, e)
    ensures NoLiveSession(Apply(s, e).w.sessions, user) && NoLateLogin(Apply(s, e), user)
    ensures NothingNewFor(s.w.issued, Apply(s, e).w.issued, user)
  {
    if e.Step? && e.t in s.threads {
      StepShape(s.w, s.threads[e.t], e.c);
      LoginWhileIneligible(s.w, s.threads[e.t], e.c, user);
    }
  }

  /** Suspension sticks: nobody is handed tokens for the account, and no session of it comes to
    life, for as long as it stays out of good standing, including through threads already past
    the refresh standing check. */
  lemma {:induction false} SuspensionSticks(s: State, user: UserId, es: seq<Event>)
    requires Inv(s) && NoLiveSession(s.w.sessions, user) && NoLateLogin(s, user)
    requires IneligibleThroughout(s, user, es) && RechecksRead(s, user, es)
    ensures NoLiveSession(Run(s, es).w.sessions, user)
    ensures NothingNewFor(s.w.issued, Run(s, es).w.issued, user)
    decreases |es|
  {
    if es != [] {
      EventKeepsInv(s, es[0]);
      EventWhileIneligible(s, user, es[0]);
      SuspensionSticks(Apply(s, es[0]), user, es[1..]);
    }
  }
}
