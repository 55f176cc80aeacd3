/** What every event keeps: the inductive invariant of the session protocol. */
module SessionInvariant {
  import opened Common
  import opened SessionStore
  import opened SessionForest
  import opened SessionProtocol

  ghost predicate Inv(s: State) {
    && WorldOk(s.w)
    && forall t :: t in s.threads ==> ThreadOk(s.w, s.threads[t])
  }

  ghost predicate WorldOk(w: World) {
    && Forest(w.sessions, w.nextId)
    && IssuesOk(w)
    && EveryRowIssued(w)
    && forall user :: |LiveOf(w.sessions, user)| <= Logins(w.issued, user)
  }

  /** A thread's copy of a row may be stale in its stamp, never in its identity. */
  ghost predicate ThreadOk(w: World, pc: Pc) {
    && (pc.RefreshFound? || pc.RefreshStanding? || pc.RefreshReady? ==>
          pc.token in w.sessions && w.sessions[pc.token].SameIdentity(pc.row))
    && (pc.LoginReady? ==> pc.at <= w.now)
  }

  ghost predicate IssueOk(w: World, x: Issue) {
    && x.token in w.sessions
    && w.sessions[x.token].user == x.user
    && match x
       case ByLogin(_, token, at, remember) =>
         && at <= w.now
         && w.sessions[token].rotatedFrom.None?
         && w.sessions[token].remember == remember
         && w.sessions[token].expiresAt == at + Lifetime(remember)
       case ByRefresh(_, token, spent) =>
         && spent in w.sessions
         && w.sessions[token].rotatedFrom == Some(w.sessions[spent].id)
  }

  ghost predicate IssuesOk(w: World) {
    && (forall i :: 0 <= i < |w.issued| ==> IssueOk(w, w.issued[i]))
    && (forall i, j :: 0 <= i < j < |w.issued| ==> w.issued[i].token != w.issued[j].token)
  }

  ghost predicate EveryRowIssued(w: World) {
    forall k :: k in w.sessions ==> exists i :: 0 <= i < |w.issued| && w.issued[i].token == k
  }

  /** How many logins of a user have been answered with tokens. */
  function Logins(issued: seq<Issue>, user: UserId): nat {
    if issued == [] then 0
    else Logins(issued[..|issued| - 1], user) +
         (var x := issued[|issued| - 1]; if x.ByLogin? && x.user == user then 1 else 0)
  }

  lemma LoginsAppend(issued: seq<Issue>, x: Issue, user: UserId)
    ensures Logins(issued + [x], user) == Logins(issued, user) + (if x.ByLogin? && x.user == user then 1 else 0)
  {
    assert (issued + [x])[..|issued|] == issued;
  }

  // ----- the only things a step can do to the store -----

  ghost predicate Quiet(a: World, b: World) {
    Restamped(a.sessions, b.sessions) && b.nextId == a.nextId && b.issued == a.issued
  }

  ghost predicate IssuedByLogin(a: World, b: World, user: UserId, at: Time, remember: bool, k: Token) {
    var r := Session(a.nextId, user, remember, at + Lifetime(remember), None, None);
    && RootAdded(a.sessions, b.sessions, k, r)
    && b.nextId == a.nextId + 1
    && b.issued == a.issued + [ByLogin(user, k, at, remember)]
  }

  ghost predicate IssuedByRefresh(a: World, b: World, spent: Token, k: Token) {
    && spent in a.sessions
    && var p := a.sessions[spent];
       var r := Session(a.nextId, p.user, p.remember, p.expiresAt, Some(p.id), None);
    && ChildAdded(a.sessions, b.sessions, spent, k, r)
    && b.nextId == a.nextId + 1
    && b.issued == a.issued + [ByRefresh(p.user, k, spent)]
  }

  lemma RevocationsRestamp(rows: Sessions, id: SessionId, user: UserId, now: Time)
    ensures Restamped(rows, RevokeId(rows, id, now))
    ensures Restamped(rows, RevokeUser(rows, user, now))
  {
  }

  lemma OtherStepsAreQuiet(w: World, pc: Pc, c: Choice)
    requires !pc.LoginReady? && !pc.RefreshReady?
    ensures var (b, q) := Advance(w, pc, c);
            && b.now == w.now && w.users.Keys <= b.users.Keys && Quiet(w, b)
            && (q.Done? && q.outcome.IssuesTokens() ==> pc.Done?)
  {
    match pc {
      case RefreshReuse(user) => RevocationsRestamp(w.sessions, 0, user, w.now);
      case LogoutFound(id) => RevocationsRestamp(w.sessions, id, 0, w.now);
      case StatusWritten(user) => RevocationsRestamp(w.sessions, 0, user, w.now);
      case ResetCommit(user, _) => RevocationsRestamp(w.sessions, 0, user, w.now);
      case _ =>
    }
  }

  lemma LoginShape(w: World, user: UserId, remember: bool, at: Time, c: Choice)
    ensures var (b, q) := Advance(w, LoginReady(user, remember, at), c);
            if q.Done? && q.outcome.IssuesTokens() then
              b.now == w.now && b.users == w.users && IssuedByLogin(w, b, user, at, remember, c.token)
            else b == w
  {
  }

  /** A step restamps rows, or is a login storing its session, or a refresh that found its own
    token still live. Nothing else touches the table. */
  lemma StepShape(w: World, pc: Pc, c: Choice)
    requires Forest(w.sessions, w.nextId) && ThreadOk(w, pc)
    ensures var (b, q) := Advance(w, pc, c);
            && b.now == w.now
            && w.users.Keys <= b.users.Keys
            && (if q.Done? && q.outcome.IssuesTokens() && !pc.Done? then
                  || (pc.LoginReady? && IssuedByLogin(w, b, pc.user, pc.at, pc.remember, c.token))
                  || (pc.RefreshReady? && IssuedByRefresh(w, b, pc.token, c.token))
                else Quiet(w, b))
  {
    match pc {
      case LoginReady(user, remember, at) => LoginShape(w, user, remember, at, c);
      case RefreshReady(token, row) => RotateShape(w, token, row, c);
      case _ => OtherStepsAreQuiet(w, pc, c);
    }
  }

  lemma RotateShape(w: World, token: Token, row: Session, c: Choice)
    requires Forest(w.sessions, w.nextId) && ThreadOk(w, RefreshReady(token, row))
    ensures var (b, q) := Advance(w, RefreshReady(token, row), c);
            if q.Done? && q.outcome.IssuesTokens() then
              b.now == w.now && b.users == w.users && IssuedByRefresh(w, b, token, c.token)
            else b == w
  {
    var (b, q) := Advance(w, RefreshReady(token, row), c);
    var next := Session(w.nextId, row.user, row.remember, row.expiresAt, None, None);
    var (rows, result) := Rotate(w.sessions, row.id, c.token, next, w.now);
    if !c.fault && result.Rotated? {
      var a := w.sessions;
      assert a[token].Live();
      assert RevokeId(a, row.id, w.now) == a[token := a[token].Revoked(w.now)];
      assert rows == a[token := a[token].Revoked(w.now)][c.token := next.(rotatedFrom := Some(row.id))];
    }
  }

  // ----- preservation -----

  lemma QuietKeeps(a: World, b: World)
    requires WorldOk(a)
    requires Quiet(a, b) && a.now <= b.now
    ensures WorldOk(b)
  {
    RestampedKeepsForest(a.sessions, b.sessions, a.nextId);
    forall i | 0 <= i < |b.issued| ensures IssueOk(b, b.issued[i]) {
      assert IssueOk(a, a.issued[i]);
    }
    forall user ensures |LiveOf(b.sessions, user)| <= Logins(b.issued, user) {
      RestampedLive(a.sessions, b.sessions, user);
    }
  }

  lemma LoginKeeps(a: World, b: World, user: UserId, at: Time, remember: bool, k: Token)
    requires WorldOk(a)
    requires IssuedByLogin(a, b, user, at, remember, k) && a.now == b.now && at <= a.now
    ensures WorldOk(b)
  {
    var r := b.sessions[k];
    RootKeepsForest(a.sessions, b.sessions, a.nextId, k, r);
    AppendKeepsIssues(a, b, ByLogin(user, k, at, remember));
    forall u ensures |LiveOf(b.sessions, u)| <= Logins(b.issued, u) {
      RootLive(a.sessions, b.sessions, k, r, u);
      LoginsAppend(a.issued, ByLogin(user, k, at, remember), u);
    }
  }

  /** A rotation trades one live session for another, and is not a login. */
  lemma RefreshKeepsCounts(a: World, b: World, spent: Token, k: Token, r: Session, u: UserId)
    requires |LiveOf(a.sessions, u)| <= Logins(a.issued, u)
    requires ChildAdded(a.sessions, b.sessions, spent, k, r)
    requires b.issued == a.issued + [ByRefresh(r.user, k, spent)]
    ensures |LiveOf(b.sessions, u)| <= Logins(b.issued, u)
  {
    ChildLive(a.sessions, b.sessions, spent, k, r, u);
    LoginsAppend(a.issued, ByRefresh(r.user, k, spent), u);
  }

  lemma RefreshKeepsIssues(a: World, b: World, spent: Token, k: Token)
    requires IssuesOk(a) && EveryRowIssued(a)
    requires IssuedByRefresh(a, b, spent, k) && a.now == b.now
    ensures IssuesOk(b) && EveryRowIssued(b)
  {
    var p := a.sessions[spent];
    ChildKeepsRows(a.sessions, b.sessions, spent, k,
                   Session(a.nextId, p.user, p.remember, p.expiresAt, Some(p.id), None));
    AppendKeepsIssues(a, b, ByRefresh(p.user, k, spent));
  }

  lemma RefreshKeeps(a: World, b: World, spent: Token, k: Token)
    requires WorldOk(a)
    requires IssuedByRefresh(a, b, spent, k) && a.now == b.now
    ensures WorldOk(b)
  {
    var p := a.sessions[spent];
    var r := Session(a.nextId, p.user, p.remember, p.expiresAt, Some(p.id), None);
    ChildKeepsForest(a.sessions, b.sessions, a.nextId, spent, k, r);
    RefreshKeepsIssues(a, b, spent, k);
    forall u ensures |LiveOf(b.sessions, u)| <= Logins(b.issued, u) {
      RefreshKeepsCounts(a, b, spent, k, r, u);
    }
  }

  lemma ChildKeepsRows(a: Sessions, b: Sessions, p: Token, k: Token, r: Session)
    requires ChildAdded(a, b, p, k, r)
    ensures RowsPersist(a, b)
    ensures b.Keys == a.Keys + {k} && b[k] == r
  {
  }

  /** Rows are never removed, their identity never changes and a revocation is never undone. */
  ghost predicate RowsPersist(a: Sessions, b: Sessions) {
    forall k :: k in a ==> k in b && a[k].SameIdentity(b[k]) && (b[k].Live() ==> a[k].Live())
  }

  lemma OldIssueOk(a: World, b: World, y: Issue)
    requires IssueOk(a, y) && a.now == b.now && RowsPersist(a.sessions, b.sessions)
    ensures IssueOk(b, y)
  {
  }

  lemma AppendKeepsIssueOk(a: World, b: World, x: Issue)
    requires IssuesOk(a) && b.issued == a.issued + [x] && a.now == b.now
    requires RowsPersist(a.sessions, b.sessions) && IssueOk(b, x)
    ensures forall i :: 0 <= i < |b.issued| ==> IssueOk(b, b.issued[i])
  {
    forall i | 0 <= i < |b.issued| ensures IssueOk(b, b.issued[i]) {
      if i < |a.issued| {
        OldIssueOk(a, b, a.issued[i]);
      }
    }
  }

  lemma AppendKeepsTokensApart(a: World, b: World, x: Issue)
    requires IssuesOk(a) && b.issued == a.issued + [x] && x.token !in a.sessions
    ensures forall i, j :: 0 <= i < j < |b.issued| ==> b.issued[i].token != b.issued[j].token
  {
    forall i, j | 0 <= i < j < |b.issued| ensures b.issued[i].token != b.issued[j].token {
      assert IssueOk(a, a.issued[i]);
    }
  }

  lemma AppendKeepsRowsIssued(a: World, b: World, x: Issue)
    requires EveryRowIssued(a) && b.issued == a.issued + [x] && b.sessions.Keys == a.sessions.Keys + {x.token}
    ensures EveryRowIssued(b)
  {
    forall k | k in b.sessions ensures exists i :: 0 <= i < |b.issued| && b.issued[i].token == k {
      if k == x.token {
        assert b.issued[|a.issued|].token == k;
      } else {
        var i :| 0 <= i < |a.issued| && a.issued[i].token == k;
        assert b.issued[i].token == k;
      }
    }
  }

  lemma AppendKeepsIssues(a: World, b: World, x: Issue)
    requires IssuesOk(a) && EveryRowIssued(a)
    requires b.issued == a.issued + [x] && a.now == b.now
    requires RowsPersist(a.sessions, b.sessions)
    requires x.token !in a.sessions && b.sessions.Keys == a.sessions.Keys + {x.token}
    requires IssueOk(b, x)
    ensures IssuesOk(b) && EveryRowIssued(b)
  {
    AppendKeepsIssueOk(a, b, x);
    AppendKeepsTokensApart(a, b, x);
    AppendKeepsRowsIssued(a, b, x);
  }

  /** What any two worlds of a run share. */
  ghost predicate Later(a: World, b: World) {
    && a.now <= b.now
    && a.issued <= b.issued
    && a.users.Keys <= b.users.Keys
    && RowsPersist(a.sessions, b.sessions)
  }

  lemma LaterIsTransitive(a: World, b: World, c: World)
    requires Later(a, b) && Later(b, c)
    ensures Later(a, c)
  {
  }

  lemma LaterKeepsThread(a: World, b: World, pc: Pc)
    requires Later(a, b) && ThreadOk(a, pc)
    ensures ThreadOk(b, pc)
  {
  }

  lemma NextThreadOk(w: World, pc: Pc, c: Choice)
    requires Forest(w.sessions, w.nextId) && ThreadOk(w, pc)
    ensures var (b, q) := Advance(w, pc, c);
            ThreadOk(b, q) && (!q.Done? ==> pc.StatusStart? || pc.StatusWritten? || b == w)
  {
  }

  lemma IssueKeepsWorld(a: World, b: World, pc: Pc, c: Choice)
    requires WorldOk(a) && ThreadOk(a, pc) && a.now == b.now
    requires || (pc.LoginReady? && IssuedByLogin(a, b, pc.user, pc.at, pc.remember, c.token))
             || (pc.RefreshReady? && IssuedByRefresh(a, b, pc.token, c.token))
    ensures WorldOk(b) && RowsPersist(a.sessions, b.sessions) && a.issued <= b.issued
  {
    if pc.LoginReady? {
      LoginKeeps(a, b, pc.user, pc.at, pc.remember, c.token);
    } else {
      RefreshKeeps(a, b, pc.token, c.token);
      var p := a.sessions[pc.token];
      ChildKeepsRows(a.sessions, b.sessions, pc.token, c.token,
                     Session(a.nextId, p.user, p.remember, p.expiresAt, Some(p.id), None));
    }
  }

  lemma StepKeepsWorld(a: World, pc: Pc, c: Choice)
    requires WorldOk(a) && ThreadOk(a, pc)
    ensures var b := Advance(a, pc, c).0;
            WorldOk(b) && Later(a, b)
  {
    var (b, q) := Advance(a, pc, c);
    StepShape(a, pc, c);
    if q.Done? && q.outcome.IssuesTokens() && !pc.Done? {
      IssueKeepsWorld(a, b, pc, c);
    } else {
      QuietKeeps(a, b);
    }
  }

  lemma EventKeepsInv(s: State, e: Event)
    requires Inv(s)
    ensures Inv(Apply(s, e))
    ensures Later(s.w, Apply(s, e).w)
  {
    var a, z := s.w, Apply(s, e);
    if e.Step? && e.t in s.threads {
      StepKeepsWorld(a, s.threads[e.t], e.c);
      NextThreadOk(a, s.threads[e.t], e.c);
    } else {
      QuietKeeps(a, z.w);
    }
    forall t | t in z.threads ensures ThreadOk(z.w, z.threads[t]) {
      if t in s.threads {
        LaterKeepsThread(a, z.w, s.threads[t]);
      }
    }
  }

  lemma {:induction false} RunKeepsInv(s: State, es: seq<Event>)
    requires Inv(s)
    ensures Inv(Run(s, es))
    ensures Later(s.w, Run(s, es).w)
    decreases |es|
  {
    if es != [] {
      EventKeepsInv(s, es[0]);
      RunKeepsInv(Apply(s, es[0]), es[1..]);
      LaterIsTransitive(s.w, Apply(s, es[0]).w, Run(s, es).w);
    }
  }

  lemma InitialHolds()
    ensures Inv(INITIAL)
  {
    assert forall user :: LiveOf(INITIAL.w.sessions, user) == {};
  }
}
