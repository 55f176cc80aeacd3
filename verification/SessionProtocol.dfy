/** Login, refresh, logout, status change and password reset as threads over one shared store.

  Each repository call is one atomic step of the thread that makes it, and so is each
  stretch of local code that reads the clock; anything may happen between two steps.
  What the environment decides (a failing call, the random token drawn) is part of the
  event, so a run is a finite sequence of events and its result is a function of it.
 */
module SessionProtocol {
  import opened Common
  import opened SessionStore

  type Password = nat
  type ThreadId = nat

  datatype Status = Active | Suspended | Disabled | Locked | Deleted | Other(text: string)
  {
    /** An allowlist of exactly one value. */
    predicate CanAuthenticate() { Active? }
    predicate IsKnown() { !Other? }
  }

  /** The stored password stands for its bcrypt hash; comparing them is equality. */
  datatype User = User(password: Password, status: Status)

  const REFRESH_ROTATION_GRACE: Time := 10 * SECOND

  /** The policy lifetimes: 7 days, or 30 with Remember Me. */
  function Lifetime(remember: bool): Time {
    if remember then 720 * HOUR else 168 * HOUR
  }

  datatype Outcome =
    | LoggedIn(token: Token)
    | LoginRejected
    | LoginIneligible(status: Status)
    | Refreshed(token: Token, expiresAt: Time, remember: bool)
    | SessionInvalid
    | AccountUnavailable
    | RotationRaced
    | ReuseDetected(contained: bool)
    | SessionExpired
    | LoggedOut
    | StatusChanged
    | AuditFailed
    | UnknownStatus
    | PasswordReset
    | Fault
  {
    predicate IssuesTokens() { LoggedIn? || Refreshed? }
  }

  /** Where a thread is. `row` is the thread's own copy, taken when it looked the token up. */
  datatype Pc =
    | LoginStart(user: UserId, password: Password, remember: bool)
    | LoginFound(user: UserId, password: Password, remember: bool, stored: Password)
    | LoginMatched(user: UserId, remember: bool)
    | LoginCleared(user: UserId, remember: bool)
    | LoginReady(user: UserId, remember: bool, at: Time)
    | RefreshStart(token: Token)
    | RefreshFound(token: Token, row: Session)
    | RefreshStanding(token: Token, row: Session)
    | RefreshReuse(user: UserId)
    | RefreshReady(token: Token, row: Session)
    | LogoutStart(token: Token)
    | LogoutFound(id: SessionId)
    | StatusStart(user: UserId, status: Status)
    | StatusWritten(user: UserId)
    | StatusSettled(user: UserId)
    | ResetCommit(user: UserId, password: Password)
    | Done(outcome: Outcome)
  {
    predicate IsStart() {
      LoginStart? || RefreshStart? || LogoutStart? || StatusStart? || ResetCommit?
    }
  }

  /** What the run has handed out, oldest first. `at` is when the login read the clock. */
  datatype Issue =
    | ByLogin(user: UserId, token: Token, at: Time, remember: bool)
    | ByRefresh(user: UserId, token: Token, spent: Token)

  datatype World = World(
    now: Time,
    users: map<UserId, User>,
    sessions: Sessions,
    nextId: SessionId,
    issued: seq<Issue>)

  /** `fault`: the call (or the token generator) fails. `token`: the random token drawn. */
  datatype Choice = Choice(fault: bool, token: Token)

  /** One step of one thread. */
  function Advance(w: World, pc: Pc, c: Choice): (World, Pc) {
    match pc
    case LoginStart(user, password, remember) =>
      if c.fault then (w, Done(Fault))
      else if user !in w.users then (w, Done(LoginRejected))
      else if !w.users[user].status.CanAuthenticate() then (w, Done(LoginIneligible(w.users[user].status)))
      else (w, LoginFound(user, password, remember, w.users[user].password))
    case LoginFound(user, password, remember, stored) =>
      if password != stored then (w, Done(LoginRejected)) else (w, LoginMatched(user, remember))
    case LoginMatched(user, remember) =>
      // A second read that fails is ignored and the first one stands.
      if !c.fault && user in w.users && !w.users[user].status.CanAuthenticate()
      then (w, Done(LoginIneligible(w.users[user].status)))
      else (w, LoginCleared(user, remember))
    case LoginCleared(user, remember) =>
      if c.fault then (w, Done(Fault)) else (w, LoginReady(user, remember, w.now))
    case LoginReady(user, remember, at) =>
      if c.fault || c.token in w.sessions then (w, Done(Fault))
      else
        var row := Session(w.nextId, user, remember, at + Lifetime(remember), None, None);
        (w.(sessions := w.sessions[c.token := row], nextId := w.nextId + 1,
            issued := w.issued + [ByLogin(user, c.token, at, remember)]),
         Done(LoggedIn(c.token)))
    case RefreshStart(token) =>
      if c.fault then (w, Done(Fault))
      else if token !in w.sessions then (w, Done(SessionInvalid))
      else (w, RefreshFound(token, w.sessions[token]))
    case RefreshFound(token, row) =>
      if c.fault || row.user !in w.users then (w, Done(Fault))
      else if !w.users[row.user].status.CanAuthenticate() then (w, Done(AccountUnavailable))
      else (w, RefreshStanding(token, row))
    case RefreshStanding(token, row) =>
      (w, Judge(token, row, w.now))
    case RefreshReuse(user) =>
      if c.fault then (w, Done(ReuseDetected(false)))
      else (w.(sessions := RevokeUser(w.sessions, user, w.now)), Done(ReuseDetected(true)))
    case RefreshReady(token, row) =>
      if c.fault then (w, Done(Fault))
      else
        var next := Session(w.nextId, row.user, row.remember, row.expiresAt, None, None);
        var (rows, result) := Rotate(w.sessions, row.id, c.token, next, w.now);
        if result.AlreadyRotated? then (w, Done(RotationRaced))
        else if !result.Rotated? then (w, Done(Fault))
        else
          (w.(sessions := rows, nextId := w.nextId + 1,
              issued := w.issued + [ByRefresh(row.user, c.token, token)]),
           Done(Refreshed(c.token, row.expiresAt, row.remember)))
    case LogoutStart(token) =>
      if c.fault then (w, Done(Fault))
      else if token !in w.sessions then (w, Done(LoggedOut))
      else (w, LogoutFound(w.sessions[token].id))
    case LogoutFound(id) =>
      if c.fault then (w, Done(Fault))
      else (w.(sessions := RevokeId(w.sessions, id, w.now)), Done(LoggedOut))
    case StatusStart(user, status) =>
      if !status.IsKnown() then (w, Done(UnknownStatus))
      else if c.fault then (w, Done(Fault))
      else
        (WithStatus(w, user, status), if status.CanAuthenticate() then StatusSettled(user) else StatusWritten(user))
    case StatusWritten(user) =>
      // A revocation that fails is logged and not reported.
      (if c.fault then w else w.(sessions := RevokeUser(w.sessions, user, w.now)), StatusSettled(user))
    case StatusSettled(user) =>
      // The audit entry comes last, and its failure is what the call returns.
      (w, Done(if c.fault then AuditFailed else StatusChanged))
    case ResetCommit(user, password) =>
      if c.fault then (w, Done(Fault))
      else
        (WithPassword(w, user, password).(sessions := RevokeUser(w.sessions, user, w.now)), Done(PasswordReset))
    case Done(_) => (w, pc)
  }

  /** Refresh's verdict on the row it holds, once the account is known to be in good standing. */
  function Judge(token: Token, row: Session, now: Time): Pc {
    match row.revokedAt
    case Some(at) =>
      if now <= at + REFRESH_ROTATION_GRACE then Done(RotationRaced) else RefreshReuse(row.user)
    case None =>
      if row.expiresAt < now then Done(SessionExpired) else RefreshReady(token, row)
  }

  function WithStatus(w: World, user: UserId, status: Status): World {
    if user in w.users then w.(users := w.users[user := w.users[user].(status := status)]) else w
  }

  function WithPassword(w: World, user: UserId, password: Password): World {
    if user in w.users then w.(users := w.users[user := w.users[user].(password := password)]) else w
  }

  datatype State = State(w: World, threads: map<ThreadId, Pc>)

  datatype Event =
    | Spawn(t: ThreadId, start: Pc)
    | Step(t: ThreadId, c: Choice)
    | Tick(elapsed: Time)
    | Register(user: UserId, password: Password)
    | StatusInSql(user: UserId, status: Status)

  /** The effect of one event; an event that is not possible changes nothing. */
  function Apply(s: State, e: Event): State {
    match e
    case Spawn(t, start) =>
      if t !in s.threads && start.IsStart() then s.(threads := s.threads[t := start]) else s
    case Step(t, c) =>
      if t !in s.threads then s
      else
        var (w, pc) := Advance(s.w, s.threads[t], c);
        State(w, s.threads[t := pc])
    case Tick(elapsed) => s.(w := s.w.(now := s.w.now + elapsed))
    case Register(user, password) =>
      if user in s.w.users then s
      else s.(w := s.w.(users := s.w.users[user := User(password, Active)]))
    case StatusInSql(user, status) => s.(w := WithStatus(s.w, user, status))
  }

  function Run(s: State, es: seq<Event>): State
    decreases |es|
  {
    if es == [] then s else Run(Apply(s, es[0]), es[1..])
  }

  /** One call run alone, without interference: step i of its thread takes choice i. */
  function Complete(w: World, pc: Pc, cs: seq<Choice>, i: nat): (World, Pc)
    decreases |cs| - i
  {
    if pc.Done? || |cs| <= i then (w, pc)
    else
      var (b, q) := Advance(w, pc, cs[i]);
      Complete(b, q, cs, i + 1)
  }

  lemma CompleteStep(w: World, pc: Pc, cs: seq<Choice>, i: nat)
    requires !pc.Done? && i < |cs|
    ensures var (b, q) := Advance(w, pc, cs[i]);
            && Complete(w, pc, cs, i) == Complete(b, q, cs, i + 1)
            && (q.Done? ==> Complete(w, pc, cs, i) == (b, q))
  {
  }

  const INITIAL := State(World(0, map[], map[], 0, []), map[])
}
