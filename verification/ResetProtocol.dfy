/** Password reset: throttle, retire old links, issue, consume once, set the password.

  Same step discipline as the session protocol. The count and the create, and the retire and
  the create, are separate repository calls, so other calls run in between.
 */
module ResetProtocol {
  import opened Common
  import opened SessionStore
  import SP = SessionProtocol

  type Password = SP.Password
  type ThreadId = SP.ThreadId

  const PASSWORD_RESET_TTL: Time := HOUR
  const MAX_RESETS_PER_USER := 3
  const RESET_THROTTLE_SPAN: Time := HOUR

  /** One reset link. Its id and its token hash are both unique, so one key serves for both. */
  datatype Reset = Reset(user: UserId, expiresAt: Time, createdAt: Time, usedAt: Option<Time>)
  {
    predicate Unused() { usedAt.None? }
    function Used(now: Time): Reset { this.(usedAt := Some(now)) }
  }

  type Resets = map<Token, Reset>

  function Recent(resets: Resets, user: UserId, since: int): set<Token> {
    set k | k in resets && resets[k].user == user && since <= resets[k].createdAt
  }

  function Retire(resets: Resets, user: UserId, now: Time): Resets {
    map k | k in resets ::
      if resets[k].user == user && resets[k].Unused() then resets[k].Used(now) else resets[k]
  }

  datatype Outcome =
    | NothingSent
    | Throttled
    | LinkIssued(token: Token)
    | Fault
    | PolicyRefused
    | TokenInvalid
    | LinkUsed
    | LinkExpired
    | AccountCannotReset
    | PasswordChanged

  datatype Pc =
    | ForgotStart(user: UserId)
    | ForgotEligible(user: UserId)
    | ForgotCounting(user: UserId, since: int)
    | ForgotAllowed(user: UserId)
    | ForgotRetired(user: UserId)
    | ForgotReady(user: UserId, at: Time)
    | ResetStart(token: Token, password: Password, acceptable: bool)
    | ResetFound(token: Token, row: Reset, password: Password)
    | ResetValid(token: Token, row: Reset, password: Password)
    | ResetEligible(token: Token, row: Reset, password: Password)
    | ResetConsumed(token: Token, owner: UserId, password: Password)
    | Done(outcome: Outcome)
  {
    predicate IsStart() { ForgotStart? || ResetStart? }

    /** A ForgotPassword call of this account that has not returned yet. */
    predicate Forgetting(u: UserId) {
      (ForgotStart? || ForgotEligible? || ForgotCounting? || ForgotAllowed? || ForgotRetired? || ForgotReady?)
      && user == u
    }
  }

  /** `call` is the ResetPassword call that moved a link from unused to used, or set a password. */
  datatype Entry =
    | Consumed(call: ThreadId, token: Token, user: UserId)
    | Changed(call: ThreadId, token: Token, user: UserId, password: Password)

  /** The sessions are other calls' business, except that a redemption ends those of its account. */
  datatype World = World(now: Time, users: map<UserId, SP.User>, resets: Resets, sessions: Sessions, log: seq<Entry>)

  datatype Choice = Choice(fault: bool, token: Token)

  predicate Eligible(w: World, user: UserId) {
    user in w.users && w.users[user].status.CanAuthenticate()
  }

  /** One step of call `t`. */
  function Advance(w: World, t: ThreadId, pc: Pc, c: Choice): (World, Pc) {
    match pc
    case ForgotStart(user) =>
      (w, if c.fault || !Eligible(w, user) then Done(NothingSent) else ForgotEligible(user))
    case ForgotEligible(user) =>
      (w, ForgotCounting(user, w.now - RESET_THROTTLE_SPAN))
    case ForgotCounting(user, since) =>
      // A count that fails throttles nobody.
      (w, if !c.fault && |Recent(w.resets, user, since)| >= MAX_RESETS_PER_USER then Done(Throttled)
          else ForgotAllowed(user))
    case ForgotAllowed(user) =>
      if c.fault then (w, Done(NothingSent))
      else (w.(resets := Retire(w.resets, user, w.now)), ForgotRetired(user))
    case ForgotRetired(user) =>
      (w, ForgotReady(user, w.now))
    case ForgotReady(user, at) =>
      if c.fault || c.token in w.resets then (w, Done(Fault))
      else
        (w.(resets := w.resets[c.token := Reset(user, at + PASSWORD_RESET_TTL, at, None)]),
         Done(LinkIssued(c.token)))
    case ResetStart(token, password, acceptable) =>
      if !acceptable then (w, Done(PolicyRefused))
      else if c.fault || token !in w.resets then (w, Done(TokenInvalid))
      else (w, ResetFound(token, w.resets[token], password))
    case ResetFound(token, row, password) =>
      (w, if row.usedAt.Some? then Done(LinkUsed)
          else if row.expiresAt < w.now then Done(LinkExpired)
          else ResetValid(token, row, password))
    case ResetValid(token, row, password) =>
      // A lookup that fails does not stop the reset.
      (w, if !c.fault && row.user in w.users && !Eligible(w, row.user) then Done(AccountCannotReset)
          else ResetEligible(token, row, password))
    case ResetEligible(token, row, password) =>
      if c.fault || token !in w.resets then (w, Done(Fault))
      else if !w.resets[token].Unused() then (w, Done(LinkUsed))
      else
        (w.(resets := w.resets[token := w.resets[token].Used(w.now)],
            log := w.log + [Consumed(t, token, row.user)]),
         ResetConsumed(token, row.user, password))
    case ResetConsumed(token, user, password) =>
      if c.fault then (w, Done(Fault))
      else
        (w.(users := SetPassword(w.users, user, password),
            sessions := RevokeUser(w.sessions, user, w.now),
            log := w.log + [Changed(t, token, user, password)]),
         Done(PasswordChanged))
    case Done(_) => (w, pc)
  }

  function SetPassword(users: map<UserId, SP.User>, user: UserId, password: Password): map<UserId, SP.User> {
    if user in users then users[user := users[user].(password := password)] else users
  }

  datatype State = State(w: World, threads: map<ThreadId, Pc>)

  datatype Event =
    | Spawn(t: ThreadId, start: Pc)
    | Step(t: ThreadId, c: Choice)
    | Tick(elapsed: Time)
    | SetAccount(user: UserId, account: SP.User)
    | SetSessions(sessions: Sessions)

  function Apply(s: State, e: Event): State {
    match e
    case Spawn(t, start) =>
      if t !in s.threads && start.IsStart() then s.(threads := s.threads[t := start]) else s
    case Step(t, c) =>
      if t !in s.threads then s
      else
        var (w, pc) := Advance(s.w, t, s.threads[t], c);
        State(w, s.threads[t := pc])
    case Tick(elapsed) => s.(w := s.w.(now := s.w.now + elapsed))
    case SetAccount(user, account) => s.(w := s.w.(users := s.w.users[user := account]))
    case SetSessions(sessions) => s.(w := s.w.(sessions := sessions))
  }

  function Run(s: State, es: seq<Event>): State
    decreases |es|
  {
    if es == [] then s else Run(Apply(s, es[0]), es[1..])
  }

  /** One call run alone: step i of its thread takes choice i. */
  function Complete(w: World, t: ThreadId, pc: Pc, cs: seq<Choice>, i: nat): (World, Pc)
    decreases |cs| - i
  {
    if pc.Done? || |cs| <= i then (w, pc)
    else
      var (b, q) := Advance(w, t, pc, cs[i]);
      Complete(b, t, q, cs, i + 1)
  }

  lemma CompleteStep(w: World, t: ThreadId, pc: Pc, cs: seq<Choice>, i: nat)
    requires !pc.Done? && i < |cs|
    ensures var (b, q) := Advance(w, t, pc, cs[i]);
            && Complete(w, t, pc, cs, i) == Complete(b, t, q, cs, i + 1)
            && (q.Done? ==> Complete(w, t, pc, cs, i) == (b, q))
  {
  }

  const INITIAL := State(World(0, map[], map[], map[], []), map[])
}
