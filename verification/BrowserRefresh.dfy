/** One browser tab: API requests, the 401 interceptor, and the single-flight token refresh.

  The tab is event-driven. An event is a message arriving or a continuation running to its next
  await; any order the network and the scheduler choose is a sequence of events.
 */
module BrowserRefresh {
  import opened Common

  type Token = nat
  type FlightId = nat
  type RequestId = nat
  type BootId = nat

  /** What a refresh flight comes to. Rejected: no usable session (401, 403); Failed: anything else. */
  datatype Outcome = Restored(token: Token) | Rejected | Failed

  /** The reply to one POST /auth/refresh. */
  datatype Reply = Granted(token: Token) | NoToken | Conflict | Denied | Unreachable

  datatype FlightPhase = FirstSent | RetrySent | Settled(outcome: Outcome) | Cleared(outcome: Outcome)
  {
    predicate Over() { Settled? || Cleared? }
  }

  datatype Flight = Flight(posts: nat, phase: FlightPhase)

  datatype Answer = Success | AuthFailure | OtherFailure

  datatype RequestPhase = Sent | Waiting(flight: FlightId) | Answered(answer: Answer)

  /** `retried` is the source's _retry flag; `got` is what the awaited flight told this request. */
  datatype Request = Request(
    skips: bool, retried: bool, sends: nat, joined: seq<FlightId>, got: Option<Outcome>, phase: RequestPhase)

  datatype Status = Authenticated | Unauthenticated

  datatype BootPhase =
    | Refreshing(flight: FlightId)
    | Asking(request: RequestId)
    | Pausing
    | Left(status: Status)

  /** One run of the bootstrap loop. `direct` are the flights it awaited itself, `told` what those
    that are over told it, and `asked` the identity requests it made. */
  datatype Boot = Boot(
    attempt: nat, phase: BootPhase, direct: seq<FlightId>, told: seq<Outcome>, asked: seq<RequestId>)

  datatype Tab = Tab(
    accessToken: Option<Token>,
    inFlight: Option<FlightId>,
    flights: seq<Flight>,
    requests: seq<Request>,
    boots: seq<Boot>)

  const INITIAL := Tab(None, None, [], [], [])

  // ----- the refresh -----

  /** Join the open flight, or open one: the id to await. */
  function RefreshAccessToken(s: Tab): (Tab, FlightId) {
    match s.inFlight
    case Some(f) => (s, f)
    case None => (s.(inFlight := Some(|s.flights|), flights := s.flights + [Flight(1, FirstSent)]), |s.flights|)
  }

  /** A reply reaches the flight. A first 409 is retried once; a failure of that retry leaves the
    access token alone, every other failure clears it. */
  function OnReply(s: Tab, f: FlightId, reply: Reply): Tab
    requires f < |s.flights|
  {
    var fl := s.flights[f];
    match fl.phase
    case FirstSent =>
      if reply.Conflict? then s.(flights := s.flights[f := Flight(fl.posts + 1, RetrySent)])
      else Settle(s, f, OutcomeOf(reply), if reply.Granted? then Some(reply.token) else None)
    case RetrySent => Settle(s, f, OutcomeOf(reply), if reply.Granted? then Some(reply.token) else s.accessToken)
    case _ => s
  }

  function OutcomeOf(reply: Reply): Outcome {
    match reply
    case Granted(token) => Restored(token)
    case Denied => Rejected
    case _ => Failed
  }

  function Settle(s: Tab, f: FlightId, outcome: Outcome, token: Option<Token>): Tab
    requires f < |s.flights|
  {
    s.(accessToken := token, flights := s.flights[f := Flight(s.flights[f].posts, Settled(outcome))])
  }

  /** The `finally` that forgets the flight; whoever awaits it runs only afterwards. */
  function OnFinally(s: Tab, f: FlightId): Tab
    requires f < |s.flights|
  {
    match s.flights[f].phase
    case Settled(outcome) =>
      s.(inFlight := None, flights := s.flights[f := Flight(s.flights[f].posts, Cleared(outcome))])
    case _ => s
  }

  // ----- requests -----

  datatype HttpStatus = Fine | Status401 | Status403 | Broken

  function AnswerOf(status: HttpStatus): Answer {
    match status
    case Fine => Success
    case Status401 => AuthFailure
    case Status403 => AuthFailure
    case Broken => OtherFailure
  }

  function Send(s: Tab, skips: bool): Tab {
    s.(requests := s.requests + [Request(skips, false, 1, [], None, Sent)])
  }

  /** The response interceptor. */
  function OnResponse(s: Tab, r: RequestId, status: HttpStatus): Tab
    requires r < |s.requests|
  {
    var q := s.requests[r];
    if !q.phase.Sent? then s
    else if !status.Status401? || q.retried || q.skips then
      s.(requests := s.requests[r := q.(phase := Answered(AnswerOf(status)))])
    else
      var (z, f) := RefreshAccessToken(s);
      z.(requests := s.requests[r := q.(retried := true, joined := q.joined + [f], phase := Waiting(f))])
  }

  /** The interceptor's continuation once its flight is over: replay, or give up. */
  function OnWake(s: Tab, r: RequestId): Tab
    requires r < |s.requests|
  {
    var q := s.requests[r];
    if q.phase.Waiting? && q.phase.flight < |s.flights| && s.flights[q.phase.flight].phase.Cleared? then
      var outcome := s.flights[q.phase.flight].phase.outcome;
      var told := q.(got := Some(outcome));
      s.(requests := s.requests[r :=
        match outcome
        case Restored(_) => told.(sends := q.sends + 1, phase := Sent)
        case Rejected => told.(phase := Answered(AuthFailure))
        case Failed => told.(phase := Answered(OtherFailure))])
    else s
  }

  // ----- bootstrap -----

  function StartBoot(s: Tab): Tab {
    var (z, f) := RefreshAccessToken(s);
    z.(boots := s.boots + [Boot(0, Refreshing(f), [f], [], [])])
  }

  /** A failed attempt: certain failures end it, the first other failure is retried after a pause. */
  function AttemptFailed(b: Boot, authFailure: bool): Boot {
    if authFailure || b.attempt != 0 then b.(phase := Left(Unauthenticated)) else b.(phase := Pausing)
  }

  /** What a bootstrap waits for: its flight, its identity request, or the end of its pause. The
    request is the one it sends if the flight restored the session; the flight, the one it joins. */
  datatype Arrival =
    | FlightOver(outcome: Outcome, request: RequestId)
    | RequestOver(answer: Answer)
    | PauseOver(flight: FlightId)

  /** The continuation that runs then. */
  function Resume(b: Boot, a: Arrival): Boot {
    match (b.phase, a)
    case (Refreshing(_), FlightOver(outcome, request)) =>
      var told := b.(told := b.told + [outcome]);
      (match outcome
       case Restored(_) => told.(phase := Asking(request), asked := b.asked + [request])
       case Rejected => AttemptFailed(told, true)
       case Failed => AttemptFailed(told, false))
    case (Asking(_), RequestOver(answer)) =>
      (match answer
       case Success => b.(phase := Left(Authenticated))
       case AuthFailure => AttemptFailed(b, true)
       case OtherFailure => AttemptFailed(b, false))
    case (Pausing, PauseOver(flight)) =>
      b.(attempt := b.attempt + 1, phase := Refreshing(flight), direct := b.direct + [flight])
    case _ => b
  }

  /** The bootstrap's next continuation, if what it awaits has happened. */
  function OnBoot(s: Tab, b: BootId): Tab
    requires b < |s.boots|
  {
    var boot := s.boots[b];
    match boot.phase
    case Refreshing(f) =>
      if f < |s.flights| && s.flights[f].phase.Cleared? then
        var outcome := s.flights[f].phase.outcome;
        var z := if outcome.Restored? then Send(s, false) else s;
        z.(boots := s.boots[b := Resume(boot, FlightOver(outcome, |s.requests|))])
      else s
    case Asking(r) =>
      if r < |s.requests| && s.requests[r].phase.Answered? then
        s.(boots := s.boots[b := Resume(boot, RequestOver(s.requests[r].phase.answer))])
      else s
    case Pausing =>
      var (z, f) := RefreshAccessToken(s);
      z.(boots := s.boots[b := Resume(boot, PauseOver(f))])
    case Left(_) => s
  }

  // ----- runs -----

  datatype Event =
    | Issue(skips: bool)
    | Response(r: RequestId, status: HttpStatus)
    | RefreshReply(f: FlightId, reply: Reply)
    | Finally(f: FlightId)
    | Wake(r: RequestId)
    | Bootstrap
    | BootResumes(b: BootId)
    | SetAccessToken(token: Option<Token>)

  function Apply(s: Tab, e: Event): Tab {
    match e
    case Issue(skips) => Send(s, skips)
    case Response(r, status) => if r < |s.requests| then OnResponse(s, r, status) else s
    case RefreshReply(f, reply) => if f < |s.flights| then OnReply(s, f, reply) else s
    case Finally(f) => if f < |s.flights| then OnFinally(s, f) else s
    case Wake(r) => if r < |s.requests| then OnWake(s, r) else s
    case Bootstrap => StartBoot(s)
    case BootResumes(b) => if b < |s.boots| then OnBoot(s, b) else s
    case SetAccessToken(token) => s.(accessToken := token)
  }

  function Run(s: Tab, es: seq<Event>): Tab
    decreases |es|
  {
    if es == [] then s else Run(Apply(s, es[0]), es[1..])
  }
}
