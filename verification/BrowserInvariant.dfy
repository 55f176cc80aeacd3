/** What every event of the tab keeps. */
module BrowserInvariant {
  import opened Common
  import opened BrowserRefresh

  ghost predicate Inv(s: Tab) {
    && SingleFlight(s)
    && (forall f :: 0 <= f < |s.flights| ==> FlightOk(s.flights[f]))
    && (forall r :: 0 <= r < |s.requests| ==> RequestOk(s, s.requests[r]))
    && (forall b :: 0 <= b < |s.boots| ==> BootOk(s, s.boots[b]))
  }

  /** Every flight but the remembered one has been forgotten, so at most one is open. */
  ghost predicate SingleFlight(s: Tab) {
    && (s.inFlight.Some? ==> s.inFlight.value < |s.flights|)
    && forall f :: 0 <= f < |s.flights| ==> (s.flights[f].phase.Cleared? <==> s.inFlight != Some(f))
  }

  predicate FlightOk(f: Flight) {
    match f.phase
    case FirstSent => f.posts == 1
    case RetrySent => f.posts == 2
    case _ => 1 <= f.posts <= 2
  }

  ghost predicate RequestOk(s: Tab, q: Request) {
    && (forall i :: 0 <= i < |q.joined| ==> q.joined[i] < |s.flights|)
    && |q.joined| == (if q.retried then 1 else 0)
    && (q.skips ==> !q.retried)
    && (q.got.Some? ==> q.retried && s.flights[q.joined[0]].phase == Cleared(q.got.value))
    && q.sends == (if q.got.Some? && q.got.value.Restored? then 2 else 1)
    && (q.phase.Waiting? <==> q.retried && q.got.None?)
    && (q.phase.Waiting? ==> q.joined == [q.phase.flight])
  }

  ghost predicate BootOk(s: Tab, b: Boot) {
    && b.attempt <= 1
    && |b.direct| == b.attempt + 1
    && |b.told| == (if b.phase.Refreshing? then b.attempt else b.attempt + 1)
    && (forall i :: 0 <= i < |b.direct| ==> b.direct[i] < |s.flights|)
    && (forall i :: 0 <= i < |b.told| ==> s.flights[b.direct[i]].phase == Cleared(b.told[i]))
    && (b.phase.Refreshing? ==> b.phase.flight == b.direct[b.attempt])
    && (b.phase.Asking? ==> b.phase.request < |s.requests|)
    && (forall i :: 0 <= i < |b.asked| ==> b.asked[i] < |s.requests|)
    && |b.asked| == Restores(b.told)
    && BootReasons(s, b)
  }

  /** A bootstrap's phase follows from what its flights and identity requests came to. */
  ghost predicate BootReasons(s: Tab, b: Boot) {
    && (b.attempt == 1 ==> Unclear(s, b, 0))
    && match b.phase
       case Refreshing(_) => true
       case Asking(r) => Attempted(b, b.attempt) && b.told[b.attempt].Restored? && r == Asked(b, b.attempt)
       case Pausing => b.attempt == 0 && Unclear(s, b, 0)
       case Left(Authenticated) => Answers(s, b, b.attempt, Success)
       case Left(Unauthenticated) =>
         || (Attempted(b, b.attempt) && b.told[b.attempt] == Rejected)
         || Answers(s, b, b.attempt, AuthFailure)
         || (b.attempt == 1 && Unclear(s, b, 1))
  }

  function Restores(told: seq<Outcome>): nat {
    (if |told| > 0 && told[0].Restored? then 1 else 0) + (if |told| > 1 && told[1].Restored? then 1 else 0)
  }

  /** Attempt i is past its refresh. */
  predicate Attempted(b: Boot, i: nat) {
    i < |b.told| <= 2 && |b.asked| == Restores(b.told)
  }

  /** The identity request of an attempt that restored the session. */
  function Asked(b: Boot, i: nat): RequestId
    requires Attempted(b, i) && b.told[i].Restored?
  {
    if i == 0 then b.asked[0] else b.asked[|b.asked| - 1]
  }

  /** Attempt i restored the session, and its identity request came to this answer. */
  predicate Answers(s: Tab, b: Boot, i: nat, answer: Answer) {
    && Attempted(b, i) && b.told[i].Restored?
    && Asked(b, i) < |s.requests| && s.requests[Asked(b, i)].phase == Answered(answer)
  }

  /** Attempt i failed in a way that does not mean "signed out". */
  predicate Unclear(s: Tab, b: Boot, i: nat) {
    Attempted(b, i) && (b.told[i] == Failed || Answers(s, b, i, OtherFailure))
  }

  /** Flights are never reopened, and neither flights nor answers change their minds; requests keep
    what they have joined. */
  ghost predicate Later(s: Tab, z: Tab) {
    && |s.flights| <= |z.flights| && |s.requests| <= |z.requests| && |s.boots| <= |z.boots|
    && (forall f :: 0 <= f < |s.flights| ==> FlightLater(s.flights[f].phase, z.flights[f].phase))
    && (forall r :: 0 <= r < |s.requests| ==> RequestLater(s.requests[r], z.requests[r]))
  }

  predicate RequestLater(q: Request, p: Request) {
    q.joined <= p.joined && (q.phase.Answered? ==> p.phase == q.phase)
  }

  predicate FlightLater(p: FlightPhase, q: FlightPhase) {
    && (p.Over() ==> q.Over() && q.outcome == p.outcome)
    && (p.Cleared? ==> q.Cleared?)
  }

  lemma BootPersists(s: Tab, z: Tab, b: Boot)
    requires BootOk(s, b) && Later(s, z)
    ensures BootOk(z, b)
  {
  }

  lemma JoinKeeps(s: Tab)
    requires Inv(s)
    ensures var (z, f) := RefreshAccessToken(s);
            && Inv(z) && Later(s, z)
            && f < |z.flights| && z.inFlight == Some(f)
            && z.requests == s.requests && z.boots == s.boots
  {
    var (z, f) := RefreshAccessToken(s);
    forall r | 0 <= r < |z.requests| ensures RequestOk(z, z.requests[r]) {
      assert RequestOk(s, s.requests[r]);
    }
    forall b | 0 <= b < |z.boots| ensures BootOk(z, z.boots[b]) {
      BootPersists(s, z, s.boots[b]);
    }
  }

  lemma FlightMoves(s: Tab, z: Tab, f: FlightId)
    requires Inv(s) && f < |s.flights| && !s.flights[f].phase.Cleared?
    requires |z.flights| == |s.flights| && z.flights == s.flights[f := z.flights[f]]
    requires z.requests == s.requests && z.boots == s.boots
    requires FlightOk(z.flights[f]) && FlightLater(s.flights[f].phase, z.flights[f].phase) && SingleFlight(z)
    ensures Inv(z) && Later(s, z)
  {
    forall r | 0 <= r < |z.requests| ensures RequestOk(z, z.requests[r]) {
      assert RequestOk(s, s.requests[r]);
    }
    forall b | 0 <= b < |z.boots| ensures BootOk(z, z.boots[b]) {
      BootPersists(s, z, s.boots[b]);
    }
  }

  lemma RequestMoves(s: Tab, r: RequestId, q: Request)
    requires Inv(s) && r < |s.requests| && RequestOk(s, q) && RequestLater(s.requests[r], q)
    ensures Inv(s.(requests := s.requests[r := q])) && Later(s, s.(requests := s.requests[r := q]))
  {
    var z := s.(requests := s.requests[r := q]);
    forall t | 0 <= t < |z.requests| ensures RequestOk(z, z.requests[t]) {
      assert RequestOk(s, s.requests[t]);
    }
    forall b | 0 <= b < |z.boots| ensures BootOk(z, z.boots[b]) {
      BootPersists(s, z, s.boots[b]);
    }
  }

  lemma BootsMove(s: Tab, boots: seq<Boot>)
    requires Inv(s) && |s.boots| <= |boots|
    requires forall b :: 0 <= b < |boots| ==> BootOk(s, boots[b])
    ensures Inv(s.(boots := boots)) && Later(s, s.(boots := boots))
  {
    var z := s.(boots := boots);
    forall t | 0 <= t < |z.requests| ensures RequestOk(z, z.requests[t]) {
      assert RequestOk(s, s.requests[t]);
    }
  }

  lemma SendKeeps(s: Tab, skips: bool)
    requires Inv(s)
    ensures Inv(Send(s, skips)) && Later(s, Send(s, skips))
  {
    var z := Send(s, skips);
    forall t | 0 <= t < |z.requests| ensures RequestOk(z, z.requests[t]) {
      if t < |s.requests| { assert RequestOk(s, s.requests[t]); }
    }
    forall b | 0 <= b < |z.boots| ensures BootOk(z, z.boots[b]) {
      BootPersists(s, z, s.boots[b]);
    }
  }

  lemma LaterIsTransitive(a: Tab, b: Tab, c: Tab)
    requires Later(a, b) && Later(b, c)
    ensures Later(a, c)
  {
    forall f | 0 <= f < |a.flights| ensures FlightLater(a.flights[f].phase, c.flights[f].phase) {
      assert FlightLater(a.flights[f].phase, b.flights[f].phase) && FlightLater(b.flights[f].phase, c.flights[f].phase);
    }
    forall r | 0 <= r < |a.requests| ensures RequestLater(a.requests[r], c.requests[r]) {
      assert RequestLater(a.requests[r], b.requests[r]) && RequestLater(b.requests[r], c.requests[r]);
    }
  }

  lemma ReplyKeeps(s: Tab, f: FlightId, reply: Reply)
    requires Inv(s) && f < |s.flights|
    ensures Inv(OnReply(s, f, reply)) && Later(s, OnReply(s, f, reply))
  {
    var z := OnReply(s, f, reply);
    assert FlightOk(s.flights[f]);
    if !s.flights[f].phase.Over() {
      FlightMoves(s, z, f);
    }
  }

  lemma FinallyKeeps(s: Tab, f: FlightId)
    requires Inv(s) && f < |s.flights|
    ensures Inv(OnFinally(s, f)) && Later(s, OnFinally(s, f))
  {
    var z := OnFinally(s, f);
    assert FlightOk(s.flights[f]);
    if s.flights[f].phase.Settled? {
      FlightMoves(s, z, f);
    }
  }

  lemma ResponseKeeps(s: Tab, r: RequestId, status: HttpStatus)
    requires Inv(s) && r < |s.requests|
    ensures Inv(OnResponse(s, r, status)) && Later(s, OnResponse(s, r, status))
  {
    var q := s.requests[r];
    assert RequestOk(s, q);
    if q.phase.Sent? {
      if !status.Status401? || q.retried || q.skips {
        RequestMoves(s, r, q.(phase := Answered(AnswerOf(status))));
      } else {
        JoinKeeps(s);
        var (z, f) := RefreshAccessToken(s);
        RequestMoves(z, r, q.(retried := true, joined := q.joined + [f], phase := Waiting(f)));
        LaterIsTransitive(s, z, OnResponse(s, r, status));
      }
    }
  }

  lemma WakeKeeps(s: Tab, r: RequestId)
    requires Inv(s) && r < |s.requests|
    ensures Inv(OnWake(s, r)) && Later(s, OnWake(s, r))
  {
    var z := OnWake(s, r);
    assert RequestOk(s, s.requests[r]);
    if z != s {
      RequestMoves(s, r, z.requests[r]);
    }
  }

  lemma SetBoot(s: Tab, m: Tab, b: BootId, boot: Boot)
    requires Inv(s) && Inv(m) && Later(s, m) && m.boots == s.boots && b < |s.boots| && BootOk(m, boot)
    ensures Inv(m.(boots := s.boots[b := boot])) && Later(s, m.(boots := s.boots[b := boot]))
  {
    var boots := s.boots[b := boot];
    forall c | 0 <= c < |boots| ensures BootOk(m, boots[c]) {
      if c != b { assert BootOk(m, m.boots[c]); }
    }
    BootsMove(m, boots);
    LaterIsTransitive(s, m, m.(boots := boots));
  }

  lemma LaterIsReflexive(s: Tab)
    ensures Later(s, s)
  {
  }

  lemma FlightOverKeeps(s: Tab, b: Boot, outcome: Outcome, r: RequestId)
    requires BootOk(s, b) && b.phase.Refreshing? && s.flights[b.phase.flight].phase == Cleared(outcome)
    requires outcome.Restored? ==> r < |s.requests|
    ensures BootOk(s, Resume(b, FlightOver(outcome, r)))
  {
  }

  lemma RefreshedBootKeeps(s: Tab, b: BootId)
    requires Inv(s) && b < |s.boots| && s.boots[b].phase.Refreshing?
    ensures Inv(OnBoot(s, b)) && Later(s, OnBoot(s, b))
  {
    var boot := s.boots[b];
    var f := boot.phase.flight;
    assert BootOk(s, boot);
    LaterIsReflexive(s);
    if s.flights[f].phase.Cleared? {
      var outcome := s.flights[f].phase.outcome;
      var m := if outcome.Restored? then Send(s, false) else s;
      SendKeeps(s, false);
      BootPersists(s, m, boot);
      FlightOverKeeps(m, boot, outcome, |s.requests|);
      SetBoot(s, m, b, Resume(boot, FlightOver(outcome, |s.requests|)));
    }
  }

  lemma RequestOverKeeps(s: Tab, b: Boot, answer: Answer)
    requires BootOk(s, b) && b.phase.Asking? && s.requests[b.phase.request].phase == Answered(answer)
    ensures BootOk(s, Resume(b, RequestOver(answer)))
  {
  }

  lemma AnsweredBootKeeps(s: Tab, b: BootId)
    requires Inv(s) && b < |s.boots| && s.boots[b].phase.Asking?
    ensures Inv(OnBoot(s, b)) && Later(s, OnBoot(s, b))
  {
    var boot := s.boots[b];
    var r := boot.phase.request;
    assert BootOk(s, boot);
    LaterIsReflexive(s);
    if s.requests[r].phase.Answered? {
      RequestOverKeeps(s, boot, s.requests[r].phase.answer);
      SetBoot(s, s, b, Resume(boot, RequestOver(s.requests[r].phase.answer)));
    }
  }

  lemma PausedBootKeeps(s: Tab, b: BootId)
    requires Inv(s) && b < |s.boots| && s.boots[b].phase.Pausing?
    ensures Inv(OnBoot(s, b)) && Later(s, OnBoot(s, b))
  {
    var boot := s.boots[b];
    assert BootOk(s, boot);
    JoinKeeps(s);
    var (m, f) := RefreshAccessToken(s);
    SetBoot(s, m, b, Resume(boot, PauseOver(f)));
  }

  lemma BootKeeps(s: Tab, b: BootId)
    requires Inv(s) && b < |s.boots|
    ensures Inv(OnBoot(s, b)) && Later(s, OnBoot(s, b))
  {
    match s.boots[b].phase {
      case Refreshing(_) => RefreshedBootKeeps(s, b);
      case Asking(_) => AnsweredBootKeeps(s, b);
      case Pausing => PausedBootKeeps(s, b);
      case Left(_) => LaterIsReflexive(s);
    }
  }

  lemma StartKeeps(s: Tab)
    requires Inv(s)
    ensures Inv(StartBoot(s)) && Later(s, StartBoot(s))
  {
    JoinKeeps(s);
    var (m, f) := RefreshAccessToken(s);
    BootsMove(m, StartBoot(s).boots);
    LaterIsTransitive(s, m, StartBoot(s));
  }

  lemma TokenKeeps(s: Tab, token: Option<Token>)
    requires Inv(s)
    ensures Inv(s.(accessToken := token)) && Later(s, s.(accessToken := token))
  {
    var z := s.(accessToken := token);
    forall t | 0 <= t < |z.requests| ensures RequestOk(z, z.requests[t]) {
      assert RequestOk(s, s.requests[t]);
    }
    forall b | 0 <= b < |z.boots| ensures BootOk(z, z.boots[b]) {
      BootPersists(s, z, s.boots[b]);
    }
  }

  lemma EventKeepsInv(s: Tab, e: Event)
    requires Inv(s)
    ensures Inv(Apply(s, e)) && Later(s, Apply(s, e))
  {
    match e {
      case Issue(skips) => SendKeeps(s, skips);
      case Response(r, status) => if r < |s.requests| { ResponseKeeps(s, r, status); }
      case RefreshReply(f, reply) => if f < |s.flights| { ReplyKeeps(s, f, reply); }
      case Finally(f) => if f < |s.flights| { FinallyKeeps(s, f); }
      case Wake(r) => if r < |s.requests| { WakeKeeps(s, r); }
      case Bootstrap => StartKeeps(s);
      case BootResumes(b) => if b < |s.boots| { BootKeeps(s, b); }
      case SetAccessToken(token) => TokenKeeps(s, token);
    }
  }

  lemma {:induction false} RunKeepsInv(s: Tab, es: seq<Event>)
    requires Inv(s)
    ensures Inv(Run(s, es)) && Later(s, Run(s, es))
    decreases |es|
  {
    if es != [] {
      EventKeepsInv(s, es[0]);
      RunKeepsInv(Apply(s, es[0]), es[1..]);
      LaterIsTransitive(s, Apply(s, es[0]), Run(s, es));
    }
  }
}
