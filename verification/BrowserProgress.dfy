/** The bootstrap gets out of `loading`, and what a failed refresh does to the access token. */
module BrowserProgress {
  import opened Common
  import opened BrowserRefresh
  import opened BrowserInvariant

  // ----- a bootstrap never gets stuck -----

  /** How far a bootstrap has got. */
  function BootRank(b: Boot): nat {
    match b.phase
    case Refreshing(_) => 3 * b.attempt
    case Asking(_) => 3 * b.attempt + 1
    case Pausing => 3 * b.attempt + 2
    case Left(_) => 6
  }

  /** What the bootstrap awaits has arrived. */
  predicate Ready(s: Tab, b: Boot) {
    match b.phase
    case Refreshing(f) => f < |s.flights| && s.flights[f].phase.Cleared?
    case Asking(r) => r < |s.requests| && s.requests[r].phase.Answered?
    case Pausing => true
    case Left(_) => false
  }

  /** In every reachable state a bootstrap's continuation runs exactly when what it awaits has
    arrived; each one takes it strictly further, and rank six is having left `loading`. */
  lemma BootstrapMoves(es: seq<Event>, b: BootId)
    requires b < |Run(INITIAL, es).boots|
    ensures var s := Run(INITIAL, es);
            var z := OnBoot(s, b);
            && b < |z.boots|
            && (z != s <==> Ready(s, s.boots[b]))
            && (z != s ==> BootRank(s.boots[b]) < BootRank(z.boots[b]) <= 6)
            && (s.boots[b].phase.Left? <==> BootRank(s.boots[b]) == 6)
  {
    RunKeepsInv(INITIAL, es);
    ReadyBootMoves(Run(INITIAL, es), b);
  }

  lemma ReadyBootMoves(s: Tab, b: BootId)
    requires Inv(s) && b < |s.boots|
    ensures var z := OnBoot(s, b);
            && b < |z.boots|
            && (Ready(s, s.boots[b]) ==> BootRank(s.boots[b]) < BootRank(z.boots[b]) <= 6)
            && (!Ready(s, s.boots[b]) ==> z == s)
            && (s.boots[b].phase.Left? <==> BootRank(s.boots[b]) == 6)
  {
    assert BootOk(s, s.boots[b]);
  }

  lemma RunOne(s: Tab, e: Event)
    ensures Run(s, [e]) == Apply(s, e)
  {
    assert Run(s, [e]) == Run(Apply(s, e), []);
  }

  lemma {:induction false} RunAppend(s: Tab, es: seq<Event>, fs: seq<Event>)
    ensures Run(s, es + fs) == Run(Run(s, es), fs)
    decreases |es|
  {
    if es == [] {
      assert es + fs == fs;
    } else {
      assert (es + fs)[0] == es[0] && (es + fs)[1..] == es[1..] + fs;
      RunAppend(Apply(s, es[0]), es[1..], fs);
    }
  }

  /** Same requests and bootstraps, and flight f is over. */
  ghost predicate OnlyClears(s: Tab, z: Tab, f: FlightId) {
    && z.requests == s.requests && z.boots == s.boots
    && f < |z.flights| && z.flights[f].phase.Cleared?
  }

  lemma FlightClears(s: Tab, f: FlightId) returns (es: seq<Event>)
    requires f < |s.flights|
    ensures OnlyClears(s, Run(s, es), f)
  {
    match s.flights[f].phase {
      case Cleared(_) => es := [];
      case Settled(_) =>
        es := [Finally(f)];
        RunOne(s, Finally(f));
      case _ =>
        var e := RefreshReply(f, Granted(0));
        es := [e] + [Finally(f)];
        RunAppend(s, [e], [Finally(f)]);
        RunOne(s, e);
        RunOne(Apply(s, e), Finally(f));
    }
  }

  ghost predicate OnlyAnswers(s: Tab, z: Tab, r: RequestId) {
    z.boots == s.boots && r < |z.requests| && z.requests[r].phase.Answered?
  }

  lemma SentIsAnswered(s: Tab, r: RequestId) returns (es: seq<Event>)
    requires r < |s.requests| && !s.requests[r].phase.Waiting?
    ensures OnlyAnswers(s, Run(s, es), r)
  {
    if s.requests[r].phase.Sent? {
      es := [Response(r, Fine)];
      RunOne(s, Response(r, Fine));
    } else {
      es := [];
    }
  }

  lemma RequestIsAnswered(s: Tab, r: RequestId) returns (es: seq<Event>)
    requires Inv(s) && r < |s.requests|
    ensures OnlyAnswers(s, Run(s, es), r)
  {
    var q := s.requests[r];
    if q.phase.Waiting? {
      assert RequestOk(s, q) && q.joined[0] == q.phase.flight;
      var clears := FlightClears(s, q.phase.flight);
      var m := Run(s, clears);
      var z := Apply(m, Wake(r));
      var answers := SentIsAnswered(z, r);
      es := clears + ([Wake(r)] + answers);
      RunAppend(s, clears, [Wake(r)] + answers);
      RunAppend(m, [Wake(r)], answers);
      RunOne(m, Wake(r));
    } else {
      es := SentIsAnswered(s, r);
    }
  }

  lemma BecomesReady(s: Tab, b: BootId) returns (es: seq<Event>)
    requires Inv(s) && b < |s.boots| && !s.boots[b].phase.Left?
    ensures var z := Run(s, es); z.boots == s.boots && Ready(z, s.boots[b])
  {
    assert BootOk(s, s.boots[b]);
    match s.boots[b].phase {
      case Refreshing(f) => es := FlightClears(s, f);
      case Asking(r) => es := RequestIsAnswered(s, r);
      case _ => es := [];
    }
  }

  lemma {:induction false} BootLeaves(s: Tab, b: BootId) returns (es: seq<Event>)
    requires Inv(s) && b < |s.boots|
    ensures b < |Run(s, es).boots| && Run(s, es).boots[b].phase.Left?
    decreases 6 - BootRank(s.boots[b])
  {
    ReadyBootMoves(s, b);
    if s.boots[b].phase.Left? {
      es := [];
    } else {
      var ready := BecomesReady(s, b);
      var m := Run(s, ready);
      RunKeepsInv(s, ready);
      ReadyBootMoves(m, b);
      var z := Apply(m, BootResumes(b));
      EventKeepsInv(m, BootResumes(b));
      ReadyBootMoves(z, b);
      var rest := BootLeaves(z, b);
      es := ready + ([BootResumes(b)] + rest);
      RunAppend(s, ready, [BootResumes(b)] + rest);
      RunAppend(m, [BootResumes(b)], rest);
      RunOne(m, BootResumes(b));
    }
  }

  /** From every reachable state every bootstrap can be brought out of `loading`. */
  lemma BootstrapEnds(es: seq<Event>, b: BootId)
    requires b < |Run(INITIAL, es).boots|
    ensures exists more :: var z := Run(Run(INITIAL, es), more); b < |z.boots| && z.boots[b].phase.Left?
  {
    RunKeepsInv(INITIAL, es);
    var more := BootLeaves(Run(INITIAL, es), b);
  }

  // ----- the access token after a failed refresh -----

  /** The reply ends the flight without a token. */
  predicate EndsInVain(s: Tab, f: FlightId, reply: Reply) {
    && f < |s.flights| && !s.flights[f].phase.Over() && !reply.Granted?
    && OnReply(s, f, reply).flights[f].phase.Settled?
  }

  /** In every reachable state, a reply that ends a flight without a token clears the access token if
    and only if the flight made a single POST; if it was retried after a 409 the old token stays. */
  lemma FailedRefreshClearsIff(es: seq<Event>, f: FlightId, reply: Reply)
    requires EndsInVain(Run(INITIAL, es), f, reply)
    ensures var s := Run(INITIAL, es);
            var z := OnReply(s, f, reply);
            && z.accessToken == (if z.flights[f].posts == 1 then None else s.accessToken)
            && (s.accessToken.Some? ==> (z.accessToken.None? <==> z.flights[f].posts == 1))
  {
    RunKeepsInv(INITIAL, es);
    assert FlightOk(Run(INITIAL, es).flights[f]);
  }

  /** A session the server has refused, while the tab still holds a token. */
  ghost predicate RefusedWithToken(s: Tab, token: Token) {
    s.accessToken == Some(token) && exists f :: 0 <= f < |s.flights| && s.flights[f].phase == Cleared(Rejected)
  }

  /** So whatever token the tab holds, some run ends with the session refused and that token kept. */
  lemma RefusedRetryKeepsToken(token: Token)
    ensures exists es :: RefusedWithToken(Run(INITIAL, es), token)
  {
    var story := [SetAccessToken(Some(token)), Bootstrap, RefreshReply(0, Conflict), RefreshReply(0, Denied), Finally(0)];
    var s1 := Apply(INITIAL, story[0]);
    var s2 := Apply(s1, story[1]);
    var s3 := Apply(s2, story[2]);
    var s4 := Apply(s3, story[3]);
    var s5 := Apply(s4, story[4]);
    assert story[4..][1..] == [] && story[3..][1..] == story[4..] && story[2..][1..] == story[3..];
    assert Run(s3, story[3..]) == Run(s4, story[4..]) == s5;
    assert Run(s2, story[2..]) == Run(s3, story[3..]);
    assert story[1..][1..] == story[2..] && Run(s1, story[1..]) == Run(s2, story[2..]);
    assert s5.flights[0].phase == Cleared(Rejected);
    assert RefusedWithToken(Run(INITIAL, story), token);
  }
}
