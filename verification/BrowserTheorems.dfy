/** Cost and agreement of the browser's refresh, over any order of events. */
module BrowserTheorems {
  import opened Common
  import opened BrowserRefresh
  import opened BrowserInvariant

  /** Over any order of events: at most one flight is open, and a flight costs at most two POSTs. */
  lemma OneFlightTwoPosts(es: seq<Event>, f: FlightId, g: FlightId)
    requires f < |Run(INITIAL, es).flights| && g < |Run(INITIAL, es).flights|
    ensures var s := Run(INITIAL, es);
            && 1 <= s.flights[f].posts <= 2
            && (!s.flights[f].phase.Cleared? && !s.flights[g].phase.Cleared? ==> f == g && s.inFlight == Some(f))
  {
    RunKeepsInv(INITIAL, es);
    assert FlightOk(Run(INITIAL, es).flights[f]);
  }

  /** Over any order of events: a request is sent at most twice, joins at most one flight, and is
    sent a second time exactly when that flight restored the session. The authentication endpoints
    themselves never join one. */
  lemma RequestCost(es: seq<Event>, r: RequestId)
    requires r < |Run(INITIAL, es).requests|
    ensures var q := Run(INITIAL, es).requests[r];
            && 1 <= q.sends <= 2 && |q.joined| <= 1
            && (q.sends == 2 <==> q.got.Some? && q.got.value.Restored?)
            && (q.skips ==> q.sends == 1 && q.joined == [])
  {
    RunKeepsInv(INITIAL, es);
    assert RequestOk(Run(INITIAL, es), Run(INITIAL, es).requests[r]);
  }

  /** Somebody who awaited flight f, a request or a bootstrap, was told this outcome. */
  ghost predicate Told(s: Tab, f: FlightId, outcome: Outcome) {
    || (exists r :: 0 <= r < |s.requests| && s.requests[r].joined == [f] && s.requests[r].got == Some(outcome))
    || (exists b :: 0 <= b < |s.boots| && ToldBoot(s.boots[b], f, outcome))
  }

  ghost predicate ToldBoot(b: Boot, f: FlightId, outcome: Outcome) {
    exists i :: 0 <= i < |b.told| && i < |b.direct| && b.direct[i] == f && b.told[i] == outcome
  }

  lemma ToldTheOutcome(s: Tab, f: FlightId, outcome: Outcome)
    requires Inv(s) && Told(s, f, outcome)
    ensures f < |s.flights| && s.flights[f].phase == Cleared(outcome)
  {
    if r :| 0 <= r < |s.requests| && s.requests[r].joined == [f] && s.requests[r].got == Some(outcome) {
      assert RequestOk(s, s.requests[r]);
    } else {
      var b :| 0 <= b < |s.boots| && ToldBoot(s.boots[b], f, outcome);
      assert BootOk(s, s.boots[b]);
    }
  }

  /** Everyone who awaited one flight, requests and bootstraps alike, was told the same, at whatever
    time they were told. */
  lemma WaitersAgree(es: seq<Event>, more: seq<Event>, f: FlightId, x: Outcome, y: Outcome)
    requires Told(Run(INITIAL, es), f, x) && Told(Run(Run(INITIAL, es), more), f, y)
    ensures x == y
  {
    var s, z := Run(INITIAL, es), Run(Run(INITIAL, es), more);
    RunKeepsInv(INITIAL, es);
    RunKeepsInv(s, more);
    ToldTheOutcome(s, f, x);
    ToldTheOutcome(z, f, y);
    assert FlightLater(s.flights[f].phase, z.flights[f].phase);
  }

  /** The flights a bootstrap awaited itself, and those its identity requests awaited. */
  ghost function FlightsOf(s: Tab, b: Boot): set<FlightId>
    requires forall i :: 0 <= i < |b.asked| ==> b.asked[i] < |s.requests|
  {
    (set i | 0 <= i < |b.direct| :: b.direct[i]) +
    (set i, j | 0 <= i < |b.asked| && 0 <= j < |s.requests[b.asked[i]].joined| :: s.requests[b.asked[i]].joined[j])
  }

  function Posts(flights: seq<Flight>, fs: seq<FlightId>): nat
    requires forall i :: 0 <= i < |fs| ==> fs[i] < |flights|
  {
    if fs == [] then 0 else flights[fs[0]].posts + Posts(flights, fs[1..])
  }

  lemma {:induction false} TwoPostsEach(flights: seq<Flight>, fs: seq<FlightId>)
    requires forall i :: 0 <= i < |fs| ==> fs[i] < |flights|
    requires forall f :: 0 <= f < |flights| ==> FlightOk(flights[f])
    ensures Posts(flights, fs) <= 2 * |fs|
    decreases |fs|
  {
    if fs != [] {
      assert FlightOk(flights[fs[0]]);
      TwoPostsEach(flights, fs[1..]);
    }
  }

  lemma SmallCover(fs: set<FlightId>, n: nat, cover: seq<FlightId>)
    requires |cover| <= n && forall f :: f in fs ==> f in cover
    ensures |fs| <= n
    decreases |cover|
  {
    if cover == [] {
      assert fs == {};
    } else {
      SmallCover(fs - {cover[0]}, n - 1, cover[1..]);
    }
  }

  function Joined(s: Tab, rs: seq<RequestId>): seq<FlightId>
    requires forall i :: 0 <= i < |rs| ==> rs[i] < |s.requests|
  {
    if rs == [] then [] else s.requests[rs[0]].joined + Joined(s, rs[1..])
  }

  lemma {:induction false} JoinedIsShort(s: Tab, rs: seq<RequestId>)
    requires Inv(s) && forall i :: 0 <= i < |rs| ==> rs[i] < |s.requests|
    ensures |Joined(s, rs)| <= |rs|
    decreases |rs|
  {
    if rs != [] {
      assert RequestOk(s, s.requests[rs[0]]);
      JoinedIsShort(s, rs[1..]);
    }
  }

  lemma {:induction false} JoinedHasAll(s: Tab, rs: seq<RequestId>, i: nat, f: FlightId)
    requires forall i :: 0 <= i < |rs| ==> rs[i] < |s.requests|
    requires i < |rs| && f in s.requests[rs[i]].joined
    ensures f in Joined(s, rs)
    decreases |rs|
  {
    if i > 0 {
      JoinedHasAll(s, rs[1..], i - 1, f);
    }
  }

  lemma {:induction false} ListFits(fs: seq<FlightId>, all: set<FlightId>)
    requires forall i :: 0 <= i < |fs| ==> fs[i] in all
    requires forall i, j :: 0 <= i < j < |fs| ==> fs[i] != fs[j]
    ensures |fs| <= |all|
    decreases |fs|
  {
    if fs != [] {
      ListFits(fs[1..], all - {fs[0]});
    }
  }

  /** fs lists, without repetition, flights that bootstrap b awaited or its requests awaited. */
  ghost predicate Lists(s: Tab, b: BootId, fs: seq<FlightId>) {
    && b < |s.boots|
    && (forall i :: 0 <= i < |s.boots[b].asked| ==> s.boots[b].asked[i] < |s.requests|)
    && (forall i :: 0 <= i < |fs| ==> fs[i] < |s.flights| && fs[i] in FlightsOf(s, s.boots[b]))
    && (forall i, j :: 0 <= i < j < |fs| ==> fs[i] != fs[j])
  }

  /** Over any order of events: a bootstrap makes at most two attempts, and all the flights it
    causes or joins are at most four, with at most eight refresh POSTs between them. */
  lemma BootstrapCost(es: seq<Event>, b: BootId, fs: seq<FlightId>)
    requires Lists(Run(INITIAL, es), b, fs)
    ensures var s := Run(INITIAL, es);
            s.boots[b].attempt <= 1 && |fs| <= 4 && Posts(s.flights, fs) <= 8
  {
    var s := Run(INITIAL, es);
    RunKeepsInv(INITIAL, es);
    var boot := s.boots[b];
    assert BootOk(s, boot);
    var cover := boot.direct + Joined(s, boot.asked);
    JoinedIsShort(s, boot.asked);
    forall f | f in FlightsOf(s, boot) ensures f in cover {
      if i, j :| 0 <= i < |boot.asked| && 0 <= j < |s.requests[boot.asked[i]].joined|
                 && s.requests[boot.asked[i]].joined[j] == f {
        JoinedHasAll(s, boot.asked, i, f);
      }
    }
    SmallCover(FlightsOf(s, boot), 4, cover);
    ListFits(fs, FlightsOf(s, boot));
    TwoPostsEach(s.flights, fs);
  }

  /** Over any order of events: a bootstrap ends signed in if and only if its last refresh restored the
    session and the identity request it then made came back with success. Ending signed out means
    that the last refresh was rejected, that its identity request was, or that the second attempt
    failed in some other way; and a second attempt is made only after the first one failed so. */
  lemma BootstrapVerdict(es: seq<Event>, b: BootId)
    requires b < |Run(INITIAL, es).boots| && Run(INITIAL, es).boots[b].phase.Left?
    ensures var s := Run(INITIAL, es); var boot := s.boots[b]; var last := boot.attempt;
            && |boot.told| == last + 1 <= 2
            && (boot.phase == Left(Authenticated) <==>
                  && boot.told[last].Restored? && boot.asked != []
                  && Phase(s, boot.asked[|boot.asked| - 1]) == Some(Answered(Success)))
            && (boot.phase == Left(Unauthenticated) <==>
                  || boot.told[last] == Rejected
                  || (boot.told[last].Restored? && boot.asked != []
                      && Phase(s, boot.asked[|boot.asked| - 1]) == Some(Answered(AuthFailure)))
                  || (last == 1 && boot.told[last] == Failed)
                  || (last == 1 && boot.told[last].Restored? && boot.asked != []
                      && Phase(s, boot.asked[|boot.asked| - 1]) == Some(Answered(OtherFailure))))
            && (last == 1 ==>
                  || boot.told[0] == Failed
                  || (boot.told[0].Restored? && boot.asked != []
                      && Phase(s, boot.asked[0]) == Some(Answered(OtherFailure))))
  {
    RunKeepsInv(INITIAL, es);
    assert BootOk(Run(INITIAL, es), Run(INITIAL, es).boots[b]);
  }

  function Phase(s: Tab, r: RequestId): Option<RequestPhase> {
    if r < |s.requests| then Some(s.requests[r].phase) else None
  }

  // ----- total cost -----

  /** Every flight was opened by a request or a bootstrap, which then awaited it. */
  ghost predicate EveryFlightAwaited(s: Tab) {
    forall f :: 0 <= f < |s.flights| ==> Awaited(s, f)
  }

  ghost predicate Awaited(s: Tab, f: FlightId) {
    || (exists r :: 0 <= r < |s.requests| && f in s.requests[r].joined)
    || (exists b :: 0 <= b < |s.boots| && f in s.boots[b].direct)
  }

  ghost predicate KeepsAwaited(s: Tab, z: Tab) {
    && |s.requests| <= |z.requests| && |s.boots| <= |z.boots|
    && (forall r :: 0 <= r < |s.requests| ==> s.requests[r].joined <= z.requests[r].joined)
    && (forall b :: 0 <= b < |s.boots| ==> s.boots[b].direct <= z.boots[b].direct)
  }

  lemma StaysAwaited(s: Tab, z: Tab, f: FlightId)
    requires KeepsAwaited(s, z) && Awaited(s, f)
    ensures Awaited(z, f)
  {
    if r :| 0 <= r < |s.requests| && f in s.requests[r].joined {
      assert f in z.requests[r].joined;
    } else {
      var b :| 0 <= b < |s.boots| && f in s.boots[b].direct;
      assert f in z.boots[b].direct;
    }
  }

  lemma EventKeepsAwaited(s: Tab, e: Event)
    requires EveryFlightAwaited(s)
    ensures EveryFlightAwaited(Apply(s, e))
  {
    var z := Apply(s, e);
    var f := |s.flights|;
    if |z.flights| > f {
      NewFlightIsAwaited(s, e);
    }
    forall g | 0 <= g < |z.flights| ensures Awaited(z, g) {
      if g < f {
        EventKeepsJoins(s, e);
        StaysAwaited(s, z, g);
      }
    }
  }

  lemma EventKeepsJoins(s: Tab, e: Event)
    ensures KeepsAwaited(s, Apply(s, e))
  {
  }

  lemma NewFlightIsAwaited(s: Tab, e: Event)
    requires |Apply(s, e).flights| > |s.flights|
    ensures |Apply(s, e).flights| == |s.flights| + 1 && Awaited(Apply(s, e), |s.flights|)
  {
    var z, f := Apply(s, e), |s.flights|;
    match e {
      case Response(r, _) => assert z.requests[r].joined[|s.requests[r].joined|] == f;
      case Bootstrap => assert z.boots[|s.boots|].direct[0] == f;
      case BootResumes(b) => assert z.boots[b].direct[|s.boots[b].direct|] == f;
      case _ =>
    }
  }

  lemma {:induction false} RunKeepsAwaited(s: Tab, es: seq<Event>)
    requires EveryFlightAwaited(s)
    ensures EveryFlightAwaited(Run(s, es))
    decreases |es|
  {
    if es != [] {
      EventKeepsAwaited(s, es[0]);
      RunKeepsAwaited(Apply(s, es[0]), es[1..]);
    }
  }

  function AllJoined(requests: seq<Request>): seq<FlightId> {
    if requests == [] then [] else requests[0].joined + AllJoined(requests[1..])
  }

  function AllDirect(boots: seq<Boot>): seq<FlightId> {
    if boots == [] then [] else boots[0].direct + AllDirect(boots[1..])
  }

  lemma {:induction false} AllJoinedFacts(requests: seq<Request>)
    requires forall r :: 0 <= r < |requests| ==> |requests[r].joined| <= 1
    ensures |AllJoined(requests)| <= |requests|
    ensures forall r, f :: 0 <= r < |requests| && f in requests[r].joined ==> f in AllJoined(requests)
    decreases |requests|
  {
    if requests != [] {
      AllJoinedFacts(requests[1..]);
      forall r, f | 0 <= r < |requests| && f in requests[r].joined ensures f in AllJoined(requests) {
        if r > 0 { assert requests[r] == requests[1..][r - 1]; }
      }
    }
  }

  lemma {:induction false} AllDirectFacts(boots: seq<Boot>)
    requires forall b :: 0 <= b < |boots| ==> |boots[b].direct| <= 2
    ensures |AllDirect(boots)| <= 2 * |boots|
    ensures forall b, f :: 0 <= b < |boots| && f in boots[b].direct ==> f in AllDirect(boots)
    decreases |boots|
  {
    if boots != [] {
      AllDirectFacts(boots[1..]);
      forall b, f | 0 <= b < |boots| && f in boots[b].direct ensures f in AllDirect(boots) {
        if b > 0 { assert boots[b] == boots[1..][b - 1]; }
      }
    }
  }

  /** Over any order of events: the tab never opens more flights than it has issued requests plus
    two per bootstrap, so its refresh POSTs are bounded by twice that. */
  lemma TotalCost(es: seq<Event>, fs: seq<FlightId>)
    requires forall i :: 0 <= i < |fs| ==> fs[i] == i
    requires |fs| == |Run(INITIAL, es).flights|
    ensures var s := Run(INITIAL, es);
            && |s.flights| <= |s.requests| + 2 * |s.boots|
            && Posts(s.flights, fs) <= 2 * (|s.requests| + 2 * |s.boots|)
  {
    var s := Run(INITIAL, es);
    RunKeepsInv(INITIAL, es);
    RunKeepsAwaited(INITIAL, es);
    forall r | 0 <= r < |s.requests| ensures |s.requests[r].joined| <= 1 {
      assert RequestOk(s, s.requests[r]);
    }
    forall b | 0 <= b < |s.boots| ensures |s.boots[b].direct| <= 2 {
      assert BootOk(s, s.boots[b]);
    }
    AllJoinedFacts(s.requests);
    AllDirectFacts(s.boots);
    var cover := AllJoined(s.requests) + AllDirect(s.boots);
    forall f | f in Upto(|s.flights|) ensures f in cover {
      assert Awaited(s, f);
    }
    SmallCover(Upto(|s.flights|), |s.requests| + 2 * |s.boots|, cover);
    TwoPostsEach(s.flights, fs);
  }
}
