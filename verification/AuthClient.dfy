/** The tab's module variables and handlers, updated step by step, and the bootstrap loop. */
module AuthClient {
  import opened Common
  import opened BrowserRefresh
  import opened BrowserInvariant
  import BrowserTheorems
  import BrowserProgress

  predicate Open(f: Flight) { !f.phase.Cleared? }

  /** After a failure that does not mean "signed out": pause once, then leave signed out. */
  predicate GivesUpOrPauses(before: Boot, after: Boot) {
    && after.attempt == before.attempt
    && after.phase == if before.attempt == 0 then Pausing else Left(Unauthenticated)
  }

  class AuthClient {
    var accessTokenInMemory: Option<Token>
    var inFlightRefresh: Option<FlightId>
    var flights: seq<Flight>
    var requests: seq<Request>
    var boots: seq<Boot>

    // Every event the tab has handled, so that what holds after any run holds of this object.
    ghost var history: seq<Event>

    ghost function View(): Tab
      reads this
    {
      Tab(accessTokenInMemory, inFlightRefresh, flights, requests, boots)
    }

    ghost predicate Valid()
      reads this
    {
      View() == Run(INITIAL, history) && Inv(View())
    }

    constructor ()
      ensures Valid() && history == []
    {
      accessTokenInMemory, inFlightRefresh := None, None;
      flights, requests, boots := [], [], [];
      history := [];
    }

    /** The tab's costs at any moment: every request sent at most twice and waiting for at most one
      flight, every flight at most two POSTs, and no more flights than requests plus two per bootstrap. */
    lemma StaysWithinBounds()
      requires Valid()
      ensures forall r :: 0 <= r < |requests| ==> 1 <= requests[r].sends <= 2 && |requests[r].joined| <= 1
      ensures forall f :: 0 <= f < |flights| ==> 1 <= flights[f].posts <= 2
      ensures forall f, g :: 0 <= f < |flights| && 0 <= g < |flights| && Open(flights[f]) && Open(flights[g]) ==> f == g
      ensures |flights| <= |requests| + 2 * |boots|
    {
      forall r | 0 <= r < |requests| ensures 1 <= requests[r].sends <= 2 && |requests[r].joined| <= 1 {
        BrowserTheorems.RequestCost(history, r);
      }
      forall f, g | 0 <= f < |flights| && 0 <= g < |flights|
        ensures 1 <= flights[f].posts <= 2 && (Open(flights[f]) && Open(flights[g]) ==> f == g)
      {
        BrowserTheorems.OneFlightTwoPosts(history, f, g);
      }
      BrowserTheorems.TotalCost(history, seq(|flights|, i => i));
    }

    /** Add the event just handled to the history. */
    ghost method Record(e: Event, before: Tab)
      requires before == Run(INITIAL, history) && Inv(before) && View() == Apply(before, e)
      modifies `history
      ensures Valid() && history == old(history) + [e]
    {
      BrowserProgress.RunAppend(INITIAL, history, [e]);
      BrowserProgress.RunOne(before, e);
      EventKeepsInv(before, e);
      history := history + [e];
    }

    /** Await the open flight if there is one; otherwise open one, which costs the first POST. Either way
      the flight awaited is the only one open. */
    method RefreshAccessToken() returns (f: FlightId)
      requires Inv(View())
      modifies `inFlightRefresh, `flights
      ensures Inv(View()) && (View(), f) == BrowserRefresh.RefreshAccessToken(old(View()))
      ensures f < |flights| && forall g :: 0 <= g < |flights| ==> (Open(flights[g]) <==> g == f)
      ensures f < |old(flights)| ==> flights == old(flights)
      ensures f >= |old(flights)| ==>
        && (forall g :: 0 <= g < |old(flights)| ==> !Open(old(flights)[g]))
        && flights == old(flights) + [Flight(1, FirstSent)]
    {
      JoinKeeps(View());
      if inFlightRefresh.None? {
        inFlightRefresh := Some(|flights|);
        flights := flights + [Flight(1, FirstSent)];
      }
      f := inFlightRefresh.value;
    }

    /** performRefresh's continuation after a POST: the catch block retries a first 409 and clears
      the token for anything else; a failure inside the catch block escapes it and clears nothing. */
    method OnReply(f: FlightId, reply: Reply)
      requires Valid() && f < |flights|
      modifies `accessTokenInMemory, `flights, `history
      ensures Valid() && history == old(history) + [RefreshReply(f, reply)]
      // A flight that is over hears nothing more.
      ensures old(flights)[f].phase.Over() ==> View() == old(View())
      // Only a first 409 costs a second POST; any other reply settles the flight.
      ensures old(flights)[f].phase.FirstSent? && reply.Conflict? ==> flights[f] == Flight(2, RetrySent)
      ensures !old(flights)[f].phase.Over() && !(old(flights)[f].phase.FirstSent? && reply.Conflict?) ==>
        && flights[f].posts == old(flights)[f].posts
        && flights[f].phase == Settled(match reply
                                       case Granted(token) => Restored(token)
                                       case Denied => Rejected
                                       case _ => Failed)
      // A token granted is kept; without one, only a first reply takes the old token away.
      ensures !old(flights)[f].phase.Over() ==>
        accessTokenInMemory == if reply.Granted? then Some(reply.token)
                               else if old(flights)[f].phase.FirstSent? && !reply.Conflict? then None
                               else old(accessTokenInMemory)
      ensures |flights| == |old(flights)|
      ensures forall g :: 0 <= g < |flights| && g != f ==> flights[g] == old(flights)[g]
    {
      ghost var before := View();
      assert FlightOk(flights[f]);
      var posts, phase := flights[f].posts, flights[f].phase;
      if !phase.Over() {
        var settles := true;
        if reply.Granted? {
          accessTokenInMemory := Some(reply.token);
        } else if phase.FirstSent? {
          if reply.Conflict? {
            settles := false;
          } else {
            accessTokenInMemory := None;
          }
        }
        var next := if settles then Flight(posts, Settled(OutcomeOf(reply))) else Flight(posts + 1, RetrySent);
        flights := flights[f := next];
      }
      Record(RefreshReply(f, reply), before);
    }

    /** Once a settled flight is forgotten no flight is open, and the next caller opens a new one. */
    method OnFinally(f: FlightId)
      requires Valid() && f < |flights|
      modifies `inFlightRefresh, `flights, `history
      ensures Valid() && history == old(history) + [Finally(f)]
      ensures !old(flights)[f].phase.Settled? ==> View() == old(View())
      ensures old(flights)[f].phase.Settled? ==>
        && (forall g :: 0 <= g < |flights| ==> !Open(flights[g]))
        && flights == old(flights)[f := Flight(old(flights)[f].posts, Cleared(old(flights)[f].phase.outcome))]
    {
      ghost var before := View();
      if flights[f].phase.Settled? {
        flights := flights[f := Flight(flights[f].posts, Cleared(flights[f].phase.outcome))];
        inFlightRefresh := None;
      }
      Record(Finally(f), before);
    }

    method Send(skips: bool) returns (r: RequestId)
      requires Valid()
      modifies `requests, `history
      ensures Valid() && history == old(history) + [Issue(skips)]
      ensures r == |old(requests)| && requests == old(requests) + [Request(skips, false, 1, [], None, Sent)]
    {
      ghost var before := View();
      r := |requests|;
      requests := requests + [Request(skips, false, 1, [], None, Sent)];
      Record(Issue(skips), before);
    }

    /** The response interceptor up to its await. A first 401 of a request that may refresh makes it
      wait for the one open flight, opening it only if there was none; any other response is the
      caller's answer and leaves the flights alone. */
    method OnResponse(r: RequestId, status: HttpStatus)
      requires Valid() && r < |requests|
      modifies `inFlightRefresh, `flights, `requests, `history
      ensures Valid() && history == old(history) + [Response(r, status)]
      ensures |requests| == |old(requests)|
      ensures old(requests)[r].phase.Sent? ==>
        if status.Status401? && old(requests)[r].joined == [] && !old(requests)[r].skips
        then
          && requests[r].phase.Waiting? && requests[r].joined == [requests[r].phase.flight]
          && requests[r].sends == old(requests)[r].sends
          && (forall g :: 0 <= g < |flights| ==> (Open(flights[g]) <==> g == requests[r].phase.flight))
          && ((exists g :: 0 <= g < |old(flights)| && Open(old(flights)[g])) ==> flights == old(flights))
        else
          && flights == old(flights) && requests[r] == old(requests)[r].(phase := requests[r].phase)
          && (requests[r].phase ==
              match status
              case Fine => Answered(Success)
              case Broken => Answered(OtherFailure)
              case _ => Answered(AuthFailure))
      ensures !old(requests)[r].phase.Sent? ==> View() == old(View())
      ensures forall q :: 0 <= q < |requests| && q != r ==> requests[q] == old(requests)[q]
    {
      ghost var before := View();
      assert RequestOk(View(), requests[r]);
      if requests[r].phase.Sent? {
        if !status.Status401? || requests[r].retried || requests[r].skips {
          requests := requests[r := requests[r].(phase := Answered(AnswerOf(status)))];
        } else {
          var f := RefreshAccessToken();
          var q := requests[r];
          requests := requests[r := q.(retried := true, joined := q.joined + [f], phase := Waiting(f))];
        }
      }
      Record(Response(r, status), before);
    }

    /** Once its flight is over the request learns what the flight came to: it is sent a second and last
      time if the session was restored, and otherwise its caller gets the refresh failure. */
    method OnWake(r: RequestId)
      requires Valid() && r < |requests|
      modifies `requests, `history
      ensures Valid() && history == old(history) + [Wake(r)]
      ensures |requests| == |old(requests)|
      ensures var q := old(requests)[r];
        if q.phase.Waiting? && q.phase.flight < |flights| && !Open(flights[q.phase.flight])
        then
          && requests[r].got == Some(flights[q.phase.flight].phase.outcome)
          && (if requests[r].got.value.Restored? then requests[r].phase == Sent && requests[r].sends == 2
              else
                && requests[r].phase == Answered(if requests[r].got == Some(Rejected) then AuthFailure else OtherFailure)
                && requests[r].sends == 1)
        else View() == old(View())
      ensures forall q :: 0 <= q < |requests| && q != r ==> requests[q] == old(requests)[q]
    {
      ghost var before := View();
      var q := requests[r];
      assert RequestOk(View(), q);
      if q.phase.Waiting? && q.phase.flight < |flights| && flights[q.phase.flight].phase.Cleared? {
        var outcome := flights[q.phase.flight].phase.outcome;
        q := q.(got := Some(outcome));
        match outcome {
          case Restored(_) => q := q.(sends := q.sends + 1, phase := Sent);
          case Rejected => q := q.(phase := Answered(AuthFailure));
          case Failed => q := q.(phase := Answered(OtherFailure));
        }
        requests := requests[r := q];
      }
      Record(Wake(r), before);
    }

    method SetAccessToken(token: Option<Token>)
      requires Valid()
      modifies `accessTokenInMemory, `history
      ensures Valid() && history == old(history) + [Event.SetAccessToken(token)] && accessTokenInMemory == token
    {
      ghost var before := View();
      accessTokenInMemory := token;
      Record(Event.SetAccessToken(token), before);
    }

    /** A page load: the bootstrap joins the open flight like anybody else. */
    method StartBootstrap() returns (b: BootId)
      requires Valid()
      modifies `inFlightRefresh, `flights, `boots, `history
      ensures Valid() && history == old(history) + [Bootstrap]
      ensures b == |old(boots)| && |boots| == b + 1 && boots[..b] == old(boots)
      ensures boots[b].phase.Refreshing?
        && forall g :: 0 <= g < |flights| ==> (Open(flights[g]) <==> g == boots[b].phase.flight)
      ensures (exists g :: 0 <= g < |old(flights)| && Open(old(flights)[g])) ==> flights == old(flights)
    {
      ghost var before := View();
      var f := RefreshAccessToken();
      b := |boots|;
      boots := boots + [Boot(0, Refreshing(f), [f], [], [])];
      Record(Bootstrap, before);
    }

    /** The bootstrap's continuation: it moves on exactly when what it awaits has arrived. A restored
      session is followed by an identity request, and a successful one signs the user in. A rejected
      refresh or a rejected request signs them out, and so does any other failure of the second
      attempt; of the first attempt it leads to a pause, and the pause to the one open flight. */
    method ResumeBootstrap(b: BootId)
      requires Valid() && b < |boots|
      modifies `inFlightRefresh, `flights, `requests, `boots, `history
      ensures Valid() && history == old(history) + [BootResumes(b)]
      ensures |boots| == |old(boots)| && forall c :: 0 <= c < |boots| && c != b ==> boots[c] == old(boots)[c]
      ensures !BrowserProgress.Ready(old(View()), old(boots)[b]) ==> View() == old(View())
      ensures BrowserProgress.Ready(old(View()), old(boots)[b]) ==>
        match old(boots)[b].phase
        case Refreshing(f) =>
          (match old(flights)[f].phase.outcome
           case Restored(_) =>
             && boots[b].phase == Asking(|old(requests)|)
             && requests == old(requests) + [Request(false, false, 1, [], None, Sent)]
           case Rejected => boots[b].phase == Left(Unauthenticated) && requests == old(requests)
           case Failed => GivesUpOrPauses(old(boots)[b], boots[b]) && requests == old(requests))
        case Asking(r) =>
          (match old(requests)[r].phase.answer
           case Success => boots[b].phase == Left(Authenticated)
           case AuthFailure => boots[b].phase == Left(Unauthenticated)
           case OtherFailure => GivesUpOrPauses(old(boots)[b], boots[b]))
        case _ =>
          && boots[b].attempt == 1 && boots[b].phase.Refreshing?
          && forall g :: 0 <= g < |flights| ==> (Open(flights[g]) <==> g == boots[b].phase.flight)
    {
      ghost var before := View();
      BrowserProgress.ReadyBootMoves(before, b);
      assert BootOk(before, boots[b]);
      var boot := boots[b];
      match boot.phase {
        case Refreshing(f) =>
          if f < |flights| && flights[f].phase.Cleared? {
            var r := |requests|;
            if flights[f].phase.outcome.Restored? {
              requests := requests + [Request(false, false, 1, [], None, Sent)];
            }
            boots := boots[b := Resume(boot, FlightOver(flights[f].phase.outcome, r))];
          }
        case Asking(r) =>
          if r < |requests| && requests[r].phase.Answered? {
            boots := boots[b := Resume(boot, RequestOver(requests[r].phase.answer))];
          }
        case Pausing =>
          var f := RefreshAccessToken();
          boots := boots[b := Resume(boot, PauseOver(f))];
        case Left(_) =>
      }
      Record(BootResumes(b), before);
    }
  }

  datatype AuthStatus = Loading | SignedIn | SignedOut

  /** The attempt got an identity. */
  predicate Succeeds(refresh: Outcome, answer: Answer) {
    refresh.Restored? && answer.Success?
  }

  /** The attempt failed in a way that does not mean "signed out". */
  predicate Inconclusive(refresh: Outcome, answer: Answer) {
    refresh.Failed? || (refresh.Restored? && answer.OtherFailure?)
  }

  // ----- the loop and the tab's bootstrap are one -----

  const STARTED := Boot(0, Refreshing(0), [0], [], [])

  predicate Shaped(b: Boot) {
    b.attempt <= 1 && (b.phase.Pausing? ==> b.attempt == 0)
  }

  /** What arrives next for a bootstrap whose attempts' refreshes and identity requests come to this. */
  function Supply(b: Boot, refresh: seq<Outcome>, answer: seq<Answer>): Arrival
    requires Shaped(b) && |refresh| == 2 && |answer| == 2 && !b.phase.Left?
  {
    match b.phase
    case Refreshing(_) => FlightOver(refresh[b.attempt], |b.asked|)
    case Asking(_) => RequestOver(answer[b.attempt])
    case _ => PauseOver(|b.direct|)
  }

  /** The tab's bootstrap, resumed until it leaves `loading`. */
  function Driven(b: Boot, refresh: seq<Outcome>, answer: seq<Answer>): Boot
    requires Shaped(b) && |refresh| == 2 && |answer| == 2
    decreases 6 - BrowserProgress.BootRank(b)
  {
    if b.phase.Left? then b else Driven(Resume(b, Supply(b, refresh, answer)), refresh, answer)
  }

  lemma DriveOn(b: Boot, refresh: seq<Outcome>, answer: seq<Answer>) returns (next: Boot)
    requires Shaped(b) && |refresh| == 2 && |answer| == 2 && !b.phase.Left?
    ensures next == Resume(b, Supply(b, refresh, answer)) && Shaped(next)
    ensures Driven(next, refresh, answer) == Driven(b, refresh, answer)
    ensures next.phase.Left? ==> Driven(b, refresh, answer) == next
  {
    next := Resume(b, Supply(b, refresh, answer));
  }

  class AuthProvider {
    var status: AuthStatus
    var refreshes: nat
    var identityRequests: nat

    constructor ()
      ensures status == Loading && refreshes == 0 && identityRequests == 0
    {
      status, refreshes, identityRequests := Loading, 0, 0;
    }

    /** The counted retry loop, given what each attempt's refresh and identity request would
      come to. It ends as the tab's bootstrap does, having awaited as many flights and made as many
      identity requests. */
    method Bootstrap(refresh: seq<Outcome>, answer: seq<Answer>)
      requires |refresh| == 2 && |answer| == 2
      modifies this
      ensures status == if Succeeds(refresh[0], answer[0]) then SignedIn
                        else if Inconclusive(refresh[0], answer[0]) && Succeeds(refresh[1], answer[1]) then SignedIn
                        else SignedOut
      ensures var b := Driven(STARTED, refresh, answer);
        && status == (if b.phase == Left(Authenticated) then SignedIn else SignedOut)
        && refreshes == old(refreshes) + |b.direct|
        && identityRequests == old(identityRequests) + |b.asked|
    {
      status := Loading;
      ghost var b := STARTED;
      var attempt := 0;
      while attempt < 2
        invariant 0 <= attempt <= 2 && Shaped(b)
        invariant Driven(b, refresh, answer) == Driven(STARTED, refresh, answer)
        invariant attempt < 2 ==> status == Loading && b.phase.Refreshing? && b.attempt == attempt
        invariant attempt > 0 ==> Inconclusive(refresh[0], answer[0])
        invariant attempt == 2 ==> status == SignedOut && !Succeeds(refresh[1], answer[1])
        invariant attempt == 2 ==> b.phase == Left(Unauthenticated)
        invariant refreshes == old(refreshes) + attempt && |b.direct| == (if attempt < 2 then attempt + 1 else 2)
        invariant identityRequests == old(identityRequests) + |b.asked|
      {
        refreshes := refreshes + 1;
        b := DriveOn(b, refresh, answer);
        var failure := OtherFailure;
        if refresh[attempt].Restored? {
          identityRequests := identityRequests + 1;
          b := DriveOn(b, refresh, answer);
          if answer[attempt].Success? {
            status := SignedIn;
            return;
          }
          failure := answer[attempt];
        } else if refresh[attempt].Rejected? {
          failure := AuthFailure;
        }
        if failure.AuthFailure? {
          status := SignedOut;
          return;
        }
        if attempt == 1 {
          status := SignedOut;
        } else {
          b := DriveOn(b, refresh, answer);
        }
        attempt := attempt + 1;
      }
    }
  }
}
