/** The reset bounds are exact: runs that attain them for every number of calls in flight and every
  number of failing counts.
 */
module ResetLimits {
  import opened Common
  import opened SessionStore
  import opened ResetProtocol
  import opened ResetTheorems
  import SP = SessionProtocol

  // ----- reachability under the theorems' premises -----

  ghost predicate Allowed(es: seq<Event>, k: nat, f: nat) {
    AtMostInFlight(INITIAL, es, 0, k) && FailedCounts(INITIAL, es, 0) == f
  }

  /** z is reached with at most k calls in flight and f failing counts. */
  ghost predicate Reaches(z: State, k: nat, f: nat) {
    exists es :: Run(INITIAL, es) == z && Allowed(es, k, f)
  }

  lemma {:induction false} RunAppend(s: State, es: seq<Event>, e: Event, k: nat)
    requires AtMostInFlight(s, es, 0, k) && |InFlight(Apply(Run(s, es), e), 0)| <= k
    ensures Run(s, es + [e]) == Apply(Run(s, es), e)
    ensures AtMostInFlight(s, es + [e], 0, k)
    ensures FailedCounts(s, es + [e], 0) == FailedCounts(s, es, 0) + if CountFails(Run(s, es), e, 0) then 1 else 0
    decreases |es|
  {
    if es == [] {
      assert es + [e] == [e] && [e][1..] == [];
    } else {
      assert (es + [e])[0] == es[0] && (es + [e])[1..] == es[1..] + [e];
      RunAppend(Apply(s, es[0]), es[1..], e, k);
    }
  }

  lemma Extend(s: State, e: Event, z: State, k: nat, f: nat)
    requires Reaches(s, k, f) && z == Apply(s, e) && |InFlight(z, 0)| <= k
    ensures Reaches(z, k, f + if CountFails(s, e, 0) then 1 else 0)
  {
    var es :| Run(INITIAL, es) == s && Allowed(es, k, f);
    RunAppend(INITIAL, es, e, k);
    assert Run(INITIAL, es + [e]) == z;
  }

  ghost function At(s: State, t: ThreadId, pc: Pc): State {
    s.(threads := s.threads[t := pc])
  }

  ghost function Others(s: State, t: ThreadId): set<ThreadId> {
    InFlight(s, 0) - {t}
  }

  /** Start call t. */
  lemma Launch(s: State, t: ThreadId, k: nat, f: nat)
    requires Reaches(s, k, f) && t !in s.threads && |Others(s, t)| < k
    ensures Reaches(At(s, t, ForgotStart(0)), k, f)
  {
    var z := At(s, t, ForgotStart(0));
    SubsetSize(InFlight(z, 0), Others(s, t) + {t});
    Extend(s, Spawn(t, ForgotStart(0)), z, k, f);
  }

  predicate CountFailing(pc: Pc, c: Choice) {
    pc.ForgotCounting? && pc.user == 0 && c.fault
  }

  /** Let call t take one step. */
  lemma Drive(s: State, t: ThreadId, pc: Pc, c: Choice, k: nat, f: nat)
    requires Reaches(At(s, t, pc), k, f) && |Others(s, t)| < k
    ensures var (b, q) := Advance(s.w, t, pc, c);
            Reaches(At(State(b, s.threads), t, q), k, f + if CountFailing(pc, c) then 1 else 0)
  {
    var (b, q) := Advance(s.w, t, pc, c);
    var z := At(State(b, s.threads), t, q);
    assert s.threads[t := pc][t := q] == z.threads;
    SubsetSize(InFlight(z, 0), Others(s, t) + {t});
    Extend(At(s, t, pc), Step(t, c), z, k, f);
  }

  lemma UptoDifference(n: nat, m: nat)
    requires m <= n
    ensures |Upto(n) - Upto(m)| == n - m
  {
    assert Upto(n) == Upto(m) + (Upto(n) - Upto(m));
  }

  const ONE_SPAN_AGO: int := 0 - RESET_THROTTLE_SPAN
  const ACCOUNT := map[0 := SP.User(0, SP.Active)]

  function Link(used: bool): Reset {
    Reset(0, PASSWORD_RESET_TTL, 0, if used then Some(0) else None)
  }

  /** n links, all stamped at time 0, of which exactly the first `spent` are used. */
  ghost function Links(n: nat, spent: nat): World {
    World(0, ACCOUNT, map t: nat | t in Upto(n) :: Link(t < spent), map[], [])
  }

  lemma AllRecent(n: nat, spent: nat)
    ensures |Issued(Links(n, spent), 0, 0)| == n
    ensures |Recent(Links(n, spent).resets, 0, ONE_SPAN_AGO)| == n
  {
    assert Issued(Links(n, spent), 0, 0) == Upto(n);
    assert Recent(Links(n, spent).resets, 0, ONE_SPAN_AGO) == Upto(n);
  }

  lemma SomeUnused(n: nat, spent: nat)
    requires spent <= n
    ensures |Unused(Links(n, spent), 0)| == n - spent
  {
    UptoDifference(n, spent);
    assert Unused(Links(n, spent), 0) == Upto(n) - Upto(spent);
  }

  lemma Retired(n: nat, spent: nat)
    ensures Retire(Links(n, spent).resets, 0, 0) == Links(n, n).resets
  {
  }

  lemma Added(n: nat, spent: nat)
    requires spent <= n
    ensures Links(n, spent).resets[n := Link(false)] == Links(n + 1, spent).resets
  {
  }

  // ----- one serial call, start to finish -----

  /** n finished calls, n links, and nobody in flight. */
  ghost function Quiet(n: nat, spent: nat): State {
    State(Links(n, spent), map t: nat | t in Upto(n) :: Done(LinkIssued(t)))
  }

  /** Call t goes from its start to just past the throttle, which passes because few links are
    recent or because the count fails. */
  lemma PassThrottle(s: State, n: nat, spent: nat, t: ThreadId, k: nat, f: nat, fails: bool)
    requires Reaches(s, k, f) && t !in s.threads && |Others(s, t)| < k
    requires s.w == Links(n, spent) && (fails || n < MAX_RESETS_PER_USER)
    ensures Reaches(At(s, t, ForgotAllowed(0)), k, f + if fails then 1 else 0)
  {
    var go := Choice(false, t);
    Launch(s, t, k, f);
    Drive(s, t, ForgotStart(0), go, k, f);
    Drive(s, t, ForgotEligible(0), go, k, f);
    AllRecent(n, spent);
    Drive(s, t, ForgotCounting(0, ONE_SPAN_AGO), Choice(fails, t), k, f);
  }

  lemma RetireAndStamp(s: State, n: nat, spent: nat, t: ThreadId, k: nat, f: nat)
    requires Reaches(At(s, t, ForgotAllowed(0)), k, f) && |Others(s, t)| < k
    requires s.w == Links(n, spent)
    ensures Reaches(At(State(Links(n, n), s.threads), t, ForgotReady(0, 0)), k, f)
  {
    var go := Choice(false, t);
    Retired(n, spent);
    Drive(s, t, ForgotAllowed(0), go, k, f);
    Drive(State(Links(n, n), s.threads), t, ForgotRetired(0), go, k, f);
  }

  lemma Store(s: State, n: nat, spent: nat, k: nat, f: nat)
    requires Reaches(At(s, n, ForgotReady(0, 0)), k, f) && |Others(s, n)| < k
    requires s.w == Links(n, spent) && spent <= n
    ensures Reaches(At(State(Links(n + 1, spent), s.threads), n, Done(LinkIssued(n))), k, f)
  {
    Added(n, spent);
    Drive(s, n, ForgotReady(0, 0), Choice(false, n), k, f);
  }

  lemma QuietGrows(n: nat, spent: nat, w: World)
    ensures n !in Quiet(n, spent).threads
    ensures Others(Quiet(n, spent), n) == {} && Others(State(w, Quiet(n, spent).threads), n) == {}
    ensures Quiet(n, spent).threads[n := Done(LinkIssued(n))] == Quiet(n + 1, n).threads
  {
  }

  /** Call n starts, runs and returns with nobody else in flight. */
  lemma OneMoreCall(n: nat, spent: nat, k: nat, f: nat, fails: bool)
    requires Reaches(Quiet(n, spent), k, f) && 1 <= k && (fails || n < MAX_RESETS_PER_USER)
    ensures Reaches(Quiet(n + 1, n), k, f + if fails then 1 else 0)
  {
    var s := Quiet(n, spent);
    var g := f + if fails then 1 else 0;
    QuietGrows(n, spent, Links(n, n));
    PassThrottle(s, n, spent, n, k, f, fails);
    RetireAndStamp(s, n, spent, n, k, g);
    Store(State(Links(n, n), s.threads), n, n, k, g);
  }

  lemma Opening(k: nat)
    ensures Reaches(Quiet(0, 0), k, 0)
  {
    var z := INITIAL.(w := INITIAL.w.(users := ACCOUNT));
    assert InFlight(INITIAL, 0) == {} && InFlight(z, 0) == {};
    assert Run(INITIAL, []) == INITIAL && Allowed([], k, 0);
    Extend(INITIAL, SetAccount(0, SP.User(0, SP.Active)), z, k, 0);
    assert z.threads == Quiet(0, 0).threads && z.w.resets == Quiet(0, 0).w.resets;
  }

  function Before(n: nat): nat {
    if n == 0 then 0 else n - 1
  }

  lemma Serial(n: nat, k: nat)
    requires 1 <= k && n <= MAX_RESETS_PER_USER
    ensures Reaches(Quiet(n, Before(n)), k, 0)
  {
    Opening(k);
    for i := 0 to n
      invariant Reaches(Quiet(i, Before(i)), k, 0)
    {
      OneMoreCall(i, Before(i), k, 0, false);
    }
  }

  // ----- k calls side by side -----

  /** Calls 0 and 1 are done; of calls 2 to k + 1, the first `stored` have stored their links, the
    next have stamped theirs up to `stamped`, the next stand past the throttle up to `passed`. */
  ghost function Calls(stored: nat, stamped: nat, passed: nat): map<ThreadId, Pc> {
    map t: nat | t in Upto(passed + 2) ::
      if t < stored + 2 then Done(LinkIssued(t)) else if t < stamped + 2 then ForgotReady(0, 0) else ForgotAllowed(0)
  }

  ghost function Crowd(w: World, stored: nat, stamped: nat, passed: nat): State {
    State(w, Calls(stored, stamped, passed))
  }

  lemma OpenCalls(w: World, stored: nat, stamped: nat, passed: nat, t: ThreadId)
    requires stored <= passed
    ensures Others(Crowd(w, stored, stamped, passed), t) <= Upto(passed + 2) - Upto(stored + 2) - {t}
  {
  }

  lemma CrowdSize(w: World, stored: nat, stamped: nat, passed: nat, t: ThreadId)
    requires stored <= passed
    ensures |Others(Crowd(w, stored, stamped, passed), t)| <= passed - stored
    ensures stored + 2 <= t < passed + 2 ==> |Others(Crowd(w, stored, stamped, passed), t)| < passed - stored
  {
    var open := Upto(passed + 2) - Upto(stored + 2);
    UptoDifference(passed + 2, stored + 2);
    OpenCalls(w, stored, stamped, passed, t);
    SubsetSize(Others(Crowd(w, stored, stamped, passed), t), open - {t});
  }

  lemma CallStays(stored: nat, stamped: nat, passed: nat, t: ThreadId)
    requires t < passed + 2
    ensures var calls := Calls(stored, stamped, passed); t in calls && calls[t := calls[t]] == calls
  {
  }

  lemma CallPasses(n: nat)
    ensures n + 2 !in Calls(0, 0, n)
    ensures Calls(0, 0, n)[n + 2 := ForgotAllowed(0)] == Calls(0, 0, n + 1)
  {
  }

  lemma CallRetires(n: nat, k: nat)
    requires n < k
    ensures Calls(0, n, k)[n + 2 := ForgotReady(0, 0)] == Calls(0, n + 1, k)
  {
  }

  lemma CallStores(n: nat, k: nat)
    requires n < k
    ensures Calls(n, k, k)[n + 2 := Done(LinkIssued(n + 2))] == Calls(n + 1, k, k)
  {
  }

  lemma NextToPass(w: World, n: nat)
    ensures var s := Crowd(w, 0, 0, n);
            && n + 2 !in s.threads && |Others(s, n + 2)| <= n
            && At(s, n + 2, ForgotAllowed(0)) == Crowd(w, 0, 0, n + 1)
  {
    CrowdSize(w, 0, 0, n, n + 2);
    CallPasses(n);
  }

  lemma NextToRetire(s: State, w: World, z: World, n: nat, k: nat)
    requires n < k && s == Crowd(w, 0, n, k)
    ensures At(s, n + 2, ForgotAllowed(0)) == s && |Others(s, n + 2)| < k
    ensures At(State(z, s.threads), n + 2, ForgotReady(0, 0)) == Crowd(z, 0, n + 1, k)
  {
    CrowdSize(w, 0, n, k, n + 2);
    CallStays(0, n, k, n + 2);
    CallRetires(n, k);
  }

  lemma NextToStore(s: State, w: World, z: World, n: nat, k: nat)
    requires n < k && s == Crowd(w, n, k, k)
    ensures At(s, n + 2, ForgotReady(0, 0)) == s && |Others(s, n + 2)| < k
    ensures At(State(z, s.threads), n + 2, Done(LinkIssued(n + 2))) == Crowd(z, n + 1, k, k)
  {
    CrowdSize(w, n, k, k, n + 2);
    CallStays(n, k, k, n + 2);
    CallStores(n, k);
  }

  // The crowd forms behind two finished calls, retires their links, then stores its own.

  ghost function Passing(n: nat): State {
    Crowd(Links(2, 1), 0, 0, n)
  }

  ghost function Retiring(n: nat, k: nat): State {
    Crowd(Links(2, if n == 0 then 1 else 2), 0, n, k)
  }

  ghost function Storing(n: nat, k: nat): State {
    Crowd(Links(n + 2, 2), n, k, k)
  }

  lemma OnePasses(n: nat, k: nat)
    requires n < k && Reaches(Passing(n), k, 0)
    ensures Reaches(Passing(n + 1), k, 0)
  {
    NextToPass(Links(2, 1), n);
    PassThrottle(Passing(n), 2, 1, n + 2, k, 0, false);
  }

  lemma RetireInto(s: State, z: State, m: nat, spent: nat, n: nat, k: nat)
    requires n < k && Reaches(s, k, 0)
    requires s == Crowd(Links(m, spent), 0, n, k) && z == Crowd(Links(m, m), 0, n + 1, k)
    ensures Reaches(z, k, 0)
  {
    NextToRetire(s, s.w, z.w, n, k);
    RetireAndStamp(s, m, spent, n + 2, k, 0);
  }

  lemma OneRetires(n: nat, k: nat)
    requires n < k && Reaches(Retiring(n, k), k, 0)
    ensures Reaches(Retiring(n + 1, k), k, 0)
  {
    RetireInto(Retiring(n, k), Retiring(n + 1, k), 2, if n == 0 then 1 else 2, n, k);
  }

  lemma OneStores(n: nat, k: nat)
    requires n < k && Reaches(Storing(n, k), k, 0)
    ensures Reaches(Storing(n + 1, k), k, 0)
  {
    var s := Storing(n, k);
    NextToStore(s, s.w, Links(n + 3, 2), n, k);
    Store(s, n + 2, 2, k, 0);
  }

  lemma AllPass(k: nat)
    requires Reaches(Passing(0), k, 0)
    ensures Reaches(Passing(k), k, 0)
  {
    for n := 0 to k
      invariant Reaches(Passing(n), k, 0)
    {
      OnePasses(n, k);
    }
  }

  lemma AllRetire(k: nat)
    requires Reaches(Retiring(0, k), k, 0)
    ensures Reaches(Retiring(k, k), k, 0)
  {
    for n := 0 to k
      invariant Reaches(Retiring(n, k), k, 0)
    {
      OneRetires(n, k);
    }
  }

  lemma AllStore(k: nat)
    requires Reaches(Storing(0, k), k, 0)
    ensures Reaches(Storing(k, k), k, 0)
  {
    for n := 0 to k
      invariant Reaches(Storing(n, k), k, 0)
    {
      OneStores(n, k);
    }
  }

  lemma WholeCrowdStores(k: nat)
    requires 1 <= k
    ensures Reaches(Storing(k, k), k, 0)
  {
    Serial(2, k);
    assert Passing(0).threads == Quiet(2, 1).threads;
    AllPass(k);
    assert Retiring(0, k) == Passing(k);
    AllRetire(k);
    assert Storing(0, k) == Retiring(k, k);
    AllStore(k);
  }

  // ----- failing counts -----

  /** i more calls after n links of which `spent` are used. */
  ghost function After(n: nat, spent: nat, i: nat): State {
    Quiet(n + i, if i == 0 then spent else n + i - 1)
  }

  lemma OneFailingCall(n: nat, spent: nat, k: nat, i: nat)
    requires 1 <= k && Reaches(After(n, spent, i), k, i)
    ensures Reaches(After(n, spent, i + 1), k, i + 1)
  {
    OneMoreCall(n + i, if i == 0 then spent else n + i - 1, k, i, true);
  }

  lemma FailingCallsFollow(n: nat, spent: nat, k: nat, f: nat)
    requires 1 <= k && Reaches(After(n, spent, 0), k, 0)
    ensures Reaches(After(n, spent, f), k, f)
  {
    for i := 0 to f
      invariant Reaches(After(n, spent, i), k, i)
    {
      OneFailingCall(n, spent, k, i);
    }
  }

  lemma CrowdIsQuiet(k: nat)
    ensures Storing(k, k) == After(k + 2, 2, 0)
  {
    assert Storing(k, k).threads == Quiet(k + 2, 2).threads;
  }

  lemma QuietCounts(n: nat, spent: nat)
    requires spent <= n
    ensures |Issued(Quiet(n, spent).w, 0, 0)| == n && |Unused(Quiet(n, spent).w, 0)| == n - spent
  {
    AllRecent(n, spent);
    SomeUnused(n, spent);
  }

  lemma AttainedCounts(k: nat, f: nat, s: State)
    requires s == After(k + 2, 2, f)
    ensures |Issued(s.w, 0, 0)| == k + 2 + f && (f == 0 ==> |Unused(s.w, 0)| == k)
  {
    QuietCounts(k + 2 + f, if f == 0 then 2 else k + 2 + f - 1);
  }

  /** Both bounds are attained, the first one for every k and every f, and for f = 0 both by one and
    the same run. */
  lemma BoundsAreAttained(k: nat, f: nat)
    requires 1 <= k
    ensures exists es ::
      && AtMostInFlight(INITIAL, es, 0, k) && FailedCounts(INITIAL, es, 0) == f
      && |Issued(Run(INITIAL, es).w, 0, 0)| == k + 2 + f
      && (f == 0 ==> |Unused(Run(INITIAL, es).w, 0)| == k)
  {
    CrowdIsQuiet(k);
    WholeCrowdStores(k);
    AttainedBy(Storing(k, k), k + 2, k, f);
  }

  lemma AttainedBy(s: State, n: nat, k: nat, f: nat)
    requires 1 <= k && n == k + 2 && s == After(n, 2, 0) && Reaches(s, k, 0)
    ensures exists es ::
      && AtMostInFlight(INITIAL, es, 0, k) && FailedCounts(INITIAL, es, 0) == f
      && |Issued(Run(INITIAL, es).w, 0, 0)| == k + 2 + f
      && (f == 0 ==> |Unused(Run(INITIAL, es).w, 0)| == k)
  {
    FailingCallsFollow(n, 2, k, f);
    AttainedCounts(k, f, After(n, 2, f));
    var es :| Run(INITIAL, es) == After(n, 2, f) && Allowed(es, k, f);
  }

  /** So while counts may fail there is no bound: however large n, serial calls put n links into one
    instant. */
  lemma FailedCountsLiftTheThrottle(n: nat)
    ensures exists es :: AtMostInFlight(INITIAL, es, 0, 1) && |Issued(Run(INITIAL, es).w, 0, 0)| == n
  {
    if n <= 3 {
      Serial(n, 1);
      var es :| Run(INITIAL, es) == Quiet(n, Before(n)) && Allowed(es, 1, 0);
      AllRecent(n, Before(n));
    } else {
      BoundsAreAttained(1, n - 3);
    }
  }
}
