/** Deadlock among concurrent CreateApplication transactions: possible exactly when the first
  lock is the shared one. With any other first lock every transaction finishes.
 */
module JobDeadlock {
  import opened Common
  import opened JobLocks

  /** A ring of transactions each waiting for the next. */
  ghost predicate WaitCycle(s: State, c: seq<TxId>) {
    && c != []
    && (forall i :: 0 <= i < |c| ==> c[i] < |s.txs|)
    && (forall i :: 0 <= i < |c| - 1 ==> Blocks(s, c[i + 1], c[i]))
    && Blocks(s, c[0], c[|c| - 1])
  }

  // ----- what the lock keeps -----

  ghost predicate Exclusive(s: State) {
    && (s.first.NoKeyUpdate? || s.first.Update? ==>
          forall t, u :: 0 <= t < u < |s.txs| && s.txs[t].phase.HoldsJob() && s.txs[u].phase.HoldsJob()
            ==> s.txs[t].job != s.txs[u].job)
    && (forall t, u :: 0 <= t < u < |s.txs| && s.txs[t].phase.Counted? && s.txs[u].phase.Counted?
          ==> s.txs[t].job != s.txs[u].job)
  }

  lemma UnblockedIsAlone(s: State, t: TxId, u: TxId)
    requires t < |s.txs| && u < |s.txs| && t != u && !Blocked(s, t) && s.txs[t].job == s.txs[u].job
    ensures s.txs[t].phase.Queued? && (s.first.NoKeyUpdate? || s.first.Update?) ==> !s.txs[u].phase.HoldsJob()
    ensures s.txs[t].phase.Inserted? ==> !s.txs[u].phase.Counted?
  {
    assert !Blocks(s, u, t);
    var held := Held(s.first, s.txs[u].phase);
    if s.txs[u].phase.HoldsJob() {
      assert s.first in held;
    }
    if s.txs[u].phase.Counted? {
      assert NoKeyUpdate in held;
    }
  }

  lemma StepKeepsExclusive(s: State, t: TxId, ok: bool)
    requires Exclusive(s) && t < |s.txs| && !Blocked(s, t)
    ensures Exclusive(WithPhase(s, t, Next(s, t, ok)))
  {
    forall u | 0 <= u < |s.txs| && u != t && s.txs[u].job == s.txs[t].job
      ensures s.txs[t].phase.Queued? && (s.first.NoKeyUpdate? || s.first.Update?) ==> !s.txs[u].phase.HoldsJob()
      ensures s.txs[t].phase.Inserted? ==> !s.txs[u].phase.Counted?
    {
      UnblockedIsAlone(s, t, u);
    }
  }

  lemma EventKeepsExclusive(s: State, e: Event)
    requires Exclusive(s)
    ensures Exclusive(Apply(s, e)) && Apply(s, e).first == s.first
  {
    if e.Step? && e.t < |s.txs| && !Blocked(s, e.t) {
      StepKeepsExclusive(s, e.t, e.ok);
      assert Apply(s, e).txs == WithPhase(s, e.t, Next(s, e.t, e.ok)).txs;
    }
  }

  lemma {:induction false} RunKeepsExclusive(s: State, es: seq<Event>)
    requires Exclusive(s)
    ensures Exclusive(Run(s, es)) && Run(s, es).first == s.first
    decreases |es|
  {
    if es != [] {
      EventKeepsExclusive(s, es[0]);
      RunKeepsExclusive(Apply(s, es[0]), es[1..]);
    }
  }

  // ----- no ring of waiting -----

  /** Whoever is waited for has got strictly further than whoever waits. */
  lemma BlockersAreAhead(s: State, u: TxId, t: TxId)
    requires Exclusive(s) && !s.first.Share? && Blocks(s, u, t)
    ensures s.txs[t].phase.Rank() < s.txs[u].phase.Rank() < 6
  {
    var holder, waiter := s.txs[u].phase, s.txs[t].phase;
    if s.txs[t].job == s.txs[u].job && LockConflict(s.first, holder, waiter) {
      var m :| m in Held(s.first, holder) && Conflicts(m, Wanted(s.first, waiter).value);
      if u < t {
        assert holder.HoldsJob() && waiter.HoldsJob() ==> s.first.KeyShare?;
      } else {
        assert waiter.HoldsJob() && holder.HoldsJob() ==> s.first.KeyShare?;
      }
    }
  }

  lemma {:induction false} RanksClimb(s: State, c: seq<TxId>, n: nat)
    requires Exclusive(s) && !s.first.Share? && WaitCycle(s, c) && n < |c|
    ensures s.txs[c[0]].phase.Rank() + n <= s.txs[c[n]].phase.Rank()
    decreases n
  {
    if n > 0 {
      assert Blocks(s, c[n - 1 + 1], c[n - 1]);
      RanksClimb(s, c, n - 1);
      BlockersAreAhead(s, c[n], c[n - 1]);
    }
  }

  lemma NoWaitCycle(s: State, c: seq<TxId>)
    requires Exclusive(s) && !s.first.Share?
    ensures !WaitCycle(s, c)
  {
    if WaitCycle(s, c) {
      RanksClimb(s, c, |c| - 1);
      BlockersAreAhead(s, c[0], c[|c| - 1]);
    }
  }

  // ----- the shared lock -----

  const BOTH_BEGIN: seq<Event> := [Begin(0, 0, None), Begin(0, 1, None)]
  const BOTH_STEP: seq<Event> := [Step(0, true), Step(1, true)]
  const TWO_APPLICANTS: seq<Event> := BOTH_BEGIN + (BOTH_STEP + (BOTH_STEP + (BOTH_STEP + (BOTH_STEP + []))))

  lemma Unroll(s: State, e: Event, es: seq<Event>)
    ensures Run(s, [e] + es) == Run(Apply(s, e), es)
  {
    assert ([e] + es)[1..] == es;
  }

  function Both(p: Phase): State {
    Initial(Share, map[0 := 0]).(txs := [Tx(0, 0, None, p), Tx(0, 1, None, p)])
  }

  lemma BothInsert()
    ensures Run(Initial(Share, map[0 := 0]), TWO_APPLICANTS) == Both(Inserted)
  {
    BothBegin(Initial(Share, map[0 := 0]), Both(Begun));
    BothStep(Both(Begun), Both(Queued), Queued, Begun);
    BothStep(Both(Queued), Both(Locked), Locked, Queued);
    BothStep(Both(Locked), Both(Checked), Checked, Locked);
    BothStep(Both(Checked), Both(Inserted), Inserted, Checked);
    RunTwo(Both(Checked), Step(0, true), Step(1, true), []);
    RunTwo(Both(Locked), Step(0, true), Step(1, true), BOTH_STEP + []);
    RunTwo(Both(Queued), Step(0, true), Step(1, true), BOTH_STEP + (BOTH_STEP + []));
    RunTwo(Both(Begun), Step(0, true), Step(1, true), BOTH_STEP + (BOTH_STEP + (BOTH_STEP + [])));
    RunTwo(Initial(Share, map[0 := 0]), Begin(0, 0, None), Begin(0, 1, None),
           BOTH_STEP + (BOTH_STEP + (BOTH_STEP + (BOTH_STEP + []))));
  }

  /** Two applicants to one posting, each holding the shared lock the other must outlast. */
  lemma SharedLockDeadlocks()
    ensures WaitCycle(Run(Initial(Share, map[0 := 0]), TWO_APPLICANTS), [0, 1])
  {
    BothInsert();
    var s := Both(Inserted);
    assert Share in Held(Share, Inserted) && Conflicts(Share, NoKeyUpdate);
    assert Blocks(s, 1, 0) && Blocks(s, 0, 1);
  }

  lemma RunTwo(s: State, d: Event, e: Event, es: seq<Event>)
    ensures Run(s, [d, e] + es) == Run(Apply(Apply(s, d), e), es)
  {
    Unroll(s, d, [e] + es);
    Unroll(Apply(s, d), e, es);
    assert [d, e] + es == [d] + ([e] + es);
  }

  lemma BothBegin(s: State, z: State)
    requires s == Initial(Share, map[0 := 0])
    requires z == s.(txs := [Tx(0, 0, None, Begun), Tx(0, 1, None, Begun)])
    ensures Apply(Apply(s, Begin(0, 0, None)), Begin(0, 1, None)) == z
  {
  }

  lemma BothStep(s: State, z: State, to: Phase, from: Phase)
    requires s.first == Share && s.rows == map[] && s.counts == map[0 := 0]
    requires s.txs == [Tx(0, 0, None, from), Tx(0, 1, None, from)]
    requires z == s.(txs := [Tx(0, 0, None, to), Tx(0, 1, None, to)])
    requires (from, to) in {(Begun, Queued), (Queued, Locked), (Locked, Checked), (Checked, Inserted)}
    ensures Apply(Apply(s, Step(0, true)), Step(1, true)) == z
  {
    var m := Apply(s, Step(0, true));
    assert !Blocks(s, 1, 0) && !Blocked(s, 0);
    assert m.txs == [Tx(0, 0, None, to), Tx(0, 1, None, from)];
    assert !Blocks(m, 0, 1) && !Blocked(m, 1);
  }

  ghost predicate DeadlocksOn(first: Mode, base: map<JobId, int>, es: seq<Event>, c: seq<TxId>) {
    WaitCycle(Run(Initial(first, base), es), c)
  }

  /** Some run of some transactions reaches a ring of waiting. */
  ghost predicate CanDeadlock(first: Mode) {
    exists base, es, c :: DeadlocksOn(first, base, es, c)
  }

  lemma OthersNeverDeadlock(first: Mode, base: map<JobId, int>, es: seq<Event>, c: seq<TxId>)
    requires !first.Share?
    ensures !WaitCycle(Run(Initial(first, base), es), c)
  {
    RunKeepsExclusive(Initial(first, base), es);
    NoWaitCycle(Run(Initial(first, base), es), c);
  }

  /** A ring of waiting transactions is reachable if and only if the first lock is FOR SHARE. The
    source's FOR NO KEY UPDATE is one of the modes that rule it out. */
  lemma DeadlockIffShared(first: Mode)
    ensures CanDeadlock(first) <==> first.Share?
  {
    if first.Share? {
      SharedLockDeadlocks();
      assert DeadlocksOn(first, map[0 := 0], TWO_APPLICANTS, [0, 1]);
    } else {
      forall base, es, c ensures !DeadlocksOn(first, base, es, c) {
        OthersNeverDeadlock(first, base, es, c);
      }
    }
  }

  // ----- everyone finishes -----

  predicate CanMove(s: State, t: TxId) {
    t < |s.txs| && !s.txs[t].phase.Finished? && !Blocked(s, t)
  }

  lemma {:induction false} FollowTheBlockers(s: State, t: TxId) returns (u: TxId)
    requires Exclusive(s) && !s.first.Share? && t < |s.txs| && !s.txs[t].phase.Finished?
    ensures CanMove(s, u)
    decreases 6 - s.txs[t].phase.Rank()
  {
    if Blocked(s, t) {
      var v: TxId :| v < |s.txs| && Blocks(s, v, t);
      BlockersAreAhead(s, v, t);
      u := FollowTheBlockers(s, v);
    } else {
      u := t;
    }
  }

  /** Steps still to go, over all transactions. */
  function Remaining(txs: seq<Tx>): nat {
    if txs == [] then 0 else Remaining(txs[..|txs| - 1]) + 6 - txs[|txs| - 1].phase.Rank()
  }

  lemma {:induction false} RemainingUpdate(txs: seq<Tx>, t: nat, tx: Tx)
    requires t < |txs|
    ensures Remaining(txs[t := tx]) == Remaining(txs) + txs[t].phase.Rank() - tx.phase.Rank()
    decreases |txs|
  {
    var n := |txs| - 1;
    if t < n {
      assert txs[t := tx][..n] == txs[..n][t := tx];
      RemainingUpdate(txs[..n], t, tx);
    } else {
      assert txs[t := tx][..n] == txs[..n];
    }
  }

  predicate Moves(s: State, e: Event) {
    e.Step? && CanMove(s, e.t)
  }

  /** How many events of the run actually move a transaction on. */
  function Moved(s: State, es: seq<Event>): nat
    decreases |es|
  {
    if es == [] then 0 else (if Moves(s, es[0]) then 1 else 0) + Moved(Apply(s, es[0]), es[1..])
  }

  function Begins(es: seq<Event>): nat {
    if es == [] then 0 else (if es[0].Begin? then 1 else 0) + Begins(es[1..])
  }

  lemma StepUsesBudget(s: State, t: TxId, ok: bool)
    requires t < |s.txs|
    ensures Remaining(WithPhase(s, t, Next(s, t, ok)).txs) + (if s.txs[t].phase.Finished? then 0 else 1)
            <= Remaining(s.txs)
  {
    RemainingUpdate(s.txs, t, s.txs[t].(phase := Next(s, t, ok)));
  }

  lemma EventUsesBudget(s: State, e: Event)
    ensures Remaining(Apply(s, e).txs) + (if Moves(s, e) then 1 else 0)
            <= Remaining(s.txs) + (if e.Begin? then 6 else 0)
  {
    match e {
      case Begin(job, candidate, key) =>
        var txs := s.txs + [Tx(job, candidate, key, Begun)];
        assert txs[..|s.txs|] == s.txs;
      case Step(t, ok) =>
        if t < |s.txs| && !Blocked(s, t) {
          StepUsesBudget(s, t, ok);
        }
      case Abort(t) =>
        if t < |s.txs| {
          RemainingUpdate(s.txs, t, s.txs[t].(phase := Finished(Failed)));
        }
    }
  }

  /** Whatever the schedule, the transactions begun in a run move at most six times each. */
  lemma {:induction false} WorkIsBounded(s: State, es: seq<Event>)
    ensures Moved(s, es) + Remaining(Run(s, es).txs) <= Remaining(s.txs) + 6 * Begins(es)
    decreases |es|
  {
    if es != [] {
      EventUsesBudget(s, es[0]);
      WorkIsBounded(Apply(s, es[0]), es[1..]);
    }
  }

  predicate AllFinished(s: State) {
    forall t :: 0 <= t < |s.txs| ==> s.txs[t].phase.Finished?
  }

  lemma {:induction false} Completes(s: State) returns (es: seq<Event>)
    requires Exclusive(s) && !s.first.Share?
    ensures AllFinished(Run(s, es)) && Moved(s, es) == |es|
    decreases Remaining(s.txs)
  {
    es := [];
    if t :| 0 <= t < |s.txs| && !s.txs[t].phase.Finished? {
      var u := FollowTheBlockers(s, t);
      var e := Step(u, true);
      EventUsesBudget(s, e);
      EventKeepsExclusive(s, e);
      var rest := Completes(Apply(s, e));
      es := [e] + rest;
      assert es[1..] == rest;
    }
  }

  /** Unless the first lock is FOR SHARE: in every reachable state, whenever some transaction is
    unfinished some transaction can move, and every transaction can be brought to its end. */
  lemma EveryoneFinishes(first: Mode, base: map<JobId, int>, es: seq<Event>)
    requires !first.Share?
    ensures var s := Run(Initial(first, base), es);
            && ((forall t :: !CanMove(s, t)) ==> AllFinished(s))
            && exists more :: AllFinished(Run(s, more)) && Moved(s, more) == |more| && |more| <= Remaining(s.txs)
  {
    var s := Run(Initial(first, base), es);
    RunKeepsExclusive(Initial(first, base), es);
    if t :| 0 <= t < |s.txs| && !s.txs[t].phase.Finished? {
      var u := FollowTheBlockers(s, t);
    }
    var more := Completes(s);
    WorkIsBounded(s, more);
    NoBegins(s, more);
  }

  /** An event that moves a transaction begins none. */
  lemma {:induction false} NoBegins(s: State, es: seq<Event>)
    requires Moved(s, es) == |es|
    ensures Begins(es) == 0
    decreases |es|
  {
    if es != [] {
      MovedAtMost(Apply(s, es[0]), es[1..]);
      NoBegins(Apply(s, es[0]), es[1..]);
    }
  }

  lemma {:induction false} MovedAtMost(s: State, es: seq<Event>)
    ensures Moved(s, es) <= |es|
    decreases |es|
  {
    if es != [] {
      MovedAtMost(Apply(s, es[0]), es[1..]);
    }
  }
}
