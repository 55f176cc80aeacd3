/** When the key's index turns a create away with an error nothing recognises. */
module JobKeyErrors {
  import opened Common
  import opened JobLocks
  import opened JobRows
  import opened JobKeys

  ghost predicate GetsBareError(s: State, candidate: CandidateId, key: Key) {
    exists t :: 0 <= t < |s.txs| && s.txs[t].candidate == candidate && s.txs[t].key == Some(key)
      && s.txs[t].phase == Finished(KeyTaken)
  }

  /** The candidate sends this key only for these postings. */
  ghost predicate SendsOnlyFor(es: seq<Event>, candidate: CandidateId, key: Key, jobs: set<JobId>) {
    forall i :: 0 <= i < |es| && es[i].Begin? && es[i].candidate == candidate && es[i].key == Some(key)
      ==> es[i].job in jobs
  }

  ghost predicate StaysWithin(s: State, candidate: CandidateId, key: Key, jobs: set<JobId>) {
    && (forall t :: 0 <= t < |s.txs| && s.txs[t].candidate == candidate && s.txs[t].key == Some(key)
          ==> s.txs[t].job in jobs)
    && (forall a :: a in s.rows && s.rows[a].candidate == candidate && s.rows[a].key == Some(key)
          ==> s.rows[a].job in jobs)
  }

  lemma {:induction false} RunStaysWithin(s: State, es: seq<Event>, candidate: CandidateId, key: Key, jobs: set<JobId>)
    requires StaysWithin(s, candidate, key, jobs) && SendsOnlyFor(es, candidate, key, jobs)
    ensures StaysWithin(Run(s, es), candidate, key, jobs)
    decreases |es|
  {
    if es != [] {
      assert StaysWithin(Apply(s, es[0]), candidate, key, jobs);
      assert SendsOnlyFor(es[1..], candidate, key, jobs) by {
        assert forall i :: 0 <= i < |es[1..]| ==> es[1..][i] == es[i + 1];
      }
      RunStaysWithin(Apply(s, es[0]), es[1..], candidate, key, jobs);
    }
  }

  lemma OnePostingNoBareError(
    first: Mode, base: map<JobId, int>, es: seq<Event>, candidate: CandidateId, key: Key, job: JobId)
    requires SendsOnlyFor(es, candidate, key, {job})
    ensures !GetsBareError(Run(Initial(first, base), es), candidate, key)
  {
    var s := Run(Initial(first, base), es);
    RunStaysWithin(Initial(first, base), es, candidate, key, {job});
    AnswersStayTrue(first, base, es);
    forall t: TxId | t < |s.txs| && s.txs[t].candidate == candidate && s.txs[t].key == Some(key)
      ensures s.txs[t].phase != Finished(KeyTaken)
    {
      assert TxHonest(s, t);
    }
  }

  // ----- two postings -----

  /** Transaction 0 applies to j and transaction 1 to k, with one key. */
  datatype Pair = Pair(j: JobId, k: JobId, candidate: CandidateId, key: Key)

  function At(first: Mode, base: map<JobId, int>, p: Pair, x: Phase, y: Phase): State {
    Initial(first, base).(txs := [Tx(p.j, p.candidate, Some(p.key), x), Tx(p.k, p.candidate, Some(p.key), y)])
  }

  /** Transaction 0 has committed. */
  function Stored(first: Mode, base: map<JobId, int>, p: Pair, y: Phase): State
    requires p.j in base
  {
    At(first, base, p, Finished(Created), y).(
      rows := map[0 := Application(p.j, p.candidate, Some(p.key))], counts := base[p.j := base[p.j] + 1])
  }

  /** Reached from s by steps alone. */
  ghost predicate Leads(s: State, z: State) {
    exists es :: OnlySteps(es) && Run(s, es) == z
  }

  ghost predicate OnlySteps(es: seq<Event>) {
    forall i :: 0 <= i < |es| ==> es[i].Step?
  }

  lemma LeadsOn(s: State, m: State, t: TxId)
    requires Leads(s, m)
    ensures Leads(s, Apply(m, Step(t, true)))
  {
    var es :| OnlySteps(es) && Run(s, es) == m;
    RunAppend(s, es, [Step(t, true)]);
    assert Run(m, [Step(t, true)]) == Run(Apply(m, Step(t, true)), []);
    assert OnlySteps(es + [Step(t, true)]);
  }

  lemma FirstMoves(first: Mode, base: map<JobId, int>, p: Pair, x: Phase, y: Phase)
    requires p.j in base && p.k in base && p.j != p.k
    requires (x.Begun? && y.Begun?) || ((x.Queued? || x.Locked? || x.Checked? || x.Inserted?) && y.Queued?)
    ensures var s := At(first, base, p, x, y);
            && Apply(s, Step(0, true)) == At(first, base, p, Next(s, 0, true), y)
            && Next(s, 0, true) == match x case Begun => Queued case Queued => Locked case Locked => Checked
                                           case Checked => Inserted case _ => Counted(base[p.j] + 1)
  {
    assert !Blocked(At(first, base, p, x, y), 0);
  }

  lemma SecondLooksUp(first: Mode, base: map<JobId, int>, p: Pair)
    requires p.j != p.k
    ensures Apply(At(first, base, p, Queued, Begun), Step(1, true)) == At(first, base, p, Queued, Queued)
  {
    assert !Blocked(At(first, base, p, Queued, Begun), 1);
  }

  lemma FirstCommits(first: Mode, base: map<JobId, int>, p: Pair)
    requires p.j in base && p.j != p.k
    ensures Apply(At(first, base, p, Counted(base[p.j] + 1), Queued), Step(0, true)) == Stored(first, base, p, Queued)
  {
    assert !Blocked(At(first, base, p, Counted(base[p.j] + 1), Queued), 0);
  }

  lemma SecondMoves(first: Mode, base: map<JobId, int>, p: Pair, y: Phase)
    requires p.j in base && p.k in base && p.j != p.k && (y.Queued? || y.Locked? || y.Checked?)
    ensures Apply(Stored(first, base, p, y), Step(1, true)) == Stored(first, base, p,
              match y case Queued => Locked case Locked => Checked case _ => Finished(KeyTaken))
  {
    var s := Stored(first, base, p, y);
    assert !Blocked(s, 1);
    assert 0 in s.rows && s.rows[0].candidate == p.candidate && s.rows[0].key == Some(p.key);
  }

  lemma FirstGoesAhead(first: Mode, base: map<JobId, int>, p: Pair)
    requires p.j in base && p.k in base && p.j != p.k
    ensures Leads(At(first, base, p, Begun, Begun), Stored(first, base, p, Queued))
  {
    var s := At(first, base, p, Begun, Begun);
    assert OnlySteps([]) && Run(s, []) == s;
    FirstMoves(first, base, p, Begun, Begun);
    LeadsOn(s, s, 0);
    SecondLooksUp(first, base, p);
    LeadsOn(s, At(first, base, p, Queued, Begun), 1);
    for n := 0 to 3
      invariant Leads(s, At(first, base, p, Early(n), Queued))
    {
      FirstMoves(first, base, p, Early(n), Queued);
      LeadsOn(s, At(first, base, p, Early(n), Queued), 0);
    }
    FirstMoves(first, base, p, Inserted, Queued);
    LeadsOn(s, At(first, base, p, Inserted, Queued), 0);
    FirstCommits(first, base, p);
    LeadsOn(s, At(first, base, p, Counted(base[p.j] + 1), Queued), 0);
  }

  function Early(n: nat): Phase {
    if n == 0 then Queued else if n == 1 then Locked else if n == 2 then Checked else Inserted
  }

  lemma SecondIsTurnedAway(first: Mode, base: map<JobId, int>, p: Pair)
    requires p.j in base && p.k in base && p.j != p.k
    ensures Leads(At(first, base, p, Begun, Begun), Stored(first, base, p, Finished(KeyTaken)))
  {
    var s := At(first, base, p, Begun, Begun);
    FirstGoesAhead(first, base, p);
    SecondMoves(first, base, p, Queued);
    LeadsOn(s, Stored(first, base, p, Queued), 1);
    SecondMoves(first, base, p, Locked);
    LeadsOn(s, Stored(first, base, p, Locked), 1);
    SecondMoves(first, base, p, Checked);
    LeadsOn(s, Stored(first, base, p, Checked), 1);
  }

  lemma TwoPostingsBareError(first: Mode, base: map<JobId, int>, p: Pair) returns (es: seq<Event>)
    requires p.j in base && p.k in base && p.j != p.k
    ensures SendsOnlyFor(es, p.candidate, p.key, {p.j, p.k})
    ensures GetsBareError(Run(Initial(first, base), es), p.candidate, p.key)
  {
    SecondIsTurnedAway(first, base, p);
    var z := Stored(first, base, p, Finished(KeyTaken));
    var steps :| OnlySteps(steps) && Run(At(first, base, p, Begun, Begun), steps) == z;
    var b, c := Begin(p.j, p.candidate, Some(p.key)), Begin(p.k, p.candidate, Some(p.key));
    es := [b, c] + steps;
    assert es == [b] + ([c] + steps);
    RunAppend(Initial(first, base), [b], [c] + steps);
    RunAppend(Apply(Initial(first, base), b), [c], steps);
    assert Apply(Apply(Initial(first, base), b), c) == At(first, base, p, Begun, Begun);
    assert z.txs[1].phase == Finished(KeyTaken);
  }

  /** A candidate's key can be answered with the bare error if and only if it is sent for two
    postings. */
  lemma BareErrorIffTwoPostings(first: Mode, base: map<JobId, int>, p: Pair)
    requires p.j in base && p.k in base
    ensures (exists es :: SendsOnlyFor(es, p.candidate, p.key, {p.j, p.k})
                          && GetsBareError(Run(Initial(first, base), es), p.candidate, p.key))
            <==> p.j != p.k
  {
    if p.j != p.k {
      var es := TwoPostingsBareError(first, base, p);
    } else {
      forall es | SendsOnlyFor(es, p.candidate, p.key, {p.j, p.k})
        ensures !GetsBareError(Run(Initial(first, base), es), p.candidate, p.key)
      {
        assert {p.j, p.k} == {p.j};
        OnePostingNoBareError(first, base, es, p.candidate, p.key, p.j);
      }
    }
  }
}
