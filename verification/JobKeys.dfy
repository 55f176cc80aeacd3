/** What an idempotency key promises on the SQL path, where it is looked up before the job row is
  locked and a unique index on (candidate, key) is what holds.
 */
module JobKeys {
  import opened Common
  import opened JobLocks
  import opened JobRows
  import JobDeadlock

  // ----- one application per key -----

  ghost predicate KeysUnique(s: State) {
    forall a, b :: a in s.rows && b in s.rows && s.rows[a].key.Some?
      && s.rows[a].key == s.rows[b].key && s.rows[a].candidate == s.rows[b].candidate
      ==> a == b
  }

  /** Uncommitted rows share a key neither with each other nor with committed ones. */
  ghost predicate PendingKeysUnique(s: State) {
    && (forall t :: 0 <= t < |s.txs| && s.txs[t].phase.HoldsRow() ==> !KeySeen(s, s.txs[t].candidate, s.txs[t].key))
    && (forall t, u | 0 <= t < u < |s.txs| && s.txs[t].phase.HoldsRow() && s.txs[u].phase.HoldsRow()
          && s.txs[t].key.Some? && s.txs[t].key == s.txs[u].key :: s.txs[t].candidate != s.txs[u].candidate)
  }

  lemma InsertKeepsKeys(s: State, t: TxId, ok: bool)
    requires PendingKeysUnique(s) && t < |s.txs| && !Blocked(s, t) && s.txs[t].phase.Checked?
    ensures PendingKeysUnique(Apply(s, Step(t, ok)))
  {
    var z := Apply(s, Step(t, ok));
    var tx := s.txs[t];
    forall u | 0 <= u < |z.txs| && z.txs[u].phase.HoldsRow() ensures !KeySeen(z, z.txs[u].candidate, z.txs[u].key) {
      SeenIsSeen(s, z, z.txs[u]);
    }
    if Next(s, t, ok).Inserted? && tx.key.Some? {
      forall u | 0 <= u < |s.txs| && u != t && s.txs[u].phase.HoldsRow() && s.txs[u].key == tx.key
        ensures s.txs[u].candidate != tx.candidate
      {
        assert !Blocks(s, u, t);
      }
    }
  }

  lemma CommitKeepsKeys(s: State, t: TxId, ok: bool)
    requires KeysUnique(s) && PendingKeysUnique(s) && t < |s.txs| && !Blocked(s, t) && s.txs[t].phase.Counted?
    ensures var z := Apply(s, Step(t, ok)); KeysUnique(z) && PendingKeysUnique(z)
  {
    var z := Apply(s, Step(t, ok));
    var tx := s.txs[t];
    forall a | a in s.rows && tx.key.Some? && s.rows[a].key == tx.key ensures s.rows[a].candidate != tx.candidate {
      assert !KeySeen(s, tx.candidate, tx.key);
    }
    forall u | 0 <= u < |z.txs| && z.txs[u].phase.HoldsRow() ensures !KeySeen(z, z.txs[u].candidate, z.txs[u].key) {
      assert u != t && !KeySeen(s, s.txs[u].candidate, s.txs[u].key);
    }
  }

  lemma OtherEventsKeepKeys(s: State, e: Event)
    requires PendingKeysUnique(s)
    requires e.Step? && e.t < |s.txs| ==>
      Blocked(s, e.t) || (!s.txs[e.t].phase.Checked? && !s.txs[e.t].phase.Counted?)
    ensures PendingKeysUnique(Apply(s, e)) && Apply(s, e).rows == s.rows
  {
    var z := Apply(s, e);
    forall u | 0 <= u < |z.txs| && z.txs[u].phase.HoldsRow() ensures !KeySeen(z, z.txs[u].candidate, z.txs[u].key) {
      SeenIsSeen(s, z, z.txs[u]);
      assert s.txs[u].phase.HoldsRow();
    }
  }

  lemma {:induction false} RunKeepsKeys(s: State, es: seq<Event>)
    requires KeysUnique(s) && PendingKeysUnique(s)
    ensures KeysUnique(Run(s, es)) && PendingKeysUnique(Run(s, es))
    decreases |es|
  {
    if es != [] {
      var e := es[0];
      if e.Step? && e.t < |s.txs| && !Blocked(s, e.t) && s.txs[e.t].phase.Counted? {
        CommitKeepsKeys(s, e.t, e.ok);
      } else if e.Step? && e.t < |s.txs| && !Blocked(s, e.t) && s.txs[e.t].phase.Checked? {
        InsertKeepsKeys(s, e.t, e.ok);
      } else {
        OtherEventsKeepKeys(s, e);
      }
      RunKeepsKeys(Apply(s, e), es[1..]);
    }
  }

  /** In every interleaving, whatever the first lock is: one candidate's key names at most one
    application. */
  lemma OneApplicationPerKey(first: Mode, base: map<JobId, int>, es: seq<Event>)
    ensures KeysUnique(Run(Initial(first, base), es))
  {
    RunKeepsKeys(Initial(first, base), es);
  }

  // ----- a retry that comes later -----

  lemma KeyStaysSeen(s: State, z: State, candidate: CandidateId, key: Option<Key>)
    requires KeySeen(s, candidate, key) && RowsGrow(s, z)
    ensures KeySeen(z, candidate, key)
  {
    var a :| a in s.rows && s.rows[a].candidate == candidate && s.rows[a].key == key;
    assert a in z.rows;
  }

  lemma RowsOnlyGrow(first: Mode, base: map<JobId, int>, before: seq<Event>, after: seq<Event>)
    ensures var s := Run(Initial(first, base), before); RowsGrow(s, Run(s, after))
  {
    assert forall j :: RowsOf(Initial(first, base), j) == {};
    RunKeepsInv(Initial(first, base), before, base);
    AnswersStayTrue(first, base, before);
    RunKeepsHonest(Run(Initial(first, base), before), after, base);
  }

  /** A retry that starts after the first attempt has committed, however much later and for whatever
    posting, reads the key without waiting for any lock, answers "existing" and adds nothing. */
  lemma RetryAddsNothing(
    first: Mode, base: map<JobId, int>, before: seq<Event>, after: seq<Event>,
    job: JobId, candidate: CandidateId, key: Key, ok: bool)
    requires KeySeen(Run(Initial(first, base), before), candidate, Some(key))
    ensures var s := Run(Run(Initial(first, base), before), after);
            var z := Apply(Apply(s, Begin(job, candidate, Some(key))), Step(|s.txs|, ok));
            && z.txs == s.txs + [Tx(job, candidate, Some(key), Finished(Existing))]
            && z.rows == s.rows && z.counts == s.counts
  {
    var m := Run(Initial(first, base), before);
    RowsOnlyGrow(first, base, before, after);
    KeyStaysSeen(m, Run(m, after), candidate, Some(key));
    RetryAnswers(Run(m, after), job, candidate, key, ok);
  }

  lemma RetryAnswers(s: State, job: JobId, candidate: CandidateId, key: Key, ok: bool)
    requires KeySeen(s, candidate, Some(key))
    ensures var z := Apply(Apply(s, Begin(job, candidate, Some(key))), Step(|s.txs|, ok));
            && z.txs == s.txs + [Tx(job, candidate, Some(key), Finished(Existing))]
            && z.rows == s.rows && z.counts == s.counts
  {
    var m := Apply(s, Begin(job, candidate, Some(key)));
    assert !Blocked(m, |s.txs|);
    var a :| a in s.rows && s.rows[a].candidate == candidate && s.rows[a].key == Some(key);
    assert a in m.rows;
  }

  // ----- a retry that overlaps the first attempt -----

  /** Past its lookup without a row of its own, and the key has since been used. */
  ghost predicate Outrun(s: State, t: TxId) {
    && t < |s.txs| && KeySeen(s, s.txs[t].candidate, s.txs[t].key)
    && match s.txs[t].phase
       case Begun => false
       case Queued => true
       case Locked => true
       case Checked => true
       case Inserted => false
       case Counted(_) => false
       case Finished(outcome) => !outcome.Created? && !outcome.Existing?
  }

  lemma EventKeepsOutrun(s: State, t: TxId, e: Event)
    requires Outrun(s, t) && RowsGrow(s, Apply(s, e))
    ensures Outrun(Apply(s, e), t)
  {
    KeyStaysSeen(s, Apply(s, e), s.txs[t].candidate, s.txs[t].key);
  }

  lemma {:induction false} RunKeepsOutrun(s: State, t: TxId, es: seq<Event>, base: map<JobId, int>)
    requires Inv(s, base) && Honest(s) && Outrun(s, t)
    ensures Outrun(Run(s, es), t)
    decreases |es|
  {
    if es != [] {
      EventKeepsInv(s, es[0], base);
      EventKeepsHonest(s, es[0]);
      EventKeepsOutrun(s, t, es[0]);
      RunKeepsOutrun(Apply(s, es[0]), t, es[1..], base);
    }
  }

  /** A retry that has already looked the key up when the first attempt commits is never given the
    first attempt's answer: in the rest of any run it is refused or fails. */
  lemma OverlappingRetryIsRefused(
    first: Mode, base: map<JobId, int>, before: seq<Event>, t: TxId, after: seq<Event>)
    requires Outrun(Run(Initial(first, base), before), t)
    ensures var z := Run(Run(Initial(first, base), before), after);
            && t < |z.txs| && !z.txs[t].phase.HoldsRow()
            && z.txs[t].phase != Finished(Created) && z.txs[t].phase != Finished(Existing)
  {
    assert forall j :: RowsOf(Initial(first, base), j) == {};
    RunKeepsInv(Initial(first, base), before, base);
    AnswersStayTrue(first, base, before);
    RunKeepsOutrun(Run(Initial(first, base), before), t, after, base);
  }

  // ----- the bare error -----

  lemma {:induction false} RunKeepsIdentity(s: State, es: seq<Event>, t: TxId)
    requires t < |s.txs|
    ensures var z := Run(s, es); t < |z.txs| && z.txs[t] == s.txs[t].(phase := z.txs[t].phase)
    decreases |es|
  {
    if es != [] {
      RunKeepsIdentity(Apply(s, es[0]), es[1..], t);
    }
  }

  lemma {:induction false} RunAppend(s: State, es: seq<Event>, fs: seq<Event>)
    ensures Run(s, es + fs) == Run(Run(s, es), fs)
    decreases |es|
  {
    if es == [] {
      assert es + fs == fs;
    } else {
      assert (es + fs)[0] == es[0] && (es + fs)[1..] == es[1..] + fs;
      RunAppend(Apply(s, es[0]), es[1..], fs);
    }
  }

  /** With an exclusive first lock nobody can apply to the job between the check and the insert. */
  ghost predicate ChecksHold(s: State) {
    forall t :: 0 <= t < |s.txs| && s.txs[t].phase.Checked? ==> !Applied(s, s.txs[t].job, s.txs[t].candidate)
  }

  lemma EventKeepsChecks(s: State, e: Event)
    requires JobDeadlock.Exclusive(s) && (s.first.NoKeyUpdate? || s.first.Update?) && ChecksHold(s)
    ensures ChecksHold(Apply(s, e))
  {
    var z := Apply(s, e);
    forall t | 0 <= t < |z.txs| && z.txs[t].phase.Checked? ensures !Applied(z, z.txs[t].job, z.txs[t].candidate) {
      if e.Step? && e.t < |s.txs| && !Blocked(s, e.t) && s.txs[e.t].phase.Counted? {
        assert s.txs[e.t].phase.HoldsJob() && s.txs[t].phase.HoldsJob() && t != e.t;
        assert s.txs[e.t].job != s.txs[t].job;
        assert !Applied(s, s.txs[t].job, s.txs[t].candidate);
      } else {
        SeenIsSeen(s, z, z.txs[t]);
      }
    }
  }

  lemma {:induction false} RunKeepsChecks(s: State, es: seq<Event>)
    requires JobDeadlock.Exclusive(s) && (s.first.NoKeyUpdate? || s.first.Update?) && ChecksHold(s)
    ensures ChecksHold(Run(s, es))
    decreases |es|
  {
    if es != [] {
      EventKeepsChecks(s, es[0]);
      JobDeadlock.EventKeepsExclusive(s, es[0]);
      RunKeepsChecks(Apply(s, es[0]), es[1..]);
    }
  }

  /** t looks its key up in vain after `before`, and after `between` is about to insert. */
  ghost predicate AboutToInsert(first: Mode, base: map<JobId, int>, before: seq<Event>, t: TxId, between: seq<Event>) {
    var s := Run(Initial(first, base), before);
    var m := Run(s, between);
    && t < |s.txs| && s.txs[t].phase.Begun? && !KeySeen(s, s.txs[t].candidate, s.txs[t].key)
    && t < |m.txs| && m.txs[t].phase.Checked? && !Blocked(m, t)
  }

  /** Since the lookup an application of the candidate under the same key, for another job, has
    been committed. */
  ghost predicate KeyUsedSince(s: State, m: State, tx: Tx) {
    tx.key.Some? && exists a ::
      a in m.rows && a !in s.rows
      && m.rows[a].candidate == tx.candidate && m.rows[a].key == tx.key && m.rows[a].job != tx.job
  }

  /** Under the source's lock an insert ends in the bare key error if and only if another application
    under the key, for another job, was committed between the transaction's lookup and its insert;
    one still uncommitted is waited for first. Under the weaker locks the duplicate check may be
    violated as well, and then that is the answer. */
  lemma KeyTakenIff(
    first: Mode, base: map<JobId, int>, before: seq<Event>, t: TxId, between: seq<Event>, ok: bool)
    requires AboutToInsert(first, base, before, t, between)
    ensures var s := Run(Initial(first, base), before);
            var m := Run(s, between);
            && (Apply(m, Step(t, ok)).txs[t].phase == Finished(KeyTaken) <==>
                  KeyUsedSince(s, m, m.txs[t]) && !Applied(m, m.txs[t].job, m.txs[t].candidate))
            && (first.NoKeyUpdate? || first.Update? ==> !Applied(m, m.txs[t].job, m.txs[t].candidate))
  {
    var s := Run(Initial(first, base), before);
    var m := Run(s, between);
    RowsOnlyGrow(first, base, before, between);
    RunKeepsIdentity(s, between, t);
    if first.NoKeyUpdate? || first.Update? {
      RunAppend(Initial(first, base), before, between);
      RunKeepsChecks(Initial(first, base), before + between);
    }
    if !Applied(m, m.txs[t].job, m.txs[t].candidate) {
      SeenSince(s, m, m.txs[t]);
    }
  }

  lemma SeenSince(s: State, m: State, tx: Tx)
    requires RowsGrow(s, m) && !KeySeen(s, tx.candidate, tx.key) && !Applied(m, tx.job, tx.candidate)
    ensures KeySeen(m, tx.candidate, tx.key) <==> KeyUsedSince(s, m, tx)
  {
    if KeySeen(m, tx.candidate, tx.key) {
      var a :| a in m.rows && m.rows[a].candidate == tx.candidate && m.rows[a].key == tx.key;
      assert a !in s.rows;
      assert m.rows[a].job != tx.job;
    }
  }
}
