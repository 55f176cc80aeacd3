/** Uniqueness and counter conservation, whatever the first lock is. */
module JobRows {
  import opened Common
  import opened JobLocks

  ghost function RowsOf(s: State, job: JobId): set<TxId> {
    set a | a in s.rows && s.rows[a].job == job
  }

  ghost predicate Inv(s: State, base: map<JobId, int>) {
    && RowsCommitted(s)
    && PairsUnique(s)
    && PendingUnique(s)
    && s.counts.Keys == base.Keys
    && (forall j :: j in base ==> s.counts[j] == base[j] + |RowsOf(s, j)|)
    && CountersCurrent(s)
  }

  ghost predicate PairsUnique(s: State) {
    forall a, b :: a in s.rows && b in s.rows && s.rows[a].job == s.rows[b].job && s.rows[a].candidate == s.rows[b].candidate
      ==> a == b
  }

  /** Uncommitted rows collide neither with each other nor with committed ones. */
  ghost predicate PendingUnique(s: State) {
    && (forall t :: 0 <= t < |s.txs| && s.txs[t].phase.HoldsRow() ==> !Applied(s, s.txs[t].job, s.txs[t].candidate))
    && (forall t, u | 0 <= t < u < |s.txs| && s.txs[t].phase.HoldsRow() && s.txs[u].phase.HoldsRow()
          && s.txs[t].job == s.txs[u].job :: s.txs[t].candidate != s.txs[u].candidate)
  }

  /** The update's lock is exclusive, so the count it read is still the count when it commits. */
  ghost predicate CountersCurrent(s: State) {
    && (forall t :: 0 <= t < |s.txs| && s.txs[t].phase.Counted? ==>
          s.txs[t].job in s.counts && s.txs[t].phase.newCount == s.counts[s.txs[t].job] + 1)
    && (forall t, u :: 0 <= t < u < |s.txs| && s.txs[t].phase.Counted? && s.txs[u].phase.Counted?
          ==> s.txs[t].job != s.txs[u].job)
  }

  lemma InsertKeepsPending(s: State, t: TxId, ok: bool)
    requires PendingUnique(s) && t < |s.txs| && !Blocked(s, t) && s.txs[t].phase.Checked?
    ensures PendingUnique(Apply(s, Step(t, ok)))
  {
    var z := Apply(s, Step(t, ok));
    forall u | 0 <= u < |s.txs| && u != t && s.txs[u].phase.HoldsRow() && s.txs[u].job == s.txs[t].job
      ensures s.txs[u].candidate != s.txs[t].candidate
    {
      assert !Blocks(s, u, t);
    }
    assert z.rows == s.rows;
    forall u | 0 <= u < |z.txs| && z.txs[u].phase.HoldsRow() ensures !Applied(z, z.txs[u].job, z.txs[u].candidate) {
      assert !Applied(s, s.txs[u].job, s.txs[u].candidate);
    }
  }

  lemma CountKeepsCounters(s: State, t: TxId, ok: bool)
    requires CountersCurrent(s) && t < |s.txs| && !Blocked(s, t) && s.txs[t].phase.Inserted?
    ensures CountersCurrent(Apply(s, Step(t, ok)))
  {
    forall u | 0 <= u < |s.txs| && s.txs[u].phase.Counted? ensures s.txs[u].job != s.txs[t].job {
      assert !Blocks(s, u, t);
      assert NoKeyUpdate in Held(s.first, s.txs[u].phase) && Conflicts(NoKeyUpdate, NoKeyUpdate);
    }
  }

  ghost predicate RowsCommitted(s: State) {
    forall a :: a in s.rows ==> a < |s.txs| && s.txs[a].phase == Finished(Created)
  }

  lemma CommitKeepsRows(s: State, t: TxId, ok: bool)
    requires RowsCommitted(s) && PairsUnique(s) && PendingUnique(s)
    requires t < |s.txs| && !Blocked(s, t) && s.txs[t].phase.Counted?
    ensures var z := Apply(s, Step(t, ok)); RowsCommitted(z) && PairsUnique(z) && PendingUnique(z)
  {
    var z := Apply(s, Step(t, ok));
    var tx := s.txs[t];
    forall a | a in s.rows && s.rows[a].job == tx.job ensures s.rows[a].candidate != tx.candidate {
      assert !Applied(s, tx.job, tx.candidate);
    }
    forall u | 0 <= u < |z.txs| && z.txs[u].phase.HoldsRow() ensures !Applied(z, z.txs[u].job, z.txs[u].candidate) {
      assert u != t && !Applied(s, s.txs[u].job, s.txs[u].candidate);
    }
  }

  lemma CommitKeepsCounters(s: State, t: TxId, ok: bool)
    requires CountersCurrent(s) && t < |s.txs| && !Blocked(s, t) && s.txs[t].phase.Counted?
    ensures CountersCurrent(Apply(s, Step(t, ok)))
    ensures var z := Apply(s, Step(t, ok));
            && s.txs[t].job in s.counts
            && z.counts == s.counts[s.txs[t].job := s.counts[s.txs[t].job] + 1]
            && z.rows == s.rows[t := Application(s.txs[t].job, s.txs[t].candidate, s.txs[t].key)]
  {
  }

  lemma OneRowMore(s: State, z: State, t: TxId, r: Application, j: JobId)
    requires t !in s.rows && z.rows == s.rows[t := r]
    ensures |RowsOf(z, j)| == |RowsOf(s, j)| + if j == r.job then 1 else 0
  {
    if j == r.job {
      assert RowsOf(z, j) == RowsOf(s, j) + {t};
    } else {
      assert RowsOf(z, j) == RowsOf(s, j);
    }
  }

  lemma CommitKeepsCounts(s: State, z: State, t: TxId, r: Application, base: map<JobId, int>)
    requires s.counts.Keys == base.Keys && r.job in base && t !in s.rows
    requires z.rows == s.rows[t := r] && z.counts == s.counts[r.job := s.counts[r.job] + 1]
    requires forall j :: j in base ==> s.counts[j] == base[j] + |RowsOf(s, j)|
    ensures z.counts.Keys == base.Keys
    ensures forall j :: j in base ==> z.counts[j] == base[j] + |RowsOf(z, j)|
  {
    forall j | j in base ensures z.counts[j] == base[j] + |RowsOf(z, j)| {
      OneRowMore(s, z, t, r, j);
    }
  }

  lemma SameRows(s: State, z: State, base: map<JobId, int>)
    requires Inv(s, base) && z.rows == s.rows && z.counts == s.counts
    requires PendingUnique(z) && CountersCurrent(z) && |s.txs| <= |z.txs|
    requires forall t :: 0 <= t < |s.txs| && s.txs[t].phase == Finished(Created) ==> z.txs[t] == s.txs[t]
    ensures Inv(z, base)
  {
    forall j | j in base ensures z.counts[j] == base[j] + |RowsOf(z, j)| {
      assert RowsOf(z, j) == RowsOf(s, j);
    }
  }

  /** Phases that reserve nothing can change without disturbing the reservations. */
  lemma QuietKeepsPending(s: State, z: State)
    requires PendingUnique(s) && CountersCurrent(s) && z.rows == s.rows && z.counts == s.counts && |s.txs| <= |z.txs|
    requires forall t :: 0 <= t < |z.txs| && z.txs[t].phase.HoldsRow() ==> t < |s.txs| && z.txs[t] == s.txs[t]
    ensures PendingUnique(z) && CountersCurrent(z)
  {
    forall t | 0 <= t < |z.txs| && z.txs[t].phase.HoldsRow() ensures !Applied(z, z.txs[t].job, z.txs[t].candidate) {
      assert !Applied(s, s.txs[t].job, s.txs[t].candidate);
    }
  }

  lemma CountKeepsPending(s: State, t: TxId, ok: bool)
    requires PendingUnique(s) && t < |s.txs| && !Blocked(s, t) && s.txs[t].phase.Inserted?
    ensures PendingUnique(Apply(s, Step(t, ok)))
  {
    var z := Apply(s, Step(t, ok));
    forall u | 0 <= u < |z.txs| && z.txs[u].phase.HoldsRow() ensures !Applied(z, z.txs[u].job, z.txs[u].candidate) {
      assert s.txs[u].phase.HoldsRow() && !Applied(s, s.txs[u].job, s.txs[u].candidate);
    }
  }

  lemma CommitKeepsInv(s: State, t: TxId, ok: bool, base: map<JobId, int>)
    requires Inv(s, base) && t < |s.txs| && !Blocked(s, t) && s.txs[t].phase.Counted?
    ensures Inv(Apply(s, Step(t, ok)), base)
  {
    CommitKeepsRows(s, t, ok);
    CommitKeepsCounters(s, t, ok);
    CommitKeepsCounts(s, Apply(s, Step(t, ok)), t, Application(s.txs[t].job, s.txs[t].candidate, s.txs[t].key), base);
  }

  lemma InsertKeepsInv(s: State, t: TxId, ok: bool, base: map<JobId, int>)
    requires Inv(s, base) && t < |s.txs| && !Blocked(s, t) && s.txs[t].phase.Checked?
    ensures Inv(Apply(s, Step(t, ok)), base)
  {
    InsertKeepsPending(s, t, ok);
    SameRows(s, Apply(s, Step(t, ok)), base);
  }

  lemma CountKeepsInv(s: State, t: TxId, ok: bool, base: map<JobId, int>)
    requires Inv(s, base) && t < |s.txs| && !Blocked(s, t) && s.txs[t].phase.Inserted?
    ensures Inv(Apply(s, Step(t, ok)), base)
  {
    CountKeepsPending(s, t, ok);
    CountKeepsCounters(s, t, ok);
    SameRows(s, Apply(s, Step(t, ok)), base);
  }

  lemma QuietKeepsInv(s: State, e: Event, base: map<JobId, int>)
    requires Inv(s, base)
    requires e.Step? && e.t < |s.txs| ==> s.txs[e.t].phase.Rank() <= 2 || s.txs[e.t].phase.Finished? || Blocked(s, e.t)
    ensures Inv(Apply(s, e), base)
  {
    QuietKeepsPending(s, Apply(s, e));
    SameRows(s, Apply(s, e), base);
  }

  lemma EventKeepsInv(s: State, e: Event, base: map<JobId, int>)
    requires Inv(s, base)
    ensures Inv(Apply(s, e), base)
  {
    if e.Step? && e.t < |s.txs| && !Blocked(s, e.t) && s.txs[e.t].phase.Counted? {
      CommitKeepsInv(s, e.t, e.ok, base);
    } else if e.Step? && e.t < |s.txs| && !Blocked(s, e.t) && s.txs[e.t].phase.Checked? {
      InsertKeepsInv(s, e.t, e.ok, base);
    } else if e.Step? && e.t < |s.txs| && !Blocked(s, e.t) && s.txs[e.t].phase.Inserted? {
      CountKeepsInv(s, e.t, e.ok, base);
    } else {
      QuietKeepsInv(s, e, base);
    }
  }

  lemma {:induction false} RunKeepsInv(s: State, es: seq<Event>, base: map<JobId, int>)
    requires Inv(s, base)
    ensures Inv(Run(s, es), base)
    decreases |es|
  {
    if es != [] {
      EventKeepsInv(s, es[0], base);
      RunKeepsInv(Apply(s, es[0]), es[1..], base);
    }
  }

  /** In every interleaving, and whatever the first lock is: at most one application per job and
    candidate, and each job's counter has grown by exactly the number of its applications. */
  lemma ApplicationsAreUniqueAndCounted(first: Mode, base: map<JobId, int>, es: seq<Event>)
    ensures var s := Run(Initial(first, base), es);
            && PairsUnique(s)
            && s.counts.Keys == base.Keys
            && forall j :: j in base ==> s.counts[j] == base[j] + |RowsOf(s, j)|
  {
    var s := Initial(first, base);
    assert forall j :: RowsOf(s, j) == {};
    RunKeepsInv(s, es, base);
  }

  // ----- what applicants are told -----

  /** The candidate has an application for another job under the same key. */
  predicate KeyElsewhere(s: State, tx: Tx) {
    tx.key.Some? && exists a ::
      a in s.rows && s.rows[a].candidate == tx.candidate && s.rows[a].key == tx.key && s.rows[a].job != tx.job
  }

  ghost predicate TxHonest(s: State, t: TxId)
    requires t < |s.txs|
  {
    var tx := s.txs[t];
    && (t in s.rows <==> tx.phase == Finished(Created))
    && (t in s.rows ==> s.rows[t] == Application(tx.job, tx.candidate, tx.key) && tx.job in s.counts)
    && (tx.phase == Finished(AlreadyApplied) ==> Applied(s, tx.job, tx.candidate))
    && (tx.phase == Finished(Existing) ==> KeySeen(s, tx.candidate, tx.key))
    && (tx.phase == Finished(KeyTaken) ==> KeyElsewhere(s, tx))
    && (tx.phase == Finished(JobNotFound) ==> tx.job !in s.counts)
  }

  ghost predicate Honest(s: State) {
    && (forall a :: a in s.rows ==> a < |s.txs|)
    && forall t: TxId :: t < |s.txs| ==> TxHonest(s, t)
  }

  ghost predicate RowsGrow(s: State, z: State) {
    && (forall a :: a in s.rows ==> a in z.rows && z.rows[a] == s.rows[a])
    && z.counts.Keys == s.counts.Keys
  }

  lemma ElsewherePersists(s: State, z: State, tx: Tx)
    requires KeyElsewhere(s, tx) && RowsGrow(s, z)
    ensures KeyElsewhere(z, tx)
  {
    var a :| a in s.rows && s.rows[a].candidate == tx.candidate && s.rows[a].key == tx.key && s.rows[a].job != tx.job;
    assert a in z.rows;
  }

  lemma SeenElsewhere(s: State, tx: Tx)
    ensures KeySeen(s, tx.candidate, tx.key) && !Applied(s, tx.job, tx.candidate) ==> KeyElsewhere(s, tx)
  {
    if KeySeen(s, tx.candidate, tx.key) && !Applied(s, tx.job, tx.candidate) {
      var a :| a in s.rows && s.rows[a].candidate == tx.candidate && s.rows[a].key == tx.key;
      assert s.rows[a].job != tx.job;
    }
  }

  lemma AnswersPersist(s: State, z: State, t: TxId)
    requires t < |s.txs| && t < |z.txs| && TxHonest(s, t) && RowsGrow(s, z)
    requires z.txs[t] == s.txs[t] && (t in z.rows ==> t in s.rows)
    ensures TxHonest(z, t)
  {
    var tx := s.txs[t];
    if tx.phase == Finished(AlreadyApplied) {
      var a :| a in s.rows && s.rows[a].job == tx.job && s.rows[a].candidate == tx.candidate;
      assert a in z.rows;
    } else if tx.phase == Finished(Existing) {
      var a :| a in s.rows && s.rows[a].candidate == tx.candidate && s.rows[a].key == tx.key;
      assert a in z.rows;
    } else if tx.phase == Finished(KeyTaken) {
      ElsewherePersists(s, z, tx);
    }
  }

  lemma SeenIsSeen(s: State, z: State, tx: Tx)
    requires z.rows == s.rows
    ensures KeySeen(z, tx.candidate, tx.key) == KeySeen(s, tx.candidate, tx.key)
    ensures Applied(z, tx.job, tx.candidate) == Applied(s, tx.job, tx.candidate)
    ensures KeyElsewhere(z, tx) == KeyElsewhere(s, tx)
  {
  }

  lemma StepAnswers(s: State, t: TxId, ok: bool)
    requires t < |s.txs| && TxHonest(s, t)
    ensures TxHonest(Apply(s, Step(t, ok)), t)
  {
    var z := Apply(s, Step(t, ok));
    if !s.txs[t].phase.Counted? {
      SeenIsSeen(s, z, s.txs[t]);
      SeenElsewhere(s, s.txs[t]);
    }
  }

  lemma EventKeepsHonest(s: State, e: Event)
    requires Honest(s) && (forall t :: 0 <= t < |s.txs| && s.txs[t].phase.Counted? ==> s.txs[t].job in s.counts)
    ensures Honest(Apply(s, e)) && RowsGrow(s, Apply(s, e))
  {
    var z := Apply(s, e);
    if e.Step? && e.t < |s.txs| {
      assert TxHonest(s, e.t);
      StepAnswers(s, e.t, e.ok);
    }
    forall t: TxId | t < |z.txs| ensures TxHonest(z, t) {
      if t < |s.txs| && z.txs[t] == s.txs[t] {
        AnswersPersist(s, z, t);
      } else if t < |s.txs| {
        assert TxHonest(s, t);
      }
    }
  }

  lemma {:induction false} RunKeepsHonest(s: State, es: seq<Event>, base: map<JobId, int>)
    requires Inv(s, base) && Honest(s)
    ensures Honest(Run(s, es)) && RowsGrow(s, Run(s, es))
    decreases |es|
  {
    if es != [] {
      EventKeepsInv(s, es[0], base);
      EventKeepsHonest(s, es[0]);
      RunKeepsHonest(Apply(s, es[0]), es[1..], base);
    }
  }

  lemma AnswersStayTrue(first: Mode, base: map<JobId, int>, es: seq<Event>)
    ensures Honest(Run(Initial(first, base), es))
  {
    var s := Initial(first, base);
    assert forall j :: RowsOf(s, j) == {};
    RunKeepsHonest(s, es, base);
  }

  // ----- what the posting's check decided -----

  /** The event is t's step past the check of the locked posting. */
  predicate Judges(s: State, e: Event, t: TxId) {
    e.Step? && e.t == t && t < |s.txs| && s.txs[t].phase.Locked?
  }

  /** What that check said to t during the events: None when t never came past it. */
  function Verdict(s: State, es: seq<Event>, t: TxId): Option<bool>
    decreases |es|
  {
    if es == [] then None
    else if Judges(s, es[0], t) then Some(es[0].ok)
    else Verdict(Apply(s, es[0]), es[1..], t)
  }

  /** What a transaction's phase says about that check; only postings that exist are checked. */
  ghost predicate Judged(s: State, t: TxId, verdict: Option<bool>) {
    if t >= |s.txs| then verdict == None
    else
      && VerdictFits(s.txs[t].phase, verdict)
      && (s.txs[t].phase.Locked? || verdict.Some? ==> s.txs[t].job in s.counts)
  }

  predicate VerdictFits(p: Phase, verdict: Option<bool>) {
    match p
    case Begun => verdict == None
    case Queued => verdict == None
    case Locked => verdict == None
    case Checked => verdict == Some(true)
    case Inserted => verdict == Some(true)
    case Counted(_) => verdict == Some(true)
    case Finished(outcome) =>
      match outcome
      case Refused => verdict == Some(false)
      case Created => verdict == Some(true)
      case AlreadyApplied => verdict == Some(true)
      case KeyTaken => verdict == Some(true)
      case Existing => verdict == None
      case JobNotFound => verdict == None
      case Failed => verdict != Some(false)
  }

  lemma EventJudges(s: State, e: Event, t: TxId, verdict: Option<bool>)
    requires Judged(s, t, verdict)
    ensures Judged(Apply(s, e), t, if Judges(s, e, t) then Some(e.ok) else verdict)
  {
    if Judges(s, e, t) {
      assert forall u: TxId :: !Blocks(s, u, t);
    }
  }

  lemma {:induction false} RunJudges(s: State, es: seq<Event>, t: TxId, verdict: Option<bool>)
    requires Judged(s, t, verdict)
    ensures Judged(Run(s, es), t, if verdict == None then Verdict(s, es, t) else verdict)
    decreases |es|
  {
    if es != [] {
      EventJudges(s, es[0], t, verdict);
      RunJudges(Apply(s, es[0]), es[1..], t, if Judges(s, es[0], t) then Some(es[0].ok) else verdict);
    }
  }

  /** A transaction is answered "created" if and only if its application is stored, and then the
    check said yes; "refused" if and only if the check said no; "already applied" only if the candidate
    has an application for that posting, "existing" only if they have one with that key, "not found"
    only of a missing posting, and the bare key error only if they have one with that key for another
    posting. Nothing is written or reserved before the check said yes, and no posting is checked that
    does not exist. */
  ghost predicate TrueAnswer(s: State, base: map<JobId, int>, t: TxId, verdict: Option<bool>)
    requires t < |s.txs|
  {
    var tx := s.txs[t];
    && (tx.phase == Finished(Created) <==> t in s.rows)
    && (t in s.rows ==> s.rows[t] == Application(tx.job, tx.candidate, tx.key) && verdict == Some(true))
    && (tx.phase.Locked? || verdict.Some? ==> tx.job in base)
    && (tx.phase == Finished(Refused) <==> verdict == Some(false))
    && (tx.phase.Inserted? || tx.phase.Counted? ==> verdict == Some(true))
    && (tx.phase == Finished(AlreadyApplied) ==> Applied(s, tx.job, tx.candidate) && verdict == Some(true))
    && (tx.phase == Finished(Existing) ==> KeySeen(s, tx.candidate, tx.key) && verdict == None)
    && (tx.phase == Finished(KeyTaken) ==> KeyElsewhere(s, tx) && verdict == Some(true))
    && (tx.phase == Finished(JobNotFound) ==> tx.job !in base && verdict == None)
  }

  lemma HonestAndJudged(s: State, base: map<JobId, int>, t: TxId, verdict: Option<bool>)
    requires t < |s.txs| && s.counts.Keys == base.Keys && TxHonest(s, t) && Judged(s, t, verdict)
    ensures TrueAnswer(s, base, t, verdict)
  {
  }

  /** In every interleaving each answer is true, then and ever after. */
  lemma AnswersAreTrue(first: Mode, base: map<JobId, int>, es: seq<Event>, t: TxId)
    ensures var s := Run(Initial(first, base), es);
            && (t in s.rows ==> t < |s.txs|)
            && (t < |s.txs| ==> TrueAnswer(s, base, t, Verdict(Initial(first, base), es, t)))
  {
    var s := Initial(first, base);
    var z := Run(s, es);
    assert forall j :: RowsOf(s, j) == {};
    RunKeepsInv(s, es, base);
    AnswersStayTrue(first, base, es);
    RunJudges(s, es, t, None);
    if t < |z.txs| {
      HonestAndJudged(z, base, t, Verdict(s, es, t));
    }
  }
}
