/** CreateApplication as concurrent transactions: the job-row lock, the checks, the insert under
  the two unique indexes, and the counter.

  The mode of the first lock is a parameter, so that the mode the source takes can be compared
  with the one it used to take. Row-lock conflicts are those of section 13.3.2 of the PostgreSQL
  documentation. A transaction's own writes are invisible to others until it commits.
 */
module JobLocks {
  import opened Common

  type JobId = nat
  type CandidateId = nat
  type Key = nat
  /** A transaction's index, which also serves as the id of the application it inserts. */
  type TxId = nat

  datatype Mode = KeyShare | Share | NoKeyUpdate | Update

  predicate Conflicts(held: Mode, wanted: Mode) {
    match held
    case KeyShare => wanted.Update?
    case Share => wanted.NoKeyUpdate? || wanted.Update?
    case NoKeyUpdate => !wanted.KeyShare?
    case Update => true
  }

  /** The table in arithmetic: two modes conflict when their strengths add up to three or more. */
  lemma ConflictsByStrength(a: Mode, b: Mode)
    ensures Conflicts(a, b) <==> 3 <= Strength(a) + Strength(b)
    ensures Conflicts(a, b) <==> Conflicts(b, a)
  {
  }

  function Strength(m: Mode): nat {
    match m
    case KeyShare => 0
    case Share => 1
    case NoKeyUpdate => 2
    case Update => 3
  }

  /** KeyTaken: the insert violates the unique index on (candidate, key), which the source does not
    recognise and passes on as a bare error. */
  datatype Outcome = Created | Existing | JobNotFound | Refused | AlreadyApplied | KeyTaken | Failed

  /** What a transaction has done so far: Queued has looked its key up and asks for the job row. */
  datatype Phase = Begun | Queued | Locked | Checked | Inserted | Counted(newCount: int) | Finished(outcome: Outcome)
  {
    function Rank(): nat {
      match this
      case Begun => 0
      case Queued => 1
      case Locked => 2
      case Checked => 3
      case Inserted => 4
      case Counted(_) => 5
      case Finished(_) => 6
    }

    predicate HoldsJob() { 2 <= Rank() <= 5 }
    predicate HoldsRow() { Inserted? || Counted? }
  }

  datatype Tx = Tx(job: JobId, candidate: CandidateId, key: Option<Key>, phase: Phase)

  datatype Application = Application(job: JobId, candidate: CandidateId, key: Option<Key>)

  datatype State = State(
    first: Mode,
    txs: seq<Tx>,
    rows: map<TxId, Application>,
    counts: map<JobId, int>)

  /** The insert's foreign key takes KEY SHARE on the job row; the counter update, NO KEY UPDATE. */
  function Held(first: Mode, p: Phase): set<Mode> {
    match p
    case Begun => {}
    case Queued => {}
    case Locked => {first}
    case Checked => {first}
    case Inserted => {first, KeyShare}
    case Counted(_) => {first, KeyShare, NoKeyUpdate}
    case Finished(_) => {}
  }

  function Wanted(first: Mode, p: Phase): Option<Mode> {
    match p
    case Begun => None
    case Queued => Some(first)
    case Locked => None
    case Checked => Some(KeyShare)
    case Inserted => Some(NoKeyUpdate)
    case Counted(_) => None
    case Finished(_) => None
  }

  /** t cannot move until u finishes: u holds a conflicting lock, or an uncommitted row that
    would violate one of the unique indexes. */
  predicate Blocks(s: State, u: TxId, t: TxId) {
    && t < |s.txs| && u < |s.txs| && t != u
    && (|| (s.txs[t].job == s.txs[u].job && JobConflict(s.first, s.txs[u], s.txs[t]))
        || KeyConflict(s, s.txs[u], s.txs[t]))
  }

  predicate JobConflict(first: Mode, holder: Tx, waiter: Tx) {
    LockConflict(first, holder.phase, waiter.phase) || IndexConflict(holder, waiter)
  }

  predicate LockConflict(first: Mode, holder: Phase, waiter: Phase) {
    Wanted(first, waiter).Some? && exists m :: m in Held(first, holder) && Conflicts(m, Wanted(first, waiter).value)
  }

  /** The index on (job, candidate). */
  predicate IndexConflict(holder: Tx, waiter: Tx) {
    waiter.phase.Checked? && holder.phase.HoldsRow() && holder.candidate == waiter.candidate
  }

  /** The index on (candidate, key), consulted once the other one admits the row; an empty key is
    not indexed. The rows may be for different jobs. */
  predicate KeyConflict(s: State, holder: Tx, waiter: Tx) {
    && waiter.phase.Checked? && holder.phase.HoldsRow()
    && waiter.key.Some? && holder.key == waiter.key && holder.candidate == waiter.candidate
    && !Applied(s, waiter.job, waiter.candidate)
  }

  predicate Blocked(s: State, t: TxId) {
    exists u: TxId :: u < |s.txs| && Blocks(s, u, t)
  }

  predicate Applied(s: State, job: JobId, candidate: CandidateId) {
    exists a :: a in s.rows && s.rows[a].job == job && s.rows[a].candidate == candidate
  }

  predicate KeySeen(s: State, candidate: CandidateId, key: Option<Key>) {
    key.Some? && exists a :: a in s.rows && s.rows[a].candidate == candidate && s.rows[a].key == key
  }

  /** The next phase of an unblocked transaction. `ok`: posting open and unexpired, screening
    answered, attachment acceptable. */
  function Next(s: State, t: TxId, ok: bool): Phase
    requires t < |s.txs|
  {
    var tx := s.txs[t];
    match tx.phase
    case Begun =>
      if KeySeen(s, tx.candidate, tx.key) then Finished(Existing) else Queued
    case Queued =>
      if tx.job !in s.counts then Finished(JobNotFound) else Locked
    case Locked =>
      if !ok then Finished(Refused)
      else if Applied(s, tx.job, tx.candidate) then Finished(AlreadyApplied)
      else Checked
    case Checked =>
      if Applied(s, tx.job, tx.candidate) then Finished(AlreadyApplied)
      else if KeySeen(s, tx.candidate, tx.key) then Finished(KeyTaken)
      else Inserted
    case Inserted =>
      if tx.job in s.counts then Counted(s.counts[tx.job] + 1) else Finished(Failed)
    case Counted(_) => Finished(Created)
    case Finished(_) => tx.phase
  }

  datatype Event =
    | Begin(job: JobId, candidate: CandidateId, key: Option<Key>)
    | Step(t: TxId, ok: bool)
    | Abort(t: TxId)

  function WithPhase(s: State, t: TxId, p: Phase): State
    requires t < |s.txs|
  {
    s.(txs := s.txs[t := s.txs[t].(phase := p)])
  }

  /** A commit publishes the row and the counter together; an abort publishes neither. */
  function Apply(s: State, e: Event): State {
    match e
    case Begin(job, candidate, key) => s.(txs := s.txs + [Tx(job, candidate, key, Begun)])
    case Step(t, ok) =>
      if t >= |s.txs| || Blocked(s, t) then s
      else
        var tx := s.txs[t];
        var z := WithPhase(s, t, Next(s, t, ok));
        if tx.phase.Counted? then
          z.(rows := s.rows[t := Application(tx.job, tx.candidate, tx.key)],
             counts := s.counts[tx.job := tx.phase.newCount])
        else z
    case Abort(t) =>
      if t >= |s.txs| || s.txs[t].phase.Finished? then s else WithPhase(s, t, Finished(Failed))
  }

  function Run(s: State, es: seq<Event>): State
    decreases |es|
  {
    if es == [] then s else Run(Apply(s, es[0]), es[1..])
  }

  function Initial(first: Mode, counts: map<JobId, int>): State {
    State(first, [], map[], counts)
  }
}
