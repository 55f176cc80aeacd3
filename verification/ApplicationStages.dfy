/** The stage machine of an application, and the history its candidate's operations write. */
module ApplicationStages {

  /** The stage is a free string in the source; any value not on its list is `Unlisted`. */
  datatype Stage =
    | Draft | Applied | Viewed | Shortlisted | Interview | Offer
    | Accepted | Rejected | Withdrawn | Archived
    | Unlisted(name: string)
  {
    predicate Terminal() { Withdrawn? || Rejected? || Accepted? }

    predicate Closed() { Terminal() || Archived? }
  }

  datatype Verdict = Allowed | FromTerminal | NotForCandidate | FromArchived | Invalid

  function ValidateTransition(from: Stage, to: Stage, isCandidate: bool): Verdict {
    if from == to then Allowed
    else if from.Terminal() then (if to.Archived? then Allowed else FromTerminal)
    else if isCandidate then
      if to.Withdrawn? then Allowed
      else if from.Draft? && to.Applied? then Allowed
      else if from.Offer? && to.Accepted? then Allowed
      else if to.Archived? then Allowed
      else NotForCandidate
    else
      match from
      case Applied =>
        if to.Viewed? || to.Shortlisted? || to.Interview? || to.Rejected? || to.Archived? then Allowed else Invalid
      case Viewed =>
        if to.Shortlisted? || to.Interview? || to.Rejected? || to.Archived? then Allowed else Invalid
      case Shortlisted =>
        if to.Interview? || to.Offer? || to.Rejected? || to.Archived? then Allowed else Invalid
      case Interview =>
        if to.Offer? || to.Rejected? || to.Shortlisted? || to.Archived? then Allowed else Invalid
      case Offer =>
        if to.Accepted? || to.Rejected? || to.Archived? then Allowed else Invalid
      case Archived => FromArchived
      case _ => Invalid
  }

  /** Who may make which effective move, by destination: nobody goes back to Draft or leaves a
    terminal stage but for the archive; only candidates submit, withdraw or leave the archive; only
    recruiters view, shortlist, interview, offer and reject. */
  lemma TransitionTable(from: Stage, to: Stage, isCandidate: bool)
    requires from != to
    ensures var allowed := ValidateTransition(from, to, isCandidate).Allowed?;
      match to
      case Draft => !allowed
      case Unlisted(_) => !allowed
      case Applied => allowed <==> isCandidate && from.Draft?
      case Viewed => allowed <==> !isCandidate && from.Applied?
      case Shortlisted => allowed <==> !isCandidate && (from.Applied? || from.Viewed? || from.Interview?)
      case Interview => allowed <==> !isCandidate && (from.Applied? || from.Viewed? || from.Shortlisted?)
      case Offer => allowed <==> !isCandidate && (from.Shortlisted? || from.Interview?)
      case Accepted => allowed <==> from.Offer?
      case Rejected => allowed <==>
        !isCandidate && (from.Applied? || from.Viewed? || from.Shortlisted? || from.Interview? || from.Offer?)
      case Withdrawn => allowed <==> isCandidate && !from.Rejected? && !from.Accepted?
      case Archived => allowed <==> isCandidate || (!from.Draft? && !from.Unlisted?)
    ensures var verdict := ValidateTransition(from, to, isCandidate);
      && (verdict.FromTerminal? <==> !to.Archived? && (from.Withdrawn? || from.Rejected? || from.Accepted?))
      && (verdict.FromArchived? <==> !isCandidate && from.Archived?)
      && (verdict.NotForCandidate? ==> isCandidate) && (verdict.Invalid? ==> !isCandidate)
  {
  }

  /** Somebody, candidate or recruiter, may make this move. */
  predicate Permitted(from: Stage, to: Stage) {
    ValidateTransition(from, to, true).Allowed? || ValidateTransition(from, to, false).Allowed?
  }

  predicate IsPath(p: seq<Stage>) {
    p != [] && forall i :: 0 <= i < |p| - 1 ==> Permitted(p[i], p[i + 1])
  }

  // ----- how long an application can go on -----

  function Rank(s: Stage): nat {
    match s
    case Unlisted(_) => 0
    case Draft => 0
    case Applied => 1
    case Viewed => 2
    case Shortlisted => 3
    case Interview => 4
    case Offer => 5
    case Accepted => 6
    case Rejected => 6
    case Withdrawn => 6
    case Archived => 7
  }

  /** The only two moves that go back. */
  predicate BackMove(from: Stage, to: Stage) {
    (from.Interview? && to.Shortlisted?) || (from.Archived? && to.Withdrawn?)
  }

  function Moves(p: seq<Stage>): nat {
    if |p| <= 1 then 0 else Moves(p[..|p| - 1]) + (if p[|p| - 2] != p[|p| - 1] then 1 else 0)
  }

  function BackMoves(p: seq<Stage>): nat {
    if |p| <= 1 then 0 else BackMoves(p[..|p| - 1]) + (if BackMove(p[|p| - 2], p[|p| - 1]) then 1 else 0)
  }

  /** Every effective move climbs, but for the two back-moves, which go down by exactly one. */
  lemma MovesClimb(from: Stage, to: Stage)
    requires Permitted(from, to) && from != to
    ensures if BackMove(from, to) then Rank(to) + 1 == Rank(from) else Rank(from) < Rank(to)
  {
  }

  lemma {:induction false} ProgressIsBounded(p: seq<Stage>)
    requires IsPath(p)
    ensures Moves(p) + Rank(p[0]) <= Rank(p[|p| - 1]) + 2 * BackMoves(p)
    decreases |p|
  {
    if |p| > 1 {
      var q := p[..|p| - 1];
      ProgressIsBounded(q);
      assert q[|q| - 1] == p[|p| - 2];
      assert Permitted(p[|p| - 2], p[|p| - 2 + 1]);
      if p[|p| - 2] != p[|p| - 1] {
        MovesClimb(p[|p| - 2], p[|p| - 1]);
      }
    }
  }

  /** From submission, n effective moves with b back-moves satisfy n <= 6 + 2b. */
  lemma AtMostSixPlusTwicePerBackMove(p: seq<Stage>)
    requires IsPath(p) && p[0].Applied?
    ensures Moves(p) <= 6 + 2 * BackMoves(p)
  {
    ProgressIsBounded(p);
  }

  function Interviews(b: nat): seq<Stage> {
    if b == 0 then [Applied, Viewed, Shortlisted, Interview]
    else Interviews(b - 1) + [Shortlisted, Interview]
  }

  lemma AppendMove(p: seq<Stage>, to: Stage)
    requires IsPath(p) && Permitted(p[|p| - 1], to)
    ensures IsPath(p + [to])
    ensures Moves(p + [to]) == Moves(p) + (if p[|p| - 1] != to then 1 else 0)
    ensures BackMoves(p + [to]) == BackMoves(p) + (if BackMove(p[|p| - 1], to) then 1 else 0)
  {
    AppendCounts(p, to);
    AppendIsPath(p, to);
  }

  lemma AppendIsPath(p: seq<Stage>, to: Stage)
    requires IsPath(p) && Permitted(p[|p| - 1], to)
    ensures IsPath(p + [to])
  {
    var q := p + [to];
    forall i | 0 <= i < |q| - 1 ensures Permitted(q[i], q[i + 1]) {
      if i < |p| - 1 { assert Permitted(p[i], p[i + 1]); }
    }
  }

  lemma AppendCounts(p: seq<Stage>, to: Stage)
    requires p != []
    ensures Moves(p + [to]) == Moves(p) + (if p[|p| - 1] != to then 1 else 0)
    ensures BackMoves(p + [to]) == BackMoves(p) + (if BackMove(p[|p| - 1], to) then 1 else 0)
  {
    assert (p + [to])[..|p|] == p;
  }

  lemma FirstInterview()
    ensures var p := Interviews(0);
            IsPath(p) && p[0].Applied? && p[|p| - 1].Interview? && Moves(p) == 3 && BackMoves(p) == 0
  {
    AppendMove([Applied], Viewed);
    assert [Applied] + [Viewed] == [Applied, Viewed];
    AppendMove([Applied, Viewed], Shortlisted);
    assert [Applied, Viewed] + [Shortlisted] == [Applied, Viewed, Shortlisted];
    AppendMove([Applied, Viewed, Shortlisted], Interview);
    assert [Applied, Viewed, Shortlisted] + [Interview] == Interviews(0);
  }

  lemma InterviewAgain(p: seq<Stage>)
    requires IsPath(p) && p[|p| - 1].Interview?
    ensures var q := p + [Shortlisted, Interview];
            && IsPath(q) && q[0] == p[0] && q[|q| - 1].Interview?
            && Moves(q) == Moves(p) + 2 && BackMoves(q) == BackMoves(p) + 1
  {
    AppendMove(p, Shortlisted);
    AppendMove(p + [Shortlisted], Interview);
    assert p + [Shortlisted] + [Interview] == p + [Shortlisted, Interview];
  }

  lemma {:induction false} InterviewsCount(b: nat)
    ensures var p := Interviews(b);
            IsPath(p) && p[0].Applied? && p[|p| - 1].Interview? && Moves(p) == 3 + 2 * b && BackMoves(p) == b
  {
    if b == 0 {
      FirstInterview();
    } else {
      InterviewsCount(b - 1);
      InterviewAgain(Interviews(b - 1));
    }
  }

  lemma OfferRejectArchive(p: seq<Stage>)
    requires IsPath(p) && p[|p| - 1].Interview?
    ensures var q := p + [Offer] + [Rejected] + [Archived];
            IsPath(q) && q[0] == p[0] && Moves(q) == Moves(p) + 3 && BackMoves(q) == BackMoves(p)
  {
    AppendMove(p, Offer);
    var offered := p + [Offer];
    AppendMove(offered, Rejected);
    var rejected := offered + [Rejected];
    AppendMove(rejected, Archived);
  }

  /** The bound is attained for every number of back-moves. */
  lemma BoundIsAttained(b: nat)
    ensures exists p: seq<Stage> :: IsPath(p) && p[0].Applied? && BackMoves(p) == b && Moves(p) == 6 + 2 * b
  {
    InterviewsCount(b);
    OfferRejectArchive(Interviews(b));
  }

  // ----- what is reached through what -----

  lemma EntryPoints(from: Stage, to: Stage)
    requires from != to
    ensures to.Accepted? ==> (Permitted(from, to) <==> from.Offer?)
    ensures to.Offer? ==> (Permitted(from, to) <==> from.Shortlisted? || from.Interview?)
    ensures from.Closed() && Permitted(from, to) ==> to.Closed()
    ensures from.Archived? ==> (Permitted(from, to) <==> to.Withdrawn?)
  {
  }

  /** An application that was ever accepted was offered before, and shortlisted or interviewed
    before that. */
  lemma {:induction false} AcceptanceHasAHistory(p: seq<Stage>, i: nat)
    requires IsPath(p) && p[0].Applied? && i < |p| && p[i].Accepted?
    ensures exists a, b :: 0 <= a < b < i && p[b].Offer? && (p[a].Shortlisted? || p[a].Interview?)
    decreases i
  {
    assert i > 0 && Permitted(p[i - 1], p[i - 1 + 1]);
    if p[i - 1].Accepted? {
      AcceptanceHasAHistory(p, i - 1);
      var a, b :| 0 <= a < b < i - 1 && p[b].Offer? && (p[a].Shortlisted? || p[a].Interview?);
    } else {
      EntryPoints(p[i - 1], p[i]);
      var a := OfferHasAHistory(p, i - 1);
    }
  }

  lemma {:induction false} OfferHasAHistory(p: seq<Stage>, i: nat) returns (a: nat)
    requires IsPath(p) && p[0].Applied? && i < |p| && p[i].Offer?
    ensures a < i && (p[a].Shortlisted? || p[a].Interview?)
    decreases i
  {
    assert i > 0 && Permitted(p[i - 1], p[i - 1 + 1]);
    if p[i - 1].Offer? {
      a := OfferHasAHistory(p, i - 1);
    } else {
      EntryPoints(p[i - 1], p[i]);
      a := i - 1;
    }
  }

  // ----- who moved it there -----

  /** A path with the actor of each move. */
  ghost predicate IsActed(p: seq<Stage>, byCandidate: seq<bool>) {
    && |p| == |byCandidate| + 1
    && forall i :: 0 <= i < |byCandidate| ==> ValidateTransition(p[i], p[i + 1], byCandidate[i]).Allowed?
  }

  predicate ForRecruiters(s: Stage) {
    s.Viewed? || s.Shortlisted? || s.Interview? || s.Offer? || s.Rejected?
  }

  /** From submission, whatever stage past it an application is found in was entered by a move of one
    it belongs to: a recruiter's for everything up to an offer or a rejection, the candidate's for a
    withdrawal. */
  lemma {:induction false} EnteredByItsOwner(p: seq<Stage>, byCandidate: seq<bool>, i: nat)
    requires IsActed(p, byCandidate) && p[0].Applied? && i < |p|
    ensures ForRecruiters(p[i]) ==> exists j :: 0 <= j < i && !byCandidate[j] && p[j] != p[j + 1] == p[i]
    ensures p[i].Withdrawn? ==> exists j :: 0 <= j < i && byCandidate[j] && p[j] != p[j + 1] == p[i]
    decreases i
  {
    if i > 0 {
      assert ValidateTransition(p[i - 1], p[i - 1 + 1], byCandidate[i - 1]).Allowed?;
      if p[i - 1] == p[i] {
        EnteredByItsOwner(p, byCandidate, i - 1);
      } else {
        TransitionTable(p[i - 1], p[i], byCandidate[i - 1]);
      }
    }
  }

  /** By their own moves alone candidates get an application they submitted nowhere but withdrawn or
    archived, and recruiters never withdraw one. */
  lemma {:induction false} AloneTheyReach(p: seq<Stage>, byCandidate: seq<bool>, i: nat)
    requires IsActed(p, byCandidate) && p[0].Applied? && i < |p|
    ensures (forall j :: 0 <= j < |byCandidate| ==> byCandidate[j]) ==> p[i] in {Applied, Withdrawn, Archived}
    ensures (forall j :: 0 <= j < |byCandidate| ==> !byCandidate[j]) ==>
              p[i] in {Applied, Viewed, Shortlisted, Interview, Offer, Accepted, Rejected, Archived}
    decreases i
  {
    if i > 0 {
      AloneTheyReach(p, byCandidate, i - 1);
      assert ValidateTransition(p[i - 1], p[i - 1 + 1], byCandidate[i - 1]).Allowed?;
      if p[i - 1] != p[i] {
        TransitionTable(p[i - 1], p[i], byCandidate[i - 1]);
      }
    }
  }

  /** Accepted, rejected, withdrawn and archived together are never left. */
  lemma {:induction false} ClosedStaysClosed(p: seq<Stage>, i: nat, j: nat)
    requires IsPath(p) && i <= j < |p| && p[i].Closed()
    ensures p[j].Closed()
    decreases j
  {
    if i < j {
      ClosedStaysClosed(p, i, j - 1);
      assert Permitted(p[j - 1], p[j - 1 + 1]);
      if p[j - 1] != p[j] {
        EntryPoints(p[j - 1], p[j]);
      }
    }
  }
}

/** The application row and its stage-history table, as the candidate's operations write them. */
module ApplicationHistory {
  import opened ApplicationStages

  /** `from` is empty for the first row, which the source writes as coming from 'None'. */
  datatype Origin = NoStage | At(stage: Stage)
  datatype HistoryRow = HistoryRow(from: Origin, to: Stage)

  datatype Operation = Withdraw | Archive

  datatype Record = Record(stage: Stage, history: seq<HistoryRow>)

  function Submitted(): Record {
    Record(Applied, [HistoryRow(NoStage, Applied)])
  }

  function Moved(r: Record, to: Stage): Record {
    Record(to, r.history + [HistoryRow(At(r.stage), to)])
  }

  /** Withdrawing asks the stage machine; archiving does not. */
  function Perform(r: Record, op: Operation): Record {
    match op
    case Withdraw => if ValidateTransition(r.stage, Withdrawn, true).Allowed? then Moved(r, Withdrawn) else r
    case Archive => Moved(r, Archived)
  }

  function PerformAll(r: Record, ops: seq<Operation>): Record
    decreases |ops|
  {
    if ops == [] then r else PerformAll(Perform(r, ops[0]), ops[1..])
  }

  /** A withdrawal lands in Withdrawn with its row unless the application was rejected or accepted,
    which it leaves alone; archiving always lands in Archived with its row. */
  lemma WhereOperationsLand(r: Record)
    ensures Perform(r, Archive) == Record(Archived, r.history + [HistoryRow(At(r.stage), Archived)])
    ensures Perform(r, Withdraw) ==
              if r.stage == Rejected || r.stage == Accepted then r
              else Record(Withdrawn, r.history + [HistoryRow(At(r.stage), Withdrawn)])
  {
  }

  /** The history tells one connected story that ends where the application is now, every step
    after the first being one the stage machine permits the candidate. */
  ghost predicate Coherent(r: Record) {
    && r.history != []
    && r.history[0] == HistoryRow(NoStage, Applied)
    && r.history[|r.history| - 1].to == r.stage
    && (forall i :: 0 < i < |r.history| ==> r.history[i].from == At(r.history[i - 1].to))
    && (forall i :: 0 < i < |r.history| ==>
          r.history[i].from.At? && ValidateTransition(r.history[i].from.stage, r.history[i].to, true).Allowed?)
  }

  lemma PerformKeepsCoherent(r: Record, op: Operation)
    requires Coherent(r)
    ensures Coherent(Perform(r, op))
  {
    assert ValidateTransition(r.stage, Archived, true).Allowed?;
  }

  lemma {:induction false} HistoryIsCoherent(r: Record, ops: seq<Operation>)
    requires Coherent(r)
    ensures Coherent(PerformAll(r, ops))
    ensures r.history <= PerformAll(r, ops).history
    decreases |ops|
  {
    if ops != [] {
      PerformKeepsCoherent(r, ops[0]);
      HistoryIsCoherent(Perform(r, ops[0]), ops[1..]);
      assert r.history <= Perform(r, ops[0]).history;
    }
  }

  /** From submission, after any operations of the candidate, the history is coherent and the
    application is closed as soon as any operation has been performed. */
  lemma SubmittedApplicationsStayCoherent(ops: seq<Operation>)
    ensures var r := PerformAll(Submitted(), ops);
            Coherent(r) && (ops != [] ==> r.stage.Closed())
  {
    HistoryIsCoherent(Submitted(), ops);
    if ops != [] {
      OperationsClose(Perform(Submitted(), ops[0]), ops[1..]);
    }
  }

  lemma {:induction false} OperationsClose(r: Record, ops: seq<Operation>)
    requires r.stage.Closed()
    ensures PerformAll(r, ops).stage.Closed()
    decreases |ops|
  {
    if ops != [] {
      OperationsClose(Perform(r, ops[0]), ops[1..]);
    }
  }

  /** One application and its history, updated in place under the row's FOR UPDATE lock. */
  class ApplicationRecord {
    var currentStage: Stage
    var stageHistory: seq<HistoryRow>

    ghost function View(): Record
      reads this
    {
      Record(currentStage, stageHistory)
    }

    constructor ()
      ensures View() == Submitted()
    {
      currentStage := Applied;
      stageHistory := [HistoryRow(NoStage, Applied)];
    }

    method WithdrawApplication() returns (verdict: Verdict)
      requires Coherent(View())
      modifies this
      ensures verdict == ValidateTransition(old(currentStage), Withdrawn, true)
      ensures View() == Perform(old(View()), Withdraw) && Coherent(View())
      ensures verdict.Allowed? <==> old(currentStage) != Rejected && old(currentStage) != Accepted
      ensures verdict.Allowed? ==>
        currentStage == Withdrawn && stageHistory == old(stageHistory) + [HistoryRow(At(old(currentStage)), Withdrawn)]
    {
      PerformKeepsCoherent(View(), Withdraw);
      verdict := ValidateTransition(currentStage, Withdrawn, true);
      if verdict.Allowed? {
        stageHistory := stageHistory + [HistoryRow(At(currentStage), Withdrawn)];
        currentStage := Withdrawn;
      }
    }

    method ArchiveApplication()
      requires Coherent(View())
      modifies this
      ensures View() == Perform(old(View()), Archive) && Coherent(View())
      ensures currentStage == Archived
      ensures stageHistory == old(stageHistory) + [HistoryRow(At(old(currentStage)), Archived)]
    {
      PerformKeepsCoherent(View(), Archive);
      stageHistory := stageHistory + [HistoryRow(At(currentStage), Archived)];
      currentStage := Archived;
    }
  }
}
