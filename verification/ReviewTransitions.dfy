/** Review outcomes applied to position ideas, portfolio proposals and paper trades, folded over whole histories. */
module ReviewTransitions {
  import opened Wrappers
  import opened Sequences
  import opened Market

  datatype Outcome = Approve | NeedsRevision | Reject | Escalate

  datatype Review = Review(id: string, reviewer: string, outcome: Outcome, decidedAt: Time, blockingIssues: seq<string>)

  datatype IdeaStatus = IdeaDraft | IdeaPendingReview | ApprovedForPortfolio | IdeaRejected

  datatype ProposalStatus = ProposalDraft | ProposalPendingReview | ProposalApproved | ProposalRejected | ProposalExpired

  datatype TradeStatus = Proposed | TradeApproved | TradeRejected | Simulated | Cancelled

  datatype PositionIdea = PositionIdea(status: IdeaStatus, reviewIds: seq<string>, createdAt: Time, updatedAt: Time)
  {
    // The schema rule on record times.
    predicate Coherent() {
      createdAt <= updatedAt
    }
  }

  datatype Proposal = Proposal(status: ProposalStatus, reviewIds: seq<string>, blockingIssues: seq<string>,
                               blockingRisk: bool, createdAt: Time, updatedAt: Time)
  {
    // The schema rules: record times in order, and blocking risk checks come with blocking issues.
    predicate Coherent() {
      && createdAt <= updatedAt
      && (blockingRisk ==> blockingIssues != [])
    }
  }

  datatype PaperTrade = PaperTrade(status: TradeStatus, reviewIds: seq<string>, submittedAt: Time,
                                   approvedAt: Option<Time>, approvedBy: Option<string>,
                                   simulatedFillAt: Option<Time>, createdAt: Time, updatedAt: Time)
  {
    // The schema rules on record, approval and fill times.
    predicate Coherent() {
      && createdAt <= updatedAt
      && (approvedAt.Some? ==> approvedAt.value >= submittedAt && approvedBy.Some?)
      && (simulatedFillAt.Some? ==> simulatedFillAt.value >= submittedAt)
      && (status == TradeApproved ==> approvedAt.Some?)
      && (status == Simulated ==> simulatedFillAt.Some?)
    }
  }

  // ---------- One decision ----------

  function IdeaStatusFor(outcome: Outcome): IdeaStatus {
    match outcome
    case Approve => ApprovedForPortfolio
    case NeedsRevision => IdeaDraft
    case Reject => IdeaRejected
    case Escalate => IdeaPendingReview
  }

  function ProposalStatusFor(outcome: Outcome): ProposalStatus {
    match outcome
    case Approve => ProposalApproved
    case NeedsRevision => ProposalDraft
    case Reject => ProposalRejected
    case Escalate => ProposalPendingReview
  }

  function TradeStatusFor(outcome: Outcome): TradeStatus {
    match outcome
    case Approve => TradeApproved
    case NeedsRevision => Proposed
    case Reject => TradeRejected
    case Escalate => Proposed
  }

  function ReviewIdea(idea: PositionIdea, r: Review): PositionIdea {
    idea.(status := IdeaStatusFor(r.outcome), reviewIds := idea.reviewIds + [r.id], updatedAt := r.decidedAt)
  }

  function SortedUnion(a: seq<string>, b: seq<string>): seq<string> {
    Sort(Dedup(a + b), TextLeq)
  }

  function ReviewProposal(p: Proposal, r: Review): Proposal {
    p.(status := ProposalStatusFor(r.outcome),
       reviewIds := p.reviewIds + [r.id],
       blockingIssues := if r.outcome.Approve? then p.blockingIssues else SortedUnion(p.blockingIssues, r.blockingIssues),
       updatedAt := r.decidedAt)
  }

  function ReviewTrade(t: PaperTrade, r: Review): PaperTrade {
    t.(status := TradeStatusFor(r.outcome),
       approvedAt := if r.outcome.Approve? then Some(r.decidedAt) else t.approvedAt,
       approvedBy := if r.outcome.Approve? then Some(r.reviewer) else t.approvedBy,
       reviewIds := t.reviewIds + [r.id],
       updatedAt := r.decidedAt)
  }

  // ---------- Whole histories ----------

  function IdeaAfter(idea: PositionIdea, rs: seq<Review>): PositionIdea {
    if rs == [] then idea else ReviewIdea(IdeaAfter(idea, rs[..|rs| - 1]), rs[|rs| - 1])
  }

  function ProposalAfter(p: Proposal, rs: seq<Review>): Proposal {
    if rs == [] then p else ReviewProposal(ProposalAfter(p, rs[..|rs| - 1]), rs[|rs| - 1])
  }

  function TradeAfter(t: PaperTrade, rs: seq<Review>): PaperTrade {
    if rs == [] then t else ReviewTrade(TradeAfter(t, rs[..|rs| - 1]), rs[|rs| - 1])
  }

  function Ids(rs: seq<Review>): (ids: seq<string>)
    ensures |ids| == |rs|
    ensures forall i :: 0 <= i < |ids| ==> ids[i] == rs[i].id
  {
    seq(|rs|, i requires 0 <= i < |rs| => rs[i].id)
  }

  lemma IdsSnoc(ids: seq<string>, rs: seq<Review>)
    requires rs != []
    ensures ids + Ids(rs) == ids + Ids(rs[..|rs| - 1]) + [rs[|rs| - 1].id]
  {
  }

  /**
   Status follows the last outcome alone and the update time the last decision; the decision
   identifiers keep the whole history in order.
   */
  lemma {:induction false} HistoryStatus(idea: PositionIdea, p: Proposal, t: PaperTrade, rs: seq<Review>)
    requires rs != []
    ensures
      var i, q, u := IdeaAfter(idea, rs).status, ProposalAfter(p, rs).status, TradeAfter(t, rs).status;
      match rs[|rs| - 1].outcome
      case Approve => i == ApprovedForPortfolio && q == ProposalApproved && u == TradeApproved
      case NeedsRevision => i == IdeaDraft && q == ProposalDraft && u == Proposed
      case Reject => i == IdeaRejected && q == ProposalRejected && u == TradeRejected
      case Escalate => i == IdeaPendingReview && q == ProposalPendingReview && u == Proposed
    ensures IdeaAfter(idea, rs).updatedAt == rs[|rs| - 1].decidedAt
    ensures ProposalAfter(p, rs).updatedAt == TradeAfter(t, rs).updatedAt == rs[|rs| - 1].decidedAt
    ensures IdeaAfter(idea, rs).reviewIds == idea.reviewIds + Ids(rs)
    ensures ProposalAfter(p, rs).reviewIds == p.reviewIds + Ids(rs)
    ensures TradeAfter(t, rs).reviewIds == t.reviewIds + Ids(rs)
    decreases |rs|
  {
    var before := rs[..|rs| - 1];
    IdsSnoc(idea.reviewIds, rs);
    IdsSnoc(p.reviewIds, rs);
    IdsSnoc(t.reviewIds, rs);
    if before == [] {
      assert idea.reviewIds + Ids(before) == idea.reviewIds;
      assert p.reviewIds + Ids(before) == p.reviewIds;
      assert t.reviewIds + Ids(before) == t.reviewIds;
    } else {
      HistoryStatus(idea, p, t, before);
    }
  }

  // ---------- Record times ----------

  // The last decision of a history, if any, was made no earlier than t.
  predicate ReviewedSince(rs: seq<Review>, t: Time) {
    rs != [] ==> rs[|rs| - 1].decidedAt >= t
  }

  lemma {:induction false} CreationKept(idea: PositionIdea, p: Proposal, t: PaperTrade, rs: seq<Review>)
    ensures IdeaAfter(idea, rs).createdAt == idea.createdAt
    ensures ProposalAfter(p, rs).createdAt == p.createdAt && ProposalAfter(p, rs).blockingRisk == p.blockingRisk
    ensures TradeAfter(t, rs).createdAt == t.createdAt
    decreases |rs|
  {
    if rs != [] {
      hide SortedUnion;
      CreationKept(idea, p, t, rs[..|rs| - 1]);
    }
  }

  /**
   Every review stamps its own decision time as the update time without revalidating: a record
   reviewed out of order, whatever the outcomes, ends up updated before it was created exactly
   when its last decision was made before it was created.
   */
  lemma UpdateOrderKept(idea: PositionIdea, p: Proposal, t: PaperTrade, rs: seq<Review>)
    requires idea.createdAt <= idea.updatedAt && p.createdAt <= p.updatedAt && t.createdAt <= t.updatedAt
    ensures IdeaAfter(idea, rs).Coherent() <==> ReviewedSince(rs, idea.createdAt)
    ensures ProposalAfter(p, rs).createdAt <= ProposalAfter(p, rs).updatedAt <==> ReviewedSince(rs, p.createdAt)
    ensures TradeAfter(t, rs).createdAt <= TradeAfter(t, rs).updatedAt <==> ReviewedSince(rs, t.createdAt)
  {
    hide SortedUnion;
    CreationKept(idea, p, t, rs);
  }

  // ---------- Blocking issues ----------

  ghost function Elements(s: seq<string>): set<string> {
    set x | x in s
  }

  ghost function Raised(rs: seq<Review>): set<string> {
    set r, x | r in rs && !r.outcome.Approve? && x in r.blockingIssues :: x
  }

  lemma SortedUnionElements(a: seq<string>, b: seq<string>)
    ensures Elements(SortedUnion(a, b)) == Elements(a) + Elements(b)
  {
    AppendAllUniqueContents([], a + b);
    MembersOf(SortedUnion(a, b), Dedup(a + b));
  }

  lemma RaisedStep(rs: seq<Review>)
    requires rs != []
    ensures
      var last := rs[|rs| - 1];
      Raised(rs) == Raised(rs[..|rs| - 1]) + (if last.outcome.Approve? then {} else Elements(last.blockingIssues))
  {
    var before, last := rs[..|rs| - 1], rs[|rs| - 1];
    assert forall r :: r in rs <==> r in before || r == last by {
      assert rs == before + [last];
    }
  }

  /** As a set the issues are the initial ones with those of every non-approving decision: none is ever dropped. */
  lemma {:induction false} IssuesAccumulate(p: Proposal, rs: seq<Review>)
    ensures Elements(ProposalAfter(p, rs).blockingIssues) == Elements(p.blockingIssues) + Raised(rs)
    decreases |rs|
  {
    if rs == [] {
      assert Raised(rs) == {};
    } else {
      hide Elements, Raised, SortedUnion, ProposalStatusFor;
      var before, last := rs[..|rs| - 1], rs[|rs| - 1];
      IssuesAccumulate(p, before);
      SortedUnionElements(ProposalAfter(p, before).blockingIssues, last.blockingIssues);
      RaisedStep(rs);
    }
  }

  /** A decision other than approval leaves the issues in ascending code-point order, each once. */
  lemma IssuesSorted(p: Proposal, rs: seq<Review>)
    requires rs != [] && !rs[|rs| - 1].outcome.Approve?
    ensures
      var issues := ProposalAfter(p, rs).blockingIssues;
      forall i, j :: 0 <= i < j < |issues| ==> CodePointLeq(issues[i], issues[j]) && issues[i] != issues[j]
  {
    var prior, last := ProposalAfter(p, rs[..|rs| - 1]), rs[|rs| - 1];
    hide ProposalStatusFor;
    assert ProposalAfter(p, rs).blockingIssues == SortedUnion(prior.blockingIssues, last.blockingIssues);
    SortedUnionOrdered(prior.blockingIssues, last.blockingIssues);
  }

  lemma SortedUnionOrdered(a: seq<string>, b: seq<string>)
    ensures
      var s := SortedUnion(a, b);
      forall i, j :: 0 <= i < j < |s| ==> CodePointLeq(s[i], s[j]) && s[i] != s[j]
  {
    AppendAllUniqueContents([], a + b);
    TextLeqIsPreorder();
    SortSorted(Dedup(a + b), TextLeq);
    SortKeepsDistinct(Dedup(a + b), TextLeq);
    var s := SortedUnion(a, b);
    forall i, j | 0 <= i < j < |s|
      ensures CodePointLeq(s[i], s[j])
    {
      assert TextLeq(s[i], s[j]);
      TextLeqExact(s[i], s[j]);
    }
  }

  /**
   A reviewed proposal satisfies its schema exactly when its last decision was not made before
   the proposal was created: the issues its blocking checks call for are never lost on the way.
   */
  lemma ReviewedProposalCoherent(p: Proposal, rs: seq<Review>)
    requires p.Coherent()
    ensures ProposalAfter(p, rs).Coherent() <==> ReviewedSince(rs, p.createdAt)
  {
    var after := ProposalAfter(p, rs);
    var idea := PositionIdea(IdeaDraft, [], 0, 0);
    var t := PaperTrade(Proposed, [], 0, None, None, None, 0, 0);
    hide ProposalAfter, TradeAfter, IdeaAfter, Raised;
    CreationKept(idea, p, t, rs);
    UpdateOrderKept(idea, p, t, rs);
    IssuesAccumulate(p, rs);
    if p.blockingIssues != [] {
      assert p.blockingIssues[0] in Elements(p.blockingIssues);
      assert p.blockingIssues[0] in Elements(after.blockingIssues);
    }
  }

  /**
   Approval does not clear a proposal's issues: after a history ending in approval it still
   carries some exactly when it started with some or an earlier decision raised some.
   */
  lemma ApprovedWithIssues(p: Proposal, rs: seq<Review>)
    requires rs != [] && rs[|rs| - 1].outcome.Approve?
    ensures ProposalAfter(p, rs).status == ProposalApproved
    ensures ProposalAfter(p, rs).blockingIssues != []
       <==> p.blockingIssues != [] || exists r :: r in rs && !r.outcome.Approve? && r.blockingIssues != []
  {
    IssuesAccumulate(p, rs);
    var after := ProposalAfter(p, rs).blockingIssues;
    if after != [] {
      assert after[0] in Elements(after);
      if after[0] in Raised(rs) {
        var r :| r in rs && !r.outcome.Approve? && after[0] in r.blockingIssues;
        assert r.blockingIssues != [];
      }
    }
    if p.blockingIssues != [] {
      assert p.blockingIssues[0] in Elements(p.blockingIssues);
    }
    if exists r :: r in rs && !r.outcome.Approve? && r.blockingIssues != [] {
      var r :| r in rs && !r.outcome.Approve? && r.blockingIssues != [];
      var x := r.blockingIssues[0];
      assert x in r.blockingIssues;
      assert x in Raised(rs);
    }
  }

  // ---------- Approval of trades ----------

  function LastApproval(rs: seq<Review>): Option<Review> {
    if rs == [] then None
    else if rs[|rs| - 1].outcome.Approve? then Some(rs[|rs| - 1])
    else LastApproval(rs[..|rs| - 1])
  }

  /** Approval time and approver come from the last approving decision, later rejections notwithstanding. */
  lemma {:induction false} ApprovalFromLast(t: PaperTrade, rs: seq<Review>)
    ensures
      var after, approval := TradeAfter(t, rs), LastApproval(rs);
      && after.approvedAt == (if approval.Some? then Some(approval.value.decidedAt) else t.approvedAt)
      && after.approvedBy == (if approval.Some? then Some(approval.value.reviewer) else t.approvedBy)
      && after.submittedAt == t.submittedAt && after.simulatedFillAt == t.simulatedFillAt
    decreases |rs|
  {
    if rs != [] {
      ApprovalFromLast(t, rs[..|rs| - 1]);
    }
  }

  lemma {:induction false} ApprovedHasApproval(rs: seq<Review>)
    requires rs != [] && rs[|rs| - 1].outcome.Approve?
    ensures LastApproval(rs) == Some(rs[|rs| - 1])
  {
  }

  /**
   The transitions copy fields without revalidating. From a trade that satisfies the schema,
   the reviewed trade satisfies it exactly when the last decision, whatever its outcome, was
   not made before the trade was created, and the last approval not before it was submitted;
   an approved status then carries both time and approver.
   */
  lemma ReviewedTradeCoherent(t: PaperTrade, rs: seq<Review>)
    requires t.Coherent()
    ensures TradeAfter(t, rs).Coherent()
       <==> && ReviewedSince(rs, t.createdAt)
            && (LastApproval(rs).Some? ==> LastApproval(rs).value.decidedAt >= t.submittedAt)
    ensures rs != [] && TradeAfter(t, rs).status == TradeApproved ==>
              TradeAfter(t, rs).approvedAt.Some? && TradeAfter(t, rs).approvedBy.Some?
  {
    ApprovalFromLast(t, rs);
    UpdateOrderKept(PositionIdea(IdeaDraft, [], 0, 0), Proposal(ProposalDraft, [], [], false, 0, 0), t, rs);
    if rs != [] {
      assert TradeAfter(t, rs).status == TradeStatusFor(rs[|rs| - 1].outcome);
      if rs[|rs| - 1].outcome.Approve? {
        ApprovedHasApproval(rs);
      }
    }
  }

  /**
   Both halves of the condition are needed. Created and submitted at 10, rejected by a decision
   dated 5: updated before it was created, without any approval. Created at 5, submitted at 10,
   approved by a decision dated 7: approved before it was submitted.
   */
  lemma ReviewBreaksTrade()
    ensures
      var t := PaperTrade(Proposed, [], 10, None, None, None, 10, 10);
      t.Coherent() && !TradeAfter(t, [Review("r", "a", Reject, 5, [])]).Coherent()
    ensures
      var t := PaperTrade(Proposed, [], 10, None, None, None, 5, 10);
      var rs := [Review("r", "a", Approve, 7, [])];
      t.Coherent() && ReviewedSince(rs, t.createdAt) && !TradeAfter(t, rs).Coherent()
  {
    var early := PaperTrade(Proposed, [], 10, None, None, None, 10, 10);
    ReviewedTradeCoherent(early, [Review("r", "a", Reject, 5, [])]);
    var late := PaperTrade(Proposed, [], 10, None, None, None, 5, 10);
    ApprovedHasApproval([Review("r", "a", Approve, 7, [])]);
    ReviewedTradeCoherent(late, [Review("r", "a", Approve, 7, [])]);
  }
}
