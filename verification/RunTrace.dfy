/** A run is its trace: each visit is what the replies before it call for, and the state is what the
    visits say. Nothing here refers to the nodes. */
module RunTrace {
  import opened Prelude
  import opened Orchestration

  // ---- readings of the visits ------------------------------------------------------

  function LastRouting(visits: seq<Visit>): Option<RouteDecision> {
    if visits == [] then None
    else
      var v := visits[|visits| - 1];
      if v.Routed? then Some(v.decision) else LastRouting(visits[..|visits| - 1])
  }

  function LastReport(visits: seq<Visit>): Option<string> {
    if visits == [] then None
    else
      var v := visits[|visits| - 1];
      if v.Coded? then Some(v.text) else LastReport(visits[..|visits| - 1])
  }

  /** The first plan that a routing brought. */
  function FirstPlan(visits: seq<Visit>): Option<string> {
    if visits == [] then None
    else
      var before, v := FirstPlan(visits[..|visits| - 1]), visits[|visits| - 1];
      if before.None? && v.Routed? && v.decision.plan != "" then Some(v.decision.plan) else before
  }

  /** The latest work was a review that said something. */
  predicate LastWorkSpoke(visits: seq<Visit>) {
    match LastWork(visits)
    case Some(ReviewedWith(Some(v))) => v.summary != ""
    case Some(ReviewedWith(None)) => true
    case _ => false
  }

  lemma ReadingsSnoc(visits: seq<Visit>, v: Visit)
    ensures LastRouting(visits + [v]) == if v.Routed? then Some(v.decision) else LastRouting(visits)
    ensures LastReport(visits + [v]) == if v.Coded? then Some(v.text) else LastReport(visits)
    ensures FirstPlan(visits + [v]) ==
            if FirstPlan(visits).None? && v.Routed? && v.decision.plan != "" then Some(v.decision.plan) else FirstPlan(visits)
    ensures LastWork(visits + [v]) == if v.Coded? || v.ReviewedWith? then Some(v) else LastWork(visits)
    ensures CoderRounds(visits + [v]) == CoderRounds(visits) + if v.Coded? then 1 else 0
  {
    VisitsSnoc(visits, v);
    assert (visits + [v])[..|visits|] == visits;
  }

  // ---- what the replies call for ------------------------------------------------------

  predicate CapReached(cfg: Config, before: seq<Visit>) {
    CoderRounds(before) >= cfg.maxIterations && !LastWorkApproved(before)
  }

  /** The decision is what the cap, the routing model or the fixed rule calls for after these visits. */
  predicate CalledFor(cfg: Config, reply: RouterReply, before: seq<Visit>, d: RouteDecision) {
    if CapReached(cfg, before) then
      d == RouteDecision(Finalize, "reached max iterations (" + TaskKeys.IntText(cfg.maxIterations) + ")", "")
    else
      match reply
      case Decided(e) => d == e
      case Nothing => false
      case NoDecision =>
        && d.plan == ""
        && (LastReport(before).None? ==> d.next == Code && d.reason == "fallback: start implementation")
        && (LastReport(before).Some? && LastWorkApproved(before) ==>
              d.next == Finalize && d.reason == "fallback: review passed")
        && (LastReport(before).Some? && !LastWorkApproved(before) && LastWorkSpoke(before) ==>
              d.next == Code && d.reason == "fallback: address review")
        && (LastReport(before).Some? && !LastWorkApproved(before) && !LastWorkSpoke(before) ==>
              d.next == Review && d.reason == "fallback: review the changes")
  }

  predicate RoutedTo(visits: seq<Visit>, r: Route) {
    visits != [] && visits[|visits| - 1].Routed? && visits[|visits| - 1].decision.next == r
  }

  /** Nothing yet, or back from a worker. */
  predicate Returned(visits: seq<Visit>) {
    visits == [] || visits[|visits| - 1].Coded? || visits[|visits| - 1].ReviewedWith?
  }

  predicate VisitOk(cfg: Config, o: Oracles, before: seq<Visit>, v: Visit) {
    var n := |before|;
    match v
    case Routed(d) => Returned(before) && CalledFor(cfg, o.router(n), before, d)
    case Coded(text) => RoutedTo(before, Code) && o.coder(n) == Reported(text)
    case ReviewedWith(verdict) =>
      && RoutedTo(before, Review) && o.reviewer(n).Reviewed?
      && (o.reviewer(n).calls == [] ==> verdict == None)
      && (o.reviewer(n).calls != [] ==> verdict == Some(o.reviewer(n).calls[|o.reviewer(n).calls| - 1]))
    case Closed => RoutedTo(before, Abort) || (RoutedTo(before, Finalize) && !o.finalize.FinalizeFailed?)
  }

  ghost predicate VisitsOk(cfg: Config, o: Oracles, visits: seq<Visit>) {
    forall i :: 0 <= i < |visits| ==> VisitOk(cfg, o, visits[..i], visits[i])
  }

  // ---- what the visits say --------------------------------------------------------------

  ghost predicate RoutingShown(s: TaskState, visits: seq<Visit>) {
    && s.plan == FirstPlan(visits)
    && s.iterations == CoderRounds(visits)
    && match LastRouting(visits)
       case Some(d) => s.decision == Some(d.next) && s.decisionReason == Some(d.reason)
       case None => s.decision == None && s.decisionReason == None
  }

  ghost predicate WorkShown(s: TaskState, visits: seq<Visit>) {
    && (match LastReport(visits)
        case Some(text) => s.coderReport == Some(if text == "" then "(coder produced no summary)" else text)
        case None => s.coderReport == None)
    && (match LastWork(visits)
        case None => s.reviewPassed == None && s.reviewReport == None && s.requiredChanges == None
        case Some(ReviewedWith(Some(v))) =>
          s.reviewPassed == Some(v.approved) && s.reviewReport == Some(v.summary) && s.requiredChanges == Some(v.requiredChanges)
        case Some(ReviewedWith(None)) =>
          && s.reviewPassed == Some(false) && s.reviewReport == Some("Reviewer did not submit a verdict.")
          && s.requiredChanges == Some("Re-review the changes and submit a verdict.")
        case Some(_) => s.reviewPassed == Some(false) && s.reviewReport == Some("") && s.requiredChanges == Some(""))
  }

  /** How a run that went to its end stands: by its last routing and the reply of finalizing. */
  ghost predicate EndShown(cfg: Config, o: Oracles, p: Progress) {
    var s := p.state;
    if p.point != Ended then s.status == Running && s.error == None && s.prUrl == None && p.prs == []
    else
      && LastRouting(p.visits).Some?
      && var d := LastRouting(p.visits).value;
      && (d.next == Abort ==>
            s.status == Aborted && s.error == Some(d.reason) && s.prUrl == None && p.prs == [])
      && (d.next != Abort ==> d.next == Finalize && !o.finalize.FinalizeFailed?)
      && (d.next == Finalize && o.finalize.NoCommits? ==>
            s.status == NeedsHuman && s.error == Some("no changes produced") && s.prUrl == None && p.prs == [])
      && (d.next == Finalize && o.finalize.PrOpened? ==>
            && s.status == Completed && s.error == None && s.prUrl == Some(o.finalize.url)
            && p.prs == [PullRequest(o.finalize.url, cfg.requireHumanApproval || !LastWorkApproved(p.visits))])
  }

  /** Where the run stands, and for a crashed one, whose failure it was. */
  ghost predicate PointShown(cfg: Config, o: Oracles, p: Progress) {
    var n := |p.visits|;
    match p.point
    case AtOrchestrator => Returned(p.visits)
    case AtCoder => RoutedTo(p.visits, Code)
    case AtReviewer => RoutedTo(p.visits, Review)
    case AtFinalize => RoutedTo(p.visits, Finalize)
    case AtAbort => RoutedTo(p.visits, Abort)
    case Ended => p.visits != [] && p.visits[n - 1].Closed?
    case Crashed =>
      || (Returned(p.visits) && !CapReached(cfg, p.visits) && o.router(n).Nothing?)
      || (RoutedTo(p.visits, Code) && o.coder(n).CoderFailed?)
      || (RoutedTo(p.visits, Review) && o.reviewer(n).ReviewerFailed?)
      || (RoutedTo(p.visits, Finalize) && o.finalize.FinalizeFailed?)
  }

  ghost predicate TraceInv(cfg: Config, o: Oracles, p: Progress) {
    && VisitsOk(cfg, o, p.visits)
    && RoutingShown(p.state, p.visits) && WorkShown(p.state, p.visits)
    && EndShown(cfg, o, p) && PointShown(cfg, o, p)
  }

  // ---- proofs -----------------------------------------------------------------------------

  lemma VisitsOkSnoc(cfg: Config, o: Oracles, visits: seq<Visit>, v: Visit)
    requires VisitsOk(cfg, o, visits) && VisitOk(cfg, o, visits, v)
    ensures VisitsOk(cfg, o, visits + [v])
  {
    var all := visits + [v];
    forall i | 0 <= i < |all| ensures VisitOk(cfg, o, all[..i], all[i]) {
      if i < |visits| { assert all[..i] == visits[..i]; } else { assert all[..i] == visits; }
    }
  }

  lemma DecisionCalledFor(cfg: Config, o: Oracles, p: Progress)
    requires TraceInv(cfg, o, p)
    ensures match OrchestratorNode(cfg, o.router(|p.visits|), p.state)
            case Some(d) => CalledFor(cfg, o.router(|p.visits|), p.visits, d)
            case None => !CapReached(cfg, p.visits) && o.router(|p.visits|).Nothing?
  {
    hide VisitsOk, EndShown, PointShown;
  }

  lemma {:induction false} PlansSpeak(visits: seq<Visit>)
    ensures FirstPlan(visits).Some? ==> FirstPlan(visits).value != ""
    decreases |visits|
  {
    if visits != [] { PlansSpeak(visits[..|visits| - 1]); }
  }

  lemma RoutingNext(s: TaskState, t: TaskState, visits: seq<Visit>, v: Visit)
    requires RoutingShown(s, visits)
    requires v.Routed? ==> t == Decide(v.decision, s)
    requires !v.Routed? ==> t.plan == s.plan && t.decision == s.decision && t.decisionReason == s.decisionReason
    requires t.iterations == s.iterations + if v.Coded? then 1 else 0
    ensures RoutingShown(t, visits + [v])
  {
    ReadingsSnoc(visits, v);
    PlansSpeak(visits);
  }

  lemma WorkNext(s: TaskState, t: TaskState, visits: seq<Visit>, v: Visit)
    requires WorkShown(s, visits)
    requires v.Coded? ==> t == CoderNode(v.text, s)
    requires v.ReviewedWith? ==> t == ReviewerNode(v.verdict, s)
    requires v.Routed? || v.Closed? ==>
               && t.coderReport == s.coderReport && t.reviewPassed == s.reviewPassed
               && t.reviewReport == s.reviewReport && t.requiredChanges == s.requiredChanges
    ensures WorkShown(t, visits + [v])
  {
    ReadingsSnoc(visits, v);
  }

  lemma StepRoutes(cfg: Config, o: Oracles, p: Progress)
    requires p.point == AtOrchestrator
    ensures Step(cfg, o, p) ==
            match OrchestratorNode(cfg, o.router(|p.visits|), p.state)
            case Some(d) => Progress(Decide(d, p.state), PointOf(d.next), p.visits + [Routed(d)], p.prs)
            case None => Progress(p.state, Crashed, p.visits, p.prs)
  {
  }

  lemma RoutedShown(cfg: Config, o: Oracles, p: Progress, d: RouteDecision)
    requires EndShown(cfg, o, p) && p.point == AtOrchestrator
    ensures var q := Progress(Decide(d, p.state), PointOf(d.next), p.visits + [Routed(d)], p.prs);
            EndShown(cfg, o, q) && PointShown(cfg, o, q)
  {
  }

  lemma TraceOrchestrator(cfg: Config, o: Oracles, p: Progress)
    requires TraceInv(cfg, o, p) && p.point == AtOrchestrator
    ensures TraceInv(cfg, o, Step(cfg, o, p))
  {
    DecisionCalledFor(cfg, o, p);
    StepRoutes(cfg, o, p);
    match OrchestratorNode(cfg, o.router(|p.visits|), p.state)
    case Some(d) =>
      hide Step, OrchestratorNode, CalledFor, CapReached, RoutingShown, WorkShown, VisitsOk, EndShown;
      RoutedShown(cfg, o, p, d);
      VisitsOkSnoc(cfg, o, p.visits, Routed(d));
      RoutingNext(p.state, Decide(d, p.state), p.visits, Routed(d));
      WorkNext(p.state, Decide(d, p.state), p.visits, Routed(d));
    case None =>
      hide Step, OrchestratorNode, CalledFor, CapReached, RoutingShown, WorkShown, VisitsOk;
  }

  lemma TraceCoder(cfg: Config, o: Oracles, p: Progress)
    requires TraceInv(cfg, o, p) && p.point == AtCoder
    ensures TraceInv(cfg, o, Step(cfg, o, p))
  {
    hide CalledFor, CapReached, RoutingShown, WorkShown, VisitsOk;
    match o.coder(|p.visits|)
    case Reported(text) =>
      VisitsOkSnoc(cfg, o, p.visits, Coded(text));
      RoutingNext(p.state, CoderNode(text, p.state), p.visits, Coded(text));
      WorkNext(p.state, CoderNode(text, p.state), p.visits, Coded(text));
    case CoderFailed =>
  }

  lemma TraceReviewer(cfg: Config, o: Oracles, p: Progress)
    requires TraceInv(cfg, o, p) && p.point == AtReviewer
    ensures TraceInv(cfg, o, Step(cfg, o, p))
  {
    hide CalledFor, CapReached, RoutingShown, WorkShown, VisitsOk;
    match o.reviewer(|p.visits|)
    case Reviewed(calls) =>
      var v := ReviewedWith(Verdict(calls));
      VisitsOkSnoc(cfg, o, p.visits, v);
      RoutingNext(p.state, ReviewerNode(Verdict(calls), p.state), p.visits, v);
      WorkNext(p.state, ReviewerNode(Verdict(calls), p.state), p.visits, v);
    case ReviewerFailed =>
  }

  lemma ClosedShown(cfg: Config, o: Oracles, p: Progress)
    requires TraceInv(cfg, o, p) && (p.point == AtFinalize || p.point == AtAbort)
    ensures EndShown(cfg, o, Step(cfg, o, p)) && PointShown(cfg, o, Step(cfg, o, p))
  {
    hide CalledFor, CapReached, VisitsOk, WorkShown;
    ReadingsSnoc(p.visits, Closed);
    ApprovalShown(p.state, p.visits);
    RoutedLast(p.visits);
  }

  lemma ApprovalShown(s: TaskState, visits: seq<Visit>)
    requires WorkShown(s, visits)
    ensures Passed(s) <==> LastWorkApproved(visits)
  {
  }

  lemma RoutedLast(visits: seq<Visit>)
    ensures visits != [] && visits[|visits| - 1].Routed? ==> LastRouting(visits) == Some(visits[|visits| - 1].decision)
  {
  }

  lemma TraceClose(cfg: Config, o: Oracles, p: Progress)
    requires TraceInv(cfg, o, p) && (p.point == AtFinalize || p.point == AtAbort)
    ensures TraceInv(cfg, o, Step(cfg, o, p))
  {
    ClosedShown(cfg, o, p);
    hide CalledFor, CapReached, RoutingShown, WorkShown, VisitsOk, EndShown;
    var q := Step(cfg, o, p);
    if p.point == AtAbort || !o.finalize.FinalizeFailed? {
      VisitsOkSnoc(cfg, o, p.visits, Closed);
      RoutingNext(p.state, q.state, p.visits, Closed);
      WorkNext(p.state, q.state, p.visits, Closed);
    }
  }

  lemma TraceStep(cfg: Config, o: Oracles, p: Progress)
    requires TraceInv(cfg, o, p)
    ensures TraceInv(cfg, o, Step(cfg, o, p))
  {
    hide TraceInv;
    match p.point
    case AtOrchestrator => TraceOrchestrator(cfg, o, p);
    case AtCoder => TraceCoder(cfg, o, p);
    case AtReviewer => TraceReviewer(cfg, o, p);
    case AtFinalize => TraceClose(cfg, o, p);
    case AtAbort => TraceClose(cfg, o, p);
    case Ended =>
    case Crashed =>
  }

  /** For every oracle and after any number of node executions: every visit is what the replies and the
      visits before it call for, and every field of the state, the pull requests, the point reached and
      the blame for a crash are read off the visits. */
  lemma {:induction false} RunIsItsTrace(cfg: Config, o: Oracles, n: nat)
    ensures TraceInv(cfg, o, Exec(cfg, o, n))
    ensures !Exec(cfg, o, n).point.Over() ==> |Exec(cfg, o, n).visits| == n
  {
    hide Step, TraceInv, Begin;
    if n == 0 {
      TraceBegins(cfg, o);
    } else {
      RunIsItsTrace(cfg, o, n - 1);
      TraceStep(cfg, o, Exec(cfg, o, n - 1));
      StepVisits(cfg, o, Exec(cfg, o, n - 1));
    }
  }

  lemma TraceBegins(cfg: Config, o: Oracles)
    ensures TraceInv(cfg, o, Begin()) && |Begin().visits| == 0
  {
  }

  lemma StepVisits(cfg: Config, o: Oracles, p: Progress)
    ensures !Step(cfg, o, p).point.Over() ==> !p.point.Over() && |Step(cfg, o, p).visits| == |p.visits| + 1
  {
  }
}
