/** The orchestration graph of a run: orchestrator, coder, reviewer, finalize, abort.

    The router model, the coder, the reviewer and the effects of finalizing are oracles: whatever they
    answer at each node execution, including raising. `Exec` is the run after a number of node executions. */
module Orchestration {
  import opened Prelude
  import TaskKeys

  datatype Route = Code | Review | Finalize | Abort
  datatype RunStatus = Running | Completed | NeedsHuman | Aborted

  /** The checkpointed state; an absent key is `None`. */
  datatype TaskState = TaskState(
    plan: Option<string>, coderReport: Option<string>, reviewReport: Option<string>, requiredChanges: Option<string>,
    reviewPassed: Option<bool>, iterations: int, decision: Option<Route>, decisionReason: Option<string>,
    status: RunStatus, prUrl: Option<string>, error: Option<string>)

  datatype RouteDecision = RouteDecision(next: Route, reason: string, plan: string)
  datatype ReviewCall = ReviewCall(approved: bool, summary: string, requiredChanges: string)

  /** The routing model decides, raises, or returns nothing at all. */
  datatype RouterReply = Decided(decision: RouteDecision) | NoDecision | Nothing
  datatype CoderReply = Reported(text: string) | CoderFailed
  datatype ReviewerReply = Reviewed(calls: seq<ReviewCall>) | ReviewerFailed
  datatype FinalizeReply = NoCommits | PrOpened(url: string) | FinalizeFailed

  datatype Oracles = Oracles(router: nat -> RouterReply, coder: nat -> CoderReply, reviewer: nat -> ReviewerReply, finalize: FinalizeReply)
  datatype Config = Config(maxIterations: int, requireHumanApproval: bool)

  predicate Truthy(s: Option<string>) {
    s.Some? && s.value != ""
  }

  predicate Passed(s: TaskState) {
    s.reviewPassed == Some(true)
  }

  // ---- nodes --------------------------------------------------------------------

  /** The fixed rule for when the model raises. */
  function Fallback(s: TaskState): RouteDecision {
    if !Truthy(s.coderReport) then RouteDecision(Code, "fallback: start implementation", "")
    else if Passed(s) then RouteDecision(Finalize, "fallback: review passed", "")
    else if Truthy(s.reviewReport) then RouteDecision(Code, "fallback: address review", "")
    else RouteDecision(Review, "fallback: review the changes", "")
  }

  /** `decide_route`: whatever the model returns, even nothing, or the fixed rule. */
  function DecideRoute(reply: RouterReply, s: TaskState): Option<RouteDecision> {
    match reply
    case Decided(d) => Some(d)
    case NoDecision => Some(Fallback(s))
    case Nothing => None
  }

  predicate Capped(cfg: Config, s: TaskState) {
    s.iterations >= cfg.maxIterations && !Passed(s)
  }

  function Decide(d: RouteDecision, s: TaskState): TaskState {
    s.(decision := Some(d.next), decisionReason := Some(d.reason), status := Running,
       plan := if d.plan != "" && !Truthy(s.plan) then Some(d.plan) else s.plan)
  }

  /** The routing that the node decides on; `None` when it raises, having no decision to look into. */
  function OrchestratorNode(cfg: Config, reply: RouterReply, s: TaskState): Option<RouteDecision> {
    if Capped(cfg, s) then
      Some(RouteDecision(Finalize, "reached max iterations (" + TaskKeys.IntText(cfg.maxIterations) + ")", ""))
    else
      DecideRoute(reply, s)
  }

  function CoderNode(text: string, s: TaskState): TaskState {
    s.(coderReport := Some(if text != "" then text else "(coder produced no summary)"),
       iterations := s.iterations + 1,
       reviewPassed := Some(false), reviewReport := Some(""), requiredChanges := Some(""))
  }

  /** Each call to `submit_review` replaces the verdict: the last one counts. */
  function Verdict(calls: seq<ReviewCall>): Option<ReviewCall> {
    if calls == [] then None else Some(calls[|calls| - 1])
  }

  function ReviewerNode(verdict: Option<ReviewCall>, s: TaskState): TaskState {
    match verdict
    case Some(v) =>
      s.(reviewPassed := Some(v.approved), reviewReport := Some(v.summary), requiredChanges := Some(v.requiredChanges))
    case None =>
      s.(reviewPassed := Some(false), reviewReport := Some("Reviewer did not submit a verdict."),
         requiredChanges := Some("Re-review the changes and submit a verdict."))
  }

  function IsDraft(cfg: Config, s: TaskState): bool {
    cfg.requireHumanApproval || !Passed(s)
  }

  function AbortNode(s: TaskState): TaskState {
    s.(status := Aborted, error := Some(match s.decisionReason case Some(r) => r case None => "not actionable"))
  }

  // ---- runs ---------------------------------------------------------------------

  datatype Point = AtOrchestrator | AtCoder | AtReviewer | AtFinalize | AtAbort | Ended | Crashed {
    predicate Over() { Ended? || Crashed? }
  }

  /** What happened, in order: routings, the coder's reports, the reviewer's verdicts, the end. */
  datatype Visit = Routed(decision: RouteDecision) | Coded(text: string) | ReviewedWith(verdict: Option<ReviewCall>) | Closed

  datatype PullRequest = PullRequest(url: string, draft: bool)

  datatype Progress = Progress(state: TaskState, point: Point, visits: seq<Visit>, prs: seq<PullRequest>)

  function Begin(): Progress {
    Progress(TaskState(None, None, None, None, None, 0, None, None, Running, None, None), AtOrchestrator, [], [])
  }

  function PointOf(r: Route): Point {
    match r
    case Code => AtCoder
    case Review => AtReviewer
    case Finalize => AtFinalize
    case Abort => AtAbort
  }

  function Crash(p: Progress): Progress {
    p.(point := Crashed)
  }

  function FinalizeStep(cfg: Config, reply: FinalizeReply, p: Progress): Progress {
    match reply
    case NoCommits =>
      p.(state := p.state.(status := NeedsHuman, error := Some("no changes produced")), point := Ended, visits := p.visits + [Closed])
    case PrOpened(url) =>
      p.(state := p.state.(status := Completed, prUrl := Some(url)), point := Ended, visits := p.visits + [Closed],
         prs := p.prs + [PullRequest(url, IsDraft(cfg, p.state))])
    case FinalizeFailed => Crash(p)
  }

  /** One node execution; the oracles are asked by its number. A run that is over stays as it is. */
  function Step(cfg: Config, o: Oracles, p: Progress): Progress {
    var n := |p.visits|;
    match p.point
    case AtOrchestrator =>
      (match OrchestratorNode(cfg, o.router(n), p.state)
       case Some(d) => p.(state := Decide(d, p.state), point := PointOf(d.next), visits := p.visits + [Routed(d)])
       case None => Crash(p))
    case AtCoder =>
      (match o.coder(n)
       case Reported(text) => p.(state := CoderNode(text, p.state), point := AtOrchestrator, visits := p.visits + [Coded(text)])
       case CoderFailed => Crash(p))
    case AtReviewer =>
      (match o.reviewer(n)
       case Reviewed(calls) =>
         p.(state := ReviewerNode(Verdict(calls), p.state), point := AtOrchestrator, visits := p.visits + [ReviewedWith(Verdict(calls))])
       case ReviewerFailed => Crash(p))
    case AtFinalize => FinalizeStep(cfg, o.finalize, p)
    case AtAbort => p.(state := AbortNode(p.state), point := Ended, visits := p.visits + [Closed])
    case Ended => p
    case Crashed => p
  }

  function Exec(cfg: Config, o: Oracles, n: nat): Progress {
    if n == 0 then Begin() else Step(cfg, o, Exec(cfg, o, n - 1))
  }

  // ---- readings of the history ---------------------------------------------------

  /** The latest coder or reviewer visit. */
  function LastWork(visits: seq<Visit>): Option<Visit> {
    if visits == [] then None
    else
      var v := visits[|visits| - 1];
      if v.Coded? || v.ReviewedWith? then Some(v) else LastWork(visits[..|visits| - 1])
  }

  function CoderRounds(visits: seq<Visit>): nat {
    if visits == [] then 0
    else CoderRounds(visits[..|visits| - 1]) + if visits[|visits| - 1].Coded? then 1 else 0
  }

  /** How many reviews there were since the last coder round. */
  function ReviewStreak(visits: seq<Visit>): nat {
    if visits == [] then 0
    else
      var v := visits[|visits| - 1];
      if v.Coded? then 0
      else ReviewStreak(visits[..|visits| - 1]) + if v.ReviewedWith? then 1 else 0
  }

  lemma VisitsSnoc(visits: seq<Visit>, v: Visit)
    ensures LastWork(visits + [v]) == if v.Coded? || v.ReviewedWith? then Some(v) else LastWork(visits)
    ensures CoderRounds(visits + [v]) == CoderRounds(visits) + if v.Coded? then 1 else 0
    ensures ReviewStreak(visits + [v]) ==
            if v.Coded? then 0 else ReviewStreak(visits) + if v.ReviewedWith? then 1 else 0
  {
    assert (visits + [v])[..|visits|] == visits;
  }

  /** The latest work was a review whose final verdict approved. */
  predicate LastWorkApproved(visits: seq<Visit>) {
    match LastWork(visits)
    case Some(ReviewedWith(Some(v))) => v.approved
    case _ => false
  }

  // ---- the invariant ----------------------------------------------------------------

  ghost predicate RunInv(cfg: Config, p: Progress) {
    && p.state.iterations == CoderRounds(p.visits)
    && p.state.iterations <= Max(0, cfg.maxIterations)
    && (Passed(p.state) <==> LastWorkApproved(p.visits))
    && (p.state.iterations >= cfg.maxIterations ==>
          && !Passed(p.state) && ReviewStreak(p.visits) == 0
          && p.point != AtCoder && p.point != AtReviewer && p.point != AtAbort
          && p.state.status != Aborted)
    && (p.prs != [] ==>
          && p.point == Ended && |p.prs| == 1
          && p.prs[0].draft == IsDraft(cfg, p.state) && p.state.prUrl == Some(p.prs[0].url))
    && (p.point == Ended ==> p.state.status != Running && (p.state.status == Completed <==> p.prs != []))
    && (p.point != Ended ==> p.state.status == Running && p.prs == [])
  }

  lemma RunInvOrchestrator(cfg: Config, o: Oracles, p: Progress)
    requires RunInv(cfg, p) && p.point == AtOrchestrator
    ensures RunInv(cfg, Step(cfg, o, p))
  {
    match OrchestratorNode(cfg, o.router(|p.visits|), p.state)
    case Some(d) => VisitsSnoc(p.visits, Routed(d));
    case None =>
  }

  lemma RunInvCoder(cfg: Config, o: Oracles, p: Progress)
    requires RunInv(cfg, p) && p.point == AtCoder
    ensures RunInv(cfg, Step(cfg, o, p))
  {
    match o.coder(|p.visits|)
    case Reported(text) => VisitsSnoc(p.visits, Coded(text));
    case CoderFailed =>
  }

  lemma RunInvReviewer(cfg: Config, o: Oracles, p: Progress)
    requires RunInv(cfg, p) && p.point == AtReviewer
    ensures RunInv(cfg, Step(cfg, o, p))
  {
    match o.reviewer(|p.visits|)
    case Reviewed(calls) => VisitsSnoc(p.visits, ReviewedWith(Verdict(calls)));
    case ReviewerFailed =>
  }

  lemma RunInvClose(cfg: Config, o: Oracles, p: Progress)
    requires RunInv(cfg, p) && (p.point == AtFinalize || p.point == AtAbort)
    ensures RunInv(cfg, Step(cfg, o, p))
  {
    VisitsSnoc(p.visits, Closed);
  }

  lemma RunInvStep(cfg: Config, o: Oracles, p: Progress)
    requires RunInv(cfg, p)
    ensures RunInv(cfg, Step(cfg, o, p))
  {
    match p.point
    case AtOrchestrator => RunInvOrchestrator(cfg, o, p);
    case AtCoder => RunInvCoder(cfg, o, p);
    case AtReviewer => RunInvReviewer(cfg, o, p);
    case AtFinalize => RunInvClose(cfg, o, p);
    case AtAbort => RunInvClose(cfg, o, p);
    case Ended =>
    case Crashed =>
  }

  lemma {:induction false} RunInvExec(cfg: Config, o: Oracles, n: nat)
    ensures RunInv(cfg, Exec(cfg, o, n))
  {
    if n > 0 {
      RunInvExec(cfg, o, n - 1);
      RunInvStep(cfg, o, Exec(cfg, o, n - 1));
    }
  }

  // ---- what a pull request says --------------------------------------------------------

  /** At most one pull request is opened, and it is ready for review exactly when human approval is
      off and the last work in the run was a review whose final verdict approved, with no coder round
      after it, whatever the router and the reviewers do. */
  lemma {:induction false} ReadyPullRequests(cfg: Config, o: Oracles, n: nat)
    ensures var p := Exec(cfg, o, n);
            && |p.prs| <= 1
            && forall pr :: pr in p.prs ==> (!pr.draft <==> !cfg.requireHumanApproval && LastWorkApproved(p.visits))
  {
    RunInvExec(cfg, o, n);
  }

  /** The iteration cap: coder rounds never exceed it, a coder node is entered only below it, and the
      round that reaches it is never reviewed, so a run that used all its rounds goes to finalize, never
      to abort, and opens at most a draft. */
  lemma {:induction false} IterationCap(cfg: Config, o: Oracles, n: nat)
    ensures var p := Exec(cfg, o, n);
            && CoderRounds(p.visits) == p.state.iterations <= Max(0, cfg.maxIterations)
            && (p.point == AtCoder ==> p.state.iterations < cfg.maxIterations)
            && (p.state.iterations >= cfg.maxIterations ==>
                  && ReviewStreak(p.visits) == 0
                  && p.point != AtReviewer && p.point != AtAbort && p.state.status != Aborted
                  && (p.point == AtOrchestrator ==> Step(cfg, o, p).point == AtFinalize)
                  && forall pr :: pr in p.prs ==> pr.draft)
  {
    RunInvExec(cfg, o, n);
  }

  // ---- how long a run takes ---------------------------------------------------------------

  /** Coder and reviewer visits that fit into a number of coder rounds, with at most `r` reviews before each. */
  function Budget(rounds: nat, r: nat): nat {
    if rounds == 0 then 0 else Budget(rounds - 1, r) + r + 1
  }

  lemma {:induction false} BudgetIsProduct(rounds: nat, r: nat)
    ensures Budget(rounds, r) == rounds * (r + 1)
  {
    if rounds > 0 {
      BudgetIsProduct(rounds - 1, r);
    }
  }

  function RoundsLeft(cfg: Config, p: Progress): nat {
    Max(0, cfg.maxIterations - p.state.iterations)
  }

  /** Node executions left, if no more than `r` reviews come in a row. */
  function Left(cfg: Config, r: nat, p: Progress): int {
    match p.point
    case AtOrchestrator => 2 * (Budget(RoundsLeft(cfg, p), r) - ReviewStreak(p.visits)) + 2
    case AtCoder => 2 * (Budget(RoundsLeft(cfg, p), r) - r) + 1
    case AtReviewer => 2 * (Budget(RoundsLeft(cfg, p), r) - ReviewStreak(p.visits)) + 1
    case AtFinalize => 1
    case AtAbort => 1
    case Ended => 0
    case Crashed => 0
  }

  /** A routing changes neither the rounds nor the streak, and goes on only as far as the cap lets it. */
  lemma RoutingKeeps(cfg: Config, o: Oracles, p: Progress)
    requires RunInv(cfg, p) && p.point == AtOrchestrator
    ensures var q := Step(cfg, o, p);
            && q.state.iterations == p.state.iterations && ReviewStreak(q.visits) == ReviewStreak(p.visits)
            && q.point != AtOrchestrator
            && (q.point == AtCoder || q.point == AtReviewer ==> RoundsLeft(cfg, p) > 0)
  {
    match OrchestratorNode(cfg, o.router(|p.visits|), p.state)
    case Some(d) => VisitsSnoc(p.visits, Routed(d));
    case None =>
  }

  lemma RoutingUsesUp(cfg: Config, o: Oracles, r: nat, p: Progress)
    requires RunInv(cfg, p) && p.point == AtOrchestrator && ReviewStreak(p.visits) <= r
    requires ReviewStreak(Step(cfg, o, p).visits) <= r
    ensures 0 < Left(cfg, r, p) && Left(cfg, r, Step(cfg, o, p)) < Left(cfg, r, p)
  {
    hide Step;
    RoutingKeeps(cfg, o, p);
    StreakFits(cfg, r, p);
  }

  /** The reviews since the last coder round fit into the budget of what is left. */
  lemma StreakFits(cfg: Config, r: nat, p: Progress)
    requires RunInv(cfg, p) && ReviewStreak(p.visits) <= r
    ensures ReviewStreak(p.visits) <= Budget(RoundsLeft(cfg, p), r)
  {
  }

  lemma CodingUsesUp(cfg: Config, o: Oracles, r: nat, p: Progress)
    requires RunInv(cfg, p) && p.point == AtCoder && ReviewStreak(p.visits) <= r
    ensures 0 < Left(cfg, r, p) && Left(cfg, r, Step(cfg, o, p)) < Left(cfg, r, p)
  {
    match o.coder(|p.visits|)
    case Reported(text) => VisitsSnoc(p.visits, Coded(text));
    case CoderFailed =>
  }

  lemma ReviewingUsesUp(cfg: Config, o: Oracles, r: nat, p: Progress)
    requires RunInv(cfg, p) && p.point == AtReviewer && ReviewStreak(p.visits) <= r
    requires ReviewStreak(Step(cfg, o, p).visits) <= r
    ensures 0 < Left(cfg, r, p) && Left(cfg, r, Step(cfg, o, p)) < Left(cfg, r, p)
  {
    match o.reviewer(|p.visits|)
    case Reviewed(calls) => VisitsSnoc(p.visits, ReviewedWith(Verdict(calls)));
    case ReviewerFailed =>
  }

  lemma ClosingUsesUp(cfg: Config, o: Oracles, r: nat, p: Progress)
    requires p.point == AtFinalize || p.point == AtAbort
    ensures 0 < Left(cfg, r, p) && Left(cfg, r, Step(cfg, o, p)) < Left(cfg, r, p)
  {
  }

  /** Every node execution uses up some of what is left. */
  lemma LeftDecreases(cfg: Config, o: Oracles, r: nat, p: Progress)
    requires RunInv(cfg, p) && !p.point.Over()
    requires ReviewStreak(p.visits) <= r && ReviewStreak(Step(cfg, o, p).visits) <= r
    ensures 0 < Left(cfg, r, p) && Left(cfg, r, Step(cfg, o, p)) < Left(cfg, r, p)
  {
    hide Step, Left;
    if p.point == AtOrchestrator { RoutingUsesUp(cfg, o, r, p); }
    else if p.point == AtCoder { CodingUsesUp(cfg, o, r, p); }
    else if p.point == AtReviewer { ReviewingUsesUp(cfg, o, r, p); }
    else { ClosingUsesUp(cfg, o, r, p); }
  }

  predicate StreakWithin(cfg: Config, o: Oracles, r: nat, k: nat) {
    ReviewStreak(Exec(cfg, o, k).visits) <= r
  }

  /** The router never asks for more than `r` reviews without a coder round between them. */
  ghost predicate AtMostReviews(cfg: Config, o: Oracles, r: nat) {
    forall k: nat :: StreakWithin(cfg, o, r, k)
  }

  /** `total` executions suffice if `n` of them have been made and `total - n` are enough for the rest. */
  ghost predicate OnTrack(cfg: Config, r: nat, p: Progress, n: nat, total: int) {
    p.point.Over() || Left(cfg, r, p) <= total - n
  }

  lemma OnTrackStep(cfg: Config, o: Oracles, r: nat, p: Progress, n: nat, total: int)
    requires RunInv(cfg, p) && OnTrack(cfg, r, p, n, total)
    requires ReviewStreak(p.visits) <= r && ReviewStreak(Step(cfg, o, p).visits) <= r
    ensures OnTrack(cfg, r, Step(cfg, o, p), n + 1, total)
  {
    if !p.point.Over() { LeftDecreases(cfg, o, r, p); }
  }

  lemma {:induction false} LeftAfter(cfg: Config, o: Oracles, r: nat, n: nat, total: int)
    requires AtMostReviews(cfg, o, r) && OnTrack(cfg, r, Begin(), 0, total)
    ensures OnTrack(cfg, r, Exec(cfg, o, n), n, total)
  {
    if n > 0 {
      LeftAfter(cfg, o, r, n - 1, total);
      RunInvExec(cfg, o, n - 1);
      assert StreakWithin(cfg, o, r, n - 1) && StreakWithin(cfg, o, r, n);
      OnTrackStep(cfg, o, r, Exec(cfg, o, n - 1), n - 1, total);
    }
  }

  /** The step bound: with at most `r` reviews in a row, a run is over after 2M(r+1)+2 node executions. */
  lemma {:induction false} RunsAreBounded(cfg: Config, o: Oracles, r: nat)
    requires AtMostReviews(cfg, o, r)
    ensures Exec(cfg, o, 2 * Max(0, cfg.maxIterations) * (r + 1) + 2).point.Over()
  {
    var m := Max(0, cfg.maxIterations);
    BudgetIsProduct(m, r);
    var n := 2 * (m * (r + 1)) + 2;
    assert n == 2 * m * (r + 1) + 2;
    LeftAfter(cfg, o, r, n, n);
    var p := Exec(cfg, o, n);
    if !p.point.Over() {
      RunInvExec(cfg, o, n);
      assert StreakWithin(cfg, o, r, n);
      LeftPositive(cfg, r, p);
    }
  }

  lemma LeftPositive(cfg: Config, r: nat, p: Progress)
    requires RunInv(cfg, p) && !p.point.Over() && ReviewStreak(p.visits) <= r
    ensures 0 < Left(cfg, r, p)
  {
  }

  // ---- the fallback router ------------------------------------------------------------------

  /** The model never answers, so the fixed rule routes. */
  ghost predicate AlwaysFallback(o: Oracles) {
    forall n: nat :: o.router(n) == NoDecision
  }

  /** No reviewer rejects without saying anything. */
  ghost predicate NoSilentRejection(o: Oracles) {
    forall n: nat :: Speaks(o.reviewer(n))
  }

  /** Node executions left under the fallback router: before the first coder round, after a coder round,
      after a rejecting review, after an approving one. */
  function FallbackLeft(m: int, p: Progress): int {
    var s := p.state;
    match p.point
    case AtOrchestrator =>
      if s.iterations >= m || Passed(s) then 2
      else if !Truthy(s.coderReport) then 4 * m
      else if Truthy(s.reviewReport) then 4 * (m - s.iterations)
      else 4 * (m - s.iterations) + 2
    case AtCoder => if !Truthy(s.coderReport) then 4 * m - 1 else 4 * (m - s.iterations) - 1
    case AtReviewer => 4 * (m - s.iterations) + 1
    case AtFinalize => 1
    case AtAbort => 1
    case Ended => 0
    case Crashed => 0
  }

  ghost predicate FallbackInv(p: Progress) {
    && (Truthy(p.state.coderReport) <==> p.state.iterations > 0)
    && 0 <= p.state.iterations
    && p.point != AtAbort
    && (p.point == AtReviewer || Passed(p.state) ==> Truthy(p.state.coderReport))
  }

  /** A reply that does not reject in silence. */
  predicate Speaks(r: ReviewerReply) {
    r.Reviewed? ==> match Verdict(r.calls) case Some(v) => v.approved || v.summary != "" case None => true
  }

  lemma FallbackRoute(cfg: Config, o: Oracles, p: Progress)
    requires o.router(|p.visits|) == NoDecision && RunInv(cfg, p) && FallbackInv(p) && p.point == AtOrchestrator
    ensures FallbackInv(Step(cfg, o, p))
    ensures 0 < FallbackLeft(cfg.maxIterations, p)
    ensures FallbackLeft(cfg.maxIterations, Step(cfg, o, p)) == FallbackLeft(cfg.maxIterations, p) - 1
  {
  }

  lemma FallbackWork(cfg: Config, o: Oracles, p: Progress)
    requires Speaks(o.reviewer(|p.visits|)) && RunInv(cfg, p) && FallbackInv(p)
    requires p.point == AtCoder || p.point == AtReviewer
    ensures FallbackInv(Step(cfg, o, p))
    ensures 0 < FallbackLeft(cfg.maxIterations, p)
    ensures FallbackLeft(cfg.maxIterations, Step(cfg, o, p)) < FallbackLeft(cfg.maxIterations, p)
  {
  }

  lemma FallbackStep(cfg: Config, o: Oracles, p: Progress)
    requires AlwaysFallback(o) && NoSilentRejection(o)
    requires RunInv(cfg, p) && FallbackInv(p) && !p.point.Over()
    ensures FallbackInv(Step(cfg, o, p))
    ensures 0 < FallbackLeft(cfg.maxIterations, p)
    ensures FallbackLeft(cfg.maxIterations, Step(cfg, o, p)) < FallbackLeft(cfg.maxIterations, p)
  {
    assert o.router(|p.visits|) == NoDecision && Speaks(o.reviewer(|p.visits|));
    if p.point == AtOrchestrator { FallbackRoute(cfg, o, p); }
    else if p.point == AtCoder || p.point == AtReviewer { FallbackWork(cfg, o, p); }
  }

  ghost predicate FallbackOnTrack(cfg: Config, p: Progress, n: nat, total: int) {
    RunInv(cfg, p) && FallbackInv(p) && (p.point.Over() || FallbackLeft(cfg.maxIterations, p) <= total - n)
  }

  lemma FallbackOnTrackStep(cfg: Config, o: Oracles, p: Progress, n: nat, total: int)
    requires AlwaysFallback(o) && NoSilentRejection(o) && FallbackOnTrack(cfg, p, n, total)
    ensures FallbackOnTrack(cfg, Step(cfg, o, p), n + 1, total)
  {
    RunInvStep(cfg, o, p);
    if !p.point.Over() { FallbackStep(cfg, o, p); }
  }

  lemma {:induction false} FallbackAfter(cfg: Config, o: Oracles, n: nat, total: int)
    requires AlwaysFallback(o) && NoSilentRejection(o) && FallbackOnTrack(cfg, Begin(), 0, total)
    ensures FallbackOnTrack(cfg, Exec(cfg, o, n), n, total)
  {
    if n > 0 {
      FallbackAfter(cfg, o, n - 1, total);
      FallbackOnTrackStep(cfg, o, Exec(cfg, o, n - 1), n - 1, total);
    }
  }

  lemma FallbackOver(cfg: Config, o: Oracles, p: Progress, n: nat)
    requires AlwaysFallback(o) && NoSilentRejection(o) && FallbackOnTrack(cfg, p, n, n)
    ensures p.point.Over()
  {
    if !p.point.Over() { FallbackStep(cfg, o, p); }
  }

  /** Under the fallback router a run takes at most 4M node executions, if no review rejects silently.
      Up to 12 rounds this fits the recursion limit of 50. */
  lemma {:induction false} FallbackRunsAreBounded(cfg: Config, o: Oracles)
    requires AlwaysFallback(o) && NoSilentRejection(o) && cfg.maxIterations >= 1
    ensures Exec(cfg, o, 4 * cfg.maxIterations).point.Over()
  {
    var n: nat := 4 * cfg.maxIterations;
    FallbackAfter(cfg, o, n, n);
    FallbackOver(cfg, o, Exec(cfg, o, n), n);
  }

  /** Nobody fails, and every review rejects with a reason. */
  ghost predicate AlwaysRejected(o: Oracles) {
    && (forall n: nat :: o.coder(n).Reported?)
    && (forall n: nat :: o.reviewer(n).Reviewed? && o.reviewer(n).calls != []
                         && var v := o.reviewer(n).calls[|o.reviewer(n).calls| - 1]; !v.approved && v.summary != "")
  }

  lemma RejectedStep(cfg: Config, o: Oracles, p: Progress)
    requires AlwaysFallback(o) && AlwaysRejected(o) && RunInv(cfg, p) && FallbackInv(p) && !Passed(p.state)
    requires !p.point.Over()
    ensures FallbackInv(Step(cfg, o, p)) && !Passed(Step(cfg, o, p).state)
    ensures FallbackLeft(cfg.maxIterations, Step(cfg, o, p)) == FallbackLeft(cfg.maxIterations, p) - 1
  {
    assert o.router(|p.visits|) == NoDecision;
    assert o.coder(|p.visits|).Reported?;
    assert o.reviewer(|p.visits|).Reviewed?;
  }

  ghost predicate RejectedAt(cfg: Config, p: Progress, n: nat) {
    && RunInv(cfg, p) && FallbackInv(p) && !Passed(p.state)
    && FallbackLeft(cfg.maxIterations, p) == 4 * cfg.maxIterations - n
  }

  lemma RejectedAtStep(cfg: Config, o: Oracles, p: Progress, n: nat)
    requires AlwaysFallback(o) && AlwaysRejected(o) && RejectedAt(cfg, p, n) && n < 4 * cfg.maxIterations
    ensures RejectedAt(cfg, Step(cfg, o, p), n + 1)
  {
    RunInvStep(cfg, o, p);
    RejectedStep(cfg, o, p);
  }

  lemma {:induction false} RejectedAfter(cfg: Config, o: Oracles, n: nat)
    requires AlwaysFallback(o) && AlwaysRejected(o) && cfg.maxIterations >= 1 && n <= 4 * cfg.maxIterations
    ensures RejectedAt(cfg, Exec(cfg, o, n), n)
  {
    if n > 0 {
      RejectedAfter(cfg, o, n - 1);
      RejectedAtStep(cfg, o, Exec(cfg, o, n - 1), n - 1);
    }
  }

  lemma RejectedEnd(cfg: Config, p: Progress, n: nat)
    requires RejectedAt(cfg, p, n) && cfg.maxIterations >= 1
    ensures n == 4 * cfg.maxIterations - 1 ==> p.point == AtFinalize
    ensures n == 4 * cfg.maxIterations ==> p.point.Over() && forall pr :: pr in p.prs ==> pr.draft
  {
  }

  /** The bound 4M is met exactly by a run whose every review is an explained rejection: it is still
      going after 4M - 1 executions ... */
  lemma RejectedRunsUseTheBound(cfg: Config, o: Oracles, n: nat)
    requires AlwaysFallback(o) && AlwaysRejected(o) && cfg.maxIterations >= 1 && n == 4 * cfg.maxIterations - 1
    ensures Exec(cfg, o, n).point == AtFinalize
  {
    RejectedAfter(cfg, o, n);
    RejectedEnd(cfg, Exec(cfg, o, n), n);
  }

  /** ... and over after one more, having opened at most a draft. */
  lemma RejectedRunsEndInADraft(cfg: Config, o: Oracles, n: nat)
    requires AlwaysFallback(o) && AlwaysRejected(o) && cfg.maxIterations >= 1 && n == 4 * cfg.maxIterations
    ensures Exec(cfg, o, n).point.Over() && forall pr :: pr in Exec(cfg, o, n).prs ==> pr.draft
  {
    RejectedAfter(cfg, o, n);
    RejectedEnd(cfg, Exec(cfg, o, n), n);
  }

  // ---- does every run end? ---------------------------------------------------------------------

  lemma {:induction false} OverForGood(cfg: Config, o: Oracles, n: nat, k: nat)
    requires n <= k && Exec(cfg, o, n).point.Over()
    ensures Exec(cfg, o, k) == Exec(cfg, o, n)
    decreases k
  {
    if n < k {
      OverForGood(cfg, o, n, k - 1);
    }
  }

  ghost predicate ShortStreak(p: Progress, k: nat) {
    ReviewStreak(p.visits) <= k
  }

  lemma ShortStreakStep(cfg: Config, o: Oracles, p: Progress, k: nat)
    requires ShortStreak(p, k)
    ensures ShortStreak(Step(cfg, o, p), k + 1)
  {
    var q := Step(cfg, o, p);
    if q.visits != p.visits {
      assert q.visits == p.visits + [q.visits[|p.visits|]];
      VisitsSnoc(p.visits, q.visits[|p.visits|]);
    }
  }

  lemma {:induction false} StreakBelowLength(cfg: Config, o: Oracles, k: nat)
    ensures ShortStreak(Exec(cfg, o, k), k)
  {
    if k > 0 {
      StreakBelowLength(cfg, o, k - 1);
      ShortStreakStep(cfg, o, Exec(cfg, o, k - 1), k - 1);
    }
  }

  predicate EndsBy(cfg: Config, o: Oracles, n: nat) {
    Exec(cfg, o, n).point.Over()
  }

  /** A run ends, without help from the recursion limit, exactly when the reviews in a row are bounded:
      the iteration guard counts coder rounds only. */
  lemma {:induction false} RunsEndExactlyWhenReviewsAreBounded(cfg: Config, o: Oracles)
    ensures (exists n: nat :: EndsBy(cfg, o, n)) <==> (exists r: nat :: AtMostReviews(cfg, o, r))
  {
    if n: nat :| EndsBy(cfg, o, n) {
      forall k: nat ensures StreakWithin(cfg, o, n, k) {
        if k <= n { StreakBelowLength(cfg, o, k); } else { OverForGood(cfg, o, n, k); StreakBelowLength(cfg, o, n); }
      }
      assert AtMostReviews(cfg, o, n);
    }
    if r: nat :| AtMostReviews(cfg, o, r) {
      RunsAreBounded(cfg, o, r);
      var n: nat := 2 * Max(0, cfg.maxIterations) * (r + 1) + 2;
      assert EndsBy(cfg, o, n);
    }
  }

  /** A router that only ever asks for reviews never lets the run end, whatever the iteration cap, as long
      as reviewers do not raise. */
  lemma {:induction false} OnlyReviewsNeverEnd(cfg: Config, o: Oracles, n: nat)
    requires cfg.maxIterations >= 1
    requires forall k: nat :: o.router(k).Decided? && o.router(k).decision.next == Review && o.reviewer(k).Reviewed?
    ensures var p := Exec(cfg, o, n);
            (p.point == AtOrchestrator || p.point == AtReviewer) && p.state.iterations == 0
  {
    if n > 0 {
      OnlyReviewsNeverEnd(cfg, o, n - 1);
      var k := |Exec(cfg, o, n - 1).visits|;
      assert o.router(k).Decided? && o.reviewer(k).Reviewed?;
    }
  }

  predicate SilentlyRejects(r: ReviewerReply) {
    r.Reviewed? && match Verdict(r.calls) case Some(v) => !v.approved && v.summary == "" case None => false
  }

  /** Before the first coder round, or in the first round's endless reviews. */
  ghost predicate InSilence(p: Progress) {
    && !p.point.Over() && !Passed(p.state)
    && (p.state.iterations == 0 ==> p.point in {AtOrchestrator, AtCoder} && !Truthy(p.state.coderReport))
    && (p.state.iterations != 0 ==>
          p.state.iterations == 1 && p.point in {AtOrchestrator, AtReviewer}
          && Truthy(p.state.coderReport) && !Truthy(p.state.reviewReport))
  }

  lemma SilenceRoutes(cfg: Config, o: Oracles, p: Progress)
    requires cfg.maxIterations >= 2 && InSilence(p) && p.point == AtOrchestrator && o.router(|p.visits|) == NoDecision
    ensures InSilence(Step(cfg, o, p))
  {
  }

  lemma SilenceWorks(cfg: Config, o: Oracles, p: Progress)
    requires InSilence(p) && p.point != AtOrchestrator
    requires o.coder(|p.visits|).Reported? && SilentlyRejects(o.reviewer(|p.visits|))
    ensures InSilence(Step(cfg, o, p))
  {
  }

  /** Nor does the fallback rule end it when every review is an unexplained rejection and a second round is allowed. */
  lemma {:induction false} SilentRejectionsNeverEnd(cfg: Config, o: Oracles, n: nat)
    requires cfg.maxIterations >= 2 && AlwaysFallback(o)
    requires forall k: nat :: o.coder(k).Reported? && SilentlyRejects(o.reviewer(k))
    ensures InSilence(Exec(cfg, o, n))
  {
    hide Step;
    if n > 0 {
      SilentRejectionsNeverEnd(cfg, o, n - 1);
      var p := Exec(cfg, o, n - 1);
      assert o.router(|p.visits|) == NoDecision && o.coder(|p.visits|).Reported? && SilentlyRejects(o.reviewer(|p.visits|));
      if p.point == AtOrchestrator { SilenceRoutes(cfg, o, p); } else { SilenceWorks(cfg, o, p); }
    }
  }

  /** With at most 12 rounds, a fallback-routed run without silent rejections is over after 48 node executions,
      within the recursion limit of 50 however the limit counts the entry step. */
  lemma FallbackFitsRecursionLimit(cfg: Config, o: Oracles)
    requires AlwaysFallback(o) && NoSilentRejection(o) && 1 <= cfg.maxIterations <= 12
    ensures EndsBy(cfg, o, 48)
  {
    FallbackRunsAreBounded(cfg, o);
    OverForGood(cfg, o, 4 * cfg.maxIterations, 48);
  }

  // ---- exactly when a run ends, read off the replies ----------------------------------------------

  /** The latest reply of a worker. */
  datatype Memory = Fresh | Wrote | Judged(approved: bool, spoke: bool)

  function Recall(verdict: Option<ReviewCall>): Memory {
    match verdict
    case Some(v) => Judged(v.approved, v.summary != "")
    case None => Judged(false, true)
  }

  /** What the replies of some rounds add up to: how many were coder rounds, and the latest worker reply.
      A round is a router reply and, one number on, the reply of the worker it asks for. */
  datatype Tally = Tally(codes: nat, memory: Memory)

  /** The route a router reply stands for; `None` when it is nothing. */
  function Wanted(reply: RouterReply, t: Tally): Option<Route> {
    match reply
    case Decided(d) => Some(d.next)
    case Nothing => None
    case NoDecision =>
      if t.codes == 0 then Some(Code)
      else if t.memory.Judged? && t.memory.approved then Some(Finalize)
      else if t.memory.Judged? && t.memory.spoke then Some(Code)
      else Some(Review)
  }

  function Counted(o: Oracles, i: nat, t: Tally): Tally {
    match Wanted(o.router(2 * i), t)
    case Some(Code) => Tally(t.codes + 1, Wrote)
    case Some(Review) =>
      (match o.reviewer(2 * i + 1)
       case Reviewed(calls) => t.(memory := Recall(Verdict(calls)))
       case ReviewerFailed => t)
    case _ => t
  }

  function TallyOf(o: Oracles, k: nat): Tally {
    if k == 0 then Tally(0, Fresh) else Counted(o, k - 1, TallyOf(o, k - 1))
  }

  /** The replies of round `i` let the run go on: the coder rounds so far are below the cap, the router
      asks for a coder or a reviewer, and that one does not raise. */
  predicate GoesOn(cfg: Config, o: Oracles, i: nat) {
    var t := TallyOf(o, i);
    && t.codes < cfg.maxIterations
    && match Wanted(o.router(2 * i), t)
       case Some(Code) => o.coder(2 * i + 1).Reported?
       case Some(Review) => o.reviewer(2 * i + 1).Reviewed?
       case _ => false
  }

  /** The state of a run between two rounds is what the replies add up to. */
  ghost predicate Between(p: Progress, k: nat, t: Tally) {
    && p.point == AtOrchestrator && |p.visits| == 2 * k
    && p.state.iterations == t.codes
    && (Truthy(p.state.coderReport) <==> t.codes > 0)
    && (Passed(p.state) <==> t.memory.Judged? && t.memory.approved)
    && (Truthy(p.state.reviewReport) <==> t.memory.Judged? && t.memory.spoke)
  }

  lemma RouteOfReplies(cfg: Config, o: Oracles, p: Progress, k: nat, t: Tally)
    requires Between(p, k, t) && t.codes < cfg.maxIterations
    ensures var q := Step(cfg, o, p);
            match Wanted(o.router(2 * k), t)
            case None => q.point == Crashed
            case Some(r) =>
              && q.point == PointOf(r) && |q.visits| == 2 * k + 1
              && q.state.iterations == p.state.iterations && q.state.coderReport == p.state.coderReport
              && q.state.reviewPassed == p.state.reviewPassed && q.state.reviewReport == p.state.reviewReport
  {
  }

  lemma WorkOfReplies(cfg: Config, o: Oracles, p: Progress, q: Progress, k: nat, t: Tally)
    requires Between(p, k, t) && |q.visits| == 2 * k + 1
    requires q.state.iterations == p.state.iterations && q.state.coderReport == p.state.coderReport
    requires q.state.reviewPassed == p.state.reviewPassed && q.state.reviewReport == p.state.reviewReport
    requires var r := Wanted(o.router(2 * k), t); r.Some? && q.point == PointOf(r.value)
    ensures var v := Step(cfg, o, q);
            if (q.point == AtCoder && o.coder(2 * k + 1).Reported?) || (q.point == AtReviewer && o.reviewer(2 * k + 1).Reviewed?)
            then Between(v, k + 1, Counted(o, k, t))
            else v.point.Over()
  {
  }

  /** One round: it goes on to the next between-rounds state, or ends the run, exactly as the replies say. */
  lemma OneRound(cfg: Config, o: Oracles, p: Progress, k: nat)
    requires RunInv(cfg, p) && Between(p, k, TallyOf(o, k))
    ensures var v := Step(cfg, o, Step(cfg, o, p));
            if GoesOn(cfg, o, k) then Between(v, k + 1, TallyOf(o, k + 1)) else v.point.Over()
  {
    var t := TallyOf(o, k);
    if t.codes < cfg.maxIterations {
      hide Step;
      RouteOfReplies(cfg, o, p, k, t);
      var q := Step(cfg, o, p);
      if Wanted(o.router(2 * k), t).Some? {
        WorkOfReplies(cfg, o, p, q, k, t);
      } else {
        OverStays(cfg, o, q);
      }
    }
  }

  lemma OverStays(cfg: Config, o: Oracles, p: Progress)
    requires p.point.Over()
    ensures Step(cfg, o, p) == p
  {
  }

  predicate AllGoOn(cfg: Config, o: Oracles, k: nat) {
    forall i: nat :: i < k ==> GoesOn(cfg, o, i)
  }

  lemma TwoSteps(cfg: Config, o: Oracles, k: nat)
    ensures Exec(cfg, o, 2 * (k + 1)) == Step(cfg, o, Step(cfg, o, Exec(cfg, o, 2 * k)))
  {
    assert 2 * (k + 1) - 1 == 2 * k + 1;
  }

  lemma {:induction false} RoundsGoOn(cfg: Config, o: Oracles, k: nat)
    requires AllGoOn(cfg, o, k)
    ensures Between(Exec(cfg, o, 2 * k), k, TallyOf(o, k))
  {
    if k > 0 {
      hide Step, Exec, TallyOf, GoesOn;
      var j := k - 1;
      RoundsGoOn(cfg, o, j);
      RunInvExec(cfg, o, 2 * j);
      assert GoesOn(cfg, o, j);
      OneRound(cfg, o, Exec(cfg, o, 2 * j), j);
      TwoSteps(cfg, o, j);
      assert j + 1 == k;
    }
  }

  /** After 2m node executions a run is over exactly when some of the first m rounds does not go on, which
      is read off the replies alone. With m = 25 this decides which runs meet the recursion limit. */
  lemma {:induction false} RunsEndExactlyWhenRepliesStop(cfg: Config, o: Oracles, m: nat)
    ensures EndsBy(cfg, o, 2 * m) <==> !AllGoOn(cfg, o, m)
  {
    hide Step;
    if AllGoOn(cfg, o, m) {
      RoundsGoOn(cfg, o, m);
    } else {
      var k := FirstStop(cfg, o, m);
      RoundsGoOn(cfg, o, k);
      RunInvExec(cfg, o, 2 * k);
      OneRound(cfg, o, Exec(cfg, o, 2 * k), k);
      TwoSteps(cfg, o, k);
      OverForGood(cfg, o, 2 * (k + 1), 2 * m);
    }
  }

  lemma {:induction false} FirstStop(cfg: Config, o: Oracles, m: nat) returns (k: nat)
    requires !AllGoOn(cfg, o, m)
    ensures k < m && AllGoOn(cfg, o, k) && !GoesOn(cfg, o, k)
  {
    if AllGoOn(cfg, o, m - 1) { k := m - 1; } else { k := FirstStop(cfg, o, m - 1); }
  }

  /** A run ends, without help from the recursion limit, exactly when the replies of some round do not let
      it go on: the router asks to finish or gives nothing, the worker it asks for raises, or as many coder
      rounds as the cap allows have been asked for. */
  lemma {:induction false} RunsEndExactlyWhen(cfg: Config, o: Oracles)
    ensures (exists n: nat :: EndsBy(cfg, o, n)) <==> (exists k: nat :: !GoesOn(cfg, o, k))
  {
    hide Step;
    if n: nat :| EndsBy(cfg, o, n) {
      OverForGood(cfg, o, n, 2 * n);
      RunsEndExactlyWhenRepliesStop(cfg, o, n);
    }
    if k: nat :| !GoesOn(cfg, o, k) {
      assert !AllGoOn(cfg, o, k + 1);
      RunsEndExactlyWhenRepliesStop(cfg, o, k + 1);
      assert EndsBy(cfg, o, 2 * (k + 1));
    }
  }

  /** How many of the first `k` decisions ask for the coder. */
  function CodesAsked(o: Oracles, k: nat): nat {
    if k == 0 then 0
    else
      var r := o.router(2 * (k - 1));
      CodesAsked(o, k - 1) + if r.Decided? && r.decision.next == Code then 1 else 0
  }

  lemma {:induction false} DecidedCodes(o: Oracles, k: nat)
    requires forall i: nat :: o.router(i).Decided?
    ensures TallyOf(o, k).codes == CodesAsked(o, k)
  {
    if k > 0 {
      DecidedCodes(o, k - 1);
      assert o.router(2 * (k - 1)).Decided?;
    }
  }

  /** Round `k` decides to finish or its worker fails, or enough coder rounds were decided before it. */
  predicate DecidesToStop(cfg: Config, o: Oracles, k: nat)
    requires o.router(2 * k).Decided?
  {
    || CodesAsked(o, k) >= cfg.maxIterations
    || match o.router(2 * k).decision.next
       case Code => o.coder(2 * k + 1).CoderFailed?
       case Review => o.reviewer(2 * k + 1).ReviewerFailed?
       case _ => true
  }

  /** For a router that always decides: the run ends exactly when some decision is to finalize or abort,
      some worker decided on raises, or the decisions ask for the coder as often as the cap allows. */
  lemma {:induction false} DecidedRunsEndExactlyWhen(cfg: Config, o: Oracles)
    requires forall i: nat :: o.router(i).Decided?
    ensures (exists n: nat :: EndsBy(cfg, o, n)) <==> (exists k: nat :: DecidesToStop(cfg, o, k))
  {
    hide Exec;
    RunsEndExactlyWhen(cfg, o);
    forall k: nat ensures !GoesOn(cfg, o, k) <==> DecidesToStop(cfg, o, k) {
      DecidedCodes(o, k);
      assert o.router(2 * k).Decided?;
    }
    if k: nat :| !GoesOn(cfg, o, k) { assert DecidesToStop(cfg, o, k); }
    if k: nat :| DecidesToStop(cfg, o, k) { assert !GoesOn(cfg, o, k); }
  }
}
