/** The registry row of a run: how the worker mirrors the graph's state into it. */
module RunRegistry {
  import opened Prelude
  import opened Orchestration
  import opened RunTrace
  import Slugs

  // ---- the reviewer's verdict ------------------------------------------------------

  /** The mutable holder that `submit_review` writes and the reviewer node reads. */
  class VerdictHolder {
    var submitted: bool
    var approved: bool
    var summary: string
    var requiredChanges: string

    constructor ()
      ensures !submitted && !approved && summary == "" && requiredChanges == ""
    {
      submitted, approved, summary, requiredChanges := false, false, "", "";
    }

    ghost function Current(): Option<ReviewCall>
      reads this
    {
      if submitted then Some(ReviewCall(approved, summary, requiredChanges)) else None
    }

    method SubmitReview(call: ReviewCall)
      modifies this
      ensures Current() == Some(call)
    {
      submitted := true;
      approved := call.approved;
      summary := call.summary;
      requiredChanges := call.requiredChanges;
    }
  }

  /** One review: a fresh holder, the agent's calls in order, then the verdict it holds. Nothing of an
      earlier review can leak in, and of several calls the last counts. */
  method ReviewNode(calls: seq<ReviewCall>, s: TaskState) returns (after: TaskState)
    ensures after == ReviewerNode(Verdict(calls), s)
  {
    var verdict := new VerdictHolder();
    for i := 0 to |calls|
      invariant verdict.Current() == Verdict(calls[..i])
      invariant fresh(verdict)
    {
      verdict.SubmitReview(calls[i]);
    }
    assert calls[..|calls|] == calls;
    if verdict.submitted {
      after := s.(reviewPassed := Some(verdict.approved), reviewReport := Some(verdict.summary),
                  requiredChanges := Some(verdict.requiredChanges));
    } else {
      after := s.(reviewPassed := Some(false), reviewReport := Some("Reviewer did not submit a verdict."),
                  requiredChanges := Some("Re-review the changes and submit a verdict."));
    }
  }

  // ---- rows ---------------------------------------------------------------------------

  datatype Column =
    | RunId | Owner | Repo | IssueNumber | IssueTitle | Trigger
    | Branch | Status | Phase | PrUrl | ErrorText | Plan | CoderReport | ReviewReport | ReviewPassed | Iterations

  datatype RowStatus = OfRun(status: RunStatus) | RunFailed

  datatype Value = Str(s: string) | Num(n: int) | Flag(b: bool) | State(state: RowStatus) | Next(route: Route)

  /** Column values; a column that is absent is NULL. */
  type Row = map<Column, Value>

  /** The columns a worker may update. */
  predicate Updatable(c: Column) {
    c.Branch? || c.Status? || c.Phase? || c.PrUrl? || c.ErrorText? || c.Plan? || c.CoderReport? || c.ReviewReport?
    || c.ReviewPassed? || c.Iterations?
  }

  function Overlay(row: Row, fields: Row): Row {
    row + map c | c in fields && Updatable(c) :: fields[c]
  }

  datatype Job = Job(runId: string, owner: string, repo: string, issue: int, title: string, trigger: string)

  function NewRow(j: Job, branch: string): Row {
    map[RunId := Str(j.runId), Owner := Str(j.owner), Repo := Str(j.repo), IssueNumber := Num(j.issue),
        IssueTitle := Str(j.title), Branch := Str(branch), Status := State(OfRun(Running)), Iterations := Num(0),
        Trigger := Str(j.trigger)]
  }

  /** The row a run starts from: a new one, or the known one with its status and branch restarted. */
  function Created(rows: map<string, Row>, j: Job, branch: string): Row {
    if j.runId in rows then rows[j.runId][Status := State(OfRun(Running))][Branch := Str(branch)] else NewRow(j, branch)
  }

  /** The column has this value. */
  predicate Shows(row: Row, c: Column, v: Value) {
    c in row && row[c] == v
  }

  /** Both rows agree on the column, where it may be NULL in both. */
  predicate SameColumn(row: Row, base: Row, c: Column) {
    (c in row <==> c in base) && (c in row ==> row[c] == base[c])
  }

  /** What registering a run leaves in its row, column by column. */
  ghost predicate Registered(row: Row, rows: map<string, Row>, j: Job, branch: string) {
    && Shows(row, Status, State(OfRun(Running))) && Shows(row, Branch, Str(branch))
    && (j.runId in rows ==> forall c :: c != Status && c != Branch ==> SameColumn(row, rows[j.runId], c))
    && (j.runId !in rows ==>
          && Shows(row, RunId, Str(j.runId)) && Shows(row, Owner, Str(j.owner)) && Shows(row, Repo, Str(j.repo))
          && Shows(row, IssueNumber, Num(j.issue)) && Shows(row, IssueTitle, Str(j.title))
          && Shows(row, Trigger, Str(j.trigger)) && Shows(row, Iterations, Num(0))
          && forall c :: c in {Phase, PrUrl, ErrorText, Plan, CoderReport, ReviewReport, ReviewPassed} ==> c !in row)
  }

  lemma CreatedIsRegistered(rows: map<string, Row>, j: Job, branch: string)
    ensures Registered(Created(rows, j, branch), rows, j, branch)
  {
  }

  class RunStore {
    var rows: map<string, Row>

    constructor ()
      ensures rows == map[]
    {
      rows := map[];
    }

    /** Insert, or on a known run id just restart its status and branch. */
    method Create(j: Job, branch: string)
      modifies this
      ensures rows == old(rows)[j.runId := Created(old(rows), j, branch)]
      ensures Registered(rows[j.runId], old(rows), j, branch)
      ensures forall r :: r != j.runId ==> (r in rows <==> r in old(rows)) && (r in rows ==> rows[r] == old(rows)[r])
    {
      hide Registered;
      CreatedIsRegistered(rows, j, branch);
      if j.runId in rows {
        rows := rows[j.runId := rows[j.runId][Status := State(OfRun(Running))][Branch := Str(branch)]];
      } else {
        rows := rows[j.runId := NewRow(j, branch)];
      }
    }

    /** A partial update: columns outside the updatable ones are dropped, an unknown run is left alone. */
    method Update(runId: string, fields: Row)
      modifies this
      ensures rows == if runId in old(rows) then old(rows)[runId := Overlay(old(rows)[runId], fields)] else old(rows)
      ensures runId in old(rows) ==> runId in rows && Updated(rows[runId], old(rows)[runId], fields)
    {
      hide Updated;
      var cols := map c | c in fields && Updatable(c) :: fields[c];
      if runId in rows {
        OverlayUpdates(rows[runId], fields);
        rows := rows[runId := rows[runId] + cols];
      }
    }
  }

  lemma OverlayUpdates(row: Row, fields: Row)
    ensures Updated(Overlay(row, fields), row, fields)
  {
  }

  /** What an update leaves in a row: the identity of the run stays, given columns change, others do not. */
  ghost predicate Updated(row: Row, before: Row, fields: Row) {
    forall c ::
      if c in fields && c !in {RunId, Owner, Repo, IssueNumber, IssueTitle, Trigger} then Shows(row, c, fields[c])
      else SameColumn(row, before, c)
  }

  // ---- the mirror -----------------------------------------------------------------------

  const MAX_FIELD := 8000
  const TRUNCATED := "\n\U{2026} (truncated)"

  function Trunc(s: string): string {
    if |s| > MAX_FIELD then s[..MAX_FIELD] + TRUNCATED else s
  }

  function Text(s: Option<string>): Option<Value> {
    match s
    case Some(t) => Some(Str(Trunc(t)))
    case None => None
  }

  /** What a graph state has to say about a column. */
  function Candidate(s: TaskState, c: Column): Option<Value> {
    match c
    case Status => Some(State(OfRun(s.status)))
    case Phase => (match s.decision case Some(d) => Some(Next(d)) case None => None)
    case Iterations => Some(Num(s.iterations))
    case Plan => Text(s.plan)
    case CoderReport => Text(s.coderReport)
    case ReviewReport => Text(s.reviewReport)
    case ReviewPassed => (match s.reviewPassed case Some(b) => Some(Flag(b)) case None => None)
    case PrUrl => (match s.prUrl case Some(u) => Some(Str(u)) case None => None)
    case ErrorText => Text(s.error)
    case _ => None
  }

  const MIRRORED: set<Column> := {Status, Phase, Iterations, Plan, CoderReport, ReviewReport, ReviewPassed, PrUrl, ErrorText}

  /** The columns that one graph state writes: those it has a value for. */
  function Mirror(s: TaskState): Row {
    map c | c in MIRRORED && Candidate(s, c).Some? :: Candidate(s, c).value
  }

  /** The value stands for the text: the text itself if it fits, otherwise its first 8000 characters and
      a mark; so it is never much longer than that. */
  predicate StandsFor(v: Value, text: string) {
    && v.Str? && |v.s| <= MAX_FIELD + |TRUNCATED|
    && (|text| <= MAX_FIELD ==> v.s == text)
    && (|text| > MAX_FIELD ==> v.s == text[..MAX_FIELD] + TRUNCATED)
  }

  /** The column shows the text, or is as in the starting row when there is none. */
  predicate ShowsText(row: Row, base: Row, c: Column, text: Option<string>) {
    match text
    case Some(t) => c in row && StandsFor(row[c], t)
    case None => SameColumn(row, base, c)
  }

  /** What a column of the row says about the state; a state with nothing to say leaves it as it was. */
  predicate ColumnShows(row: Row, base: Row, s: TaskState, c: Column) {
    match c
    case Status => Shows(row, Status, State(OfRun(s.status)))
    case Iterations => Shows(row, Iterations, Num(s.iterations))
    case Phase => if s.decision.Some? then Shows(row, Phase, Next(s.decision.value)) else SameColumn(row, base, Phase)
    case ReviewPassed =>
      if s.reviewPassed.Some? then Shows(row, ReviewPassed, Flag(s.reviewPassed.value)) else SameColumn(row, base, ReviewPassed)
    case PrUrl => if s.prUrl.Some? then Shows(row, PrUrl, Str(s.prUrl.value)) else SameColumn(row, base, PrUrl)
    case Plan => ShowsText(row, base, Plan, s.plan)
    case CoderReport => ShowsText(row, base, CoderReport, s.coderReport)
    case ReviewReport => ShowsText(row, base, ReviewReport, s.reviewReport)
    case ErrorText => ShowsText(row, base, ErrorText, s.error)
    case _ => SameColumn(row, base, c)
  }

  lemma MirroredColumn(row: Row, s: TaskState, c: Column)
    ensures ColumnShows(Overlay(row, Mirror(s)), row, s, c)
  {
    assert c in MIRRORED && Candidate(s, c).Some? ==> c in Mirror(s);
    assert c !in MIRRORED || Candidate(s, c).None? ==> c !in Mirror(s);
  }

  /** At every point of a run each column of the row shows the latest state, texts capped, and the run's
      identity and branch are as at the start. */
  lemma {:induction false} RegistryShowsState(cfg: Config, o: Oracles, row: Row, n: nat, c: Column)
    ensures ColumnShows(Streamed(cfg, o, row, n), row, Exec(cfg, o, n).state, c)
  {
    MirrorIsLastState(cfg, o, row, n);
    MirroredColumn(row, Exec(cfg, o, n).state, c);
  }

  /** A node execution removes no key from the state. */
  lemma KeysStay(cfg: Config, o: Oracles, p: Progress)
    ensures Mirror(p.state).Keys <= Mirror(Step(cfg, o, p).state).Keys
  {
    forall c | Candidate(p.state, c).Some? ensures Candidate(Step(cfg, o, p).state, c).Some? {
    }
  }

  lemma OverlayTwice(row: Row, first: Row, second: Row)
    requires first.Keys <= second.Keys
    ensures Overlay(Overlay(row, first), second) == Overlay(row, second)
  {
  }

  /** The row after mirroring every state up to the `n`-th, one after the other. */
  function Streamed(cfg: Config, o: Oracles, row: Row, n: nat): Row {
    if n == 0 then Overlay(row, Mirror(Begin().state))
    else Overlay(Streamed(cfg, o, row, n - 1), Mirror(Exec(cfg, o, n).state))
  }

  lemma StreamedStep(row: Row, soFar: Row, cfg: Config, o: Oracles, p: Progress)
    requires soFar == Overlay(row, Mirror(p.state))
    ensures Overlay(soFar, Mirror(Step(cfg, o, p).state)) == Overlay(row, Mirror(Step(cfg, o, p).state))
  {
    KeysStay(cfg, o, p);
    OverlayTwice(row, Mirror(p.state), Mirror(Step(cfg, o, p).state));
  }

  /** Refinement: mirroring all the states of a run comes to the same as mirroring the last one alone. */
  lemma {:induction false} MirrorIsLastState(cfg: Config, o: Oracles, row: Row, n: nat)
    ensures Streamed(cfg, o, row, n) == Overlay(row, Mirror(Exec(cfg, o, n).state))
  {
    if n > 0 {
      MirrorIsLastState(cfg, o, row, n - 1);
      StreamedStep(row, Streamed(cfg, o, row, n - 1), cfg, o, Exec(cfg, o, n - 1));
    }
  }

  // ---- the worker -----------------------------------------------------------------------

  /** `str(exc)[:8000]`. */
  function Cut(s: string): string {
    if |s| > MAX_FIELD then s[..MAX_FIELD] else s
  }

  function FailedFields(message: string): Row {
    map[Status := State(RunFailed), ErrorText := Str(Cut(message))]
  }

  /** One node execution; the state it emits, if it emits one, is mirrored. */
  method Advance(store: RunStore, runId: string, cfg: Config, o: Oracles, p: Progress,
      ghost base: map<string, Row>, ghost row: Row, ghost n: nat)
    returns (q: Progress)
    requires p == Exec(cfg, o, n) && store.rows == base[runId := Overlay(row, Mirror(p.state))]
    modifies store
    ensures q == Exec(cfg, o, n + 1) && store.rows == base[runId := Overlay(row, Mirror(q.state))]
  {
    hide Step, Mirror, Overlay;
    StreamedStep(row, store.rows[runId], cfg, o, p);
    CrashKeepsState(cfg, o, p);
    q := Step(cfg, o, p);
    if !q.point.Crashed? {
      store.Update(runId, Mirror(q.state));
    }
  }

  /** The streaming loop, up to the recursion limit. */
  method Stream(store: RunStore, runId: string, cfg: Config, o: Oracles, limit: nat,
      ghost base: map<string, Row>, ghost row: Row)
    returns (p: Progress, n: nat)
    requires store.rows == base[runId := row]
    modifies store
    ensures n <= limit && p == Exec(cfg, o, n) && (p.point.Over() || n == limit)
    ensures store.rows == base[runId := Overlay(row, Mirror(p.state))]
  {
    p, n := Begin(), 0;
    UpdateOn(store, runId, Mirror(p.state), base, row);
    while n < limit && !p.point.Over()
      invariant n <= limit && p == Exec(cfg, o, n)
      invariant store.rows == base[runId := Overlay(row, Mirror(p.state))]
    {
      p := Advance(store, runId, cfg, o, p, base, row, n);
      n := n + 1;
    }
  }

  /** What the row of a run must be when the worker is through with it. */
  function FinalRow(row: Row, p: Progress, message: string): Row {
    if p.point == Ended then Overlay(row, Mirror(p.state))
    else Overlay(Overlay(row, Mirror(p.state)), FailedFields(message))
  }

  const RECURSION_LIMIT: nat := 50

  /** The branch of a run. */
  function BranchOf(lower: string -> string, j: Job): string {
    "ai-task/issue-" + TaskKeys.IntText(j.issue) + "-" + Slugs.Slug(lower, j.title, 40)
  }

  /** `_process_job`: register the run, prepare the workspace (which may fail), then execute nodes up to
      the recursion limit, mirroring every state that the graph emits, and close the row. Any exception
      marks the run failed. The row that remains is the starting row overlaid with the last state alone. */
  method ProcessJob(store: RunStore, j: Job, lower: string -> string, cfg: Config, o: Oracles, prepared: bool, message: string)
    modifies store
    ensures forall r :: r != j.runId ==> (r in store.rows <==> r in old(store.rows))
                                         && (r in store.rows ==> store.rows[r] == old(store.rows)[r])
    ensures j.runId in store.rows
    ensures exists start: Row ::
              Registered(start, old(store.rows), j, "ai-task/issue-" + TaskKeys.IntText(j.issue) + "-" + Slugs.Slug(lower, j.title, 40))
              && if prepared then RowClosed(store.rows[j.runId], start, o, Exec(cfg, o, 50), message)
                 else RowFailed(store.rows[j.runId], start, message)
  {
    hide Registered, RowClosed, RowFailed, Mirror, Overlay;
    ghost var base := store.rows;
    store.Create(j, BranchOf(lower, j));
    ghost var row := store.rows[j.runId];
    if !prepared {
      UpdateOn(store, j.runId, FailedFields(message), base, row);
      UnpreparedRow(row, message);
      return;
    }
    var p, n := Stream(store, j.runId, cfg, o, RECURSION_LIMIT, base, row);
    if p.point != Ended {
      UpdateOn(store, j.runId, FailedFields(message), base, Overlay(row, Mirror(p.state)));
    } else {
      FinalStatus(row, p.state);
      UpdateOn(store, j.runId, map[Status := State(OfRun(p.state.status))], base, Overlay(row, Mirror(p.state)));
    }
    if p.point.Over() { OverForGood(cfg, o, n, RECURSION_LIMIT); }
    TerminalStatus(cfg, o, RECURSION_LIMIT, row, message);
  }

  /** Updating one run's row, the others being those of `base`. */
  method UpdateOn(store: RunStore, runId: string, fields: Row, ghost base: map<string, Row>, ghost row: Row)
    requires store.rows == base[runId := row]
    modifies store
    ensures store.rows == base[runId := Overlay(row, fields)]
  {
    store.Update(runId, fields);
  }

  lemma CrashKeepsState(cfg: Config, o: Oracles, p: Progress)
    ensures Step(cfg, o, p).point.Crashed? ==> Step(cfg, o, p).state == p.state
  {
  }

  /** Writing the final status again changes nothing. */
  lemma FinalStatus(row: Row, s: TaskState)
    ensures Overlay(Overlay(row, Mirror(s)), map[Status := State(OfRun(s.status))]) == Overlay(row, Mirror(s))
  {
  }

  /** The row of a run that failed before its first state: the starting row, marked. */
  ghost predicate RowFailed(final: Row, start: Row, message: string) {
    && Shows(final, Status, State(RunFailed))
    && Shows(final, ErrorText, Str(if |message| <= 8000 then message else message[..8000]))
    && forall c :: c != Status && c != ErrorText ==> SameColumn(final, start, c)
  }

  lemma UnpreparedRow(row: Row, message: string)
    ensures RowFailed(Overlay(row, FailedFields(message)), row, message)
  {
  }

  /** A closed row. A run that ended by itself is aborted, with the reason recorded, exactly when its last
      routing was to abort; otherwise that was to finalize, and it needs a human exactly when there were no
      commits, and is completed, with the pull request, exactly when one was opened. Any other run failed.
      All other columns show the last state. */
  ghost predicate RowClosed(final: Row, start: Row, o: Oracles, p: Progress, message: string) {
    && Status in final
    && (p.point != Ended ==>
          && Shows(final, Status, State(RunFailed))
          && Shows(final, ErrorText, Str(if |message| <= 8000 then message else message[..8000])))
    && (p.point == Ended ==>
          && LastRouting(p.visits).Some?
          && var d := LastRouting(p.visits).value;
          && (final[Status] == State(OfRun(Aborted)) <==> d.next == Abort)
          && (final[Status] == State(OfRun(NeedsHuman)) <==> d.next == Finalize && o.finalize.NoCommits?)
          && (final[Status] == State(OfRun(Completed)) <==> d.next == Finalize && o.finalize.PrOpened?)
          && (final[Status] == State(OfRun(Completed)) <==> |p.prs| == 1)
          && (d.next == Abort ==> ErrorText in final && StandsFor(final[ErrorText], d.reason))
          && (d.next == Finalize && o.finalize.NoCommits? ==> Shows(final, ErrorText, Str("no changes produced")))
          && (d.next == Finalize && o.finalize.PrOpened? ==> Shows(final, PrUrl, Str(o.finalize.url)))
          && (d.next == Abort || (d.next == Finalize && !o.finalize.FinalizeFailed?)))
    && forall c :: p.point == Ended || (c != Status && c != ErrorText) ==> ColumnShows(final, start, p.state, c)
  }

  /** Whatever happens in a run and wherever it is cut off, its row is closed, never left at running. */
  lemma {:induction false} TerminalStatus(cfg: Config, o: Oracles, n: nat, row: Row, message: string)
    ensures RowClosed(FinalRow(row, Exec(cfg, o, n), message), row, o, Exec(cfg, o, n), message)
  {
    hide Exec;
    RunIsItsTrace(cfg, o, n);
    TerminalRow(cfg, o, Exec(cfg, o, n), row, message);
  }

  lemma TerminalRow(cfg: Config, o: Oracles, p: Progress, row: Row, message: string)
    requires TraceInv(cfg, o, p)
    ensures RowClosed(FinalRow(row, p, message), row, o, p, message)
  {
    hide Mirror, Overlay, VisitsOk, WorkShown, RoutingShown;
    var shown := Overlay(row, Mirror(p.state));
    forall c ensures ColumnShows(shown, row, p.state, c) { MirroredColumn(row, p.state, c); }
    if p.point == Ended {
      EndedColumns(cfg, o, p, row, shown);
    } else {
      FailedColumns(shown, row, p.state, message);
    }
  }

  lemma EndedColumns(cfg: Config, o: Oracles, p: Progress, row: Row, shown: Row)
    requires EndShown(cfg, o, p) && p.point == Ended
    requires forall c :: ColumnShows(shown, row, p.state, c)
    ensures RowClosed(shown, row, o, p, "")
  {
    assert ColumnShows(shown, row, p.state, Status) && ColumnShows(shown, row, p.state, ErrorText)
           && ColumnShows(shown, row, p.state, PrUrl);
  }

  lemma FailedColumns(shown: Row, row: Row, s: TaskState, message: string)
    requires forall c :: ColumnShows(shown, row, s, c)
    ensures var final := Overlay(shown, FailedFields(message));
            && Shows(final, Status, State(RunFailed))
            && Shows(final, ErrorText, Str(if |message| <= 8000 then message else message[..8000]))
            && forall c :: c != Status && c != ErrorText ==> ColumnShows(final, row, s, c)
  {
    var final := Overlay(shown, FailedFields(message));
    forall c | c != Status && c != ErrorText ensures ColumnShows(final, row, s, c) {
      assert SameColumn(final, shown, c) && ColumnShows(shown, row, s, c);
    }
  }
}
