/** Rows read off the history of what was written to them, column by column. */
module BoardRows {
  import opened Prelude
  import opened TaskKeys
  import opened BoardModel

  /** What a statement writes to a row. */
  datatype Write =
    | Inserted(id: nat, project: int, goal: string, spec: TaskSpec)
    | Took(account: int, at: int)
    | Returned
    | Set(status: Status)
    | Delivered(branch: string, prUrl: string)

  /** A claim in progress whose time is more than the TTL ago. */
  predicate Overdue(row: Task, now: int, ttl: int) {
    row.status == InProgress && row.claimedAt.Some? && now - row.claimedAt.value > ttl
  }

  /** The action is the insert of this very row. */
  predicate Inserts(w: World, a: Action, key: string) {
    && a.CreateInsert? && a.cid in w.calls && w.calls[a.cid].Numbered?
    && w.calls[a.cid].project in w.db.projects && key !in w.db.tasks
    && key == w.db.projects[w.calls[a.cid].project].key + "-" + Decimal(w.calls[a.cid].number)
  }

  predicate Claims(w: World, a: Action, key: string) {
    && a.ClaimUpdate? && a.cid in w.calls && w.calls[a.cid].ClaimChecked? && w.calls[a.cid].key == key
    && key in w.db.tasks && w.db.tasks[key].status == Backlog
  }

  /** The sweep runs, listing every overdue task once. */
  predicate Sweeps(w: World, a: Action) {
    && a.SweepUpdate? && a.cid !in w.calls && a.ttl >= 0
    && (set k | k in a.order) == (set k | k in w.db.tasks && Overdue(w.db.tasks[k], w.db.now, a.ttl))
    && |a.order| == |set k | k in w.db.tasks && Overdue(w.db.tasks[k], w.db.now, a.ttl)|
  }

  /** The branch and pull request that a submit writes to the task. */
  function Delivery(w: World, a: Action, key: string): Option<Write> {
    if key !in w.db.tasks then None
    else if a.SubmitTask? && Upper(a.key) == key then Some(Delivered(a.branch, a.prUrl))
    else if a.SubmitWrite? && a.cid in w.calls && w.calls[a.cid].SubmitChecked? && w.calls[a.cid].key == key
    then Some(Delivered(a.branch, a.prUrl))
    else None
  }

  function WriteOf(w: World, a: Action, key: string): Option<Write> {
    if Inserts(w, a, key) then
      var c := w.calls[a.cid];
      Some(Inserted(w.db.nextId, c.project, c.goal, c.spec))
    else if Claims(w, a, key) then Some(Took(w.calls[a.cid].account, w.db.now))
    else if Sweeps(w, a) && key in w.db.tasks && Overdue(w.db.tasks[key], w.db.now, a.ttl) then Some(Returned)
    else if a.SetStatus? && Upper(a.key) == key && key in w.db.tasks then Some(Set(a.status))
    else Delivery(w, a, key)
  }

  /** All that was written to the row over a schedule. */
  function Writes(start: World, schedule: seq<Action>, key: string): seq<Write> {
    if schedule == [] then []
    else
      var before := schedule[..|schedule| - 1];
      match WriteOf(Run(start, before), schedule[|before|], key)
      case Some(x) => Writes(start, before, key) + [x]
      case None => Writes(start, before, key)
  }

  // ---- columns ---------------------------------------------------------------------------

  /** The status is that of the last write. */
  function StatusOf(h: seq<Write>): Status
    requires h != []
  {
    match h[|h| - 1]
    case Inserted(_, _, _, _) => Backlog
    case Took(_, _) => InProgress
    case Returned => Backlog
    case Set(s) => s
    case Delivered(_, _) => InReview
  }

  /** The assignee is the last claimer, unless the task went back to the backlog since. */
  function AssigneeOf(h: seq<Write>): Option<int> {
    if h == [] then None
    else
      match h[|h| - 1]
      case Inserted(_, _, _, _) => None
      case Took(account, _) => Some(account)
      case Returned => None
      case Set(s) => if s == Backlog then None else AssigneeOf(h[..|h| - 1])
      case Delivered(_, _) => AssigneeOf(h[..|h| - 1])
  }

  /** The claim time is that of the last claim, unless a sweep returned the task since; other releases
      leave it behind. */
  function ClaimTimeOf(h: seq<Write>): Option<int> {
    if h == [] then None
    else
      match h[|h| - 1]
      case Inserted(_, _, _, _) => None
      case Took(_, at) => Some(at)
      case Returned => None
      case Set(_) => ClaimTimeOf(h[..|h| - 1])
      case Delivered(_, _) => ClaimTimeOf(h[..|h| - 1])
  }

  /** Branch and pull request are those of the last submit; nothing else ever touches them. */
  function LastDelivery(h: seq<Write>): Option<Write> {
    if h == [] then None
    else if h[|h| - 1].Delivered? then Some(h[|h| - 1])
    else LastDelivery(h[..|h| - 1])
  }

  ghost predicate RowShows(row: Task, h: seq<Write>) {
    && h != [] && h[0].Inserted?
    && row.id == h[0].id && row.project == h[0].project && row.goal == h[0].goal && row.spec == h[0].spec
    && row.status == StatusOf(h) && row.assignee == AssigneeOf(h) && row.claimedAt == ClaimTimeOf(h)
    && match LastDelivery(h)
       case Some(Delivered(branch, prUrl)) => row.branch == Some(branch) && row.prUrl == Some(prUrl)
       case _ => row.branch == None && row.prUrl == None
  }

  // ---- one statement -----------------------------------------------------------------------

  /** Everything but the columns of a lease is the same. */
  predicate SameButLease(before: Task, row: Task) {
    && row.id == before.id && row.project == before.project && row.goal == before.goal && row.spec == before.spec
    && row.branch == before.branch && row.prUrl == before.prUrl
  }

  /** What a sweep leaves of the table: each overdue claim is back in the backlog with only its lease
      cleared, and every other row is as it was. */
  ghost predicate SweptRows(before: map<string, Task>, after: map<string, Task>, ttl: int, at: int) {
    && after.Keys == before.Keys
    && forall k :: k in before ==>
         if before[k].status == InProgress && before[k].claimedAt.Some? && before[k].claimedAt.value < at - ttl then
           && after[k].status == Backlog && after[k].assignee == None && after[k].claimedAt == None
           && SameButLease(before[k], after[k])
         else after[k] == before[k]
  }

  lemma OverdueIsStale(w: World, ttl: int)
    ensures Stale(w.db, ttl) == set k | k in w.db.tasks && Overdue(w.db.tasks[k], w.db.now, ttl)
  {
  }

  lemma SweepWrites(w: World, a: Action)
    requires Sweeps(w, a)
    ensures SweptRows(w.db.tasks, Next(w, a).db.tasks, a.ttl, w.db.now)
  {
    OverdueIsStale(w, a.ttl);
  }

  lemma SweepIdle(w: World, a: Action)
    requires a.SweepUpdate? && !Sweeps(w, a)
    ensures Next(w, a).db.tasks == w.db.tasks
  {
    OverdueIsStale(w, a.ttl);
  }

  /** What one write makes of a row. */
  ghost predicate Wrote(w: World, v: World, key: string, x: Write) {
    && key in v.db.tasks
    && var row := v.db.tasks[key];
    if x.Inserted? then row == Task(x.id, x.project, x.goal, x.spec, Backlog, None, None, None, None)
    else
      && key in w.db.tasks
      && var before := w.db.tasks[key];
      match x
      case Inserted(_, _, _, _) => true
      case Took(account, at) =>
        && row.status == InProgress && row.assignee == Some(account) && row.claimedAt == Some(at)
        && SameButLease(before, row)
      case Returned =>
        row.status == Backlog && row.assignee == None && row.claimedAt == None && SameButLease(before, row)
      case Set(s) =>
        && row.status == s && row.assignee == (if s == Backlog then None else before.assignee)
        && row.claimedAt == before.claimedAt && SameButLease(before, row)
      case Delivered(branch, prUrl) =>
        && row.status == InReview && row.branch == Some(branch) && row.prUrl == Some(prUrl)
        && row.assignee == before.assignee && row.claimedAt == before.claimedAt
        && row.id == before.id && row.project == before.project && row.goal == before.goal && row.spec == before.spec
  }

  ghost predicate Untouched(w: World, v: World, key: string) {
    (key in v.db.tasks <==> key in w.db.tasks) && (key in w.db.tasks ==> v.db.tasks[key] == w.db.tasks[key])
  }

  /** The statement writes to the row just what it is said to write, or nothing. */
  ghost predicate Explained(w: World, a: Action, key: string) {
    match WriteOf(w, a, key)
    case Some(x) => Wrote(w, Next(w, a), key, x)
    case None => Untouched(w, Next(w, a), key)
  }

  lemma InsertExplained(w: World, a: Action, key: string)
    requires a.CreateInsert?
    ensures Explained(w, a, key)
  {
  }

  lemma ClaimExplained(w: World, a: Action, key: string)
    requires a.ClaimUpdate?
    ensures Explained(w, a, key)
  {
  }

  lemma SweepExplained(w: World, a: Action, key: string)
    requires a.SweepUpdate?
    ensures Explained(w, a, key)
  {
    hide Next;
    if Sweeps(w, a) { SweepWrites(w, a); } else { SweepIdle(w, a); }
  }

  lemma RewriteExplained(w: World, a: Action, key: string)
    requires a.SubmitWrite? || a.SubmitTask? || a.SetStatus?
    ensures Explained(w, a, key)
  {
  }

  /** Every statement does to every row exactly what its write says, and only a write touches a row. */
  lemma StatementExplained(w: World, a: Action, key: string)
    ensures Explained(w, a, key)
  {
    hide Next;
    if a.CreateInsert? { InsertExplained(w, a, key); }
    else if a.ClaimUpdate? { ClaimExplained(w, a, key); }
    else if a.SweepUpdate? { SweepExplained(w, a, key); }
    else if a.SubmitWrite? || a.SubmitTask? || a.SetStatus? { RewriteExplained(w, a, key); }
    else { OthersKeepTasks(w, a); }
  }

  // ---- the rest of the board ---------------------------------------------------------------------

  /** The note that a statement adds, if it adds one. */
  function NoteOf(w: World, a: Action): Option<Note> {
    if a.ClaimNote? && a.cid in w.calls && w.calls[a.cid].ClaimNoting? && w.calls[a.cid].written <= |w.calls[a.cid].found| then
      var c := w.calls[a.cid];
      if c.written == 0 then Some(Note(c.key, Some(c.account), FileOverlap(c.found)))
      else Some(Note(c.found[c.written - 1], Some(c.account), ClaimedOver(c.key)))
    else if a.SweepNote? && a.cid in w.calls && w.calls[a.cid].Sweeping? && w.calls[a.cid].written < |w.calls[a.cid].released| then
      var c := w.calls[a.cid];
      Some(Note(c.released[c.written], None, AutoReleased(c.ttl)))
    else if a.AddNote? && Upper(a.key) in w.db.tasks then Some(Note(Upper(a.key), a.author, a.body))
    else None
  }

  lemma NotesExplained(w: World, a: Action)
    ensures Next(w, a).db.notes == match NoteOf(w, a) case Some(n) => w.db.notes + [n] case None => w.db.notes
  {
  }

  /** Outside the tasks and notes: time passes by ticks alone, a project is added under its own new key
      in capitals, a creation in its second step raises its project's counter by one, and a goal is
      added under its own new key in capitals; nothing else changes. */
  lemma RestExplained(w: World, a: Action)
    ensures Next(w, a).db.now == w.db.now + if a.Tick? then a.elapsed else 0
    ensures Next(w, a).db.projects ==
            if a.AddProject? && a.pid !in w.db.projects && (forall p :: p in w.db.projects ==> w.db.projects[p].key != Upper(a.key))
            then w.db.projects[a.pid := Project(Upper(a.key), 0)]
            else if a.CreateBumpSeq? && a.cid in w.calls && w.calls[a.cid].Creating? && w.calls[a.cid].project in w.db.projects
            then var p := w.calls[a.cid].project;
                 w.db.projects[p := Project(w.db.projects[p].key, w.db.projects[p].taskSeq + 1)]
            else w.db.projects
    ensures Next(w, a).db.goals ==
            if a.AddGoal? && Upper(a.goal) !in w.db.goals && a.pid in w.db.projects then w.db.goals[Upper(a.goal) := a.pid]
            else w.db.goals
  {
  }

  // ---- runs ------------------------------------------------------------------------------------

  lemma ColumnsSnoc(h: seq<Write>, x: Write)
    ensures var g := h + [x];
            && ((x.Set? && x.status != Backlog) || x.Delivered? ==> AssigneeOf(g) == AssigneeOf(h))
            && (x.Set? || x.Delivered? ==> ClaimTimeOf(g) == ClaimTimeOf(h))
            && LastDelivery(g) == if x.Delivered? then Some(x) else LastDelivery(h)
  {
    assert (h + [x])[..|h|] == h;
  }

  lemma RowNext(w: World, a: Action, key: string, h: seq<Write>)
    requires (key in w.db.tasks <==> h != []) && (key in w.db.tasks ==> RowShows(w.db.tasks[key], h))
    ensures var g := match WriteOf(w, a, key) case Some(x) => h + [x] case None => h;
            var v := Next(w, a);
            (key in v.db.tasks <==> g != []) && (key in v.db.tasks ==> RowShows(v.db.tasks[key], g))
  {
    hide Next;
    StatementExplained(w, a, key);
    match WriteOf(w, a, key)
    case Some(x) =>
      ColumnsSnoc(h, x);
      if h == [] { assert h + [x] == [x]; NothingDelivered(x); }
    case None =>
  }

  lemma NothingDelivered(x: Write)
    requires !x.Delivered?
    ensures LastDelivery([x]) == None
  {
    assert [x][..0] == [];
  }

  /** Over every schedule a task exists exactly if it was inserted, and each of its columns is what the
      writes to it say: identity and spec by the insert, the status by the last write, the assignee by the
      claims and returns, the claim time by the claims and sweeps, branch and pull request by the submits. */
  lemma {:induction false} RowIsItsHistory(now: int, schedule: seq<Action>, key: string)
    ensures var w := Run(Start(now), schedule);
            var h := Writes(Start(now), schedule, key);
            (key in w.db.tasks <==> h != []) && (key in w.db.tasks ==> RowShows(w.db.tasks[key], h))
    decreases |schedule|
  {
    if schedule != [] {
      hide Next;
      var before := schedule[..|schedule| - 1];
      RowIsItsHistory(now, before, key);
      RowNext(Run(Start(now), before), schedule[|before|], key, Writes(Start(now), before, key));
    }
  }
}
