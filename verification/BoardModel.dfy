/** The coordination board as a machine whose steps are single SQL statements.

    The connection pool commits every statement on its own, so a board method of several
    statements is a small program: `Call` is its program counter together with its local
    variables, and statements of different calls interleave freely. */
module BoardModel {
  import opened Prelude
  import opened TaskKeys

  datatype Status = Backlog | Claimed | InProgress | InReview | Blocked | Done {
    predicate Active() { Claimed? || InProgress? || InReview? }
  }

  datatype Project = Project(key: string, taskSeq: nat)

  datatype TaskSpec = TaskSpec(priority: int, files: seq<string>, blockedBy: seq<string>)

  datatype Task = Task(
    id: nat, project: int, goal: string, spec: TaskSpec,
    status: Status, assignee: Option<int>, claimedAt: Option<int>,
    branch: Option<string>, prUrl: Option<string>)

  /** The kind and text of a note: the three that the board writes itself, and any other. */
  datatype NoteBody =
    | FileOverlap(names: seq<string>)   // on the claimed task, naming the active tasks
    | ClaimedOver(key: string)          // on each of those, naming the claimed task
    | AutoReleased(ttl: int)
    | Text(text: string)

  datatype Note = Note(task: string, author: Option<int>, body: NoteBody)

  /** Goals map to their project; tasks are keyed by their unique key. */
  datatype Db = Db(
    projects: map<int, Project>, goals: map<string, int>, tasks: map<string, Task>,
    nextId: nat, notes: seq<Note>, now: int)

  datatype Error =
    | UnknownGoal | UnknownTask | BlockedBy(open: set<string>) | NotAvailable | DuplicateKey | OtherAssignee
    | NoProject | PatchFailed | StatementFailed

  datatype Call =
    | Creating(goal: string, project: int, spec: TaskSpec)
    | Numbered(goal: string, project: int, number: nat, spec: TaskSpec)
    | Created(key: string)
    | ClaimSelected(key: string, account: int, blockedBy: seq<string>)
    | ClaimChecked(key: string, account: int, blockedBy: seq<string>)
    | ClaimTaken(key: string, account: int, row: Task)
    | ClaimNoting(key: string, account: int, found: seq<string>, written: nat)
    | ClaimReturned(key: string, account: int, found: seq<string>)
    | Sweeping(ttl: int, released: seq<string>, written: nat)
    | Swept(ttl: int, released: seq<string>)
    | SubmitChecked(key: string, account: int, since: nat)
    | Submitted(key: string)
    | Failed(error: Error)

  /** History: successful claims, returns to backlog, and sweeps, in order. */
  datatype Event =
    | Claim(key: string, account: int, at: int)
    | Release(key: string)
    | Sweep(keys: set<string>, ttl: int, at: int)

  datatype World = World(db: Db, calls: map<nat, Call>, log: seq<Event>)

  datatype Action =
    | Tick(elapsed: nat)
    | AddProject(pid: int, key: string)
    | AddGoal(goal: string, pid: int)
    | CreateSelectGoal(cid: nat, goal: string, spec: TaskSpec)
    | CreateBumpSeq(cid: nat)
    | CreateInsert(cid: nat)
    | ClaimSelect(cid: nat, key: string, account: int)
    | ClaimCheck(cid: nat)
    | ClaimUpdate(cid: nat)
    | ClaimOverlaps(cid: nat, order: seq<string>)
    | ClaimNote(cid: nat)
    | SweepUpdate(cid: nat, ttl: int, order: seq<string>)
    | SweepNote(cid: nat)
    | SubmitSelect(cid: nat, key: string, account: int)
    | SubmitWrite(cid: nat, branch: string, prUrl: string)
    | SubmitTask(key: string, branch: string, prUrl: string)
    | SetStatus(key: string, status: Status)
    | AddNote(key: string, author: Option<int>, body: NoteBody)

  // ---- queries ----------------------------------------------------------------

  predicate Shares(a: seq<string>, b: seq<string>) {
    exists f :: f in a && f in b
  }

  function Overlaps(db: Db, row: Task): set<string> {
    set k | k in db.tasks && db.tasks[k].id != row.id && db.tasks[k].status.Active()
            && Shares(db.tasks[k].spec.files, row.spec.files)
  }

  function OpenBlockers(db: Db, blockedBy: seq<string>): set<string> {
    set k | k in db.tasks && k in blockedBy && db.tasks[k].status != Done
  }

  predicate IsStale(row: Task, now: int, ttl: int) {
    row.status == InProgress && row.claimedAt.Some? && row.claimedAt.value < now - ttl
  }

  function Stale(db: Db, ttl: int): set<string> {
    set k | k in db.tasks && IsStale(db.tasks[k], db.now, ttl)
  }

  predicate ProjectKeyTaken(db: Db, key: string) {
    exists p :: p in db.projects && db.projects[p].key == key
  }

  // ---- statements -------------------------------------------------------------

  function Put(w: World, key: string, row: Task): World {
    w.(db := w.db.(tasks := w.db.tasks[key := row]))
  }

  function Goto(w: World, cid: nat, call: Call): World {
    w.(calls := w.calls[cid := call])
  }

  function Write(w: World, note: Note): World {
    w.(db := w.db.(notes := w.db.notes + [note]))
  }

  /** Blocker keys are stored upper-cased, like the keys they name. */
  function Stored(spec: TaskSpec): TaskSpec {
    spec.(blockedBy := seq(|spec.blockedBy|, i requires 0 <= i < |spec.blockedBy| => Upper(spec.blockedBy[i])))
  }

  function NewRow(id: nat, c: Call): Task
    requires c.Numbered?
  {
    Task(id, c.project, c.goal, c.spec, Backlog, None, None, None, None)
  }

  function Insert(w: World, cid: nat, c: Call): World
    requires c.Numbered? && c.project in w.db.projects
  {
    var key := TaskKey(w.db.projects[c.project].key, c.number);
    if key in w.db.tasks then Goto(w, cid, Failed(DuplicateKey))
    else
      Goto(w.(db := w.db.(tasks := w.db.tasks[key := NewRow(w.db.nextId, c)], nextId := w.db.nextId + 1)),
           cid, Created(key))
  }

  function TakenRow(row: Task, account: int, now: int): Task {
    row.(status := InProgress, assignee := Some(account), claimedAt := Some(now))
  }

  function Take(w: World, cid: nat, c: Call): World
    requires c.ClaimChecked?
  {
    if c.key in w.db.tasks && w.db.tasks[c.key].status == Backlog then
      var row := TakenRow(w.db.tasks[c.key], c.account, w.db.now);
      Goto(Put(w, c.key, row), cid, ClaimTaken(c.key, c.account, row))
      .(log := w.log + [Claim(c.key, c.account, w.db.now)])
    else Goto(w, cid, Failed(NotAvailable))
  }

  /** Where a claim goes once the overlaps are read: straight back, or on to the notes. */
  function AfterOverlaps(c: Call, found: seq<string>): Call
    requires c.ClaimTaken?
  {
    if found == [] then ClaimReturned(c.key, c.account, [])
    else ClaimNoting(c.key, c.account, found, 0)
  }

  function ConflictNote(key: string, account: int, found: seq<string>, i: nat): Note
    requires i <= |found|
  {
    if i == 0 then Note(key, Some(account), FileOverlap(found))
    else Note(found[i - 1], Some(account), ClaimedOver(key))
  }

  function NoteConflict(w: World, cid: nat, c: Call): World
    requires c.ClaimNoting? && c.written <= |c.found|
  {
    Goto(Write(w, ConflictNote(c.key, c.account, c.found, c.written)), cid,
         if c.written == |c.found| then ClaimReturned(c.key, c.account, c.found)
         else ClaimNoting(c.key, c.account, c.found, c.written + 1))
  }

  function ReleaseStale(w: World, cid: nat, ttl: int, order: seq<string>): World {
    var stale := Stale(w.db, ttl);
    w.(db := w.db.(tasks := map k | k in w.db.tasks ::
                     if k in stale then w.db.tasks[k].(status := Backlog, assignee := None, claimedAt := None)
                     else w.db.tasks[k]),
       calls := w.calls[cid := if order == [] then Swept(ttl, []) else Sweeping(ttl, order, 0)],
       log := w.log + [Sweep(stale, ttl, w.db.now)])
  }

  function NoteRelease(w: World, cid: nat, c: Call): World
    requires c.Sweeping? && c.written < |c.released|
  {
    Goto(Write(w, Note(c.released[c.written], None, AutoReleased(c.ttl))), cid,
         if c.written + 1 == |c.released| then Swept(c.ttl, c.released)
         else Sweeping(c.ttl, c.released, c.written + 1))
  }

  function Deliver(w: World, key: string, branch: string, prUrl: string): World {
    if key in w.db.tasks
    then Put(w, key, w.db.tasks[key].(status := InReview, branch := Some(branch), prUrl := Some(prUrl)))
    else w
  }

  function Restatus(row: Task, status: Status): Task {
    if status == Backlog then row.(status := Backlog, assignee := None) else row.(status := status)
  }

  function Assign(w: World, key: string, status: Status): World {
    if key !in w.db.tasks then w
    else
      Put(w, key, Restatus(w.db.tasks[key], status))
      .(log := if status == Backlog && w.db.tasks[key].status != Backlog then w.log + [Release(key)] else w.log)
  }

  /** Whether the account may submit a row: it holds the row, or nobody does. */
  predicate MaySubmit(row: Task, account: int) {
    row.assignee == None || row.assignee == Some(account)
  }

  /** One statement. An action that is not enabled (its call is at another statement) changes nothing. */
  function Next(w: World, a: Action): World {
    match a
    case Tick(d) => w.(db := w.db.(now := w.db.now + d))
    case AddProject(pid, key) =>
      if pid in w.db.projects || ProjectKeyTaken(w.db, Upper(key)) then w
      else w.(db := w.db.(projects := w.db.projects[pid := Project(Upper(key), 0)]))
    case AddGoal(goal, pid) =>
      if Upper(goal) in w.db.goals || pid !in w.db.projects then w
      else w.(db := w.db.(goals := w.db.goals[Upper(goal) := pid]))
    case CreateSelectGoal(cid, goal, spec) =>
      if cid in w.calls then w
      else if Upper(goal) !in w.db.goals then Goto(w, cid, Failed(UnknownGoal))
      else Goto(w, cid, Creating(Upper(goal), w.db.goals[Upper(goal)], Stored(spec)))
    case CreateBumpSeq(cid) =>
      if cid !in w.calls || !w.calls[cid].Creating? || w.calls[cid].project !in w.db.projects then w
      else
        var c := w.calls[cid];
        var n := w.db.projects[c.project].taskSeq + 1;
        Goto(w, cid, Numbered(c.goal, c.project, n, c.spec))
        .(db := w.db.(projects := w.db.projects[c.project := w.db.projects[c.project].(taskSeq := n)]))
    case CreateInsert(cid) =>
      if cid !in w.calls || !w.calls[cid].Numbered? || w.calls[cid].project !in w.db.projects then w
      else Insert(w, cid, w.calls[cid])
    case ClaimSelect(cid, key, account) =>
      if cid in w.calls then w
      else if Upper(key) !in w.db.tasks then Goto(w, cid, Failed(UnknownTask))
      else
        var blockedBy := w.db.tasks[Upper(key)].spec.blockedBy;
        Goto(w, cid, if blockedBy == [] then ClaimChecked(Upper(key), account, [])
                     else ClaimSelected(Upper(key), account, blockedBy))
    case ClaimCheck(cid) =>
      if cid !in w.calls || !w.calls[cid].ClaimSelected? then w
      else
        var c := w.calls[cid];
        var open := OpenBlockers(w.db, c.blockedBy);
        Goto(w, cid, if open != {} then Failed(BlockedBy(open)) else ClaimChecked(c.key, c.account, c.blockedBy))
    case ClaimUpdate(cid) =>
      if cid !in w.calls || !w.calls[cid].ClaimChecked? then w else Take(w, cid, w.calls[cid])
    case ClaimOverlaps(cid, order) =>
      if cid !in w.calls || !w.calls[cid].ClaimTaken? || !IsOrder(order, Overlaps(w.db, w.calls[cid].row)) then w
      else Goto(w, cid, AfterOverlaps(w.calls[cid], order))
    case ClaimNote(cid) =>
      if cid !in w.calls || !w.calls[cid].ClaimNoting? || w.calls[cid].written > |w.calls[cid].found| then w
      else NoteConflict(w, cid, w.calls[cid])
    case SweepUpdate(cid, ttl, order) =>
      if cid in w.calls then w
      else if ttl < 0 then Goto(w, cid, Swept(ttl, []))
      else if !IsOrder(order, Stale(w.db, ttl)) then w
      else ReleaseStale(w, cid, ttl, order)
    case SweepNote(cid) =>
      if cid !in w.calls || !w.calls[cid].Sweeping? || w.calls[cid].written >= |w.calls[cid].released| then w
      else NoteRelease(w, cid, w.calls[cid])
    case SubmitSelect(cid, key, account) =>
      if cid in w.calls then w
      else if Upper(key) !in w.db.tasks then Goto(w, cid, Failed(UnknownTask))
      else Goto(w, cid, if MaySubmit(w.db.tasks[Upper(key)], account) then SubmitChecked(Upper(key), account, |w.log|)
                        else Failed(OtherAssignee))
    case SubmitWrite(cid, branch, prUrl) =>
      if cid !in w.calls || !w.calls[cid].SubmitChecked? then w
      else Goto(Deliver(w, w.calls[cid].key, branch, prUrl), cid, Submitted(w.calls[cid].key))
    case SubmitTask(key, branch, prUrl) => Deliver(w, Upper(key), branch, prUrl)
    case SetStatus(key, status) => Assign(w, Upper(key), status)
    case AddNote(key, author, body) =>
      if Upper(key) in w.db.tasks then Write(w, Note(Upper(key), author, body)) else w
  }

  /** The database returns rows in some order of its own: any enumeration without repeats. */
  predicate IsOrder(order: seq<string>, s: set<string>) {
    && (set k | k in order) == s
    && |order| == |s|
  }

  /** The world after a schedule: any interleaving of the statements of any number of calls. */
  function Run(w: World, schedule: seq<Action>): World {
    if schedule == [] then w
    else Next(Run(w, schedule[..|schedule| - 1]), schedule[|schedule| - 1])
  }

  /** An empty board at some time. */
  function Start(now: int): World {
    World(Db(map[], map[], map[], 0, [], now), map[], [])
  }

  // ---- runs -------------------------------------------------------------------

  lemma RunSnoc(w: World, schedule: seq<Action>, i: nat)
    requires i < |schedule|
    ensures Run(w, schedule[..i + 1]) == Next(Run(w, schedule[..i]), schedule[i])
  {
    assert schedule[..i + 1][..i] == schedule[..i];
  }

  lemma {:induction false} RunAppend(w: World, s: seq<Action>, t: seq<Action>)
    ensures Run(w, s + t) == Run(Run(w, s), t)
    decreases |t|
  {
    if t == [] {
      assert s + t == s;
    } else {
      var u := t[..|t| - 1];
      assert (s + t)[..|s + t| - 1] == s + u;
      RunAppend(w, s, u);
    }
  }

  lemma RunOne(w: World, s: seq<Action>, a: Action)
    ensures Run(w, s + [a]) == Next(Run(w, s), a)
  {
    assert (s + [a])[..|s|] == s;
  }

  lemma RunNothing(w: World)
    ensures Run(w, []) == w
  {
  }

  /** One statement, then the others. */
  lemma RunCons(w: World, a: Action, others: seq<Action>)
    ensures Run(w, [a] + others) == Run(Next(w, a), others)
  {
    hide Next;
    RunAppend(w, [a], others);
    assert [a][..0] == [];
  }

  /** The statements that write to the task table. */
  predicate WritesTasks(a: Action) {
    a.CreateInsert? || a.ClaimUpdate? || a.SweepUpdate? || a.SubmitWrite? || a.SubmitTask? || a.SetStatus?
  }

  lemma OthersKeepTasks(w: World, a: Action)
    requires !WritesTasks(a)
    ensures Next(w, a).db.tasks == w.db.tasks && Next(w, a).db.nextId == w.db.nextId && Next(w, a).log == w.log
  {
  }

  /** What no statement can undo: rows stay, their identity and spec never change, notes and
      history only grow, finished calls stay finished, and the clock does not run backwards. */
  ghost predicate Evolves(w: World, v: World) {
    && RowsKept(w, v)
    && w.db.notes <= v.db.notes
    && w.log <= v.log
    && w.db.now <= v.db.now
    && (forall c :: c in w.calls ==> c in v.calls)
    && (forall c :: c in w.calls && (w.calls[c].ClaimReturned? || w.calls[c].Failed?) ==> v.calls[c] == w.calls[c])
  }

  /** Rows stay, with their identity, project, goal and spec. */
  ghost predicate RowsKept(w: World, v: World) {
    forall k :: k in w.db.tasks ==>
      && k in v.db.tasks
      && v.db.tasks[k].id == w.db.tasks[k].id
      && v.db.tasks[k].project == w.db.tasks[k].project
      && v.db.tasks[k].goal == w.db.tasks[k].goal
      && v.db.tasks[k].spec == w.db.tasks[k].spec
  }

  lemma ClaimsAndSweepsKeepRows(w: World, a: Action)
    requires a.CreateInsert? || a.ClaimUpdate? || a.SweepUpdate?
    ensures RowsKept(w, Next(w, a))
  {
  }

  lemma RewritesKeepRows(w: World, a: Action)
    requires a.SubmitWrite? || a.SubmitTask? || a.SetStatus?
    ensures RowsKept(w, Next(w, a))
  {
  }

  lemma RowsEvolve(w: World, a: Action)
    ensures RowsKept(w, Next(w, a))
  {
    hide Next;
    if !WritesTasks(a) { OthersKeepTasks(w, a); }
    else if a.SubmitWrite? || a.SubmitTask? || a.SetStatus? { RewritesKeepRows(w, a); }
    else { ClaimsAndSweepsKeepRows(w, a); }
  }

  lemma RecordsEvolve(w: World, a: Action)
    ensures w.db.notes <= Next(w, a).db.notes && w.log <= Next(w, a).log && w.db.now <= Next(w, a).db.now
  {
  }

  lemma CallsEvolve(w: World, a: Action)
    ensures var v := Next(w, a);
            && (forall c :: c in w.calls ==> c in v.calls)
            && (forall c :: c in w.calls && (w.calls[c].ClaimReturned? || w.calls[c].Failed?) ==> v.calls[c] == w.calls[c])
  {
  }

  lemma NextEvolves(w: World, a: Action)
    ensures Evolves(w, Next(w, a))
  {
    hide Next;
    RowsEvolve(w, a);
    CallsEvolve(w, a);
    RecordsEvolve(w, a);
  }

  lemma {:induction false} RunEvolves(w: World, schedule: seq<Action>)
    ensures Evolves(w, Run(w, schedule))
    decreases |schedule|
  {
    if schedule != [] {
      RunEvolves(w, schedule[..|schedule| - 1]);
      NextEvolves(Run(w, schedule[..|schedule| - 1]), schedule[|schedule| - 1]);
    }
  }
}
