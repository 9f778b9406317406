/** The board itself, updated in place one statement at a time.

    Each statement method performs one SQL statement of a call and is proved to be the step `Next`
    of the protocol, so everything proved about schedules holds of this object. The board's own
    methods follow: each runs its statements in order, and between any two of them lets other
    callers run (`gap` says what they do), so their contracts hold under every interleaving. */
module BoardStoreModel {
  import opened Prelude
  import opened TaskKeys
  import opened BoardModel
  import opened BoardHistory
  import opened BoardInvariants
  import opened BoardConflicts
  import opened BoardBlockers
  import opened BoardCalls
  import opened BoardDrain
  import opened BoardRows
  import opened BoardSubmit
  import opened BoardSweeps

  datatype Result<+T> = Ok(value: T) | Err(error: Error)

  ghost predicate Sound(w: World) {
    KeysInv(w) && HolderInv(w) && ConflictInv(w)
  }

  lemma SoundRun(w: World, schedule: seq<Action>)
    requires Sound(w)
    ensures Sound(Run(w, schedule))
  {
    hide Next;
    KeysRunFrom(w, schedule);
    HolderRunFrom(w, schedule);
    ConflictRun(w, schedule);
  }

  /** `stored` is `spec` as the table keeps it: blockers in the spelling of lookup. */
  ghost predicate Spelled(spec: TaskSpec, stored: TaskSpec) {
    && stored.priority == spec.priority && stored.files == spec.files
    && |stored.blockedBy| == |spec.blockedBy|
    && forall i :: 0 <= i < |spec.blockedBy| ==> stored.blockedBy[i] == Upper(spec.blockedBy[i])
  }

  lemma CreatingHasProject(w: World, me: nat)
    requires KeysInv(w) && me in w.calls && w.calls[me].Creating?
    ensures w.calls[me].project in w.db.projects
  {
  }

  lemma TasksStay(w: World, schedule: seq<Action>)
    ensures forall k :: k in w.db.tasks ==> k in Run(w, schedule).db.tasks
  {
    RunEvolves(w, schedule);
  }

  /** `tasks` is the table with the goal's next row: under its project's key and the number after the
      last one drawn, unclaimed in the backlog. */
  ghost predicate NextRow(before: Db, goal: string, spec: TaskSpec, key: string, tasks: map<string, Task>) {
    && Upper(goal) in before.goals && before.goals[Upper(goal)] in before.projects
    && var p := before.goals[Upper(goal)];
    && key == before.projects[p].key + "-" + Decimal(before.projects[p].taskSeq + 1)
    && tasks == before.tasks[key := Task(before.nextId, p, Upper(goal), spec, Backlog, None, None, None, None)]
  }

  lemma StoredSpells(spec: TaskSpec)
    ensures Spelled(spec, Stored(spec))
  {
  }

  /** A blocker named in any case holds a task up while it is unfinished. */
  lemma OpenBlockerHolds(db: Db, key: string, spec: TaskSpec, b: string)
    requires key in db.tasks && Spelled(spec, db.tasks[key].spec) && b in spec.blockedBy
    requires Upper(b) in db.tasks && db.tasks[Upper(b)].status != Done
    ensures !IsClaimable(db, key)
  {
    var i :| 0 <= i < |spec.blockedBy| && spec.blockedBy[i] == b;
    assert db.tasks[key].spec.blockedBy[i] == Upper(b);
    assert Upper(b) in OpenBlockers(db, db.tasks[key].spec.blockedBy);
  }

  lemma StatusStatement(w: World, key: string, status: Status)
    ensures Next(w, SetStatus(key, status)) == Assign(w, Upper(key), status)
  {
  }

  /** At some moment of the schedule, `found` listed exactly the overlaps of the task. */
  ghost predicate CompleteAt(start: World, sched: seq<Action>, i: nat, key: string, found: seq<string>) {
    && i <= |sched|
    && var w := Run(start, sched[..i]);
    key in w.db.tasks && IsOrder(found, Overlaps(w.db, w.db.tasks[key]))
  }

  ghost predicate CompleteAtRead(start: World, sched: seq<Action>, key: string, found: seq<string>) {
    exists i: nat :: CompleteAt(start, sched, i, key, found)
  }

  lemma ReadAfter(start: World, taken: seq<Action>, rest: seq<Action>, me: nat, found: seq<string>)
    requires var w := Run(start, taken);
             && TakenInv(w) && me in w.calls && w.calls[me].ClaimTaken?
             && IsOrder(found, Overlaps(w.db, w.calls[me].row))
    ensures CompleteAtRead(start, taken + rest, Run(start, taken).calls[me].key, found)
  {
    hide Next;
    var w := Run(start, taken);
    assert (taken + rest)[..|taken|] == taken;
    assert Overlaps(w.db, w.calls[me].row) == Overlaps(w.db, w.db.tasks[w.calls[me].key]);
    assert CompleteAt(start, taken + rest, |taken|, w.calls[me].key, found);
  }

  /** What applying a diff to the repository and opening a pull request came to. */
  datatype Patch = Applied(branch: string, prUrl: string) | Refused(message: string) | Broken

  /** The project of an existing task is there in every later state. */
  lemma ProjectStays(w: World, schedule: seq<Action>, key: string)
    requires KeysInv(w) && key in w.db.tasks
    ensures w.db.tasks[key].project in Run(w, schedule).db.projects
  {
    KeysRunFrom(w, schedule);
    RunEvolves(w, schedule);
  }

  ghost predicate ReleaseNoted(notes: seq<Note>, released: seq<string>, ttl: int, count: nat) {
    forall j :: 0 <= j < count && j < |released| ==> Note(released[j], None, AutoReleased(ttl)) in notes
  }

  lemma NoneNoted(notes: seq<Note>, released: seq<string>, ttl: int)
    ensures ReleaseNoted(notes, released, ttl, 0)
  {
  }

  lemma NotesSoFar(before: seq<Note>, released: seq<string>, ttl: int, i: nat, after: seq<Note>)
    requires i < |released| && ReleaseNoted(before, released, ttl, i)
    requires before + [Note(released[i], None, AutoReleased(ttl))] <= after
    ensures ReleaseNoted(after, released, ttl, i + 1)
  {
    var n := Note(released[i], None, AutoReleased(ttl));
    assert after[|before|] == (before + [n])[|before|] == n;
    forall m | m in before ensures m in after {
      var j :| 0 <= j < |before| && before[j] == m;
      assert after[j] == (before + [n])[j] == m;
    }
  }

  /** Lists a set in some order. */
  method Order(s: set<string>) returns (order: seq<string>)
    ensures IsOrder(order, s)
  {
    order := [];
    var rest := s;
    while rest != {}
      invariant rest <= s
      invariant (set k | k in order) == s - rest
      invariant |order| + |rest| == |s|
      decreases rest
    {
      var k :| k in rest;
      ghost var before := order;
      order := order + [k];
      assert (set j | j in order) == (set j | j in before) + {k};
      rest := rest - {k};
    }
    assert s - rest == s;
  }

  class BoardStore {
    var projects: map<int, Project>
    var goals: map<string, int>
    var tasks: map<string, Task>
    var nextId: nat
    var notes: seq<Note>
    var now: int
    var calls: map<nat, Call>
    var log: seq<Event>

    ghost function View(): World reads this {
      World(Db(projects, goals, tasks, nextId, notes, now), calls, log)
    }

    constructor (start: int)
      ensures View() == Start(start) && Sound(View())
    {
      projects, goals, tasks, nextId, notes, now, calls, log := map[], map[], map[], 0, [], start, map[], [];
    }

    // ---- statements ----------------------------------------------------------------

    method Wait(elapsed: nat)
      modifies this`now
      ensures View() == Next(old(View()), Tick(elapsed))
    {
      now := now + elapsed;
    }

    method InsertProject(pid: int, key: string)
      modifies this`projects
      ensures View() == Next(old(View()), AddProject(pid, key))
    {
      if pid !in projects && !exists p :: p in projects && projects[p].key == Upper(key) {
        projects := projects[pid := Project(Upper(key), 0)];
      }
    }

    method InsertGoal(goal: string, pid: int)
      modifies this`goals
      ensures View() == Next(old(View()), AddGoal(goal, pid))
    {
      if Upper(goal) !in goals && pid in projects {
        goals := goals[Upper(goal) := pid];
      }
    }

    method SelectGoal(me: nat, goal: string, spec: TaskSpec)
      modifies this`calls
      ensures View() == Next(old(View()), CreateSelectGoal(me, goal, spec))
    {
      if me !in calls {
        if Upper(goal) in goals {
          calls := calls[me := Creating(Upper(goal), goals[Upper(goal)], Stored(spec))];
        } else {
          calls := calls[me := Failed(UnknownGoal)];
        }
      }
    }

    method BumpSeq(me: nat)
      modifies this`projects, this`calls
      ensures View() == Next(old(View()), CreateBumpSeq(me))
    {
      if me in calls && calls[me].Creating? && calls[me].project in projects {
        var c := calls[me];
        var seqNo := projects[c.project].taskSeq + 1;
        projects := projects[c.project := projects[c.project].(taskSeq := seqNo)];
        calls := calls[me := Numbered(c.goal, c.project, seqNo, c.spec)];
      }
    }

    method InsertTask(me: nat)
      modifies this`tasks, this`nextId, this`calls
      ensures View() == Next(old(View()), CreateInsert(me))
    {
      if me in calls && calls[me].Numbered? && calls[me].project in projects {
        var c := calls[me];
        var key := TaskKey(projects[c.project].key, c.number);
        if key in tasks {
          calls := calls[me := Failed(DuplicateKey)];
        } else {
          tasks := tasks[key := NewRow(nextId, c)];
          nextId := nextId + 1;
          calls := calls[me := Created(key)];
        }
      }
    }

    method SelectTask(me: nat, key: string, account: int)
      modifies this`calls
      ensures View() == Next(old(View()), ClaimSelect(me, key, account))
    {
      var k := Upper(key);
      if me !in calls {
        if k !in tasks {
          calls := calls[me := Failed(UnknownTask)];
        } else if tasks[k].spec.blockedBy == [] {
          calls := calls[me := ClaimChecked(k, account, [])];
        } else {
          calls := calls[me := ClaimSelected(k, account, tasks[k].spec.blockedBy)];
        }
      }
    }

    method SelectOpenBlockers(me: nat)
      modifies this`calls
      ensures View() == Next(old(View()), ClaimCheck(me))
    {
      if me in calls && calls[me].ClaimSelected? {
        var c := calls[me];
        var open := set k | k in tasks && k in c.blockedBy && tasks[k].status != Done;
        if open != {} {
          calls := calls[me := Failed(BlockedBy(open))];
        } else {
          calls := calls[me := ClaimChecked(c.key, c.account, c.blockedBy)];
        }
      }
    }

    method UpdateIfBacklog(me: nat)
      modifies this`tasks, this`calls, this`log
      ensures View() == Next(old(View()), ClaimUpdate(me))
    {
      if me in calls && calls[me].ClaimChecked? {
        var c := calls[me];
        if c.key in tasks && tasks[c.key].status == Backlog {
          var row := tasks[c.key].(status := InProgress, assignee := Some(c.account), claimedAt := Some(now));
          tasks := tasks[c.key := row];
          calls := calls[me := ClaimTaken(c.key, c.account, row)];
          log := log + [Claim(c.key, c.account, now)];
        } else {
          calls := calls[me := Failed(NotAvailable)];
        }
      }
    }

    method SelectOverlaps(me: nat, order: seq<string>)
      modifies this`calls
      ensures View() == Next(old(View()), ClaimOverlaps(me, order))
    {
      if me in calls && calls[me].ClaimTaken? {
        var c := calls[me];
        var overlaps := set k | k in tasks && tasks[k].id != c.row.id && tasks[k].status.Active()
                                && Shares(tasks[k].spec.files, c.row.spec.files);
        assert overlaps == Overlaps(View().db, c.row);
        if IsOrder(order, overlaps) {
          if order == [] {
            calls := calls[me := ClaimReturned(c.key, c.account, [])];
          } else {
            calls := calls[me := ClaimNoting(c.key, c.account, order, 0)];
          }
        }
      }
    }

    method InsertConflictNote(me: nat)
      modifies this`notes, this`calls
      ensures View() == Next(old(View()), ClaimNote(me))
    {
      if me in calls && calls[me].ClaimNoting? && calls[me].written <= |calls[me].found| {
        var c := calls[me];
        if c.written == 0 {
          notes := notes + [Note(c.key, Some(c.account), FileOverlap(c.found))];
        } else {
          notes := notes + [Note(c.found[c.written - 1], Some(c.account), ClaimedOver(c.key))];
        }
        if c.written == |c.found| {
          calls := calls[me := ClaimReturned(c.key, c.account, c.found)];
        } else {
          calls := calls[me := ClaimNoting(c.key, c.account, c.found, c.written + 1)];
        }
      }
    }

    method UpdateStale(me: nat, ttl: int, order: seq<string>)
      modifies this`tasks, this`calls, this`log
      ensures View() == Next(old(View()), SweepUpdate(me, ttl, order))
    {
      if me !in calls {
        if ttl < 0 {
          calls := calls[me := Swept(ttl, [])];
        } else {
          var stale := set k | k in tasks && IsStale(tasks[k], now, ttl);
          assert stale == Stale(View().db, ttl);
          if IsOrder(order, stale) {
            tasks := map k | k in tasks ::
              if k in stale then tasks[k].(status := Backlog, assignee := None, claimedAt := None) else tasks[k];
            calls := calls[me := if order == [] then Swept(ttl, []) else Sweeping(ttl, order, 0)];
            log := log + [Sweep(stale, ttl, now)];
          }
        }
      }
    }

    method InsertReleaseNote(me: nat)
      modifies this`notes, this`calls
      ensures View() == Next(old(View()), SweepNote(me))
    {
      if me in calls && calls[me].Sweeping? && calls[me].written < |calls[me].released| {
        var c := calls[me];
        notes := notes + [Note(c.released[c.written], None, AutoReleased(c.ttl))];
        if c.written + 1 == |c.released| {
          calls := calls[me := Swept(c.ttl, c.released)];
        } else {
          calls := calls[me := Sweeping(c.ttl, c.released, c.written + 1)];
        }
      }
    }

    method SelectForSubmit(me: nat, key: string, account: int)
      modifies this`calls
      ensures View() == Next(old(View()), SubmitSelect(me, key, account))
    {
      var k := Upper(key);
      if me !in calls {
        if k !in tasks {
          calls := calls[me := Failed(UnknownTask)];
        } else if tasks[k].assignee == None || tasks[k].assignee == Some(account) {
          calls := calls[me := SubmitChecked(k, account, |log|)];
        } else {
          calls := calls[me := Failed(OtherAssignee)];
        }
      }
    }

    method UpdateSubmitted(me: nat, branch: string, prUrl: string)
      modifies this`tasks, this`calls
      ensures View() == Next(old(View()), SubmitWrite(me, branch, prUrl))
    {
      if me in calls && calls[me].SubmitChecked? {
        var k := calls[me].key;
        if k in tasks {
          tasks := tasks[k := tasks[k].(status := InReview, branch := Some(branch), prUrl := Some(prUrl))];
        }
        calls := calls[me := Submitted(k)];
      }
    }

    // ---- single-statement board methods ------------------------------------------------

    method Submit(key: string, branch: string, prUrl: string)
      modifies this`tasks
      ensures View() == Next(old(View()), SubmitTask(key, branch, prUrl))
      ensures Upper(key) in old(tasks) ==>
                tasks == old(tasks)[Upper(key) :=
                           old(tasks)[Upper(key)].(status := InReview, branch := Some(branch), prUrl := Some(prUrl))]
    {
      var k := Upper(key);
      if k in tasks {
        tasks := tasks[k := tasks[k].(status := InReview, branch := Some(branch), prUrl := Some(prUrl))];
      }
    }

    method UpdateStatus(key: string, status: Status)
      modifies this`tasks, this`log
      ensures View() == Next(old(View()), SetStatus(key, status))
      ensures Upper(key) in old(tasks) && status != Backlog ==>
                tasks == old(tasks)[Upper(key) := old(tasks)[Upper(key)].(status := status)]
      ensures Upper(key) in old(tasks) && status == Backlog ==>
                tasks == old(tasks)[Upper(key) := old(tasks)[Upper(key)].(status := Backlog, assignee := None)]
      ensures Upper(key) !in old(tasks) ==> tasks == old(tasks)
    {
      hide Next;
      StatusStatement(View(), key, status);
      var k := Upper(key);
      if k in tasks {
        if status == Backlog && tasks[k].status != Backlog { log := log + [Release(k)]; }
        if status == Backlog {
          tasks := tasks[k := tasks[k].(status := Backlog, assignee := None)];
        } else {
          tasks := tasks[k := tasks[k].(status := status)];
        }
      }
    }

    /** A client chooses the kind and the text of a note freely. */
    method InsertNote(key: string, author: Option<int>, body: NoteBody)
      modifies this`notes
      ensures View() == Next(old(View()), AddNote(key, author, body))
    {
      if Upper(key) in tasks {
        notes := notes + [Note(Upper(key), author, body)];
      }
    }

    /** One statement of anybody's call. */
    method Perform(a: Action)
      modifies this
      ensures View() == Next(old(View()), a)
    {
      hide Next;
      match a
      case Tick(d) => Wait(d);
      case AddProject(pid, key) => InsertProject(pid, key);
      case AddGoal(goal, pid) => InsertGoal(goal, pid);
      case CreateSelectGoal(c, goal, spec) => SelectGoal(c, goal, spec);
      case CreateBumpSeq(c) => BumpSeq(c);
      case CreateInsert(c) => InsertTask(c);
      case ClaimSelect(c, key, account) => SelectTask(c, key, account);
      case ClaimCheck(c) => SelectOpenBlockers(c);
      case ClaimUpdate(c) => UpdateIfBacklog(c);
      case ClaimOverlaps(c, order) => SelectOverlaps(c, order);
      case ClaimNote(c) => InsertConflictNote(c);
      case SweepUpdate(c, ttl, order) => UpdateStale(c, ttl, order);
      case SweepNote(c) => InsertReleaseNote(c);
      case SubmitSelect(c, key, account) => SelectForSubmit(c, key, account);
      case SubmitWrite(c, branch, prUrl) => UpdateSubmitted(c, branch, prUrl);
      case SubmitTask(key, branch, prUrl) => Submit(key, branch, prUrl);
      case SetStatus(key, status) => UpdateStatus(key, status);
      case AddNote(key, author, body) => InsertNote(key, author, body);
    }

    /** Other callers run. */
    method Interleave(others: seq<Action>)
      modifies this
      ensures View() == Run(old(View()), others)
      ensures old(Sound(View())) ==> Sound(View())
      ensures old(SubmitInv(View())) ==> SubmitInv(View())
      ensures old(LeaseInv(View())) && AllRouted(others) ==> LeaseInv(View())
    {
      hide Next;
      var i := 0;
      while i < |others|
        invariant 0 <= i <= |others|
        invariant View() == Run(old(View()), others[..i])
      {
        RunSnoc(old(View()), others, i);
        Perform(others[i]);
        i := i + 1;
      }
      assert others[..i] == others;
      if old(Sound(View())) { SoundRun(old(View()), others); }
      if old(SubmitInv(View())) { SubmitRun(old(View()), others); }
      if old(LeaseInv(View())) && AllRouted(others) { LeaseRun(old(View()), others); }
    }

    /** The others run between two statements of call `me`, which stays where it is. */
    method Gap(me: nat, others: seq<Action>)
      requires OthersOnly(others, me) && me in calls
      modifies this
      ensures View() == Run(old(View()), others)
      ensures me in calls && calls[me] == old(calls[me])
      ensures old(log) <= log && old(notes) <= notes && old(now) <= now
      ensures forall k :: k in old(tasks) ==> k in tasks && tasks[k].spec == old(tasks)[k].spec && tasks[k].goal == old(tasks)[k].goal
    {
      OthersLeaveMyCallRun(View(), others, me);
      RunEvolves(View(), others);
      Interleave(others);
    }

    // ---- claim_task ------------------------------------------------------------------------

    /** What an uninterrupted statement leaves alone. */
    twostate predicate QuietExceptTasks(me: nat)
      reads this
    {
      goals == old(goals) && now == old(now) && calls.Keys == old(calls.Keys) + {me}
    }

    method BeginClaim(me: nat, key: string, account: int, others: seq<Action>)
      requires me !in calls && OthersOnly(others, me)
      modifies this
      ensures View() == Run(old(View()), [ClaimSelect(me, key, account)] + others)
      ensures old(log) <= log && me in calls
      ensures Upper(key) !in old(tasks) ==> calls[me] == Failed(UnknownTask)
      ensures Upper(key) in old(tasks) ==>
                var blockedBy := old(tasks[Upper(key)].spec.blockedBy);
                calls[me] == if blockedBy == [] then ClaimChecked(Upper(key), account, [])
                             else ClaimSelected(Upper(key), account, blockedBy)
      ensures others == [] ==> tasks == old(tasks) && QuietExceptTasks(me)
    {
      RunCons(View(), ClaimSelect(me, key, account), others);
      SelectTask(me, key, account);
      Gap(me, others);
    }

    method CheckClaim(me: nat, others: seq<Action>)
      requires me in calls && calls[me].ClaimSelected? && OthersOnly(others, me)
      modifies this
      ensures View() == Run(old(View()), [ClaimCheck(me)] + others)
      ensures old(log) <= log && me in calls
      ensures var c := old(calls[me]);
              calls[me] == if OpenBlockers(old(View()).db, c.blockedBy) != {} then Failed(BlockedBy(OpenBlockers(old(View()).db, c.blockedBy)))
                           else ClaimChecked(c.key, c.account, c.blockedBy)
      ensures others == [] ==> tasks == old(tasks) && QuietExceptTasks(me)
    {
      RunCons(View(), ClaimCheck(me), others);
      SelectOpenBlockers(me);
      Gap(me, others);
    }

    method TakeClaim(me: nat, others: seq<Action>)
      requires me in calls && calls[me].ClaimChecked? && OthersOnly(others, me)
      modifies this
      ensures View() == Run(old(View()), [ClaimUpdate(me)] + others)
      ensures old(log) <= log && me in calls
      ensures var c := old(calls[me]);
              if c.key in old(tasks) && old(tasks)[c.key].status == Backlog then
                && calls[me] == ClaimTaken(c.key, c.account, TakenRow(old(tasks)[c.key], c.account, old(now)))
                && ClaimedSince(log, |old(log)|, c.key, c.account)
                && (others == [] ==> tasks == old(tasks)[c.key := TakenRow(old(tasks)[c.key], c.account, old(now))])
              else
                && calls[me] == Failed(NotAvailable)
                && (others == [] ==> tasks == old(tasks))
      ensures others == [] ==> QuietExceptTasks(me)
    {
      RunCons(View(), ClaimUpdate(me), others);
      UpdateIfBacklog(me);
      ghost var taken, c := log, calls[me];
      if c.ClaimTaken? { assert IsClaim(taken[|old(log)|], c.key); }
      Gap(me, others);
      if c.ClaimTaken? { ClaimedSinceGrows(taken, |old(log)|, log, |old(log)|, c.key, c.account); }
    }

    /** `_overlaps`: other active tasks sharing a file, in the order the database lists them. */
    method OverlapsOf(row: Task) returns (order: seq<string>)
      ensures IsOrder(order, Overlaps(View().db, row))
    {
      var overlaps := set k | k in tasks && tasks[k].id != row.id && tasks[k].status.Active()
                              && Shares(tasks[k].spec.files, row.spec.files);
      assert overlaps == Overlaps(View().db, row);
      order := Order(overlaps);
    }

    method ReadOverlaps(me: nat, others: seq<Action>) returns (order: seq<string>)
      requires me in calls && calls[me].ClaimTaken? && OthersOnly(others, me)
      modifies this
      ensures View() == Run(old(View()), [ClaimOverlaps(me, order)] + others)
      ensures IsOrder(order, Overlaps(old(View()).db, old(calls[me]).row))
      ensures old(log) <= log && me in calls && calls[me] == AfterOverlaps(old(calls[me]), order)
      ensures others == [] ==> tasks == old(tasks) && QuietExceptTasks(me)
    {
      order := OverlapsOf(calls[me].row);
      RunCons(View(), ClaimOverlaps(me, order), others);
      SelectOverlaps(me, order);
      Gap(me, others);
    }

    method WriteConflictNote(me: nat, others: seq<Action>)
      requires me in calls && calls[me].ClaimNoting? && calls[me].written <= |calls[me].found| && OthersOnly(others, me)
      modifies this
      ensures View() == Run(old(View()), [ClaimNote(me)] + others)
      ensures old(log) <= log && me in calls
      ensures var c := old(calls[me]);
              calls[me] == if c.written == |c.found| then ClaimReturned(c.key, c.account, c.found)
                           else ClaimNoting(c.key, c.account, c.found, c.written + 1)
      ensures others == [] ==> tasks == old(tasks) && QuietExceptTasks(me)
    {
      RunCons(View(), ClaimNote(me), others);
      InsertConflictNote(me);
      Gap(me, others);
    }

    /** Up to the compare-and-set: read the row, read its open blockers if it has any, take it. */
    method Acquire(me: nat, key: string, account: int, gap: nat -> seq<Action>) returns (ghost sched: seq<Action>)
      requires me !in calls && OthersIn(gap, me)
      modifies this
      ensures View() == Run(old(View()), sched)
      ensures old(log) <= log && me in calls
      ensures calls[me].Failed? || (calls[me].ClaimTaken? && calls[me].key == Upper(key) && calls[me].account == account)
      ensures calls[me].ClaimTaken? ==>
                ClaimedSince(log, |old(log)|, Upper(key), account)
      ensures Quiet(gap) ==>
                && QuietExceptTasks(me)
                && (calls[me].ClaimTaken? <==> IsClaimable(old(View()).db, Upper(key)))
                && tasks == (if calls[me].ClaimTaken? then old(tasks)[Upper(key) := TakenRow(old(tasks)[Upper(key)], account, old(now))]
                             else old(tasks))
                && (calls[me].ClaimTaken? ==> calls[me].row == tasks[Upper(key)])
    {
      hide Next;
      ghost var start := View();
      BeginClaim(me, key, account, gap(0));
      sched := [ClaimSelect(me, key, account)] + gap(0);
      if calls[me].ClaimSelected? {
        RunAppend(start, sched, [ClaimCheck(me)] + gap(1));
        sched := sched + ([ClaimCheck(me)] + gap(1));
        CheckClaim(me, gap(1));
      }
      if calls[me].ClaimChecked? {
        RunAppend(start, sched, [ClaimUpdate(me)] + gap(2));
        sched := sched + ([ClaimUpdate(me)] + gap(2));
        ghost var from := |log|;
        TakeClaim(me, gap(2));
        if calls[me].ClaimTaken? { ClaimedSinceGrows(log, from, log, |old(log)|, Upper(key), account); }
      }
    }

    /** After the compare-and-set: read the overlaps, note them on this task, then on each of them. */
    method Report(me: nat, gap: nat -> seq<Action>) returns (conflicts: seq<string>, ghost sched: seq<Action>)
      requires me in calls && calls[me].ClaimTaken? && OthersIn(gap, me)
      modifies this
      ensures View() == Run(old(View()), sched)
      ensures old(log) <= log && me in calls
      ensures calls[me] == ClaimReturned(old(calls[me].key), old(calls[me].account), conflicts)
      ensures IsOrder(conflicts, Overlaps(old(View()).db, old(calls[me]).row))
      ensures Quiet(gap) ==> tasks == old(tasks) && QuietExceptTasks(me)
    {
      ghost var start := View();
      var c := calls[me];
      conflicts := ReadOverlaps(me, gap(3));
      sched := [ClaimOverlaps(me, conflicts)] + gap(3);
      var i := 0;
      while calls[me].ClaimNoting?
        invariant 0 <= i && me in calls && old(log) <= log
        invariant calls[me] == ClaimReturned(c.key, c.account, conflicts)
                  || (calls[me] == ClaimNoting(c.key, c.account, conflicts, i) && i <= |conflicts|)
        invariant View() == Run(start, sched)
        invariant Quiet(gap) ==> tasks == old(tasks) && QuietExceptTasks(me)
        decreases if calls[me].ClaimNoting? then |conflicts| + 1 - i else 0
      {
        RunAppend(start, sched, [ClaimNote(me)] + gap(4 + i));
        sched := sched + ([ClaimNote(me)] + gap(4 + i));
        WriteConflictNote(me, gap(4 + i));
        i := i + 1;
      }
    }

    /** The whole of `claim_task`, with the others running in every gap between its statements. It
        always comes to an end. If it grants the claim, the claim is in the history; the report lists, each
        once, all other active tasks that shared a file at the moment of the overlap read; and every task
        in it names, and is named by, the claimed one on the board. Uninterrupted, it grants exactly the
        claimable tasks, changes that row alone, and the report is complete at the end. */
    method ClaimTask(me: nat, key: string, account: int, gap: nat -> seq<Action>)
      returns (r: Result<seq<string>>, ghost sched: seq<Action>)
      requires me !in calls && OthersIn(gap, me)
      modifies this
      ensures View() == Run(old(View()), sched)
      ensures me in calls
      ensures r.Ok? ==>
                && calls[me] == ClaimReturned(Upper(key), account, r.value)
                && ClaimedSince(log, |old(log)|, Upper(key), account)
      ensures r.Ok? && old(Sound(View())) ==>
                && CompleteAtRead(old(View()), sched, Upper(key), r.value)
                && forall other :: other in r.value ==> NotedOnBoth(notes, Upper(key), other)
      ensures r.Err? ==> calls[me] == Failed(r.error)
      ensures Quiet(gap) ==>
                && QuietExceptTasks(me)
                && (r.Ok? <==> IsClaimable(old(View()).db, Upper(key)))
                && tasks == (if r.Ok? then
                               old(tasks)[Upper(key) := old(tasks)[Upper(key)].(status := InProgress, assignee := Some(account),
                                                                                claimedAt := Some(old(now)))]
                             else old(tasks))
                && (r.Ok? ==> IsOrder(r.value, Overlaps(View().db, tasks[Upper(key)])))
    {
      ghost var start := View();
      sched := Acquire(me, key, account, gap);
      if calls[me].Failed? {
        return Err(calls[me].error), sched;
      }
      ghost var rest, claimed, taken := [], log, sched;
      var conflicts;
      conflicts, rest := Report(me, gap);
      ClaimedSinceGrows(claimed, |old(log)|, log, |old(log)|, Upper(key), account);
      RunAppend(start, sched, rest);
      sched := sched + rest;
      if Sound(start) {
        SoundRun(start, sched);
        SoundRun(start, taken);
        ReadAfter(start, taken, rest, me, conflicts);
        forall other | other in conflicts ensures NotedOnBoth(notes, Upper(key), other) {
          ReportOnBoard(View(), me, other);
        }
      }
      r := Ok(conflicts);
    }

    // ---- create_task ----------------------------------------------------------------------------

    method FindGoal(me: nat, goal: string, spec: TaskSpec, others: seq<Action>)
      requires me !in calls && OthersOnly(others, me)
      modifies this
      ensures View() == Run(old(View()), [CreateSelectGoal(me, goal, spec)] + others)
      ensures me in calls
      ensures calls[me] == if Upper(goal) in old(goals) then Creating(Upper(goal), old(goals)[Upper(goal)], Stored(spec))
                           else Failed(UnknownGoal)
      ensures others == [] ==> tasks == old(tasks) && projects == old(projects) && nextId == old(nextId)
    {
      RunCons(View(), CreateSelectGoal(me, goal, spec), others);
      SelectGoal(me, goal, spec);
      Gap(me, others);
    }

    method DrawNumber(me: nat, others: seq<Action>)
      requires me in calls && calls[me].Creating? && calls[me].project in projects && OthersOnly(others, me)
      modifies this
      ensures View() == Run(old(View()), [CreateBumpSeq(me)] + others)
      ensures me in calls && calls[me].Numbered?
      ensures var p := old(calls[me].project);
              calls[me] == Numbered(old(calls[me].goal), p, old(projects)[p].taskSeq + 1, old(calls[me].spec))
      ensures forall k :: k in old(tasks) ==> k in tasks
      ensures others == [] ==>
                && tasks == old(tasks) && nextId == old(nextId) && projects.Keys == old(projects).Keys
                && forall p :: p in projects ==> projects[p].key == old(projects)[p].key
    {
      RunCons(View(), CreateBumpSeq(me), others);
      BumpSeq(me);
      Gap(me, others);
    }

    method AddRow(me: nat, others: seq<Action>)
      requires KeysInv(View()) && me in calls && calls[me].Numbered? && OthersOnly(others, me)
      modifies this
      ensures View() == Run(old(View()), [CreateInsert(me)] + others)
      ensures me in calls && calls[me].Created?
      ensures var key := calls[me].key;
              && key !in old(tasks) && key in tasks && Upper(key) == key
              && tasks[key].goal == old(calls[me].goal) && tasks[key].spec == old(calls[me].spec)
      ensures var c := old(calls[me]);
              others == [] ==>
                && c.project in old(projects)
                && calls[me].key == old(projects)[c.project].key + "-" + Decimal(c.number)
                && tasks == old(tasks)[calls[me].key := Task(old(nextId), c.project, c.goal, c.spec, Backlog, None, None, None, None)]
    {
      RunCons(View(), CreateInsert(me), others);
      TaskKeyUpper(projects[calls[me].project].key, calls[me].number);
      InsertTask(me);
      Gap(me, others);
    }

    /** The three statements of `create_task`. */
    method CreateRow(me: nat, goal: string, spec: TaskSpec, gap: nat -> seq<Action>)
      returns (r: Result<string>, ghost sched: seq<Action>)
      requires Sound(View()) && me !in calls && OthersIn(gap, me)
      modifies this
      ensures Sound(View()) && View() == Run(old(View()), sched)
      ensures r == Err(UnknownGoal) <==> Upper(goal) !in old(goals)
      ensures r.Err? ==> r == Err(UnknownGoal)
      ensures r.Ok? ==>
                && me in calls && calls[me] == Created(r.value)
                && r.value !in old(tasks) && r.value in tasks && Upper(r.value) == r.value
                && tasks[r.value].goal == Upper(goal) && tasks[r.value].spec == Stored(spec)
      ensures r.Ok? && Quiet(gap) ==> NextRow(old(View()).db, goal, Stored(spec), r.value, tasks)
    {
      hide Next, Run, KeysInv, HolderInv, ConflictInv, Evolves;
      ghost var start := View();
      FindGoal(me, goal, spec, gap(0));
      sched := [CreateSelectGoal(me, goal, spec)] + gap(0);
      SoundRun(start, sched);
      if calls[me].Failed? {
        return Err(calls[me].error), sched;
      }
      CreatingHasProject(View(), me);
      TasksStay(start, sched);
      RunAppend(start, sched, [CreateBumpSeq(me)] + gap(1));
      sched := sched + ([CreateBumpSeq(me)] + gap(1));
      DrawNumber(me, gap(1));
      SoundRun(start, sched);
      RunAppend(start, sched, [CreateInsert(me)] + gap(2));
      sched := sched + ([CreateInsert(me)] + gap(2));
      AddRow(me, gap(2));
      SoundRun(start, sched);
      r := Ok(calls[me].key);
    }

    /** `create_task`: find the goal, draw a number, insert. Whatever runs in the gaps, a known goal
        always yields a new row under a key that did not exist before and that lookup will find. The row
        has the given spec, with blockers spelled as lookup spells them: so a task named as a blocker in
        any case holds it up while unfinished. Uninterrupted, the key is the project's with the next
        number, and nothing else changes in the table. */
    method CreateTask(me: nat, goal: string, spec: TaskSpec, gap: nat -> seq<Action>)
      returns (r: Result<string>, ghost sched: seq<Action>)
      requires Sound(View()) && me !in calls && OthersIn(gap, me)
      modifies this
      ensures Sound(View()) && View() == Run(old(View()), sched)
      ensures r == Err(UnknownGoal) <==> Upper(goal) !in old(goals)
      ensures r.Err? ==> r == Err(UnknownGoal)
      ensures r.Ok? ==>
                && me in calls && calls[me] == Created(r.value)
                && r.value !in old(tasks) && r.value in tasks && Upper(r.value) == r.value
                && tasks[r.value].goal == Upper(goal) && Spelled(spec, tasks[r.value].spec)
      ensures r.Ok? ==>
                forall b :: b in spec.blockedBy && Upper(b) in tasks && tasks[Upper(b)].status != Done ==>
                  !IsClaimable(View().db, r.value)
      ensures r.Ok? && Quiet(gap) ==> NextRow(old(View()).db, goal, tasks[r.value].spec, r.value, tasks)
    {
      hide Next, Run, Sound, NextRow;
      r, sched := CreateRow(me, goal, spec, gap);
      StoredSpells(spec);
      if r.Ok? {
        forall b | b in spec.blockedBy && Upper(b) in tasks && tasks[Upper(b)].status != Done
          ensures !IsClaimable(View().db, r.value)
        {
          OpenBlockerHolds(View().db, r.value, spec, b);
        }
      }
    }

    // ---- release_stale ----------------------------------------------------------------------------

    method StaleKeys(ttl: int) returns (order: seq<string>)
      ensures IsOrder(order, Stale(View().db, ttl))
    {
      var stale := set k | k in tasks && IsStale(tasks[k], now, ttl);
      assert stale == Stale(View().db, ttl);
      order := Order(stale);
    }

    method ReleaseAll(me: nat, ttl: int, others: seq<Action>) returns (released: seq<string>)
      requires me !in calls && 0 <= ttl && OthersOnly(others, me)
      modifies this
      ensures View() == Run(old(View()), [SweepUpdate(me, ttl, released)] + others)
      ensures old(now) <= now
      ensures IsOrder(released, Stale(old(View()).db, ttl))
      ensures old(log) + [Sweep(Stale(old(View()).db, ttl), ttl, old(now))] <= log
      ensures me in calls && calls[me] == if released == [] then Swept(ttl, []) else Sweeping(ttl, released, 0)
      ensures others == [] ==> QuietExceptTasks(me) && SweptRows(old(tasks), tasks, ttl, old(now))
    {
      released := StaleKeys(ttl);
      OverdueIsStale(View(), ttl);
      SweepWrites(View(), SweepUpdate(me, ttl, released));
      RunCons(View(), SweepUpdate(me, ttl, released), others);
      UpdateStale(me, ttl, released);
      Gap(me, others);
    }

    method NoteReleased(me: nat, others: seq<Action>)
      requires me in calls && calls[me].Sweeping? && calls[me].written < |calls[me].released| && OthersOnly(others, me)
      modifies this
      ensures View() == Run(old(View()), [SweepNote(me)] + others)
      ensures old(now) <= now && old(log) <= log
      ensures var c := old(calls[me]);
              && old(notes) + [Note(c.released[c.written], None, AutoReleased(c.ttl))] <= notes
              && me in calls
              && calls[me] == if c.written + 1 == |c.released| then Swept(c.ttl, c.released)
                              else Sweeping(c.ttl, c.released, c.written + 1)
      ensures others == [] ==> QuietExceptTasks(me) && tasks == old(tasks)
    {
      RunCons(View(), SweepNote(me), others);
      InsertReleaseNote(me);
      Gap(me, others);
    }

    /** The first `count` notes of a sweep. */
    method NoteReleases(me: nat, count: nat, gap: nat -> seq<Action>) returns (ghost sched: seq<Action>)
      requires me in calls && OthersIn(gap, me)
      requires (calls[me].Swept? && calls[me].released == []) || (calls[me].Sweeping? && calls[me].written == 0 && calls[me].released != [])
      requires count <= |calls[me].released|
      modifies this
      ensures View() == Run(old(View()), sched)
      ensures old(now) <= now && old(log) <= log
      ensures me in calls
      ensures var ttl, released := old(calls[me]).ttl, old(calls[me]).released;
              && calls[me] == (if count == |released| then Swept(ttl, released) else Sweeping(ttl, released, count))
              && ReleaseNoted(notes, released, ttl, count)
      ensures ThroughGaps(sched, gap, 1, count + 1, me)
      ensures Quiet(gap) ==> QuietExceptTasks(me) && tasks == old(tasks)
    {
      hide Next, ReleaseNoted, ThroughGaps;
      ghost var start := View();
      sched := [];
      ThroughNone(gap, 1, me);
      NoneNoted(notes, calls[me].released, calls[me].ttl);
      var ttl, released := calls[me].ttl, calls[me].released;
      for i := 0 to count
        invariant View() == Run(start, sched) && me in calls
        invariant old(now) <= now && old(log) <= log
        invariant calls[me] == if i == |released| then Swept(ttl, released) else Sweeping(ttl, released, i)
        invariant ReleaseNoted(notes, released, ttl, i)
        invariant ThroughGaps(sched, gap, 1, i + 1, me)
        invariant Quiet(gap) ==> QuietExceptTasks(me) && tasks == old(tasks)
      {
        RunAppend(start, sched, [SweepNote(me)] + gap(i + 1));
        ThroughOneMore(sched, gap, 1, i + 1, me, SweepNote(me));
        sched := sched + ([SweepNote(me)] + gap(i + 1));
        ghost var before := notes;
        NoteReleased(me, gap(i + 1));
        NotesSoFar(before, released, ttl, i, notes);
      }
    }

    /** `release_stale`: one update returns every stale claim at once, then each gets its note. A
        negative TTL does nothing. `failsAt` says where a statement raises, if one does: at the update,
        which then does nothing, or with some notes written, and the claims stay returned. `gaps` counts
        the gaps in which the others ran. */
    method ReleaseStaleClaims(me: nat, ttl: int, failsAt: Option<nat>, gap: nat -> seq<Action>)
      returns (r: Result<seq<string>>, ghost sched: seq<Action>, ghost gaps: nat)
      requires me !in calls && OthersIn(gap, me)
      modifies this
      ensures View() == Run(old(View()), sched)
      ensures old(now) <= now && old(log) <= log
      ensures ttl < 0 ==> r == Ok([]) && sched == []
      ensures ttl >= 0 && failsAt == Some(0) ==> r == Err(StatementFailed) && sched == []
      ensures ttl >= 0 && failsAt != Some(0) ==>
                && old(log) + [Sweep(Stale(old(View()).db, ttl), ttl, old(now))] <= log
                && me in calls && (calls[me].Swept? || calls[me].Sweeping?) && calls[me].ttl == ttl
                && IsOrder(calls[me].released, Stale(old(View()).db, ttl))
                && (r.Ok? <==> failsAt.None? || calls[me].released == [] || failsAt.value > |calls[me].released| + 1)
                && ReleaseNoted(notes, calls[me].released, ttl, if r.Ok? then |calls[me].released| else failsAt.value - 1)
                && (r.Ok? ==> r == Ok(calls[me].released) && calls[me].Swept?)
      ensures ThroughGaps(sched, gap, 0, gaps, me)
      ensures ttl < 0 || failsAt == Some(0) ==> tasks == old(tasks)
      ensures ttl >= 0 && failsAt != Some(0) && Quiet(gap) ==>
                QuietExceptTasks(me) && SweptRows(old(tasks), tasks, ttl, old(now))
    {
      hide Next, Run, ReleaseNoted, ThroughGaps, Stale, SweptRows;
      ghost var start := View();
      RunNothing(start);
      ThroughNone(gap, 0, me);
      sched, gaps := [], 0;
      if ttl < 0 { return Ok([]), [], 0; }
      if failsAt == Some(0) { return Err(StatementFailed), [], 0; }
      var released := ReleaseAll(me, ttl, gap(0));
      sched := [SweepUpdate(me, ttl, released)] + gap(0);
      ThroughOneMore([], gap, 0, 0, me, SweepUpdate(me, ttl, released));
      assert [] + sched == sched;
      var cut := failsAt.Some? && released != [] && failsAt.value <= |released| + 1;
      var count := if cut then failsAt.value - 1 else |released|;
      ghost var rest := NoteReleases(me, count, gap);
      RunAppend(start, sched, rest);
      ThroughBoth(sched, rest, gap, 0, 1, count + 1, me);
      sched, gaps := sched + rest, count + 1;
      r := if cut then Err(StatementFailed) else Ok(released);
    }

    // ---- list_work --------------------------------------------------------------------------------

    /** `ORDER BY priority DESC, id ASC`. */
    predicate Precedes(a: string, b: string)
      requires a in tasks && b in tasks
      reads this
    {
      tasks[a].spec.priority > tasks[b].spec.priority
      || (tasks[a].spec.priority == tasks[b].spec.priority && tasks[a].id <= tasks[b].id)
    }

    ghost predicate BestFirst(keys: seq<string>)
      reads this
    {
      && (forall i :: 0 <= i < |keys| ==> keys[i] in tasks)
      && (forall i, j :: 0 <= i < j < |keys| ==> keys[i] != keys[j] && Precedes(keys[i], keys[j]))
    }

    method Best(keys: set<string>) returns (best: string)
      requires keys != {} && forall k :: k in keys ==> k in tasks
      ensures best in keys && forall k :: k in keys ==> Precedes(best, k)
    {
      best :| best in keys;
      var rest := keys - {best};
      while rest != {}
        invariant rest <= keys && best in keys
        invariant forall k :: k in keys && k !in rest ==> Precedes(best, k)
        decreases rest
      {
        var k :| k in rest;
        if !Precedes(best, k) { best := k; }
        rest := rest - {k};
      }
    }

    method SelectBacklog(goal: string) returns (keys: seq<string>)
      ensures BestFirst(keys)
      ensures forall k :: k in keys <==> InBacklog(View().db, goal, k)
    {
      var rest := set k | k in tasks && tasks[k].goal == goal && tasks[k].status == Backlog;
      ghost var all := rest;
      keys := [];
      while rest != {}
        invariant rest <= all && BestFirst(keys)
        invariant forall k :: k in keys <==> k in all && k !in rest
        invariant forall i, k :: 0 <= i < |keys| && k in rest ==> Precedes(keys[i], k)
        decreases rest
      {
        var k := Best(rest);
        keys := keys + [k];
        rest := rest - {k};
      }
    }

    predicate Unblocked(done: set<string>, key: string)
      reads this
    {
      key in tasks && forall b :: b in tasks[key].spec.blockedBy ==> b in done
    }

    /** The two comprehensions over the rows read, which keep the rows' order. */
    method SplitByBlockers(keys: seq<string>, done: set<string>) returns (ready: seq<string>, blocked: seq<string>)
      requires BestFirst(keys)
      ensures forall k :: k in ready <==> k in keys && Unblocked(done, k)
      ensures forall k :: k in blocked <==> k in keys && !Unblocked(done, k)
      ensures BestFirst(ready) && BestFirst(blocked)
    {
      ready, blocked := [], [];
      for i := 0 to |keys|
        invariant forall k :: k in ready <==> k in keys[..i] && Unblocked(done, k)
        invariant forall k :: k in blocked <==> k in keys[..i] && !Unblocked(done, k)
        invariant BestFirst(ready) && BestFirst(blocked)
      {
        assert keys[..i + 1] == keys[..i] + [keys[i]];
        assert forall k :: k in keys[..i] ==> k != keys[i] && k in tasks && Precedes(k, keys[i]);
        if Unblocked(done, keys[i]) {
          ready := ready + [keys[i]];
        } else {
          blocked := blocked + [keys[i]];
        }
      }
      assert keys[..|keys|] == keys;
    }

    /** `list_work`: read the backlog of a goal best first, read its finished keys, split. The two reads
        are separate statements: a row is listed for its status at the first and judged by the tasks
        finished at the second, so a task listed as ready and still in the backlog is ready. */
    method ListWork(goal: string, others: seq<Action>) returns (found: bool, ready: seq<string>, blocked: seq<string>)
      modifies this
      ensures found <==> Upper(goal) in old(goals)
      ensures View() == if found then Run(old(View()), others) else old(View())
      ensures found ==>
                && (forall k :: k in ready <==> InBacklog(old(View()).db, Upper(goal), k) && Unblocked(DoneKeys(View().db, Upper(goal)), k))
                && (forall k :: k in blocked <==> InBacklog(old(View()).db, Upper(goal), k) && !Unblocked(DoneKeys(View().db, Upper(goal)), k))
                && BestFirst(ready) && BestFirst(blocked)
      ensures found ==>
                && (forall i :: 0 <= i < |ready| ==> ready[i] in tasks)
                && (forall i, j :: 0 <= i < j < |ready| ==>
                      && tasks[ready[i]].spec.priority >= tasks[ready[j]].spec.priority
                      && (tasks[ready[i]].spec.priority == tasks[ready[j]].spec.priority ==> tasks[ready[i]].id <= tasks[ready[j]].id))
      ensures found ==> forall k :: k in ready && tasks[k].status == Backlog ==> IsReady(View().db, Upper(goal), k)
    {
      hide Next;
      found, ready, blocked := Upper(goal) in goals, [], [];
      if found {
        var keys := SelectBacklog(Upper(goal));
        RunEvolves(View(), others);
        Interleave(others);
        var done := set k | k in tasks && tasks[k].goal == Upper(goal) && tasks[k].status == Done;
        assert done == DoneKeys(View().db, Upper(goal));
        ready, blocked := SplitByBlockers(keys, done);
      }
    }

    // ---- the worker loop ---------------------------------------------------------------------------

    method ClaimUninterrupted(me: nat, key: string, account: int)
      requires me !in calls && Upper(key) == key && IsClaimable(View().db, key)
      modifies this
      ensures goals == old(goals) && calls.Keys == old(calls.Keys) + {me}
      ensures tasks == old(tasks)[key := TakenRow(old(tasks)[key], account, old(now))]
    {
      var r, sched := ClaimTask(me, key, account, _ => []);
    }

    /** Claim a claimable task and finish it, uninterrupted. */
    method WorkOne(me: nat, key: string, account: int)
      requires me !in calls && Upper(key) == key && IsClaimable(View().db, key)
      modifies this
      ensures goals == old(goals) && calls.Keys == old(calls.Keys) + {me}
      ensures tasks == old(tasks)[key := TakenRow(old(tasks)[key], account, old(now)).(status := Done)]
    {
      ClaimUninterrupted(me, key, account);
      UpdateStatus(key, Done);
    }

    ghost predicate IsFirst(goal: string, key: string)
      reads this
    {
      IsReady(View().db, goal, key) && forall k :: IsReady(View().db, goal, k) ==> Precedes(key, k)
    }

    /** The highest-priority ready task of a known goal, if any: what a worker picks up next. */
    method PickReady(goal: string) returns (pick: Option<string>)
      requires Upper(goal) in goals
      modifies this
      ensures View() == old(View())
      ensures pick.Some? ==> IsFirst(Upper(goal), pick.value)
      ensures pick.None? ==> NothingReady(View().db, Upper(goal))
    {
      ghost var db := View().db;
      var found, ready, blocked := ListWork(goal, []);
      assert forall k :: k in ready <==> IsReady(db, Upper(goal), k);
      if ready == [] {
        pick := None;
      } else {
        assert ready[0] in ready;
        pick := Some(ready[0]);
      }
    }

    /** A single worker draining a goal: list the ready work, claim the first, finish it, repeat until
        nothing is ready. Whatever state the goal's tasks are in, the loop ends, and what it leaves open
        is exactly the largest set of tasks that are stuck; so it finishes every task exactly when all
        open tasks were in the backlog with dependencies inside the goal and without a cycle. */
    method DrainGoal(goal: string, account: int, firstCall: nat) returns (found: bool)
      requires KeysUpper(View().db) && CallsBelow(View(), firstCall)
      modifies this
      ensures found <==> Upper(goal) in old(goals)
      ensures !found ==> View() == old(View())
      ensures found ==> Drained(old(View()).db, View().db, Upper(goal))
    {
      found := Upper(goal) in goals;
      if !found { return; }
      var me := firstCall;
      ghost var start := View().db;
      ghost var order: seq<string> := [];
      var pick := PickReady(goal);
      while pick.Some?
        invariant Upper(goal) in goals && CallsBelow(View(), me)
        invariant DrainOk(start, View().db, Upper(goal), order)
        invariant pick.Some? ==> IsFirst(Upper(goal), pick.value)
        invariant pick.None? ==> NothingReady(View().db, Upper(goal))
        decreases OpenKeys(View().db, Upper(goal))
      {
        DrainRound(me, pick.value, Upper(goal), account, start, order);
        order := order + [pick.value];
        me := me + 1;
        pick := PickReady(goal);
      }
      DrainEnd(start, View().db, Upper(goal), order);
    }

    /** Finish one ready task. */
    method DrainRound(me: nat, key: string, goal: string, account: int, ghost start: Db, ghost order: seq<string>)
      requires CallsBelow(View(), me) && IsReady(View().db, goal, key)
      requires DrainOk(start, View().db, goal, order)
      modifies this
      ensures goals == old(goals) && CallsBelow(View(), me + 1)
      ensures DrainOk(start, View().db, goal, order + [key])
      ensures OpenKeys(View().db, goal) < old(OpenKeys(View().db, goal))
    {
      hide Next;
      ghost var before := View().db;
      BlockedReadingsAgree(before, key);
      WorkOne(me, key, account);
      DrainStep(start, before, goal, order, key, tasks[key], View().db);
    }

    // ---- the sweeper --------------------------------------------------------------------------------

    method SweepNow(me: nat, ttl: int, failsAt: Option<nat>, gap: nat -> seq<Action>)
      returns (ghost sched: seq<Action>, ghost gaps: nat)
      requires CallsBelow(View(), me) && 0 < ttl && GapsBelow(gap, me)
      modifies this
      ensures View() == Run(old(View()), sched) && CallsBelow(View(), me + 1)
      ensures now == old(now) + GapTime(gap, gaps) && old(log) <= log
      ensures RoutedIn(gap) ==> AllRouted(sched)
      ensures failsAt != Some(0) ==> SweptAt(log, |old(log)|, ttl, old(now))
    {
      hide Next;
      ghost var start := View();
      var released;
      released, sched, gaps := ReleaseStaleClaims(me, ttl, failsAt, gap);
      RunElapses(start, sched, me + 1);
    }

    method Sleep(during: seq<Action>, bound: nat)
      requires CallsBelow(View(), bound) && UsesCallsBelow(during, bound)
      modifies this
      ensures View() == Run(old(View()), during) && CallsBelow(View(), bound)
      ensures now == old(now) + Elapsed(during) && old(log) <= log
    {
      RunElapses(View(), during, bound);
      Interleave(during);
    }

    /** One turn: a sweep, which may fail at any of its statements and lets others run between them, then
        the pause. */
    method SweeperTurn(me: nat, ttl: int, round: Round, ghost least: int, ghost most: int) returns (ghost sched: seq<Action>)
      requires CallsBelow(View(), me) && 0 < ttl && round.Timely(least, most, me)
      modifies this
      ensures View() == Run(old(View()), sched) && CallsBelow(View(), me + 1)
      ensures old(now) + least <= now <= old(now) + most && old(log) <= log
      ensures round.AllRoutedIn() ==> AllRouted(sched)
      ensures round.Releases() ==> SweptAt(log, |old(log)|, ttl, old(now))
    {
      hide Next;
      ghost var start := View();
      ghost var gaps;
      sched, gaps := SweepNow(me, ttl, round.failsAt, round.gap);
      RunAppend(start, sched, round.during);
      sched := sched + round.during;
      Sleep(round.during, me + 1);
    }

    /** `_stale_claim_sweeper`: sweep, log a failure and carry on, sleep at least five seconds, repeat.
        With a TTL of zero or less it never starts. Unless every update so far failed, the latest that came
        through is at most one round older than the run of failures since; so, whatever everybody else does
        meanwhile short of moving tasks to in-progress by hand, no task is in progress longer than the TTL
        and those rounds after its latest claim. `late` is what a sweep and its pause take beyond the
        interval. */
    method Sweeper(ttl: int, interval: int, late: nat, firstCall: nat, rounds: seq<Round>)
      returns (ghost sched: seq<Action>)
      requires CallsBelow(View(), firstCall) && AllTimely(rounds, Max(5, interval), Max(5, interval) + late, firstCall)
      modifies this
      ensures View() == Run(old(View()), sched)
      ensures ttl <= 0 ==> sched == []
      ensures ttl > 0 ==>
                SweptWell(View(), ttl, rounds, Max(5, interval) + late, old(LeaseInv(View())) && EveryoneRouted(rounds))
    {
      hide Next;
      sched := [];
      if ttl <= 0 { return; }
      ghost var start := View();
      ghost var pause := Max(5, interval) + late;
      var me := firstCall;
      ghost var last := 0;
      for i := 0 to |rounds|
        invariant View() == Run(start, sched) && firstCall <= me && CallsBelow(View(), me)
        invariant RecentlySwept(log, now, last, ttl, rounds[..i], pause)
        invariant EveryoneRouted(rounds) ==> AllRouted(sched)
      {
        ghost var before, since := log, now;
        TimelyLater(rounds[i], Max(5, interval), pause, firstCall, me);
        ghost var turn := SweeperTurn(me, ttl, rounds[i], Max(5, interval), pause);
        RecentlySweptNext(before, since, last, ttl, rounds, i, pause, log, now);
        if rounds[i].Releases() { last := |before|; }
        RunAppend(start, sched, turn);
        sched := sched + turn;
        me := me + 1;
      }
      assert rounds[..|rounds|] == rounds;
      SweeperEnd(start, sched, last, ttl, rounds, pause);
    }

    // ---- the submit endpoint --------------------------------------------------------------------------

    method StartSubmit(me: nat, key: string, account: int, others: seq<Action>)
      requires me !in calls && OthersOnly(others, me)
      modifies this
      ensures View() == Run(old(View()), [SubmitSelect(me, key, account)] + others)
      ensures me in calls
      ensures calls[me] == if Upper(key) !in old(tasks) then Failed(UnknownTask)
                           else if !MaySubmit(old(tasks)[Upper(key)], account) then Failed(OtherAssignee)
                           else SubmitChecked(Upper(key), account, |old(log)|)
      ensures forall k :: k in old(tasks) ==> k in tasks
      ensures others == [] ==> tasks == old(tasks)
    {
      RunCons(View(), SubmitSelect(me, key, account), others);
      SelectForSubmit(me, key, account);
      Gap(me, others);
    }

    method EndSubmit(me: nat, branch: string, prUrl: string)
      requires me in calls && calls[me].SubmitChecked? && calls[me].key in tasks
      modifies this
      ensures View() == Run(old(View()), [SubmitWrite(me, branch, prUrl)])
      ensures me in calls && calls[me] == Submitted(old(calls[me].key))
      ensures tasks == old(tasks)[old(calls[me].key) :=
                         old(tasks)[old(calls[me].key)].(status := InReview, branch := Some(branch), prUrl := Some(prUrl))]
    {
      RunOne(View(), [], SubmitWrite(me, branch, prUrl));
      assert [] + [SubmitWrite(me, branch, prUrl)] == [SubmitWrite(me, branch, prUrl)];
      UpdateSubmitted(me, branch, prUrl);
    }

    /** The REST submit: read the row and check its assignee, find the project, apply the diff elsewhere,
        then write. A refusal, a missing project (never so on a reachable board) or an unexpected error
        leaves every task as the others left it, and a diff that does not apply adds a note that says so;
        a delivered diff is always written, whoever holds the task by then. */
    method SubmitDiff(me: nat, key: string, account: int, others: seq<Action>, patch: Patch)
      returns (r: Result<()>)
      requires me !in calls && OthersOnly(others, me)
      modifies this
      ensures r == Err(UnknownTask) <==> Upper(key) !in old(tasks)
      ensures r == Err(OtherAssignee) <==> Upper(key) in old(tasks) && !MaySubmit(old(tasks)[Upper(key)], account)
      ensures var x := Run(old(View()), [SubmitSelect(me, key, account)] + others);
              if Upper(key) !in old(tasks) || !MaySubmit(old(tasks)[Upper(key)], account) then r.Err? && View() == x
              else if old(tasks)[Upper(key)].project !in x.db.projects then r == Err(NoProject) && View() == x
              else match patch
                   case Applied(branch, prUrl) => r == Ok(()) && View() == Run(x, [SubmitWrite(me, branch, prUrl)])
                   case Refused(message) =>
                     r == Err(PatchFailed) && View() == Next(x, AddNote(key, Some(account), Text("Submit failed: " + message)))
                   case Broken => r == Err(StatementFailed) && View() == x
      ensures old(KeysInv(View())) ==> r != Err(NoProject)
      ensures r.Ok? && others == [] ==>
                && patch.Applied?
                && tasks == old(tasks)[Upper(key) :=
                              old(tasks)[Upper(key)].(status := InReview, branch := Some(patch.branch), prUrl := Some(patch.prUrl))]
    {
      hide Next;
      ghost var start := View();
      var project := if Upper(key) in tasks then Some(tasks[Upper(key)].project) else None;
      StartSubmit(me, key, account, others);
      if calls[me].Failed? {
        return Err(calls[me].error);
      }
      if KeysInv(start) { ProjectStays(start, [SubmitSelect(me, key, account)] + others, Upper(key)); }
      if project.value !in projects {
        return Err(NoProject);
      }
      match patch
      case Applied(branch, prUrl) =>
        EndSubmit(me, branch, prUrl);
        r := Ok(());
      case Refused(message) =>
        InsertNote(key, Some(account), Text("Submit failed: " + message));
        r := Err(PatchFailed);
      case Broken =>
        r := Err(StatementFailed);
    }
  }
}
