/** Schedules on which the board does less than its callers may expect. */
module BoardScenarios {
  import opened Prelude
  import opened TaskKeys
  import opened BoardModel
  import opened BoardHistory
  import opened BoardInvariants
  import opened BoardConflicts
  import opened BoardSubmit
  import opened BoardBlockers

  /** Releasing a task and claiming it for somebody else, then the pending submit's write. */
  function Steal(key: string, c: nat, d: nat, other: int, branch: string, prUrl: string): seq<Action> {
    [SetStatus(key, Backlog), ClaimSelect(d, key, other), ClaimCheck(d), ClaimUpdate(d), SubmitWrite(c, branch, prUrl)]
  }

  /** From every reachable state with a checked submit: if the task is released and somebody else claims
      it, the submit still lands; and it lands on that other account's claim exactly when the task had no
      open blockers after the release. */
  lemma {:induction false} SubmitOverAnothersClaim(
    now: int, before: seq<Action>, c: nat, d: nat, other: int, branch: string, prUrl: string)
    requires var w := Run(Start(now), before);
             && c in w.calls && w.calls[c].SubmitChecked? && d !in w.calls
             && w.calls[c].account != other
    ensures var w := Run(Start(now), before);
            var key := w.calls[c].key;
            var v := Run(w, Steal(key, c, d, other, branch, prUrl));
            && key in w.db.tasks && key in v.db.tasks
            && v.db.tasks[key].status == InReview && v.db.tasks[key].branch == Some(branch)
            && c in v.calls && v.calls[c] == Submitted(key)
            && (v.db.tasks[key].assignee == Some(other)
                <==> OpenBlockers(Next(w, SetStatus(key, Backlog)).db, w.db.tasks[key].spec.blockedBy) == {})
  {
    hide Next;
    var w := Run(Start(now), before);
    KeysRun(now, before);
    SubmitRun(Start(now), before);
    assert SubmitOk(w, w.calls[c]);
    StoredKeysUpper(w, w.calls[c].key);
    StealRuns(w, c, d, other, branch, prUrl);
  }

  lemma RunFour(w: World, a: Action, b: Action, c: Action, d: Action)
    ensures Run(w, [a, b, c, d]) == Next(Next(Next(Next(w, a), b), c), d)
  {
    hide Next;
    RunOne(w, [], a);
    RunOne(w, [a], b);
    RunOne(w, [a, b], c);
    RunOne(w, [a, b, c], d);
    assert [] + [a] == [a] && [a] + [b] == [a, b] && [a, b] + [c] == [a, b, c] && [a, b, c] + [d] == [a, b, c, d];
  }

  lemma StealRelease(w: World, key: string)
    requires key in w.db.tasks && Upper(key) == key
    ensures var v := Next(w, SetStatus(key, Backlog));
            v.calls == w.calls && v.db == w.db.(tasks := w.db.tasks[key := Restatus(w.db.tasks[key], Backlog)])
  {
  }

  /** An uninterrupted claim of a waiting task is granted exactly if no blocker is open. */
  lemma StealClaim(w: World, d: nat, key: string, other: int)
    requires d !in w.calls && key in w.db.tasks && Upper(key) == key && w.db.tasks[key].status == Backlog
    ensures var v := Next(Next(Next(w, ClaimSelect(d, key, other)), ClaimCheck(d)), ClaimUpdate(d));
            && (forall c :: c in w.calls ==> c in v.calls && v.calls[c] == w.calls[c])
            && v.db.tasks == (if OpenBlockers(w.db, w.db.tasks[key].spec.blockedBy) == {}
                              then w.db.tasks[key := TakenRow(w.db.tasks[key], other, w.db.now)] else w.db.tasks)
  {
    var u := Next(w, ClaimSelect(d, key, other));
    assert u.db == w.db;
    if w.db.tasks[key].spec.blockedBy == [] {
      assert OpenBlockers(w.db, []) == {};
    }
    var x := Next(u, ClaimCheck(d));
    assert x.db == w.db;
  }

  lemma StealWrite(w: World, c: nat, branch: string, prUrl: string)
    requires c in w.calls && w.calls[c].SubmitChecked? && w.calls[c].key in w.db.tasks
    ensures var key := w.calls[c].key;
            var v := Next(w, SubmitWrite(c, branch, prUrl));
            && v.db.tasks == w.db.tasks[key := w.db.tasks[key].(status := InReview, branch := Some(branch), prUrl := Some(prUrl))]
            && v.calls == w.calls[c := Submitted(key)]
  {
  }

  lemma StealRuns(w: World, c: nat, d: nat, other: int, branch: string, prUrl: string)
    requires c in w.calls && w.calls[c].SubmitChecked? && d !in w.calls
    requires w.calls[c].key in w.db.tasks && Upper(w.calls[c].key) == w.calls[c].key
    ensures var key := w.calls[c].key;
            var v := Run(w, Steal(key, c, d, other, branch, prUrl));
            && key in v.db.tasks
            && v.db.tasks[key].status == InReview && v.db.tasks[key].branch == Some(branch)
            && c in v.calls && v.calls[c] == Submitted(key)
            && (v.db.tasks[key].assignee == Some(other)
                <==> OpenBlockers(Next(w, SetStatus(key, Backlog)).db, w.db.tasks[key].spec.blockedBy) == {})
  {
    hide Next;
    var key := w.calls[c].key;
    var four := [SetStatus(key, Backlog), ClaimSelect(d, key, other), ClaimCheck(d), ClaimUpdate(d)];
    assert Steal(key, c, d, other, branch, prUrl) == four + [SubmitWrite(c, branch, prUrl)];
    RunOne(w, four, SubmitWrite(c, branch, prUrl));
    RunFour(w, four[0], four[1], four[2], four[3]);
    StealRelease(w, key);
    StealClaim(Next(w, SetStatus(key, Backlog)), d, key, other);
    StealWrite(Run(w, four), c, branch, prUrl);
  }

  /** In progress without a claim time. */
  predicate HandStarted(db: Db, key: string) {
    key in db.tasks && db.tasks[key].status == InProgress && db.tasks[key].claimedAt == None
  }

  /** No statement of the schedule sets the task's status: none submits it or changes it by hand. */
  predicate LeftAlone(w: World, schedule: seq<Action>, key: string) {
    schedule == []
    || (var before, a := schedule[..|schedule| - 1], schedule[|schedule| - 1];
        LeftAlone(w, before, key) && !Finishes(Run(w, before), a, key) && !Overwrites(Run(w, before), a, key))
  }

  lemma HandStartedNext(w: World, a: Action, key: string)
    requires HandStarted(w.db, key) && !Finishes(w, a, key) && !Overwrites(w, a, key)
    ensures HandStarted(Next(w, a).db, key)
  {
    if !WritesTasks(a) { OthersKeepTasks(w, a); }
  }

  lemma {:induction false} HandStartedRun(w: World, schedule: seq<Action>, key: string)
    requires HandStarted(w.db, key) && LeftAlone(w, schedule, key)
    ensures HandStarted(Run(w, schedule).db, key)
    decreases |schedule|
  {
    hide Next;
    if schedule != [] {
      var before := schedule[..|schedule| - 1];
      HandStartedRun(w, before, key);
      HandStartedNext(Run(w, before), schedule[|before|], key);
    }
  }

  /** Why the lease bound asks that nobody starts a task by hand: with no claim time, it stays in progress
      over any schedule that leaves its status alone, however long and with however many sweeps. */
  lemma {:induction false} HandStartedIsNeverSwept(w: World, key: string, schedule: seq<Action>, ttl: int)
    requires Upper(key) == key && key in w.db.tasks && w.db.tasks[key].claimedAt == None
    requires LeftAlone(Next(w, SetStatus(key, InProgress)), schedule, key)
    ensures var v := Run(Next(w, SetStatus(key, InProgress)), schedule);
            key in v.db.tasks && v.db.tasks[key].status == InProgress && key !in Stale(v.db, ttl)
  {
    var v := Next(w, SetStatus(key, InProgress));
    assert v.db.tasks[key] == Restatus(w.db.tasks[key], InProgress);
    HandStartedRun(v, schedule, key);
  }

  // ---- a claim in front of an open blocker, from an empty board -----------------------------

  const FREE := TaskSpec(2, [], [])

  /** Task 1 is created naming a task 2 that does not exist yet; task 2 gets its number. */
  function Setup(): seq<Action> {
    [AddProject(1, "P"), AddGoal("G", 1),
     CreateSelectGoal(0, "G", TaskSpec(2, [], [TaskKey("P", 2)])), CreateBumpSeq(0), CreateInsert(0),
     CreateSelectGoal(1, "G", FREE), CreateBumpSeq(1)]
  }

  /** A claim of task 1 checks its blockers, task 2 is inserted, the claim is granted. */
  function Race(): seq<Action> {
    [ClaimSelect(2, TaskKey("P", 1), 7), ClaimCheck(2), CreateInsert(1), ClaimUpdate(2)]
  }

  function FirstRow(): Task {
    Task(0, 1, "G", TaskSpec(2, [], [TaskKey("P", 2)]), Backlog, None, None, None, None)
  }

  function Board(seqNo: nat, now: int): Db {
    Db(map[1 := Project("P", seqNo)], map["G" := 1], map[TaskKey("P", 1) := FirstRow()], 1, [], now)
  }

  function Ready(now: int): World {
    World(Board(2, now), map[0 := Created(TaskKey("P", 1)), 1 := Numbered("G", 1, 2, FREE)], [])
  }

  lemma UpperLetters()
    ensures Upper("P") == "P" && Upper("G") == "G"
    ensures Upper(TaskKey("P", 1)) == TaskKey("P", 1) && Upper(TaskKey("P", 2)) == TaskKey("P", 2)
    ensures TaskKey("P", 1) != TaskKey("P", 2)
  {
    TaskKeyUpper("P", 1);
    TaskKeyUpper("P", 2);
    if TaskKey("P", 1) == TaskKey("P", 2) { TaskKeyInjective("P", 1, "P", 2); }
  }

  /** The first two statements give the project and its goal. */
  lemma SetupGoal(now: int)
    ensures Run(Start(now), Setup()[..2]) == World(Db(map[1 := Project("P", 0)], map["G" := 1], map[], 0, [], now), map[], [])
  {
    UpperLetters();
    assert Setup()[..0] == [];
    RunSnoc(Start(now), Setup(), 0);
    RunSnoc(Start(now), Setup(), 1);
  }

  lemma SetupCall(now: int)
    ensures Run(Start(now), Setup()[..3]) ==
            World(Db(map[1 := Project("P", 0)], map["G" := 1], map[], 0, [], now),
                  map[0 := Creating("G", 1, FirstRow().spec)], [])
  {
    UpperLetters();
    SetupGoal(now);
    RunSnoc(Start(now), Setup(), 2);
    assert Stored(FirstRow().spec).blockedBy == FirstRow().spec.blockedBy;
  }

  lemma SetupNumber(now: int)
    ensures Run(Start(now), Setup()[..4]) ==
            World(Db(map[1 := Project("P", 1)], map["G" := 1], map[], 0, [], now),
                  map[0 := Numbered("G", 1, 1, FirstRow().spec)], [])
  {
    SetupCall(now);
    RunSnoc(Start(now), Setup(), 3);
    assert Setup()[3] == CreateBumpSeq(0);
  }

  lemma SetupFirst(now: int)
    ensures Run(Start(now), Setup()[..5]) == World(Board(1, now), map[0 := Created(TaskKey("P", 1))], [])
  {
    SetupNumber(now);
    RunSnoc(Start(now), Setup(), 4);
    assert Setup()[4] == CreateInsert(0);
  }

  lemma SetupSecond(now: int)
    ensures Run(Start(now), Setup()[..6]) ==
            World(Board(1, now), map[0 := Created(TaskKey("P", 1)), 1 := Creating("G", 1, FREE)], [])
  {
    UpperLetters();
    SetupFirst(now);
    RunSnoc(Start(now), Setup(), 5);
    assert Setup()[5] == CreateSelectGoal(1, "G", FREE);
    assert Stored(FREE) == FREE;
  }

  lemma SetupDone(now: int)
    ensures Run(Start(now), Setup()) == Ready(now)
  {
    SetupSecond(now);
    RunSnoc(Start(now), Setup(), 6);
    assert Setup()[6] == CreateBumpSeq(1);
    assert Setup()[..7] == Setup();
  }

  /** The claim passes its check: its blocker does not exist yet. */
  lemma RaceChecked(now: int)
    ensures Next(Next(Ready(now), ClaimSelect(2, TaskKey("P", 1), 7)), ClaimCheck(2)) ==
            Ready(now).(calls := Ready(now).calls[2 := ClaimChecked(TaskKey("P", 1), 7, [TaskKey("P", 2)])])
  {
    UpperLetters();
    assert OpenBlockers(Ready(now).db, [TaskKey("P", 2)]) == {};
  }

  /** From an empty board, eleven statements end with a task in progress whose blocker is still in the backlog. */
  lemma ClaimedInFrontOfOpenBlocker(now: int)
    ensures var v := Run(Start(now), Setup() + Race());
            && TaskKey("P", 1) in v.db.tasks && v.db.tasks[TaskKey("P", 1)].status == InProgress
            && v.db.tasks[TaskKey("P", 1)].spec.blockedBy == [TaskKey("P", 2)]
            && TaskKey("P", 2) in v.db.tasks && v.db.tasks[TaskKey("P", 2)].status == Backlog
  {
    hide Next;
    UpperLetters();
    SetupDone(now);
    RunAppend(Start(now), Setup(), Race());
    RunFour(Ready(now), ClaimSelect(2, TaskKey("P", 1), 7), ClaimCheck(2), CreateInsert(1), ClaimUpdate(2));
    RaceChecked(now);
    LateBlockerIsMissed(Next(Next(Ready(now), ClaimSelect(2, TaskKey("P", 1), 7)), ClaimCheck(2)), 2, 1);
  }

  /** From an empty board, an account that claimed nothing posts that it claimed task 2 over task 1: the
      note is stored like a claim's, and nothing it says was ever so. */
  lemma ForgedNote(now: int)
    ensures var n := Note(TaskKey("P", 1), Some(7), ClaimedOver(TaskKey("P", 2)));
            var s := Setup() + [AddNote(TaskKey("P", 1), Some(7), ClaimedOver(TaskKey("P", 2)))];
            n in Run(Start(now), s).db.notes && !WasSo(Start(now), s, n)
  {
    hide Next;
    UpperLetters();
    SetupDone(now);
    assert !ClaimedSince(Ready(now).log, 0, TaskKey("P", 2), 7);
    ForgeriesAreStored(now, Setup(), TaskKey("P", 1), 7, TaskKey("P", 2));
  }
}
