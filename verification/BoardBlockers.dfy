/** Blockers: safety across the gap between check and claim, the three readings of "blocked",
    and the absence of dependency deadlock. */
module BoardBlockers {
  import opened Prelude
  import opened TaskKeys
  import opened BoardModel
  import opened BoardInvariants

  // ---- check then act ---------------------------------------------------------------

  predicate AllDone(db: Db, blockedBy: seq<string>) {
    forall b :: b in blockedBy ==> b in db.tasks && db.tasks[b].status == Done
  }

  predicate AllExist(db: Db, blockedBy: seq<string>) {
    forall b :: b in blockedBy ==> b in db.tasks
  }

  /** A step that reopens no finished task, and checks blockers only when they all exist. */
  ghost predicate Careful(w: World, a: Action) {
    && (forall k :: k in w.db.tasks && w.db.tasks[k].status == Done ==> Next(w, a).db.tasks[k].status == Done)
    && (a.ClaimCheck? && a.cid in w.calls && w.calls[a.cid].ClaimSelected? ==> AllExist(w.db, w.calls[a.cid].blockedBy))
  }

  ghost predicate CarefulAt(w: World, schedule: seq<Action>, i: nat)
    requires i < |schedule|
  {
    Careful(Run(w, schedule[..i]), schedule[i])
  }

  ghost predicate CarefulRun(w: World, schedule: seq<Action>) {
    forall i :: 0 <= i < |schedule| ==> CarefulAt(w, schedule, i)
  }

  lemma CarefulPrefix(w: World, schedule: seq<Action>)
    requires CarefulRun(w, schedule) && schedule != []
    ensures CarefulRun(w, schedule[..|schedule| - 1])
    ensures Careful(Run(w, schedule[..|schedule| - 1]), schedule[|schedule| - 1])
  {
    var s := schedule[..|schedule| - 1];
    forall i | 0 <= i < |s| ensures CarefulAt(w, s, i) {
      assert s[..i] == schedule[..i];
      assert CarefulAt(w, schedule, i);
    }
    assert CarefulAt(w, schedule, |s|);
  }

  /** Every claim past its check has all the blockers it remembers done. */
  ghost predicate CheckedInv(w: World) {
    RemembersInv(w) && forall c :: c in w.calls && w.calls[c].ClaimChecked? ==> AllDone(w.db, w.calls[c].blockedBy)
  }

  lemma NoneOpenAllDone(db: Db, blockedBy: seq<string>)
    ensures OpenBlockers(db, blockedBy) == {} && AllExist(db, blockedBy) <==> AllDone(db, blockedBy)
  {
    if OpenBlockers(db, blockedBy) == {} && AllExist(db, blockedBy) {
      forall b | b in blockedBy ensures db.tasks[b].status == Done {
        assert b !in OpenBlockers(db, blockedBy);
      }
    }
  }

  lemma AllDoneStable(w: World, v: World, blockedBy: seq<string>)
    requires Evolves(w, v) && AllDone(w.db, blockedBy)
    requires forall k :: k in w.db.tasks && w.db.tasks[k].status == Done ==> v.db.tasks[k].status == Done
    ensures AllDone(v.db, blockedBy)
  {
  }

  lemma CheckedNext(w: World, a: Action, c: nat)
    requires CheckedInv(w) && Careful(w, a) && c in Next(w, a).calls && Next(w, a).calls[c].ClaimChecked?
    ensures AllDone(Next(w, a).db, Next(w, a).calls[c].blockedBy)
  {
    var v := Next(w, a);
    NextEvolves(w, a);
    CheckMoves(w, a, c);
    NoneOpenAllDone(w.db, v.calls[c].blockedBy);
    AllDoneStable(w, v, v.calls[c].blockedBy);
  }

  lemma {:induction false} CheckedRun(now: int, schedule: seq<Action>)
    requires CarefulRun(Start(now), schedule)
    ensures CheckedInv(Run(Start(now), schedule))
    decreases |schedule|
  {
    hide Next;
    if schedule != [] {
      var s := schedule[..|schedule| - 1];
      CarefulPrefix(Start(now), schedule);
      CheckedRun(now, s);
      CheckedNextAll(Run(Start(now), s), schedule[|s|]);
    }
  }

  lemma CheckedNextAll(w: World, a: Action)
    requires CheckedInv(w) && Careful(w, a)
    ensures CheckedInv(Next(w, a))
  {
    RemembersNext(w, a);
    forall c | c in Next(w, a).calls && Next(w, a).calls[c].ClaimChecked?
      ensures AllDone(Next(w, a).db, Next(w, a).calls[c].blockedBy)
    {
      CheckedNext(w, a, c);
    }
  }

  /** Blocker safety. The check and the claiming update are separate statements, yet over any careful
      schedule every successful update happens in a state where all blockers of the task are done. */
  lemma {:induction false} ClaimedOnlyWhenUnblocked(now: int, schedule: seq<Action>, c: nat)
    requires CarefulRun(Start(now), schedule)
    requires var w := Run(Start(now), schedule);
             c in w.calls && w.calls[c].ClaimChecked? && Next(w, ClaimUpdate(c)).calls[c].ClaimTaken?
    ensures var w := Run(Start(now), schedule);
            && w.calls[c].key in w.db.tasks
            && AllDone(w.db, w.db.tasks[w.calls[c].key].spec.blockedBy)
  {
    CheckedRun(now, schedule);
  }

  /** Both halves of carefulness are needed. A checked claim still succeeds after a finished blocker
      is released back to the backlog ... */
  lemma ReopenedBlockerIsMissed(w: World, c: nat, blocker: string)
    requires c in w.calls && w.calls[c].ClaimChecked? && blocker in w.calls[c].blockedBy && blocker != w.calls[c].key
    requires w.calls[c].key in w.db.tasks && w.db.tasks[w.calls[c].key].status == Backlog
    requires Upper(blocker) == blocker && blocker in w.db.tasks && w.db.tasks[blocker].status == Done
    ensures var v := Next(Next(w, SetStatus(blocker, Backlog)), ClaimUpdate(c));
            && c in v.calls && v.calls[c].ClaimTaken?
            && blocker in v.db.tasks && v.db.tasks[blocker].status == Backlog
  {
    var x := Next(w, SetStatus(blocker, Backlog));
    assert x.calls == w.calls;
  }

  /** ... and after a blocker that did not exist at the check is created, open, in between. */
  lemma LateBlockerIsMissed(w: World, c: nat, d: nat)
    requires c in w.calls && w.calls[c].ClaimChecked? && w.calls[c].key in w.db.tasks && w.db.tasks[w.calls[c].key].status == Backlog
    requires d in w.calls && w.calls[d].Numbered? && w.calls[d].project in w.db.projects
    requires var blocker := TaskKey(w.db.projects[w.calls[d].project].key, w.calls[d].number);
             blocker in w.calls[c].blockedBy && blocker !in w.db.tasks
    ensures var v := Next(Next(w, CreateInsert(d)), ClaimUpdate(c));
            var blocker := TaskKey(w.db.projects[w.calls[d].project].key, w.calls[d].number);
            && c in v.calls && v.calls[c].ClaimTaken?
            && w.calls[c].key in v.db.tasks && v.db.tasks[w.calls[c].key].status == InProgress
            && v.db.tasks[w.calls[c].key].spec == w.db.tasks[w.calls[c].key].spec
            && blocker in v.db.tasks && v.db.tasks[blocker].status == Backlog
  {
    var x := Next(w, CreateInsert(d));
    assert c in x.calls && x.calls[c] == w.calls[c];
    assert x.db.tasks[w.calls[c].key] == w.db.tasks[w.calls[c].key];
  }

  // ---- exactly when a claim is safe -----------------------------------------------------

  predicate IsDone(db: Db, key: string) {
    key in db.tasks && db.tasks[key].status == Done
  }

  /** The statement marks the task done. */
  predicate Finishes(w: World, a: Action, key: string) {
    a.SetStatus? && a.status == Done && Upper(a.key) == key && key in w.db.tasks
  }

  /** The statement overwrites the task's status with something other than done, whatever it was. */
  predicate Overwrites(w: World, a: Action, key: string) {
    || (a.SetStatus? && a.status != Done && Upper(a.key) == key)
    || (a.SubmitTask? && Upper(a.key) == key)
    || (a.SubmitWrite? && a.cid in w.calls && w.calls[a.cid].SubmitChecked? && w.calls[a.cid].key == key)
  }

  lemma DoneNext(w: World, a: Action, key: string)
    ensures IsDone(Next(w, a).db, key) <==> Finishes(w, a, key) || (IsDone(w.db, key) && !Overwrites(w, a, key))
  {
    if !WritesTasks(a) { OthersKeepTasks(w, a); }
  }

  /** The last status statement on the task in a schedule: whether it was a finish, if there was one. */
  function LastWord(w: World, schedule: seq<Action>, key: string): Option<bool> {
    if schedule == [] then None
    else
      var before, a := schedule[..|schedule| - 1], schedule[|schedule| - 1];
      if Finishes(Run(w, before), a, key) then Some(true)
      else if Overwrites(Run(w, before), a, key) then Some(false)
      else LastWord(w, before, key)
  }

  /** A blocker counts as met after the gap: the last status statement on it finished it, or there was
      none and it existed when the gap began. */
  predicate MetAfter(w: World, gap: seq<Action>, key: string) {
    match LastWord(w, gap, key)
    case Some(finished) => finished
    case None => key in w.db.tasks
  }

  lemma {:induction false} DoneAfter(w: World, schedule: seq<Action>, key: string)
    ensures IsDone(Run(w, schedule).db, key) <==>
            match LastWord(w, schedule, key) case Some(finished) => finished case None => IsDone(w.db, key)
    decreases |schedule|
  {
    if schedule != [] {
      var before, a := schedule[..|schedule| - 1], schedule[|schedule| - 1];
      DoneAfter(w, before, key);
      DoneNext(Run(w, before), a, key);
    }
  }

  /** With no hypothesis on the schedule: a claim that passed its blocker check and comes to its update
      after `gap` finds all blockers of its task done exactly when each blocker either was finished by the
      last status statement on it in the gap, or met none there and existed at the check. */
  lemma {:induction false} ClaimIsSafeExactlyWhen(now: int, before: seq<Action>, c: nat, gap: seq<Action>)
    requires var w := Run(Start(now), before);
             c in w.calls && w.calls[c].ClaimSelected? && OpenBlockers(w.db, w.calls[c].blockedBy) == {}
    ensures var w := Run(Start(now), before);
            var key := w.calls[c].key;
            var x := Next(w, ClaimCheck(c));
            var v := Run(x, gap);
            && x.calls[c] == ClaimChecked(key, w.calls[c].account, w.calls[c].blockedBy)
            && key in v.db.tasks
            && (AllDone(v.db, v.db.tasks[key].spec.blockedBy) <==> forall b :: b in w.calls[c].blockedBy ==> MetAfter(x, gap, b))
  {
    var w := Run(Start(now), before);
    HolderRun(now, before);
    GapIsSafeExactlyWhen(w, c, gap);
  }

  lemma GapIsSafeExactlyWhen(w: World, c: nat, gap: seq<Action>)
    requires RemembersInv(w) && c in w.calls && w.calls[c].ClaimSelected? && OpenBlockers(w.db, w.calls[c].blockedBy) == {}
    ensures var key := w.calls[c].key;
            var x := Next(w, ClaimCheck(c));
            var v := Run(x, gap);
            && x.calls[c] == ClaimChecked(key, w.calls[c].account, w.calls[c].blockedBy)
            && key in v.db.tasks
            && (AllDone(v.db, v.db.tasks[key].spec.blockedBy) <==> forall b :: b in w.calls[c].blockedBy ==> MetAfter(x, gap, b))
  {
    var x := Next(w, ClaimCheck(c));
    var v := Run(x, gap);
    RunEvolves(x, gap);
    assert x.db == w.db && v.db.tasks[w.calls[c].key].spec.blockedBy == w.calls[c].blockedBy;
    forall b | b in w.calls[c].blockedBy ensures IsDone(v.db, b) <==> MetAfter(x, gap, b) {
      DoneAfter(x, gap, b);
      assert b !in OpenBlockers(w.db, w.calls[c].blockedBy);
    }
    assert AllDone(v.db, w.calls[c].blockedBy) <==> forall b :: b in w.calls[c].blockedBy ==> IsDone(v.db, b);
  }

  // ---- three readings of "blocked" -----------------------------------------------------

  /** `list_work`: finished tasks of the goal, and the backlog tasks whose blockers are all among them. */
  function DoneKeys(db: Db, goal: string): set<string> {
    set k | k in db.tasks && db.tasks[k].goal == goal && db.tasks[k].status == Done
  }

  predicate IsReady(db: Db, goal: string, key: string) {
    && key in db.tasks && db.tasks[key].goal == goal && db.tasks[key].status == Backlog
    && forall b :: b in db.tasks[key].spec.blockedBy ==> b in DoneKeys(db, goal)
  }

  /** The board page: blockers not among the finished tasks of any goal. */
  function Unmet(db: Db, key: string): set<string>
    requires key in db.tasks
  {
    set b | b in db.tasks[key].spec.blockedBy && !(b in db.tasks && db.tasks[b].status == Done)
  }

  /** `claim_task`: only blockers that exist and are not finished stand in the way. */
  predicate IsClaimable(db: Db, key: string) {
    && key in db.tasks && db.tasks[key].status == Backlog
    && OpenBlockers(db, db.tasks[key].spec.blockedBy) == {}
  }

  predicate BlockersInGoal(db: Db, key: string)
    requires key in db.tasks
  {
    forall b :: b in db.tasks[key].spec.blockedBy ==> b in db.tasks && db.tasks[b].goal == db.tasks[key].goal
  }

  /** The three form a chain, and each link's slack is exactly what blockers the reading can see. */
  lemma BlockedReadingsAgree(db: Db, key: string)
    requires key in db.tasks && db.tasks[key].status == Backlog
    ensures var ready := IsReady(db, db.tasks[key].goal, key);
            var shown := Unmet(db, key) == {};
            var claimable := IsClaimable(db, key);
            && (ready ==> shown) && (shown ==> claimable)
            && (ready <==> claimable && BlockersInGoal(db, key))
            && (shown <==> claimable && AllExist(db, db.tasks[key].spec.blockedBy))
  {
    var row := db.tasks[key];
    NoneOpenAllDone(db, row.spec.blockedBy);
    if Unmet(db, key) == {} {
      forall b | b in row.spec.blockedBy ensures b in db.tasks && db.tasks[b].status == Done {
        assert b !in Unmet(db, key);
      }
    }
  }

  // ---- no dependency deadlock ------------------------------------------------------------

  /** Every blocker is an earlier task of the same goal. */
  ghost predicate BackwardBlockers(db: Db) {
    && (forall k :: k in db.tasks ==> db.tasks[k].id < db.nextId)
    && (forall k, b :: k in db.tasks && b in db.tasks[k].spec.blockedBy ==>
          b in db.tasks && db.tasks[b].goal == db.tasks[k].goal && db.tasks[b].id < db.tasks[k].id)
  }

  /** An insert names only tasks of the goal that already exist. */
  predicate NamesEarlier(w: World, a: Action) {
    a.CreateInsert? && a.cid in w.calls && w.calls[a.cid].Numbered? ==>
      forall b :: b in w.calls[a.cid].spec.blockedBy ==> b in w.db.tasks && w.db.tasks[b].goal == w.calls[a.cid].goal
  }

  ghost predicate NamesEarlierAt(w: World, schedule: seq<Action>, i: nat)
    requires i < |schedule|
  {
    NamesEarlier(Run(w, schedule[..i]), schedule[i])
  }

  ghost predicate NamesEarlierRun(w: World, schedule: seq<Action>) {
    forall i :: 0 <= i < |schedule| ==> NamesEarlierAt(w, schedule, i)
  }

  lemma {:induction false} BackwardNext(w: World, a: Action)
    requires BackwardBlockers(w.db) && NamesEarlier(w, a)
    ensures BackwardBlockers(Next(w, a).db)
  {
    hide Next;
    NextEvolves(w, a);
    NewRows(w, a);
    BackwardGrows(w, Next(w, a));
  }

  lemma BackwardGrows(w: World, v: World)
    requires BackwardBlockers(w.db) && Evolves(w, v) && w.db.nextId <= v.db.nextId
    requires forall k :: k in v.db.tasks && k !in w.db.tasks ==>
               && v.db.tasks[k].id == w.db.nextId < v.db.nextId
               && forall b :: b in v.db.tasks[k].spec.blockedBy ==> b in w.db.tasks && w.db.tasks[b].goal == v.db.tasks[k].goal
    ensures BackwardBlockers(v.db)
  {
    forall k, b | k in v.db.tasks && b in v.db.tasks[k].spec.blockedBy
      ensures b in v.db.tasks && v.db.tasks[b].goal == v.db.tasks[k].goal && v.db.tasks[b].id < v.db.tasks[k].id
    {
      assert b in w.db.tasks;
    }
  }

  lemma NewRows(w: World, a: Action)
    ensures var v := Next(w, a);
            && w.db.nextId <= v.db.nextId
            && forall k :: k in v.db.tasks && k !in w.db.tasks ==>
                 && a.CreateInsert? && a.cid in w.calls && w.calls[a.cid].Numbered?
                 && v.db.tasks[k] == NewRow(w.db.nextId, w.calls[a.cid]) && v.db.nextId == w.db.nextId + 1
  {
    if !WritesTasks(a) { OthersKeepTasks(w, a); }
  }

  lemma NamesEarlierPrefix(w: World, schedule: seq<Action>)
    requires NamesEarlierRun(w, schedule) && schedule != []
    ensures NamesEarlierRun(w, schedule[..|schedule| - 1])
    ensures NamesEarlier(Run(w, schedule[..|schedule| - 1]), schedule[|schedule| - 1])
  {
    var s := schedule[..|schedule| - 1];
    forall i | 0 <= i < |s| ensures NamesEarlierAt(w, s, i) {
      assert s[..i] == schedule[..i];
      assert NamesEarlierAt(w, schedule, i);
    }
    assert NamesEarlierAt(w, schedule, |s|);
  }

  lemma {:induction false} BackwardRun(now: int, schedule: seq<Action>)
    requires NamesEarlierRun(Start(now), schedule)
    ensures BackwardBlockers(Run(Start(now), schedule).db)
    decreases |schedule|
  {
    hide Next;
    if schedule != [] {
      var s := schedule[..|schedule| - 1];
      NamesEarlierPrefix(Start(now), schedule);
      BackwardRun(now, s);
      BackwardNext(Run(Start(now), s), schedule[|s|]);
    }
  }

  /** Open tasks of a goal. */
  function OpenKeys(db: Db, goal: string): set<string> {
    set k | k in db.tasks && db.tasks[k].goal == goal && db.tasks[k].status != Done
  }

  /** A rank under which every open task waits only for finished or lower-ranked tasks of its goal. */
  ghost predicate Ranks(db: Db, goal: string, rank: map<string, nat>) {
    forall k :: k in OpenKeys(db, goal) ==>
      && k in rank
      && forall b :: b in db.tasks[k].spec.blockedBy ==>
           b in DoneKeys(db, goal) || (b in OpenKeys(db, goal) && b in rank && rank[b] < rank[k])
  }

  /** Backward blockers are ranked by creation order. */
  lemma BackwardIsRanked(db: Db, goal: string)
    requires BackwardBlockers(db)
    ensures Ranks(db, goal, map k | k in db.tasks :: db.tasks[k].id)
  {
  }

  lemma {:induction false} LowestRank(s: set<string>, rank: map<string, nat>) returns (k: string)
    requires s != {} && forall x :: x in s ==> x in rank
    ensures k in s && forall x :: x in s ==> rank[k] <= rank[x]
    decreases s
  {
    k :| k in s;
    if s != {k} {
      var j := LowestRank(s - {k}, rank);
      if rank[j] < rank[k] { k := j; }
    }
  }

  /** No deadlock: in a ranked goal with open tasks, some open task has all its blockers finished. */
  lemma SomeTaskIsUnblocked(db: Db, goal: string, rank: map<string, nat>) returns (key: string)
    requires Ranks(db, goal, rank) && OpenKeys(db, goal) != {}
    ensures key in OpenKeys(db, goal) && forall b :: b in db.tasks[key].spec.blockedBy ==> b in DoneKeys(db, goal)
  {
    key := LowestRank(OpenKeys(db, goal), rank);
  }

  /** Over any schedule whose inserts name only existing tasks of the goal, an unfinished goal always
      has an open task with every blocker done. */
  lemma {:induction false} NeverDeadlocked(now: int, schedule: seq<Action>, goal: string) returns (key: string)
    requires NamesEarlierRun(Start(now), schedule)
    requires OpenKeys(Run(Start(now), schedule).db, goal) != {}
    ensures var db := Run(Start(now), schedule).db;
            key in OpenKeys(db, goal) && AllDone(db, db.tasks[key].spec.blockedBy)
  {
    var db := Run(Start(now), schedule).db;
    BackwardRun(now, schedule);
    BackwardIsRanked(db, goal);
    key := SomeTaskIsUnblocked(db, goal, map k | k in db.tasks :: db.tasks[k].id);
  }
}
