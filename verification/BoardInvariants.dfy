/** What every reachable board satisfies: unique task keys, exclusive claims, bounded leases. */
module BoardInvariants {
  import opened Prelude
  import opened TaskKeys
  import opened BoardModel
  import opened BoardHistory

  // ---- task keys ----------------------------------------------------------------

  /** `key` carries a number that the project has already handed out. */
  ghost predicate Drawn(p: Project, key: string) {
    exists n: nat :: 1 <= n <= p.taskSeq && key == TaskKey(p.key, n)
  }

  ghost predicate ProjectsInv(db: Db) {
    && (forall p :: p in db.projects ==> Upper(db.projects[p].key) == db.projects[p].key)
    && (forall p, q :: p in db.projects && q in db.projects && db.projects[p].key == db.projects[q].key ==> p == q)
    && (forall g :: g in db.goals ==> db.goals[g] in db.projects)
  }

  ghost predicate TasksInv(db: Db) {
    && (forall k :: k in db.tasks ==> db.tasks[k].project in db.projects && Drawn(db.projects[db.tasks[k].project], k))
    && (forall k :: k in db.tasks ==> db.tasks[k].id < db.nextId)
    && (forall k, j :: k in db.tasks && j in db.tasks && db.tasks[k].id == db.tasks[j].id ==> k == j)
  }

  /** The key a numbered call is about to insert. */
  function PendingKey(db: Db, c: Call): string
    requires c.Numbered? && c.project in db.projects
  {
    TaskKey(db.projects[c.project].key, c.number)
  }

  /** A call that has drawn a number is the only one holding it, and no row uses it yet. */
  ghost predicate NumbersInv(db: Db, calls: map<nat, Call>) {
    && (forall c :: c in calls && calls[c].Creating? ==> calls[c].project in db.projects)
    && (forall c :: c in calls && calls[c].Numbered? ==>
          && calls[c].project in db.projects
          && 1 <= calls[c].number <= db.projects[calls[c].project].taskSeq
          && PendingKey(db, calls[c]) !in db.tasks)
    && (forall c, d :: c in calls && d in calls && calls[c].Numbered? && calls[d].Numbered? && c != d ==>
          !(calls[c].project == calls[d].project && calls[c].number == calls[d].number))
    && (forall c :: c in calls ==> calls[c] != Failed(DuplicateKey))
  }

  ghost predicate KeysInv(w: World) {
    ProjectsInv(w.db) && TasksInv(w.db) && NumbersInv(w.db, w.calls)
  }

  /** The key space of `v` is that of `w`: only goals may have been added, and calls moved on. */
  ghost predicate SameKeySpace(w: World, v: World) {
    && v.db.projects == w.db.projects && v.db.nextId == w.db.nextId
    && v.db.tasks.Keys == w.db.tasks.Keys
    && (forall k :: k in v.db.tasks ==> v.db.tasks[k].id == w.db.tasks[k].id && v.db.tasks[k].project == w.db.tasks[k].project)
    && (forall g :: g in v.db.goals && g !in w.db.goals ==> v.db.goals[g] in w.db.projects)
    && (forall g :: g in v.db.goals && g in w.db.goals ==> v.db.goals[g] == w.db.goals[g])
  }

  lemma GoalsGrow(w: World, a: Action)
    requires !a.AddProject? && !a.CreateBumpSeq?
    ensures var v := Next(w, a);
            && v.db.projects == w.db.projects
            && (forall g :: g in v.db.goals && g !in w.db.goals ==> v.db.goals[g] in w.db.projects)
            && (forall g :: g in v.db.goals && g in w.db.goals ==> v.db.goals[g] == w.db.goals[g])
  {
  }

  lemma SameKeys(w: World, a: Action)
    requires !a.CreateInsert?
    ensures Next(w, a).db.tasks.Keys == w.db.tasks.Keys && Next(w, a).db.nextId == w.db.nextId
  {
  }

  lemma OtherActionsKeepKeySpace(w: World, a: Action)
    requires !a.AddProject? && !a.CreateBumpSeq? && !a.CreateInsert?
    ensures SameKeySpace(w, Next(w, a))
  {
    hide Next;
    GoalsGrow(w, a);
    SameKeys(w, a);
    RowsEvolve(w, a);
  }

  ghost predicate PendingKept(w: World, v: World) {
    && (forall c :: c in v.calls && v.calls[c].Creating? ==>
          (c in w.calls && v.calls[c] == w.calls[c]) || v.calls[c].project in w.db.goals.Values)
    && (forall c :: c in v.calls && v.calls[c].Numbered? ==> c in w.calls && v.calls[c] == w.calls[c])
    && (forall c :: c in v.calls && v.calls[c] == Failed(DuplicateKey) ==> c in w.calls && v.calls[c] == w.calls[c])
  }

  lemma CreatingKept(w: World, a: Action)
    ensures forall c :: c in Next(w, a).calls && Next(w, a).calls[c].Creating? ==>
              (c in w.calls && Next(w, a).calls[c] == w.calls[c]) || Next(w, a).calls[c].project in w.db.goals.Values
  {
  }

  lemma NumberedKept(w: World, a: Action)
    requires !a.CreateBumpSeq? && !a.CreateInsert?
    ensures forall c :: c in Next(w, a).calls && (Next(w, a).calls[c].Numbered? || Next(w, a).calls[c] == Failed(DuplicateKey)) ==>
              c in w.calls && Next(w, a).calls[c] == w.calls[c]
  {
  }

  lemma OtherActionsKeepPending(w: World, a: Action)
    requires !a.CreateBumpSeq? && !a.CreateInsert?
    ensures PendingKept(w, Next(w, a))
  {
    CreatingKept(w, a);
    NumberedKept(w, a);
  }

  lemma KeysFrame(w: World, v: World)
    requires KeysInv(w) && SameKeySpace(w, v) && PendingKept(w, v)
    ensures KeysInv(v)
  {
  }

  lemma KeysAddProject(w: World, a: Action)
    requires KeysInv(w) && a.AddProject?
    ensures KeysInv(Next(w, a))
  {
    UpperFixed(a.key);
    OtherActionsKeepPending(w, a);
  }

  lemma DrawnMono(p: Project, q: Project, key: string)
    requires Drawn(p, key) && q.key == p.key && p.taskSeq <= q.taskSeq
    ensures Drawn(q, key)
  {
    var n: nat :| 1 <= n <= p.taskSeq && key == TaskKey(p.key, n);
    assert key == TaskKey(q.key, n);
  }

  /** The number after the counter belongs to no row: the key would determine both project and number. */
  lemma NewNumberUnused(db: Db, project: int)
    requires ProjectsInv(db) && TasksInv(db) && project in db.projects
    ensures TaskKey(db.projects[project].key, db.projects[project].taskSeq + 1) !in db.tasks
  {
    var k := TaskKey(db.projects[project].key, db.projects[project].taskSeq + 1);
    if k in db.tasks {
      var p := db.tasks[k].project;
      var m: nat :| 1 <= m <= db.projects[p].taskSeq && k == TaskKey(db.projects[p].key, m);
      TaskKeyInjective(db.projects[p].key, m, db.projects[project].key, db.projects[project].taskSeq + 1);
    }
  }

  lemma ProjectsBump(db: Db, p: int, after: Db)
    requires ProjectsInv(db) && p in db.projects
    requires after == db.(projects := db.projects[p := db.projects[p].(taskSeq := db.projects[p].taskSeq + 1)])
    ensures ProjectsInv(after)
  {
  }

  lemma TasksBump(db: Db, p: int, after: Db)
    requires TasksInv(db) && p in db.projects
    requires after == db.(projects := db.projects[p := db.projects[p].(taskSeq := db.projects[p].taskSeq + 1)])
    ensures TasksInv(after)
  {
    forall k | k in after.tasks ensures Drawn(after.projects[after.tasks[k].project], k) {
      DrawnMono(db.projects[db.tasks[k].project], after.projects[db.tasks[k].project], k);
    }
  }

  lemma NumbersBump(db: Db, calls: map<nat, Call>, cid: nat, after: Db)
    requires ProjectsInv(db) && TasksInv(db) && NumbersInv(db, calls) && cid in calls && calls[cid].Creating?
    requires var p := calls[cid].project;
             after == db.(projects := db.projects[p := db.projects[p].(taskSeq := db.projects[p].taskSeq + 1)])
    ensures var c := calls[cid];
            NumbersInv(after, calls[cid := Numbered(c.goal, c.project, db.projects[c.project].taskSeq + 1, c.spec)])
  {
    NewNumberUnused(db, calls[cid].project);
    forall d | d in calls && calls[d].Numbered? ensures PendingKey(after, calls[d]) == PendingKey(db, calls[d]) {
    }
  }

  lemma BumpEffect(w: World, a: Action)
    requires a.CreateBumpSeq? && a.cid in w.calls && w.calls[a.cid].Creating? && w.calls[a.cid].project in w.db.projects
    ensures var c := w.calls[a.cid];
            var n := w.db.projects[c.project].taskSeq + 1;
            && Next(w, a).db == w.db.(projects := w.db.projects[c.project := w.db.projects[c.project].(taskSeq := n)])
            && Next(w, a).calls == w.calls[a.cid := Numbered(c.goal, c.project, n, c.spec)]
  {
  }

  lemma BumpRefused(w: World, a: Action)
    requires a.CreateBumpSeq? && !(a.cid in w.calls && w.calls[a.cid].Creating?)
    ensures Next(w, a) == w
  {
  }

  lemma KeysBump(w: World, a: Action)
    requires KeysInv(w) && a.CreateBumpSeq?
    ensures KeysInv(Next(w, a))
  {
    hide Next;
    if a.cid in w.calls && w.calls[a.cid].Creating? {
      var v := Next(w, a);
      BumpEffect(w, a);
      ProjectsBump(w.db, w.calls[a.cid].project, v.db);
      TasksBump(w.db, w.calls[a.cid].project, v.db);
      NumbersBump(w.db, w.calls, a.cid, v.db);
    } else {
      BumpRefused(w, a);
    }
  }

  lemma TasksInsert(db: Db, key: string, row: Task, after: Db)
    requires TasksInv(db) && key !in db.tasks && row.id == db.nextId
    requires row.project in db.projects && Drawn(db.projects[row.project], key)
    requires after == db.(tasks := db.tasks[key := row], nextId := db.nextId + 1)
    ensures TasksInv(after)
  {
  }

  lemma NumbersInsert(db: Db, calls: map<nat, Call>, cid: nat, key: string, row: Task, after: Db)
    requires ProjectsInv(db) && NumbersInv(db, calls) && cid in calls && calls[cid].Numbered? && key == PendingKey(db, calls[cid])
    requires after == db.(tasks := db.tasks[key := row], nextId := db.nextId + 1)
    ensures NumbersInv(after, calls[cid := Created(key)])
  {
    var c := calls[cid];
    forall d | d in calls && d != cid && calls[d].Numbered? ensures PendingKey(after, calls[d]) !in after.tasks {
      var e := calls[d];
      if PendingKey(db, e) == key {
        TaskKeyInjective(db.projects[e.project].key, e.number, db.projects[c.project].key, c.number);
      }
    }
  }

  lemma KeysInsert(w: World, a: Action)
    requires KeysInv(w) && a.CreateInsert?
    ensures KeysInv(Next(w, a))
  {
    if a.cid in w.calls && w.calls[a.cid].Numbered? {
      var c := w.calls[a.cid];
      var key := PendingKey(w.db, c);
      var row := NewRow(w.db.nextId, c);
      var after := w.db.(tasks := w.db.tasks[key := row], nextId := w.db.nextId + 1);
      assert Drawn(w.db.projects[c.project], key);
      TasksInsert(w.db, key, row, after);
      NumbersInsert(w.db, w.calls, a.cid, key, row, after);
    }
  }

  lemma {:induction false} KeysNext(w: World, a: Action)
    requires KeysInv(w)
    ensures KeysInv(Next(w, a))
  {
    hide Next;
    if a.AddProject? { KeysAddProject(w, a); }
    else if a.CreateBumpSeq? { KeysBump(w, a); }
    else if a.CreateInsert? { KeysInsert(w, a); }
    else {
      OtherActionsKeepKeySpace(w, a);
      OtherActionsKeepPending(w, a);
      KeysFrame(w, Next(w, a));
    }
  }

  lemma {:induction false} KeysRunFrom(w: World, schedule: seq<Action>)
    requires KeysInv(w)
    ensures KeysInv(Run(w, schedule))
    decreases |schedule|
  {
    if schedule != [] {
      KeysRunFrom(w, schedule[..|schedule| - 1]);
      KeysNext(Run(w, schedule[..|schedule| - 1]), schedule[|schedule| - 1]);
    }
  }

  lemma {:induction false} KeysRun(now: int, schedule: seq<Action>)
    ensures KeysInv(Run(Start(now), schedule))
  {
    KeysRunFrom(Start(now), schedule);
  }

  lemma StoredKeysUpper(w: World, key: string)
    requires KeysInv(w) && key in w.db.tasks
    ensures Upper(key) == key
  {
    var p := w.db.projects[w.db.tasks[key].project];
    var n: nat :| 1 <= n <= p.taskSeq && key == TaskKey(p.key, n);
    TaskKeyUpper(p.key, n);
  }

  /** However `create_task` calls interleave, an insert never meets an existing key: each pending
      call succeeds, adds exactly one row, and the new key is found by lookup in any case. */
  lemma {:induction false} InsertAlwaysSucceeds(now: int, schedule: seq<Action>, cid: nat)
    ensures var w := Run(Start(now), schedule);
            && (cid in w.calls ==> w.calls[cid] != Failed(DuplicateKey))
            && (cid in w.calls && w.calls[cid].Numbered? ==>
                  var v := Next(w, CreateInsert(cid));
                  && v.calls[cid].Created?
                  && v.calls[cid].key !in w.db.tasks
                  && v.db.tasks.Keys == w.db.tasks.Keys + {v.calls[cid].key}
                  && v.db.tasks[v.calls[cid].key].spec == w.calls[cid].spec
                  && v.db.tasks[v.calls[cid].key].status == Backlog
                  && Upper(v.calls[cid].key) == v.calls[cid].key)
  {
    KeysRun(now, schedule);
    var w := Run(Start(now), schedule);
    if cid in w.calls && w.calls[cid].Numbered? {
      TaskKeyUpper(w.db.projects[w.calls[cid].project].key, w.calls[cid].number);
    }
  }

  // ---- claims --------------------------------------------------------------------

  /** A claim not yet reporting is on an existing task, and remembers its blockers until its update. */
  ghost predicate Remembers(db: Db, c: Call) {
    && (c.ClaimSelected? || c.ClaimChecked? || c.ClaimTaken? ==> c.key in db.tasks)
    && (c.ClaimSelected? || c.ClaimChecked? ==> c.blockedBy == db.tasks[c.key].spec.blockedBy)
  }

  ghost predicate RemembersInv(w: World) {
    forall c :: c in w.calls ==> Remembers(w.db, w.calls[c])
  }

  lemma CheckMoves(w: World, a: Action, c: nat)
    requires c in Next(w, a).calls && Next(w, a).calls[c].ClaimChecked?
    ensures var v := Next(w, a);
            || (c in w.calls && v.calls[c] == w.calls[c])
            || (v.calls[c].blockedBy == [] && v.calls[c].key in w.db.tasks && w.db.tasks[v.calls[c].key].spec.blockedBy == [])
            || (a == ClaimCheck(c) && c in w.calls && w.calls[c].ClaimSelected?
                && w.calls[c].key == v.calls[c].key && w.calls[c].blockedBy == v.calls[c].blockedBy
                && OpenBlockers(w.db, w.calls[c].blockedBy) == {} && v.db == w.db)
  {
  }

  lemma SelectMoves(w: World, a: Action, c: nat)
    requires c in Next(w, a).calls && Next(w, a).calls[c].ClaimSelected?
    ensures var v := Next(w, a);
            || (c in w.calls && v.calls[c] == w.calls[c])
            || (v.calls[c].key in w.db.tasks && w.db.tasks[v.calls[c].key].spec.blockedBy == v.calls[c].blockedBy)
  {
  }

  lemma TakeMoves(w: World, a: Action, c: nat)
    requires c in Next(w, a).calls && Next(w, a).calls[c].ClaimTaken?
    ensures (c in w.calls && Next(w, a).calls[c] == w.calls[c]) || Next(w, a).calls[c].key in w.db.tasks
  {
  }

  lemma RemembersNext(w: World, a: Action)
    requires RemembersInv(w)
    ensures RemembersInv(Next(w, a))
  {
    var v := Next(w, a);
    NextEvolves(w, a);
    forall c | c in v.calls ensures Remembers(v.db, v.calls[c]) {
      if v.calls[c].ClaimChecked? { CheckMoves(w, a, c); }
      else if v.calls[c].ClaimSelected? { SelectMoves(w, a, c); }
      else if v.calls[c].ClaimTaken? { TakeMoves(w, a, c); }
      if c in w.calls { assert Remembers(w.db, w.calls[c]); }
    }
  }

  /** The assignee column always names the account of the latest unreturned claim. */
  ghost predicate HolderInv(w: World) {
    && WellHeld(w.log)
    && (forall k :: k in w.db.tasks ==> w.db.tasks[k].assignee == HolderAccount(w.log, k))
    && (forall k :: k in w.db.tasks && w.db.tasks[k].status == Backlog ==> w.db.tasks[k].assignee == None)
    && (forall k :: k !in w.db.tasks ==> Holder(w.log, k) == None)
    && RemembersInv(w)
  }

  /** Actions that record nothing leave assignees alone and put no held task in the backlog. */
  ghost predicate HoldersKept(w: World, v: World) {
    && v.log == w.log
    && (forall k :: k in w.db.tasks ==> k in v.db.tasks)
    && (forall k :: k in v.db.tasks && k in w.db.tasks ==>
          && v.db.tasks[k].assignee == w.db.tasks[k].assignee
          && (v.db.tasks[k].status == Backlog ==> w.db.tasks[k].assignee == None))
    && (forall k :: k in v.db.tasks && k !in w.db.tasks ==> v.db.tasks[k].assignee == None)
  }

  predicate Records(w: World, a: Action) {
    a.ClaimUpdate? || a.SweepUpdate? || (a.SetStatus? && a.status == Backlog)
  }

  lemma InsertKeepsHolders(w: World, a: Action)
    requires HolderInv(w) && a.CreateInsert?
    ensures HoldersKept(w, Next(w, a))
  {
  }

  lemma RewriteKeepsHolders(w: World, key: string, row: Task, v: World)
    requires HolderInv(w) && key in w.db.tasks && v.db.tasks == w.db.tasks[key := row] && v.log == w.log
    requires row.assignee == w.db.tasks[key].assignee && row.status != Backlog
    ensures HoldersKept(w, v)
  {
  }

  lemma SilentActionsKeepHolders(w: World, a: Action)
    requires HolderInv(w) && !Records(w, a)
    ensures HoldersKept(w, Next(w, a))
  {
    var v := Next(w, a);
    if !WritesTasks(a) {
      OthersKeepTasks(w, a);
    } else if a.CreateInsert? {
      InsertKeepsHolders(w, a);
    } else if v.db.tasks != w.db.tasks {
      var key := if a.SubmitWrite? then w.calls[a.cid].key else Upper(a.key);
      RewriteKeepsHolders(w, key, v.db.tasks[key], v);
    }
  }

  lemma HolderRecord(w: World, v: World, e: Event)
    requires HolderInv(w) && v.log == w.log + [e] && v.db.tasks.Keys == w.db.tasks.Keys && RemembersInv(v)
    requires e.Claim? ==> Holder(w.log, e.key) == None && e.key in w.db.tasks
    requires forall k :: IsReturn(e, k) ==> k in w.db.tasks
    requires forall k :: k in v.db.tasks ==>
               && v.db.tasks[k].assignee == (if IsClaim(e, k) then Some(e.account) else if IsReturn(e, k) then None else w.db.tasks[k].assignee)
               && (v.db.tasks[k].status == Backlog ==> v.db.tasks[k].assignee == None)
    ensures HolderInv(v)
  {
    forall k ensures Holder(v.log, k) == if IsClaim(e, k) then Some(e) else if IsReturn(e, k) then None else Holder(w.log, k) {
      HolderSnoc(w.log, e, k);
    }
    WellHeldSnoc(w.log, e);
  }

  lemma HolderTake(w: World, a: Action)
    requires HolderInv(w) && a.ClaimUpdate? && RemembersInv(Next(w, a))
    ensures HolderInv(Next(w, a))
  {
    var v := Next(w, a);
    if v.log != w.log {
      HolderRecord(w, v, Claim(w.calls[a.cid].key, w.calls[a.cid].account, w.db.now));
    }
  }

  lemma HolderSweep(w: World, a: Action)
    requires HolderInv(w) && a.SweepUpdate? && RemembersInv(Next(w, a))
    ensures HolderInv(Next(w, a))
  {
    var v := Next(w, a);
    if v.log != w.log {
      HolderRecord(w, v, Sweep(Stale(w.db, a.ttl), a.ttl, w.db.now));
    }
  }

  lemma HolderRelease(w: World, a: Action)
    requires HolderInv(w) && a.SetStatus? && a.status == Backlog && RemembersInv(Next(w, a))
    ensures HolderInv(Next(w, a))
  {
    var v := Next(w, a);
    if v.log != w.log {
      HolderRecord(w, v, Release(Upper(a.key)));
    }
  }

  lemma HolderKept(w: World, v: World)
    requires HolderInv(w) && HoldersKept(w, v) && RemembersInv(v)
    ensures HolderInv(v)
  {
  }

  lemma {:induction false} HolderNext(w: World, a: Action)
    requires HolderInv(w)
    ensures HolderInv(Next(w, a))
  {
    RemembersNext(w, a);
    if a.ClaimUpdate? {
      HolderTake(w, a);
    } else if a.SweepUpdate? {
      HolderSweep(w, a);
    } else if a.SetStatus? && a.status == Backlog {
      HolderRelease(w, a);
    } else {
      SilentActionsKeepHolders(w, a);
      HolderKept(w, Next(w, a));
    }
  }

  lemma {:induction false} HolderRunFrom(w: World, schedule: seq<Action>)
    requires HolderInv(w)
    ensures HolderInv(Run(w, schedule))
    decreases |schedule|
  {
    if schedule != [] {
      HolderRunFrom(w, schedule[..|schedule| - 1]);
      HolderNext(Run(w, schedule[..|schedule| - 1]), schedule[|schedule| - 1]);
    }
  }

  lemma {:induction false} HolderRun(now: int, schedule: seq<Action>)
    ensures HolderInv(Run(Start(now), schedule))
  {
    HolderRunFrom(Start(now), schedule);
  }

  /** Exclusivity over whole runs: two successful claims of one task are separated by a return to
      the backlog, so claims outnumber returns by at most one; and whoever is assigned made the
      latest claim, with nobody assigned in the backlog. */
  lemma {:induction false} ClaimsAreExclusive(now: int, schedule: seq<Action>, key: string)
    ensures var w := Run(Start(now), schedule);
            && (forall i, j :: 0 <= i < j < |w.log| && IsClaim(w.log[i], key) && IsClaim(w.log[j], key) ==>
                  exists m :: i < m < j && IsReturn(w.log[m], key))
            && Claims(w.log, key) <= Returns(w.log, key) + 1
            && (key in w.db.tasks ==>
                  && w.db.tasks[key].assignee == HolderAccount(w.log, key)
                  && (w.db.tasks[key].status == Backlog ==> w.db.tasks[key].assignee == None))
  {
    HolderRun(now, schedule);
    var w := Run(Start(now), schedule);
    forall i, j | 0 <= i < j < |w.log| && IsClaim(w.log[i], key) && IsClaim(w.log[j], key)
      ensures exists m :: i < m < j && IsReturn(w.log[m], key)
    {
      ClaimsSeparated(w.log, key, i, j);
    }
    ClaimCount(w.log, key);
  }

  /** The history is the truth about the table: it gains a claim exactly when a row leaves the
      backlog through a claim, and a return exactly when a row enters the backlog. */
  lemma HistoryIsFaithful(w: World, a: Action)
    ensures var v := Next(w, a);
            && w.log <= v.log && |v.log| <= |w.log| + 1
            && (forall k :: k in w.db.tasks ==>
                  ((w.db.tasks[k].status != Backlog && v.db.tasks[k].status == Backlog)
                   <==> (|v.log| == |w.log| + 1 && IsReturn(v.log[|w.log|], k))))
            && (forall k, b :: (|v.log| == |w.log| + 1 && v.log[|w.log|] == Claim(k, b, w.db.now))
                  <==> (&& a.ClaimUpdate? && a.cid in w.calls && w.calls[a.cid].ClaimChecked?
                        && w.calls[a.cid].key == k && w.calls[a.cid].account == b
                        && k in w.db.tasks && w.db.tasks[k].status == Backlog))
  {
    var v := Next(w, a);
    if a.SetStatus? {
      forall k | k in w.db.tasks && w.db.tasks[k].status != Backlog && v.db.tasks[k].status == Backlog
        ensures |v.log| == |w.log| + 1 && IsReturn(v.log[|w.log|], k)
      {
        assert k == Upper(a.key);
      }
    }
  }

  // ---- leases --------------------------------------------------------------------

  /** No caller moves a task to in-progress by hand: the routes only block, release and finish. */
  predicate Routed(a: Action) {
    !(a.SetStatus? && a.status == InProgress)
  }

  ghost predicate AllRouted(schedule: seq<Action>) {
    forall a :: a in schedule ==> Routed(a)
  }

  /** An in-progress row carries the time of the latest claim of its task. */
  ghost predicate ClockInv(w: World) {
    forall k :: k in w.db.tasks && w.db.tasks[k].status == InProgress ==>
      && Holder(w.log, k).Some?
      && w.db.tasks[k].claimedAt == Some(Holder(w.log, k).value.at)
      && Holder(w.log, k).value.at <= w.db.now
  }

  /** Whatever is in progress after a sweep was claimed no more than the TTL before it. */
  ghost predicate SweptInv(w: World) {
    forall i :: 0 <= i < |w.log| && w.log[i].Sweep? ==>
      && 0 <= w.log[i].ttl && w.log[i].at <= w.db.now
      && (forall k :: k in w.db.tasks && w.db.tasks[k].status == InProgress && w.db.tasks[k].claimedAt.Some? ==>
            w.db.tasks[k].claimedAt.value >= w.log[i].at - w.log[i].ttl)
  }

  /** Whatever a sweep returned was held by a claim older than the TTL. */
  ghost predicate SweepsAreLate(log: seq<Event>) {
    forall i, k :: 0 <= i < |log| && log[i].Sweep? && k in log[i].keys ==>
      Holder(log[..i], k).Some? && Holder(log[..i], k).value.at < log[i].at - log[i].ttl
  }

  ghost predicate LeaseInv(w: World) {
    HolderInv(w) && ClockInv(w) && SweptInv(w) && SweepsAreLate(w.log)
  }

  /** Rows in progress after an unrecorded action were in progress before it, with the same claim time. */
  ghost predicate ClaimsKept(w: World, v: World) {
    && w.db.now <= v.db.now
    && forall k :: k in v.db.tasks && v.db.tasks[k].status == InProgress ==>
         k in w.db.tasks && w.db.tasks[k].status == InProgress && w.db.tasks[k].claimedAt == v.db.tasks[k].claimedAt
  }

  lemma UnrecordedUpdates(w: World, a: Action)
    requires (a.ClaimUpdate? || a.SweepUpdate?) && Next(w, a).log == w.log
    ensures Next(w, a).db == w.db
  {
  }

  lemma InsertKeepsClaims(w: World, a: Action)
    requires a.CreateInsert?
    ensures ClaimsKept(w, Next(w, a))
  {
  }

  lemma RewriteKeepsClaims(w: World, a: Action)
    requires Routed(a) && (a.SubmitWrite? || a.SubmitTask? || a.SetStatus?)
    ensures ClaimsKept(w, Next(w, a))
  {
  }

  lemma ClockAdvances(w: World, a: Action)
    ensures w.db.now <= Next(w, a).db.now
  {
  }

  lemma SilentActionsKeepClaims(w: World, a: Action)
    requires Routed(a) && Next(w, a).log == w.log
    ensures ClaimsKept(w, Next(w, a))
  {
    hide Next;
    ClockAdvances(w, a);
    if !WritesTasks(a) { OthersKeepTasks(w, a); }
    else if a.CreateInsert? { InsertKeepsClaims(w, a); }
    else if a.ClaimUpdate? || a.SweepUpdate? { UnrecordedUpdates(w, a); }
    else { RewriteKeepsClaims(w, a); }
  }

  lemma LeaseTake(w: World, a: Action)
    requires LeaseInv(w) && a.ClaimUpdate? && Next(w, a).log != w.log
    ensures LeaseInv(Next(w, a))
  {
    HolderNext(w, a);
    var v := Next(w, a);
    var e := Claim(w.calls[a.cid].key, w.calls[a.cid].account, w.db.now);
    assert v.log == w.log + [e];
    forall k ensures Holder(v.log, k) == if IsClaim(e, k) then Some(e) else Holder(w.log, k) { HolderSnoc(w.log, e, k); }
    LateSnoc(w.log, e);
  }

  lemma LateSnoc(log: seq<Event>, e: Event)
    requires SweepsAreLate(log)
    requires e.Sweep? ==> forall k :: k in e.keys ==> Holder(log, k).Some? && Holder(log, k).value.at < e.at - e.ttl
    ensures SweepsAreLate(log + [e])
  {
    var l := log + [e];
    forall i, k | 0 <= i < |l| && l[i].Sweep? && k in l[i].keys
      ensures Holder(l[..i], k).Some? && Holder(l[..i], k).value.at < l[i].at - l[i].ttl
    {
      assert l[..i] == log[..i];
      if i == |log| { assert l[..i] == log; }
    }
  }

  lemma SweepEffect(w: World, a: Action)
    requires a.SweepUpdate? && Next(w, a).log != w.log
    ensures var v := Next(w, a);
            && v.log == w.log + [Sweep(Stale(w.db, a.ttl), a.ttl, w.db.now)] && 0 <= a.ttl && v.db.now == w.db.now
            && forall k :: k in v.db.tasks && v.db.tasks[k].status == InProgress ==>
                 k in w.db.tasks && k !in Stale(w.db, a.ttl) && v.db.tasks[k] == w.db.tasks[k]
  {
  }

  lemma LeaseSweep(w: World, a: Action)
    requires LeaseInv(w) && a.SweepUpdate? && Next(w, a).log != w.log
    ensures LeaseInv(Next(w, a))
  {
    hide Next;
    HolderNext(w, a);
    SweepEffect(w, a);
    var v := Next(w, a);
    var e := Sweep(Stale(w.db, a.ttl), a.ttl, w.db.now);
    forall k ensures Holder(v.log, k) == if IsReturn(e, k) then None else Holder(w.log, k) { HolderSnoc(w.log, e, k); }
    LateSnoc(w.log, e);
  }

  lemma LeaseRelease(w: World, a: Action)
    requires LeaseInv(w) && a.SetStatus? && Next(w, a).log != w.log
    ensures LeaseInv(Next(w, a))
  {
    HolderNext(w, a);
    var v := Next(w, a);
    var e := Release(Upper(a.key));
    assert v.log == w.log + [e];
    forall k ensures Holder(v.log, k) == if IsReturn(e, k) then None else Holder(w.log, k) { HolderSnoc(w.log, e, k); }
    LateSnoc(w.log, e);
  }

  lemma LeaseKept(w: World, v: World)
    requires LeaseInv(w) && HolderInv(v) && ClaimsKept(w, v) && v.log == w.log
    ensures LeaseInv(v)
  {
  }

  lemma {:induction false} LeaseNext(w: World, a: Action)
    requires LeaseInv(w) && Routed(a)
    ensures LeaseInv(Next(w, a))
  {
    if Next(w, a).log == w.log {
      HolderNext(w, a);
      SilentActionsKeepClaims(w, a);
      LeaseKept(w, Next(w, a));
    } else if a.ClaimUpdate? {
      LeaseTake(w, a);
    } else if a.SweepUpdate? {
      LeaseSweep(w, a);
    } else {
      LeaseRelease(w, a);
    }
  }

  lemma {:induction false} LeaseRun(w: World, schedule: seq<Action>)
    requires LeaseInv(w) && AllRouted(schedule)
    ensures LeaseInv(Run(w, schedule))
    decreases |schedule|
  {
    hide Next;
    if schedule != [] {
      var s := schedule[..|schedule| - 1];
      assert forall a :: a in s ==> a in schedule;
      LeaseRun(w, s);
      LeaseNext(Run(w, s), schedule[|schedule| - 1]);
    }
  }

  /** A sweep with this TTL completed at most `gap` ago. */
  ghost predicate SweptWithin(w: World, ttl: int, gap: int) {
    exists i :: 0 <= i < |w.log| && w.log[i].Sweep? && w.log[i].ttl == ttl && w.db.now - w.log[i].at <= gap
  }

  /** Every task in progress is assigned to its latest claimer, who claimed it at most `bound` ago. */
  ghost predicate LeasesWithin(w: World, bound: int) {
    forall k :: k in w.db.tasks && w.db.tasks[k].status == InProgress ==>
      && Holder(w.log, k).Some?
      && w.db.tasks[k].assignee == Some(Holder(w.log, k).value.account)
      && w.db.now - Holder(w.log, k).value.at <= bound
  }

  lemma SweptLeases(w: World, ttl: int, gap: int)
    requires LeaseInv(w) && SweptWithin(w, ttl, gap)
    ensures LeasesWithin(w, ttl + gap)
  {
  }

  /** The lease bound: as long as sweeps come at most `gap` apart, nothing stays in progress longer
      than `ttl + gap` after its latest claim; and no sweep ever returned a claim younger than its TTL. */
  lemma {:induction false} LeaseBound(now: int, schedule: seq<Action>, ttl: int, gap: int)
    requires AllRouted(schedule)
    ensures var w := Run(Start(now), schedule);
            && (SweptWithin(w, ttl, gap) ==> LeasesWithin(w, ttl + gap))
            && SweepsAreLate(w.log)
  {
    hide Next;
    LeaseRun(Start(now), schedule);
  }
}
