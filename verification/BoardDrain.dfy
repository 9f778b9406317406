/** What a worker that keeps finishing ready tasks can and cannot finish of a goal. */
module BoardDrain {
  import opened TaskKeys
  import opened BoardModel
  import opened BoardBlockers

  predicate InBacklog(db: Db, goal: string, key: string) {
    key in db.tasks && db.tasks[key].goal == goal && db.tasks[key].status == Backlog
  }

  ghost predicate NothingReady(db: Db, goal: string) {
    forall k :: !IsReady(db, goal, k)
  }

  /** Every key is stored the way lookup spells it (`StoredKeysUpper`: always so on a reachable board). */
  ghost predicate KeysUpper(db: Db) {
    forall k :: k in db.tasks ==> Upper(k) == k
  }

  ghost predicate AllWaitingOrDone(db: Db, goal: string) {
    forall k :: k in OpenKeys(db, goal) ==> InBacklog(db, goal, k)
  }

  /** The task is out of a worker's reach: not in the backlog, or waiting for something unfinished that
      is missing, belongs to another goal, or is itself in `s`. */
  predicate Held(db: Db, goal: string, s: set<string>, key: string)
    requires key in db.tasks
  {
    || db.tasks[key].status != Backlog
    || exists b :: b in db.tasks[key].spec.blockedBy && b !in DoneKeys(db, goal) && (b in OpenKeys(db, goal) ==> b in s)
  }

  /** Open tasks that hold each other up, or that something out of reach holds up: cycles are such sets. */
  ghost predicate StuckSet(db: Db, goal: string, s: set<string>) {
    forall k :: k in s ==> k in OpenKeys(db, goal) && Held(db, goal, s, k)
  }

  // ---- finishing orders ------------------------------------------------------------------

  /** Backlog tasks finished one after the other, each with all its blockers finished before it. */
  ghost predicate FinishOrder(db: Db, goal: string, order: seq<string>) {
    order == []
    || (var before, key := order[..|order| - 1], order[|order| - 1];
        && FinishOrder(db, goal, before)
        && InBacklog(db, goal, key) && key !in before
        && forall b :: b in db.tasks[key].spec.blockedBy ==> b in DoneKeys(db, goal) || b in before)
  }

  function RankOf(order: seq<string>): map<string, nat> {
    if order == [] then map[]
    else RankOf(order[..|order| - 1])[order[|order| - 1] := |order| - 1]
  }

  lemma {:induction false} RankOfOrder(order: seq<string>)
    ensures RankOf(order).Keys == set k | k in order
    ensures forall k :: k in RankOf(order) ==> RankOf(order)[k] < |order|
    decreases |order|
  {
    if order != [] {
      var before := order[..|order| - 1];
      RankOfOrder(before);
      assert order == before + [order[|order| - 1]];
    }
  }

  /** The tasks of a finishing order were in the backlog, and the order ranks them. */
  lemma {:induction false} OrderRanks(db: Db, goal: string, order: seq<string>, k: string)
    requires FinishOrder(db, goal, order) && k in order
    ensures InBacklog(db, goal, k) && k in RankOf(order)
    ensures forall b :: b in db.tasks[k].spec.blockedBy ==>
              b in DoneKeys(db, goal) || (b in OpenKeys(db, goal) && b in RankOf(order) && RankOf(order)[b] < RankOf(order)[k])
    decreases |order|
  {
    var before, key := order[..|order| - 1], order[|order| - 1];
    RankOfOrder(order);
    RankOfOrder(before);
    assert forall b :: b in before ==> RankOf(order)[b] == RankOf(before)[b];
    forall b | b in before ensures InBacklog(db, goal, b) {
      OrderRanks(db, goal, before, b);
    }
    if k != key {
      assert k in before;
      OrderRanks(db, goal, before, k);
    }
  }

  /** No finishing order ever reaches a stuck task. */
  lemma {:induction false} OrderAvoidsStuck(db: Db, goal: string, order: seq<string>, s: set<string>, k: string)
    requires FinishOrder(db, goal, order) && k in order
    ensures StuckSet(db, goal, s) ==> k !in s
    decreases |order|
  {
    var before, key := order[..|order| - 1], order[|order| - 1];
    forall b | b in before ensures InBacklog(db, goal, b) && (StuckSet(db, goal, s) ==> b !in s) {
      OrderRanks(db, goal, before, b);
      OrderAvoidsStuck(db, goal, before, s, b);
    }
    assert StuckSet(db, goal, s) ==> !Held(db, goal, s, key);
    assert k == key || k in before;
  }

  // ---- one round ---------------------------------------------------------------------------

  /** How far a drain has come: only the tasks in `order` were touched, and they are done. */
  ghost predicate Touched(start: Db, db: Db, order: seq<string>) {
    && db.tasks.Keys == start.tasks.Keys
    && (forall k :: k in db.tasks && k !in order ==> db.tasks[k] == start.tasks[k])
    && (forall k :: k in db.tasks && k in order ==>
          && db.tasks[k].status == Done && db.tasks[k].goal == start.tasks[k].goal && db.tasks[k].spec == start.tasks[k].spec)
  }

  ghost predicate DrainOk(start: Db, db: Db, goal: string, order: seq<string>) {
    KeysUpper(db) && Touched(start, db, order) && FinishOrder(start, goal, order)
  }

  lemma TouchedNext(start: Db, db: Db, order: seq<string>, key: string, row: Task, after: Db)
    requires Touched(start, db, order) && key in db.tasks
    requires row.status == Done && row.goal == db.tasks[key].goal && row.spec == db.tasks[key].spec
    requires after.tasks == db.tasks[key := row]
    ensures Touched(start, after, order + [key])
  {
  }

  lemma OpenShrinks(db: Db, goal: string, key: string, row: Task, after: Db)
    requires key in OpenKeys(db, goal)
    requires row.status == Done && row.goal == goal && after.tasks == db.tasks[key := row]
    ensures OpenKeys(after, goal) == OpenKeys(db, goal) - {key}
  {
  }

  lemma FinishNext(start: Db, db: Db, goal: string, order: seq<string>, key: string)
    requires Touched(start, db, order) && FinishOrder(start, goal, order) && IsReady(db, goal, key)
    ensures FinishOrder(start, goal, order + [key])
  {
    assert (order + [key])[..|order|] == order;
    forall b | b in start.tasks[key].spec.blockedBy ensures b in DoneKeys(start, goal) || b in order {
      assert b in DoneKeys(db, goal);
      if b !in order { assert db.tasks[b] == start.tasks[b]; }
    }
  }

  /** Everything that follows from finishing a ready task. */
  lemma DrainStep(start: Db, db: Db, goal: string, order: seq<string>, key: string, row: Task, after: Db)
    requires DrainOk(start, db, goal, order) && IsReady(db, goal, key)
    requires row.status == Done && row.goal == goal && row.spec == db.tasks[key].spec && after.tasks == db.tasks[key := row]
    ensures DrainOk(start, after, goal, order + [key])
    ensures OpenKeys(after, goal) < OpenKeys(db, goal)
  {
    FinishNext(start, db, goal, order, key);
    OpenShrinks(db, goal, key, row, after);
    TouchedNext(start, db, order, key, row, after);
  }

  // ---- the end -----------------------------------------------------------------------------

  /** Tasks of other goals, tasks already done, and tasks left open are as they were. */
  ghost predicate RestKept(start: Db, db: Db, goal: string) {
    && db.tasks.Keys == start.tasks.Keys
    && forall k :: k in db.tasks && (db.tasks[k].goal != goal || start.tasks[k].status == Done || db.tasks[k].status != Done) ==>
         db.tasks[k] == start.tasks[k]
  }

  /** The outcome of a drain: the rest is untouched, what stays open is the largest stuck set, and
      nothing stays open exactly when all open tasks were waiting in the backlog and can be ranked. */
  ghost predicate Drained(start: Db, db: Db, goal: string) {
    && RestKept(start, db, goal)
    && StuckSet(start, goal, OpenKeys(db, goal))
    && (forall s :: StuckSet(start, goal, s) ==> s <= OpenKeys(db, goal))
    && (OpenKeys(db, goal) == {} <==> AllWaitingOrDone(start, goal) && exists rank :: Ranks(start, goal, rank))
  }

  lemma RestUntouched(start: Db, db: Db, goal: string, order: seq<string>)
    requires Touched(start, db, order) && FinishOrder(start, goal, order)
    ensures RestKept(start, db, goal)
  {
    forall k | k in order ensures InBacklog(start, goal, k) {
      OrderRanks(start, goal, order, k);
    }
  }

  lemma LeftIsStuck(start: Db, db: Db, goal: string, order: seq<string>)
    requires Touched(start, db, order) && RestKept(start, db, goal) && NothingReady(db, goal)
    ensures StuckSet(start, goal, OpenKeys(db, goal))
  {
    var left := OpenKeys(db, goal);
    assert forall b :: b in DoneKeys(start, goal) ==> db.tasks[b] == start.tasks[b] && b in DoneKeys(db, goal);
    forall k | k in left ensures k in OpenKeys(start, goal) && Held(start, goal, left, k) {
      assert db.tasks[k] == start.tasks[k];
      if start.tasks[k].status == Backlog {
        assert !IsReady(db, goal, k);
        var b :| b in start.tasks[k].spec.blockedBy && b !in DoneKeys(db, goal);
      }
    }
  }

  lemma StuckIsLeft(start: Db, db: Db, goal: string, order: seq<string>, s: set<string>)
    requires Touched(start, db, order) && FinishOrder(start, goal, order) && StuckSet(start, goal, s)
    ensures s <= OpenKeys(db, goal)
  {
    forall k | k in order ensures k !in s {
      OrderAvoidsStuck(start, goal, order, s, k);
    }
  }

  lemma EmptyMeansRanked(start: Db, db: Db, goal: string, order: seq<string>)
    requires Touched(start, db, order) && FinishOrder(start, goal, order) && OpenKeys(db, goal) == {}
    ensures AllWaitingOrDone(start, goal) && Ranks(start, goal, RankOf(order))
  {
    forall k | k in OpenKeys(start, goal)
      ensures InBacklog(start, goal, k) && k in RankOf(order)
      ensures forall b :: b in start.tasks[k].spec.blockedBy ==>
                b in DoneKeys(start, goal) || (b in OpenKeys(start, goal) && b in RankOf(order) && RankOf(order)[b] < RankOf(order)[k])
    {
      assert k !in OpenKeys(db, goal);
      OrderRanks(start, goal, order, k);
    }
  }

  /** Of some open tasks of a ranked goal, all waiting in the backlog, one of lowest rank is not held up by them. */
  lemma LowestIsFree(db: Db, goal: string, s: set<string>, rank: map<string, nat>, k: string)
    requires AllWaitingOrDone(db, goal) && Ranks(db, goal, rank) && s <= OpenKeys(db, goal)
    requires k in s && forall x :: x in s ==> rank[k] <= rank[x]
    ensures !Held(db, goal, s, k)
  {
    assert InBacklog(db, goal, k);
  }

  lemma RankedMeansEmpty(db: Db, goal: string, s: set<string>, rank: map<string, nat>)
    requires AllWaitingOrDone(db, goal) && Ranks(db, goal, rank)
    ensures StuckSet(db, goal, s) ==> s == {}
  {
    if s != {} && s <= OpenKeys(db, goal) {
      var k := LowestRank(s, rank);
      LowestIsFree(db, goal, s, rank, k);
    }
  }

  lemma DrainEnd(start: Db, db: Db, goal: string, order: seq<string>)
    requires DrainOk(start, db, goal, order) && NothingReady(db, goal)
    ensures Drained(start, db, goal)
  {
    RestUntouched(start, db, goal, order);
    LeftIsStuck(start, db, goal, order);
    forall s | StuckSet(start, goal, s) ensures s <= OpenKeys(db, goal) {
      StuckIsLeft(start, db, goal, order, s);
    }
    if OpenKeys(db, goal) == {} {
      EmptyMeansRanked(start, db, goal, order);
    }
    forall rank | AllWaitingOrDone(start, goal) && Ranks(start, goal, rank) ensures OpenKeys(db, goal) == {} {
      RankedMeansEmpty(start, goal, OpenKeys(db, goal), rank);
    }
  }
}
