/** Conflict notes: complete and truthful under every interleaving. */
module BoardConflicts {
  import opened Prelude
  import opened TaskKeys
  import opened BoardModel
  import opened BoardHistory
  import opened BoardInvariants

  /** Task `key` carries a note naming `other`, and `other` carries one naming `key`. */
  ghost predicate NotedOnBoth(notes: seq<Note>, key: string, other: string) {
    && (exists n :: n in notes && n.task == key && n.body.FileOverlap? && other in n.body.names)
    && (exists n :: n in notes && n.task == other && n.body == ClaimedOver(key))
  }

  /** The first `count` notes of a claim's conflict report are on the board. */
  ghost predicate Written(notes: seq<Note>, key: string, account: int, found: seq<string>, count: nat) {
    forall i: nat :: i < count && i <= |found| ==> ConflictNote(key, account, found, i) in notes
  }

  /** `found` are existing tasks other than `key` whose files intersect those of `key`. */
  ghost predicate GenuineOverlaps(db: Db, key: string, found: seq<string>) {
    && key in db.tasks
    && (forall o :: o in found ==>
          o in db.tasks && db.tasks[o].id != db.tasks[key].id && Shares(db.tasks[o].spec.files, db.tasks[key].spec.files))
  }

  ghost predicate TakenInv(w: World) {
    forall c :: c in w.calls && w.calls[c].ClaimTaken? ==>
      && w.calls[c].key in w.db.tasks
      && w.calls[c].row.id == w.db.tasks[w.calls[c].key].id
      && w.calls[c].row.spec == w.db.tasks[w.calls[c].key].spec
      && ClaimedSince(w.log, 0, w.calls[c].key, w.calls[c].account)
  }

  /** What a claim call past its overlap read has left on the board so far. */
  ghost predicate ReportOk(w: World, c: Call) {
    && (c.ClaimNoting? ==>
          && c.written <= |c.found|
          && GenuineOverlaps(w.db, c.key, c.found)
          && ClaimedSince(w.log, 0, c.key, c.account)
          && Written(w.db.notes, c.key, c.account, c.found, c.written))
    && (c.ClaimReturned? && c.found != [] ==> Written(w.db.notes, c.key, c.account, c.found, |c.found| + 1))
  }

  ghost predicate ReportInv(w: World) {
    forall c :: c in w.calls ==> ReportOk(w, w.calls[c])
  }

  ghost predicate ConflictInv(w: World) {
    TakenInv(w) && ReportInv(w)
  }

  lemma GenuineStable(w: World, v: World, key: string, found: seq<string>)
    requires Evolves(w, v) && GenuineOverlaps(w.db, key, found)
    ensures GenuineOverlaps(v.db, key, found)
  {
  }

  lemma WrittenStable(w: World, v: World, key: string, account: int, found: seq<string>, count: nat)
    requires Evolves(w, v) && Written(w.db.notes, key, account, found, count)
    ensures Written(v.db.notes, key, account, found, count)
  {
    forall i: nat | i < count && i <= |found| ensures ConflictNote(key, account, found, i) in v.db.notes {
      assert ConflictNote(key, account, found, i) in w.db.notes;
    }
  }

  /** A claim call in its reporting phase is either untouched by a statement, or was just moved by it. */
  lemma OnlyOwnStatementsMoveReports(w: World, a: Action, c: nat)
    requires c in Next(w, a).calls
    ensures var v := Next(w, a);
            && (v.calls[c].ClaimTaken? ==> (c in w.calls && w.calls[c] == v.calls[c]) || (a.ClaimUpdate? && a.cid == c))
            && (v.calls[c].ClaimNoting? || v.calls[c].ClaimReturned? ==>
                  || (c in w.calls && w.calls[c] == v.calls[c])
                  || (a.ClaimOverlaps? && a.cid == c && c in w.calls && w.calls[c].ClaimTaken?)
                  || (a.ClaimNote? && a.cid == c && c in w.calls && w.calls[c].ClaimNoting?))
  {
  }

  lemma TakenNext(w: World, a: Action)
    requires TakenInv(w)
    ensures TakenInv(Next(w, a))
  {
    var v := Next(w, a);
    NextEvolves(w, a);
    forall c | c in v.calls && v.calls[c].ClaimTaken?
      ensures v.calls[c].key in v.db.tasks
              && v.calls[c].row.id == v.db.tasks[v.calls[c].key].id
              && v.calls[c].row.spec == v.db.tasks[v.calls[c].key].spec
              && ClaimedSince(v.log, 0, v.calls[c].key, v.calls[c].account)
    {
      OnlyOwnStatementsMoveReports(w, a, c);
      if c in w.calls && w.calls[c] == v.calls[c] {
        ClaimedSinceGrows(w.log, 0, v.log, 0, v.calls[c].key, v.calls[c].account);
      } else {
        assert IsClaim(v.log[|w.log|], v.calls[c].key);
      }
    }
  }

  lemma OverlapsGenuine(w: World, cid: nat, order: seq<string>)
    requires TakenInv(w) && cid in w.calls && w.calls[cid].ClaimTaken?
    requires IsOrder(order, Overlaps(w.db, w.calls[cid].row))
    ensures GenuineOverlaps(w.db, w.calls[cid].key, order)
  {
    forall o | o in order ensures o in Overlaps(w.db, w.calls[cid].row) {
      assert o in set k | k in order;
    }
  }

  lemma ReportNext(w: World, a: Action, c: nat)
    requires TakenInv(w) && ReportInv(w) && c in Next(w, a).calls
    ensures ReportOk(Next(w, a), Next(w, a).calls[c])
  {
    var v := Next(w, a);
    NextEvolves(w, a);
    OnlyOwnStatementsMoveReports(w, a, c);
    if v.calls[c].ClaimNoting? {
      ClaimedSinceGrows(w.log, 0, v.log, 0, v.calls[c].key, v.calls[c].account);
    }
    if v.calls[c].ClaimNoting? || v.calls[c].ClaimReturned? {
      if c in w.calls && w.calls[c] == v.calls[c] {
        var k := v.calls[c];
        WrittenStable(w, v, k.key, k.account, k.found, if k.ClaimNoting? then k.written else if k.found == [] then 0 else |k.found| + 1);
      } else if a.ClaimOverlaps? {
        OverlapsGenuine(w, c, a.order);
        assert v.calls[c] == AfterOverlaps(w.calls[c], a.order);
      } else {
        var k := w.calls[c];
        var note := ConflictNote(k.key, k.account, k.found, k.written);
        assert v.db.notes == w.db.notes + [note];
        forall i: nat | i < k.written + 1 && i <= |k.found| ensures ConflictNote(k.key, k.account, k.found, i) in v.db.notes {
          if i < k.written { assert ConflictNote(k.key, k.account, k.found, i) in w.db.notes; }
        }
      }
    }
  }

  lemma {:induction false} ConflictNext(w: World, a: Action)
    requires ConflictInv(w)
    ensures ConflictInv(Next(w, a))
  {
    TakenNext(w, a);
    forall c | c in Next(w, a).calls ensures ReportOk(Next(w, a), Next(w, a).calls[c]) { ReportNext(w, a, c); }
  }

  lemma {:induction false} ConflictRun(w: World, schedule: seq<Action>)
    requires ConflictInv(w)
    ensures ConflictInv(Run(w, schedule))
    decreases |schedule|
  {
    if schedule != [] {
      ConflictRun(w, schedule[..|schedule| - 1]);
      ConflictNext(Run(w, schedule[..|schedule| - 1]), schedule[|schedule| - 1]);
    }
  }

  // ---- from the overlap read to the return ----------------------------------------

  /** The call is past its overlap read, reporting on exactly `found`. */
  predicate Reporting(w: World, c: nat, key: string, found: seq<string>) {
    c in w.calls && (w.calls[c].ClaimNoting? || w.calls[c].ClaimReturned?) && w.calls[c].key == key && w.calls[c].found == found
  }

  lemma ReportingNext(w: World, a: Action, c: nat, key: string, found: seq<string>)
    requires Reporting(w, c, key, found)
    ensures Reporting(Next(w, a), c, key, found)
  {
  }

  lemma {:induction false} ReportingRun(w: World, schedule: seq<Action>, c: nat, key: string, found: seq<string>)
    requires Reporting(w, c, key, found)
    ensures Reporting(Run(w, schedule), c, key, found)
    decreases |schedule|
  {
    if schedule != [] {
      ReportingRun(w, schedule[..|schedule| - 1], c, key, found);
      ReportingNext(Run(w, schedule[..|schedule| - 1]), schedule[|schedule| - 1], c, key, found);
    }
  }

  lemma ReportOnBoard(w: World, c: nat, other: string)
    requires ConflictInv(w) && c in w.calls && w.calls[c].ClaimReturned? && other in w.calls[c].found
    ensures NotedOnBoth(w.db.notes, w.calls[c].key, other)
  {
    var k := w.calls[c];
    var i :| 0 <= i < |k.found| && k.found[i] == other;
    assert ConflictNote(k.key, k.account, k.found, 0) in w.db.notes;
    assert ConflictNote(k.key, k.account, k.found, i + 1) in w.db.notes;
  }

  /** From the overlap read on: any task read as overlapping is noted on both sides at the return. */
  lemma ReadThenNoted(w: World, c: nat, order: seq<string>, after: seq<Action>, other: string)
    requires ConflictInv(w) && c in w.calls && w.calls[c].ClaimTaken?
    requires IsOrder(order, Overlaps(w.db, w.calls[c].row)) && other in Overlaps(w.db, w.calls[c].row)
    ensures var v := Run(Next(w, ClaimOverlaps(c, order)), after);
            && c in v.calls
            && (v.calls[c].ClaimReturned? ==> NotedOnBoth(v.db.notes, w.calls[c].key, other) && other in v.calls[c].found)
  {
    var w1 := Next(w, ClaimOverlaps(c, order));
    assert other in (set k | k in order);
    assert Reporting(w1, c, w.calls[c].key, order);
    ReportingRun(w1, after, c, w.calls[c].key, order);
    ConflictNext(w, ClaimOverlaps(c, order));
    ConflictRun(w1, after);
    var v := Run(w1, after);
    if v.calls[c].ClaimReturned? { ReportOnBoard(v, c, other); }
  }

  /** Completeness, for every interleaving. After any schedule `before`, call `c` reads its overlaps;
      any other task that is active at that moment and shares a file is noted on both sides once the
      call has returned, whatever statements `after` holds and whoever else is claiming. */
  lemma {:induction false} ConflictsAreNoted(now: int, before: seq<Action>, c: nat, order: seq<string>, after: seq<Action>, other: string,
                           file: string)
    requires var w := Run(Start(now), before);
             && c in w.calls && w.calls[c].ClaimTaken?
             && IsOrder(order, Overlaps(w.db, w.calls[c].row))
             && other in w.db.tasks && other != w.calls[c].key
             && w.db.tasks[other].status in {Claimed, InProgress, InReview}
             && file in w.db.tasks[other].spec.files && file in w.calls[c].row.spec.files
    ensures var w := Run(Start(now), before);
            var v := Run(Next(w, ClaimOverlaps(c, order)), after);
            && c in v.calls
            && (v.calls[c].ClaimReturned? ==> NotedOnBoth(v.db.notes, w.calls[c].key, other) && other in v.calls[c].found)
  {
    hide Next;
    var w := Run(Start(now), before);
    ConflictRun(Start(now), before);
    KeysRun(now, before);
    assert other in Overlaps(w.db, w.calls[c].row);
    ReadThenNoted(w, c, order, after, other);
  }

  /** Statements that can take a task out of the active statuses. */
  predicate MayDeactivate(a: Action, key: string) {
    a.SweepUpdate? || (a.SetStatus? && Upper(a.key) == key)
  }

  lemma {:induction false} StaysActive(w: World, schedule: seq<Action>, key: string)
    requires key in w.db.tasks && w.db.tasks[key].status.Active()
    requires forall a :: a in schedule ==> !MayDeactivate(a, key)
    ensures key in Run(w, schedule).db.tasks && Run(w, schedule).db.tasks[key].status.Active()
    ensures Run(w, schedule).db.tasks[key].spec == w.db.tasks[key].spec
    decreases |schedule|
  {
    if schedule != [] {
      var s, a := schedule[..|schedule| - 1], schedule[|schedule| - 1];
      assert forall b :: b in s ==> b in schedule;
      StaysActive(w, s, key);
      NextEvolves(Run(w, s), a);
      StaysActiveNext(Run(w, s), a, key);
    }
  }

  lemma StaysActiveNext(w: World, a: Action, key: string)
    requires key in w.db.tasks && w.db.tasks[key].status.Active() && !MayDeactivate(a, key)
    ensures key in Next(w, a).db.tasks && Next(w, a).db.tasks[key].status.Active()
  {
  }

  lemma RaceFrom(u: World, c: nat, between: seq<Action>, d: nat, order: seq<string>, after: seq<Action>)
    requires ConflictInv(u) && KeysInv(u)
    requires c in u.calls && u.calls[c].ClaimTaken? && u.calls[c].key in u.db.tasks
    requires u.db.tasks[u.calls[c].key].status.Active()
    requires forall a :: a in between ==> !MayDeactivate(a, u.calls[c].key)
    requires var x := Run(u, between);
             && d in x.calls && x.calls[d].ClaimTaken?
             && u.calls[c].key != x.calls[d].key
             && Shares(u.calls[c].row.spec.files, x.calls[d].row.spec.files)
             && IsOrder(order, Overlaps(x.db, x.calls[d].row))
    ensures var x := Run(u, between);
            var v := Run(Next(x, ClaimOverlaps(d, order)), after);
            && d in v.calls
            && (v.calls[d].ClaimReturned? ==> NotedOnBoth(v.db.notes, x.calls[d].key, u.calls[c].key))
  {
    hide Next;
    ConflictRun(u, between);
    KeysRunFrom(u, between);
    StaysActive(u, between, u.calls[c].key);
    var x := Run(u, between);
    assert u.calls[c].key in Overlaps(x.db, x.calls[d].row);
    ReadThenNoted(x, d, order, after, u.calls[c].key);
  }

  lemma TakenIsActive(w: World, c: nat)
    requires c in w.calls && w.calls[c].ClaimChecked? && Next(w, ClaimUpdate(c)).calls[c].ClaimTaken?
    ensures var u := Next(w, ClaimUpdate(c));
            && u.calls[c].key == w.calls[c].key
            && u.calls[c].key in u.db.tasks && u.db.tasks[u.calls[c].key].status.Active()
  {
  }

  /** From `w`, call `c` wins its update on one task; `between` holds anything except taking that task
      out of play, in particular the update of a second claim `d` on a task sharing a file, wherever it
      falls; then `d` reads its overlaps in the order `order`. */
  ghost predicate Races(w: World, c: nat, between: seq<Action>, d: nat, order: seq<string>) {
    var u := Next(w, ClaimUpdate(c));
    var x := Run(u, between);
    && c in w.calls && w.calls[c].ClaimChecked? && u.calls[c].ClaimTaken?
    && d in x.calls && x.calls[d].ClaimTaken?
    && u.calls[c].key != x.calls[d].key
    && Shares(u.calls[c].row.spec.files, x.calls[d].row.spec.files)
    && (forall a :: a in between ==> !MayDeactivate(a, u.calls[c].key))
    && IsOrder(order, Overlaps(x.db, x.calls[d].row))
  }

  /** The state after such a race, once `d` has read its overlaps and anything at all has followed. */
  function Raced(w: World, c: nat, between: seq<Action>, d: nat, order: seq<string>, after: seq<Action>): World {
    Run(Next(Run(Next(w, ClaimUpdate(c)), between), ClaimOverlaps(d, order)), after)
  }

  lemma RaceNoted(w: World, c: nat, between: seq<Action>, d: nat, order: seq<string>, after: seq<Action>)
    requires ConflictInv(w) && KeysInv(w) && Races(w, c, between, d, order)
    ensures var v := Raced(w, c, between, d, order, after);
            && d in v.calls
            && (v.calls[d].ClaimReturned? ==>
                  NotedOnBoth(v.db.notes, Run(Next(w, ClaimUpdate(c)), between).calls[d].key, w.calls[c].key))
  {
    hide Next;
    CallsEvolve(w, ClaimUpdate(c));
    ConflictNext(w, ClaimUpdate(c));
    KeysNext(w, ClaimUpdate(c));
    TakenIsActive(w, c);
    RaceFrom(Next(w, ClaimUpdate(c)), c, between, d, order, after);
  }

  /** Two claims racing on tasks that share a file: when the one that reads its overlaps after the
      other's update returns, both tasks name each other. */
  lemma {:induction false} RacingClaimsAreNoted(
    now: int, before: seq<Action>, c: nat, between: seq<Action>, d: nat, order: seq<string>, after: seq<Action>)
    requires Races(Run(Start(now), before), c, between, d, order)
    ensures var w := Run(Start(now), before);
            var v := Raced(w, c, between, d, order, after);
            && d in v.calls
            && (v.calls[d].ClaimReturned? ==>
                  NotedOnBoth(v.db.notes, Run(Next(w, ClaimUpdate(c)), between).calls[d].key, w.calls[c].key))
  {
    ConflictRun(Start(now), before);
    KeysRun(now, before);
    RaceNoted(Run(Start(now), before), c, between, d, order, after);
  }

  // ---- what the notes assert -------------------------------------------------------

  /** After `i` statements of the schedule the account had claimed the task, and every task of `found`
      was another active task sharing a file with it. */
  ghost predicate ReadAt(start: World, schedule: seq<Action>, i: nat, key: string, account: int, found: seq<string>) {
    && i <= |schedule|
    && var w := Run(start, schedule[..i]);
    && ClaimedSince(w.log, 0, key, account)
    && GenuineOverlaps(w.db, key, found)
    && forall o :: o in found ==> w.db.tasks[o].status in {Claimed, InProgress, InReview}
  }

  ghost predicate ReadSometime(start: World, schedule: seq<Action>, key: string, account: int, found: seq<string>) {
    exists i: nat :: ReadAt(start, schedule, i, key, account, found)
  }

  /** What a conflict note says was so at some moment of the schedule. */
  ghost predicate WasSo(start: World, schedule: seq<Action>, n: Note) {
    && (n.body.FileOverlap? ==> n.author.Some? && ReadSometime(start, schedule, n.task, n.author.value, n.body.names))
    && (n.body.ClaimedOver? ==> n.author.Some? && ReadSometime(start, schedule, n.body.key, n.author.value, [n.task]))
  }

  predicate IsConflict(body: NoteBody) {
    body.FileOverlap? || body.ClaimedOver?
  }

  /** The note was posted by hand at statement `i`. */
  ghost predicate PostedAt(start: World, schedule: seq<Action>, i: nat, n: Note) {
    && i < |schedule| && schedule[i].AddNote?
    && Upper(schedule[i].key) in Run(start, schedule[..i]).db.tasks
    && n == Note(Upper(schedule[i].key), schedule[i].author, schedule[i].body)
  }

  ghost predicate Posted(start: World, schedule: seq<Action>, n: Note) {
    exists i: nat :: PostedAt(start, schedule, i, n)
  }

  /** Every report under way goes back to a read, and every conflict note to a read or to a client. */
  ghost predicate ReadsInv(start: World, schedule: seq<Action>) {
    var w := Run(start, schedule);
    && (forall c :: c in w.calls && w.calls[c].ClaimNoting? ==>
          ReadSometime(start, schedule, w.calls[c].key, w.calls[c].account, w.calls[c].found))
    && (forall n :: n in w.db.notes ==> Posted(start, schedule, n) || WasSo(start, schedule, n))
  }

  lemma ReadStays(start: World, schedule: seq<Action>, a: Action, key: string, account: int, found: seq<string>)
    requires ReadSometime(start, schedule, key, account, found)
    ensures ReadSometime(start, schedule + [a], key, account, found)
  {
    var i: nat :| ReadAt(start, schedule, i, key, account, found);
    assert (schedule + [a])[..i] == schedule[..i];
    assert ReadAt(start, schedule + [a], i, key, account, found);
  }

  lemma ReadNow(start: World, schedule: seq<Action>, a: Action, c: nat)
    requires var w := Run(start, schedule);
             && TakenInv(w) && a.ClaimOverlaps? && a.cid == c && c in w.calls && w.calls[c].ClaimTaken?
             && IsOrder(a.order, Overlaps(w.db, w.calls[c].row))
    ensures var k := Run(start, schedule).calls[c];
            ReadSometime(start, schedule + [a], k.key, k.account, a.order)
  {
    var w := Run(start, schedule);
    OverlapsGenuine(w, c, a.order);
    forall o | o in a.order ensures w.db.tasks[o].status in {Claimed, InProgress, InReview} {
      assert o in set k | k in a.order;
      assert o in Overlaps(w.db, w.calls[c].row);
    }
    assert (schedule + [a])[..|schedule|] == schedule;
    assert ReadAt(start, schedule + [a], |schedule|, w.calls[c].key, w.calls[c].account, a.order);
  }

  lemma NotingWasRead(start: World, schedule: seq<Action>, a: Action, c: nat)
    requires ReadsInv(start, schedule) && TakenInv(Run(start, schedule))
    requires c in Next(Run(start, schedule), a).calls && Next(Run(start, schedule), a).calls[c].ClaimNoting?
    ensures var k := Next(Run(start, schedule), a).calls[c];
            ReadSometime(start, schedule + [a], k.key, k.account, k.found)
  {
    hide Run;
    var w := Run(start, schedule);
    OnlyOwnStatementsMoveReports(w, a, c);
    if c in w.calls && w.calls[c].ClaimNoting? {
      ReadStays(start, schedule, a, w.calls[c].key, w.calls[c].account, w.calls[c].found);
    } else {
      ReadNow(start, schedule, a, c);
    }
  }

  lemma PartRead(start: World, schedule: seq<Action>, key: string, account: int, found: seq<string>, other: string)
    requires ReadSometime(start, schedule, key, account, found) && other in found
    ensures ReadSometime(start, schedule, key, account, [other])
  {
    var i: nat :| ReadAt(start, schedule, i, key, account, found);
    assert ReadAt(start, schedule, i, key, account, [other]);
  }

  /** A statement adds a conflict note as the next of a claim's report, or because a client posts it. */
  lemma NotesAdded(w: World, a: Action, n: Note)
    requires n in Next(w, a).db.notes && n !in w.db.notes && IsConflict(n.body)
    ensures || (a.AddNote? && Upper(a.key) in w.db.tasks && n == Note(Upper(a.key), a.author, a.body))
            || (a.ClaimNote? && a.cid in w.calls && w.calls[a.cid].ClaimNoting?
                && w.calls[a.cid].written <= |w.calls[a.cid].found|
                && n == ConflictNote(w.calls[a.cid].key, w.calls[a.cid].account, w.calls[a.cid].found, w.calls[a.cid].written))
  {
  }

  lemma PostedStays(start: World, schedule: seq<Action>, a: Action, n: Note)
    requires Posted(start, schedule, n)
    ensures Posted(start, schedule + [a], n)
  {
    var i: nat :| PostedAt(start, schedule, i, n);
    assert (schedule + [a])[..i] == schedule[..i];
    assert PostedAt(start, schedule + [a], i, n);
  }

  lemma WasSoStays(start: World, schedule: seq<Action>, a: Action, n: Note)
    requires WasSo(start, schedule, n)
    ensures WasSo(start, schedule + [a], n)
  {
    if n.body.FileOverlap? { ReadStays(start, schedule, a, n.task, n.author.value, n.body.names); }
    if n.body.ClaimedOver? { ReadStays(start, schedule, a, n.body.key, n.author.value, [n.task]); }
  }

  lemma PostedNow(start: World, schedule: seq<Action>, a: Action)
    requires a.AddNote? && Upper(a.key) in Run(start, schedule).db.tasks
    ensures Posted(start, schedule + [a], Note(Upper(a.key), a.author, a.body))
  {
    assert (schedule + [a])[..|schedule|] == schedule;
    assert PostedAt(start, schedule + [a], |schedule|, Note(Upper(a.key), a.author, a.body));
  }

  lemma NoteTraced(start: World, schedule: seq<Action>, a: Action, n: Note)
    requires ReadsInv(start, schedule) && n in Next(Run(start, schedule), a).db.notes
    ensures Posted(start, schedule + [a], n) || WasSo(start, schedule + [a], n)
  {
    hide Next, Run;
    var w := Run(start, schedule);
    if n in w.db.notes {
      if Posted(start, schedule, n) { PostedStays(start, schedule, a, n); } else { WasSoStays(start, schedule, a, n); }
    } else if IsConflict(n.body) {
      NotesAdded(w, a, n);
      if a.AddNote? {
        PostedNow(start, schedule, a);
      } else {
        var c := w.calls[a.cid];
        ReadStays(start, schedule, a, c.key, c.account, c.found);
        if c.written > 0 { PartRead(start, schedule + [a], c.key, c.account, c.found, n.task); }
      }
    }
  }

  lemma ReadsNext(start: World, schedule: seq<Action>, a: Action)
    requires ReadsInv(start, schedule) && TakenInv(Run(start, schedule))
    ensures ReadsInv(start, schedule + [a])
  {
    RunOne(start, schedule, a);
    var v := Next(Run(start, schedule), a);
    forall c | c in v.calls && v.calls[c].ClaimNoting?
      ensures ReadSometime(start, schedule + [a], v.calls[c].key, v.calls[c].account, v.calls[c].found)
    {
      NotingWasRead(start, schedule, a, c);
    }
    forall n | n in v.db.notes ensures Posted(start, schedule + [a], n) || WasSo(start, schedule + [a], n) {
      NoteTraced(start, schedule, a, n);
    }
  }

  lemma {:induction false} ReadsRun(now: int, schedule: seq<Action>)
    ensures ReadsInv(Start(now), schedule)
    decreases |schedule|
  {
    hide Next;
    if schedule != [] {
      var s := schedule[..|schedule| - 1];
      ReadsRun(now, s);
      ConflictRun(Start(now), s);
      ReadsNext(Start(now), s, schedule[|s|]);
      assert s + [schedule[|s|]] == schedule;
    }
  }

  /** A conflict note still tells the truth: its author claimed the one task, and the others exist, are
      different tasks and share a file with it. */
  ghost predicate Truthful(w: World, n: Note) {
    && (n.body.FileOverlap? ==>
          n.author.Some? && ClaimedSince(w.log, 0, n.task, n.author.value) && GenuineOverlaps(w.db, n.task, n.body.names))
    && (n.body.ClaimedOver? ==>
          n.author.Some? && ClaimedSince(w.log, 0, n.body.key, n.author.value) && GenuineOverlaps(w.db, n.body.key, [n.task]))
  }

  lemma ReadHolds(start: World, schedule: seq<Action>, key: string, account: int, found: seq<string>)
    requires ReadSometime(start, schedule, key, account, found)
    ensures var v := Run(start, schedule); ClaimedSince(v.log, 0, key, account) && GenuineOverlaps(v.db, key, found)
  {
    hide Next;
    var i: nat :| ReadAt(start, schedule, i, key, account, found);
    assert schedule == schedule[..i] + schedule[i..];
    RunAppend(start, schedule[..i], schedule[i..]);
    RunEvolves(Run(start, schedule[..i]), schedule[i..]);
    GenuineStable(Run(start, schedule[..i]), Run(start, schedule), key, found);
    ClaimedSinceGrows(Run(start, schedule[..i]).log, 0, Run(start, schedule).log, 0, key, account);
  }

  /** What was so once is so for good, but for the activity of the tasks named. */
  lemma OnceSoStillTrue(start: World, schedule: seq<Action>, n: Note)
    requires WasSo(start, schedule, n)
    ensures Truthful(Run(start, schedule), n)
  {
    if n.body.FileOverlap? { ReadHolds(start, schedule, n.task, n.author.value, n.body.names); }
    if n.body.ClaimedOver? { ReadHolds(start, schedule, n.body.key, n.author.value, [n.task]); }
  }

  /** Truth, for every interleaving: a conflict note on the board was posted by a client, or else its
      author had claimed the task and, at some moment of the schedule, the tasks it names were other
      active tasks sharing a file with it; they still are other tasks sharing a file. */
  lemma {:induction false} ClaimNotesAreTrue(now: int, schedule: seq<Action>, n: Note)
    requires n in Run(Start(now), schedule).db.notes && !Posted(Start(now), schedule, n)
    ensures WasSo(Start(now), schedule, n) && Truthful(Run(Start(now), schedule), n)
  {
    ReadsRun(now, schedule);
    OnceSoStillTrue(Start(now), schedule, n);
  }

  lemma {:induction false} PostedIsThere(start: World, schedule: seq<Action>, i: nat, n: Note)
    requires PostedAt(start, schedule, i, n)
    ensures n in Run(start, schedule).db.notes
  {
    var a, rest := schedule[i], schedule[i + 1..];
    var w := Run(start, schedule[..i]);
    RunSnoc(start, schedule, i);
    assert schedule == schedule[..i + 1] + rest;
    RunAppend(start, schedule[..i + 1], rest);
    var u := Next(w, a);
    assert u.db.notes[|w.db.notes|] == n;
    RunEvolves(u, rest);
    assert Run(start, schedule).db.notes[|w.db.notes|] == n;
  }

  /** Exactly when every conflict note on the board was so: when every one that a client posted was. */
  lemma {:induction false} ConflictNotesAreTrueExactlyWhen(now: int, schedule: seq<Action>)
    ensures (forall n :: n in Run(Start(now), schedule).db.notes ==> WasSo(Start(now), schedule, n))
            <==> (forall n :: Posted(Start(now), schedule, n) ==> WasSo(Start(now), schedule, n))
  {
    ReadsRun(now, schedule);
    forall n | Posted(Start(now), schedule, n) ensures n in Run(Start(now), schedule).db.notes {
      var i: nat :| PostedAt(Start(now), schedule, i, n);
      PostedIsThere(Start(now), schedule, i, n);
    }
  }

  /** No client posts a note in the words of a claim. */
  predicate NoForgeries(schedule: seq<Action>) {
    forall a :: a in schedule && a.AddNote? ==> !IsConflict(a.body)
  }

  /** In particular all conflict notes are true over every schedule without forgeries. */
  lemma {:induction false} ConflictNotesAreTrue(now: int, schedule: seq<Action>, n: Note)
    requires NoForgeries(schedule) && n in Run(Start(now), schedule).db.notes
    ensures WasSo(Start(now), schedule, n) && Truthful(Run(Start(now), schedule), n)
  {
    ReadsRun(now, schedule);
    if i: nat :| PostedAt(Start(now), schedule, i, n) {
      assert schedule[i] in schedule;
    }
    OnceSoStillTrue(Start(now), schedule, n);
  }

  /** And from every reachable board a client can make it false: a posted claim note whose author never
      claimed the task it names is on the board, and was never so. */
  lemma {:induction false} ForgeriesAreStored(now: int, schedule: seq<Action>, key: string, author: int, named: string)
    requires var w := Run(Start(now), schedule);
             Upper(key) in w.db.tasks && !ClaimedSince(w.log, 0, named, author)
    ensures var s := schedule + [AddNote(key, Some(author), ClaimedOver(named))];
            var n := Note(Upper(key), Some(author), ClaimedOver(named));
            n in Run(Start(now), s).db.notes && !WasSo(Start(now), s, n)
  {
    var w := Run(Start(now), schedule);
    var a := AddNote(key, Some(author), ClaimedOver(named));
    var s := schedule + [a];
    var n := Note(Upper(key), Some(author), ClaimedOver(named));
    RunOne(Start(now), schedule, a);
    var v := Next(w, a);
    assert v.db.notes[|w.db.notes|] == n && v.log == w.log;
    if WasSo(Start(now), s, n) {
      OnceSoStillTrue(Start(now), s, n);
    }
  }
}
