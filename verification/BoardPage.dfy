/** The board page's own conflict computation, which never asks the store. */
module BoardPage {
  import opened BoardModel

  /** A task as the page receives it. */
  datatype Card = Card(key: string, row: Task)

  /** The cards are the rows of the table, each once, in whatever order. */
  ghost predicate CardsOf(cards: seq<Card>, db: Db) {
    && (forall i :: 0 <= i < |cards| ==> cards[i].key in db.tasks && db.tasks[cards[i].key] == cards[i].row)
    && (forall k :: k in db.tasks ==> exists i :: 0 <= i < |cards| && cards[i].key == k)
    && Distinct(cards)
  }

  predicate Shown(c: Card) {
    c.row.status.Active() && c.row.spec.files != []
  }

  ghost predicate Distinct(cards: seq<Card>) {
    forall i, j :: 0 <= i < j < |cards| ==> cards[i].key != cards[j].key
  }

  method Filter(cards: seq<Card>) returns (active: seq<Card>)
    requires Distinct(cards)
    ensures Distinct(active) && forall c :: c in active <==> c in cards && Shown(c)
  {
    active := [];
    for i := 0 to |cards|
      invariant Distinct(active) && forall c :: c in active <==> c in cards[..i] && Shown(c)
    {
      assert cards[..i + 1] == cards[..i] + [cards[i]];
      assert forall c :: c in cards[..i] ==> c.key != cards[i].key;
      if Shown(cards[i]) { active := active + [cards[i]]; }
    }
    assert cards[..|cards|] == cards;
  }

  predicate Clash(active: seq<Card>, i: nat, j: nat)
    requires i < |active| && j < |active|
  {
    Shares(active[i].row.spec.files, active[j].row.spec.files)
  }

  /** The key is that of one side of a clashing pair among the pairs visited so far: all pairs whose
      lower index is below `i`, and those with lower index `i` and upper index below `j`. */
  ghost predicate Visited(active: seq<Card>, i: nat, j: nat, key: string) {
    exists a, b :: 0 <= a < b < |active| && (a < i || (a == i && b < j)) && Clash(active, a, b)
                   && (active[a].key == key || active[b].key == key)
  }

  /** The nested loop over pairs. */
  method ClashingKeys(active: seq<Card>) returns (conf: set<string>)
    ensures forall key :: key in conf <==> Visited(active, |active|, 0, key)
  {
    conf := {};
    for i := 0 to |active|
      invariant forall key :: key in conf <==> Visited(active, i, 0, key)
    {
      assert forall key :: Visited(active, i, 0, key) <==> Visited(active, i, i + 1, key);
      for j := i + 1 to |active|
        invariant forall key :: key in conf <==> Visited(active, i, j, key)
      {
        ghost var before := conf;
        if Clash(active, i, j) {
          conf := conf + {active[i].key, active[j].key};
        }
        forall key ensures key in conf <==> Visited(active, i, j + 1, key) {
          VisitOne(active, i, j, key);
        }
      }
      assert forall key :: Visited(active, i, |active|, key) <==> Visited(active, i + 1, 0, key);
    }
  }

  lemma VisitOne(active: seq<Card>, i: nat, j: nat, key: string)
    requires i < j < |active|
    ensures Visited(active, i, j + 1, key) <==>
            Visited(active, i, j, key) || (Clash(active, i, j) && (active[i].key == key || active[j].key == key))
  {
  }

  lemma SharesSymmetric(a: seq<string>, b: seq<string>)
    ensures Shares(a, b) == Shares(b, a)
  {
    if Shares(a, b) { var f :| f in a && f in b; assert f in b && f in a; }
    if Shares(b, a) { var f :| f in b && f in a; assert f in a && f in b; }
  }

  /** A clashing pair, from the side of the lower card, is what the store calls an overlap. */
  lemma ClashIsOverlap(cards: seq<Card>, db: Db, active: seq<Card>, a: nat, b: nat)
    requires CardsOf(cards, db) && forall k, j :: k in db.tasks && j in db.tasks && db.tasks[k].id == db.tasks[j].id ==> k == j
    requires forall c :: c in active <==> c in cards && Shown(c)
    requires a < |active| && b < |active| && active[a].key != active[b].key && Clash(active, a, b)
    ensures active[a].key in db.tasks && db.tasks[active[a].key] == active[a].row && active[a].row.status.Active()
    ensures active[b].key in Overlaps(db, active[a].row)
  {
    assert active[a] in cards && active[b] in cards;
    SharesSymmetric(active[a].row.spec.files, active[b].row.spec.files);
  }

  lemma OverlapIsClash(cards: seq<Card>, db: Db, active: seq<Card>, key: string, other: string)
    requires CardsOf(cards, db)
    requires forall c :: c in active <==> c in cards && Shown(c)
    requires key in db.tasks && db.tasks[key].status.Active() && other in Overlaps(db, db.tasks[key])
    ensures Visited(active, |active|, 0, key)
  {
    var row, oth := db.tasks[key], db.tasks[other];
    assert Card(key, row) in cards && Card(other, oth) in cards;
    assert Card(key, row) in active && Card(other, oth) in active;
    var a :| 0 <= a < |active| && active[a] == Card(key, row);
    var b :| 0 <= b < |active| && active[b] == Card(other, oth);
    SharesSymmetric(row.spec.files, oth.spec.files);
    if a < b { assert Clash(active, a, b); } else { assert Clash(active, b, a); }
  }

  /** Two different tasks that are claimed, in progress or in review and touch a common file. */
  predicate Conflicting(db: Db, key: string, other: string) {
    && key in db.tasks && other in db.tasks && key != other
    && db.tasks[key].status in {Claimed, InProgress, InReview} && db.tasks[other].status in {Claimed, InProgress, InReview}
    && exists file :: file in db.tasks[key].spec.files && file in db.tasks[other].spec.files
  }

  /** What the store reports for an active task are the tasks in conflict with it. */
  lemma OverlapsConflict(db: Db, key: string, other: string)
    requires forall k, j :: k in db.tasks && j in db.tasks && db.tasks[k].id == db.tasks[j].id ==> k == j
    requires key in db.tasks && db.tasks[key].status in {Claimed, InProgress, InReview}
    ensures other in Overlaps(db, db.tasks[key]) <==> Conflicting(db, key, other)
  {
    if other in db.tasks { SharesSymmetric(db.tasks[key].spec.files, db.tasks[other].spec.files); }
  }

  /** The page marks exactly the tasks in conflict with some other, which are the active tasks for which
      the store would report an overlap. */
  method ConflictSet(cards: seq<Card>, ghost db: Db) returns (conf: set<string>)
    requires CardsOf(cards, db)
    requires forall k, j :: k in db.tasks && j in db.tasks && db.tasks[k].id == db.tasks[j].id ==> k == j
    ensures forall key :: key in conf <==> exists other :: Conflicting(db, key, other)
    ensures forall key :: key in conf <==>
              key in db.tasks && db.tasks[key].status.Active() && Overlaps(db, db.tasks[key]) != {}
  {
    var active := Filter(cards);
    conf := ClashingKeys(active);
    forall key ensures key in conf <==> (exists other :: Conflicting(db, key, other))
      ensures key in conf <==> key in db.tasks && db.tasks[key].status.Active() && Overlaps(db, db.tasks[key]) != {}
    {
      MarkedExactly(cards, db, active, key);
    }
  }

  lemma MarkedExactly(cards: seq<Card>, db: Db, active: seq<Card>, key: string)
    requires CardsOf(cards, db)
    requires forall k, j :: k in db.tasks && j in db.tasks && db.tasks[k].id == db.tasks[j].id ==> k == j
    requires Distinct(active) && forall c :: c in active <==> c in cards && Shown(c)
    ensures Visited(active, |active|, 0, key) <==>
            key in db.tasks && db.tasks[key].status.Active() && Overlaps(db, db.tasks[key]) != {}
    ensures Visited(active, |active|, 0, key) <==> exists other :: Conflicting(db, key, other)
  {
    if Visited(active, |active|, 0, key) {
      var a, b :| 0 <= a < b < |active| && Clash(active, a, b) && (active[a].key == key || active[b].key == key);
      ClashIsOverlap(cards, db, active, a, b);
      SharesSymmetric(active[a].row.spec.files, active[b].row.spec.files);
      ClashIsOverlap(cards, db, active, b, a);
      OverlapsConflict(db, active[a].key, active[b].key);
      OverlapsConflict(db, active[b].key, active[a].key);
    }
    if other :| Conflicting(db, key, other) {
      OverlapsConflict(db, key, other);
    }
    if key in db.tasks && db.tasks[key].status.Active() && Overlaps(db, db.tasks[key]) != {} {
      var other :| other in Overlaps(db, db.tasks[key]);
      OverlapIsClash(cards, db, active, key, other);
    }
  }
}
