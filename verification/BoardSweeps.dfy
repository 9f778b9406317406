/** Sweeping again and again: how fresh the latest sweep is. */
module BoardSweeps {
  import opened Prelude
  import opened BoardModel
  import opened BoardInvariants
  import opened BoardCalls

  /** One turn of the sweeper: where its sweep raises, if it does (0: at the update; n + 1: with n notes
      written), and what everyone else does between its statements and while it sleeps. */
  datatype Round = Round(failsAt: Option<nat>, gap: nat -> seq<Action>, during: seq<Action>) {
    /** The sweep's update came through. */
    predicate Releases() { failsAt != Some(0) }

    /** Nobody moves a task to in-progress by hand. */
    ghost predicate AllRoutedIn() { RoutedIn(gap) && AllRouted(during) }

    /** The pause is no shorter than `least`; it and however much of the sweep comes before it take no
        longer than `most`; everybody else uses other calls than the sweeper's. */
    ghost predicate Timely(least: int, most: int, bound: nat) {
      && least <= Elapsed(during)
      && (forall n: nat :: GapTime(gap, n) + Elapsed(during) <= most)
      && UsesCallsBelow(during, bound) && GapsBelow(gap, bound)
    }
  }

  ghost predicate EveryoneRouted(rounds: seq<Round>) {
    forall i :: 0 <= i < |rounds| ==> rounds[i].AllRoutedIn()
  }

  /** How far the rounds' calls reach, and how long each round takes. */
  ghost predicate AllTimely(rounds: seq<Round>, least: int, most: int, bound: nat) {
    forall i :: 0 <= i < |rounds| ==> rounds[i].Timely(least, most, bound)
  }

  lemma TimelyLater(round: Round, least: int, most: int, bound: nat, later: nat)
    requires round.Timely(least, most, bound) && bound <= later
    ensures round.Timely(least, most, later)
  {
  }

  /** The length of `n` pauses. */
  function Pauses(n: nat, pause: int): int {
    if n == 0 then 0 else Pauses(n - 1, pause) + pause
  }

  lemma {:induction false} PausesAdd(n: nat, pause: int)
    ensures Pauses(n, pause) == n * pause
  {
    if n > 0 { PausesAdd(n - 1, pause); }
  }

  /** Entry `i` of the history is a sweep with this TTL, no earlier than `since`. */
  ghost predicate SweptAt(log: seq<Event>, i: int, ttl: int, since: int) {
    0 <= i < |log| && log[i].Sweep? && log[i].ttl == ttl && log[i].at >= since
  }

  /** How many updates in a row have failed at the end. */
  function Streak(rounds: seq<Round>): (n: nat)
    ensures n <= |rounds|
  {
    if rounds == [] then 0
    else if !rounds[|rounds| - 1].Releases() then Streak(rounds[..|rounds| - 1]) + 1
    else 0
  }

  lemma StreakSnoc(rounds: seq<Round>, i: nat)
    requires i < |rounds|
    ensures Streak(rounds[..i + 1]) == if !rounds[i].Releases() then Streak(rounds[..i]) + 1 else 0
  {
    assert rounds[..i + 1][..i] == rounds[..i];
  }

  /** After some rounds, unless all of them failed: entry `last` is a sweep at most one pause older than
      the failures since. */
  ghost predicate RecentlySwept(log: seq<Event>, now: int, last: int, ttl: int, rounds: seq<Round>, pause: int) {
    Streak(rounds) < |rounds| ==> SweptAt(log, last, ttl, now - Pauses(Streak(rounds) + 1, pause))
  }

  lemma RecentlySweptNext(log: seq<Event>, now: int, last: int, ttl: int, rounds: seq<Round>, i: nat, pause: int,
                          after: seq<Event>, later: int)
    requires i < |rounds| && log <= after && later <= now + pause
    requires RecentlySwept(log, now, last, ttl, rounds[..i], pause)
    requires rounds[i].Releases() ==> SweptAt(after, |log|, ttl, now)
    ensures RecentlySwept(after, later, if !rounds[i].Releases() then last else |log|, ttl, rounds[..i + 1], pause)
  {
    StreakSnoc(rounds, i);
  }

  lemma RecentlySweptEnd(w: World, last: int, ttl: int, rounds: seq<Round>, pause: int)
    requires RecentlySwept(w.log, w.db.now, last, ttl, rounds, pause) && Streak(rounds) < |rounds|
    ensures SweptWithin(w, ttl, Pauses(Streak(rounds) + 1, pause))
  {
  }

  /** What the sweeper has achieved after its rounds. */
  ghost predicate SweptWell(w: World, ttl: int, rounds: seq<Round>, pause: int, leases: bool) {
    Streak(rounds) < |rounds| ==>
      && SweptWithin(w, ttl, Pauses(Streak(rounds) + 1, pause))
      && (leases ==> LeasesWithin(w, ttl + Pauses(Streak(rounds) + 1, pause)))
  }

  lemma SweeperEnd(start: World, sched: seq<Action>, last: int, ttl: int, rounds: seq<Round>, pause: int)
    requires var w := Run(start, sched); RecentlySwept(w.log, w.db.now, last, ttl, rounds, pause)
    requires EveryoneRouted(rounds) ==> AllRouted(sched)
    ensures SweptWell(Run(start, sched), ttl, rounds, pause, LeaseInv(start) && EveryoneRouted(rounds))
  {
    hide Next;
    var w := Run(start, sched);
    if Streak(rounds) < |rounds| {
      RecentlySweptEnd(w, last, ttl, rounds, pause);
      if LeaseInv(start) && EveryoneRouted(rounds) {
        LeaseRun(start, sched);
        SweptLeases(w, ttl, Pauses(Streak(rounds) + 1, pause));
      }
    }
  }
}
