/** Calls running side by side: what the others may do to a call, and how long they take. */
module BoardCalls {
  import opened BoardModel
  import opened BoardInvariants

  /** The call that an action belongs to, if it is a statement of a multi-statement call. */
  predicate Drives(a: Action, me: nat) {
    match a
    case CreateSelectGoal(c, _, _) => c == me
    case CreateBumpSeq(c) => c == me
    case CreateInsert(c) => c == me
    case ClaimSelect(c, _, _) => c == me
    case ClaimCheck(c) => c == me
    case ClaimUpdate(c) => c == me
    case ClaimOverlaps(c, _) => c == me
    case ClaimNote(c) => c == me
    case SweepUpdate(c, _, _) => c == me
    case SweepNote(c) => c == me
    case SubmitSelect(c, _, _) => c == me
    case SubmitWrite(c, _, _) => c == me
    case _ => false
  }

  predicate OthersOnly(others: seq<Action>, me: nat) {
    forall a :: a in others ==> !Drives(a, me)
  }

  /** What the others do in each gap of call `me`: anything but statements of that call. */
  ghost predicate OthersIn(gap: nat -> seq<Action>, me: nat) {
    forall i :: OthersOnly(gap(i), me)
  }

  /** Nobody else runs. */
  ghost predicate Quiet(gap: nat -> seq<Action>) {
    forall i :: gap(i) == []
  }

  /** Nobody moves a task to in-progress by hand in any gap. */
  ghost predicate RoutedIn(gap: nat -> seq<Action>) {
    forall i :: AllRouted(gap(i))
  }

  lemma OthersLeaveMyCall(w: World, a: Action, me: nat)
    requires !Drives(a, me)
    ensures me in Next(w, a).calls <==> me in w.calls
    ensures me in w.calls ==> Next(w, a).calls[me] == w.calls[me]
  {
  }

  lemma {:induction false} OthersLeaveMyCallRun(w: World, others: seq<Action>, me: nat)
    requires OthersOnly(others, me)
    ensures me in Run(w, others).calls <==> me in w.calls
    ensures me in w.calls ==> Run(w, others).calls[me] == w.calls[me]
    decreases |others|
  {
    if others != [] {
      var s, a := others[..|others| - 1], others[|others| - 1];
      assert forall b :: b in s ==> b in others;
      OthersLeaveMyCallRun(w, s, me);
      OthersLeaveMyCall(Run(w, s), a, me);
    }
  }

  // ---- time ------------------------------------------------------------------------------

  function Elapsed(schedule: seq<Action>): nat {
    if schedule == [] then 0
    else
      var a := schedule[|schedule| - 1];
      Elapsed(schedule[..|schedule| - 1]) + if a.Tick? then a.elapsed else 0
  }

  ghost predicate CallsBelow(w: World, bound: nat) {
    forall c :: c in w.calls ==> c < bound
  }

  ghost predicate UsesCallsBelow(schedule: seq<Action>, bound: nat) {
    forall a, c: nat :: a in schedule && Drives(a, c) ==> c < bound
  }

  lemma StepElapses(w: World, a: Action, bound: nat)
    requires CallsBelow(w, bound) && forall c: nat :: Drives(a, c) ==> c < bound
    ensures CallsBelow(Next(w, a), bound)
    ensures Next(w, a).db.now == w.db.now + if a.Tick? then a.elapsed else 0
    ensures w.log <= Next(w, a).log
  {
    forall c | c in Next(w, a).calls ensures c < bound {
      if !Drives(a, c) { OthersLeaveMyCall(w, a, c); }
    }
  }

  lemma {:induction false} RunElapses(w: World, schedule: seq<Action>, bound: nat)
    requires CallsBelow(w, bound) && UsesCallsBelow(schedule, bound)
    ensures CallsBelow(Run(w, schedule), bound)
    ensures Run(w, schedule).db.now == w.db.now + Elapsed(schedule)
    ensures w.log <= Run(w, schedule).log
    decreases |schedule|
  {
    if schedule != [] {
      var s := schedule[..|schedule| - 1];
      assert forall a :: a in s ==> a in schedule;
      RunElapses(w, s, bound);
      StepElapses(Run(w, s), schedule[|s|], bound);
    }
  }

  /** The time that passes in the first `n` gaps. */
  function GapTime(gap: nat -> seq<Action>, n: nat): nat {
    if n == 0 then 0 else GapTime(gap, n - 1) + Elapsed(gap(n - 1))
  }

  ghost predicate GapsBelow(gap: nat -> seq<Action>, bound: nat) {
    forall i :: UsesCallsBelow(gap(i), bound)
  }

  lemma {:induction false} ElapsedAppend(s: seq<Action>, t: seq<Action>)
    ensures Elapsed(s + t) == Elapsed(s) + Elapsed(t)
    decreases |t|
  {
    if t == [] {
      assert s + t == s;
    } else {
      assert (s + t)[..|s + t| - 1] == s + t[..|t| - 1];
      ElapsedAppend(s, t[..|t| - 1]);
    }
  }

  /** The schedule of call `me` through its gaps from one up to another: it takes just their time, uses
      no later call, and starts nothing by hand unless the others do. */
  ghost predicate ThroughGaps(sched: seq<Action>, gap: nat -> seq<Action>, from: nat, to: nat, me: nat) {
    && Elapsed(sched) + GapTime(gap, from) == GapTime(gap, to)
    && (GapsBelow(gap, me) ==> UsesCallsBelow(sched, me + 1))
    && (RoutedIn(gap) ==> AllRouted(sched))
  }

  lemma ThroughNone(gap: nat -> seq<Action>, at: nat, me: nat)
    ensures ThroughGaps([], gap, at, at, me)
  {
  }

  /** One more statement of the call, which takes no time of its own, and the gap after it. */
  lemma ThroughOneMore(sched: seq<Action>, gap: nat -> seq<Action>, from: nat, to: nat, me: nat, a: Action)
    requires ThroughGaps(sched, gap, from, to, me)
    requires !a.Tick? && Routed(a) && forall c: nat :: Drives(a, c) ==> c == me
    ensures ThroughGaps(sched + ([a] + gap(to)), gap, from, to + 1, me)
  {
    ElapsedAppend(sched, [a] + gap(to));
    ElapsedAppend([a], gap(to));
    assert [a][..0] == [];
  }

  lemma ThroughBoth(s: seq<Action>, t: seq<Action>, gap: nat -> seq<Action>, from: nat, mid: nat, to: nat, me: nat)
    requires ThroughGaps(s, gap, from, mid, me) && ThroughGaps(t, gap, mid, to, me)
    ensures ThroughGaps(s + t, gap, from, to, me)
  {
    ElapsedAppend(s, t);
  }
}
