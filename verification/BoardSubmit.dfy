/** Submitting checks the assignee long before it writes. What the check still means at the write. */
module BoardSubmit {
  import opened Prelude
  import opened BoardModel
  import opened BoardHistory
  import opened BoardInvariants

  /** At its check, the submitter held the task or nobody did. */
  ghost predicate SubmitOk(w: World, c: Call) {
    c.SubmitChecked? ==>
      && c.key in w.db.tasks
      && c.since <= |w.log|
      && (HolderAccount(w.log[..c.since], c.key) == None || HolderAccount(w.log[..c.since], c.key) == Some(c.account))
  }

  ghost predicate SubmitInv(w: World) {
    HolderInv(w) && forall c :: c in w.calls ==> SubmitOk(w, w.calls[c])
  }

  lemma SubmitMoves(w: World, a: Action, c: nat)
    requires c in Next(w, a).calls && Next(w, a).calls[c].SubmitChecked?
    ensures var v := Next(w, a);
            || (c in w.calls && v.calls[c] == w.calls[c])
            || (v.log == w.log && v.calls[c].since == |w.log| && v.calls[c].key in w.db.tasks
                && MaySubmit(w.db.tasks[v.calls[c].key], v.calls[c].account))
  {
  }

  lemma {:induction false} SubmitNext(w: World, a: Action)
    requires SubmitInv(w)
    ensures SubmitInv(Next(w, a))
  {
    hide Next;
    var v := Next(w, a);
    HolderNext(w, a);
    NextEvolves(w, a);
    forall c | c in v.calls ensures SubmitOk(v, v.calls[c]) {
      if v.calls[c].SubmitChecked? {
        SubmitMoves(w, a, c);
        if c in w.calls && v.calls[c] == w.calls[c] {
          assert SubmitOk(w, w.calls[c]);
          assert v.log[..v.calls[c].since] == w.log[..v.calls[c].since];
        } else {
          assert v.log[..|w.log|] == w.log;
        }
      }
    }
  }

  lemma {:induction false} SubmitRun(w: World, schedule: seq<Action>)
    requires SubmitInv(w)
    ensures SubmitInv(Run(w, schedule))
    decreases |schedule|
  {
    hide Next;
    if schedule != [] {
      SubmitRun(w, schedule[..|schedule| - 1]);
      SubmitNext(Run(w, schedule[..|schedule| - 1]), schedule[|schedule| - 1]);
    }
  }

  /** The write lands on a task assigned to someone else exactly when that other account's claim came
      after the check and is still the last word on the task. */
  lemma {:induction false} SubmitLandsElsewhere(now: int, schedule: seq<Action>, c: nat)
    requires c in Run(Start(now), schedule).calls && Run(Start(now), schedule).calls[c].SubmitChecked?
    ensures var w := Run(Start(now), schedule);
            var s := w.calls[c];
            && s.key in w.db.tasks && s.since <= |w.log|
            && (!MaySubmit(w.db.tasks[s.key], s.account)
                <==> (Holder(w.log[s.since..], s.key).Some? && Holder(w.log[s.since..], s.key).value.account != s.account))
  {
    SubmitRun(Start(now), schedule);
    LandsElsewhere(Run(Start(now), schedule), c);
  }

  lemma LandsElsewhere(w: World, c: nat)
    requires SubmitInv(w) && c in w.calls && w.calls[c].SubmitChecked?
    ensures var s := w.calls[c];
            && s.key in w.db.tasks && s.since <= |w.log|
            && (!MaySubmit(w.db.tasks[s.key], s.account)
                <==> (Holder(w.log[s.since..], s.key).Some? && Holder(w.log[s.since..], s.key).value.account != s.account))
  {
    hide Next;
    var s := w.calls[c];
    assert SubmitOk(w, s);
    assert w.log == w.log[..s.since] + w.log[s.since..];
    HolderAppend(w.log[..s.since], w.log[s.since..], s.key);
    HolderWithin(w.log[s.since..], s.key);
  }

  lemma HolderWithin(log: seq<Event>, key: string)
    ensures Holder(log, key).Some? ==> exists i :: 0 <= i < |log| && (IsClaim(log[i], key) || IsReturn(log[i], key))
  {
  }
}
