/** Who holds a task, read off the history of claims and returns alone. */
module BoardHistory {
  import opened Prelude
  import opened BoardModel

  predicate IsClaim(e: Event, key: string) {
    e.Claim? && e.key == key
  }

  predicate IsReturn(e: Event, key: string) {
    (e.Release? && e.key == key) || (e.Sweep? && key in e.keys)
  }

  /** The history holds a claim of the task by the account, at or after entry `from`. */
  ghost predicate ClaimedSince(log: seq<Event>, from: nat, key: string, account: int) {
    exists i :: from <= i < |log| && IsClaim(log[i], key) && log[i].account == account
  }

  lemma ClaimedSinceGrows(log: seq<Event>, from: nat, more: seq<Event>, earlier: nat, key: string, account: int)
    requires ClaimedSince(log, from, key, account) && log <= more && earlier <= from
    ensures ClaimedSince(more, earlier, key, account)
  {
    var i :| from <= i < |log| && IsClaim(log[i], key) && log[i].account == account;
    assert more[i] == log[i];
  }

  /** The latest claim of the task, unless a return came after it. */
  function Holder(log: seq<Event>, key: string): (h: Option<Event>)
    ensures h.Some? ==> h.value in log && IsClaim(h.value, key)
  {
    if log == [] then None
    else
      var e := log[|log| - 1];
      if IsClaim(e, key) then Some(e)
      else if IsReturn(e, key) then None
      else Holder(log[..|log| - 1], key)
  }

  function HolderAccount(log: seq<Event>, key: string): Option<int> {
    match Holder(log, key)
    case Some(e) => Some(e.account)
    case None => None
  }

  lemma HolderSnoc(log: seq<Event>, e: Event, key: string)
    ensures Holder(log + [e], key) ==
            if IsClaim(e, key) then Some(e) else if IsReturn(e, key) then None else Holder(log, key)
  {
    assert (log + [e])[..|log|] == log;
  }

  /** Nothing happened to the task in the second part, or the second part alone decides the holder. */
  lemma {:induction false} HolderAppend(a: seq<Event>, b: seq<Event>, key: string)
    ensures Holder(a + b, key) ==
            if exists i :: 0 <= i < |b| && (IsClaim(b[i], key) || IsReturn(b[i], key)) then Holder(b, key)
            else Holder(a, key)
    decreases |b|
  {
    if b == [] {
      assert a + b == a;
    } else {
      var c := b[..|b| - 1];
      assert a + b == (a + c) + [b[|b| - 1]];
      assert b == c + [b[|b| - 1]];
      HolderSnoc(a + c, b[|b| - 1], key);
      HolderSnoc(c, b[|b| - 1], key);
      HolderAppend(a, c, key);
      if i :| 0 <= i < |c| && (IsClaim(c[i], key) || IsReturn(c[i], key)) {
        assert b[i] == c[i];
      }
      if i :| 0 <= i < |b| && (IsClaim(b[i], key) || IsReturn(b[i], key)) {
        assert i < |c| ==> c[i] == b[i];
      }
    }
  }

  /** Every claim was made while nobody held the task. */
  ghost predicate WellHeld(log: seq<Event>) {
    forall i :: 0 <= i < |log| && log[i].Claim? ==> Holder(log[..i], log[i].key) == None
  }

  lemma WellHeldSnoc(log: seq<Event>, e: Event)
    requires WellHeld(log)
    requires e.Claim? ==> Holder(log, e.key) == None
    ensures WellHeld(log + [e])
  {
    var l := log + [e];
    forall i | 0 <= i < |l| && l[i].Claim? ensures Holder(l[..i], l[i].key) == None {
      assert l[..i] == log[..i];
      if i == |log| { assert l[..i] == log; }
    }
  }

  /** A task that was claimed and is held by nobody was returned after the claim. */
  lemma {:induction false} ReturnedSince(log: seq<Event>, key: string, i: nat)
    requires i < |log| && IsClaim(log[i], key) && Holder(log, key) == None
    ensures exists m :: i < m < |log| && IsReturn(log[m], key)
    decreases |log|
  {
    var n := |log| - 1;
    if IsReturn(log[n], key) {
    } else {
      ReturnedSince(log[..n], key, i);
      var m :| i < m < |log[..n]| && IsReturn(log[..n][m], key);
      assert IsReturn(log[m], key);
    }
  }

  /** Between two successful claims of the same task lies a return to the backlog. */
  lemma ClaimsSeparated(log: seq<Event>, key: string, i: nat, j: nat)
    requires WellHeld(log) && i < j < |log| && IsClaim(log[i], key) && IsClaim(log[j], key)
    ensures exists m :: i < m < j && IsReturn(log[m], key)
  {
    ReturnedSince(log[..j], key, i);
    var m :| i < m < j && IsReturn(log[..j][m], key);
    assert IsReturn(log[m], key);
  }

  function Claims(log: seq<Event>, key: string): nat {
    if log == [] then 0
    else Claims(log[..|log| - 1], key) + if IsClaim(log[|log| - 1], key) then 1 else 0
  }

  function Returns(log: seq<Event>, key: string): nat {
    if log == [] then 0
    else Returns(log[..|log| - 1], key) + if IsReturn(log[|log| - 1], key) then 1 else 0
  }

  lemma {:induction false} ClaimCount(log: seq<Event>, key: string)
    requires WellHeld(log)
    ensures Claims(log, key) <= Returns(log, key) + if Holder(log, key).Some? then 1 else 0
    decreases |log|
  {
    if log != [] {
      var n := |log| - 1;
      forall i | 0 <= i < n && log[..n][i].Claim? ensures Holder(log[..n][..i], log[..n][i].key) == None {
        assert log[..n][..i] == log[..i];
      }
      ClaimCount(log[..n], key);
    }
  }
}
