/** Accounts and their bearer tokens, of which only a hash is stored. */
module Accounts {
  import opened Prelude

  const ROLES: set<string> := {"admin", "member", "viewer"}

  datatype Account = Account(name: string, role: string, tokenSha: string, revoked: bool)

  type Table = map<int, Account>

  /** `token` is the random token drawn by the call, `id` the number the table draws for a new row. */
  datatype Op =
    | CreateAccount(id: int, name: string, role: string, token: string)
    | RotateAccount(id: int, token: string)
    | RevokeAccount(id: int)

  predicate NameTaken(s: Table, name: string) {
    exists i :: i in s && s[i].name == name
  }

  function Next(hash: string -> string, s: Table, op: Op): Table {
    match op
    case CreateAccount(id, name, role, token) =>
      if role !in ROLES || id in s || NameTaken(s, name) then s else s[id := Account(name, role, hash(token), false)]
    case RotateAccount(id, token) =>
      if id !in s then s else s[id := s[id].(tokenSha := hash(token), revoked := false)]
    case RevokeAccount(id) =>
      if id !in s then s else s[id := s[id].(revoked := true)]
  }

  function Run(hash: string -> string, ops: seq<Op>): Table {
    if ops == [] then map[]
    else Next(hash, Run(hash, ops[..|ops| - 1]), ops[|ops| - 1])
  }

  /** The accounts a token authenticates: its hash is stored and the account is not revoked. */
  function ByToken(hash: string -> string, s: Table, token: string): set<int> {
    set i | i in s && s[i].tokenSha == hash(token) && !s[i].revoked
  }

  // ---- read off the operations alone -------------------------------------------------------

  /** Operation `i` creates an account: its role is known, and no earlier one that did has its id or name. */
  ghost predicate Creates(ops: seq<Op>, i: nat)
    requires i < |ops|
    decreases i
  {
    && ops[i].CreateAccount? && ops[i].role in {"admin", "member", "viewer"}
    && forall j: nat :: j < i && Creates(ops, j) ==> ops[j].id != ops[i].id && ops[j].name != ops[i].name
  }

  /** Some operation before `n` created the account. */
  ghost predicate Known(ops: seq<Op>, n: nat, id: int)
    requires n <= |ops|
  {
    exists j: nat :: j < n && Creates(ops, j) && ops[j].id == id
  }

  /** Operation `i` hands out a token for the account. */
  ghost predicate Draws(ops: seq<Op>, i: nat, id: int)
    requires i < |ops|
  {
    ops[i].id == id && (Creates(ops, i) || (ops[i].RotateAccount? && Known(ops, i, id)))
  }

  ghost predicate Revokes(ops: seq<Op>, i: nat, id: int)
    requires i < |ops|
  {
    ops[i].RevokeAccount? && ops[i].id == id
  }

  /** Of the operations before `n`, `i` was the last to hand out a token for the account. */
  ghost predicate LastDraw(ops: seq<Op>, n: nat, i: nat, id: int)
    requires n <= |ops|
  {
    i < n && Draws(ops, i, id) && forall j: nat :: i < j < n ==> !Draws(ops, j, id)
  }

  ghost predicate RevokedAfter(ops: seq<Op>, n: nat, i: nat, id: int)
    requires n <= |ops|
  {
    exists j: nat :: i < j < n && Revokes(ops, j, id)
  }

  /** Of the operations before `n`, the last to hand out a token for the account drew this one, and no
      revocation of the account followed. */
  ghost predicate Valid(ops: seq<Op>, n: nat, id: int, token: string)
    requires n <= |ops|
  {
    exists i: nat :: LastDraw(ops, n, i, id) && ops[i].token == token && !RevokedAfter(ops, n, i, id)
  }

  ghost predicate Injective(hash: string -> string) {
    forall a, b :: hash(a) == hash(b) ==> a == b
  }

  /** Random draws never repeat. */
  ghost predicate FreshTokens(ops: seq<Op>) {
    forall i, j :: 0 <= i < j < |ops| && !ops[i].RevokeAccount? && !ops[j].RevokeAccount? ==> ops[i].token != ops[j].token
  }

  /** The row of an account: its token is the last drawn, and it is revoked if a revocation followed. */
  ghost predicate RowOk(hash: string -> string, ops: seq<Op>, n: nat, id: int, row: Account)
    requires n <= |ops|
  {
    exists i: nat :: LastDraw(ops, n, i, id) && row.tokenSha == hash(ops[i].token) && (row.revoked <==> RevokedAfter(ops, n, i, id))
  }

  ghost predicate TableOk(hash: string -> string, ops: seq<Op>, n: nat, s: Table)
    requires n <= |ops|
  {
    && (forall id :: id in s ==> Known(ops, n, id) && RowOk(hash, ops, n, id, s[id]))
    && (forall j: nat :: j < n && Creates(ops, j) ==>
          ops[j].id in s && s[ops[j].id].name == ops[j].name && s[ops[j].id].role == ops[j].role)
  }

  /** The table refuses a creation exactly when the operations say so. */
  lemma CreationRefused(hash: string -> string, ops: seq<Op>, n: nat, s: Table)
    requires n < |ops| && TableOk(hash, ops, n, s) && ops[n].CreateAccount?
    ensures Creates(ops, n) <==> ops[n].role in ROLES && ops[n].id !in s && !NameTaken(s, ops[n].name)
  {
  }

  /** An operation that hands out no token for the account and does not revoke it leaves its row right. */
  lemma RowStays(hash: string -> string, ops: seq<Op>, n: nat, id: int, row: Account)
    requires n < |ops| && RowOk(hash, ops, n, id, row) && !Draws(ops, n, id) && !Revokes(ops, n, id)
    ensures RowOk(hash, ops, n + 1, id, row)
  {
    var i: nat :| LastDraw(ops, n, i, id) && row.tokenSha == hash(ops[i].token) && (row.revoked <==> RevokedAfter(ops, n, i, id));
    assert RevokedAfter(ops, n + 1, i, id) <==> RevokedAfter(ops, n, i, id);
    assert LastDraw(ops, n + 1, i, id);
  }

  lemma RowRevoked(hash: string -> string, ops: seq<Op>, n: nat, id: int, row: Account)
    requires n < |ops| && RowOk(hash, ops, n, id, row) && Revokes(ops, n, id)
    ensures RowOk(hash, ops, n + 1, id, row.(revoked := true))
  {
    var i: nat :| LastDraw(ops, n, i, id) && row.tokenSha == hash(ops[i].token) && (row.revoked <==> RevokedAfter(ops, n, i, id));
    assert Revokes(ops, n, id);
    assert LastDraw(ops, n + 1, i, id) && RevokedAfter(ops, n + 1, i, id);
  }

  lemma RowDrawn(hash: string -> string, ops: seq<Op>, n: nat, id: int, row: Account)
    requires n < |ops| && Draws(ops, n, id) && row.tokenSha == hash(ops[n].token) && !row.revoked
    ensures RowOk(hash, ops, n + 1, id, row)
  {
    assert LastDraw(ops, n + 1, n, id) && !RevokedAfter(ops, n + 1, n, id);
  }

  lemma RowNext(hash: string -> string, ops: seq<Op>, n: nat, s: Table, id: int)
    requires n < |ops| && TableOk(hash, ops, n, s) && id in Next(hash, s, ops[n])
    ensures Known(ops, n + 1, id) && RowOk(hash, ops, n + 1, id, Next(hash, s, ops[n])[id])
  {
    if ops[n].CreateAccount? { CreationRefused(hash, ops, n, s); }
    if id in s { assert Known(ops, n, id); }
    if Draws(ops, n, id) { RowDrawn(hash, ops, n, id, Next(hash, s, ops[n])[id]); }
    else if Revokes(ops, n, id) { RowRevoked(hash, ops, n, id, s[id]); }
    else { RowStays(hash, ops, n, id, s[id]); }
  }

  lemma NamesStay(hash: string -> string, s: Table, op: Op, id: int)
    requires id in s
    ensures var t := Next(hash, s, op); id in t && t[id].name == s[id].name && t[id].role == s[id].role
  {
  }

  lemma CreationNext(hash: string -> string, ops: seq<Op>, n: nat, s: Table)
    requires n < |ops| && TableOk(hash, ops, n, s) && Creates(ops, n)
    ensures var t := Next(hash, s, ops[n]); ops[n].id in t && t[ops[n].id].name == ops[n].name && t[ops[n].id].role == ops[n].role
  {
    CreationRefused(hash, ops, n, s);
  }

  lemma TableNext(hash: string -> string, ops: seq<Op>, n: nat, s: Table)
    requires n < |ops| && TableOk(hash, ops, n, s)
    ensures TableOk(hash, ops, n + 1, Next(hash, s, ops[n]))
  {
    hide Next, RowOk;
    var t := Next(hash, s, ops[n]);
    forall j: nat | j < n + 1 && Creates(ops, j)
      ensures ops[j].id in t && t[ops[j].id].name == ops[j].name && t[ops[j].id].role == ops[j].role
    {
      if j < n { NamesStay(hash, s, ops[n], ops[j].id); } else { CreationNext(hash, ops, n, s); }
    }
    forall id | id in Next(hash, s, ops[n]) ensures Known(ops, n + 1, id) && RowOk(hash, ops, n + 1, id, Next(hash, s, ops[n])[id]) {
      RowNext(hash, ops, n, s, id);
    }
  }

  lemma {:induction false} TableRun(hash: string -> string, ops: seq<Op>, n: nat)
    requires n <= |ops|
    ensures TableOk(hash, ops, n, Run(hash, ops[..n]))
    decreases n
  {
    if n > 0 {
      TableRun(hash, ops, n - 1);
      TableNext(hash, ops, n - 1, Run(hash, ops[..n - 1]));
      assert ops[..n][..n - 1] == ops[..n - 1];
    }
  }

  /** Over any run of operations, a token authenticates an account exactly when the last accepted creation
      or rotation of that account drew it and no revocation of the account followed. */
  lemma {:induction false} TokenAuthenticates(hash: string -> string, ops: seq<Op>, token: string, id: int)
    requires Injective(hash)
    ensures id in ByToken(hash, Run(hash, ops), token) <==> Valid(ops, |ops|, id, token)
  {
    TableRun(hash, ops, |ops|);
    assert ops[..|ops|] == ops;
    var s := Run(hash, ops);
    if id in ByToken(hash, s, token) {
      var i: nat :| LastDraw(ops, |ops|, i, id) && s[id].tokenSha == hash(ops[i].token)
                    && (s[id].revoked <==> RevokedAfter(ops, |ops|, i, id));
    }
    if i: nat :| LastDraw(ops, |ops|, i, id) && ops[i].token == token && !RevokedAfter(ops, |ops|, i, id) {
      DrawnIsKnown(ops, i, id);
      var k: nat :| LastDraw(ops, |ops|, k, id) && s[id].tokenSha == hash(ops[k].token)
                    && (s[id].revoked <==> RevokedAfter(ops, |ops|, k, id));
      assert k == i;
    }
  }

  lemma DrawnIsKnown(ops: seq<Op>, i: nat, id: int)
    requires i < |ops| && Draws(ops, i, id)
    ensures Known(ops, |ops|, id)
  {
    if Creates(ops, i) {
    } else {
      var j: nat :| j < i && Creates(ops, j) && ops[j].id == id;
    }
  }

  /** No token authenticates two accounts. */
  lemma {:induction false} TokensIdentify(hash: string -> string, ops: seq<Op>, token: string, a: int, b: int)
    requires Injective(hash) && FreshTokens(ops)
    requires a in ByToken(hash, Run(hash, ops), token) && b in ByToken(hash, Run(hash, ops), token)
    ensures a == b
  {
    TokenAuthenticates(hash, ops, token, a);
    TokenAuthenticates(hash, ops, token, b);
    var i: nat :| LastDraw(ops, |ops|, i, a) && ops[i].token == token && !RevokedAfter(ops, |ops|, i, a);
    var j: nat :| LastDraw(ops, |ops|, j, b) && ops[j].token == token && !RevokedAfter(ops, |ops|, j, b);
    SameDraw(ops, i, j, a, b);
  }

  lemma SameDraw(ops: seq<Op>, i: nat, j: nat, a: int, b: int)
    requires FreshTokens(ops) && i < |ops| && j < |ops| && Draws(ops, i, a) && Draws(ops, j, b)
    requires ops[i].token == ops[j].token
    ensures i == j
  {
  }

  // ---- the table -------------------------------------------------------------------------

  class AccountStore {
    var accounts: Table
    const hash: string -> string

    constructor (hash: string -> string)
      ensures this.hash == hash && accounts == map[]
    {
      this.hash := hash;
      accounts := map[];
    }

    /** Refused for an unknown role or a taken name; `id` is the one the table draws, never used before. */
    method Create(id: int, name: string, role: string, token: string) returns (created: bool)
      requires id !in accounts
      modifies this`accounts
      ensures accounts == Next(hash, old(accounts), CreateAccount(id, name, role, token))
      ensures created <==> role in {"admin", "member", "viewer"} && forall i :: i in old(accounts) ==> old(accounts)[i].name != name
      ensures created <==> id in accounts
      ensures created ==> id in ByToken(hash, accounts, token)
    {
      created := role in ROLES && !exists i :: i in accounts && accounts[i].name == name;
      if created {
        accounts := accounts[id := Account(name, role, hash(token), false)];
      }
    }

    /** Afterwards the new token authenticates a known account, revoked or not before, and an old one with
        another hash does not. */
    method Rotate(id: int, token: string) returns (known: bool)
      modifies this`accounts
      ensures accounts == Next(hash, old(accounts), RotateAccount(id, token))
      ensures known <==> id in old(accounts)
      ensures known ==> forall t :: id in ByToken(hash, accounts, t) <==> hash(t) == hash(token)
    {
      known := id in accounts;
      if known {
        accounts := accounts[id := accounts[id].(tokenSha := hash(token), revoked := false)];
      }
    }

    /** Afterwards no token authenticates the account. */
    method RevokeOne(id: int) returns (known: bool)
      modifies this`accounts
      ensures accounts == Next(hash, old(accounts), RevokeAccount(id))
      ensures known <==> id in old(accounts)
      ensures forall t :: id !in ByToken(hash, accounts, t)
      ensures forall i, t :: i != id ==> (i in ByToken(hash, accounts, t) <==> i in ByToken(hash, old(accounts), t))
    {
      known := id in accounts;
      if known {
        accounts := accounts[id := accounts[id].(revoked := true)];
      }
    }

    /** `account_by_token`: the first row that matches, if any. */
    method AccountByToken(token: string) returns (found: Option<int>)
      ensures found.None? <==> forall i :: i !in ByToken(hash, accounts, token)
      ensures found.Some? ==> found.value in ByToken(hash, accounts, token)
    {
      var sha := hash(token);
      var ids := set i | i in accounts && accounts[i].tokenSha == sha && !accounts[i].revoked;
      assert ids == ByToken(hash, accounts, token);
      if id :| id in ids {
        found := Some(id);
      } else {
        found := None;
      }
    }
  }
}
