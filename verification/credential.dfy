// The account record, its validation rules and the credentials file
// (internal/credential/store.go).

module Credential {
  import opened Wrappers

  datatype Account = Account(
    id: string,
    region: string,
    tokenKind: string,
    accessToken: string,
    refreshToken: string,
    expiresAtMs: int,
    userId: string,
    name: string,
    email: string,
    machineId: string,
    transport: string
  )

  predicate Validate(a: Account) {
    && a.id != "" && a.userId != "" && a.accessToken != "" && a.machineId != ""
    && (a.region == "global" || a.region == "cn")
    && (a.tokenKind == "job" || a.tokenKind == "device")
  }

  /** What a successful token refresh returns: the same account with a new access token, a new
      refresh token when the answer carried one, and a new expiry. */
  function WithToken(a: Account, token: string, refreshToken: string, expiresAtMs: int): Account {
    a.(accessToken := token,
       refreshToken := if refreshToken != "" then refreshToken else a.refreshToken,
       expiresAtMs := expiresAtMs)
  }

  predicate AllValid(accounts: seq<Account>) {
    forall i :: 0 <= i < |accounts| ==> Validate(accounts[i])
  }

  predicate DistinctIds(accounts: seq<Account>) {
    forall i, j :: 0 <= i < j < |accounts| ==> accounts[i].id != accounts[j].id
  }

  /** The account a reader of the file finds under an ID: the first one listed. */
  function Lookup(accounts: seq<Account>, id: string): Option<Account> {
    if accounts == [] then None
    else if accounts[0].id == id then Some(accounts[0])
    else Lookup(accounts[1..], id)
  }

  lemma {:induction false} LookupDistinct(accounts: seq<Account>, i: nat)
    requires DistinctIds(accounts) && i < |accounts|
    ensures Lookup(accounts, accounts[i].id) == Some(accounts[i])
  {
    if i > 0 {
      LookupDistinct(accounts[1..], i - 1);
    }
  }

  /** The test by which Upsert decides that a stored account is the one being written. */
  predicate SameAccount(stored: Account, account: Account) {
    stored.id == account.id || (stored.region == account.region && stored.userId == account.userId)
  }

  /** Position of the first stored account that Upsert would overwrite; the length if none. */
  function FirstMatch(accounts: seq<Account>, account: Account): (i: nat)
    ensures i <= |accounts|
    ensures i < |accounts| ==> SameAccount(accounts[i], account)
    ensures forall k :: 0 <= k < i ==> !SameAccount(accounts[k], account)
  {
    if accounts == [] then 0
    else if SameAccount(accounts[0], account) then 0
    else 1 + FirstMatch(accounts[1..], account)
  }

  function Upserted(accounts: seq<Account>, account: Account): seq<Account> {
    var i := FirstMatch(accounts, account);
    if i < |accounts| then accounts[i := account] else accounts + [account]
  }

  /** The write that was asked for is what a reader sees next under that ID, whatever else the
      file held before. */
  lemma UpsertIsReadBack(accounts: seq<Account>, account: Account)
    ensures Lookup(Upserted(accounts, account), account.id) == Some(account)
  {
    var i := FirstMatch(accounts, account);
    var after := Upserted(accounts, account);
    assert after[i] == account;
    LookupFirst(after, i);
  }

  lemma {:induction false} LookupFirst(accounts: seq<Account>, i: nat)
    requires i < |accounts|
    requires forall k :: 0 <= k < i ==> accounts[k].id != accounts[i].id
    ensures Lookup(accounts, accounts[i].id) == Some(accounts[i])
  {
    if i > 0 {
      LookupFirst(accounts[1..], i - 1);
    }
  }

  /** Whatever else the file holds stays, in its place: an account with another ID and another
      region or user is where it was, a new account comes last, and of several accounts that match
      only the first is overwritten. */
  lemma UpsertKeepsTheRest(accounts: seq<Account>, account: Account, k: nat)
    requires k < |accounts|
    ensures var after := Upserted(accounts, account);
            var matching := set j | 0 <= j < |accounts| && (accounts[j].id == account.id ||
                (accounts[j].region == account.region && accounts[j].userId == account.userId));
            && |after| == |accounts| + (if matching == {} then 1 else 0)
            && after[k] == (if k in matching && forall j :: j in matching ==> k <= j then account else accounts[k])
            && (matching == {} ==> after[|accounts|] == account)
  {
    var i := FirstMatch(accounts, account);
    var matching := set j | 0 <= j < |accounts| && (accounts[j].id == account.id ||
        (accounts[j].region == account.region && accounts[j].userId == account.userId));
    assert forall j :: j in matching <==> 0 <= j < |accounts| && SameAccount(accounts[j], account);
    assert forall j :: j in matching ==> i <= j;
    assert i < |accounts| ==> i in matching;
    assert matching == {} <==> i == |accounts|;
  }

  /** Upsert can leave two accounts with one ID: it overwrites the first account that shares
      either the ID or the (region, user) pair, and stops there. Distinct IDs, which the pool
      and the failover loop rely on, survive exactly when no account after the overwritten one
      already carries the new ID. */
  lemma UpsertKeepsIdsDistinct(accounts: seq<Account>, account: Account)
    requires DistinctIds(accounts)
    ensures var i := FirstMatch(accounts, account);
            DistinctIds(Upserted(accounts, account)) <==>
            forall k :: i < k < |accounts| ==> accounts[k].id != account.id
  {
    var i := FirstMatch(accounts, account);
    var after := Upserted(accounts, account);
    if k :| i < k < |accounts| && accounts[k].id == account.id {
      assert after[i].id == after[k].id;
    } else {
      forall a, b | 0 <= a < b < |after| ensures after[a].id != after[b].id {
        if b != i && a != i {
          assert after[a] == accounts[a] && after[b] == accounts[b];
        }
      }
    }
  }

  /** An instance: the first account has the region and user of the new one, a later account its
      ID. The login command writes IDs made of region and user (internal/qoder/auth.go:81), so only
      a file edited otherwise gets there. */
  lemma UpsertCanRepeatAnId(first: Account, later: Account, account: Account)
    requires first.region == account.region && first.userId == account.userId
    requires first.id != later.id == account.id
    ensures DistinctIds([first, later]) && Upserted([first, later], account) == [account, later]
    ensures !DistinctIds(Upserted([first, later], account))
  {
    var accounts := [first, later];
    assert SameAccount(accounts[0], account);
    var after := Upserted(accounts, account);
    assert after == [account, later] && after[0].id == after[1].id;
  }

  /** How writing the file ends: before the rename nothing has changed; a failing chmod after it
      is reported as an error although the new content is in place. */
  datatype Write = Saved | NotWritten | SavedWithError

  /** The credentials file. `file` holds the accounts of the last write that got as far as the
      rename. */
  class Store {
    var file: seq<Account>

    constructor (accounts: seq<Account>)
      ensures file == accounts
    {
      file := accounts;
    }

    /** `readable` is false when the file is unreadable, too permissive, unparsable or of
        another version; an invalid account in it is an error too. */
    method Load(readable: bool) returns (accounts: Option<seq<Account>>)
      ensures accounts == if readable && AllValid(file) then Some(file) else None
      ensures accounts.Some? <==> readable && forall a :: a in file ==>
                "" !in {a.id, a.userId, a.accessToken, a.machineId} && a.region in {"global", "cn"} &&
                a.tokenKind in {"job", "device"}
    {
      if !readable {
        return None;
      }
      for i := 0 to |file|
        invariant AllValid(file[..i])
      {
        if !Validate(file[i]) {
          return None;
        }
      }
      assert file[..|file|] == file;
      accounts := Some(file);
    }

    method WriteLocked(accounts: seq<Account>, write: Write) returns (ok: bool)
      modifies this
      ensures ok == (write == Saved) && file == if write == NotWritten then old(file) else accounts
    {
      if write == NotWritten {
        return false;
      }
      file := accounts;
      ok := write == Saved;
    }

    method Upsert(account: Account, readable: bool, write: Write) returns (ok: bool)
      modifies this
      ensures var accepted := Validate(account) && readable && old(AllValid(file));
              && ok == (accepted && write == Saved)
              && file == if accepted && write != NotWritten then Upserted(old(file), account) else old(file)
    {
      if !Validate(account) {
        return false;
      }
      var loaded := Load(readable);
      if loaded.None? {
        return false;
      }
      var accounts := loaded.value;
      var found := false;
      var i := 0;
      while i < |accounts| && !found
        invariant 0 <= i <= |accounts| && file == old(file)
        invariant !found ==> accounts == file && forall k :: 0 <= k < i ==> !SameAccount(accounts[k], account)
        invariant found ==> accounts == Upserted(file, account)
        decreases |accounts| - i, !found
      {
        if SameAccount(accounts[i], account) {
          FirstMatchIs(accounts, account, i);
          accounts := accounts[i := account];
          found := true;
        } else {
          i := i + 1;
        }
      }
      if !found {
        FirstMatchIs(accounts, account, |accounts|);
        accounts := accounts + [account];
      }
      ok := WriteLocked(accounts, write);
    }

    method Replace(accounts: seq<Account>, write: Write) returns (ok: bool)
      modifies this
      ensures ok == (AllValid(accounts) && write == Saved)
      ensures file == if AllValid(accounts) && write != NotWritten then accounts else old(file)
    {
      for i := 0 to |accounts|
        invariant AllValid(accounts[..i])
      {
        if !Validate(accounts[i]) {
          return false;
        }
      }
      assert accounts[..|accounts|] == accounts;
      ok := WriteLocked(accounts, write);
    }
  }

  lemma FirstMatchIs(accounts: seq<Account>, account: Account, i: nat)
    requires i <= |accounts|
    requires i < |accounts| ==> SameAccount(accounts[i], account)
    requires forall k :: 0 <= k < i ==> !SameAccount(accounts[k], account)
    ensures FirstMatch(accounts, account) == i
  {
  }
}
