// What every run of the refresh-and-persist protocol (refresh_protocol.dfy) promises: no refreshed
// token is lost, the quiescent file is the memory, no deadlock, runs end, refreshes coalesce.

module RefreshTheorems {
  import opened Wrappers
  import opened Credential
  import opened RefreshProtocol

  lemma InitInv(s: State)
    requires Init(s)
    ensures Inv(s)
  {
  }

  // What a step leaves alone: an entry that is not refreshed, a file that is not written.
  lemma {:induction false} Untouched(c: Config, s: State, labels: seq<Label>, s': State, i: nat)
    requires WellFormed(s) && Run(c, s, labels, s') && i < |s.mem|
    ensures WellFormed(s') && |s'.mem| == |s.mem| && s'.refreshes[i] >= s.refreshes[i]
    ensures s'.refreshes[i] == s.refreshes[i] ==> s'.mem[i] == s.mem[i]
    ensures s'.mem[i].id == s.mem[i].id
    ensures !s'.saved ==> !s.saved && s'.file == s.file
    decreases |labels|
  {
    if labels != [] {
      Untouched(c, Step(c, s, labels[0]), labels[1..], s', i);
    }
  }

  // Read back by ID: an entry that is in its place is also what a lookup finds.
  predicate ReadBack(s: State, i: nat)
    requires i < |s.mem|
  {
    Lookup(s.file, s.mem[i].id) == Some(s.mem[i])
  }

  lemma MatchesIsReadBack(c: Config, s: State, labels: seq<Label>, s': State, i: nat)
    requires Init(s) && Loaded(s) && Run(c, s, labels, s') && Inv(s') && i < |s'.mem| && Matches(s', i)
    ensures ReadBack(s', i)
  {
    forall k | 0 <= k < |s'.mem| ensures |s'.mem| == |s.mem| && s'.mem[k].id == s.mem[k].id {
      SizeKept(c, s, labels, s');
      Untouched(c, s, labels, s', k);
    }
    SizeKept(c, s, labels, s');
    Untouched(c, s, labels, s', i);
    if s'.saved {
      LookupDistinct(s'.file, i);
    }
  }

  /** In every reachable state each entry either agrees with the file, or some goroutine that
      updated it is still going to write a snapshot holding that update, or the update's own
      Replace has failed and none has reached the file since. */
  lemma NoRefreshedTokenLost(c: Config, s: State, labels: seq<Label>, s': State, i: nat)
    requires c.hasStore && Init(s) && Loaded(s) && Run(c, s, labels, s') && i < |s'.mem|
    ensures ReadBack(s', i) || i in s'.unsaved || exists g :: 0 <= g < |s'.gs| && Owes(s', g, i)
  {
    InitInv(s);
    InvAlong(c, s, labels, s');
    assert Safe(s', i);
    if Matches(s', i) {
      MatchesIsReadBack(c, s, labels, s', i);
    }
  }

  // Whether the last Replace of the run got onto the disk; `before` when there is none.
  predicate LastWriteOk(labels: seq<Label>, before: bool) {
    if labels == [] then before
    else LastWriteOk(labels[1..], if labels[0].Replace? then labels[0].write != NotWritten else before)
  }

  lemma {:induction false} LastWriteSettles(c: Config, s: State, labels: seq<Label>, s': State, before: bool)
    requires c.hasStore && Inv(s) && Run(c, s, labels, s')
    requires before ==> s.unsaved == {}
    ensures LastWriteOk(labels, before) ==> s'.unsaved == {}
    decreases |labels|
  {
    if labels != [] {
      var l := labels[0];
      InvKept(c, s, l);
      if l.Replace? {
        assert GoodCopy(s, l.g);
      }
      LastWriteSettles(c, Step(c, s, l), labels[1..], s', if l.Replace? then l.write != NotWritten else before);
    }
  }

  /** Once every call has returned, the file is the list of accounts in memory, entry by entry,
      provided any Replace has reached it and the last one that was tried did: a later success
      also repairs the failures before it. Accounts that share an ID do not matter. */
  lemma QuiescentFileIsMemory(c: Config, s: State, labels: seq<Label>, s': State)
    requires c.hasStore && Init(s) && Run(c, s, labels, s') && Quiescent(s')
    requires LastWriteOk(labels, true) && s'.saved
    ensures s'.file == s'.mem
  {
    InitInv(s);
    InvAlong(c, s, labels, s');
    LastWriteSettles(c, s, labels, s', true);
    forall i | 0 <= i < |s'.mem| ensures |s'.file| == |s'.mem| && s'.file[i] == s'.mem[i] {
      assert Safe(s', i);
      assert Matches(s', i);
    }
  }

  /** And with distinct IDs it gives back every account under its ID, whether or not any token
      was refreshed at all. */
  lemma QuiescentFileReadsBack(c: Config, s: State, labels: seq<Label>, s': State)
    requires c.hasStore && Init(s) && Loaded(s) && Run(c, s, labels, s') && Quiescent(s')
    requires LastWriteOk(labels, true)
    ensures |s'.mem| == |s.mem|
    ensures forall i :: 0 <= i < |s'.mem| ==> ReadBack(s', i)
  {
    InitInv(s);
    InvAlong(c, s, labels, s');
    SizeKept(c, s, labels, s');
    LastWriteSettles(c, s, labels, s', true);
    forall i | 0 <= i < |s'.mem| ensures ReadBack(s', i) {
      assert Safe(s', i);
      assert Matches(s', i);
      MatchesIsReadBack(c, s, labels, s', i);
    }
  }

  // ---------------------------------------------------------------- what is in memory

  // The label brings entry i a new token. A goroutine never changes its entry.
  predicate Grants(gs: seq<Goroutine>, l: Label, i: nat) {
    l.RefreshOk? && l.g < |gs| && gs[l.g].entry == i
  }

  // The last label that brings entry i a token, or a refresh token when `rotated`.
  function LastGrant(gs: seq<Goroutine>, labels: seq<Label>, i: nat, rotated: bool): (r: Option<Label>)
    ensures r.Some? ==> r.value in labels && Grants(gs, r.value, i) && (rotated ==> r.value.refreshToken != "")
    ensures r.None? ==> forall l :: l in labels && Grants(gs, l, i) ==> rotated && l.refreshToken == ""
  {
    if labels == [] then None
    else
      var n := |labels| - 1;
      if Grants(gs, labels[n], i) && (rotated ==> labels[n].refreshToken != "") then Some(labels[n])
      else LastGrant(gs, labels[..n], i, rotated)
  }

  lemma {:induction false} LastGrantFront(gs: seq<Goroutine>, labels: seq<Label>, i: nat, rotated: bool)
    requires labels != []
    ensures LastGrant(gs, labels, i, rotated) ==
            if LastGrant(gs, labels[1..], i, rotated).Some? then LastGrant(gs, labels[1..], i, rotated)
            else LastGrant(gs, labels[..1], i, rotated)
  {
    var n := |labels| - 1;
    if n > 0 {
      assert labels[1..][..n - 1] == labels[..n][1..] && labels[..n][..1] == labels[..1];
      LastGrantFront(gs, labels[..n], i, rotated);
    }
  }

  lemma {:induction false} EntriesStay(c: Config, s: State, labels: seq<Label>, s': State)
    requires WellFormed(s) && Run(c, s, labels, s')
    ensures |s.gs| <= |s'.gs| && forall g :: 0 <= g < |s.gs| ==> s'.gs[g].entry == s.gs[g].entry
    decreases |labels|
  {
    if labels != [] {
      var l := labels[0];
      OthersStay(c, s, l);
      EntriesStay(c, Step(c, s, l), labels[1..], s');
      hide Step, Enabled;
    }
  }

  // The account b is a after the labels: its last token with its expiry, its last refresh token
  // that was not empty, and nothing else changed.
  predicate HoldsGrants(a: Account, b: Account, gs: seq<Goroutine>, labels: seq<Label>, i: nat) {
    var token, rotation := LastGrant(gs, labels, i, false), LastGrant(gs, labels, i, true);
    && b.accessToken == (if token.Some? then token.value.token else a.accessToken)
    && b.expiresAtMs == (if token.Some? then token.value.expiresAtMs else a.expiresAtMs)
    && b.refreshToken == (if rotation.Some? then rotation.value.refreshToken else a.refreshToken)
    && b.id == a.id && b.region == a.region && b.tokenKind == a.tokenKind && b.userId == a.userId
    && b.name == a.name && b.email == a.email && b.machineId == a.machineId && b.transport == a.transport
  }

  lemma GrantStep(c: Config, s: State, l: Label, gs: seq<Goroutine>, i: nat)
    requires WellFormed(s) && Enabled(c, s, l) && i < |s.mem|
    requires |s.gs| <= |gs| && forall g :: 0 <= g < |s.gs| ==> gs[g].entry == s.gs[g].entry
    ensures HoldsGrants(s.mem[i], Step(c, s, l).mem[i], gs, [l], i)
  {
    assert [l][..0] == [];
  }

  lemma GrantsChain(a: Account, b: Account, d: Account, gs: seq<Goroutine>, labels: seq<Label>, i: nat)
    requires labels != []
    requires HoldsGrants(a, b, gs, labels[..1], i) && HoldsGrants(b, d, gs, labels[1..], i)
    ensures HoldsGrants(a, d, gs, labels, i)
  {
    LastGrantFront(gs, labels, i, false);
    LastGrantFront(gs, labels, i, true);
    hide LastGrant, Grants;
  }

  /** What memory holds, along every run: for each entry the access token and the expiry of the
      last refresh that succeeded for it, the last refresh token that was not empty, and in every
      other field what it was loaded with. */
  lemma {:induction false} MemoryHoldsTheLastTokens(c: Config, s: State, labels: seq<Label>, s': State, i: nat)
    requires WellFormed(s) && Run(c, s, labels, s') && i < |s.mem|
    ensures |s'.mem| == |s.mem| && HoldsGrants(s.mem[i], s'.mem[i], s'.gs, labels, i)
    decreases |labels|
  {
    EntriesStay(c, s, labels, s');
    if labels != [] {
      var l := labels[0];
      var s1 := Step(c, s, l);
      assert labels[..1] == [l];
      GrantStep(c, s, l, s'.gs, i);
      MemoryHoldsTheLastTokens(c, s1, labels[1..], s', i);
      GrantsChain(s.mem[i], s1.mem[i], s'.mem[i], s'.gs, labels, i);
    }
  }

  /** And so does the file, once every call has returned and the last write that was tried has
      reached it: read back by ID, each account has the tokens that its last refreshes brought. */
  lemma QuiescentFileHoldsTheLastTokens(c: Config, s: State, labels: seq<Label>, s': State, i: nat)
    requires c.hasStore && Init(s) && Loaded(s) && Run(c, s, labels, s') && Quiescent(s')
    requires LastWriteOk(labels, true) && i < |s.mem|
    ensures var found := Lookup(s'.file, s.mem[i].id);
            found.Some? && HoldsGrants(s.mem[i], found.value, s'.gs, labels, i)
  {
    MemoryHoldsTheLastTokens(c, s, labels, s', i);
    QuiescentFileReadsBack(c, s, labels, s');
    assert ReadBack(s', i);
    hide Run, Init, Loaded, Quiescent, LastWriteOk, LastGrant;
  }

  lemma {:induction false} SizeKept(c: Config, s: State, labels: seq<Label>, s': State)
    requires WellFormed(s) && Run(c, s, labels, s')
    ensures WellFormed(s') && |s'.mem| == |s.mem|
    decreases |labels|
  {
    if labels != [] {
      SizeKept(c, Step(c, s, labels[0]), labels[1..], s');
    }
  }

  /** A Replace that the disk accepts always succeeds: refreshing keeps every account valid, so
      validation never turns a snapshot down. */
  lemma ReplaceFailsOnlyOnDisk(c: Config, s: State, labels: seq<Label>, s': State, l: Label)
    requires c.hasStore && Init(s) && Run(c, s, labels, s')
    requires WellFormed(s') && Enabled(c, s', l) && l.Replace?
    ensures l.write != NotWritten ==> Step(c, s', l).file == s'.gs[l.g].pc.copied && Step(c, s', l).unsaved == {}
    ensures l.write == NotWritten ==> Step(c, s', l).file == s'.file
  {
    InitInv(s);
    InvAlong(c, s, labels, s');
    assert GoodCopy(s', l.g);
  }

  // ---------------------------------------------------------------- no deadlock, and an end

  // Refresh calls return: inside Refresh, RefreshErr at least is possible.
  function NextOf(s: State, g: nat): Label
    requires g < |s.gs| && !s.gs[g].pc.Finished?
  {
    match s.gs[g].pc
    case Waiting => Enter(g)
    case Refreshing => RefreshErr(g)
    case WantPersist => LockPersist(g)
    case Copying(copied) => if |copied| < |s.mem| then CopyOne(g) else Replace(g, Saved)
  }

  // What does not need a store: who holds which lock, and what the snapshots hold.
  ghost predicate Locks(s: State) {
    WellFormed(s) && EntryLocks(s) && PersistLock(s) && Data(s)
  }

  lemma {:induction false} LocksAlong(c: Config, s: State, labels: seq<Label>, s': State)
    requires Locks(s) && Run(c, s, labels, s')
    ensures Locks(s')
    decreases |labels|
  {
    if labels != [] {
      EntryLocksKept(c, s, labels[0]);
      PersistLockKept(c, s, labels[0]);
      DataKept(c, s, labels[0]);
      hide EntryLocks, PersistLock, Data;
      LocksAlong(c, Step(c, s, labels[0]), labels[1..], s');
    }
  }

  /** Every reachable state with an unfinished call, with or without a store, has a goroutine that
      can move. An entry lock is held only inside Refresh, so nobody waits for persistMu while
      holding one. */
  lemma NoDeadlock(c: Config, s: State, labels: seq<Label>, s': State)
    requires Init(s) && Run(c, s, labels, s') && !Quiescent(s')
    ensures WellFormed(s')
    ensures exists g :: 0 <= g < |s'.gs| && !s'.gs[g].pc.Finished? && Enabled(c, s', NextOf(s', g))
  {
    InitInv(s);
    LocksAlong(c, s, labels, s');
    if g :| 0 <= g < |s'.gs| && s'.gs[g].pc.Refreshing? {
      assert Enabled(c, s', NextOf(s', g));
    } else {
      forall e | 0 <= e < |s'.mem| ensures s'.entryLock[e].None? {
        assert EntryHeld(s', e);
      }
      var g :| 0 <= g < |s'.gs| && !s'.gs[g].pc.Finished?;
      if s'.gs[g].pc.WantPersist? && s'.persistLock.Some? {
        var h := s'.persistLock.value;
        assert GoodCopy(s', h) && Enabled(c, s', NextOf(s', h));
      } else {
        assert GoodCopy(s', g) && Enabled(c, s', NextOf(s', g));
      }
    }
  }

  // Steps a goroutine still has to take, at most.
  function StepsLeft(s: State, g: nat): nat
    requires g < |s.gs|
  {
    match s.gs[g].pc
    case Waiting => |s.mem| + 5
    case Refreshing => |s.mem| + 4
    case WantPersist => |s.mem| + 3
    case Copying(copied) => if |copied| <= |s.mem| then |s.mem| - |copied| + 1 else 1
    case Finished(_) => 0
  }

  function TotalLeft(s: State, n: nat): nat
    requires n <= |s.gs|
  {
    if n == 0 then 0 else TotalLeft(s, n - 1) + StepsLeft(s, n - 1)
  }

  lemma StepsDrop(c: Config, s: State, l: Label, g: nat)
    requires WellFormed(s) && Enabled(c, s, l) && Actor(l).Some? && g < |s.gs|
    ensures g < |Step(c, s, l).gs| && StepsLeft(Step(c, s, l), g) <= StepsLeft(s, g)
    ensures Actor(l).value == g ==> StepsLeft(Step(c, s, l), g) < StepsLeft(s, g)
  {
    if Actor(l).value != g {
      OthersStay(c, s, l);
      hide Step, Enabled;
    }
  }

  lemma {:induction false} TotalDrops(c: Config, s: State, l: Label, n: nat)
    requires WellFormed(s) && Enabled(c, s, l) && Actor(l).Some? && n <= |s.gs|
    ensures |Step(c, s, l).gs| == |s.gs|
    ensures TotalLeft(Step(c, s, l), n) <= TotalLeft(s, n)
    ensures Actor(l).value < n ==> TotalLeft(Step(c, s, l), n) < TotalLeft(s, n)
  {
    OthersStay(c, s, l);
    if n > 0 {
      StepsDrop(c, s, l, n - 1);
      hide Step, Enabled, StepsLeft;
      TotalDrops(c, s, l, n - 1);
    }
  }

  /** Without new calls a run of goroutine steps is no longer than the steps left at its start,
      so with NoDeadlock every call returns. */
  lemma {:induction false} RunsEnd(c: Config, s: State, labels: seq<Label>, s': State)
    requires WellFormed(s) && Run(c, s, labels, s')
    requires forall k :: 0 <= k < |labels| ==> Actor(labels[k]).Some?
    ensures |labels| <= TotalLeft(s, |s.gs|)
    decreases |labels|
  {
    if labels != [] {
      TotalDrops(c, s, labels[0], |s.gs|);
      RunsEnd(c, Step(c, s, labels[0]), labels[1..], s');
    }
  }

  // ---------------------------------------------------------------- single flight

  // Every refresh granted during the run outlives the horizon by more than the window, and the
  // clock stays within the horizon.
  predicate LongLived(c: Config, horizon: int, l: Label) {
    match l
    case RefreshOk(_, _, _, expiresAtMs) => expiresAtMs > horizon + c.refreshWindow
    case Tick(to) => to <= horizon
    case _ => true
  }

  predicate Unforced(l: Label, i: nat) {
    l.Spawn? && l.entry == i ==> !l.force
  }

  ghost predicate SingleFlight(c: Config, s: State, i: nat, horizon: int)
    requires WellFormed(s) && i < |s.mem|
  {
    && s.now <= horizon && s.refreshes[i] <= 1
    && (forall g :: 0 <= g < |s.gs| && s.gs[g].entry == i ==> !s.gs[g].force)
    && (s.refreshes[i] == 1 ==> s.entryLock[i].None? && s.mem[i].expiresAtMs > horizon + c.refreshWindow)
  }

  lemma SingleFlightKept(c: Config, s: State, l: Label, i: nat, horizon: int)
    requires WellFormed(s) && EntryLocks(s) && i < |s.mem| && Enabled(c, s, l)
    requires SingleFlight(c, s, i, horizon) && LongLived(c, horizon, l) && Unforced(l, i)
    ensures SingleFlight(c, Step(c, s, l), i, horizon)
  {
    OthersStay(c, s, l);
    assert EntryHeld(s, i);
    if Actor(l).Some? {
      assert HoldsEntry(s, Actor(l).value);
    }
  }

  /** However many unforced calls meet on one entry, at most one Refresh succeeds. */
  lemma AtMostOneRefresh(c: Config, s: State, labels: seq<Label>, s': State, i: nat, horizon: int)
    requires Init(s) && Run(c, s, labels, s') && i < |s.mem| && s.now <= horizon
    requires forall k :: 0 <= k < |labels| ==> LongLived(c, horizon, labels[k]) && Unforced(labels[k], i)
    ensures |s'.refreshes| == |s.mem| && s'.refreshes[i] <= 1
  {
    InitInv(s);
    SingleFlightAlong(c, s, labels, s', i, horizon);
  }

  lemma {:induction false} SingleFlightAlong(c: Config, s: State, labels: seq<Label>, s': State, i: nat, horizon: int)
    requires WellFormed(s) && EntryLocks(s) && Run(c, s, labels, s') && i < |s.mem|
    requires SingleFlight(c, s, i, horizon)
    requires forall k :: 0 <= k < |labels| ==> LongLived(c, horizon, labels[k]) && Unforced(labels[k], i)
    ensures |s'.refreshes| == |s.mem| && s'.refreshes[i] <= 1
    decreases |labels|
  {
    if labels != [] {
      EntryLocksKept(c, s, labels[0]);
      SingleFlightKept(c, s, labels[0], i, horizon);
      SingleFlightAlong(c, Step(c, s, labels[0]), labels[1..], s', i, horizon);
    }
  }
}
