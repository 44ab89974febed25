// The two models of EnsureFresh agree: the call as one method of the pool (pool.dfy) is a run of
// one goroutine of the interleaved protocol (refresh_protocol.dfy) that no other disturbs.

module PoolProtocol {
  import opened Wrappers
  import opened Credential
  import P = Pool
  import R = RefreshProtocol

  // What goroutine g does when it runs alone, from locking its entry to returning.
  function Alone(c: R.Config, s: R.State, g: nat, answer: P.RefreshResult, write: Write): seq<R.Label>
    requires R.WellFormed(s) && g < |s.gs|
  {
    var a := s.mem[s.gs[g].entry];
    if (!s.gs[g].force && R.IsFresh(c, a, s.now)) || !c.hasRefresher then [R.Enter(g)]
    else match answer
      case RefreshError => [R.Enter(g), R.RefreshErr(g)]
      case Token(t, r, e) =>
        [R.Enter(g), R.RefreshOk(g, t, r, e)] +
        if c.hasStore then [R.LockPersist(g)] + Copies(g, |s.mem|) + [R.Replace(g, write)] else []
  }

  function Copies(g: nat, n: nat): (r: seq<R.Label>)
    ensures |r| == n
  {
    if n == 0 then [] else [R.CopyOne(g)] + Copies(g, n - 1)
  }

  predicate Unlocked(s: R.State) {
    s.persistLock.None? && forall i :: 0 <= i < |s.entryLock| ==> s.entryLock[i].None?
  }

  lemma {:induction false} RunsOn(c: R.Config, s: R.State, a: seq<R.Label>, s1: R.State, b: seq<R.Label>, s2: R.State)
    requires R.WellFormed(s) && R.Run(c, s, a, s1) && R.WellFormed(s1) && R.Run(c, s1, b, s2)
    ensures R.Run(c, s, a + b, s2)
    decreases |a|
  {
    if a == [] {
      assert a + b == b;
    } else {
      assert (a + b)[0] == a[0] && (a + b)[1..] == a[1..] + b;
      RunsOn(c, R.Step(c, s, a[0]), a[1..], s1, b, s2);
    }
  }

  lemma RunOne(c: R.Config, s: R.State, l: R.Label)
    requires R.WellFormed(s) && R.Enabled(c, s, l)
    ensures R.Run(c, s, [l], R.Step(c, s, l))
  {
    assert [l][1..] == [];
  }

  // The steps that persisting consists of.
  lemma CopyStep(c: R.Config, s: R.State, g: nat, k: nat)
    requires R.WellFormed(s) && g < |s.gs| && k < |s.mem| && s.gs[g].pc == R.Copying(s.mem[..k])
    requires k < |s.entryLock| && s.entryLock[k].None?
    ensures R.Enabled(c, s, R.CopyOne(g))
    ensures R.Step(c, s, R.CopyOne(g)) == s.(gs := R.SetPC(s.gs, g, R.Copying(s.mem[..k + 1])))
  {
    assert s.mem[..k] + [s.mem[k]] == s.mem[..k + 1];
  }

  lemma LockStep(c: R.Config, s: R.State, g: nat)
    requires R.WellFormed(s) && g < |s.gs| && s.gs[g].pc == R.WantPersist && s.persistLock.None?
    ensures R.Enabled(c, s, R.LockPersist(g))
    ensures R.Step(c, s, R.LockPersist(g)) == s.(persistLock := Some(g), gs := R.SetPC(s.gs, g, R.Copying([])))
  {
  }

  lemma ReplaceStep(c: R.Config, s: R.State, g: nat, write: Write)
    requires R.WellFormed(s) && g < |s.gs| && s.gs[g].pc == R.Copying(s.mem)
    ensures R.Enabled(c, s, R.Replace(g, write))
    ensures var r := R.Step(c, s, R.Replace(g, write));
            && r.persistLock.None? && r.entryLock == s.entryLock && r.mem == s.mem
            && r.file == (if AllValid(s.mem) && write != NotWritten then s.mem else s.file)
            && r.gs == R.SetPC(s.gs, g,
               R.Finished(if AllValid(s.mem) && write == Saved then R.Refreshed else R.PersistFailed))
  {
  }

  // The copy loop takes over the accounts it has not copied yet.
  lemma {:induction false} CopiesRun(c: R.Config, s: R.State, g: nat, k: nat)
    requires R.WellFormed(s) && g < |s.gs| && k <= |s.mem| && s.gs[g].pc == R.Copying(s.mem[..k])
    requires forall i :: 0 <= i < |s.entryLock| ==> s.entryLock[i].None?
    ensures R.Run(c, s, Copies(g, |s.mem| - k), s.(gs := R.SetPC(s.gs, g, R.Copying(s.mem))))
    decreases |s.mem| - k
  {
    hide R.Step, R.Enabled;
    if k == |s.mem| {
      assert s.mem[..k] == s.mem;
      assert R.SetPC(s.gs, g, R.Copying(s.mem)) == s.gs;
    } else {
      CopyStep(c, s, g, k);
      var s1 := R.Step(c, s, R.CopyOne(g));
      CopiesRun(c, s1, g, k + 1);
      assert R.SetPC(s1.gs, g, R.Copying(s.mem)) == R.SetPC(s.gs, g, R.Copying(s.mem));
      assert Copies(g, |s.mem| - k)[1..] == Copies(g, |s.mem| - k - 1);
    }
  }

  // The call has returned: the accounts, the file and the result are those of the method.
  predicate Agrees(c: R.Config, vals: seq<P.EntryVal>, s: R.State, g: nat, answer: P.RefreshResult, write: Write,
      r: R.State)
    requires R.WellFormed(s) && g < |s.gs| && |vals| == |s.mem|
  {
    var i := s.gs[g].entry;
    var after := vals[i := P.Refreshed(vals[i], s.gs[g].force, s.now, c.hasRefresher, answer)];
    var called := P.NeedsRefresh(vals[i], s.gs[g].force, s.now);
    var renewed := called && c.hasRefresher && answer.Token?;
    var offered := renewed && c.hasStore && AllValid(P.Accounts(after));
    && R.WellFormed(r) && |r.gs| == |s.gs| && Unlocked(r)
    && r.mem == P.Accounts(after)
    && r.file == (if offered && write != NotWritten then P.Accounts(after) else s.file)
    && r.gs[g].pc.Finished?
    && (r.gs[g].pc.outcome in {R.Fresh, R.Refreshed} <==>
        !called || (renewed && (!c.hasStore || (offered && write == Saved))))
    && forall j :: 0 <= j < |s.gs| && j != g ==> r.gs[j] == s.gs[j]
  }

  // Persisting: from the updated entry to the end of the call.
  lemma {:induction false} PersistRuns(c: R.Config, s: R.State, g: nat, write: Write) returns (r: R.State)
    requires R.WellFormed(s) && g < |s.gs| && s.gs[g].pc == R.WantPersist && Unlocked(s)
    ensures R.WellFormed(r) && R.Run(c, s, [R.LockPersist(g)] + Copies(g, |s.mem|) + [R.Replace(g, write)], r)
    ensures var offered := AllValid(s.mem);
            && Unlocked(r) && r.mem == s.mem && r.file == (if offered && write != NotWritten then s.mem else s.file)
            && r.gs == R.SetPC(s.gs, g, R.Finished(if offered && write == Saved then R.Refreshed else R.PersistFailed))
  {
    hide R.Run, R.Step, R.Enabled, Copies, AllValid;
    LockStep(c, s, g);
    var s1 := R.Step(c, s, R.LockPersist(g));
    RunOne(c, s, R.LockPersist(g));
    assert s1.mem[..0] == [];
    CopiesRun(c, s1, g, 0);
    var s2 := s1.(gs := R.SetPC(s1.gs, g, R.Copying(s1.mem)));
    RunsOn(c, s, [R.LockPersist(g)], s1, Copies(g, |s.mem|), s2);
    ReplaceStep(c, s2, g, write);
    RunOne(c, s2, R.Replace(g, write));
    r := R.Step(c, s2, R.Replace(g, write));
    RunsOn(c, s, [R.LockPersist(g)] + Copies(g, |s.mem|), s2, [R.Replace(g, write)], r);
    assert R.SetPC(s2.gs, g, r.gs[g].pc) == R.SetPC(s.gs, g, r.gs[g].pc);
  }

  // From the renewed token in the entry to the end of the call.
  lemma {:induction false} RenewalRuns(c: R.Config, s: R.State, g: nat, l: R.Label, write: Write) returns (r: R.State)
    requires R.WellFormed(s) && l.RefreshOk? && l.g == g && R.Enabled(c, s, l)
    requires s.persistLock.None? && forall i :: 0 <= i < |s.entryLock| && i != s.gs[g].entry ==> s.entryLock[i].None?
    ensures R.WellFormed(r)
    ensures R.Run(c, s,
            [l] + (if c.hasStore then [R.LockPersist(g)] + Copies(g, |s.mem|) + [R.Replace(g, write)] else []), r)
    ensures var mem := R.Step(c, s, l).mem;
            var offered := c.hasStore && AllValid(mem);
            && Unlocked(r) && r.mem == mem && r.file == (if offered && write != NotWritten then mem else s.file)
            && r.gs == R.SetPC(s.gs, g, R.Finished(
                 if c.hasStore && !(offered && write == Saved) then R.PersistFailed else R.Refreshed))
  {
    var s2 := R.Step(c, s, l);
    RunOne(c, s, l);
    if c.hasStore {
      r := PersistRuns(c, s2, g, write);
      RunsOn(c, s, [l], s2, [R.LockPersist(g)] + Copies(g, |s.mem|) + [R.Replace(g, write)], r);
    } else {
      r := s2;
      assert [l] + [] == [l];
    }
  }

  lemma AccountAt(vals: seq<P.EntryVal>, i: nat)
    requires i < |vals|
    ensures P.Accounts(vals)[i] == vals[i].account
  {
  }

  lemma RenewedAccounts(vals: seq<P.EntryVal>, i: nat, v: P.EntryVal)
    requires i < |vals|
    ensures P.Accounts(vals[i := v]) == P.Accounts(vals)[i := v.account]
  {
  }

  // Whether the call gets as far as asking for a new token.
  predicate Asks(c: R.Config, s: R.State, g: nat)
    requires R.WellFormed(s) && g < |s.gs|
  {
    c.hasRefresher && (s.gs[g].force || !R.IsFresh(c, s.mem[s.gs[g].entry], s.now))
  }

  lemma {:induction false} NoRefreshIsARun(c: R.Config, vals: seq<P.EntryVal>, s: R.State, g: nat,
      answer: P.RefreshResult, write: Write) returns (r: R.State)
    requires R.WellFormed(s) && g < |s.gs| && s.gs[g].pc == R.Waiting && Unlocked(s)
    requires s.mem == P.Accounts(vals) && c.refreshWindow == P.REFRESH_BEFORE_MS
    requires !Asks(c, s, g)
    ensures R.Run(c, s, Alone(c, s, g, answer, write), r) && Agrees(c, vals, s, g, answer, write, r)
  {
    hide R.Run, AllValid, Copies, P.Accounts;
    var i := s.gs[g].entry;
    RenewedAccounts(vals, i, P.Refreshed(vals[i], s.gs[g].force, s.now, c.hasRefresher, answer));
    AccountAt(vals, i);
    var s1 := R.Step(c, s, R.Enter(g));
    RunOne(c, s, R.Enter(g));
    r := s1;
  }

  lemma {:induction false} FailedRefreshIsARun(c: R.Config, vals: seq<P.EntryVal>, s: R.State, g: nat,
      answer: P.RefreshResult, write: Write) returns (r: R.State)
    requires R.WellFormed(s) && g < |s.gs| && s.gs[g].pc == R.Waiting && Unlocked(s)
    requires s.mem == P.Accounts(vals) && c.refreshWindow == P.REFRESH_BEFORE_MS
    requires Asks(c, s, g) && answer.RefreshError?
    ensures R.Run(c, s, Alone(c, s, g, answer, write), r) && Agrees(c, vals, s, g, answer, write, r)
  {
    hide R.Run, AllValid, Copies, P.Accounts;
    var i := s.gs[g].entry;
    RenewedAccounts(vals, i, P.Refreshed(vals[i], s.gs[g].force, s.now, c.hasRefresher, answer));
    AccountAt(vals, i);
    var s1 := R.Step(c, s, R.Enter(g));
    RunOne(c, s, R.Enter(g));
    r := R.Step(c, s1, R.RefreshErr(g));
    RunOne(c, s1, R.RefreshErr(g));
    RunsOn(c, s, [R.Enter(g)], s1, [R.RefreshErr(g)], r);
    assert [R.Enter(g)] + [R.RefreshErr(g)] == [R.Enter(g), R.RefreshErr(g)];
  }

  lemma AskStep(c: R.Config, s: R.State, g: nat)
    requires R.WellFormed(s) && g < |s.gs| && s.gs[g].pc == R.Waiting && Unlocked(s) && Asks(c, s, g)
    ensures R.Enabled(c, s, R.Enter(g))
    ensures R.Step(c, s, R.Enter(g)) ==
            s.(gs := R.SetPC(s.gs, g, R.Refreshing), entryLock := s.entryLock[s.gs[g].entry := Some(g)])
  {
  }

  // The token that the refresh brings makes the memory the one the method leaves.
  lemma RenewStep(c: R.Config, vals: seq<P.EntryVal>, s: R.State, s1: R.State, g: nat, answer: P.RefreshResult)
    requires R.WellFormed(s) && R.WellFormed(s1) && g < |s.gs| && Asks(c, s, g)
    requires s.mem == P.Accounts(vals) && c.refreshWindow == P.REFRESH_BEFORE_MS
    requires s1 == s.(gs := R.SetPC(s.gs, g, R.Refreshing), entryLock := s1.entryLock)
    requires answer.Token? && answer.token != ""
    ensures var i := s.gs[g].entry;
            var l := R.RefreshOk(g, answer.token, answer.refreshToken, answer.expiresAtMs);
            && R.Enabled(c, s1, l) && P.NeedsRefresh(vals[i], s.gs[g].force, s.now)
            && R.Step(c, s1, l).mem ==
               P.Accounts(vals[i := P.Refreshed(vals[i], s.gs[g].force, s.now, c.hasRefresher, answer)])
  {
    hide P.Accounts, AllValid;
    var i := s.gs[g].entry;
    RenewedAccounts(vals, i, P.Refreshed(vals[i], s.gs[g].force, s.now, c.hasRefresher, answer));
    AccountAt(vals, i);
  }

  lemma {:induction false} RenewalIsARun(c: R.Config, vals: seq<P.EntryVal>, s: R.State, g: nat,
      answer: P.RefreshResult, write: Write) returns (r: R.State)
    requires R.WellFormed(s) && g < |s.gs| && s.gs[g].pc == R.Waiting && Unlocked(s)
    requires s.mem == P.Accounts(vals) && c.refreshWindow == P.REFRESH_BEFORE_MS
    requires Asks(c, s, g) && answer.Token? && answer.token != ""
    ensures R.Run(c, s, Alone(c, s, g, answer, write), r) && Agrees(c, vals, s, g, answer, write, r)
  {
    hide R.Run, R.Step, R.Enabled, AllValid, Copies, P.Accounts;
    AskStep(c, s, g);
    var s1 := R.Step(c, s, R.Enter(g));
    RunOne(c, s, R.Enter(g));
    RenewStep(c, vals, s, s1, g, answer);
    var l := R.RefreshOk(g, answer.token, answer.refreshToken, answer.expiresAtMs);
    r := RenewalRuns(c, s1, g, l, write);
    var rest := if c.hasStore then [R.LockPersist(g)] + Copies(g, |s.mem|) + [R.Replace(g, write)] else [];
    RunsOn(c, s, [R.Enter(g)], s1, [l] + rest, r);
    assert [R.Enter(g)] + ([l] + rest) == [R.Enter(g), l] + rest;
  }

  /** An undisturbed call of EnsureFresh is a run of the protocol, with the same result. */
  lemma {:induction false} EnsureFreshIsARun(c: R.Config, vals: seq<P.EntryVal>, s: R.State, g: nat,
      answer: P.RefreshResult, write: Write) returns (r: R.State)
    requires R.WellFormed(s) && g < |s.gs| && s.gs[g].pc == R.Waiting && Unlocked(s)
    requires s.mem == P.Accounts(vals) && c.refreshWindow == P.REFRESH_BEFORE_MS
    requires answer.Token? ==> answer.token != ""
    ensures R.Run(c, s, Alone(c, s, g, answer, write), r) && Agrees(c, vals, s, g, answer, write, r)
  {
    hide *;
    if !Asks(c, s, g) {
      r := NoRefreshIsARun(c, vals, s, g, answer, write);
    } else if answer.RefreshError? {
      r := FailedRefreshIsARun(c, vals, s, g, answer, write);
    } else {
      r := RenewalIsARun(c, vals, s, g, answer, write);
    }
  }
}
