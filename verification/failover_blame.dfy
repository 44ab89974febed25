// What a pass of the failover loop, and a whole run, does to the health of an account, and why
// (internal/server/server.go:344-456).

module FailoverBlame {
  import opened Wrappers
  import opened Credential
  import opened Failover
  import P = Pool
  import T = TransportCache
  import C = Catalog
  import Q = QueueSignal

  // ---------------------------------------------------------------- blame

  // Some pass ended with a failed refresh, a 401, a 403 that is no model quota, or a 429 of
  // that account, or one of its Chat calls was answered with a 401.
  predicate Blamed(log: Log, id: string) {
    || (exists k :: 0 <= k < |log.ends| && log.ends[k].id == id &&
                    log.ends[k].verdict in {RefreshFailed, Unauthorized, Forbidden, RateLimited})
    || (exists k :: 0 <= k < |log.calls| && log.calls[k].id == id && Is(log.calls[k].reply, 401))
  }

  predicate Extends(a: Log, b: Log) {
    a.ends <= b.ends && a.calls <= b.calls
  }

  lemma BlameStays(a: Log, b: Log, id: string)
    requires Extends(a, b) && Blamed(a, id)
    ensures Blamed(b, id)
  {
    if k :| 0 <= k < |a.ends| && a.ends[k].id == id &&
            a.ends[k].verdict in {RefreshFailed, Unauthorized, Forbidden, RateLimited} {
      assert b.ends[k] == a.ends[k];
    } else {
      var k :| 0 <= k < |a.calls| && a.calls[k].id == id && Is(a.calls[k].reply, 401);
      assert b.calls[k] == a.calls[k];
    }
  }

  // Other requests leave the entries alone.
  predicate Quiet(t: Turn) {
    t.before.entries == [] && t.meanwhile.entries == [] && t.later.entries == []
  }

  // Healthy entries stay healthy, except perhaps entry i.
  predicate KeepsHealth(a: seq<P.EntryVal>, b: seq<P.EntryVal>, i: nat, exceptI: bool) {
    |a| == |b| && forall k :: 0 <= k < |a| ==>
      (a[k].state == P.Healthy && !(exceptI && k == i) ==> b[k].state == P.Healthy)
  }

  lemma EnsuredKeepsHealth(env: Env, vals: seq<P.EntryVal>, i: nat, force: bool, k: Renewal)
    requires i < |vals|
    ensures KeepsHealth(vals, Ensured(env, vals, i, force, k).0, i, false)
  {
  }

  predicate Answered401(made: seq<Call>, id: string) {
    exists k :: 0 <= k < |made| && made[k].id == id && Is(made[k].reply, 401)
  }

  lemma AskedKeepsHealth(env: Env, vals: seq<P.EntryVal>, rr: Counter, i: nat, account: Account, t: Turn)
    requires i < |vals| && Quiet(t) && account.id == vals[i].account.id
    ensures var c := Asked(env, vals, rr, i, account, t);
            KeepsHealth(vals, c.vals, i, Answered401(c.made, account.id))
  {
    EnsuredKeepsHealth(env, vals, i, true, t.forced);
    var c := Asked(env, vals, rr, i, account, t);
    assert c.made[0] == Call(account.id, account.accessToken, t.first);
    hide Ensured;
  }

  lemma JudgedKeepsHealth(env: Env, s: State, i: nat, account: Account, last: Reply, t: Turn)
    requires i < |s.vals| && account.id == s.vals[i].account.id
    ensures var r := Judged(env, s, i, account, last, t);
            && Extends(s.log, r.log)
            && (KeepsHealth(s.vals, r.vals, i, false) ||
                (KeepsHealth(s.vals, r.vals, i, true) && Blamed(r.log, account.id)))
  {
    hide Q.QueueWaitSeconds, Q.IsQuotaError, ErrorText, QueueGate;
    var r := Judged(env, s, i, account, last, t);
    if r.log.ends != s.log.ends {
      assert r.log.ends[|s.log.ends|].id == account.id;
    }
  }

  // Healthy entries are still healthy in b, or blamed there.
  predicate Spared(vals: seq<P.EntryVal>, b: State) {
    |vals| == |b.vals| && forall k :: 0 <= k < |vals| && vals[k].state == P.Healthy ==>
                            b.vals[k].state == P.Healthy || Blamed(b.log, vals[k].account.id)
  }

  lemma KeptIsSpared(vals: seq<P.EntryVal>, mid: seq<P.EntryVal>, b: State, i: nat, x: bool, y: bool)
    requires i < |vals| && KeepsHealth(vals, mid, i, x) && KeepsHealth(mid, b.vals, i, y)
    requires x || y ==> Blamed(b.log, vals[i].account.id)
    ensures Spared(vals, b)
  {
    hide Blamed;
  }

  lemma SparedFrom(vals: seq<P.EntryVal>, mid: seq<P.EntryVal>, b: State)
    requires KeepsHealth(vals, mid, 0, false) && SameIds(vals, mid) && Spared(mid, b)
    ensures Spared(vals, b)
  {
    hide Blamed;
  }

  lemma UnchangedIsSpared(b: State)
    ensures Spared(b.vals, b)
  {
  }

  // The calls of a pass that were answered with a 401 are in its log.
  lemma CallsBlame(log: Log, earlier: seq<Call>, made: seq<Call>, all: seq<Call>, id: string)
    requires exists k :: 0 <= k < |made| && made[k].id == id && Is(made[k].reply, 401)
    requires made <= all && log.calls == earlier + all
    ensures Blamed(log, id)
  {
    var k :| 0 <= k < |made| && made[k].id == id && Is(made[k].reply, 401);
    assert log.calls[|earlier| + k] == made[k];
  }

  lemma HealthTrans(a: seq<P.EntryVal>, b: seq<P.EntryVal>, c: seq<P.EntryVal>, i: nat, x: bool, y: bool)
    requires KeepsHealth(a, b, i, x) && KeepsHealth(b, c, i, y)
    ensures KeepsHealth(a, c, i, x || y)
  {
  }

  lemma TransportKeepsHealth(env: Env, vals: seq<P.EntryVal>, i: nat, name: string)
    requires i < |vals|
    ensures KeepsHealth(vals, Applied(env, vals, i, P.OpSetTransport(name), 0), i, false)
    ensures SameIds(vals, Applied(env, vals, i, P.OpSetTransport(name), 0)) && KeepsHealth(vals, vals, i, false)
    ensures Applied(env, vals, i, P.OpSetTransport(name), 0)[i].account == vals[i].account
  {
  }

  // The entries when the calls have been made.
  lemma CallsKeepHealth(env: Env, vals: seq<P.EntryVal>, rr: Counter, i: nat, pick: Pick, t: Turn)
    requires i < |vals| && Quiet(t)
    ensures var noted := if pick.noted then Applied(env, vals, i, P.OpSetTransport(pick.transport.Name()), 0) else vals;
            var asked := Asked(env, noted, rr, i, vals[i].account, t);
            var c := Crossed(env, asked, i, t, pick.transport);
            && asked.made <= c.made && c.account.id == vals[i].account.id && SameIds(vals, c.vals)
            && KeepsHealth(vals, c.vals, i, Answered401(asked.made, vals[i].account.id))
  {
    hide Asked, Answered401, Applied, KeepsHealth, SameIds, Quiet;
    var account := vals[i].account;
    TransportKeepsHealth(env, vals, i, pick.transport.Name());
    SameIdsRefl(vals);
    var noted := if pick.noted then Applied(env, vals, i, P.OpSetTransport(pick.transport.Name()), 0) else vals;
    AskedKeepsHealth(env, noted, rr, i, account, t);
    AskedKeepsIds(env, noted, rr, i, account, t);
    AskedShape(env, noted, rr, i, account, t);
    var asked := Asked(env, noted, rr, i, account, t);
    var x := Answered401(asked.made, account.id);
    HealthTrans(vals, noted, asked.vals, i, false, x);
    SameIdsTrans(vals, noted, asked.vals);
    TransportKeepsHealth(env, asked.vals, i, "cosy");
    var crossed := Applied(env, asked.vals, i, P.OpSetTransport("cosy"), 0);
    HealthTrans(vals, asked.vals, crossed, i, x, false);
    SameIdsTrans(vals, asked.vals, crossed);
  }

  lemma SentSpares(env: Env, s: State, i: nat, pick: Pick, t: Turn)
    requires i < |s.vals| && Quiet(t)
    ensures Spared(s.vals, Sent(env, s, i, s.vals[i].account, pick, t))
    ensures Extends(s.log, Sent(env, s, i, s.vals[i].account, pick, t).log)
  {
    var account := s.vals[i].account;
    CallsKeepHealth(env, s.vals, s.rr, i, pick, t);
    var noted := if pick.noted then Applied(env, s.vals, i, P.OpSetTransport(pick.transport.Name()), 0) else s.vals;
    hide Applied, Judged, Asked, Crossed, KeepsHealth, Blamed, Is, Spared;
    var asked := Asked(env, noted, s.rr, i, account, t);
    var c := Crossed(env, asked, i, t, pick.transport);
    var s2 := Heard(env, s, c, noted, i, t);
    JudgedKeepsHealth(env, s2, i, c.account, c.last, t);
    var r := Sent(env, s, i, account, pick, t);
    var said401 := Answered401(asked.made, account.id);
    if said401 {
      CallsBlame(s2.log, s.log.calls, asked.made, c.made, account.id);
      BlameStays(s2.log, r.log, account.id);
    }
    KeptIsSpared(s.vals, c.vals, r, i, said401, !KeepsHealth(c.vals, r.vals, i, false));
  }

  lemma RefreshBlame(s: State, vals: seq<P.EntryVal>, i: nat, r: State)
    requires i < |vals| && KeepsHealth(vals, r.vals, i, true)
    requires r.log.ends == s.log.ends + [End(vals[i].account.id, RefreshFailed)]
    ensures Spared(vals, r)
  {
    assert r.log.ends[|s.log.ends|].verdict == RefreshFailed;
    assert Blamed(r.log, vals[i].account.id);
    hide Blamed;
  }

  // The three ways through a pass.
  lemma TriedCases(env: Env, s: State, i: nat, t: Turn)
    requires i < |s.vals| && s.outcome.None?
    ensures var r, ready := Tried(env, s, i, t), Ready(env, s, i, t);
            || r == Ended(ready.(vals := Applied(env, ready.vals, i, P.OpAuthError, t.now)),
                          ready.vals[i].account.id, RefreshFailed)
            || (r.vals == ready.vals && r.log.calls == s.log.calls &&
                (if r.outcome.None? then r.log.ends in {s.log.ends + [End(ready.vals[i].account.id, NoModels)],
                                                        s.log.ends + [End(ready.vals[i].account.id, NoTransport)]}
                 else r.log.ends == s.log.ends))
            || (t.pick.Some? && r == Sent(env, ready, i, ready.vals[i].account, t.pick.value, t))
  {
    hide Ensured, Applied, Sent, Merge, C.FirstModel;
  }

  lemma ReadyKeepsHealth(env: Env, s: State, i: nat, t: Turn)
    requires i < |s.vals| && Quiet(t)
    ensures var r := Ready(env, s, i, t);
            KeepsHealth(s.vals, r.vals, 0, false) && SameIds(s.vals, r.vals) && Extends(s.log, r.log) &&
            r.log.ends == s.log.ends
  {
    assert Merge(s.vals, t.meanwhile.entries) == s.vals;
    EnsuredKeepsHealth(env, s.vals, i, false, t.renewal);
    EnsuredKeepsIds(env, s.vals, i, false, t.renewal);
    hide Ensured, Merge;
  }

  lemma AuthErrorKeepsOthers(env: Env, vals: seq<P.EntryVal>, i: nat, now: int)
    requires i < |vals|
    ensures KeepsHealth(vals, Applied(env, vals, i, P.OpAuthError, now), i, true)
  {
  }

  lemma TriedSpares(env: Env, s: State, i: nat, t: Turn)
    requires s.outcome.None? && i < |s.vals| && Quiet(t)
    ensures Spared(s.vals, Tried(env, s, i, t)) && Extends(s.log, Tried(env, s, i, t).log)
  {
    hide Tried, Ready, Sent, Applied, Spared, KeepsHealth, SameIds, Quiet;
    TriedCases(env, s, i, t);
    ReadyKeepsHealth(env, s, i, t);
    var r, ready := Tried(env, s, i, t), Ready(env, s, i, t);
    AuthErrorKeepsOthers(env, ready.vals, i, t.now);
    if t.pick.Some? && r == Sent(env, ready, i, ready.vals[i].account, t.pick.value, t) {
      SentSpares(env, ready, i, t.pick.value, t);
    } else if r.vals == ready.vals {
      UnchangedIsSpared(r);
    } else {
      RefreshBlame(s, ready.vals, i, r);
    }
    SparedFrom(s.vals, ready.vals, r);
  }

  lemma SeenKeepsHealth(vals: seq<P.EntryVal>, t: Turn)
    requires Quiet(t)
    ensures KeepsHealth(vals, Seen(vals, t), 0, false)
  {
    assert Merge(vals, t.before.entries) == vals;
    var seen := P.ExpireAll(vals, t.clock);
    forall k | 0 <= k < |vals| && vals[k].state == P.Healthy ensures seen[k].state == P.Healthy {
      assert seen[k] == P.Expire(vals[k], t.clock(k));
    }
  }

  lemma PassSpares(env: Env, s: State, t: Turn)
    requires s.outcome.None? && Quiet(t)
    ensures Spared(s.vals, Iterate(env, s, t)) && Extends(s.log, Iterate(env, s, t).log)
  {
    hide Tried, Seen, P.Selection, Spared, SameIds, KeepsHealth, Quiet;
    var rr := Ticked(s.rr, t.before);
    P.SelectionSound(Seen(s.vals, t), env.session, s.loop.excluded, env.hash, rr);
    var sel := Selected(env, s, t);
    SeenKeepsIds(s.vals, t);
    SeenKeepsHealth(s.vals, t);
    var r := Iterate(env, s, t);
    if sel.Picked? {
      var s1 := Chosen(env, s, t);
      TriedSpares(env, s1, sel.i, t);
    }
    UnchangedIsSpared(r);
    if s.loop.attempts < env.maxAccounts {
      SparedFrom(s.vals, Seen(s.vals, t), r);
    }
  }

  lemma SparedTrans(vals: seq<P.EntryVal>, mid: State, b: State)
    requires Spared(vals, mid) && SameIds(vals, mid.vals) && Spared(mid.vals, b) && Extends(mid.log, b.log)
    ensures Spared(vals, b)
  {
    forall k | 0 <= k < |vals| && vals[k].state == P.Healthy
      ensures b.vals[k].state == P.Healthy || Blamed(b.log, vals[k].account.id)
    {
      if mid.vals[k].state != P.Healthy {
        BlameStays(mid.log, b.log, vals[k].account.id);
      }
      hide Blamed;
    }
  }

  lemma {:induction false} RunSpares(env: Env, s: State, n: nat, turns: nat -> Turn)
    requires s.outcome.None? && forall k :: Quiet(turns(k))
    ensures Spared(s.vals, Run(env, s, n, turns)) && Extends(s.log, Run(env, s, n, turns).log)
    decreases Left(env, s.loop)
  {
    hide Iterate, Spared, Quiet, SameIds;
    var r := Iterate(env, s, turns(n));
    PassSpares(env, s, turns(n));
    if r.outcome.None? {
      PassUsesUp(env, s, turns(n));
      PassKeepsIds(env, s, turns(n));
      RunSpares(env, r, n + 1, turns);
      SparedTrans(s.vals, r, Run(env, r, n + 1, turns));
    }
  }

  /** Nothing but the named failures costs an account its health: in a run that no other request
      disturbs, an entry that was healthy before is healthy after unless that very account's
      refresh failed or it was answered with a 401, a 403 that is no model quota, or a 429. */
  lemma OnlyBlameCostsHealth(env: Env, vals: seq<P.EntryVal>, rr: Counter, file: seq<Account>, turns: nat -> Turn,
      i: nat)
    requires (forall k :: Quiet(turns(k))) && i < |vals| && vals[i].state == P.Healthy
    ensures var r := Chat(env, vals, rr, file, turns);
            |r.vals| == |vals| && (r.vals[i].state == P.Healthy || Blamed(r.log, vals[i].account.id))
  {
    RunSpares(env, Initial(vals, rr, file), 0, turns);
    hide Run, Quiet, Blamed;
  }

  // The health in which a pass with that verdict leaves its account. A 401 whose text also
  // signals a queue has marked the account before the wait.
  predicate LeftIn(v: Verdict, h: P.Health) {
    match v
    case RefreshFailed => h == P.AuthError
    case Unauthorized => h == P.AuthError
    case Forbidden => h == P.Disabled
    case RateLimited => h == P.Cooldown
    case Waited(_) => h == P.Healthy || h == P.AuthError
    case _ => h == P.Healthy
  }

  lemma AskedLeaves(env: Env, vals: seq<P.EntryVal>, rr: Counter, i: nat, account: Account, t: Turn)
    requires i < |vals| && Quiet(t) && vals[i].state == P.Healthy
    ensures var c := Asked(env, vals, rr, i, account, t);
            c.vals[i].state == P.Healthy || (c.vals[i].state == P.AuthError && Is(c.last, 401))
  {
    EnsuredKeepsHealth(env, vals, i, true, t.forced);
    hide Ensured;
  }

  lemma JudgedLeaves(env: Env, s: State, i: nat, account: Account, last: Reply, t: Turn)
    requires s.outcome.None? && i < |s.vals|
    requires s.vals[i].state == P.Healthy || (s.vals[i].state == P.AuthError && Is(last, 401))
    ensures var r := Judged(env, s, i, account, last, t);
            r.outcome.None? ==>
              |r.log.ends| == |s.log.ends| + 1 && LeftIn(r.log.ends[|s.log.ends|].verdict, r.vals[i].state)
  {
    hide Q.QueueWaitSeconds, Q.IsQuotaError, ErrorText, QueueGate;
  }

  lemma SentLeaves(env: Env, s: State, i: nat, account: Account, pick: Pick, t: Turn)
    requires s.outcome.None? && i < |s.vals| && Quiet(t) && s.vals[i].state == P.Healthy
    ensures var r := Sent(env, s, i, account, pick, t);
            r.outcome.None? ==>
              |r.log.ends| == |s.log.ends| + 1 && LeftIn(r.log.ends[|s.log.ends|].verdict, r.vals[i].state)
  {
    hide Asked, Judged, LeftIn;
    var noted := if pick.noted then Applied(env, s.vals, i, P.OpSetTransport(pick.transport.Name()), 0) else s.vals;
    AskedLeaves(env, noted, s.rr, i, account, t);
    var c := Crossed(env, Asked(env, noted, s.rr, i, account, t), i, t, pick.transport);
    var s1 := Heard(env, s, c, noted, i, t);
    JudgedLeaves(env, s1, i, c.account, c.last, t);
  }

  lemma TriedLeaves(env: Env, s: State, i: nat, t: Turn)
    requires s.outcome.None? && i < |s.vals| && Quiet(t) && s.vals[i].state == P.Healthy
    ensures var r := Tried(env, s, i, t);
            r.outcome.None? ==>
              |r.log.ends| == |s.log.ends| + 1 && LeftIn(r.log.ends[|s.log.ends|].verdict, r.vals[i].state)
  {
    hide Tried, Ready, Sent, Applied, KeepsHealth, SameIds, Quiet;
    TriedCases(env, s, i, t);
    ReadyKeepsHealth(env, s, i, t);
    var r, ready := Tried(env, s, i, t), Ready(env, s, i, t);
    assert ready.vals[i].state == P.Healthy && ready.outcome.None? by {
      ReadyIsHealthy(env, s, i, t);
    }
    AuthErrorLeaves(env, ready.vals, i, t.now);
    if t.pick.Some? {
      SentLeaves(env, ready, i, ready.vals[i].account, t.pick.value, t);
    }
  }

  lemma ReadyIsHealthy(env: Env, s: State, i: nat, t: Turn)
    requires s.outcome.None? && i < |s.vals| && s.vals[i].state == P.Healthy
    requires KeepsHealth(s.vals, Ready(env, s, i, t).vals, 0, false)
    ensures Ready(env, s, i, t).vals[i].state == P.Healthy && Ready(env, s, i, t).outcome.None?
  {
    hide Ensured, Merge;
  }

  lemma AuthErrorLeaves(env: Env, vals: seq<P.EntryVal>, i: nat, now: int)
    requires i < |vals|
    ensures Applied(env, vals, i, P.OpAuthError, now)[i].state == P.AuthError
  {
  }

  /** What a pass leaves behind: a failed refresh or a 401 an auth error, a 403 without quota a
      disabled account, a 429 a cooling one; after a model quota, a server error, an empty
      catalog or a failed probe the account is as healthy as it was when it was picked. */
  lemma {:induction false} VerdictTellsHealth(env: Env, s: State, t: Turn) returns (i: nat)
    requires s.outcome.None? && Quiet(t) && Iterate(env, s, t).outcome.None?
    ensures var r := Iterate(env, s, t);
            && i < |r.vals| && |r.log.ends| == |s.log.ends| + 1
            && r.log.ends[|s.log.ends|].id == s.vals[i].account.id
            && LeftIn(r.log.ends[|s.log.ends|].verdict, r.vals[i].state)
  {
    hide Tried, Seen, P.Selection, LeftIn, Quiet, CallsOf, EndsInStream, Allowed, Next;
    var rr := Ticked(s.rr, t.before);
    P.SelectionSound(Seen(s.vals, t), env.session, s.loop.excluded, env.hash, rr);
    i := Selected(env, s, t).i;
    var s1 := Chosen(env, s, t);
    TriedLeaves(env, s1, i, t);
    var made := TriedShape(env, s, s1, i, t);
  }

  // The answer that a verdict stands for. A queue signal is waited for as long as the gate is
  // open, whatever the status; only then the status decides.
  predicate Fits(config: Config, loop: Loop, v: Verdict, reply: Reply) {
    var wait := Q.QueueWaitSeconds(ErrorText(reply));
    && reply != Stream
    && (v.Waited? <==> QueueGate(config, loop, wait))
    && match v
       case Waited(d) => wait < d <= wait + config.queueWaitJitter
       case Unauthorized => Is(reply, 401)
       case Quota => Is(reply, 403) && Q.IsQuotaError(reply.message)
       case Forbidden => Is(reply, 403) && !Q.IsQuotaError(reply.message)
       case RateLimited => Is(reply, 429)
       case ServerError => reply.HttpError? && reply.status >= 500
       case _ => false
  }

  // The verdict needs no answer: no call was made.
  predicate Unasked(v: Verdict) {
    v in {RefreshFailed, NoModels, NoTransport}
  }

  lemma JudgedFits(env: Env, loop: Loop, s: State, i: nat, account: Account, last: Reply, t: Turn)
    requires s.outcome.None? && i < |s.vals| && s.loop == Trying(loop, account.id)
    ensures var r := Judged(env, s, i, account, last, t);
            r.outcome.None? ==>
              |r.log.ends| == |s.log.ends| + 1 && Fits(env.config, loop, r.log.ends[|s.log.ends|].verdict, last)
  {
    hide Q.QueueWaitSeconds, Q.IsQuotaError, ErrorText, Applied;
  }

  lemma LastAnswer(env: Env, vals: seq<P.EntryVal>, rr: Counter, i: nat, account: Account, t: Turn, via: T.Transport)
    requires i < |vals| && vals[i].account.id == account.id
    ensures var c := Crossed(env, Asked(env, vals, rr, i, account, t), i, t, via);
            c.account.id == account.id && c.made != [] && c.made[|c.made| - 1].reply == c.last
  {
    AskedShape(env, vals, rr, i, account, t);
    hide Asked, Applied;
  }

  // The pass made calls, and its verdict fits the answer to the last of them.
  predicate Answered(env: Env, loop: Loop, s: State, r: State) {
    && |r.log.ends| == |s.log.ends| + 1 && |r.log.calls| > |s.log.calls|
    && Fits(env.config, loop, r.log.ends[|s.log.ends|].verdict, r.log.calls[|r.log.calls| - 1].reply)
  }

  lemma SentFits(env: Env, loop: Loop, s: State, i: nat, account: Account, pick: Pick, t: Turn)
    requires s.outcome.None? && i < |s.vals| && s.vals[i].account == account && s.loop == Trying(loop, account.id)
    ensures var r := Sent(env, s, i, account, pick, t); r.outcome.None? ==> Answered(env, loop, s, r)
  {
    hide Applied, Asked, AskedFile, Crossed, Judged, Fits, KeepsHealth, SameIds;
    TransportKeepsHealth(env, s.vals, i, pick.transport.Name());
    var noted := if pick.noted then Applied(env, s.vals, i, P.OpSetTransport(pick.transport.Name()), 0) else s.vals;
    assert noted[i].account == account;
    LastAnswer(env, noted, s.rr, i, account, t, pick.transport);
    var c := Crossed(env, Asked(env, noted, s.rr, i, account, t), i, t, pick.transport);
    var s1 := Heard(env, s, c, noted, i, t);
    JudgedFits(env, loop, s1, i, c.account, c.last, t);
    JudgedKeepsCalls(env, s1, i, c.account, c.last, t);
  }

  lemma JudgedKeepsCalls(env: Env, s: State, i: nat, account: Account, last: Reply, t: Turn)
    requires i < |s.vals|
    ensures Judged(env, s, i, account, last, t).log.calls == s.log.calls
  {
    hide Q.QueueWaitSeconds, Q.IsQuotaError, ErrorText, QueueGate, Applied;
  }

  lemma ReadyIsTrying(env: Env, s: State, i: nat, t: Turn)
    requires i < |s.vals|
    ensures var ready := Ready(env, s, i, t);
            && ready.outcome == s.outcome && ready.loop == Trying(s.loop, ready.vals[i].account.id)
            && ready.log.calls == s.log.calls && ready.log.ends == s.log.ends
  {
    hide Ensured, Merge, Trying;
  }

  lemma AnsweredFrom(env: Env, loop: Loop, ready: State, s: State, r: State)
    requires ready.log.calls == s.log.calls && ready.log.ends == s.log.ends
    ensures Answered(env, loop, ready, r) == Answered(env, loop, s, r)
  {
  }

  lemma TriedFits(env: Env, s: State, i: nat, t: Turn)
    requires s.outcome.None? && i < |s.vals|
    ensures var r := Tried(env, s, i, t);
            r.outcome.None? ==>
              Answered(env, s.loop, s, r) ||
              (r.log.calls == s.log.calls && |r.log.ends| == |s.log.ends| + 1 &&
                  Unasked(r.log.ends[|s.log.ends|].verdict))
  {
    TriedCases(env, s, i, t);
    ReadyIsTrying(env, s, i, t);
    hide Tried, Ready, Sent, Applied, Fits, Trying, Answered;
    var ready := Ready(env, s, i, t);
    if t.pick.Some? {
      AnsweredFrom(env, s.loop, ready, s, Tried(env, s, i, t));
      SentFits(env, s.loop, ready, i, ready.vals[i].account, t.pick.value, t);
    }
  }

  /** Every verdict is what the upstream said: a pass that went on without a call had a failed
      refresh, no models or no transport; otherwise its verdict fits the answer to its last call,
      and it waits for the queue exactly when that answer signals one and the gate is open. */
  lemma VerdictFitsAnswer(env: Env, s: State, t: Turn)
    requires s.outcome.None? && Iterate(env, s, t).outcome.None?
    ensures var r := Iterate(env, s, t);
            Answered(env, s.loop, s, r) ||
            (r.log.calls == s.log.calls && |r.log.ends| == |s.log.ends| + 1 &&
                Unasked(r.log.ends[|s.log.ends|].verdict))
  {
    hide Tried, Seen, P.Selection, Fits;
    var rr := Ticked(s.rr, t.before);
    P.SelectionSound(Seen(s.vals, t), env.session, s.loop.excluded, env.hash, rr);
    var s1 := Chosen(env, s, t);
    TriedFits(env, s1, Selected(env, s, t).i, t);
  }

  function LastReply(r: State): Reply
    requires r.log.calls != []
  {
    r.log.calls[|r.log.calls| - 1].reply
  }

  // The pass made calls, and the last of them was refused with a 403 that is no model quota.
  predicate Refused(s: State, r: State) {
    |r.log.calls| > |s.log.calls| && Is(LastReply(r), 403) && !Q.IsQuotaError(LastReply(r).message)
  }

  /** A queue signal on a 403 costs the account nothing while the gate lets the request wait;
      once the rounds, the longest wait or the budget are used up it disables the account, unless
      the message is a model quota as well: of the passes that go on after such an answer, exactly
      those at a closed gate leave the account disabled. */
  lemma {:induction false} SpentQueueDisables(env: Env, s: State, t: Turn, r: State) returns (i: nat)
    requires s.outcome.None? && Quiet(t) && r == Iterate(env, s, t) && r.outcome.None? && Refused(s, r)
    ensures i < |r.vals| == |s.vals| && r.log.ends != [] && s.vals[i].account.id == r.log.ends[|r.log.ends| - 1].id
    ensures r.log.calls != [] && (r.vals[i].state == P.Disabled <==>
              !QueueGate(env.config, s.loop, Q.QueueWaitSeconds(ErrorText(LastReply(r)))))
  {
    hide Iterate, QueueGate, Q.QueueWaitSeconds, Q.IsQuotaError, ErrorText, Quiet;
    VerdictFitsAnswer(env, s, t);
    i := VerdictTellsHealth(env, s, t);
  }
}
