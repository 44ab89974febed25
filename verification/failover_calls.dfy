// The failover loop beside the other models: its Chat calls are those of the transport protocol,
// and the credentials file follows the pool (internal/server/server.go:344-393).

module FailoverCalls {
  import opened Wrappers
  import opened Credential
  import opened Failover
  import opened FailoverBlame
  import P = Pool
  import T = TransportCache
  import C = Catalog
  import Q = QueueSignal

  // ---------------------------------------------------------------- the calls are the protocol's

  function ToReply(r: Reply): T.Reply {
    match r
    case Stream => T.Stream
    case HttpError(status, _, _) => T.Http(status)
    case OtherError(_) => T.NetworkError
  }

  // An attempt of the transport protocol that nothing interrupts.
  function Uninterrupted(mode: string, cache: T.Cache, a: T.Attempt, answers: seq<T.Answer>): T.Attempt
    decreases |answers|
  {
    if answers == [] then a
    else
      var (c, b) := T.Advance(mode, cache, a, answers[0]);
      Uninterrupted(mode, c, b, answers[1..])
  }

  // What the upstream answers in a pass: to the first call, after a 401 and a refresh that works
  // to the second one, and after a crossing to the last one.
  datatype Script = Script(first: Reply, refreshed: bool, second: Reply, fallback: Reply) {
    predicate Again() {
      Is(first, 401) && refreshed
    }

    function Last(): Reply {
      if Again() then second else first
    }

    predicate Crosses(mode: string, via: T.Transport) {
      (Is(Last(), 404) || Is(Last(), 405)) && mode == "auto" && via == T.Bearer
    }

    function Replies(mode: string, via: T.Transport): seq<Reply> {
      [first] + (if Again() then [second] else []) + if Crosses(mode, via) then [fallback] else []
    }

    // The same for the steps of the protocol, of which the cache write of a crossing is one.
    function Answers(mode: string, via: T.Transport): seq<T.Answer> {
      [T.Answer(T.ProbeOk, ToReply(first), refreshed)] +
      ((if Again() then [T.Answer(T.ProbeOk, ToReply(second), false)] else []) +
       if Crosses(mode, via) then
           [T.Answer(T.ProbeOk, ToReply(Last()), false), T.Answer(T.ProbeOk, ToReply(fallback), false)]
       else [])
    }
  }

  function ScriptOf(env: Env, vals: seq<P.EntryVal>, i: nat, t: Turn): Script
    requires i < |vals|
  {
    Script(t.first, Ensured(env, Merge(vals, t.later.entries), i, true, t.forced).1, t.second, t.fallback)
  }

  lemma UninterruptedMore(mode: string, cache: T.Cache, a: T.Attempt, x: T.Answer, rest: seq<T.Answer>)
    ensures var (c, b) := T.Advance(mode, cache, a, x);
            Uninterrupted(mode, cache, a, [x] + rest) == Uninterrupted(mode, c, b, rest)
  {
    hide T.Advance;
    assert ([x] + rest)[1..] == rest;
  }

  // The end of an attempt: it is over, or it crosses and makes one more call.
  lemma EndOfAttempt(mode: string, cache: T.Cache, a: T.Attempt, c: Script, via: T.Transport)
    requires a.pc == T.AfterReply(mode, via, ToReply(c.Last()))
    ensures var rest := if c.Crosses(mode, via) then [T.Answer(T.ProbeOk, ToReply(c.Last()), false),
                                                      T.Answer(T.ProbeOk, ToReply(c.fallback), false)] else [];
            var b := Uninterrupted(mode, cache, a, rest);
            && b.pc == T.Finished
            && b.chats == a.chats + if c.Crosses(mode, via) then [T.Chat(T.Cosy, ToReply(c.fallback))] else []
  {
    hide T.FallbackClass, T.Key;
    if c.Crosses(mode, via) {
      var x, y := T.Answer(T.ProbeOk, ToReply(c.Last()), false), T.Answer(T.ProbeOk, ToReply(c.fallback), false);
      UninterruptedMore(mode, cache, a, x, [y]);
      assert [x] + [y] == [x, y];
      var (after, b) := T.Advance(mode, cache, a, x);
      UninterruptedMore(mode, after, b, y, []);
      assert [y] + [] == [y];
    } else {
      assert a.chats + [] == a.chats;
    }
  }

  // The calls of the protocol: the transports that are used, and the answers.
  function Chats(c: Script, mode: string, via: T.Transport): seq<T.Chat> {
    [T.Chat(via, ToReply(c.first))] + (if c.Again() then [T.Chat(via, ToReply(c.second))] else []) +
    if c.Crosses(mode, via) then [T.Chat(T.Cosy, ToReply(c.fallback))] else []
  }

  lemma ProtocolFollowsScript(mode: string, cache: T.Cache, a: T.Attempt, c: Script, via: T.Transport)
    requires a.pc == T.Call(via) && a.chats == []
    ensures var b := Uninterrupted(mode, cache, a, c.Answers(mode, via));
            b.pc == T.Finished && b.chats == Chats(c, mode, via)
  {
    hide T.Class, T.FallbackClass, T.Key, Uninterrupted;
    var rest := if c.Crosses(mode, via) then [T.Answer(T.ProbeOk, ToReply(c.Last()), false),
                                              T.Answer(T.ProbeOk, ToReply(c.fallback), false)] else [];
    var x, y := T.Answer(T.ProbeOk, ToReply(c.first), c.refreshed), T.Answer(T.ProbeOk, ToReply(c.second), false);
    UninterruptedMore(mode, cache, a, x, (if c.Again() then [y] else []) + rest);
    var a1 := T.Advance(mode, cache, a, x).1;
    assert a1.chats == [T.Chat(via, ToReply(c.first))];
    if c.Again() {
      UninterruptedMore(mode, cache, a1, y, rest);
      EndOfAttempt(mode, cache, T.Advance(mode, cache, a1, y).1, c, via);
    } else {
      assert [] + rest == rest;
      assert a1.chats + [] == a1.chats;
      EndOfAttempt(mode, cache, a1, c, via);
    }
  }

  lemma CallsFollowScript(env: Env, vals: seq<P.EntryVal>, rr: Counter, i: nat, account: Account, t: Turn,
      via: T.Transport)
    requires i < |vals|
    ensures var made := Crossed(env, Asked(env, vals, rr, i, account, t), i, t, via).made;
            var replies := ScriptOf(env, vals, i, t).Replies(env.config.transport, via);
            |made| == |replies| && forall k :: 0 <= k < |made| ==> made[k].reply == replies[k]
  {
    hide Ensured, Merge, Applied;
  }

  lemma RepliesAreChats(c: Script, mode: string, via: T.Transport)
    ensures var chats, replies := Chats(c, mode, via), c.Replies(mode, via);
            |chats| == |replies| && forall k :: 0 <= k < |chats| ==> chats[k].reply == ToReply(replies[k])
  {
  }

  /** The calls of a pass are those of an attempt of the transport protocol, from the point where
      its transport is settled: as many, with the same answers, in the same order. */
  lemma CallsAreTheProtocol(env: Env, vals: seq<P.EntryVal>, rr: Counter, i: nat, account: Account, t: Turn,
      via: T.Transport, cache: T.Cache, a: T.Attempt)
    requires i < |vals| && a.pc == T.Call(via) && a.chats == []
    ensures var mode := env.config.transport;
            var b := Uninterrupted(mode, cache, a, ScriptOf(env, vals, i, t).Answers(mode, via));
            var made := Crossed(env, Asked(env, vals, rr, i, account, t), i, t, via).made;
            && b.pc == T.Finished && |b.chats| == |made|
            && forall k :: 0 <= k < |made| ==> b.chats[k].reply == ToReply(made[k].reply)
  {
    hide *;
    var c := ScriptOf(env, vals, i, t);
    ProtocolFollowsScript(env.config.transport, cache, a, c, via);
    CallsFollowScript(env, vals, rr, i, account, t, via);
    RepliesAreChats(c, env.config.transport, via);
  }

  // ---------------------------------------------------------------- the credentials file

  // The file holds the accounts of the pool, entry by entry, and they are valid.
  predicate InSync(s: State) {
    s.file == P.Accounts(s.vals) && AllValid(s.file)
  }

  // A refresh that succeeds brings a token, and its write gets as far as the rename.
  predicate Sound(k: Renewal) {
    (k.answer.Token? ==> k.answer.token != "") && k.write != NotWritten
  }

  predicate Undisturbed(t: Turn) {
    Quiet(t) && t.before.file.None? && t.meanwhile.file.None? && t.later.file.None? && Sound(t.renewal) &&
        Sound(t.forced)
  }

  lemma RefreshedAccount(vals: seq<P.EntryVal>, i: nat, v: P.EntryVal)
    requires i < |vals|
    ensures P.Accounts(vals[i := v]) == P.Accounts(vals)[i := v.account]
    ensures P.Accounts(vals)[i] == vals[i].account
  {
  }

  lemma EnsuredKeepsSync(env: Env, vals: seq<P.EntryVal>, i: nat, force: bool, k: Renewal)
    requires i < |vals| && env.hasStore && Sound(k) && AllValid(P.Accounts(vals))
    ensures FileAfter(env, P.Accounts(vals), vals, i, force, k) == P.Accounts(Ensured(env, vals, i, force, k).0)
    ensures AllValid(P.Accounts(Ensured(env, vals, i, force, k).0))
  {
    RefreshedAccount(vals, i, P.Refreshed(vals[i], force, k.nowMs, env.hasRefresher, k.answer));
    hide P.Accounts;
    assert Validate(P.Accounts(vals)[i]);
    assert P.Accounts(vals)[i := vals[i].account] == P.Accounts(vals);
  }

  lemma AppliedKeepsAccounts(env: Env, vals: seq<P.EntryVal>, i: nat, op: P.Op, now: int)
    requires i < |vals| && !op.OpRefreshOk?
    ensures P.Accounts(Applied(env, vals, i, op, now)) == P.Accounts(vals)
  {
    RefreshedAccount(vals, i, P.Apply(vals[i], op, now, env.recovery));
    hide P.Accounts;
    assert P.Accounts(vals)[i := vals[i].account] == P.Accounts(vals);
  }

  lemma AskedKeepsSync(env: Env, vals: seq<P.EntryVal>, rr: Counter, i: nat, account: Account, t: Turn)
    requires i < |vals| && env.hasStore && Undisturbed(t) && AllValid(P.Accounts(vals))
    ensures var c := Asked(env, vals, rr, i, account, t);
            AskedFile(env, P.Accounts(vals), vals, i, t) == P.Accounts(c.vals) && AllValid(P.Accounts(c.vals))
  {
    assert Merge(vals, t.later.entries) == vals;
    EnsuredKeepsSync(env, vals, i, true, t.forced);
    hide P.Accounts, FileAfter, Merge;
    var after := Ensured(env, vals, i, true, t.forced).0;
    hide Ensured;
    AppliedKeepsAccounts(env, after, i, P.OpAuthError, t.now);
  }

  lemma JudgedKeepsSync(env: Env, s: State, i: nat, account: Account, last: Reply, t: Turn)
    requires i < |s.vals|
    ensures var r := Judged(env, s, i, account, last, t); r.file == s.file && P.Accounts(r.vals) == P.Accounts(s.vals)
  {
    hide Q.QueueWaitSeconds, Q.IsQuotaError, ErrorText, QueueGate, P.Accounts, Applied;
    AppliedKeepsAccounts(env, s.vals, i, P.OpAuthError, t.now);
    AppliedKeepsAccounts(env, s.vals, i, P.OpDisabled("Qoder returned 403"), t.now);
    if last.HttpError? {
      AppliedKeepsAccounts(env, s.vals, i, P.OpCooldown(Max(last.retryAfter, env.config.cooldownDefault)), t.now);
    }
  }

  lemma SentKeepsSync(env: Env, s: State, i: nat, account: Account, pick: Pick, t: Turn)
    requires i < |s.vals| && env.hasStore && Undisturbed(t) && InSync(s)
    ensures InSync(Sent(env, s, i, account, pick, t))
  {
    hide P.Accounts, Applied, Asked, AskedFile, Judged, AllValid, Undisturbed;
    AppliedKeepsAccounts(env, s.vals, i, P.OpSetTransport(pick.transport.Name()), 0);
    var noted := if pick.noted then Applied(env, s.vals, i, P.OpSetTransport(pick.transport.Name()), 0) else s.vals;
    AskedKeepsSync(env, noted, s.rr, i, account, t);
    var asked := Asked(env, noted, s.rr, i, account, t);
    AppliedKeepsAccounts(env, asked.vals, i, P.OpSetTransport("cosy"), 0);
    var c := Crossed(env, asked, i, t, pick.transport);
    JudgedKeepsSync(env, Heard(env, s, c, noted, i, t), i, c.account, c.last, t);
  }

  lemma ReadyKeepsSync(env: Env, s: State, i: nat, t: Turn)
    requires i < |s.vals| && env.hasStore && Undisturbed(t) && InSync(s)
    ensures InSync(Ready(env, s, i, t))
  {
    assert Merge(s.vals, t.meanwhile.entries) == s.vals;
    EnsuredKeepsSync(env, s.vals, i, false, t.renewal);
    hide Ensured, FileAfter, P.Accounts, Merge;
  }

  lemma TriedKeepsSync(env: Env, s: State, i: nat, t: Turn)
    requires s.outcome.None? && i < |s.vals| && env.hasStore && Undisturbed(t) && InSync(s)
    ensures InSync(Tried(env, s, i, t))
  {
    ReadyKeepsSync(env, s, i, t);
    var ready := Ready(env, s, i, t);
    AppliedKeepsAccounts(env, ready.vals, i, P.OpAuthError, t.now);
    if t.pick.Some? {
      SentKeepsSync(env, ready, i, ready.vals[i].account, t.pick.value, t);
    }
    hide Ensured, Applied, Sent, Merge, FileAfter, P.Accounts, AllValid, Undisturbed, C.FirstModel;
  }

  lemma SeenKeepsAccounts(vals: seq<P.EntryVal>, t: Turn)
    requires Quiet(t)
    ensures P.Accounts(Seen(vals, t)) == P.Accounts(vals)
  {
    assert Merge(vals, t.before.entries) == vals;
    ExpireKeepsAccounts(vals, t.clock);
  }

  lemma PassKeepsSync(env: Env, s: State, t: Turn)
    requires s.outcome.None? && env.hasStore && Undisturbed(t) && InSync(s)
    ensures InSync(Iterate(env, s, t))
  {
    SeenKeepsAccounts(s.vals, t);
    hide Tried, Seen, P.Selection, P.Accounts, AllValid;
    var rr := Ticked(s.rr, t.before);
    P.SelectionSound(Seen(s.vals, t), env.session, s.loop.excluded, env.hash, rr);
    var sel := Selected(env, s, t);
    if sel.Picked? {
      TriedKeepsSync(env, Chosen(env, s, t), sel.i, t);
    }
  }

  /** The file follows the pool: in a run that no other request disturbs and whose writes get as
      far as the rename, the credentials file that was the pool's list of accounts at the start is
      so in the end, whatever was refreshed in between. */
  lemma {:induction false} FileFollowsThePool(env: Env, s: State, n: nat, turns: nat -> Turn)
    requires s.outcome.None? && env.hasStore && InSync(s) && forall k :: Undisturbed(turns(k))
    ensures InSync(Run(env, s, n, turns))
    decreases Left(env, s.loop)
  {
    hide Iterate, InSync, Undisturbed;
    PassKeepsSync(env, s, turns(n));
    if Iterate(env, s, turns(n)).outcome.None? {
      PassUsesUp(env, s, turns(n));
      FileFollowsThePool(env, Iterate(env, s, turns(n)), n + 1, turns);
    }
  }
}
