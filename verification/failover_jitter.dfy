// The jitter of the queue wait (internal/server/server.go:400-413): when a run panics over it.

module FailoverJitter {
  import opened Wrappers
  import opened Credential
  import opened Failover
  import opened FailoverBounds
  import opened FailoverBlame
  import P = Pool
  import T = TransportCache
  import C = Catalog
  import Q = QueueSignal

  // ---------------------------------------------------------------- the jitter

  // The answer to that call would be waited for in the first queue round.
  predicate Opens(config: Config, reply: Reply) {
    QueueGate(config, START, Q.QueueWaitSeconds(ErrorText(reply)))
  }

  lemma NoWaitForStream()
    ensures Q.QueueWaitSeconds(ErrorText(Stream)) == 0
  {
    assert !Q.Marked("", Q.PATTERN);
  }

  lemma JudgedPanics(env: Env, s: State, i: nat, account: Account, last: Reply, t: Turn)
    requires s.outcome.None? && i < |s.vals|
    ensures Judged(env, s, i, account, last, t).outcome == Some(JitterPanic) <==>
            env.config.queueWaitJitter <= 0 && QueueGate(env.config, s.loop, Q.QueueWaitSeconds(ErrorText(last)))
  {
    NoWaitForStream();
    hide Q.QueueWaitSeconds, Q.IsQuotaError, ErrorText, Applied;
  }

  // The pass made calls, and the answer to the last of them opened the gate.
  predicate OpenedGate(env: Env, s: State, r: State) {
    |r.log.calls| > |s.log.calls| &&
    QueueGate(env.config, s.loop, Q.QueueWaitSeconds(ErrorText(r.log.calls[|r.log.calls| - 1].reply)))
  }

  lemma GateIgnoresExclusion(config: Config, loop: Loop, id: string, wait: int)
    ensures QueueGate(config, Trying(loop, id), wait) == QueueGate(config, loop, wait)
  {
  }

  lemma SentPanics(env: Env, loop: Loop, s: State, i: nat, account: Account, pick: Pick, t: Turn)
    requires s.outcome.None? && i < |s.vals| && s.vals[i].account == account && s.loop == Trying(loop, account.id)
    ensures var r := Sent(env, s, i, account, pick, t);
            && |r.log.calls| > |s.log.calls|
            && (r.outcome == Some(JitterPanic) <==>
                env.config.queueWaitJitter <= 0 && OpenedGate(env, s.(loop := loop), r))
  {
    hide Applied, Asked, AskedFile, Crossed, Judged, QueueGate, Q.QueueWaitSeconds, ErrorText, KeepsHealth, SameIds;
    TransportKeepsHealth(env, s.vals, i, pick.transport.Name());
    var noted := if pick.noted then Applied(env, s.vals, i, P.OpSetTransport(pick.transport.Name()), 0) else s.vals;
    assert noted[i].account == account;
    LastAnswer(env, noted, s.rr, i, account, t, pick.transport);
    var c := Crossed(env, Asked(env, noted, s.rr, i, account, t), i, t, pick.transport);
    var s1 := Heard(env, s, c, noted, i, t);
    JudgedPanics(env, s1, i, c.account, c.last, t);
    JudgedKeepsCalls(env, s1, i, c.account, c.last, t);
    assert s1.log.calls == s.log.calls + c.made;
    GateIgnoresExclusion(env.config, loop, account.id, Q.QueueWaitSeconds(ErrorText(c.last)));
  }

  lemma TriedPanics(env: Env, s: State, i: nat, t: Turn)
    requires s.outcome.None? && i < |s.vals|
    ensures var r := Tried(env, s, i, t);
            r.outcome == Some(JitterPanic) <==> env.config.queueWaitJitter <= 0 && OpenedGate(env, s, r)
  {
    TriedCases(env, s, i, t);
    hide Sent, Applied, Ensured, Merge, FileAfter, QueueGate, Q.QueueWaitSeconds, ErrorText, C.FirstModel;
    var ready := Ready(env, s, i, t);
    if t.pick.Some? {
      SentPanics(env, s.loop, ready, i, ready.vals[i].account, t.pick.value, t);
    }
  }

  lemma PassPanics(env: Env, s: State, t: Turn)
    requires s.outcome.None?
    ensures var r := Iterate(env, s, t);
            r.outcome == Some(JitterPanic) <==> env.config.queueWaitJitter <= 0 && OpenedGate(env, s, r)
  {
    hide Tried, Seen, P.Selection, QueueGate, Q.QueueWaitSeconds, ErrorText;
    var rr := Ticked(s.rr, t.before);
    P.SelectionSound(Seen(s.vals, t), env.session, s.loop.excluded, env.hash, rr);
    var sel := Selected(env, s, t);
    if s.loop.attempts < env.maxAccounts && sel.Picked? {
      TriedPanics(env, Chosen(env, s, t), sel.i, t);
    }
  }

  // The last answer so far, if any, is none that would be waited for.
  predicate Closed(config: Config, calls: seq<Call>) {
    calls != [] ==> !Opens(config, calls[|calls| - 1].reply)
  }

  lemma NoRoundsWithoutJitter(env: Env, s: State)
    requires Head(env, s) && env.config.queueWaitJitter <= 0
    ensures s.loop.queueRounds == 0 && s.loop.queueWaited == 0
  {
    HeadRuns(env, s);
    HeadWaitBounded(env, s.log.ends);
    hide Head, Lawful, Folded, Ids;
  }

  lemma {:induction false} PanicAlong(env: Env, s: State, n: nat, turns: nat -> Turn)
    requires Head(env, s) && env.config.queueWaitJitter <= 0 && Closed(env.config, s.log.calls)
    ensures var r := Run(env, s, n, turns);
            r.outcome == Some(JitterPanic) <==> !Closed(env.config, r.log.calls)
    decreases Left(env, s.loop)
  {
    hide Iterate, Head, QueueGate, Attempt, Stopped, Q.QueueWaitSeconds, ErrorText, Lawful, Folded, Ids, Waits;
    HeadRuns(env, s);
    NoRoundsWithoutJitter(env, s);
    PassPanics(env, s, turns(n));
    var r := Iterate(env, s, turns(n));
    var i, made := IterateShape(env, s, turns(n));
    GateAtStart(env.config, s.loop, r.log.calls);
    CallsGrow(env, s, r, if i < |s.vals| then s.vals[i].account.id else "", made);
    if r.outcome.None? {
      PassKeepsHead(env, s, turns(n));
      PassUsesUp(env, s, turns(n));
      PanicAlong(env, r, n + 1, turns);
    }
  }

  lemma GateAtStart(config: Config, loop: Loop, calls: seq<Call>)
    requires loop.queueRounds == 0 && loop.queueWaited == 0
    ensures forall w :: QueueGate(config, loop, w) == QueueGate(config, START, w)
  {
  }

  lemma CallsGrow(env: Env, s: State, r: State, id: string, made: seq<Call>)
    requires Stopped(s, r) || Attempt(env, s, r, id, made)
    ensures |r.log.calls| == |s.log.calls| ==> r.log.calls == s.log.calls
    ensures |r.log.calls| >= |s.log.calls|
  {
    hide CallsOf, WentOn, Halted;
  }

  /** The jitter, exactly: a run panics over it if and only if it is not positive and the last
      answer of the run is one that would be waited for. With such a jitter no round is ever
      completed, so the gate is that of the first round. */
  lemma JitterPanicIff(env: Env, vals: seq<P.EntryVal>, rr: Counter, file: seq<Account>, turns: nat -> Turn)
    ensures var r := Chat(env, vals, rr, file, turns);
            && (r.outcome == Some(JitterPanic) <==>
                env.config.queueWaitJitter <= 0 && r.log.calls != [] && Opens(env.config, LastReply(r)))
            && (env.config.queueWaitJitter <= 0 ==> Waits(r.log.ends) == 0)
  {
    hide Run, Iterate, Opens, Head;
    JitterPanics(env, vals, rr, file, turns);
    if env.config.queueWaitJitter <= 0 {
      InitialHead(env, vals, rr, file);
      PanicAlong(env, Initial(vals, rr, file), 0, turns);
    }
  }

  // ---------------------------------------------------------------- a run that panics

  // One healthy account whose token is fresh, one model, Bearer already picked, and an upstream
  // that refuses with the queue type in its message. Nobody else uses the pool.
  const OTHERS_IDLE := Others([], 0, None)

  function QueuedTurn(): Turn {
    var idle := Renewal(0, P.RefreshError, NotWritten);
    var queued := HttpError(403, "queueType", 0);
    Turn(OTHERS_IDLE, _ => 0, OTHERS_IDLE, idle, [C.LITE], false, true, Some(Pick(T.Bearer, false)), queued,
         OTHERS_IDLE, idle, queued, queued, 0, false, 0)
  }

  function Impatient(hash: string -> nat): Env {
    Env(Config("auto", 1, 60 * Q.SECOND, 60 * Q.SECOND, 0, 0, 0), 1, true, false, 0, "", "lite", hash)
  }

  function QueuedFront(): string {
    "Qoder upstream HTTP " + "403" + ": "
  }

  lemma QueuedText()
    ensures ErrorText(HttpError(403, "queueType", 0)) == QueuedFront() + "queueType"
    ensures 'A' !in QueuedFront() + "queueType"
  {
    assert Decimal(4) == "4" && Decimal(40) == "40" && Decimal(403) == "403";
  }

  lemma PartOf(p: string, s: string, c: char)
    requires c in p && p <= s
    ensures c in s
  {
    var i :| 0 <= i < |p| && p[i] == c;
    assert s[i] == c;
  }

  // Without an 'A' there is no "retryAfterSeconds".
  lemma NoDelayHere(s: string)
    requires 'A' !in s
    ensures Q.DelayHere(s, Q.PATTERN) == ""
  {
    var word := "retryAfterSeconds";
    assert word[5] == 'A';
    if word <= s {
      PartOf(word, s, 'A');
    }
  }

  lemma {:induction false} NoDelay(s: string)
    requires 'A' !in s
    ensures Q.Delay(s, Q.PATTERN) == ""
  {
    hide Q.DelayHere;
    if s != "" {
      NoDelayHere(s);
      NoDelay(s[1..]);
    }
  }

  lemma QueuedWait()
    ensures Q.QueueWaitSeconds(ErrorText(HttpError(403, "queueType", 0))) == Q.DEFAULT_WAIT
  {
    QueuedText();
    Q.QueueTypeMarks();
    hide Q.Marked, Q.Delay, ErrorText, QueuedFront;
    Q.MarkedSuffix(QueuedFront(), "queueType", Q.PATTERN);
    NoDelay(QueuedFront() + "queueType");
  }

  lemma QueuedOpens(hash: string -> nat)
    ensures Opens(Impatient(hash).config, HttpError(403, "queueType", 0))
  {
    QueuedWait();
    hide ErrorText, Q.QueueWaitSeconds;
  }

  // The only account is selected and asked once.
  lemma OnlyAccountIsAsked(hash: string -> nat, a: Account)
    requires a.expiresAtMs > P.REFRESH_BEFORE_MS
    ensures var r := Iterate(Impatient(hash), Initial([P.NewEntry(a)], 0, []), QueuedTurn());
            r.log.calls == [Call(a.id, a.accessToken, HttpError(403, "queueType", 0))]
  {
    var env, s, t := Impatient(hash), Initial([P.NewEntry(a)], 0, []), QueuedTurn();
    var v := P.NewEntry(a);
    assert Merge([v], []) == [v];
    assert P.ExpireAll([v], t.clock) == [v];
    assert Seen(s.vals, t) == [v];
    assert [v][..0] == [] && P.Candidates([v], {}) == [0];
    assert Selected(env, s, t) == P.Picked(0);
    OnlyAccountIsSent(env, Chosen(env, s, t), a, t);
  }

  lemma OnlyAccountIsSent(env: Env, s: State, a: Account, t: Turn)
    requires s.outcome.None? && s.vals == [P.NewEntry(a)] && s.log == Log([], [], [])
    requires t == QueuedTurn() && env.model == "lite" && a.expiresAtMs > P.REFRESH_BEFORE_MS
    ensures Tried(env, s, 0, t).log.calls == [Call(a.id, a.accessToken, HttpError(403, "queueType", 0))]
  {
    var v := P.NewEntry(a);
    assert Merge([v], []) == [v];
    assert [v][0 := v] == [v];
    var ready := Ready(env, s, 0, t);
    assert ready.vals == [v] && Ensured(env, [v], 0, false, t.renewal) == ([v], true);
    assert C.FirstModel([C.LITE], "lite") == Some(C.LITE);
    assert Tried(env, s, 0, t) == Sent(env, ready, 0, a, Pick(T.Bearer, false), t);
    hide Tried, Ready, Ensured;
    var c := Asked(env, [v], ready.rr, 0, a, t);
    assert c.made == [Call(a.id, a.accessToken, HttpError(403, "queueType", 0))];
    assert Crossed(env, c, 0, t, T.Bearer) == c;
    JudgedKeepsCalls(env, Heard(env, ready, c, [v], 0, t), 0, c.account, c.last, t);
    assert [] + c.made == c.made;
    hide Judged, Asked;
  }

  /** A run that panics: with a jitter of zero, a refusal that shows the queue type ends it. */
  lemma JitterPanicHappens(hash: string -> nat, a: Account)
    requires a.expiresAtMs > P.REFRESH_BEFORE_MS
    ensures Chat(Impatient(hash), [P.NewEntry(a)], 0, [], _ => QueuedTurn()).outcome == Some(JitterPanic)
  {
    OnlyAccountIsAsked(hash, a);
    QueuedOpens(hash);
    var env, s, t := Impatient(hash), Initial([P.NewEntry(a)], 0, []), QueuedTurn();
    hide Iterate, QueueGate, Q.QueueWaitSeconds, ErrorText;
    PassPanics(env, s, t);
  }
}
