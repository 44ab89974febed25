// Whole runs of the failover loop: how much they do, how long they wait and how they end
// (internal/server/server.go, chat).

module FailoverBounds {
  import opened Wrappers
  import opened Credential
  import opened Failover
  import P = Pool

  // ---------------------------------------------------------------- how much a run does

  function CountOf(s: seq<string>, id: string): nat {
    if s == [] then 0 else CountOf(s[..|s| - 1], id) + if s[|s| - 1] == id then 1 else 0
  }

  // Passes that ended in a queue wait, for one account and in all, and the time slept.
  function WaitsOf(ends: seq<End>, id: string): nat {
    if ends == [] then 0
    else
      var e := ends[|ends| - 1];
      WaitsOf(ends[..|ends| - 1], id) + if e.verdict.Waited? && e.id == id then 1 else 0
  }

  function Waits(ends: seq<End>): nat {
    if ends == [] then 0 else Waits(ends[..|ends| - 1]) + if ends[|ends| - 1].verdict.Waited? then 1 else 0
  }

  function Slept(ends: seq<End>): int {
    if ends == [] then 0
    else Slept(ends[..|ends| - 1]) + if ends[|ends| - 1].verdict.Waited? then ends[|ends| - 1].verdict.sleep else 0
  }

  function ServerErrors(ends: seq<End>): nat {
    if ends == [] then 0 else ServerErrors(ends[..|ends| - 1]) + if ends[|ends| - 1].verdict.ServerError? then 1 else 0
  }

  predicate HasQuota(ends: seq<End>) {
    exists k :: 0 <= k < |ends| && ends[k].verdict == Quota
  }

  // What the counters are after that many passes, waits and server errors.
  predicate Counts(env: Env, l: Loop, passes: nat, waits: nat, errors: nat) {
    && l.attempts == |l.excluded| <= env.maxAccounts
    && passes == l.attempts + l.queueRounds && l.queueRounds == waits <= Positive(env.config.queueMaxRounds)
    && l.retries5xx == errors <= Positive(env.config.max5xxRetries)
  }

  lemma NextCounts(env: Env, l: Loop, e: End, passes: nat, waits: nat, errors: nat)
    requires Counts(env, l, passes, waits, errors)
    requires l.attempts < env.maxAccounts && e.id !in l.excluded && Allowed(env.config, l, e.verdict)
    ensures Counts(env, Next(l, e), passes + 1, waits + (if e.verdict.Waited? then 1 else 0),
                   errors + (if e.verdict.ServerError? then 1 else 0))
  {
  }

  /** At every loop head the attempt counter is the number of excluded accounts, and the two
      counters add up to the passes so far. */
  lemma {:induction false} CountersAddUp(env: Env, ends: seq<End>)
    requires Lawful(env, ends)
    ensures Counts(env, Folded(ends), |ends|, Waits(ends), ServerErrors(ends))
  {
    if ends != [] {
      var earlier, e := ends[..|ends| - 1], ends[|ends| - 1];
      CountersAddUp(env, earlier);
      NextCounts(env, Folded(earlier), e, |earlier|, Waits(earlier), ServerErrors(earlier));
      hide Counts, Allowed, Next;
    }
  }

  // The bounds on the time waited; the first holds only once a round has been taken.
  predicate WaitBounds(config: Config, loop: Loop) {
    && loop.queueRounds >= 0
    && (loop.queueRounds == 0 ==> loop.queueWaited == 0)
    && (loop.queueRounds > 0 ==> config.queueWaitJitter > 0 &&
                                 loop.queueWaited <= config.queueWaitBudget + config.queueWaitJitter)
    && 2 * loop.queueRounds <= loop.queueWaited
    && loop.queueWaited <= loop.queueRounds * (config.queueWaitMax + config.queueWaitJitter)
  }

  lemma NextWaitBounded(config: Config, loop: Loop, e: End)
    requires WaitBounds(config, loop) && Allowed(config, loop, e.verdict)
    ensures WaitBounds(config, Next(loop, e))
  {
    if e.verdict.Waited? {
      var n := loop.queueRounds;
      assert (n + 1) * (config.queueWaitMax + config.queueWaitJitter) ==
             n * (config.queueWaitMax + config.queueWaitJitter) + (config.queueWaitMax + config.queueWaitJitter);
    }
  }

  lemma {:induction false} HeadWaitBounded(env: Env, ends: seq<End>)
    requires Lawful(env, ends)
    ensures WaitBounds(env.config, Folded(ends)) && Folded(ends).queueWaited == Slept(ends)
  {
    hide WaitBounds, Allowed;
    if ends == [] {
      StartWaitBounded(env.config);
    } else {
      HeadWaitBounded(env, ends[..|ends| - 1]);
      NextWaitBounded(env.config, Folded(ends[..|ends| - 1]), ends[|ends| - 1]);
    }
  }

  lemma StartWaitBounded(config: Config)
    ensures WaitBounds(config, START)
  {
  }

  lemma NextExcludes(l: Loop, e: End, id: string)
    requires e.id !in l.excluded
    ensures id in Next(l, e).excluded <==> id in l.excluded || (id == e.id && !e.verdict.Waited?)
  {
  }

  lemma {:induction false} PicksAddUp(env: Env, ends: seq<End>, id: string)
    requires Lawful(env, ends)
    ensures CountOf(Ids(ends), id) == WaitsOf(ends, id) + if id in Folded(ends).excluded then 1 else 0
  {
    hide Next, Allowed;
    if ends != [] {
      var earlier, e := ends[..|ends| - 1], ends[|ends| - 1];
      PicksAddUp(env, earlier, id);
      NextExcludes(Folded(earlier), e, id);
      assert Ids(ends)[..|ends| - 1] == Ids(earlier);
    }
  }

  lemma {:induction false} QuotaRemembered(env: Env, ends: seq<End>)
    ensures Folded(ends).lastQuota == if HasQuota(ends) then Some(403) else None
  {
    if ends != [] {
      var earlier := ends[..|ends| - 1];
      QuotaRemembered(env, earlier);
      if ends[|ends| - 1].verdict == Quota {
        assert HasQuota(ends);
      } else {
        assert HasQuota(ends) <==> HasQuota(earlier) by {
          if k :| 0 <= k < |ends| && ends[k].verdict == Quota {
            assert earlier[k].verdict == Quota;
          }
          if k :| 0 <= k < |earlier| && earlier[k].verdict == Quota {
            assert ends[k].verdict == Quota;
          }
        }
      }
    }
  }

  // ---------------------------------------------------------------- the theorems

  lemma InitialHead(env: Env, vals: seq<P.EntryVal>, rr: Counter, file: seq<Account>)
    ensures Head(env, Initial(vals, rr, file))
  {
  }

  // How a request ends: the last loop head, and the account and the calls of the last pass.
  lemma {:induction false} HowItEnds(env: Env, vals: seq<P.EntryVal>, rr: Counter, file: seq<Account>,
      turns: nat -> Turn) returns (h: State, id: string, made: seq<Call>)
    ensures Head(env, h) && Chat(env, vals, rr, file, turns).outcome.Some?
    ensures Stopped(h, Chat(env, vals, rr, file, turns)) || Attempt(env, h, Chat(env, vals, rr, file, turns), id, made)
  {
    hide Head, Attempt, Iterate, Stopped;
    InitialHead(env, vals, rr, file);
    var m;
    h, m := LastPass(env, vals, Initial(vals, rr, file), 0, turns);
    assert h.outcome.None? by {
      HeadRuns(env, h);
    }
    var i;
    i, made := IterateShape(env, h, turns(m));
    id := if i < |h.vals| then h.vals[i].account.id else "";
  }

  // The state after k passes, or the final one if the run has ended by then.
  function StateAt(env: Env, s: State, turns: nat -> Turn, k: nat): State {
    if k == 0 then s
    else
      var p := StateAt(env, s, turns, k - 1);
      if p.outcome.Some? then p else Iterate(env, p, turns(k - 1))
  }

  lemma {:induction false} HeadsAreReached(env: Env, s: State, turns: nat -> Turn, k: nat)
    requires Head(env, s)
    ensures StateAt(env, s, turns, k).outcome.None? ==> Head(env, StateAt(env, s, turns, k))
  {
    hide Iterate, Head;
    if k > 0 {
      HeadsAreReached(env, s, turns, k - 1);
      var p := StateAt(env, s, turns, k - 1);
      if p.outcome.None? && Iterate(env, p, turns(k - 1)).outcome.None? {
        PassKeepsHead(env, p, turns(k - 1));
      }
    }
  }

  /** At every loop head of every run the attempt counter is the number of excluded accounts, the
      two counters add up to the accounts tried so far, and all of them keep to their limits. */
  lemma CountersAtEveryHead(env: Env, vals: seq<P.EntryVal>, rr: Counter, file: seq<Account>, turns: nat -> Turn,
      k: nat)
    ensures var s := StateAt(env, Initial(vals, rr, file), turns, k);
            s.outcome.None? ==>
              Counts(env, s.loop, |s.log.picks|, Waits(s.log.ends), ServerErrors(s.log.ends))
  {
    hide Iterate, Head, StateAt, Counts, Lawful, Folded, Ids, Waits, ServerErrors;
    InitialHead(env, vals, rr, file);
    HeadsAreReached(env, Initial(vals, rr, file), turns, k);
    var s := StateAt(env, Initial(vals, rr, file), turns, k);
    if s.outcome.None? {
      HeadRuns(env, s);
      CountersAddUp(env, s.log.ends);
    }
  }

  /** The loop heads are those of the run: it ends in the state that some number of passes leads to. */
  lemma {:induction false} RunIsReached(env: Env, s0: State, s: State, n: nat, turns: nat -> Turn) returns (k: nat)
    requires s.outcome.None? && s == StateAt(env, s0, turns, n)
    ensures StateAt(env, s0, turns, k) == Run(env, s, n, turns)
    decreases Left(env, s.loop)
  {
    var r := Iterate(env, s, turns(n));
    k := n + 1;
    assert StateAt(env, s0, turns, n + 1) == r;
    hide Iterate, StateAt;
    if r.outcome.None? {
      PassUsesUp(env, s, turns(n));
      k := RunIsReached(env, s0, r, n + 1, turns);
    }
  }

  lemma HeadRuns(env: Env, h: State)
    requires Head(env, h)
    ensures h.outcome.None? && Lawful(env, h.log.ends) && h.loop == Folded(h.log.ends)
    ensures h.log.picks == Ids(h.log.ends) && |h.log.picks| == |h.log.ends|
  {
  }

  /** The work of a run is bounded: it tries at most one account per pool entry and queue round,
      makes at most three Chat calls per try, and survives at most Max5xxRetries server errors. */
  lemma RunIsBounded(env: Env, vals: seq<P.EntryVal>, rr: Counter, file: seq<Account>, turns: nat -> Turn)
    ensures var r := Chat(env, vals, rr, file, turns);
            && |r.log.picks| <= env.maxAccounts + Positive(env.config.queueMaxRounds)
            && |r.log.calls| <= 3 * |r.log.picks|
            && ServerErrors(r.log.ends) <= Positive(env.config.max5xxRetries)
  {
    hide Run, Iterate, Lawful, Folded, Allowed, WaitAllowed, Next, EndsInStream, GaveUp, Waits, ServerErrors, Ids;
    var h, id, made := HowItEnds(env, vals, rr, file, turns);
    CountersAddUp(env, h.log.ends);
  }

  /** No account is tried more than once, except again after each of its own queue rounds. */
  lemma EachAccountOnce(env: Env, vals: seq<P.EntryVal>, rr: Counter, file: seq<Account>, turns: nat -> Turn,
      id: string)
    ensures var r := Chat(env, vals, rr, file, turns);
            CountOf(r.log.picks, id) <= 1 + WaitsOf(r.log.ends, id)
  {
    hide Run, Iterate, Lawful, Folded, Allowed, WaitAllowed, Next, EndsInStream, GaveUp, CallsOf, Ids, WaitsOf;
    var h, tried, made := HowItEnds(env, vals, rr, file, turns);
    PicksAddUp(env, h.log.ends, id);
    var r := Chat(env, vals, rr, file, turns);
    if r.log.picks != h.log.picks {
      assert r.log.picks[..|r.log.picks| - 1] == h.log.picks;
    }
  }

  /** Waiting in the queue is bounded on every run, also on one that is aborted while it waits:
      by the budget plus one jitter, and by the longest wait with jitter for each round. */
  lemma WaitingIsBounded(env: Env, vals: seq<P.EntryVal>, rr: Counter, file: seq<Account>, turns: nat -> Turn)
    ensures var r := Chat(env, vals, rr, file, turns);
            && (r.outcome != Some(JitterPanic) ==> WaitBounds(env.config, r.loop))
            && (r.loop.queueWaited > 0 ==>
                  r.loop.queueWaited <= env.config.queueWaitBudget + env.config.queueWaitJitter)
  {
    hide Run, Iterate, Lawful, Folded, CallsOf, EndsInStream, GaveUp, Ids;
    var h, id, made := HowItEnds(env, vals, rr, file, turns);
    HeadRuns(env, h);
    HeadWaitBounded(env, h.log.ends);
    var r := Chat(env, vals, rr, file, turns);
    if r.outcome == Some(Response(504, QueueTimeout)) {
      AbortedWaitBounded(env, h, r, id, made);
    }
  }

  lemma AbortedWaitBounded(env: Env, h: State, r: State, id: string, made: seq<Call>)
    requires WaitBounds(env.config, h.loop) && r.outcome == Some(Response(504, QueueTimeout))
    requires Stopped(h, r) || Attempt(env, h, r, id, made)
    ensures WaitBounds(env.config, r.loop)
  {
    hide CallsOf, EndsInStream, WaitBounds, WaitAllowed, Next;
    NextWaitBounded(env.config, h.loop, End(id, Waited(r.loop.queueWaited - h.loop.queueWaited)));
  }

  lemma OneStreamAtMost(calls: seq<Call>, made: seq<Call>, id: string)
    requires CallsOf(made, id) && NoStream(calls)
    ensures EndsInStream(calls + made) <==> EndsInStream(made)
    ensures forall k :: 0 <= k < |calls + made| - 1 ==> (calls + made)[k].reply != Stream
  {
  }

  /** A stream is the end: the run relays exactly when its last Chat call opened a stream, and
      no earlier call did. */
  lemma StreamEndsTheRun(env: Env, vals: seq<P.EntryVal>, rr: Counter, file: seq<Account>, turns: nat -> Turn)
    ensures var r := Chat(env, vals, rr, file, turns);
            && (r.outcome == Some(Relayed) <==> EndsInStream(r.log.calls))
            && forall k :: 0 <= k < |r.log.calls| - 1 ==> r.log.calls[k].reply != Stream
  {
    hide Run, Iterate, Lawful, Folded, Allowed, WaitAllowed, Next, CallsOf, Ids;
    var h, id, made := HowItEnds(env, vals, rr, file, turns);
    if Stopped(h, Chat(env, vals, rr, file, turns)) {
      assert !EndsInStream(h.log.calls);
    } else {
      OneStreamAtMost(h.log.calls, made, id);
      hide EndsInStream;
    }
  }

  /** A run that gives up, because no account can be selected or all have failed, answers 403
      exactly when some attempt ended in a model quota, and otherwise 503. Every error response
      has a client or server error status. */
  lemma FinalAnswer(env: Env, vals: seq<P.EntryVal>, rr: Counter, file: seq<Account>, turns: nat -> Turn)
    ensures var r := Chat(env, vals, rr, file, turns);
            && (r.outcome.value.Response? ==> 400 <= r.outcome.value.status <= 599)
            && (GaveUp(r.outcome.value) ==> r.outcome.value.status == if HasQuota(r.log.ends) then 403 else 503)
            && (r.outcome.value.Response? && r.outcome.value.kind == QuotaExceeded ==> HasQuota(r.log.ends))
  {
    hide Run, Iterate, Lawful, Folded, Allowed, WaitAllowed, Next, CallsOf, EndsInStream, Ids, HasQuota;
    var h, id, made := HowItEnds(env, vals, rr, file, turns);
    QuotaRemembered(env, h.log.ends);
  }

  /** With a positive jitter no run panics over it; with any other no run completes a round. */
  lemma JitterPanics(env: Env, vals: seq<P.EntryVal>, rr: Counter, file: seq<Account>, turns: nat -> Turn)
    ensures var r := Chat(env, vals, rr, file, turns);
            if env.config.queueWaitJitter > 0 then r.outcome != Some(JitterPanic) else Waits(r.log.ends) == 0
  {
    hide Run, Iterate, Lawful, Folded, Allowed, WaitAllowed, Next, CallsOf, EndsInStream, Ids, Waits;
    var h, id, made := HowItEnds(env, vals, rr, file, turns);
    CountersAddUp(env, h.log.ends);
    HeadWaitBounded(env, h.log.ends);
  }

  lemma IdSetSize(vals: seq<P.EntryVal>)
    ensures |IdSet(vals)| <= |vals|
  {
    if vals != [] {
      var earlier := vals[..|vals| - 1];
      IdSetSize(earlier);
      assert IdSet(vals) == IdSet(earlier) + {vals[|vals| - 1].account.id};
    }
  }

  lemma AllExcluded(vals: seq<P.EntryVal>, excluded: set<string>)
    requires excluded <= IdSet(vals) && |excluded| >= |vals|
    ensures excluded == IdSet(vals)
  {
    IdSetSize(vals);
    SubsetSize(excluded, IdSet(vals));
  }

  lemma SubsetSize(a: set<string>, b: set<string>)
    requires a <= b && |a| >= |b|
    ensures a == b
  {
    assert b == a + (b - a);
    assert |b| == |a| + |b - a|;
  }

  lemma ExhaustedExcludesAll(env: Env, vals: seq<P.EntryVal>, h: State)
    requires Head(env, h) && Home(vals, h) && env.maxAccounts == |vals| && h.loop.attempts >= env.maxAccounts
    ensures forall i :: 0 <= i < |h.vals| ==> h.vals[i].account.id in h.loop.excluded
  {
    HeadRuns(env, h);
    hide Lawful, Folded, Ids, Head;
    CountersAddUp(env, h.log.ends);
    AllExcluded(vals, h.loop.excluded);
    forall i | 0 <= i < |h.vals| ensures h.vals[i].account.id in h.loop.excluded {
      assert vals[i].account.id in IdSet(vals);
    }
  }

  // A pass that gives up has left out no healthy account.
  lemma GivingUpExcludesAll(env: Env, vals: seq<P.EntryVal>, h: State, t: Turn)
    requires Head(env, h) && Home(vals, h) && env.maxAccounts == |vals|
    requires h.outcome.None? && Stopped(h, Iterate(env, h, t)) && GaveUp(Iterate(env, h, t).outcome.value)
    ensures var r := Iterate(env, h, t);
            forall i :: 0 <= i < |r.vals| && r.vals[i].state == P.Healthy ==> r.vals[i].account.id in h.loop.excluded
  {
    hide Head, Home, Tried, Seen, P.Selection, Attempt;
    if h.loop.attempts >= env.maxAccounts {
      ExhaustedExcludesAll(env, vals, h);
    } else {
      var rr := Ticked(h.rr, t.before);
      P.SelectionSound(Seen(h.vals, t), env.session, h.loop.excluded, env.hash, rr);
      var sel := Selected(env, h, t);
      if sel.Picked? {
        var s1 := Chosen(env, h, t);
        var made := TriedShape(env, h, s1, sel.i, t);
        AttemptIsNoStop(env, h, Tried(env, s1, sel.i, t), s1.vals[sel.i].account.id, made);
      }
    }
  }

  lemma AttemptIsNoStop(env: Env, s: State, r: State, id: string, made: seq<Call>)
    requires Attempt(env, s, r, id, made)
    ensures !Stopped(s, r)
  {
    hide WentOn, Halted, CallsOf;
    assert |r.log.picks| != |s.log.picks|;
  }

  /** A run gives up only when every account that is healthy in the end has been tried. */
  lemma NoHealthyAccountLeftOut(env: Env, vals: seq<P.EntryVal>, rr: Counter, file: seq<Account>, turns: nat -> Turn,
      i: nat)
    requires env.maxAccounts == |vals| && GaveUp(Chat(env, vals, rr, file, turns).outcome.value)
    requires i < |Chat(env, vals, rr, file, turns).vals| && Chat(env, vals, rr, file, turns).vals[i].state == P.Healthy
    ensures Chat(env, vals, rr, file, turns).vals[i].account.id in Chat(env, vals, rr, file, turns).log.picks
  {
    hide Head, Attempt, Iterate, Stopped, GaveUp;
    InitialHead(env, vals, rr, file);
    var h, m := LastPass(env, vals, Initial(vals, rr, file), 0, turns);
    HeadRuns(env, h);
    var r := Chat(env, vals, rr, file, turns);
    var k, made := IterateShape(env, h, turns(m));
    GaveUpStopped(env, h, r, if k < |h.vals| then h.vals[k].account.id else "", made);
    GivingUpExcludesAll(env, vals, h, turns(m));
    var id := r.vals[i].account.id;
    PicksAddUp(env, h.log.ends, id);
    CountedIsIn(h.log.picks, id);
    StoppedKeeps(h, r);
  }

  lemma GaveUpStopped(env: Env, h: State, r: State, id: string, made: seq<Call>)
    requires r.outcome.Some? && GaveUp(r.outcome.value) && (Stopped(h, r) || Attempt(env, h, r, id, made))
    ensures Stopped(h, r)
  {
    hide CallsOf, EndsInStream;
  }

  lemma StoppedKeeps(h: State, r: State)
    requires Stopped(h, r)
    ensures r.log == h.log
  {
  }

  lemma {:induction false} CountedIsIn(s: seq<string>, id: string)
    ensures CountOf(s, id) > 0 <==> id in s
  {
    if s != [] {
      CountedIsIn(s[..|s| - 1], id);
      assert s == s[..|s| - 1] + [s[|s| - 1]];
    }
  }
}
