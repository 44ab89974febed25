// What decides how a pass of the failover loop ends: how far it gets, and what its last answer
// leads to (internal/server/server.go:333-457).

module FailoverDecisions {
  import opened Wrappers
  import opened Credential
  import opened Failover
  import opened FailoverBlame
  import opened FailoverCalls
  import P = Pool
  import T = TransportCache
  import C = Catalog
  import Q = QueueSignal
  import QueueShape

  // ---------------------------------------------------------------- the last answer

  // The wait that the message of an answer asks for.
  function AskedWait(r: Reply): int {
    match r
    case Stream => 0
    case OtherError(m) => Q.QueueWaitSeconds(m)
    case HttpError(_, m, _) => Q.QueueWaitSeconds(m)
  }

  lemma {:induction false} DecimalDigits(n: nat)
    ensures forall i :: 0 <= i < |Decimal(n)| ==> IsDigit(Decimal(n)[i])
  {
    if n >= 10 {
      DecimalDigits(n / 10);
    }
  }

  // The error text asks for the wait that the message asks for.
  lemma ErrorTextAsks(r: Reply)
    requires !r.Stream?
    ensures Q.QueueWaitSeconds(ErrorText(r)) == AskedWait(r)
  {
    hide Q.QueueWaitSeconds, Decimal;
    if r.HttpError? {
      DecimalDigits(if r.status < 0 then -r.status else r.status);
      QueueShape.StatusHidesNothing(
        if r.status < 0 then "-" + Decimal(-r.status) else Decimal(r.status), r.message);
    }
  }

  // The answer asks for a wait that the loop variables at the head of the pass still allow.
  predicate Waitable(config: Config, head: Loop, last: Reply) {
    var wait := AskedWait(last);
    && !last.Stream? && wait > 0
    && head.queueRounds < config.queueMaxRounds && config.queueMaxRounds > 0
    && wait <= config.queueWaitMax && head.queueWaited + wait <= config.queueWaitBudget
  }

  // The answer counts against the account, or against the retries that are left.
  predicate Survivable(config: Config, head: Loop, last: Reply) {
    last.HttpError? &&
    (last.status in {401, 403, 429} || (last.status >= 500 && head.retries5xx < config.max5xxRetries))
  }

  // How the pass ends, given the loop variables at its head and its last answer.
  predicate Decided(env: Env, head: Loop, last: Reply, t: Turn, r: State) {
    var config := env.config;
    if last.Stream? then r.outcome == Some(Relayed)
    else if Waitable(config, head, last) then
      && r.loop.queueRounds == head.queueRounds + 1
      && if config.queueWaitJitter <= 0 then r.outcome == Some(JitterPanic)
         else
           && r.loop.queueWaited ==
              head.queueWaited + AskedWait(last) + t.draw % config.queueWaitJitter + 1
           && r.outcome == if t.aborted then Some(Response(504, QueueTimeout)) else None
    else
      && (r.outcome.None? <==> Survivable(config, head, last))
      && r.loop.queueRounds == head.queueRounds && r.loop.queueWaited == head.queueWaited
      && (r.outcome.Some? ==>
            r.outcome.value == if last.OtherError? then Response(502, UpstreamNetworkError)
                               else Response(if 400 <= last.status <= 599 then last.status else 502, UpstreamError))
  }

  lemma JudgedDecides(env: Env, head: Loop, s: State, i: nat, account: Account, last: Reply, t: Turn)
    requires s.outcome.None? && i < |s.vals| && s.loop == Trying(head, account.id)
    ensures Decided(env, head, last, t, Judged(env, s, i, account, last, t))
  {
    hide Q.QueueWaitSeconds, Q.IsQuotaError, ErrorText, Applied, AskedWait;
    if !last.Stream? {
      ErrorTextAsks(last);
    }
  }

  // The pass made calls, and the last of them decided how it ended.
  predicate EndsAsAnswered(env: Env, head: Loop, s: State, t: Turn, r: State) {
    |r.log.calls| > |s.log.calls| && Decided(env, head, LastReply(r), t, r)
  }

  lemma SentDecides(env: Env, head: Loop, s: State, i: nat, account: Account, pick: Pick, t: Turn)
    requires s.outcome.None? && i < |s.vals| && s.vals[i].account == account && s.loop == Trying(head, account.id)
    ensures EndsAsAnswered(env, head, s, t, Sent(env, s, i, account, pick, t))
  {
    hide Applied, Asked, AskedFile, Crossed, Judged, Decided, KeepsHealth, SameIds;
    TransportKeepsHealth(env, s.vals, i, pick.transport.Name());
    var noted := if pick.noted then Applied(env, s.vals, i, P.OpSetTransport(pick.transport.Name()), 0) else s.vals;
    LastAnswer(env, noted, s.rr, i, account, t, pick.transport);
    var c := Crossed(env, Asked(env, noted, s.rr, i, account, t), i, t, pick.transport);
    var s1 := Heard(env, s, c, noted, i, t);
    JudgedDecides(env, head, s1, i, c.account, c.last, t);
    JudgedKeepsCalls(env, s1, i, c.account, c.last, t);
  }

  lemma TriedDecides(env: Env, s: State, i: nat, t: Turn)
    requires s.outcome.None? && i < |s.vals|
    ensures var r := Tried(env, s, i, t); r.log.calls == s.log.calls || EndsAsAnswered(env, s.loop, s, t, r)
  {
    TriedCases(env, s, i, t);
    ReadyIsTrying(env, s, i, t);
    hide Tried, Ready, Sent, Applied, Decided, Trying;
    var ready := Ready(env, s, i, t);
    if t.pick.Some? {
      SentDecides(env, s.loop, ready, i, ready.vals[i].account, t.pick.value, t);
    }
  }

  /** The last answer decides. A pass that made calls relays a stream; waits for the queue if the
      answer asks for a wait within the limits, unless the jitter panics or the request is aborted;
      otherwise goes on if and only if the answer is a 401, 403 or 429, or a server error with a
      retry left, and else ends the run with that status, or 502 for one outside 400..599 and for an
      error without a status. */
  lemma AnswerDecides(env: Env, s: State, t: Turn)
    requires s.outcome.None? && |Iterate(env, s, t).log.calls| > |s.log.calls|
    ensures Decided(env, s.loop, LastReply(Iterate(env, s, t)), t, Iterate(env, s, t))
  {
    hide Tried, Seen, P.Selection, Decided;
    var rr := Ticked(s.rr, t.before);
    P.SelectionSound(Seen(s.vals, t), env.session, s.loop.excluded, env.hash, rr);
    if s.loop.attempts < env.maxAccounts && Selected(env, s, t).Picked? {
      TriedDecides(env, Chosen(env, s, t), Selected(env, s, t).i, t);
    }
  }

  // ---------------------------------------------------------------- how far a pass gets

  // Other requests put only valid accounts into the entries, and a refresh brings a token.
  predicate Sane(t: Turn) {
    && (forall o, k :: o in {t.before, t.meanwhile, t.later} && 0 <= k < |o.entries| ==> Validate(o.entries[k].account))
    && (t.renewal.answer.Token? ==> t.renewal.answer.token != "")
    && (t.forced.answer.Token? ==> t.forced.answer.token != "")
  }

  lemma MergeKeepsValid(vals: seq<P.EntryVal>, entries: seq<P.EntryVal>)
    requires AllValid(P.Accounts(vals)) && forall k :: 0 <= k < |entries| ==> Validate(entries[k].account)
    ensures AllValid(P.Accounts(Merge(vals, entries)))
  {
    var merged := Merge(vals, entries);
    forall k | 0 <= k < |merged| ensures Validate(P.Accounts(merged)[k]) {
      assert Validate(P.Accounts(vals)[k]);
    }
  }

  // The refresh of the account worked, and so did persisting it.
  predicate Renewed(env: Env, k: Renewal) {
    env.hasRefresher && k.answer.Token? && (env.hasStore ==> k.write == Saved)
  }

  // The token of entry v is good for five minutes more, and need not be renewed.
  predicate StillGood(v: P.EntryVal, k: Renewal) {
    v.account.expiresAtMs > k.nowMs + 300_000
  }

  lemma EnsuredOk(env: Env, vals: seq<P.EntryVal>, i: nat, force: bool, k: Renewal)
    requires i < |vals| && AllValid(P.Accounts(vals)) && (k.answer.Token? ==> k.answer.token != "")
    ensures var kept := !force && StillGood(vals[i], k);
            var (after, ok) := Ensured(env, vals, i, force, k);
            && ok == (kept || Renewed(env, k)) && AllValid(P.Accounts(after))
            && (ok ==> after[i].account.accessToken == if kept then vals[i].account.accessToken else k.answer.token)
  {
    RefreshedAccount(vals, i, P.Refreshed(vals[i], force, k.nowMs, env.hasRefresher, k.answer));
    hide P.Accounts;
    assert Validate(P.Accounts(vals)[i]);
    assert P.Accounts(vals)[i := vals[i].account] == P.Accounts(vals);
  }

  // The pass found entry i, and the account is ready for it.
  predicate Prepared(env: Env, v: P.EntryVal, t: Turn) {
    StillGood(v, t.renewal) || Renewed(env, t.renewal)
  }

  predicate Named(env: Env, t: Turn) {
    exists k :: 0 <= k < |t.models| && t.models[k].id == env.model
  }

  // What a pass does before it calls anybody, given the entry v that it holds.
  predicate Reaches(env: Env, s: State, v: P.EntryVal, t: Turn, r: State) {
    var id := v.account.id;
    if !Prepared(env, v, t) then r.outcome.None? && r.log.ends == s.log.ends + [End(id, RefreshFailed)]
    else if t.catalogFailed && t.models == [] then r.outcome.None? && r.log.ends == s.log.ends + [End(id, NoModels)]
    else if !Named(env, t) then r.outcome == Some(Response(400, ModelNotFound))
    else if !t.capable then r.outcome == Some(Response(400, UnsupportedCapability))
    else if t.pick.None? then r.outcome.None? && r.log.ends == s.log.ends + [End(id, NoTransport)]
    else r.log.calls == s.log.calls + CallsFor(env, v, t)
  }

  // The calls: after a 401 and a refresh that works the account is called once more, with the new
  // token; after a 404 or 405 by the Bearer transport in auto mode once more by the other one.
  function CallsFor(env: Env, v: P.EntryVal, t: Turn): seq<Call>
    requires Prepared(env, v, t) && t.pick.Some?
  {
    var id := v.account.id;
    var token := if StillGood(v, t.renewal) then v.account.accessToken else t.renewal.answer.token;
    var again := t.first.HttpError? && t.first.status == 401 && Renewed(env, t.forced);
    var settled := if again then t.second else t.first;
    var current := if again then t.forced.answer.token else token;
    var crosses := settled.HttpError? && settled.status in {404, 405} && env.config.transport == "auto" &&
        t.pick.value.transport == T.Bearer;
    [Call(id, token, t.first)] + (if again then [Call(id, current, t.second)] else []) +
    if crosses then [Call(id, current, t.fallback)] else []
  }

  lemma AppliedKeepsToken(env: Env, vals: seq<P.EntryVal>, i: nat, name: string)
    requires i < |vals|
    ensures var noted := Applied(env, vals, i, P.OpSetTransport(name), 0);
            P.Accounts(noted) == P.Accounts(vals) && noted[i].account == vals[i].account
  {
    AppliedKeepsAccounts(env, vals, i, P.OpSetTransport(name), 0);
  }

  lemma CallsMade(env: Env, vals: seq<P.EntryVal>, rr: Counter, i: nat, v: P.EntryVal, t: Turn)
    requires i < |vals| && AllValid(P.Accounts(vals)) && Sane(t) && Prepared(env, v, t) && t.pick.Some?
    requires vals[i].account.id == v.account.id
    requires vals[i].account.accessToken ==
             if StillGood(v, t.renewal) then v.account.accessToken else t.renewal.answer.token
    ensures Crossed(env, Asked(env, vals, rr, i, vals[i].account, t), i, t, t.pick.value.transport).made ==
            CallsFor(env, v, t)
  {
    MergeKeepsValid(vals, t.later.entries);
    EnsuredOk(env, Merge(vals, t.later.entries), i, true, t.forced);
    hide Ensured, Merge, Applied, AllValid, Validate, Prepared, StillGood, Renewed;
    var one, token := [Call(v.account.id, vals[i].account.accessToken, t.first)], vals[i].account.accessToken;
    assert one + [] == one;
  }

  lemma SentCalls(env: Env, s: State, i: nat, v: P.EntryVal, t: Turn)
    requires i < |s.vals| && AllValid(P.Accounts(s.vals)) && Sane(t) && Prepared(env, v, t) && t.pick.Some?
    requires s.vals[i].account.id == v.account.id
    requires s.vals[i].account.accessToken ==
             if StillGood(v, t.renewal) then v.account.accessToken else t.renewal.answer.token
    ensures Sent(env, s, i, s.vals[i].account, t.pick.value, t).log.calls == s.log.calls + CallsFor(env, v, t)
  {
    hide Asked, Crossed, Judged, CallsFor, Applied, AllValid, Sane, Prepared, StillGood;
    var pick, account := t.pick.value, s.vals[i].account;
    AppliedKeepsToken(env, s.vals, i, pick.transport.Name());
    var noted := if pick.noted then Applied(env, s.vals, i, P.OpSetTransport(pick.transport.Name()), 0) else s.vals;
    CallsMade(env, noted, s.rr, i, v, t);
    var c := Crossed(env, Asked(env, noted, s.rr, i, account, t), i, t, pick.transport);
    JudgedKeepsCalls(env, Heard(env, s, c, noted, i, t), i, c.account, c.last, t);
  }

  lemma TriedReaches(env: Env, s: State, i: nat, t: Turn)
    requires s.outcome.None? && i < |s.vals| && AllValid(P.Accounts(s.vals)) && Sane(t)
    ensures Reaches(env, s, Merge(s.vals, t.meanwhile.entries)[i], t, Tried(env, s, i, t))
  {
    var held := Merge(s.vals, t.meanwhile.entries);
    MergeKeepsValid(s.vals, t.meanwhile.entries);
    EnsuredOk(env, held, i, false, t.renewal);
    var ready := Ready(env, s, i, t);
    assert ready.vals[i].account.id == held[i].account.id;
    hide AllValid, Validate, StillGood, Sent, Merge, CallsFor, Applied, Sane;
    if Prepared(env, held[i], t) && t.pick.Some? {
      SentCalls(env, ready, i, held[i], t);
    }
    hide Ensured;
  }

  /** How far a pass gets, once Select has picked entry i: it needs a token good for five minutes
      more or one that was renewed and persisted, a catalog that did not fail empty, the model in
      it, its capabilities, and a transport. Then it makes exactly the calls of CallsFor, each with
      the newest token. */
  lemma PassReaches(env: Env, s: State, t: Turn)
    requires s.outcome.None? && s.loop.attempts < env.maxAccounts && Selected(env, s, t).Picked?
    requires AllValid(P.Accounts(s.vals)) && Sane(t)
    ensures var i := Selected(env, s, t).i;
            i < |s.vals| &&
            Reaches(env, s, Merge(Seen(s.vals, t), t.meanwhile.entries)[i], t, Iterate(env, s, t))
  {
    SeenKeepsValid(s.vals, t);
    hide Tried, Seen, P.Selection, Reaches, AllValid, Sane;
    P.SelectionSound(Seen(s.vals, t), env.session, s.loop.excluded, env.hash, Ticked(s.rr, t.before));
    TriedReaches(env, Chosen(env, s, t), Selected(env, s, t).i, t);
  }

  lemma SeenKeepsValid(vals: seq<P.EntryVal>, t: Turn)
    requires AllValid(P.Accounts(vals)) && Sane(t)
    ensures AllValid(P.Accounts(Seen(vals, t)))
  {
    MergeKeepsValid(vals, t.before.entries);
    var merged := Merge(vals, t.before.entries);
    ExpireKeepsAccounts(merged, t.clock);
    assert P.Accounts(Seen(vals, t)) == P.Accounts(merged);
  }

  // ---------------------------------------------------------------- what the account pays

  // What the verdict on the last answer costs the entry: a 429 cools it for the longer of the
  // answer's and the configured time, or a minute if neither is positive.
  predicate Penalised(env: Env, v: Verdict, x: P.EntryVal, last: Reply, now: int) {
    match v
    case RateLimited =>
      last.HttpError? &&
      var d := if last.retryAfter > env.config.cooldownDefault then last.retryAfter else env.config.cooldownDefault;
      x.state == P.Cooldown && x.cooldownUntil == Some(now + if d > 0 then d else 60_000_000_000)
    case Forbidden =>
      x.state == P.Disabled && x.disabledUntil == Some(now + env.recovery) && x.lastError == "Qoder returned 403"
    case Unauthorized => x.state == P.AuthError
    case _ => true
  }

  lemma JudgedPenalises(env: Env, s: State, i: nat, account: Account, last: Reply, t: Turn)
    requires s.outcome.None? && i < |s.vals|
    ensures var r := Judged(env, s, i, account, last, t);
            r.outcome.None? ==> |r.log.ends| == |s.log.ends| + 1 &&
                                Penalised(env, r.log.ends[|s.log.ends|].verdict, r.vals[i], last, t.now)
  {
    hide Q.QueueWaitSeconds, Q.IsQuotaError, ErrorText, QueueGate;
  }

  // The pass went on after its calls, and entry i paid for the last answer.
  predicate Paid(env: Env, s: State, i: nat, t: Turn, r: State) {
    && i < |r.vals| && |r.log.ends| == |s.log.ends| + 1 && |r.log.calls| > |s.log.calls|
    && Penalised(env, r.log.ends[|s.log.ends|].verdict, r.vals[i], LastReply(r), t.now)
  }

  lemma SentPenalises(env: Env, s: State, i: nat, account: Account, pick: Pick, t: Turn)
    requires s.outcome.None? && i < |s.vals| && s.vals[i].account == account
    ensures var r := Sent(env, s, i, account, pick, t); r.outcome.None? ==> Paid(env, s, i, t, r)
  {
    hide Applied, Asked, AskedFile, Crossed, Judged, Penalised, KeepsHealth, SameIds;
    TransportKeepsHealth(env, s.vals, i, pick.transport.Name());
    var noted := if pick.noted then Applied(env, s.vals, i, P.OpSetTransport(pick.transport.Name()), 0) else s.vals;
    assert noted[i].account == account;
    LastAnswer(env, noted, s.rr, i, account, t, pick.transport);
    var c := Crossed(env, Asked(env, noted, s.rr, i, account, t), i, t, pick.transport);
    var s1 := Heard(env, s, c, noted, i, t);
    JudgedPenalises(env, s1, i, c.account, c.last, t);
    JudgedKeepsCalls(env, s1, i, c.account, c.last, t);
  }

  lemma TriedPenalises(env: Env, s: State, i: nat, t: Turn)
    requires s.outcome.None? && i < |s.vals|
    ensures var r := Tried(env, s, i, t);
            r.log.calls == s.log.calls || (r.outcome.None? ==> Paid(env, s, i, t, r))
  {
    TriedCases(env, s, i, t);
    ReadyIsTrying(env, s, i, t);
    hide Tried, Ready, Sent, Applied, Penalised, Trying;
    var ready := Ready(env, s, i, t);
    if t.pick.Some? {
      SentPenalises(env, ready, i, ready.vals[i].account, t.pick.value, t);
    }
  }

  /** What a pass that called its account and went on costs that account, whatever other requests
      did before: a cooldown of the right length, a disablement until the recovery time, or an
      authentication error. */
  lemma {:induction false} AnswerIsPaidFor(env: Env, s: State, t: Turn)
    requires s.outcome.None? && |Iterate(env, s, t).log.calls| > |s.log.calls| && Iterate(env, s, t).outcome.None?
    ensures Selected(env, s, t).Picked? && Paid(env, s, Selected(env, s, t).i, t, Iterate(env, s, t))
  {
    hide Tried, Seen, P.Selection, Penalised;
    var rr := Ticked(s.rr, t.before);
    P.SelectionSound(Seen(s.vals, t), env.session, s.loop.excluded, env.hash, rr);
    if s.loop.attempts < env.maxAccounts && Selected(env, s, t).Picked? {
      TriedPenalises(env, Chosen(env, s, t), Selected(env, s, t).i, t);
    }
  }

  // ---------------------------------------------------------------- giving up

  /** A pass ends the run without trying an account if and only if as many have been tried as the
      pool has, or no account is healthy that is not excluded. The answer is the last quota refusal
      if there was one, else 503 with the reason. Only a pick out of range ends it otherwise. */
  lemma GivesUpWhen(env: Env, s: State, t: Turn)
    requires s.outcome.None?
    ensures var spent := s.loop.attempts >= env.maxAccounts;
            var none := forall i :: 0 <= i < |s.vals| && Seen(s.vals, t)[i].state == P.Healthy ==>
                          s.vals[i].account.id in s.loop.excluded;
            var r := Iterate(env, s, t);
            && (r.log.picks == s.log.picks <==> spent || none || r.outcome == Some(IndexPanic))
            && (spent || none ==>
                  r.outcome == Some(if s.loop.lastQuota.Some? then Response(s.loop.lastQuota.value, QuotaExceeded)
                                    else Response(503, if spent then Exhausted else NoAccount)))
  {
    hide Tried, Seen, P.Selection;
    P.SelectionSound(Seen(s.vals, t), env.session, s.loop.excluded, env.hash, Ticked(s.rr, t.before));
    if s.loop.attempts < env.maxAccounts && Selected(env, s, t).Picked? {
      TriedPicks(env, Chosen(env, s, t), Selected(env, s, t).i, t);
    }
  }

  lemma SentPicks(env: Env, s: State, i: nat, account: Account, pick: Pick, t: Turn)
    requires i < |s.vals| && s.outcome.None?
    ensures var r := Sent(env, s, i, account, pick, t);
            r.log.picks == s.log.picks && r.outcome != Some(IndexPanic)
  {
    hide Asked, Crossed, AskedFile, Judged;
    var noted := if pick.noted then Applied(env, s.vals, i, P.OpSetTransport(pick.transport.Name()), 0) else s.vals;
    hide P.Apply;
    var c := Crossed(env, Asked(env, noted, s.rr, i, account, t), i, t, pick.transport);
    JudgedKeepsCounter(env, Heard(env, s, c, noted, i, t), i, c.account, c.last, t);
  }

  // The pass ends after Ready or goes through Sent.
  lemma TriedPasses(env: Env, s: State, i: nat, t: Turn)
    requires i < |s.vals| && s.outcome.None?
    ensures var r, ready := Tried(env, s, i, t), Ready(env, s, i, t);
            || (t.pick.Some? && r == Sent(env, ready, i, ready.vals[i].account, t.pick.value, t))
            || (r.rr == ready.rr && r.log.picks == ready.log.picks && r.outcome != Some(IndexPanic))
    ensures var ready := Ready(env, s, i, t);
            ready.rr == Ticked(s.rr, t.meanwhile) && |ready.log.picks| == |s.log.picks| + 1 && ready.outcome.None?
  {
    hide Sent, Ensured, Merge, FileAfter, Filed, Applied, Ticked;
  }

  lemma TriedPicks(env: Env, s: State, i: nat, t: Turn)
    requires i < |s.vals| && s.outcome.None?
    ensures var r := Tried(env, s, i, t); |r.log.picks| == |s.log.picks| + 1 && r.outcome != Some(IndexPanic)
  {
    TriedPasses(env, s, i, t);
    hide Tried, Sent, Ready;
    var ready := Ready(env, s, i, t);
    if t.pick.Some? {
      SentPicks(env, ready, i, ready.vals[i].account, t.pick.value, t);
    }
  }

  // ---------------------------------------------------------------- what is noted on the entry

  // The transport noted on entry i, where v is what it was when the calls were made.
  function Noted(env: Env, v: string, t: Turn): string
    requires t.pick.Some?
  {
    var again := t.first.HttpError? && t.first.status == 401 && Renewed(env, t.forced);
    var settled := if again then t.second else t.first;
    if settled.HttpError? && settled.status in {404, 405} && env.config.transport == "auto" &&
       t.pick.value.transport == T.Bearer then "cosy"
    else if !t.pick.value.noted then v
    else if t.pick.value.transport == T.Bearer then "bearer" else "cosy"
  }

  // The answers up to a change of transport were all a 401.
  predicate Rejected(env: Env, t: Turn) {
    t.first.HttpError? && t.first.status == 401 &&
    (!Renewed(env, t.forced) || (t.second.HttpError? && t.second.status == 401))
  }

  lemma JudgedKeepsNotes(env: Env, s: State, i: nat, account: Account, last: Reply, t: Turn)
    requires i < |s.vals| && s.outcome.None?
    ensures var r := Judged(env, s, i, account, last, t);
            && r.vals[i].transport == s.vals[i].transport
            && (s.vals[i].state == P.AuthError && last.HttpError? && last.status == 401 ==>
                  r.vals[i].state == P.AuthError)
  {
    hide Q.QueueWaitSeconds, Q.IsQuotaError, ErrorText, QueueGate;
  }

  lemma AskedNotes(env: Env, vals: seq<P.EntryVal>, rr: Counter, i: nat, account: Account, t: Turn)
    requires i < |vals| && AllValid(P.Accounts(vals)) && Sane(t) && Quiet(t)
    ensures var c := Asked(env, vals, rr, i, account, t);
            && c.vals[i].transport == vals[i].transport && c.made != []
            && (Rejected(env, t) ==> c.vals[i].state == P.AuthError && Is(c.last, 401))
            && c.last == (if Is(t.first, 401) && Renewed(env, t.forced) then t.second else t.first)
  {
    EnsuredOk(env, vals, i, true, t.forced);
    hide AllValid, Validate, P.Accounts;
  }

  lemma SentNotes(env: Env, s: State, i: nat, pick: Pick, t: Turn)
    requires i < |s.vals| && s.outcome.None? && t.pick == Some(pick)
    requires AllValid(P.Accounts(s.vals)) && Sane(t) && Quiet(t)
    ensures var r := Sent(env, s, i, s.vals[i].account, pick, t);
            && |r.vals| == |s.vals| && |r.log.calls| > |s.log.calls|
            && r.vals[i].transport == Noted(env, s.vals[i].transport, t)
            && (Rejected(env, t) ==> r.vals[i].state == P.AuthError)
  {
    hide Asked, Judged, Quiet, AllValid, Sane, Renewed;
    AppliedKeepsToken(env, s.vals, i, pick.transport.Name());
    var noted := if pick.noted then Applied(env, s.vals, i, P.OpSetTransport(pick.transport.Name()), 0) else s.vals;
    AskedNotes(env, noted, s.rr, i, s.vals[i].account, t);
    var c := Crossed(env, Asked(env, noted, s.rr, i, s.vals[i].account, t), i, t, pick.transport);
    JudgedKeepsNotes(env, Heard(env, s, c, noted, i, t), i, c.account, c.last, t);
    JudgedKeepsCalls(env, Heard(env, s, c, noted, i, t), i, c.account, c.last, t);
  }

  // What the pass leaves noted on entry i.
  predicate LeavesNoted(env: Env, s: State, i: nat, t: Turn, r: State) {
    && i < |s.vals| && i < |r.vals|
    && (if |r.log.calls| == |s.log.calls| then r.vals[i].transport == s.vals[i].transport
        else t.pick.Some? && r.vals[i].transport == Noted(env, s.vals[i].transport, t) &&
             (Rejected(env, t) ==> r.vals[i].state == P.AuthError))
  }

  lemma TriedNotes(env: Env, s: State, i: nat, t: Turn)
    requires i < |s.vals| && s.outcome.None? && AllValid(P.Accounts(s.vals)) && Sane(t) && Quiet(t)
    ensures LeavesNoted(env, s, i, t, Tried(env, s, i, t))
  {
    EnsuredOk(env, s.vals, i, false, t.renewal);
    var ready := Ready(env, s, i, t);
    assert ready.vals[i].transport == s.vals[i].transport;
    assert AllValid(P.Accounts(ready.vals));
    hide *;
    if t.pick.Some? {
      SentNotes(env, ready, i, t.pick.value, t);
    }
    TriedOrSent(env, s, i, t);
    LeavesNotedIs(env, s, i, t, Tried(env, s, i, t));
  }

  lemma LeavesNotedIs(env: Env, s: State, i: nat, t: Turn, r: State)
    requires i < |s.vals| && i < |r.vals|
    requires if |r.log.calls| == |s.log.calls| then r.vals[i].transport == s.vals[i].transport
             else t.pick.Some? && r.vals[i].transport == Noted(env, s.vals[i].transport, t) &&
                  (Rejected(env, t) ==> r.vals[i].state == P.AuthError)
    ensures LeavesNoted(env, s, i, t, r)
  {
    hide Noted, Rejected;
  }

  // Without calls, nothing about the transport changes.
  lemma TriedOrSent(env: Env, s: State, i: nat, t: Turn)
    requires i < |s.vals| && Quiet(t)
    ensures var r, ready := Tried(env, s, i, t), Ready(env, s, i, t);
            || (t.pick.Some? && r == Sent(env, ready, i, ready.vals[i].account, t.pick.value, t))
            || (r.log.calls == s.log.calls && r.vals[i].transport == ready.vals[i].transport)
    ensures Ready(env, s, i, t).log.calls == s.log.calls
  {
    hide Sent, Ensured, Merge, FileAfter, Filed;
  }

  /** In a pass that other requests leave alone the entry ends up with the name of the transport
      that was used last, if that was picked anew or changed, and an account that rejects its token,
      and a renewed one if it got one, ends up with an authentication error, even if the rejection
      asks for a wait. */
  lemma PassLeavesNoted(env: Env, s: State, t: Turn)
    requires s.outcome.None? && s.loop.attempts < env.maxAccounts && Selected(env, s, t).Picked?
    requires AllValid(P.Accounts(s.vals)) && Sane(t) && Quiet(t)
    ensures LeavesNoted(env, s, Selected(env, s, t).i, t, Iterate(env, s, t))
  {
    SeenKeepsValid(s.vals, t);
    SeenKeepsTransport(s.vals, t);
    hide Tried, Seen, P.Selection, AllValid, Sane, Noted, Rejected;
    P.SelectionSound(Seen(s.vals, t), env.session, s.loop.excluded, env.hash, Ticked(s.rr, t.before));
    TriedNotes(env, Chosen(env, s, t), Selected(env, s, t).i, t);
  }

  lemma SeenKeepsTransport(vals: seq<P.EntryVal>, t: Turn)
    requires Quiet(t)
    ensures forall i :: 0 <= i < |vals| ==> Seen(vals, t)[i].transport == vals[i].transport
  {
    forall i | 0 <= i < |vals| ensures Seen(vals, t)[i].transport == vals[i].transport {
      assert Seen(vals, t)[i] == P.Expire(vals[i], t.clock(i));
    }
  }

  // ---------------------------------------------------------------- the tickets of a run

  // No other request selects an account meanwhile.
  predicate Alone(t: Turn) {
    t.before.tickets == 0 && t.meanwhile.tickets == 0 && t.later.tickets == 0
  }

  // Tickets the passes between s and r have taken: one for each account picked, and one for a
  // pick that panicked.
  function Taken(s: State, r: State): int {
    |r.log.picks| - |s.log.picks| + if r.outcome == Some(IndexPanic) then 1 else 0
  }

  lemma JudgedKeepsCounter(env: Env, s: State, i: nat, account: Account, last: Reply, t: Turn)
    requires i < |s.vals| && s.outcome.None?
    ensures var r := Judged(env, s, i, account, last, t);
            r.rr == s.rr && r.log.picks == s.log.picks && r.outcome != Some(IndexPanic)
  {
    hide Q.QueueWaitSeconds, Q.IsQuotaError, ErrorText, Applied;
  }

  lemma NoTickets(rr: Counter, o: Others)
    requires o.tickets == 0
    ensures Ticked(rr, o) == rr
  {
  }

  lemma SentTakesNone(env: Env, s: State, i: nat, account: Account, pick: Pick, t: Turn)
    requires i < |s.vals| && s.outcome.None? && t.later.tickets == 0
    ensures Sent(env, s, i, account, pick, t).rr == s.rr
  {
    NoTickets(s.rr, t.later);
    hide Ensured, Merge, AskedFile, Judged, Ticked;
    var noted := if pick.noted then Applied(env, s.vals, i, P.OpSetTransport(pick.transport.Name()), 0) else s.vals;
    hide P.Apply;
    var c := Crossed(env, Asked(env, noted, s.rr, i, account, t), i, t, pick.transport);
    JudgedKeepsCounter(env, Heard(env, s, c, noted, i, t), i, c.account, c.last, t);
  }

  lemma TriedTakesNone(env: Env, s: State, i: nat, t: Turn)
    requires i < |s.vals| && Alone(t) && s.outcome.None?
    ensures Tried(env, s, i, t).rr == s.rr
  {
    TriedPasses(env, s, i, t);
    NoTickets(s.rr, t.meanwhile);
    hide Tried, Sent, Ready, Ticked;
    var ready := Ready(env, s, i, t);
    if t.pick.Some? {
      SentTakesNone(env, ready, i, ready.vals[i].account, t.pick.value, t);
    }
  }

  lemma PassTakesOne(env: Env, s: State, t: Turn)
    requires s.outcome.None? && Alone(t)
    ensures var r := Iterate(env, s, t);
            r.rr == if env.session == "" then (s.rr + Taken(s, r)) % 0x1_0000_0000_0000_0000 else s.rr
    ensures Taken(s, Iterate(env, s, t)) >= 0
  {
    hide Tried, Seen, P.Selection;
    P.SelectionSound(Seen(s.vals, t), env.session, s.loop.excluded, env.hash, Ticked(s.rr, t.before));
    if s.loop.attempts < env.maxAccounts && Selected(env, s, t).Picked? {
      TriedTakesNone(env, Chosen(env, s, t), Selected(env, s, t).i, t);
      TriedPicks(env, Chosen(env, s, t), Selected(env, s, t).i, t);
    }
  }

  /** Without a session every account that a run picks costs it exactly one ticket, so that its
      passes, and the runs after it, take turns; a run of a session takes none. */
  lemma {:induction false} RunTakesTickets(env: Env, s: State, n: nat, turns: nat -> Turn)
    requires s.outcome.None? && forall k: nat :: Alone(turns(k))
    ensures var r := Run(env, s, n, turns);
            && Taken(s, r) >= 0
            && r.rr == if env.session == "" then (s.rr + Taken(s, r)) % 0x1_0000_0000_0000_0000 else s.rr
    decreases Left(env, s.loop)
  {
    hide Iterate;
    var r := Iterate(env, s, turns(n));
    PassTakesOne(env, s, turns(n));
    if r.outcome.None? {
      PassUsesUp(env, s, turns(n));
      RunTakesTickets(env, r, n + 1, turns);
      Wrapped(s.rr, Taken(s, r), Taken(r, Run(env, r, n + 1, turns)), 0x1_0000_0000_0000_0000);
    }
  }

  lemma Wrapped(a: nat, b: nat, c: nat, m: nat)
    requires m > 0
    ensures ((a + b) % m + c) % m == (a + b + c) % m
  {
    var q := (a + b) / m;
    assert a + b + c == (a + b) % m + c + q * m;
    ModPlus((a + b) % m + c, q, m);
  }

  lemma {:induction false} ModPlus(x: nat, q: nat, m: nat)
    requires m > 0
    ensures (x + q * m) % m == x % m
  {
    P.DivModUnique(x + q * m, m, x / m + q, x % m);
  }
}
