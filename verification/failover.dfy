// The failover loop of a chat request (internal/server/server.go, chat): which account is
// tried next, when it is blamed, how long a queued model is waited for, and what the client is
// told in the end. The outside world answers through one Turn per pass of the loop.

module Failover {
  import opened Wrappers
  import opened Credential
  import P = Pool
  import T = TransportCache
  import C = Catalog
  import Q = QueueSignal

  // A Chat call ends with a stream, an HTTP error, or another error.
  datatype Reply = Stream | HttpError(status: int, message: string, retryAfter: int) | OtherError(message: string)

  datatype Config = Config(
    transport: string,
    queueMaxRounds: int,
    queueWaitMax: int,
    queueWaitBudget: int,
    queueWaitJitter: int,
    cooldownDefault: int,
    max5xxRetries: int
  )

  // What a run is about: the configuration, the pool's constants and the request.
  datatype Env = Env(
    config: Config,
    maxAccounts: nat,
    hasRefresher: bool,
    hasStore: bool,
    recovery: int,
    session: string,
    model: string,
    hash: string -> nat
  )

  // What other requests do to the pool: any entry may change in any way but its ID, which a
  // token refresh keeps, tickets may be taken, and the credentials file may be written. No
  // entries means that no entry changes.
  datatype Others = Others(entries: seq<P.EntryVal>, tickets: nat, file: Option<seq<Account>>)

  datatype Renewal = Renewal(nowMs: int, answer: P.RefreshResult, write: Write)

  datatype Pick = Pick(transport: T.Transport, noted: bool)

  // Everything that one pass of the loop learns from outside.
  datatype Turn = Turn(
    before: Others,
    clock: nat -> int,
    meanwhile: Others,
    renewal: Renewal,
    models: seq<C.Model>,
    catalogFailed: bool,
    capable: bool,
    pick: Option<Pick>,
    first: Reply,
    later: Others,
    forced: Renewal,
    second: Reply,
    fallback: Reply,
    draw: nat,
    aborted: bool,
    now: int
  )

  // The local variables of the loop.
  datatype Loop = Loop(
    excluded: set<string>,
    attempts: int,
    retries5xx: int,
    lastQuota: Option<int>,
    queueRounds: int,
    queueWaited: int
  )

  const START := Loop({}, 0, 0, None, 0, 0)

  // How a pass that does not end the run ended.
  datatype Verdict = RefreshFailed | NoModels | NoTransport | Waited(sleep: int)
                   | Unauthorized | Quota | Forbidden | RateLimited | ServerError

  // picks lists the accounts tried, pass by pass; ends and calls what came of it. A call carries the
  // access token of its account.
  datatype End = End(id: string, verdict: Verdict)
  datatype Call = Call(id: string, token: string, reply: Reply)
  datatype Log = Log(picks: seq<string>, ends: seq<End>, calls: seq<Call>)

  datatype Kind = NoAccount | Exhausted | QuotaExceeded | ModelNotFound | UnsupportedCapability
                | QueueTimeout | UpstreamNetworkError | UpstreamError

  // What the run ends with: the relayed stream, an error response, or a panic.
  datatype Outcome = Relayed | Response(status: int, kind: Kind) | IndexPanic | JitterPanic

  // file is the content of the credentials file, if there is one.
  datatype State = State(
    vals: seq<P.EntryVal>,
    rr: Counter,
    file: seq<Account>,
    loop: Loop,
    log: Log,
    outcome: Option<Outcome>
  )

  type Counter = n: nat | n < P.TWO_64

  // ---------------------------------------------------------------- small parts

  function Decimal(n: nat): string {
    (if n < 10 then "" else Decimal(n / 10)) + [(n % 10) as char + '0']
  }

  function ErrorText(r: Reply): string {
    match r
    case Stream => ""
    case OtherError(m) => m
    case HttpError(status, m, _) =>
      "Qoder upstream HTTP " + (if status < 0 then "-" + Decimal(-status) else Decimal(status)) + ": " + m
  }

  function Max(a: int, b: int): int {
    if a > b then a else b
  }

  function Merge(vals: seq<P.EntryVal>, entries: seq<P.EntryVal>): (r: seq<P.EntryVal>)
    ensures |r| == |vals| && forall i :: 0 <= i < |vals| ==> r[i].account.id == vals[i].account.id
    ensures entries == [] ==> r == vals
  {
    seq(|vals|, i requires 0 <= i < |vals| =>
      if i < |entries| then entries[i].(account := entries[i].account.(id := vals[i].account.id)) else vals[i])
  }

  function Ticked(rr: Counter, o: Others): Counter {
    (rr + o.tickets) % P.TWO_64
  }

  // EnsureFresh as the loop sees it: the entries afterwards, and whether it succeeded.
  function Ensured(env: Env, vals: seq<P.EntryVal>, i: nat, force: bool, k: Renewal): (r: (seq<P.EntryVal>, bool))
    requires i < |vals|
    ensures |r.0| == |vals| && r.0[i].account.id == vals[i].account.id
  {
    var after := vals[i := P.Refreshed(vals[i], force, k.nowMs, env.hasRefresher, k.answer)];
    var called := P.NeedsRefresh(vals[i], force, k.nowMs);
    (after, !called || (env.hasRefresher && k.answer.Token? &&
                        (!env.hasStore || (k.write == Saved && AllValid(P.Accounts(after))))))
  }

  function Filed(env: Env, file: seq<Account>, o: Others): seq<Account> {
    if env.hasStore && o.file.Some? then o.file.value else file
  }

  // The credentials file after EnsureFresh.
  function FileAfter(env: Env, file: seq<Account>, vals: seq<P.EntryVal>, i: nat, force: bool, k: Renewal): seq<Account>
    requires i < |vals|
  {
    var accounts := P.Accounts(Ensured(env, vals, i, force, k).0);
    if P.NeedsRefresh(vals[i], force, k.nowMs) && env.hasRefresher && k.answer.Token? && env.hasStore &&
       AllValid(accounts) && k.write != NotWritten
    then accounts else file
  }

  function Applied(env: Env, vals: seq<P.EntryVal>, i: nat, op: P.Op, now: int): seq<P.EntryVal>
    requires i < |vals|
  {
    vals[i := P.Apply(vals[i], op, now, env.recovery)]
  }

  predicate Is(r: Reply, status: int) {
    r.HttpError? && r.status == status
  }

  // ---------------------------------------------------------------- one pass of the loop

  // Up to three Chat calls: the entries and the account afterwards, and what was answered.
  datatype Calls = Calls(vals: seq<P.EntryVal>, rr: Counter, account: Account, made: seq<Call>, last: Reply)

  // The first call, and after a 401 the forced refresh and the second call.
  function Asked(env: Env, vals: seq<P.EntryVal>, rr: Counter, i: nat, account: Account, t: Turn): (c: Calls)
    requires i < |vals|
    ensures |c.vals| == |vals|
  {
    var one := [Call(account.id, account.accessToken, t.first)];
    if !Is(t.first, 401) then Calls(vals, rr, account, one, t.first)
    else
      var (after, ok) := Ensured(env, Merge(vals, t.later.entries), i, true, t.forced);
      var renewed := after[i].account;
      var two := one + [Call(renewed.id, renewed.accessToken, t.second)];
      var c := if ok then Calls(after, Ticked(rr, t.later), renewed, two, t.second)
               else Calls(after, Ticked(rr, t.later), account, one, t.first);
      if Is(c.last, 401) then c.(vals := Applied(env, c.vals, i, P.OpAuthError, t.now)) else c
  }

  function AskedFile(env: Env, file: seq<Account>, vals: seq<P.EntryVal>, i: nat, t: Turn): seq<Account>
    requires i < |vals|
  {
    if !Is(t.first, 401) then file
    else FileAfter(env, Filed(env, file, t.later), Merge(vals, t.later.entries), i, true, t.forced)
  }

  // The crossing from Bearer to COSY after a 404 or 405.
  function Crossed(env: Env, c: Calls, i: nat, t: Turn, via: T.Transport): (r: Calls)
    requires i < |c.vals|
    ensures |r.vals| == |c.vals|
  {
    if (Is(c.last, 404) || Is(c.last, 405)) && env.config.transport == "auto" && via == T.Bearer then
      Calls(Applied(env, c.vals, i, P.OpSetTransport("cosy"), 0), c.rr, c.account,
            c.made + [Call(c.account.id, c.account.accessToken, t.fallback)], t.fallback)
    else c
  }

  predicate QueueGate(config: Config, loop: Loop, wait: int) {
    && wait > 0 && config.queueMaxRounds > 0 && loop.queueRounds < config.queueMaxRounds
    && wait <= config.queueWaitMax && loop.queueWaited + wait <= config.queueWaitBudget
  }

  // What the last answer means for the entry, the loop and the run.
  function Judged(env: Env, s: State, i: nat, account: Account, last: Reply, t: Turn): (r: State)
    requires i < |s.vals|
    ensures |r.vals| == |s.vals|
  {
    var loop := s.loop;
    var wait := Q.QueueWaitSeconds(ErrorText(last));
    if last.Stream? then s.(outcome := Some(Relayed))
    else if QueueGate(env.config, loop, wait) then
      if env.config.queueWaitJitter <= 0 then
        s.(loop := loop.(queueRounds := loop.queueRounds + 1), outcome := Some(JitterPanic))
      else
        var sleep := wait + (t.draw % env.config.queueWaitJitter + 1);
        var next := loop.(queueRounds := loop.queueRounds + 1, queueWaited := loop.queueWaited + sleep,
                          excluded := loop.excluded - {account.id}, attempts := loop.attempts - 1);
        if t.aborted then s.(loop := next, outcome := Some(Response(504, QueueTimeout)))
        else Ended(s.(loop := next), account.id, Waited(sleep))
    else if last.OtherError? then s.(outcome := Some(Response(502, UpstreamNetworkError)))
    else if last.status == 401 then
      Ended(s.(vals := Applied(env, s.vals, i, P.OpAuthError, t.now)), account.id, Unauthorized)
    else if last.status == 403 then
      if Q.IsQuotaError(last.message) then Ended(s.(loop := loop.(lastQuota := Some(last.status))), account.id, Quota)
      else
        Ended(s.(vals := Applied(env, s.vals, i, P.OpDisabled("Qoder returned 403"), t.now)), account.id, Forbidden)
    else if last.status == 429 then
      var d := Max(last.retryAfter, env.config.cooldownDefault);
      Ended(s.(vals := Applied(env, s.vals, i, P.OpCooldown(d), t.now)), account.id, RateLimited)
    else if last.status >= 500 && loop.retries5xx < env.config.max5xxRetries then
      Ended(s.(loop := loop.(retries5xx := loop.retries5xx + 1)), account.id, ServerError)
    else
      s.(outcome := Some(Response(if last.status < 400 || last.status > 599 then 502 else last.status, UpstreamError)))
  }

  function Ended(s: State, id: string, v: Verdict): State {
    s.(log := s.log.(ends := s.log.ends + [End(id, v)]))
  }

  // The state when the calls c have been made, starting from the entries `noted`.
  function Heard(env: Env, s: State, c: Calls, noted: seq<P.EntryVal>, i: nat, t: Turn): State
    requires i < |noted|
  {
    s.(vals := c.vals, rr := c.rr, file := AskedFile(env, s.file, noted, i, t),
       log := s.log.(calls := s.log.calls + c.made))
  }

  // The pass once a transport has been picked.
  function Sent(env: Env, s: State, i: nat, account: Account, pick: Pick, t: Turn): (r: State)
    requires i < |s.vals|
    ensures |r.vals| == |s.vals|
  {
    var noted := if pick.noted then Applied(env, s.vals, i, P.OpSetTransport(pick.transport.Name()), 0) else s.vals;
    var c := Crossed(env, Asked(env, noted, s.rr, i, account, t), i, t, pick.transport);
    Judged(env, Heard(env, s, c, noted, i, t), i, c.account, c.last, t)
  }

  // The loop variables while account `id` is being tried.
  function Trying(loop: Loop, id: string): Loop {
    loop.(excluded := loop.excluded + {id}, attempts := loop.attempts + 1)
  }

  // The state once EnsureFresh has returned for entry i.
  function Ready(env: Env, s: State, i: nat, t: Turn): (r: State)
    requires i < |s.vals|
    ensures |r.vals| == |s.vals|
  {
    var merged := Merge(s.vals, t.meanwhile.entries);
    var (vals, ok) := Ensured(env, merged, i, false, t.renewal);
    var id := vals[i].account.id;
    s.(vals := vals, rr := Ticked(s.rr, t.meanwhile),
       file := FileAfter(env, Filed(env, s.file, t.meanwhile), merged, i, false, t.renewal),
       loop := Trying(s.loop, id), log := s.log.(picks := s.log.picks + [id]))
  }

  // The pass once entry i has been selected.
  function Tried(env: Env, s: State, i: nat, t: Turn): (r: State)
    requires i < |s.vals|
    ensures |r.vals| == |s.vals|
  {
    var (vals, ok) := Ensured(env, Merge(s.vals, t.meanwhile.entries), i, false, t.renewal);
    var account := vals[i].account;
    var s1 := Ready(env, s, i, t);
    if !ok then Ended(s1.(vals := Applied(env, vals, i, P.OpAuthError, t.now)), account.id, RefreshFailed)
    else if t.catalogFailed && t.models == [] then Ended(s1, account.id, NoModels)
    else if C.FirstModel(t.models, env.model).None? then s1.(outcome := Some(Response(400, ModelNotFound)))
    else if !t.capable then s1.(outcome := Some(Response(400, UnsupportedCapability)))
    else if t.pick.None? then Ended(s1, account.id, NoTransport)
    else Sent(env, s1, i, account, t.pick.value, t)
  }

  function GiveUp(loop: Loop, otherwise: Kind): Outcome {
    if loop.lastQuota.Some? then Response(loop.lastQuota.value, QuotaExceeded) else Response(503, otherwise)
  }

  lemma ExpireKeepsAccounts(vals: seq<P.EntryVal>, clock: nat -> int)
    ensures forall i :: 0 <= i < |vals| ==> P.ExpireAll(vals, clock)[i].account == vals[i].account
  {
    forall i | 0 <= i < |vals| ensures P.ExpireAll(vals, clock)[i].account == vals[i].account {
      assert P.ExpireAll(vals, clock)[i] == P.Expire(vals[i], clock(i));
    }
  }

  // The pool when Select has looked at it, and after it has taken its ticket.
  function Seen(vals: seq<P.EntryVal>, t: Turn): (r: seq<P.EntryVal>)
    ensures |r| == |vals| && forall i :: 0 <= i < |vals| ==> r[i].account.id == vals[i].account.id
  {
    ExpireKeepsAccounts(Merge(vals, t.before.entries), t.clock);
    P.ExpireAll(Merge(vals, t.before.entries), t.clock)
  }

  function Selected(env: Env, s: State, t: Turn): P.SelectResult {
    P.Selection(Seen(s.vals, t), env.session, s.loop.excluded, env.hash, Ticked(s.rr, t.before))
  }

  // The state when Select has returned.
  function Chosen(env: Env, s: State, t: Turn): (r: State)
    ensures |r.vals| == |s.vals|
  {
    var rr := Ticked(s.rr, t.before);
    s.(vals := Seen(s.vals, t), file := Filed(env, s.file, t.before),
       rr := if env.session == "" && !Selected(env, s, t).NoneHealthy? then (rr + 1) % P.TWO_64 else rr)
  }

  function Iterate(env: Env, s: State, t: Turn): (r: State)
    requires s.outcome.None?
    ensures |r.vals| == |s.vals|
  {
    if s.loop.attempts >= env.maxAccounts then s.(outcome := Some(GiveUp(s.loop, Exhausted)))
    else
      var rr := Ticked(s.rr, t.before);
      P.SelectionSound(Seen(s.vals, t), env.session, s.loop.excluded, env.hash, rr);
      var s1 := Chosen(env, s, t);
      match Selected(env, s, t)
      case NoneHealthy => s1.(outcome := Some(GiveUp(s.loop, NoAccount)))
      case IndexPanic => s1.(outcome := Some(IndexPanic))
      case Picked(i) => Tried(env, s1, i, t)
  }

  // ---------------------------------------------------------------- what a pass can do

  // The loop variables after a pass with that verdict.
  function Next(loop: Loop, e: End): Loop {
    match e.verdict
    case Waited(d) => loop.(queueRounds := loop.queueRounds + 1, queueWaited := loop.queueWaited + d)
    case Quota => loop.(excluded := loop.excluded + {e.id}, attempts := loop.attempts + 1, lastQuota := Some(403))
    case ServerError =>
      loop.(excluded := loop.excluded + {e.id}, attempts := loop.attempts + 1, retries5xx := loop.retries5xx + 1)
    case _ => loop.(excluded := loop.excluded + {e.id}, attempts := loop.attempts + 1)
  }

  // A wait the gate lets pass: the gate looks at the time without the jitter.
  predicate WaitAllowed(config: Config, loop: Loop, d: int) {
    && config.queueWaitJitter > 0 && loop.queueRounds < config.queueMaxRounds
    && 1 < d <= config.queueWaitMax + config.queueWaitJitter
    && loop.queueWaited + d <= config.queueWaitBudget + config.queueWaitJitter
  }

  predicate Allowed(config: Config, loop: Loop, v: Verdict) {
    match v
    case Waited(d) => WaitAllowed(config, loop, d)
    case ServerError => loop.retries5xx < config.max5xxRetries
    case _ => true
  }

  predicate GaveUp(o: Outcome) {
    o.Response? && o.kind in {NoAccount, Exhausted, QuotaExceeded}
  }

  // Calls made for one account in one pass: at most three, none after a stream.
  predicate CallsOf(made: seq<Call>, id: string) {
    |made| <= 3 && forall k :: 0 <= k < |made| ==>
      made[k].id == id && (k < |made| - 1 ==> made[k].reply != Stream)
  }

  predicate EndsInStream(made: seq<Call>) {
    made != [] && made[|made| - 1].reply == Stream
  }

  // The pass tried account `id` and went on to the next pass.
  predicate WentOn(env: Env, s: State, r: State, id: string, made: seq<Call>) {
    && r.outcome.None? && |r.log.ends| == |s.log.ends| + 1
    && var e := r.log.ends[|s.log.ends|];
    && r.log.ends == s.log.ends + [e] && e.id == id
    && r.loop == Next(s.loop, e) && Allowed(env.config, s.loop, e.verdict)
    && !EndsInStream(made)
  }

  // The pass tried account `id` and ended the run.
  predicate Halted(env: Env, s: State, r: State, id: string, made: seq<Call>) {
    && r.outcome.Some? && !GaveUp(r.outcome.value) && r.outcome.value != IndexPanic
    && r.log.ends == s.log.ends && r.loop.lastQuota == s.loop.lastQuota
    && (r.outcome.value == Relayed <==> EndsInStream(made))
    && (r.outcome.value == JitterPanic ==> env.config.queueWaitJitter <= 0)
    && (r.outcome.value.Response? ==> 400 <= r.outcome.value.status <= 599)
    && if r.outcome.value == Response(504, QueueTimeout) then
         var d := r.loop.queueWaited - s.loop.queueWaited;
         WaitAllowed(env.config, s.loop, d) && r.loop == Next(s.loop, End(id, Waited(d)))
       else r.loop.excluded == s.loop.excluded + {id} && r.loop.queueWaited == s.loop.queueWaited &&
            (r.outcome.value != JitterPanic ==> r.loop.queueRounds == s.loop.queueRounds)
  }

  // The pass ended the run without trying an account.
  predicate Stopped(s: State, r: State) {
    && r.loop == s.loop && r.log == s.log
    && r.outcome in {Some(IndexPanic), Some(GiveUp(s.loop, NoAccount)), Some(GiveUp(s.loop, Exhausted))}
  }

  // The pass tried account `id` with these calls.
  predicate Attempt(env: Env, s: State, r: State, id: string, made: seq<Call>) {
    && s.loop.attempts < env.maxAccounts && id !in s.loop.excluded
    && r.log.picks == s.log.picks + [id] && r.log.calls == s.log.calls + made && CallsOf(made, id)
    && (WentOn(env, s, r, id, made) || Halted(env, s, r, id, made))
  }

  lemma AskedShape(env: Env, vals: seq<P.EntryVal>, rr: Counter, i: nat, account: Account, t: Turn)
    requires i < |vals| && vals[i].account.id == account.id
    ensures var c := Asked(env, vals, rr, i, account, t);
            && c.account.id == account.id && 1 <= |c.made| <= 2 && c.made[|c.made| - 1].reply == c.last
            && forall k :: 0 <= k < |c.made| ==>
                 c.made[k].id == account.id && (k == 0 && |c.made| == 2 ==> c.made[0].reply != Stream)
  {
    hide Ensured, Applied;
  }

  lemma CallsShape(env: Env, vals: seq<P.EntryVal>, rr: Counter, i: nat, account: Account, t: Turn, via: T.Transport)
    requires i < |vals| && vals[i].account.id == account.id
    ensures var c := Crossed(env, Asked(env, vals, rr, i, account, t), i, t, via);
            c.account.id == account.id && CallsOf(c.made, account.id) && (EndsInStream(c.made) <==> c.last == Stream)
  {
    AskedShape(env, vals, rr, i, account, t);
    hide Asked, Applied;
  }

  lemma JudgedShape(env: Env, s: State, s1: State, i: nat, account: Account, last: Reply, made: seq<Call>, t: Turn)
    requires s1.outcome.None? && i < |s1.vals| && account.id !in s.loop.excluded
    requires s1.loop == s.loop.(excluded := s.loop.excluded + {account.id}, attempts := s.loop.attempts + 1)
    requires s1.log == Log(s.log.picks + [account.id], s.log.ends, s.log.calls + made) &&
             (EndsInStream(made) <==> last == Stream)
    ensures var r := Judged(env, s1, i, account, last, t);
            && r.log.calls == s1.log.calls && r.log.picks == s1.log.picks
            && (WentOn(env, s, r, account.id, made) || Halted(env, s, r, account.id, made))
  {
    hide Q.QueueWaitSeconds, Q.IsQuotaError, Applied, EndsInStream, ErrorText;
    assert s1.loop.excluded - {account.id} == s.loop.excluded;
  }

  lemma {:induction false} SentShape(env: Env, s: State, s1: State, i: nat, account: Account, pick: Pick, t: Turn)
      returns (made: seq<Call>)
    requires s1.outcome.None? && i < |s1.vals| && s1.vals[i].account == account
    requires account.id !in s.loop.excluded && s.loop.attempts < env.maxAccounts
    requires s1.loop == Trying(s.loop, account.id) && s1.log == s.log.(picks := s.log.picks + [account.id])
    ensures Attempt(env, s, Sent(env, s1, i, account, pick, t), account.id, made)
  {
    var noted := if pick.noted then Applied(env, s1.vals, i, P.OpSetTransport(pick.transport.Name()), 0) else s1.vals;
    assert noted[i].account == account;
    hide Applied, Judged, Asked, Crossed, CallsOf, EndsInStream, WentOn, Halted;
    CallsShape(env, noted, s1.rr, i, account, t, pick.transport);
    var c := Crossed(env, Asked(env, noted, s1.rr, i, account, t), i, t, pick.transport);
    made := c.made;
    var s2 := Heard(env, s1, c, noted, i, t);
    JudgedShape(env, s, s2, i, c.account, c.last, made, t);
  }

  // A pass that goes on without any call, and one that ends the run with a 400.
  lemma EndedShape(env: Env, s: State, r: State, id: string, v: Verdict)
    requires r.outcome.None? && id !in s.loop.excluded && s.loop.attempts < env.maxAccounts
    requires v in {RefreshFailed, NoModels, NoTransport}
    requires r.loop == Trying(s.loop, id) && r.log == Log(s.log.picks + [id], s.log.ends + [End(id, v)], s.log.calls)
    ensures Attempt(env, s, r, id, [])
  {
    assert s.log.calls + [] == s.log.calls;
  }

  lemma RefusedShape(env: Env, s: State, r: State, id: string, kind: Kind)
    requires id !in s.loop.excluded && s.loop.attempts < env.maxAccounts
    requires kind in {ModelNotFound, UnsupportedCapability} && r.outcome == Some(Response(400, kind))
    requires r.loop == Trying(s.loop, id) && r.log == s.log.(picks := s.log.picks + [id])
    ensures Attempt(env, s, r, id, [])
  {
    assert s.log.calls + [] == s.log.calls;
  }

  lemma {:induction false} TriedShape(env: Env, s: State, s1: State, i: nat, t: Turn) returns (made: seq<Call>)
    requires s1.outcome.None? && i < |s1.vals| && s1.vals[i].account.id !in s.loop.excluded
    requires s1.loop == s.loop && s1.log == s.log && s.loop.attempts < env.maxAccounts
    ensures Attempt(env, s, Tried(env, s1, i, t), s1.vals[i].account.id, made)
  {
    hide Ensured, Applied, Sent, Attempt, C.FirstModel;
    var (vals, ok) := Ensured(env, Merge(s1.vals, t.meanwhile.entries), i, false, t.renewal);
    var account := vals[i].account;
    var r := Tried(env, s1, i, t);
    made := [];
    if !ok {
      EndedShape(env, s, r, account.id, RefreshFailed);
    } else if t.catalogFailed && t.models == [] {
      EndedShape(env, s, r, account.id, NoModels);
    } else if C.FirstModel(t.models, env.model).None? {
      RefusedShape(env, s, r, account.id, ModelNotFound);
    } else if !t.capable {
      RefusedShape(env, s, r, account.id, UnsupportedCapability);
    } else if t.pick.None? {
      EndedShape(env, s, r, account.id, NoTransport);
    } else {
      var s2 := Ready(env, s1, i, t);
      made := SentShape(env, s, s2, i, account, t.pick.value, t);
    }
  }

  /** One pass either ends the run before any account is tried, or tries a healthy account that
      is not excluded. */
  lemma {:induction false} IterateShape(env: Env, s: State, t: Turn) returns (i: nat, made: seq<Call>)
    requires s.outcome.None?
    ensures var r := Iterate(env, s, t);
            Stopped(s, r) || (i < |s.vals| && Attempt(env, s, r, s.vals[i].account.id, made))
  {
    hide Tried, Attempt, Seen;
    i, made := 0, [];
    if s.loop.attempts < env.maxAccounts {
      var rr := Ticked(s.rr, t.before);
      var seen := Seen(s.vals, t);
      P.SelectionSound(seen, env.session, s.loop.excluded, env.hash, rr);
      hide P.Selection;
      var sel := Selected(env, s, t);
      if sel.Picked? {
        var s1 := Chosen(env, s, t);
        i := sel.i;
        made := TriedShape(env, s, s1, i, t);
      }
    }
  }

  function Positive(x: int): nat {
    if x > 0 then x else 0
  }

  // Accounts still to be tried and queue rounds still to be waited for.
  function Left(env: Env, loop: Loop): nat {
    Positive(env.maxAccounts - loop.attempts) + Positive(env.config.queueMaxRounds - loop.queueRounds)
  }

  /** Although the attempt counter goes down when a queued account is waited for, every pass that
      does not end the run uses up an account or a queue round. */
  lemma PassUsesUp(env: Env, s: State, t: Turn)
    requires s.outcome.None? && Iterate(env, s, t).outcome.None?
    ensures Left(env, Iterate(env, s, t).loop) == Left(env, s.loop) - 1
  {
    var i, made := IterateShape(env, s, t);
    var r := Iterate(env, s, t);
    NextUsesUp(env, s.loop, r.log.ends[|s.log.ends|]);
    hide Iterate, CallsOf, EndsInStream, Halted, Next, Allowed, Left;
  }

  lemma NextUsesUp(env: Env, loop: Loop, e: End)
    requires loop.attempts < env.maxAccounts && Allowed(env.config, loop, e.verdict)
    ensures Left(env, Next(loop, e)) == Left(env, loop) - 1
  {
  }

  function Run(env: Env, s: State, n: nat, turns: nat -> Turn): (r: State)
    requires s.outcome.None?
    ensures r.outcome.Some?
    decreases Left(env, s.loop)
  {
    var r := Iterate(env, s, turns(n));
    if r.outcome.Some? then r
    else
      PassUsesUp(env, s, turns(n));
      Run(env, r, n + 1, turns)
  }

  function Initial(vals: seq<P.EntryVal>, rr: Counter, file: seq<Account>): State {
    State(vals, rr, file, START, Log([], [], []), None)
  }

  // A whole request.
  function Chat(env: Env, vals: seq<P.EntryVal>, rr: Counter, file: seq<Account>, turns: nat -> Turn): State {
    Run(env, Initial(vals, rr, file), 0, turns)
  }

  // ---------------------------------------------------------------- the loop head

  // The loop variables are what the passes so far add up to.
  function Folded(ends: seq<End>): Loop {
    if ends == [] then START else Next(Folded(ends[..|ends| - 1]), ends[|ends| - 1])
  }

  predicate Lawful(env: Env, ends: seq<End>) {
    ends == [] ||
    (var earlier, e := ends[..|ends| - 1], ends[|ends| - 1];
     && Lawful(env, earlier)
     && Folded(earlier).attempts < env.maxAccounts && e.id !in Folded(earlier).excluded
     && Allowed(env.config, Folded(earlier), e.verdict))
  }

  function Ids(ends: seq<End>): (r: seq<string>)
    ensures |r| == |ends|
  {
    if ends == [] then [] else Ids(ends[..|ends| - 1]) + [ends[|ends| - 1].id]
  }

  predicate Head(env: Env, s: State) {
    && s.outcome.None? && s.loop == Folded(s.log.ends) && Lawful(env, s.log.ends)
    && s.log.picks == Ids(s.log.ends) && |s.log.calls| <= 3 * |s.log.ends| && NoStream(s.log.calls)
  }

  predicate NoStream(calls: seq<Call>) {
    forall k :: 0 <= k < |calls| ==> calls[k].reply != Stream
  }

  lemma StillNoStream(calls: seq<Call>, made: seq<Call>, id: string)
    requires NoStream(calls) && CallsOf(made, id) && !EndsInStream(made)
    ensures NoStream(calls + made) && |calls + made| <= |calls| + 3
  {
  }

  lemma FoldedMore(env: Env, ends: seq<End>, e: End)
    requires Lawful(env, ends) && Folded(ends).attempts < env.maxAccounts && e.id !in Folded(ends).excluded
    requires Allowed(env.config, Folded(ends), e.verdict)
    ensures Lawful(env, ends + [e]) && Folded(ends + [e]) == Next(Folded(ends), e) &&
            Ids(ends + [e]) == Ids(ends) + [e.id]
  {
    hide Allowed, Next;
    assert (ends + [e])[..|ends|] == ends;
  }

  lemma PassKeepsHead(env: Env, s: State, t: Turn)
    requires Head(env, s) && Iterate(env, s, t).outcome.None?
    ensures Head(env, Iterate(env, s, t))
  {
    var r := Iterate(env, s, t);
    hide Iterate, Next, Allowed, Halted, WaitAllowed, NoStream, CallsOf, EndsInStream, Lawful, Folded, Ids;
    var i, made := IterateShape(env, s, t);
    StillNoStream(s.log.calls, made, s.vals[i].account.id);
    FoldedMore(env, s.log.ends, r.log.ends[|s.log.ends|]);
  }

  // ---------------------------------------------------------------- account IDs

  predicate SameIds(a: seq<P.EntryVal>, b: seq<P.EntryVal>) {
    |a| == |b| && forall k :: 0 <= k < |a| ==> a[k].account.id == b[k].account.id
  }

  lemma SameIdsTrans(a: seq<P.EntryVal>, b: seq<P.EntryVal>, c: seq<P.EntryVal>)
    requires SameIds(a, b) && SameIds(b, c)
    ensures SameIds(a, c)
  {
  }

  lemma MergeKeepsIds(vals: seq<P.EntryVal>, entries: seq<P.EntryVal>)
    ensures SameIds(vals, Merge(vals, entries))
  {
  }

  lemma EnsuredKeepsIds(env: Env, vals: seq<P.EntryVal>, i: nat, force: bool, k: Renewal)
    requires i < |vals|
    ensures SameIds(vals, Ensured(env, vals, i, force, k).0)
  {
  }

  lemma AppliedKeepsIds(env: Env, vals: seq<P.EntryVal>, i: nat, op: P.Op, now: int)
    requires i < |vals| && !op.OpRefreshOk?
    ensures SameIds(vals, Applied(env, vals, i, op, now))
  {
  }

  lemma AskedKeepsIds(env: Env, vals: seq<P.EntryVal>, rr: Counter, i: nat, account: Account, t: Turn)
    requires i < |vals|
    ensures SameIds(vals, Asked(env, vals, rr, i, account, t).vals)
  {
    hide P.Refreshed, P.NeedsRefresh, Is;
  }

  lemma JudgedKeepsIds(env: Env, s: State, i: nat, account: Account, last: Reply, t: Turn)
    requires i < |s.vals|
    ensures SameIds(s.vals, Judged(env, s, i, account, last, t).vals)
  {
    hide Q.QueueWaitSeconds, Q.IsQuotaError, ErrorText, QueueGate;
  }

  lemma SentKeepsIds(env: Env, s: State, i: nat, account: Account, pick: Pick, t: Turn)
    requires i < |s.vals|
    ensures SameIds(s.vals, Sent(env, s, i, account, pick, t).vals)
  {
    hide Applied, Judged, Asked, SameIds;
    AppliedKeepsIds(env, s.vals, i, P.OpSetTransport(pick.transport.Name()), 0);
    var noted := if pick.noted then Applied(env, s.vals, i, P.OpSetTransport(pick.transport.Name()), 0) else s.vals;
    SameIdsRefl(s.vals);
    assert SameIds(s.vals, noted);
    AskedKeepsIds(env, noted, s.rr, i, account, t);
    var asked := Asked(env, noted, s.rr, i, account, t);
    SameIdsTrans(s.vals, noted, asked.vals);
    AppliedKeepsIds(env, asked.vals, i, P.OpSetTransport("cosy"), 0);
    SameIdsTrans(s.vals, asked.vals, Applied(env, asked.vals, i, P.OpSetTransport("cosy"), 0));
    var c := Crossed(env, asked, i, t, pick.transport);
    var s1 := Heard(env, s, c, noted, i, t);
    JudgedKeepsIds(env, s1, i, c.account, c.last, t);
    SameIdsTrans(s.vals, c.vals, Judged(env, s1, i, c.account, c.last, t).vals);
  }

  lemma SameIdsRefl(a: seq<P.EntryVal>)
    ensures SameIds(a, a)
  {
  }

  lemma TriedKeepsIds(env: Env, s: State, i: nat, t: Turn)
    requires i < |s.vals|
    ensures SameIds(s.vals, Tried(env, s, i, t).vals)
  {
    hide Ensured, Applied, Sent, Merge, SameIds, C.FirstModel;
    var merged := Merge(s.vals, t.meanwhile.entries);
    MergeKeepsIds(s.vals, t.meanwhile.entries);
    var (vals, ok) := Ensured(env, merged, i, false, t.renewal);
    EnsuredKeepsIds(env, merged, i, false, t.renewal);
    SameIdsTrans(s.vals, merged, vals);
    AppliedKeepsIds(env, vals, i, P.OpAuthError, t.now);
    SameIdsTrans(s.vals, vals, Applied(env, vals, i, P.OpAuthError, t.now));
    if t.pick.Some? {
      var account := vals[i].account;
      var s1 := Ready(env, s, i, t);
      SentKeepsIds(env, s1, i, account, t.pick.value, t);
      SameIdsTrans(s.vals, vals, Sent(env, s1, i, account, t.pick.value, t).vals);
    }
  }

  lemma SeenKeepsIds(vals: seq<P.EntryVal>, t: Turn)
    ensures SameIds(vals, Seen(vals, t))
  {
  }

  lemma PassKeepsIds(env: Env, s: State, t: Turn)
    requires s.outcome.None?
    ensures SameIds(s.vals, Iterate(env, s, t).vals)
  {
    hide Tried, Seen, P.Selection, SameIds;
    SameIdsRefl(s.vals);
    SeenKeepsIds(s.vals, t);
    var rr := Ticked(s.rr, t.before);
    P.SelectionSound(Seen(s.vals, t), env.session, s.loop.excluded, env.hash, rr);
    var sel := Selected(env, s, t);
    if sel.Picked? {
      var s1 := Chosen(env, s, t);
      TriedKeepsIds(env, s1, sel.i, t);
      SameIdsTrans(s.vals, s1.vals, Tried(env, s1, sel.i, t).vals);
    }
  }

  function IdSet(vals: seq<P.EntryVal>): set<string> {
    set k | 0 <= k < |vals| :: vals[k].account.id
  }

  // The entries are still those of the pool, and only their IDs are excluded.
  predicate Home(vals: seq<P.EntryVal>, s: State) {
    SameIds(vals, s.vals) && s.loop.excluded <= IdSet(vals)
  }

  lemma NextStaysHome(vals: seq<P.EntryVal>, loop: Loop, e: End, i: nat)
    requires loop.excluded <= IdSet(vals) && i < |vals| && e.id == vals[i].account.id
    ensures Next(loop, e).excluded <= IdSet(vals)
  {
    assert e.id in IdSet(vals);
  }

  lemma AttemptStaysHome(env: Env, vals: seq<P.EntryVal>, s: State, r: State, i: nat, made: seq<Call>)
    requires Home(vals, s) && i < |s.vals| && Attempt(env, s, r, s.vals[i].account.id, made) && r.outcome.None?
    ensures r.loop.excluded <= IdSet(vals)
  {
    hide CallsOf, EndsInStream, Allowed, Next, IdSet;
    assert s.vals[i].account.id == vals[i].account.id;
    NextStaysHome(vals, s.loop, r.log.ends[|s.log.ends|], i);
  }

  lemma PassKeepsHome(env: Env, vals: seq<P.EntryVal>, s: State, t: Turn)
    requires s.outcome.None? && Home(vals, s) && Iterate(env, s, t).outcome.None?
    ensures Home(vals, Iterate(env, s, t))
  {
    PassKeepsIds(env, s, t);
    var i, made := IterateShape(env, s, t);
    var r := Iterate(env, s, t);
    hide Iterate, Attempt;
    if i < |s.vals| && Attempt(env, s, r, s.vals[i].account.id, made) {
      AttemptStaysHome(env, vals, s, r, i, made);
    }
    hide SameIds;
    SameIdsTrans(vals, s.vals, r.vals);
  }

  /** The last pass of a run, and the loop head it starts from. */
  lemma {:induction false} LastPass(env: Env, vals: seq<P.EntryVal>, s: State, n: nat, turns: nat -> Turn)
    returns (h: State, m: nat)
    requires Head(env, s) && Home(vals, s)
    ensures Head(env, h) && Home(vals, h) && Run(env, s, n, turns) == Iterate(env, h, turns(m))
    ensures Run(env, s, n, turns).outcome.Some?
    decreases Left(env, s.loop)
  {
    h, m := s, n;
    var r := Iterate(env, s, turns(n));
    hide Iterate, Head, Home;
    if r.outcome.None? {
      PassKeepsHead(env, s, turns(n));
      PassKeepsHome(env, vals, s, turns(n));
      PassUsesUp(env, s, turns(n));
      h, m := LastPass(env, vals, r, n + 1, turns);
    }
  }
}
