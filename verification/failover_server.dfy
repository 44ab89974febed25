// chat as the server runs it, over the pool's entries (internal/server/server.go): proved equal
// to the run that failover.dfy specifies.

module FailoverServer {
  import opened Wrappers
  import opened Credential
  import opened Failover
  import P = Pool
  import T = TransportCache
  import C = Catalog
  import Q = QueueSignal

  class Server {
    const config: Config
    const pool: P.Pool

    constructor (config: Config, pool: P.Pool)
      ensures this.config == config && this.pool == pool
    {
      this.config, this.pool := config, pool;
    }

    function Environment(session: string, model: string, hash: string -> nat): Env
      reads pool
    {
      Env(config, |pool.entries|, pool.hasRefresher, pool.store != null, pool.recovery, session, model, hash)
    }

    // The credentials file, if there is a store.
    ghost function File(): seq<Account>
      reads pool.store
    {
      if pool.store == null then [] else pool.store.file
    }

    method Overwrite(e: P.Entry, v: P.EntryVal)
      modifies e
      ensures e.Val() == v
    {
      e.account, e.state, e.cooldownUntil, e.disabledUntil := v.account, v.state, v.cooldownUntil, v.disabledUntil;
      e.selectedTransport, e.lastError := v.transport, v.lastError;
    }

    method OverwriteAll(entries: seq<P.EntryVal>)
      requires pool.Valid()
      modifies pool.entries
      ensures pool.Vals() == Merge(old(pool.Vals()), entries)
    {
      ghost var merged := Merge(pool.Vals(), entries);
      for k := 0 to |pool.entries|
        invariant forall i :: 0 <= i < k ==> pool.entries[i].Val() == merged[i]
        invariant forall i :: k <= i < |pool.entries| ==> pool.entries[i].Val() == old(pool.entries[i].Val())
      {
        if k < |entries| {
          var v := entries[k];
          Overwrite(pool.entries[k], v.(account := v.account.(id := pool.entries[k].account.id)));
        }
      }
      assert pool.Vals() == merged;
    }

    // What the other requests do in the meantime.
    method Interfere(o: Others, ghost env: Env)
      requires pool.Valid() && env.hasStore == (pool.store != null)
      modifies pool`rr, pool.entries, pool.store
      ensures pool.Valid() && File() == Filed(env, old(File()), o)
      ensures pool.Vals() == Merge(old(pool.Vals()), o.entries) && pool.rr == Ticked(old(pool.rr), o)
    {
      hide Merge;
      OverwriteAll(o.entries);
      pool.rr := (pool.rr + o.tickets) % P.TWO_64;
      if pool.store != null && o.file.Some? {
        pool.store.file := o.file.value;
      }
    }

    method EnsureFresh(i: nat, force: bool, k: Renewal, ghost env: Env) returns (account: Account, ok: bool)
      requires pool.Valid() && i < |pool.entries|
      requires env.hasRefresher == pool.hasRefresher && env.hasStore == (pool.store != null)
      modifies pool.entries[i], pool.store
      ensures (pool.Vals(), ok) == Ensured(env, old(pool.Vals()), i, force, k)
      ensures account == pool.Vals()[i].account
      ensures File() == FileAfter(env, old(File()), old(pool.Vals()), i, force, k)
    {
      account, ok := pool.EnsureFresh(i, force, k.nowMs, k.answer, k.write);
    }

    method SetTransport(i: nat, name: string, ghost env: Env)
      requires pool.Valid() && i < |pool.entries|
      modifies pool.entries[i]
      ensures pool.Vals() == Applied(env, old(pool.Vals()), i, P.OpSetTransport(name), 0)
    {
      pool.entries[i].SetTransport(name);
      assert pool.Vals() == old(pool.Vals())[i := pool.entries[i].Val()];
    }

    // The first Chat call, and after a 401 the forced refresh and the second one.
    method Ask(i: nat, account: Account, t: Turn, ghost env: Env)
      returns (current: Account, made: seq<Call>, last: Reply)
      requires pool.Valid() && i < |pool.entries| && env.recovery == pool.recovery
      requires env.hasRefresher == pool.hasRefresher && env.hasStore == (pool.store != null)
      modifies pool`rr, pool.entries, pool.store
      ensures pool.Valid() && File() == AskedFile(env, old(File()), old(pool.Vals()), i, t)
      ensures Calls(pool.Vals(), pool.rr, current, made, last) ==
              Asked(env, old(pool.Vals()), old(pool.rr), i, account, t)
    {
      hide Merge, Ensured, Filed, FileAfter, P.Apply;
      current, last := account, t.first;
      made := [Call(account.id, account.accessToken, last)];
      if Is(last, 401) {
        Interfere(t.later, env);
        var renewed, ok := EnsureFresh(i, true, t.forced, env);
        if ok {
          current, last := renewed, t.second;
          made := made + [Call(current.id, current.accessToken, last)];
        }
        if Is(last, 401) {
          ghost var vals := pool.Vals();
          pool.MarkAuthError(i);
          assert pool.Vals() == Applied(env, vals, i, P.OpAuthError, t.now) by {
            AuthErrorHasNoTime(vals[i], t.now, env.recovery);
          }
        }
      }
    }

    lemma AuthErrorHasNoTime(v: P.EntryVal, now: int, recovery: int)
      ensures P.Apply(v, P.OpAuthError, 0, recovery) == P.Apply(v, P.OpAuthError, now, recovery)
    {
    }

    // What the last answer means.
    method Judge(i: nat, account: Account, last: Reply, t: Turn, s: Loop, l: Log, ghost env: Env)
      returns (loop: Loop, log: Log, outcome: Option<Outcome>)
      requires pool.Valid() && i < |pool.entries| && env.recovery == pool.recovery && env.config == config
      modifies pool.entries[i]
      ensures State(pool.Vals(), pool.rr, File(), loop, log, outcome) ==
              Judged(env, State(old(pool.Vals()), old(pool.rr), old(File()), s, l, None), i, account, last, t)
    {
      hide Q.QueueWaitSeconds, Q.IsQuotaError, ErrorText, P.Apply;
      loop, log, outcome := s, l, None;
      if last.Stream? {
        outcome := Some(Relayed);
        return;
      }
      var wait := Q.QueueWaitSeconds(ErrorText(last));
      if wait > 0 && config.queueMaxRounds > 0 && loop.queueRounds < config.queueMaxRounds &&
         wait <= config.queueWaitMax && loop.queueWaited + wait <= config.queueWaitBudget {
        loop := loop.(queueRounds := loop.queueRounds + 1);
        if config.queueWaitJitter <= 0 {
          outcome := Some(JitterPanic);
          return;
        }
        var jitter := t.draw % config.queueWaitJitter + 1;
        var sleep := wait + jitter;
        loop := loop.(queueWaited := loop.queueWaited + sleep);
        loop := loop.(excluded := loop.excluded - {account.id}, attempts := loop.attempts - 1);
        if t.aborted {
          outcome := Some(Response(504, QueueTimeout));
          return;
        }
        log := log.(ends := log.ends + [End(account.id, Waited(sleep))]);
        return;
      }
      if last.OtherError? {
        outcome := Some(Response(502, UpstreamNetworkError));
        return;
      }
      if last.status == 401 {
        AuthErrorHasNoTime(pool.Vals()[i], t.now, env.recovery);
        pool.MarkAuthError(i);
        log := log.(ends := log.ends + [End(account.id, Unauthorized)]);
      } else if last.status == 403 {
        if Q.IsQuotaError(last.message) {
          loop := loop.(lastQuota := Some(last.status));
          log := log.(ends := log.ends + [End(account.id, Quota)]);
        } else {
          pool.MarkDisabled(i, "Qoder returned 403", t.now);
          log := log.(ends := log.ends + [End(account.id, Forbidden)]);
        }
      } else if last.status == 429 {
        pool.MarkCooldown(i, Max(last.retryAfter, config.cooldownDefault), t.now);
        log := log.(ends := log.ends + [End(account.id, RateLimited)]);
      } else if last.status >= 500 && loop.retries5xx < config.max5xxRetries {
        loop := loop.(retries5xx := loop.retries5xx + 1);
        log := log.(ends := log.ends + [End(account.id, ServerError)]);
      } else {
        var status := last.status;
        if status < 400 || status > 599 {
          status := 502;
        }
        outcome := Some(Response(status, UpstreamError));
      }
    }

    // The Chat calls and what they mean.
    method Send(i: nat, account: Account, pick: Pick, t: Turn, s: Loop, l: Log, ghost env: Env)
      returns (loop: Loop, log: Log, outcome: Option<Outcome>)
      requires pool.Valid() && i < |pool.entries| && env.recovery == pool.recovery && env.config == config
      requires env.hasRefresher == pool.hasRefresher && env.hasStore == (pool.store != null)
      modifies pool`rr, pool.entries, pool.store
      ensures pool.Valid()
      ensures State(pool.Vals(), pool.rr, File(), loop, log, outcome) ==
              Sent(env, State(old(pool.Vals()), old(pool.rr), old(File()), s, l, None), i, account, pick, t)
    {
      hide Applied, Asked, AskedFile, Judged;
      if pick.noted {
        SetTransport(i, pick.transport.Name(), env);
      }
      var current, made, last := Ask(i, account, t, env);
      if (Is(last, 404) || Is(last, 405)) && config.transport == "auto" && pick.transport == T.Bearer {
        SetTransport(i, "cosy", env);
        last := t.fallback;
        made := made + [Call(current.id, current.accessToken, last)];
      }
      loop, log, outcome := Judge(i, current, last, t, s, l.(calls := l.calls + made), env);
    }

    // The pass once entry i has been selected.
    method Try(i: nat, t: Turn, s: Loop, l: Log, ghost env: Env, model: string)
      returns (loop: Loop, log: Log, outcome: Option<Outcome>)
      requires pool.Valid() && i < |pool.entries| && env.recovery == pool.recovery && env.config == config
      requires env.hasRefresher == pool.hasRefresher && env.hasStore == (pool.store != null) && env.model == model
      modifies pool`rr, pool.entries, pool.store
      ensures pool.Valid()
      ensures State(pool.Vals(), pool.rr, File(), loop, log, outcome) ==
              Tried(env, State(old(pool.Vals()), old(pool.rr), old(File()), s, l, None), i, t)
    {
      hide Merge, Ensured, Sent, Filed, FileAfter, C.FirstModel, P.Apply;
      loop, log, outcome := s, l, None;
      Interfere(t.meanwhile, env);
      var account, ok := EnsureFresh(i, false, t.renewal, env);
      loop := loop.(excluded := loop.excluded + {account.id}, attempts := loop.attempts + 1);
      log := log.(picks := log.picks + [account.id]);
      if !ok {
        AuthErrorHasNoTime(pool.Vals()[i], t.now, env.recovery);
        pool.MarkAuthError(i);
        log := log.(ends := log.ends + [End(account.id, RefreshFailed)]);
        return;
      }
      if t.catalogFailed && |t.models| == 0 {
        log := log.(ends := log.ends + [End(account.id, NoModels)]);
        return;
      }
      if C.FirstModel(t.models, model).None? {
        outcome := Some(Response(400, ModelNotFound));
        return;
      }
      if !t.capable {
        outcome := Some(Response(400, UnsupportedCapability));
        return;
      }
      if t.pick.None? {
        log := log.(ends := log.ends + [End(account.id, NoTransport)]);
        return;
      }
      loop, log, outcome := Send(i, account, t.pick.value, t, loop, log, env);
    }

    // Select, after whatever the other requests have done.
    method Choose(t: Turn, s: Loop, ghost l: Log, env: Env) returns (sel: P.SelectResult)
      requires pool.Valid() && env == Environment(env.session, env.model, env.hash)
      modifies pool`rr, pool.entries, pool.store
      ensures pool.Valid()
      ensures var s0 := State(old(pool.Vals()), old(pool.rr), old(File()), s, l, None);
              && sel == Selected(env, s0, t)
              && State(pool.Vals(), pool.rr, File(), s, l, None) == Chosen(env, s0, t)
      ensures sel.Picked? ==> sel.i < |pool.entries|
    {
      hide Merge, Filed, Ticked, P.Selection, P.ExpireAll;
      ghost var s0 := State(pool.Vals(), pool.rr, File(), s, l, None);
      Interfere(t.before, env);
      P.SelectionSound(Seen(s0.vals, t), env.session, s.excluded, env.hash, pool.rr);
      sel := pool.Select(env.session, s.excluded, env.hash, t.clock);
    }

    // One pass of the loop.
    method Pass(t: Turn, s: Loop, l: Log, env: Env) returns (loop: Loop, log: Log, outcome: Option<Outcome>)
      requires pool.Valid() && env == Environment(env.session, env.model, env.hash) && s.attempts < env.maxAccounts
      modifies pool`rr, pool.entries, pool.store
      ensures pool.Valid()
      ensures State(pool.Vals(), pool.rr, File(), loop, log, outcome) ==
              Iterate(env, State(old(pool.Vals()), old(pool.rr), old(File()), s, l, None), t)
    {
      hide Tried, Chosen, Selected;
      loop, log, outcome := s, l, None;
      var sel := Choose(t, s, l, env);
      match sel {
        case NoneHealthy => outcome := Some(GiveUp(loop, NoAccount));
        case IndexPanic => outcome := Some(IndexPanic);
        case Picked(i) => loop, log, outcome := Try(i, t, s, l, env, env.model);
      }
    }

    /** A chat request: it does to the pool, and answers, exactly what the specified run does. */
    method Chat(session: string, model: string, hash: string -> nat, turns: nat -> Turn)
      returns (outcome: Outcome, loop: Loop, log: Log)
      requires pool.Valid()
      modifies pool`rr, pool.entries, pool.store
      ensures pool.Valid()
      ensures State(pool.Vals(), pool.rr, File(), loop, log, Some(outcome)) ==
              Failover.Chat(old(Environment(session, model, hash)), old(pool.Vals()), old(pool.rr), old(File()), turns)
    {
      hide Iterate, Left;
      var env := Environment(session, model, hash);
      loop, log := START, Log([], [], []);
      var n := 0;
      ghost var final := Run(env, State(pool.Vals(), pool.rr, File(), loop, log, None), n, turns);
      while loop.attempts < env.maxAccounts
        invariant pool.Valid()
        invariant Run(env, State(pool.Vals(), pool.rr, File(), loop, log, None), n, turns) == final
        decreases Left(env, loop)
      {
        PassUsesUpIfItGoesOn(env, State(pool.Vals(), pool.rr, File(), loop, log, None), turns(n));
        var end;
        loop, log, end := Pass(turns(n), loop, log, env);
        if end.Some? {
          return end.value, loop, log;
        }
        n := n + 1;
      }
      outcome := GiveUp(loop, Exhausted);
      Exhaustion(env, State(pool.Vals(), pool.rr, File(), loop, log, None), turns(n));
    }

    lemma PassUsesUpIfItGoesOn(env: Env, s: State, t: Turn)
      requires s.outcome.None?
      ensures Iterate(env, s, t).outcome.None? ==> Left(env, Iterate(env, s, t).loop) < Left(env, s.loop)
    {
      hide Iterate;
      if Iterate(env, s, t).outcome.None? {
        PassUsesUp(env, s, t);
      }
    }

    lemma Exhaustion(env: Env, s: State, t: Turn)
      requires s.outcome.None? && s.loop.attempts >= env.maxAccounts
      ensures Iterate(env, s, t) == s.(outcome := Some(GiveUp(s.loop, Exhausted)))
    {
    }
  }
}
