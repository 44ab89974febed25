// Which transport is used under which configuration (internal/server/server.go:469-534), said
// without the steps of the protocol.

module TransportModes {
  import opened Wrappers
  import opened TransportCache

  // ---------------------------------------------------------------- a configured transport

  // The attempt has used only transport t, and is about to use no other.
  predicate Only(a: Attempt, t: Transport) {
    && (forall k :: 0 <= k < |a.chats| ==> a.chats[k].via == t)
    && match a.pc
       case AskBearer => t == Bearer
       case AskCosy => t == Cosy
       case Store(u) => u == t
       case Call(u) => u == t
       case CallAgain(u) => u == t
       case FallBack => false
       case CallCosy => t == Cosy
       case _ => true
  }

  lemma StepKeepsOnly(mode: string, cache: Cache, a: Attempt, x: Answer, t: Transport)
    requires (mode == "bearer" && t == Bearer) || (mode == "cosy" && t == Cosy)
    requires Only(a, t)
    ensures Only(Advance(mode, cache, a, x).1, t)
  {
    hide Class, FallbackClass, Key, Concrete, Cached;
  }

  /** With a transport configured, every Chat call of every request, in every interleaving and
      whatever the probes and the upstream answer, goes by that transport. */
  lemma {:induction false} ConfiguredIsUsed(mode: string, t: Transport, s: State, schedule: seq<Label>)
    requires (mode == "bearer" && t == Bearer) || (mode == "cosy" && t == Cosy)
    requires forall i :: 0 <= i < |s.attempts| ==> s.attempts[i].pc == Read && s.attempts[i].chats == []
    ensures forall i :: 0 <= i < |s.attempts| ==> Only(Run(mode, s, schedule).attempts[i], t)
  {
    hide Advance;
    if schedule != [] {
      ConfiguredIsUsed(mode, t, s, schedule[..|schedule| - 1]);
      var r, l := Run(mode, s, schedule[..|schedule| - 1]), schedule[|schedule| - 1];
      if l.who < |r.attempts| {
        StepKeepsOnly(mode, r.cache, r.attempts[l.who], l.answer, t);
      }
      hide Only;
    }
  }

  // ---------------------------------------------------------------- the automatic choice

  const TIERS := {"auto", "ultimate", "performance", "efficient", "lite"}

  /** What an uninterrupted pick ends with. A name that is cached and not overruled by the
      configuration is used unprobed and stored no second time. Otherwise a concrete model, or COSY
      configured, needs the COSY probe; a tier, or Bearer configured, the Bearer probe; and a tier
      whose Bearer probe is answered with a 404 falls to COSY, unless Bearer is configured. */
  lemma PickDecides(mode: string, cached: string, modelKey: string, bearer: Probe, cosy: Probe)
    requires mode in {"auto", "bearer", "cosy"}
    ensures var p := Picked(mode, cached, modelKey, bearer, cosy);
            var byCosy := Pick(if cosy == ProbeOk then Some(Cosy) else None, cosy == ProbeOk);
            p == if cached == "bearer" && mode != "cosy" then Pick(Some(Bearer), false)
                 else if cached == "cosy" && mode != "bearer" then Pick(Some(Cosy), false)
                 else if mode == "cosy" || (mode == "auto" && modelKey != "" && modelKey !in TIERS) then byCosy
                 else if bearer == ProbeOk then Pick(Some(Bearer), true)
                 else if mode == "auto" && bearer == ProbeHttp(404) then byCosy
                 else Pick(None, false)
  {
  }

  // ---------------------------------------------------------------- what shares a cache entry

  /** All tiers share a cache class, and with the empty key; every other model has its own, and a
      crossing writes the class that the next pick for the model reads. */
  lemma ClassesApart(a: string, b: string)
    ensures var tierA, tierB := a == "" || a in TIERS, b == "" || b in TIERS;
            Class(a) == Class(b) <==> (tierA && tierB) || (!tierA && !tierB && a == b)
    ensures a != "" ==> FallbackClass(a) == Class(a)
  {
    assert ("concrete:" + a)[9..] == a && ("concrete:" + b)[9..] == b;
    assert ("concrete:" + a)[0] == 'c' && ("concrete:" + b)[0] == 'c' && "tier"[0] == 't';
  }
}
