// The choice between the Bearer and the COSY endpoint, and the cache that all requests share
// (internal/server/server.go, pickTransport, isRouterTier and the 404/405 fallback in chat).

module TransportCache {
  import opened Wrappers
  import P = Pool

  datatype Transport = Bearer | Cosy {
    function Name(): string {
      if this == Bearer then "bearer" else "cosy"
    }
  }

  // A probe's outcome; ProbeFailed is an error that carries no HTTP status.
  datatype Probe = ProbeOk | ProbeHttp(status: int) | ProbeFailed

  type Cache = map<string, string>

  predicate IsRouterTier(model: string) {
    model == "auto" || model == "ultimate" || model == "performance" || model == "efficient" || model == "lite"
  }

  // A model that needs the COSY request shape.
  predicate Concrete(modelKey: string) {
    modelKey != "" && !IsRouterTier(modelKey)
  }

  // The cache class when a transport is picked, and the one chat writes after a 404 or 405:
  // they differ for the empty model key, with which chat is never reached.
  function Class(modelKey: string): string {
    if Concrete(modelKey) then "concrete:" + modelKey else "tier"
  }

  function FallbackClass(modelKey: string): string {
    if IsRouterTier(modelKey) then "tier" else "concrete:" + modelKey
  }

  function Key(id: string, class_: string): string {
    id + "|" + class_
  }

  // A missing key reads as the empty string.
  function Cached(cache: Cache, key: string): string {
    if key in cache then cache[key] else ""
  }

  // ---------------------------------------------------------------- one attempt, step by step

  datatype Reply = Stream | Http(status: int) | NetworkError

  datatype PC = Read | AskBearer | AskCosy | Store(t: Transport) | Call(t: Transport) | CallAgain(t: Transport)
              | FallBack | CallCosy | Finished

  datatype Chat = Chat(via: Transport, reply: Reply)

  // One pass of the failover loop from picking a transport to the last Chat call.
  datatype Attempt = Attempt(id: string, modelKey: string, pc: PC, chats: seq<Chat>)

  // What the outside world answers to a step: a probe, a Chat call, and whether the forced
  // token refresh after a 401 worked.
  datatype Answer = Answer(probe: Probe, reply: Reply, refreshed: bool)

  function AfterRead(mode: string, cached: string, modelKey: string): PC {
    if mode == "bearer" then if cached == "bearer" then Call(Bearer) else AskBearer
    else if mode == "cosy" then if cached == "cosy" then Call(Cosy) else AskCosy
    else if cached == "bearer" then Call(Bearer)
    else if cached == "cosy" then Call(Cosy)
    else if Concrete(modelKey) then AskCosy
    else AskBearer
  }

  function AfterBearerProbe(mode: string, probe: Probe): PC {
    if probe.ProbeOk? then Store(Bearer)
    else if mode != "bearer" && probe == ProbeHttp(404) then AskCosy
    else Finished
  }

  predicate Absent(reply: Reply) {
    reply == Http(404) || reply == Http(405)
  }

  function AfterReply(mode: string, t: Transport, reply: Reply): PC {
    if Absent(reply) && mode == "auto" && t == Bearer then FallBack else Finished
  }

  // One step; each touches the cache at most once, under its lock.
  function Advance(mode: string, cache: Cache, a: Attempt, x: Answer): (Cache, Attempt) {
    match a.pc
    case Read => (cache, a.(pc := AfterRead(mode, Cached(cache, Key(a.id, Class(a.modelKey))), a.modelKey)))
    case AskBearer => (cache, a.(pc := AfterBearerProbe(mode, x.probe)))
    case AskCosy => (cache, a.(pc := if x.probe.ProbeOk? then Store(Cosy) else Finished))
    case Store(t) => (cache[Key(a.id, Class(a.modelKey)) := t.Name()], a.(pc := Call(t)))
    case Call(t) =>
      (cache, a.(chats := a.chats + [Chat(t, x.reply)],
                 pc := if x.reply == Http(401) && x.refreshed then CallAgain(t) else AfterReply(mode, t, x.reply)))
    case CallAgain(t) =>
      (cache, a.(chats := a.chats + [Chat(t, x.reply)], pc := AfterReply(mode, t, x.reply)))
    case FallBack => (cache[Key(a.id, FallbackClass(a.modelKey)) := Cosy.Name()], a.(pc := CallCosy))
    case CallCosy => (cache, a.(chats := a.chats + [Chat(Cosy, x.reply)], pc := Finished))
    case Finished => (cache, a)
  }

  // ---------------------------------------------------------------- all requests together

  datatype State = State(cache: Cache, attempts: seq<Attempt>)
  datatype Label = Label(who: nat, answer: Answer)

  function Step(mode: string, s: State, l: Label): (r: State)
    ensures |r.attempts| == |s.attempts|
  {
    if l.who >= |s.attempts| then s
    else
      var (cache, a) := Advance(mode, s.cache, s.attempts[l.who], l.answer);
      State(cache, s.attempts[l.who := a])
  }

  function Run(mode: string, s: State, schedule: seq<Label>): (r: State)
    ensures |r.attempts| == |s.attempts|
  {
    if schedule == [] then s
    else Step(mode, Run(mode, s, schedule[..|schedule| - 1]), schedule[|schedule| - 1])
  }

  predicate Initial(s: State, ids: set<string>) {
    s.cache == map[] && forall i :: 0 <= i < |s.attempts| ==>
      s.attempts[i].id in ids && s.attempts[i].pc == Read && s.attempts[i].chats == []
  }

  // ---------------------------------------------------------------- never Bearer for a concrete model

  predicate Misrouted(a: Attempt) {
    Concrete(a.modelKey) && exists k :: 0 <= k < |a.chats| && a.chats[k].via == Bearer
  }

  ghost predicate NeverMisroutes(ids: set<string>) {
    forall s: State, schedule, i | Initial(s, ids) && 0 <= i < |s.attempts| ::
      !Misrouted(Run("auto", s, schedule).attempts[i])
  }

  // No account ID continues another one with a class name.
  ghost predicate KeysApart(ids: set<string>) {
    forall a, b | a in ids && b in ids :: !(Key(a, "concrete:") <= b)
  }

  ghost predicate TierKey(key: string, ids: set<string>) {
    exists b :: b in ids && key == Key(b, "tier")
  }

  ghost predicate CacheInv(cache: Cache, ids: set<string>) {
    forall key :: key in cache && cache[key] == "bearer" ==> TierKey(key, ids)
  }

  predicate UsesBearer(pc: PC) {
    pc == AskBearer || pc == Store(Bearer) || pc == Call(Bearer) || pc == CallAgain(Bearer) || pc == FallBack
  }

  ghost predicate AttemptInv(a: Attempt, ids: set<string>) {
    a.id in ids && (Concrete(a.modelKey) ==> !UsesBearer(a.pc)) && !Misrouted(a)
  }

  // "tier" is shorter than the end of "|concrete:", in which there is no separator.
  lemma BoundaryOutside(a: string, b: string, modelKey: string)
    requires modelKey != "" && Key(a, "concrete:" + modelKey) == Key(b, "tier")
    ensures |Key(a, "concrete:")| <= |b|
  {
    var k := Key(b, "tier");
    var prefix := Key(a, "concrete:");
    assert k == prefix + modelKey && k[|b|] == '|';
    assert forall i :: |a| + 6 <= i < |prefix| ==> prefix[i] == "ete:"[i - |a| - 6];
    assert forall i :: |a| + 6 <= i < |prefix| ==> k[i] != '|';
  }

  /** A concrete class and a tier class share a key only if one account ID continues another. */
  lemma KeyCollision(a: string, b: string, modelKey: string)
    requires modelKey != "" && Key(a, "concrete:" + modelKey) == Key(b, "tier")
    ensures Key(a, "concrete:") <= b
  {
    var k := Key(b, "tier");
    var prefix := Key(a, "concrete:");
    assert k == prefix + modelKey;
    BoundaryOutside(a, b, modelKey);
    assert prefix == k[..|prefix|] == b[..|prefix|];
  }

  lemma StepKeepsAttempt(mode: string, cache: Cache, a: Attempt, x: Answer, ids: set<string>)
    requires mode == "auto" && KeysApart(ids) && CacheInv(cache, ids) && AttemptInv(a, ids)
    ensures AttemptInv(Advance(mode, cache, a, x).1, ids)
  {
    var key := Key(a.id, Class(a.modelKey));
    if a.pc == Read && Concrete(a.modelKey) && Cached(cache, key) == "bearer" {
      var b :| b in ids && key == Key(b, "tier");
      KeyCollision(a.id, b, a.modelKey);
    }
    hide IsRouterTier, CacheInv, KeysApart;
  }

  lemma StepKeepsCache(mode: string, cache: Cache, a: Attempt, x: Answer, ids: set<string>)
    requires CacheInv(cache, ids) && AttemptInv(a, ids)
    ensures CacheInv(Advance(mode, cache, a, x).0, ids)
  {
    hide IsRouterTier, KeysApart;
    if a.pc == Store(Bearer) {
      assert TierKey(Key(a.id, Class(a.modelKey)), ids);
    }
  }

  ghost predicate Inv(s: State, ids: set<string>) {
    CacheInv(s.cache, ids) && forall i :: 0 <= i < |s.attempts| ==> AttemptInv(s.attempts[i], ids)
  }

  /** In auto mode the cache maps no concrete-model class to Bearer, in any interleaving. */
  lemma {:induction false} InvAlong(s: State, schedule: seq<Label>, ids: set<string>)
    requires KeysApart(ids) && Initial(s, ids)
    ensures Inv(Run("auto", s, schedule), ids)
  {
    hide AttemptInv, CacheInv, KeysApart, Advance;
    if schedule == [] {
      forall i | 0 <= i < |s.attempts| ensures AttemptInv(s.attempts[i], ids) {
        InitialAttempt(s.attempts[i], ids);
      }
      EmptyCache(ids);
    } else {
      InvAlong(s, schedule[..|schedule| - 1], ids);
      var r := Run("auto", s, schedule[..|schedule| - 1]);
      var l := schedule[|schedule| - 1];
      if l.who < |r.attempts| {
        StepKeepsAttempt("auto", r.cache, r.attempts[l.who], l.answer, ids);
        StepKeepsCache("auto", r.cache, r.attempts[l.who], l.answer, ids);
      }
    }
  }

  lemma InitialAttempt(a: Attempt, ids: set<string>)
    requires a.id in ids && a.pc == Read && a.chats == []
    ensures AttemptInv(a, ids)
  {
  }

  lemma EmptyCache(ids: set<string>)
    ensures CacheInv(map[], ids)
  {
  }

  // The misrouting run: a tier request under ID b is probed and cached as Bearer, then a
  // request under ID a for a concrete model whose key reads the same entry calls Bearer.
  function Culprits(a: string, b: string): State
    requires Key(a, "concrete:") <= b
  {
    var m := Key(b, "tier")[|Key(a, "concrete:")|..];
    State(map[], [Attempt(b, "auto", Read, []), Attempt(a, m, Read, [])])
  }

  function Chain(): seq<Label> {
    var x := Answer(ProbeOk, Stream, false);
    [Label(0, x), Label(0, x), Label(0, x), Label(1, x), Label(1, x)]
  }

  // The key of the second request in a misrouting pair.
  lemma CulpritKey(a: string, b: string)
    requires Key(a, "concrete:") <= b
    ensures var m := Key(b, "tier")[|Key(a, "concrete:")|..];
            Concrete(m) && Key(a, Class(m)) == Key(b, "tier")
  {
    var prefix := Key(a, "concrete:");
    var m := Key(b, "tier")[|prefix|..];
    assert Key(b, "tier") == prefix + m;
    assert m == b[|prefix|..] + "|tier";
    assert m[|m| - 5] == '|';
    NoBarInTier(m, |m| - 5);
    assert Key(a, "concrete:" + m) == prefix + m;
  }

  lemma NoBarInTier(m: string, i: nat)
    requires i < |m| && m[i] == '|'
    ensures Concrete(m)
  {
  }

  // A request for a tier that nothing is cached for.
  lemma FirstRequest(b: string, x: Answer)
    requires x.probe == ProbeOk
    ensures var a0 := Attempt(b, "auto", Read, []);
            var (c1, a1) := Advance("auto", map[], a0, x);
            var (c2, a2) := Advance("auto", c1, a1, x);
            Advance("auto", c2, a2, x) == (map[Key(b, "tier") := "bearer"], a0.(pc := Call(Bearer)))
  {
  }

  lemma SecondRequest(cache: Cache, a: string, m: string, x: Answer)
    requires Cached(cache, Key(a, Class(m))) == "bearer"
    ensures var a0 := Attempt(a, m, Read, []);
            var (c1, a1) := Advance("auto", cache, a0, x);
            var (c2, a2) := Advance("auto", c1, a1, x);
            a2.chats == [Chat(Bearer, x.reply)] && a2.modelKey == m
  {
    hide IsRouterTier;
  }

  lemma CollisionMisroutes(a: string, b: string)
    requires Key(a, "concrete:") <= b
    ensures Misrouted(Run("auto", Culprits(a, b), Chain()).attempts[1])
  {
    var s, c := Culprits(a, b), Chain();
    var x := Answer(ProbeOk, Stream, false);
    CulpritKey(a, b);
    FirstRequest(b, x);
    SecondRequest(map[Key(b, "tier") := "bearer"], a, s.attempts[1].modelKey, x);
    hide Advance, Class, Concrete, Key, Cached;
    assert c[..5] == c && c[..4][..3] == c[..3] && c[..3][..2] == c[..2] && c[..2][..1] == c[..1] && c[..1][..0] == [];
    assert Run("auto", s, c[..0]) == s;
    var s1 := Run("auto", s, c[..1]);
    assert s1 == Step("auto", s, c[0]);
    var s2 := Run("auto", s, c[..2]);
    assert s2 == Step("auto", s1, c[1]);
    var s3 := Run("auto", s, c[..3]);
    assert s3 == Step("auto", s2, c[2]);
    var s4 := Run("auto", s, c[..4]);
    assert s4 == Step("auto", s3, c[3]);
    assert Run("auto", s, c) == Step("auto", s4, c[4]);
    var r := Run("auto", s, c).attempts[1];
    assert r.chats[0].via == Bearer;
  }

  /** Transport safety, exactly: in auto mode no interleaving of any requests ever sends a
      concrete model to the Bearer endpoint, if and only if no account ID in use starts with
      another one followed by "|concrete:". */
  lemma TransportSafety(ids: set<string>)
    ensures NeverMisroutes(ids) <==> KeysApart(ids)
  {
    hide Advance, Key, Concrete;
    if KeysApart(ids) {
      forall s: State, schedule, i | Initial(s, ids) && 0 <= i < |s.attempts|
        ensures !Misrouted(Run("auto", s, schedule).attempts[i])
      {
        InvAlong(s, schedule, ids);
        assert AttemptInv(Run("auto", s, schedule).attempts[i], ids);
      }
    } else {
      var a, b :| a in ids && b in ids && Key(a, "concrete:") <= b;
      CollisionMisroutes(a, b);
      assert Initial(Culprits(a, b), ids);
    }
  }

  /** IDs without the separator are safe. */
  lemma PlainIdsAreSafe(ids: set<string>)
    requires forall a :: a in ids ==> '|' !in a
    ensures NeverMisroutes(ids)
  {
    forall a, b | a in ids && b in ids ensures !(Key(a, "concrete:") <= b) {
      assert Key(a, "concrete:")[|a|] == '|';
    }
    TransportSafety(ids);
  }

  // ---------------------------------------------------------------- one crossing at most

  // Every earlier call failed before a stream was opened; the transport changes only from
  // Bearer to COSY, only after a 404 or 405 in auto mode, and so never changes back.
  ghost predicate Orderly(mode: string, chats: seq<Chat>) {
    && |chats| <= 3
    && (forall j, k :: 0 <= j < k < |chats| && k == j + 1 ==>
          && chats[j].reply.Http?
          && (chats[j].via != chats[k].via ==> mode == "auto" && chats[k].via == Cosy && Absent(chats[j].reply)))
    && forall j, k :: 0 <= j <= k < |chats| && chats[j].via == Cosy ==> chats[k].via == Cosy
  }

  // Where the attempt stands, from the calls it has made.
  predicate InStep(mode: string, a: Attempt) {
    match a.pc
    case CallAgain(t) => a.chats == [Chat(t, Http(401))]
    case FallBack => CanFallBack(mode, a.chats)
    case CallCosy => CanFallBack(mode, a.chats)
    case Finished => true
    case _ => a.chats == []
  }

  predicate CanFallBack(mode: string, chats: seq<Chat>) {
    && mode == "auto" && 1 <= |chats| <= 2
    && (forall k :: 0 <= k < |chats| ==> chats[k].via == Bearer && chats[k].reply.Http?)
    && Absent(chats[|chats| - 1].reply)
  }

  lemma CallIsOrderly(mode: string, t: Transport, reply: Reply)
    ensures Orderly(mode, [Chat(t, reply)])
    ensures AfterReply(mode, t, reply) == FallBack ==> CanFallBack(mode, [Chat(t, reply)])
  {
  }

  lemma CallAgainIsOrderly(mode: string, t: Transport, reply: Reply)
    ensures var chats := [Chat(t, Http(401))] + [Chat(t, reply)];
            && Orderly(mode, chats)
            && (AfterReply(mode, t, reply) == FallBack ==> CanFallBack(mode, chats))
  {
  }

  lemma CallCosyIsOrderly(mode: string, chats: seq<Chat>, reply: Reply)
    requires CanFallBack(mode, chats)
    ensures Orderly(mode, chats + [Chat(Cosy, reply)])
  {
  }

  lemma AdvanceIsOrderly(mode: string, cache: Cache, a: Attempt, x: Answer)
    requires Orderly(mode, a.chats) && InStep(mode, a)
    ensures var r := Advance(mode, cache, a, x).1; Orderly(mode, r.chats) && InStep(mode, r)
  {
    AfterReadFacts(mode, Cached(cache, Key(a.id, Class(a.modelKey))), a.modelKey, x.probe);
    AfterReplyFacts(mode, x.reply);
    hide IsRouterTier, Key, Class, FallbackClass, AfterRead, AfterBearerProbe, AfterReply, Cached, Orderly, CanFallBack;
    match a.pc {
      case Call(t) =>
        CallIsOrderly(mode, t, x.reply);
        assert a.chats + [Chat(t, x.reply)] == [Chat(t, x.reply)];
      case CallAgain(t) => CallAgainIsOrderly(mode, t, x.reply);
      case CallCosy => CallCosyIsOrderly(mode, a.chats, x.reply);
      case _ =>
    }
  }

  lemma AfterReplyFacts(mode: string, reply: Reply)
    ensures forall t :: AfterReply(mode, t, reply) == FallBack || AfterReply(mode, t, reply) == Finished
  {
  }

  lemma AfterReadFacts(mode: string, cached: string, modelKey: string, probe: Probe)
    ensures var pc := AfterRead(mode, cached, modelKey); pc.Call? || pc == AskBearer || pc == AskCosy
    ensures var pc := AfterBearerProbe(mode, probe); pc.Store? || pc == AskCosy || pc == Finished
  {
    hide IsRouterTier;
  }

  /** In every mode and every interleaving, each attempt makes at most three Chat calls and
      crosses from Bearer to COSY at most once, after a 404 or 405, no stream being open. */
  lemma {:induction false} OneCrossing(mode: string, s: State, ids: set<string>, schedule: seq<Label>, i: nat)
    requires Initial(s, ids) && i < |s.attempts|
    ensures var a := Run(mode, s, schedule).attempts[i]; Orderly(mode, a.chats) && InStep(mode, a)
  {
    hide Advance;
    if schedule != [] {
      OneCrossing(mode, s, ids, schedule[..|schedule| - 1], i);
      hide Orderly, InStep;
      var r := Run(mode, s, schedule[..|schedule| - 1]);
      var l := schedule[|schedule| - 1];
      if l.who == i {
        AdvanceIsOrderly(mode, r.cache, r.attempts[i], l.answer);
      }
    }
  }

  // ---------------------------------------------------------------- is the crossing remembered?

  // What the attempt's next step writes under that key, if anything.
  function Writes(a: Attempt, key: string): Option<Transport> {
    match a.pc
    case Store(t) => if Key(a.id, Class(a.modelKey)) == key then Some(t) else None
    case FallBack => if Key(a.id, FallbackClass(a.modelKey)) == key then Some(Cosy) else None
    case _ => None
  }

  function LastWrite(mode: string, s: State, schedule: seq<Label>, key: string): Option<Transport> {
    if schedule == [] then None
    else
      var before := Run(mode, s, schedule[..|schedule| - 1]);
      var l := schedule[|schedule| - 1];
      var w := if l.who < |before.attempts| then Writes(before.attempts[l.who], key) else None;
      if w.Some? then w else LastWrite(mode, s, schedule[..|schedule| - 1], key)
  }

  lemma StepWrites(mode: string, s: State, l: Label, key: string)
    requires l.who < |s.attempts|
    ensures var w := Writes(s.attempts[l.who], key);
            Cached(Step(mode, s, l).cache, key) == if w.Some? then w.value.Name() else Cached(s.cache, key)
  {
    hide Class, FallbackClass, Key, AfterRead, AfterBearerProbe, AfterReply;
  }

  lemma {:induction false} CacheIsLastWrite(mode: string, s: State, schedule: seq<Label>, key: string)
    ensures var w := LastWrite(mode, s, schedule, key);
            Cached(Run(mode, s, schedule).cache, key) == if w.Some? then w.value.Name() else Cached(s.cache, key)
  {
    hide Writes, Advance, Cached;
    if schedule != [] {
      var earlier, l := schedule[..|schedule| - 1], schedule[|schedule| - 1];
      CacheIsLastWrite(mode, s, earlier, key);
      var r := Run(mode, s, earlier);
      if l.who < |r.attempts| {
        StepWrites(mode, r, l, key);
      }
    }
  }

  // Attempt l.who is about to record its crossing under that key.
  predicate FallsBack(s: State, l: Label, key: string) {
    l.who < |s.attempts| && s.attempts[l.who].pc == FallBack &&
    key == Key(s.attempts[l.who].id, FallbackClass(s.attempts[l.who].modelKey))
  }

  /** After a crossing, whatever else runs, an attempt that reads the key uses COSY if and only
      if the last write since is not a late Store of Bearer. */
  lemma CrossingReadIff(s: State, l: Label, key: string, more: seq<Label>, modelKey: string)
    requires FallsBack(s, l, key)
    ensures var r := Step("auto", s, l);
            AfterRead("auto", Cached(Run("auto", r, more).cache, key), modelKey) ==
            if LastWrite("auto", r, more, key) == Some(Bearer) then Call(Bearer) else Call(Cosy)
  {
    hide Advance, Key, Run, LastWrite;
    StepWrites("auto", s, l, key);
    CacheIsLastWrite("auto", Step("auto", s, l), more, key);
  }

  // An attempt that read the key before the crossing and has not stored its own finding yet.
  predicate Pending(a: Attempt, key: string) {
    Key(a.id, Class(a.modelKey)) == key && (a.pc == AskBearer || a.pc == Store(Bearer))
  }

  predicate NonePending(s: State, key: string) {
    forall j :: 0 <= j < |s.attempts| ==> !Pending(s.attempts[j], key)
  }

  lemma StepKeepsCosy(s: State, l: Label, key: string)
    requires Cached(s.cache, key) == "cosy" && NonePending(s, key)
    ensures Cached(Step("auto", s, l).cache, key) == "cosy" && NonePending(Step("auto", s, l), key)
  {
    hide Class, FallbackClass, Key;
    if l.who < |s.attempts| {
      assert !Pending(s.attempts[l.who], key);
    }
  }

  lemma {:induction false} CosyStays(s: State, schedule: seq<Label>, key: string)
    requires Cached(s.cache, key) == "cosy" && NonePending(s, key)
    ensures Cached(Run("auto", s, schedule).cache, key) == "cosy" && NonePending(Run("auto", s, schedule), key)
  {
    hide Step, Cached, NonePending;
    if schedule != [] {
      CosyStays(s, schedule[..|schedule| - 1], key);
      StepKeepsCosy(Run("auto", s, schedule[..|schedule| - 1]), schedule[|schedule| - 1], key);
    }
  }

  // The two steps by which a pending attempt overwrites the entry.
  function Overwrite(j: nat): seq<Label> {
    [Label(j, Answer(ProbeOk, Stream, false)), Label(j, Answer(ProbeOk, Stream, false))]
  }

  lemma PendingOverwrites(s: State, j: nat, key: string)
    requires j < |s.attempts| && Pending(s.attempts[j], key)
    ensures Cached(Run("auto", s, Overwrite(j)[..if s.attempts[j].pc == AskBearer then 2 else 1]).cache, key) ==
            "bearer"
  {
    var x := Answer(ProbeOk, Stream, false);
    var o := Overwrite(j);
    assert o[..2] == o && o[..2][..1] == o[..1] && o[..1][..0] == [];
    assert Run("auto", s, o[..1][..0]) == s;
    assert Run("auto", s, o[..1]) == Step("auto", s, Label(j, x));
    assert Run("auto", s, o[..2]) == Step("auto", Step("auto", s, Label(j, x)), Label(j, x));
    hide Class, Key, Run;
  }

  ghost predicate StaysCosy(s: State, key: string) {
    forall more :: Cached(Run("auto", s, more).cache, key) == "cosy"
  }

  /** A crossing is remembered for good, in every continuation, if and only if at that moment no
      other attempt that reads the same key is between its read and its store. */
  lemma CrossingSticksIff(s: State, l: Label, key: string)
    requires FallsBack(s, l, key)
    ensures StaysCosy(Step("auto", s, l), key) <==> NonePending(Step("auto", s, l), key)
  {
    hide Advance, Key, Pending, Run;
    var r := Step("auto", s, l);
    StepWrites("auto", s, l, key);
    if NonePending(r, key) {
      forall more ensures Cached(Run("auto", r, more).cache, key) == "cosy" {
        CosyStays(r, more, key);
      }
    } else {
      var j :| 0 <= j < |r.attempts| && Pending(r.attempts[j], key);
      PendingOverwrites(r, j, key);
    }
  }

  lemma RunStep(mode: string, s: State, schedule: seq<Label>, k: nat)
    requires k < |schedule|
    ensures Run(mode, s, schedule[..k + 1]) == Step(mode, Run(mode, s, schedule[..k]), schedule[k])
  {
    assert schedule[..k + 1][..k] == schedule[..k];
  }

  // Two requests for the same tier read the empty cache; the first one stores Bearer, gets a 404
  // and crosses, and only then the second one stores Bearer.
  function Racing(id: string): State {
    State(map[], [Attempt(id, "auto", Read, []), Attempt(id, "auto", Read, [])])
  }

  function Race(): seq<Label> {
    var ok := Answer(ProbeOk, Stream, false);
    var gone := Answer(ProbeOk, Http(404), false);
    [Label(0, ok), Label(1, ok), Label(0, ok), Label(1, ok), Label(0, ok), Label(0, gone), Label(0, ok), Label(1, ok)]
  }

  // Both have read and probed.
  lemma RaceStarts(id: string)
    ensures var bearer := Attempt(id, "auto", Store(Bearer), []);
            Run("auto", Racing(id), Race()[..4]) == State(map[], [bearer, bearer])
  {
    var s, c := Racing(id), Race();
    RunStep("auto", s, c, 0);
    RunStep("auto", s, c, 1);
    RunStep("auto", s, c, 2);
    RunStep("auto", s, c, 3);
    assert c[..0] == [];
    assert Run("auto", s, c[..0]) == s by {
      RunNothing("auto", s);
    }
    hide Run;
  }

  lemma RunNothing(mode: string, s: State)
    ensures Run(mode, s, []) == s
  {
  }

  lemma AutoIsTier()
    ensures Class("auto") == "tier" && FallbackClass("auto") == "tier"
  {
  }

  // The first request stores, is answered with a 404 and crosses.
  function Crossing(id: string, pc: PC, cache: Cache, chats: seq<Chat>): State {
    State(cache, [Attempt(id, "auto", pc, chats), Attempt(id, "auto", Store(Bearer), [])])
  }

  lemma RaceCrosses(id: string)
    ensures var gone := [Chat(Bearer, Http(404))];
            var key := Key(id, "tier");
            && Run("auto", Racing(id), Race()[..6]) == Crossing(id, FallBack, map[key := "bearer"], gone)
            && Run("auto", Racing(id), Race()[..7]) == Crossing(id, CallCosy, map[key := "bearer"][key := "cosy"], gone)
  {
    RaceStarts(id);
    AutoIsTier();
    hide Run, Key, Class, FallbackClass, IsRouterTier;
    var s, c, key := Racing(id), Race(), Key(id, "tier");
    RunStep("auto", s, c, 4);
    assert Run("auto", s, c[..5]) == Crossing(id, Call(Bearer), map[key := "bearer"], []);
    RunStep("auto", s, c, 5);
    assert [] + [Chat(Bearer, Http(404))] == [Chat(Bearer, Http(404))];
    RunStep("auto", s, c, 6);
  }

  /** So a crossing on an ordinary tier can be forgotten: in this run from the start the first
      request has crossed, and the next one that reads the cache is sent to Bearer again. */
  lemma CrossingCanBeForgotten(id: string)
    ensures Initial(Racing(id), {id})
    ensures FallsBack(Run("auto", Racing(id), Race()[..6]), Race()[6], Key(id, "tier"))
    ensures var r := Run("auto", Racing(id), Race());
            AfterRead("auto", Cached(r.cache, Key(id, Class("auto"))), "auto") == Call(Bearer)
  {
    RaceCrosses(id);
    AutoIsTier();
    hide Run, Key, Class, FallbackClass, IsRouterTier;
    var s, c := Racing(id), Race();
    RunStep("auto", s, c, 7);
    assert c[..8] == c;
  }

  // ---------------------------------------------------------------- the method

  // The transport that is used, if any, and whether it was cached and noted on the entry.
  datatype Pick = Pick(transport: Option<Transport>, stored: bool)

  // An uninterrupted pick: the steps above, from the cached name on.
  function Picked(mode: string, cached: string, modelKey: string, bearer: Probe, cosy: Probe): Pick {
    var read := AfterRead(mode, cached, modelKey);
    var asked := if read == AskBearer then AfterBearerProbe(mode, bearer) else read;
    var settled := if asked == AskCosy then if cosy.ProbeOk? then Store(Cosy) else Finished else asked;
    match settled
    case Call(t) => Pick(Some(t), false)
    case Store(t) => Pick(Some(t), true)
    case _ => Pick(None, false)
  }

  // The attempt alone, for some steps or until its transport is settled.
  function Settled(mode: string, cache: Cache, a: Attempt, bearer: Probe, cosy: Probe, steps: nat): (Cache, Attempt)
    decreases steps
  {
    if steps == 0 || a.pc.Call? || a.pc.Finished? then (cache, a)
    else
      var (c, b) := Advance(mode, cache, a, Answer(if a.pc == AskBearer then bearer else cosy, Stream, false));
      Settled(mode, c, b, bearer, cosy, steps - 1)
  }

  /** pickTransport is four steps of the protocol run without interruption. */
  lemma PickIsARun(mode: string, cache: Cache, a: Attempt, bearer: Probe, cosy: Probe)
    requires a.pc == Read
    ensures var key := Key(a.id, Class(a.modelKey));
            var p := Picked(mode, Cached(cache, key), a.modelKey, bearer, cosy);
            Settled(mode, cache, a, bearer, cosy, 4) ==
            (if p.stored then cache[key := p.transport.value.Name()] else cache,
             a.(pc := if p.transport.Some? then Call(p.transport.value) else Finished))
  {
    hide IsRouterTier, Key, Class, Cached;
    var read := a.(pc := AfterRead(mode, Cached(cache, Key(a.id, Class(a.modelKey))), a.modelKey));
    assert Settled(mode, cache, a, bearer, cosy, 4) == Settled(mode, cache, read, bearer, cosy, 3);
    var asked := if read.pc == AskBearer then read.(pc := AfterBearerProbe(mode, bearer)) else read;
    assert read.pc == AskBearer ==>
        Settled(mode, cache, read, bearer, cosy, 3) == Settled(mode, cache, asked, bearer, cosy, 2);
    AskedSettles(mode, cache, asked, bearer, cosy, 2);
    AskedSettles(mode, cache, asked, bearer, cosy, 3);
  }

  lemma AskedSettles(mode: string, cache: Cache, a: Attempt, bearer: Probe, cosy: Probe, steps: nat)
    requires a.pc.Call? || a.pc.Finished? || a.pc.Store? || a.pc == AskCosy
    requires steps >= 2
    ensures var settled := if a.pc == AskCosy then if cosy.ProbeOk? then Store(Cosy) else Finished else a.pc;
            Settled(mode, cache, a, bearer, cosy, steps) ==
            if settled.Store? then (cache[Key(a.id, Class(a.modelKey)) := settled.t.Name()], a.(pc := Call(settled.t)))
            else (cache, a.(pc := settled))
  {
    hide IsRouterTier, Key, Class, Cached;
    if a.pc == AskCosy {
      var b := a.(pc := if cosy.ProbeOk? then Store(Cosy) else Finished);
      assert Settled(mode, cache, a, bearer, cosy, steps) == Settled(mode, cache, b, bearer, cosy, steps - 1);
      if b.pc.Store? {
        var c := cache[Key(a.id, Class(a.modelKey)) := Cosy.Name()];
        assert Settled(mode, cache, b, bearer, cosy, steps - 1) ==
               Settled(mode, c, b.(pc := Call(Cosy)), bearer, cosy, steps - 2);
      }
    }
  }

  class Transports {
    const mode: string
    var cache: Cache

    constructor (mode: string)
      ensures this.mode == mode && cache == map[]
    {
      this.mode := mode;
      cache := map[];
    }

    method Remember(key: string, t: Transport, entry: P.Entry)
      modifies this, entry
      ensures cache == old(cache)[key := t.Name()]
      ensures entry.Val() == P.Apply(old(entry.Val()), P.OpSetTransport(t.Name()), 0, 0)
    {
      cache := cache[key := t.Name()];
      entry.SetTransport(t.Name());
    }

    // Use the transport if it is cached or its probe succeeds.
    method Forced(entry: P.Entry, key: string, cached: string, forced: Transport, probe: Probe)
      returns (t: Option<Transport>)
      modifies this, entry
      ensures var stored := cached != forced.Name() && probe.ProbeOk?;
              && t == (if cached == forced.Name() || stored then Some(forced) else None)
              && cache == (if stored then old(cache)[key := forced.Name()] else old(cache))
              && entry.Val() == (if stored then P.Apply(old(entry.Val()), P.OpSetTransport(forced.Name()), 0, 0)
                                 else old(entry.Val()))
    {
      hide P.Apply;
      if cached == forced.Name() {
        return Some(forced);
      }
      if !probe.ProbeOk? {
        return None;
      }
      Remember(key, forced, entry);
      return Some(forced);
    }

    // The rest of pickTransport: no transport is configured.
    method Automatic(entry: P.Entry, key: string, cached: string, modelKey: string, bearer: Probe, cosy: Probe)
      returns (t: Option<Transport>)
      requires mode != "bearer" && mode != "cosy"
      modifies this, entry
      ensures var p := Picked(mode, cached, modelKey, bearer, cosy);
              && t == p.transport
              && cache == (if p.stored then old(cache)[key := t.value.Name()] else old(cache))
              && entry.Val() == (if p.stored then P.Apply(old(entry.Val()), P.OpSetTransport(t.value.Name()), 0, 0)
                                 else old(entry.Val()))
    {
      hide IsRouterTier, Concrete, P.Apply;
      if cached == "bearer" {
        return Some(Bearer);
      }
      if cached == "cosy" {
        return Some(Cosy);
      }
      if Concrete(modelKey) {
        t := Forced(entry, key, cached, Cosy, cosy);
        return;
      }
      if bearer.ProbeOk? {
        Remember(key, Bearer, entry);
        return Some(Bearer);
      }
      if bearer != ProbeHttp(404) {
        return None;
      }
      if !cosy.ProbeOk? {
        return None;
      }
      Remember(key, Cosy, entry);
      return Some(Cosy);
    }

    // pickTransport; the arguments bearer and cosy say how a probe would end.
    method PickTransport(entry: P.Entry, id: string, modelKey: string, bearer: Probe, cosy: Probe)
      returns (t: Option<Transport>)
      modifies this, entry
      ensures var key := Key(id, Class(modelKey));
              var p := Picked(mode, old(Cached(cache, key)), modelKey, bearer, cosy);
              && t == p.transport
              && cache == (if p.stored then old(cache)[key := t.value.Name()] else old(cache))
              && entry.Val() == (if p.stored then P.Apply(old(entry.Val()), P.OpSetTransport(t.value.Name()), 0, 0)
                                 else old(entry.Val()))
    {
      hide Class, Concrete, Key, Cached, IsRouterTier, P.Apply;
      var key := Key(id, Class(modelKey));
      var cached := Cached(cache, key);
      if mode == "bearer" {
        t := Forced(entry, key, cached, Bearer, bearer);
      } else if mode == "cosy" {
        t := Forced(entry, key, cached, Cosy, cosy);
      } else {
        t := Automatic(entry, key, cached, modelKey, bearer, cosy);
      }
    }
  }
}
