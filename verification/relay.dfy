// The relay: parser, tag router and one of the two renderings put together
// (internal/server/server.go:545-635). Writes to the client succeed.

module Relay {
  import opened Wrappers
  import opened Events
  import opened Thinking
  import opened OpenAI
  import Sse
  import SseStream
  import QueueSignal

  // ---------------------------------------------------------------- what is handed on

  const EMPTY_DELTA := DONE.(kind := KDelta)

  // The pieces still pending when the stream is done.
  function FinalPieces(st: RouterVal): seq<Piece> {
    Group(Tagged(st.pending, st.pendingReasoning || st.inThinking))
  }

  function Finalized(st: RouterVal): RouterVal {
    st.(pending := "", pendingReasoning := if st.pending == "" then st.pendingReasoning else false)
  }

  function Handed(st: RouterVal, ev: Event): (RouterVal, seq<Event>) {
    if ev.kind == KDone then (Finalized(st), PieceEvents(ev.(kind := KDelta), FinalPieces(st)) + [ev])
    else Routed(st, ev)
  }

  // All events handed to the writer, in order.
  function HandedAll(st: RouterVal, evs: seq<Event>): (RouterVal, seq<Event>) {
    if evs == [] then (st, [])
    else
      var (s1, o1) := HandedAll(st, evs[..|evs| - 1]);
      var (s2, o2) := Handed(s1, evs[|evs| - 1]);
      (s2, o1 + o2)
  }

  // Whether something a client can show has been routed; what Finalize adds does not count.
  predicate Shows(ev: Event) {
    ev.kind == KDelta && (ev.content != "" || ev.reasoning != "" || ev.role != "" || ev.toolCalls != [])
  }

  predicate Saw(st: RouterVal, evs: seq<Event>) {
    evs != [] &&
    (Saw(st, evs[..|evs| - 1]) ||
     (evs[|evs| - 1].kind != KDone &&
      exists ev :: ev in Routed(HandedAll(st, evs[..|evs| - 1]).0, evs[|evs| - 1]).1 && Shows(ev)))
  }

  function StatusOf(err: Sse.SseError): int {
    if err.DecodeFailed? && err.e.Envelope? && QueueSignal.IsQuotaError(err.e.body) then 403 else 502
  }

  function ParseAll(d: Sse.Decoder, body: string, end: Sse.ReadEnd): Sse.Result {
    Sse.Parse(d, Sse.INITIAL, body, end, _ => true)
  }

  function StreamFrames(r: Sse.Result, includeUsage: bool, modelId: string, now: int): seq<Frame> {
    var w := WrittenAll(WriterVal(includeUsage, false, []), HandedAll(INITIAL, r.s.events).1, modelId, now);
    if r.err.None? then w.frames
    else w.frames + [FError(StatusOf(r.err.value), Saw(INITIAL, r.s.events))] + if w.done then [] else [FDone]
  }

  // ---------------------------------------------------------------- the code

  lemma HandedMore(st: RouterVal, evs: seq<Event>, k: nat)
    requires k < |evs|
    ensures var (s1, o1) := HandedAll(st, evs[..k]);
            var (s2, o2) := Handed(s1, evs[k]);
            HandedAll(st, evs[..k + 1]) == (s2, o1 + o2)
  {
    assert evs[..k + 1][..k] == evs[..k];
  }

  lemma SawMore(evs: seq<Event>, k: nat)
    requires k < |evs|
    ensures Saw(INITIAL, evs[..k + 1]) <==>
            Saw(INITIAL, evs[..k]) ||
            (evs[k].kind != KDone && exists ev :: ev in Routed(HandedAll(INITIAL, evs[..k]).0, evs[k]).1 && Shows(ev))
  {
    hide Routed;
    assert evs[..k + 1][..k] == evs[..k];
  }

  // The events put out for one parsed event.
  method HandOn(router: ThinkingRouter, ev: Event) returns (batch: seq<Event>)
    modifies router
    ensures (router.Val(), batch) == Handed(old(router.Val()), ev)
  {
    hide Run, Group, Routed;
    if ev.kind == KDone {
      var pieces := router.Finalize();
      batch := PieceEvents(ev.(kind := KDelta), pieces) + [ev];
    } else {
      batch := router.Route(ev);
    }
  }

  method RelayStream(d: Sse.Decoder, body: string, end: Sse.ReadEnd, includeUsage: bool, modelId: string, now: int)
    returns (frames: seq<Frame>, status: int)
    ensures var r := ParseAll(d, body, end);
            && frames == StreamFrames(r, includeUsage, modelId, now)
            && status == if r.err.None? then 200 else StatusOf(r.err.value)
  {
    hide Run, Group, Sse.Parse, Written, WrittenAll, HandedAll, Saw;
    var router := new ThinkingRouter();
    var parser := new Sse.Parser(d, _ => true);
    var writer := new SSEWriter(includeUsage);
    var err := parser.ParseSSE(body, end);
    var saw := RelayEvents(router, writer, parser.events, modelId, now);
    frames := writer.frames;
    if err.Some? {
      status := StatusOf(err.value);
      frames := frames + [FError(status, saw)];
      if !writer.done {
        frames := frames + [FDone];
      }
      return frames, status;
    }
    status := 200;
  }

  // What the relay does each time the parser emits an event.
  method RelayEvents(router: ThinkingRouter, writer: SSEWriter, evs: seq<Event>, modelId: string, now: int)
    returns (saw: bool)
    requires router.Val() == INITIAL && writer.Val() == WriterVal(writer.includeUsage, false, [])
    modifies router, writer
    ensures writer.Val() ==
            WrittenAll(WriterVal(writer.includeUsage, false, []), HandedAll(INITIAL, evs).1, modelId, now)
    ensures saw == Saw(INITIAL, evs)
  {
    hide Run, Group, Written, WrittenAll, HandedAll, Saw, Routed, Shows;
    saw := false;
    NothingHanded(WriterVal(writer.includeUsage, false, []), modelId, now);
    for k := 0 to |evs|
      invariant router.Val() == HandedAll(INITIAL, evs[..k]).0
      invariant writer.Val() ==
                WrittenAll(WriterVal(writer.includeUsage, false, []), HandedAll(INITIAL, evs[..k]).1, modelId, now)
      invariant saw == Saw(INITIAL, evs[..k])
    {
      HandedMore(INITIAL, evs, k);
      SawMore(evs, k);
      ghost var before := HandedAll(INITIAL, evs[..k]).1;
      var batch := HandOn(router, evs[k]);
      if evs[k].kind != KDone {
        saw := saw || (exists ev :: ev in batch && Shows(ev));
      }
      WriteBatch(writer, before, batch, modelId, now);
    }
    assert evs[..|evs|] == evs;
  }

  lemma NothingHanded(w: WriterVal, modelId: string, now: int)
    ensures HandedAll(INITIAL, []) == (INITIAL, []) && WrittenAll(w, [], modelId, now) == w && !Saw(INITIAL, [])
    ensures AddEvents(NOTHING, []) == NOTHING
  {
  }

  method WriteBatch(writer: SSEWriter, ghost before: seq<Event>, batch: seq<Event>, modelId: string, now: int)
    requires writer.Val() == WrittenAll(WriterVal(writer.includeUsage, false, []), before, modelId, now)
    modifies writer
    ensures writer.Val() == WrittenAll(WriterVal(writer.includeUsage, false, []), before + batch, modelId, now)
  {
    hide Written;
    assert before + batch[..0] == before;
    for k := 0 to |batch|
      invariant writer.Val() == WrittenAll(WriterVal(writer.includeUsage, false, []), before + batch[..k], modelId, now)
    {
      assert (before + batch[..k + 1])[..|before| + k] == before + batch[..k];
      var _ := writer.WriteEvent(batch[k], modelId, now, true);
    }
    assert batch[..|batch|] == batch;
  }

  // What the aggregate path accumulates: everything handed on except the end itself.
  function Aggregated(evs: seq<Event>): AccVal {
    AddEvents(NOTHING, HandedAll(INITIAL, evs).1)
  }

  lemma EndAddsNothing(v: AccVal)
    ensures AddEvent(v, DONE) == v
  {
    NothingAdded(v.tools);
  }

  method RelayAggregate(d: Sse.Decoder, body: string, end: Sse.ReadEnd, modelId: string, now: int)
    returns (answer: Option<Response>, status: int)
    ensures var r := ParseAll(d, body, end);
            && answer == (if r.err.None? then Some(ResponseOf(Aggregated(r.s.events), modelId, now)) else None)
            && status == if r.err.None? then 200 else StatusOf(r.err.value)
  {
    hide Run, Group, Sse.Parse, AddEvents, HandedAll, ResponseOf;
    var router := new ThinkingRouter();
    var parser := new Sse.Parser(d, _ => true);
    var acc := new Accumulator();
    var err := parser.ParseSSE(body, end);
    OnlyEndIsDone(d, body, end);
    AggregateEvents(router, acc, parser.events);
    if err.Some? {
      return None, StatusOf(err.value);
    }
    var r := acc.Respond(modelId, now);
    return Some(r), 200;
  }

  method AggregateEvents(router: ThinkingRouter, acc: Accumulator, evs: seq<Event>)
    requires router.Val() == INITIAL && acc.Val() == NOTHING
    requires forall i :: 0 <= i < |evs| && evs[i].kind == KDone ==> evs[i] == DONE
    modifies router, acc
    ensures acc.Val() == Aggregated(evs)
  {
    hide Run, Group, AddEvent, AddEvents, HandedAll, Routed;
    NothingHanded(WriterVal(false, false, []), "", 0);
    for k := 0 to |evs|
      invariant router.Val() == HandedAll(INITIAL, evs[..k]).0
      invariant acc.Val() == AddEvents(NOTHING, HandedAll(INITIAL, evs[..k]).1)
    {
      HandedMore(INITIAL, evs, k);
      ghost var before := HandedAll(INITIAL, evs[..k]).1;
      var batch: seq<Event>;
      if evs[k].kind == KDone {
        var pieces := router.Finalize();
        batch := PieceEvents(evs[k].(kind := KDelta), pieces);
        EndAbsorbed(before, batch);
      } else {
        batch := router.Route(evs[k]);
      }
      AddBatch(acc, before, batch);
    }
    assert evs[..|evs|] == evs;
  }

  lemma EndAbsorbed(before: seq<Event>, batch: seq<Event>)
    ensures AddEvents(NOTHING, before + (batch + [DONE])) == AddEvents(NOTHING, before + batch)
  {
    hide AddEvent;
    var all := before + (batch + [DONE]);
    assert all[..|all| - 1] == before + batch;
    EndAddsNothing(AddEvents(NOTHING, before + batch));
  }

  method AddBatch(acc: Accumulator, ghost before: seq<Event>, batch: seq<Event>)
    requires acc.Val() == AddEvents(NOTHING, before)
    modifies acc
    ensures acc.Val() == AddEvents(NOTHING, before + batch)
  {
    hide AddEvent;
    assert before + batch[..0] == before;
    for k := 0 to |batch|
      invariant acc.Val() == AddEvents(NOTHING, before + batch[..k])
    {
      assert (before + batch[..k + 1])[..|before| + k] == before + batch[..k];
      acc.Add(batch[k]);
    }
    assert batch[..|batch|] == batch;
  }

  lemma OnlyEndIsDone(d: Sse.Decoder, body: string, end: Sse.ReadEnd)
    ensures var r := ParseAll(d, body, end);
            SseStream.EndsWithDone(r.s) &&
            forall i :: 0 <= i < |r.s.events| && r.s.events[i].kind == KDone ==> r.s.events[i] == DONE
  {
    hide Sse.Parse;
    SseStream.OneDoneAtMost(d, Sse.INITIAL, body, end, _ => true);
    var r := ParseAll(d, body, end);
    var evs := r.s.events;
    assert r.s.done ==> forall k :: 0 <= k < |evs| - 1 ==> evs[..|evs| - 1][k] == evs[k];
  }
}
