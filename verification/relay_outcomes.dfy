// What a client is told besides the text: the status, whether something was shown before an
// error, and the header of each chunk (internal/server/server.go:558-634).

module RelayOutcomes {
  import opened Wrappers
  import opened Events
  import opened Thinking
  import opened OpenAI
  import Sse
  import SseStream
  import opened Relay
  import opened RelayTheorems
  import QueueShape
  import QueueSignal

  // ---------------------------------------------------------------- the status

  // The stream ended in an envelope whose body holds one of the quota markers.
  ghost predicate EndsInQuota(r: Sse.Result) {
    r.err.Some? && r.err.value.DecodeFailed? && r.err.value.e.Envelope? &&
    exists i :: 0 <= i < |r.err.value.e.body| && QueueShape.SpellsQuota(r.err.value.e.body[i..])
  }

  /** An error is answered with 403 if and only if it is an upstream envelope whose body spells a
      quota marker, otherwise with 502. The streaming relay writes that status into its error frame,
      and both relays return it; without an error they return 200. */
  lemma ForbiddenIffQuota(r: Sse.Result, includeUsage: bool, modelId: string, now: int)
    requires r.err.Some?
    ensures StatusOf(r.err.value) == if EndsInQuota(r) then 403 else 502
    ensures exists k :: 0 <= k < |StreamFrames(r, includeUsage, modelId, now)| &&
                        StreamFrames(r, includeUsage, modelId, now)[k] ==
                        FError(if EndsInQuota(r) then 403 else 502, Saw(INITIAL, r.s.events))
  {
    if r.err.value.DecodeFailed? && r.err.value.e.Envelope? {
      QueueShape.QuotaErrorIff(r.err.value.e.body);
    }
    hide QueueSignal.IsQuotaError, QueueShape.SpellsQuota, WrittenAll, HandedAll, Saw;
    var w := WrittenAll(WriterVal(includeUsage, false, []), HandedAll(INITIAL, r.s.events).1, modelId, now);
    assert StreamFrames(r, includeUsage, modelId, now)[|w.frames|].FError?;
  }

  // ---------------------------------------------------------------- what was shown

  // A chunk in which a client sees something.
  predicate ShowsChunk(f: Frame) {
    f.FChunk? && f.chunk.choice.Some? &&
    var c := f.chunk.choice.value;
    c.role != "" || c.content != "" || c.reasoning != "" || c.toolCalls != []
  }

  predicate AnyShown(frames: seq<Frame>) {
    exists k :: 0 <= k < |frames| && ShowsChunk(frames[k])
  }

  predicate AnyShows(evs: seq<Event>) {
    exists k :: 0 <= k < |evs| && Shows(evs[k])
  }

  lemma AnyShowsConcat(a: seq<Event>, b: seq<Event>)
    ensures AnyShows(a + b) <==> AnyShows(a) || AnyShows(b)
  {
    hide Shows;
    forall k | 0 <= k < |a| ensures (a + b)[k] == a[k] {
    }
    forall k | 0 <= k < |b| ensures (a + b)[|a| + k] == b[k] {
    }
  }

  lemma {:induction false} SawIsShows(evs: seq<Event>)
    requires SseStream.NoDone(evs)
    ensures Saw(INITIAL, evs) <==> AnyShows(HandedAll(INITIAL, evs).1)
  {
    if evs != [] {
      var n := |evs| - 1;
      SawIsShows(evs[..n]);
      var (s1, o1) := HandedAll(INITIAL, evs[..n]);
      var o2 := Handed(s1, evs[n]).1;
      AnyShowsConcat(o1, o2);
      assert AnyShows(o2) <==> exists ev :: ev in o2 && Shows(ev);
      hide Routed, Shows;
    }
  }

  lemma ShownMore(frames: seq<Frame>, f: Frame)
    ensures AnyShown(frames + [f]) <==> AnyShown(frames) || ShowsChunk(f)
  {
    hide ShowsChunk;
    forall k | 0 <= k < |frames| ensures (frames + [f])[k] == frames[k] {
    }
    assert (frames + [f])[|frames|] == f;
  }

  lemma ChunkShows(ev: Event, modelId: string, now: int)
    requires Renderable(ev) && ev.kind != KDone
    ensures ShowsChunk(FChunk(ChunkOf(ev, modelId, now))) <==> Shows(ev)
  {
  }

  lemma {:induction false} WrittenShows(w: WriterVal, evs: seq<Event>, modelId: string, now: int)
    requires AllRenderable(evs) && SseStream.NoDone(evs) && w.frames == []
    ensures AnyShown(WrittenAll(w, evs, modelId, now).frames) <==> AnyShows(evs)
    ensures WrittenAll(w, evs, modelId, now).includeUsage == w.includeUsage
  {
    if evs != [] {
      var front, ev := evs[..|evs| - 1], evs[|evs| - 1];
      WrittenShows(w, front, modelId, now);
      AnyShowsConcat(front, [ev]);
      assert evs == front + [ev] && Renderable(ev);
      assert AnyShows([ev]) <==> Shows(ev) by {
        assert [ev][0] == ev;
      }
      ChunkShows(ev, modelId, now);
      ShownMore(WrittenAll(w, front, modelId, now).frames, FChunk(ChunkOf(ev, modelId, now)));
      hide ShowsChunk, AnyShows, AnyShown, ChunkOf;
    }
  }

  /** The error frame says that the answer is partial if and only if some chunk before it shows the
      client a role, text, reasoning or a tool call. */
  lemma PartialIffShown(d: Sse.Decoder, body: string, end: Sse.ReadEnd, includeUsage: bool, modelId: string, now: int)
    requires var r := ParseAll(d, body, end); r.err.Some? && !r.s.done
    ensures var frames := StreamFrames(ParseAll(d, body, end), includeUsage, modelId, now);
            var n := |frames| - 2;
            && n >= 0 && frames[n].FError? && frames[n + 1].FDone?
            && (frames[n].partial <==> AnyShown(frames[..n]))
  {
    hide Sse.Parse, ShowsChunk, HandedAll, WrittenAll, Saw, FromParser, AllRenderable;
    SseStream.OneDoneAtMost(d, Sse.INITIAL, body, end, _ => true);
    NothingYet();
    ParseKeepsParsed(d, Sse.INITIAL, body, end, _ => true);
    var r := ParseAll(d, body, end);
    HandedRenderable(INITIAL, r.s.events);
    HandedNoDone(INITIAL, r.s.events);
    SawIsShows(r.s.events);
    var w := WriterVal(includeUsage, false, []);
    WrittenShows(w, HandedAll(INITIAL, r.s.events).1, modelId, now);
    WriterAfterParse(r.s, includeUsage, modelId, now);
    var frames := StreamFrames(r, includeUsage, modelId, now);
    assert frames[..|frames| - 2] == WrittenAll(w, HandedAll(INITIAL, r.s.events).1, modelId, now).frames;
  }

  // ---------------------------------------------------------------- headers

  datatype Head = Head(id: string, created: int, model: string)

  function HeadOf(ev: Event): Head {
    Head(ev.id, ev.created, ev.model)
  }

  // A head in which nothing is missing, and which is not the one made up for events without.
  predicate Complete(h: Head) {
    h.id != "" && h.id != "chatcmpl-qoder-proxy" && h.created != 0 && h.model != ""
  }

  predicate AllHeaded(evs: seq<Event>, h: Head) {
    forall k :: 0 <= k < |evs| ==> HeadOf(evs[k]) == h
  }

  predicate FrameHeaded(f: Frame, h: Head) {
    f.FChunk? ==> Head(f.chunk.id, f.chunk.created, f.chunk.model) == h
  }

  predicate FramesHeaded(frames: seq<Frame>, h: Head) {
    forall k :: 0 <= k < |frames| ==> FrameHeaded(frames[k], h)
  }

  lemma RoutedKeepsHead(st: RouterVal, ev: Event)
    requires ev.kind != KDone
    ensures AllHeaded(Handed(st, ev).1, HeadOf(ev))
  {
    hide Run, Group;
  }

  lemma {:induction false} HandedHeaded(evs: seq<Event>, h: Head)
    requires SseStream.NoDone(evs) && AllHeaded(evs, h)
    ensures AllHeaded(HandedAll(INITIAL, evs).1, h)
  {
    if evs != [] {
      HandedHeaded(evs[..|evs| - 1], h);
      RoutedKeepsHead(HandedAll(INITIAL, evs[..|evs| - 1]).0, evs[|evs| - 1]);
      hide Handed;
    }
  }

  lemma FramesHeadedMore(frames: seq<Frame>, f: Frame, h: Head)
    ensures FramesHeaded(frames + [f], h) <==> FramesHeaded(frames, h) && FrameHeaded(f, h)
  {
    hide FrameHeaded;
    forall k | 0 <= k < |frames| ensures (frames + [f])[k] == frames[k] {
    }
    assert (frames + [f])[|frames|] == f;
  }

  // The chunks have the head of the events they are made of, if it is complete.
  lemma {:induction false} WrittenHeaded(w: WriterVal, evs: seq<Event>, h: Head, modelId: string, now: int)
    requires AllHeaded(evs, h) && Complete(h) && FramesHeaded(w.frames, h)
    ensures FramesHeaded(WrittenAll(w, evs, modelId, now).frames, h)
  {
    if evs != [] {
      var front, ev := evs[..|evs| - 1], evs[|evs| - 1];
      WrittenHeaded(w, front, h, modelId, now);
      var u := WrittenAll(w, front, modelId, now);
      FramesHeadedMore(u.frames, FDone, h);
      FramesHeadedMore(u.frames, FChunk(ChunkOf(ev, modelId, now)), h);
    }
  }

  lemma {:induction false} WrittenConcat(w: WriterVal, a: seq<Event>, b: seq<Event>, modelId: string, now: int)
    ensures WrittenAll(w, a + b, modelId, now) == WrittenAll(WrittenAll(w, a, modelId, now), b, modelId, now)
  {
    hide Written;
    if b == [] {
      assert a + b == a;
    } else {
      assert (a + b)[..|a + b| - 1] == a + b[..|b| - 1];
      WrittenConcat(w, a, b[..|b| - 1], modelId, now);
    }
  }

  // What Finalize adds has no head of its own, and gets the one made up.
  lemma {:induction false} FinalChunksUnheaded(w: WriterVal, pieces: seq<Piece>, h: Head, modelId: string, now: int)
    requires Complete(h) && FramesHeaded(w.frames, h)
    ensures FramesHeaded(WrittenAll(w, PieceEvents(EMPTY_DELTA, pieces), modelId, now).frames, h) <==> pieces == []
  {
    var evs := PieceEvents(EMPTY_DELTA, pieces);
    if pieces != [] {
      var n := |pieces| - 1;
      assert evs[..n] == PieceEvents(EMPTY_DELTA, pieces[..n]);
      var u := WrittenAll(w, evs[..n], modelId, now);
      FramesHeadedMore(u.frames, FChunk(ChunkOf(evs[n], modelId, now)), h);
      hide FramesHeaded;
    }
  }

  lemma {:induction false} HeadAccumulates(evs: seq<Event>, h: Head)
    requires evs != [] && AllHeaded(evs, h) && Complete(h)
    ensures var v := AddEvents(NOTHING, evs); Head(v.id, v.created, v.model) == h
  {
    if |evs| > 1 {
      HeadAccumulates(evs[..|evs| - 1], h);
    }
    assert HeadOf(evs[|evs| - 1]) == h;
    hide AddTools;
  }

  lemma PendingIsFinal(st: RouterVal)
    ensures FinalPieces(st) == [] <==> st.pending == ""
  {
    var bytes := Tagged(st.pending, st.pendingReasoning || st.inThinking);
    GroupIsCanonical(bytes);
    hide Group, Tagged;
  }

  /** When all events of a stream carry the same ID, time and model, the aggregate answer carries
      them, and every chunk of the streamed one does if and only if the stream does not end inside
      what may become a tag: the chunks that bring out such a rest are made from the done event and
      go out under the default ID. */
  lemma HeadsAgreeIff(evs: seq<Event>, h: Head, includeUsage: bool, modelId: string, now: int)
    requires FromParser(evs) && SseStream.NoDone(evs) && evs != [] && AllHeaded(evs, h) && Complete(h)
    ensures var answer := ResponseOf(Aggregated(evs + [DONE]), modelId, now);
            Head(answer.id, answer.created, answer.model) == h
    ensures var handed := HandedAll(INITIAL, evs + [DONE]).1;
            FramesHeaded(WrittenAll(WriterVal(includeUsage, false, []), handed, modelId, now).frames, h) <==>
            Run(INITIAL, InputOf(evs)).0.pending == ""
  {
    hide AddEvents, AllBytes, Project, WrittenAll, FinalPieces, HandedAll, Run, Group, FromParser, SseStream.NoDone,
         AllHeaded, InputOf, CallsBelow;
    OnlyTextIsRouted(evs);
    HeadAccumulates(evs, h);
    HandedWithEnd(evs);
    HandedCarries(evs);
    HandedHeaded(evs, h);
    var (st, handed) := HandedAll(INITIAL, evs);
    PendingIsFinal(st);
    var rest := PieceEvents(EMPTY_DELTA, FinalPieces(st));
    var w := WriterVal(includeUsage, false, []);
    WrittenHeaded(w, handed, h, modelId, now);
    var u := WrittenAll(w, handed, modelId, now);
    WrittenConcat(w, handed, rest + [DONE], modelId, now);
    WrittenConcat(u, rest, [DONE], modelId, now);
    FinalChunksUnheaded(u, FinalPieces(st), h, modelId, now);
    DoneKeepsHeads(WrittenAll(u, rest, modelId, now), h, modelId, now);
  }

  lemma DoneKeepsHeads(w: WriterVal, h: Head, modelId: string, now: int)
    ensures FramesHeaded(WrittenAll(w, [DONE], modelId, now).frames, h) <==> FramesHeaded(w.frames, h)
  {
    assert [DONE][..0] == [];
    assert WrittenAll(w, [], modelId, now) == w;
    FramesHeadedMore(w.frames, FDone, h);
    hide FramesHeaded;
  }
}
