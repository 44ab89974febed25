// What a client gets, whichever way it asked (internal/server/server.go:545-635).

module RelayTheorems {
  import opened Wrappers
  import opened Events
  import opened Thinking
  import opened OpenAI
  import Sse
  import SseStream
  import opened Relay

  // ---------------------------------------------------------------- where the text goes

  // The characters sent to one channel.
  function Project(bs: seq<Byte>, reasoning: bool): string {
    if bs == [] then ""
    else Project(bs[..|bs| - 1], reasoning) + if bs[|bs| - 1].reasoning == reasoning then [bs[|bs| - 1].c] else ""
  }

  lemma {:induction false} ProjectConcat(a: seq<Byte>, b: seq<Byte>, reasoning: bool)
    ensures Project(a + b, reasoning) == Project(a, reasoning) + Project(b, reasoning)
  {
    if b == [] {
      assert a + b == a;
    } else {
      assert (a + b)[..|a + b| - 1] == a + b[..|b| - 1];
      ProjectConcat(a, b[..|b| - 1], reasoning);
    }
  }

  lemma {:induction false} ProjectTagged(s: string, from: bool, reasoning: bool)
    ensures Project(Tagged(s, from), reasoning) == if from == reasoning then s else ""
  {
    if s != "" {
      assert Tagged(s, from)[..|s| - 1] == Tagged(s[..|s| - 1], from);
      ProjectTagged(s[..|s| - 1], from, reasoning);
      assert s == s[..|s| - 1] + [s[|s| - 1]];
    }
  }

  // The three texts of a sequence of events.
  predicate Carries(evs: seq<Event>, bytes: seq<Byte>, tools: seq<ToolCallDelta>) {
    && Contents(evs) == Project(bytes, false)
    && Reasonings(evs) == Project(bytes, true)
    && ToolDeltas(evs) == tools
  }

  lemma {:induction false} ContentsConcat(a: seq<Event>, b: seq<Event>)
    ensures Contents(a + b) == Contents(a) + Contents(b)
  {
    if b == [] {
      assert a + b == a;
    } else {
      assert (a + b)[..|a + b| - 1] == a + b[..|b| - 1];
      ContentsConcat(a, b[..|b| - 1]);
    }
  }

  lemma {:induction false} ReasoningsConcat(a: seq<Event>, b: seq<Event>)
    ensures Reasonings(a + b) == Reasonings(a) + Reasonings(b)
  {
    if b == [] {
      assert a + b == a;
    } else {
      assert (a + b)[..|a + b| - 1] == a + b[..|b| - 1];
      ReasoningsConcat(a, b[..|b| - 1]);
    }
  }

  lemma {:induction false} ToolDeltasConcat(a: seq<Event>, b: seq<Event>)
    ensures ToolDeltas(a + b) == ToolDeltas(a) + ToolDeltas(b)
  {
    if b == [] {
      assert a + b == a;
    } else {
      assert (a + b)[..|a + b| - 1] == a + b[..|b| - 1];
      ToolDeltasConcat(a, b[..|b| - 1]);
    }
  }

  lemma CarriesMeans(evs: seq<Event>, bytes: seq<Byte>, tools: seq<ToolCallDelta>)
    ensures Carries(evs, bytes, tools) <==>
            Contents(evs) == Project(bytes, false) && Reasonings(evs) == Project(bytes, true) &&
                ToolDeltas(evs) == tools
  {
  }

  lemma CarriesConcat(a: seq<Event>, ba: seq<Byte>, ta: seq<ToolCallDelta>, b: seq<Event>, bb: seq<Byte>,
      tb: seq<ToolCallDelta>)
    requires Carries(a, ba, ta) && Carries(b, bb, tb)
    ensures Carries(a + b, ba + bb, ta + tb)
  {
    hide *;
    CarriesMeans(a, ba, ta);
    CarriesMeans(b, bb, tb);
    CarriesMeans(a + b, ba + bb, ta + tb);
    ContentsConcat(a, b);
    ReasoningsConcat(a, b);
    ToolDeltasConcat(a, b);
    ProjectConcat(ba, bb, false);
    ProjectConcat(ba, bb, true);
  }

  predicate IsBare(base: Event) {
    base.content == "" && base.reasoning == "" && base.toolCalls == []
  }

  lemma {:induction false} PiecesCarry(base: Event, pieces: seq<Piece>)
    requires IsBare(base)
    ensures Carries(PieceEvents(base, pieces), Flatten(pieces), [])
  {
    if pieces != [] {
      var n := |pieces| - 1;
      var evs := PieceEvents(base, pieces);
      PiecesCarry(base, pieces[..n]);
      assert evs[..n] == PieceEvents(base, pieces[..n]);
      var last := Tagged(pieces[n].text, pieces[n].reasoning);
      ProjectConcat(Flatten(pieces[..n]), last, false);
      ProjectConcat(Flatten(pieces[..n]), last, true);
      ProjectTagged(pieces[n].text, pieces[n].reasoning, false);
      ProjectTagged(pieces[n].text, pieces[n].reasoning, true);
    }
  }

  // The bytes an event feeds into the router: reasoning first, then content.
  function BytesOf(ev: Event): seq<Byte> {
    if ev.kind == KDelta then Tagged(ev.reasoning, true) + Tagged(ev.content, false) else []
  }

  function InputOf(evs: seq<Event>): seq<Byte> {
    if evs == [] then [] else InputOf(evs[..|evs| - 1]) + BytesOf(evs[|evs| - 1])
  }

  lemma OneCarries(ev: Event)
    ensures ev.content == "" && ev.reasoning == "" ==> Carries([ev], [], ev.toolCalls)
  {
    assert [ev][..0] == [];
  }

  lemma GroupCarries(base: Event, bytes: seq<Byte>)
    requires IsBare(base)
    ensures Carries(PieceEvents(base, Group(bytes)), bytes, [])
  {
    PiecesCarry(base, Group(bytes));
    GroupIsCanonical(bytes);
  }

  lemma RoutedCarries(st: RouterVal, ev: Event)
    requires ev.kind == KDelta
    ensures Routed(st, ev).0 == Run(st, BytesOf(ev)).0
    ensures Carries(Routed(st, ev).1, Run(st, BytesOf(ev)).1, ev.toolCalls)
  {
    hide Run, Group, Carries;
    var base := Bare(ev);
    var (s1, o1) := Run(st, Tagged(ev.reasoning, true));
    var (s2, o2) := Run(s1, Tagged(ev.content, false));
    RunConcat(st, Tagged(ev.reasoning, true), Tagged(ev.content, false));
    var role := if ev.role != "" then [base.(role := ev.role)] else [];
    var tools := if ev.toolCalls != [] then [base.(toolCalls := ev.toolCalls)] else [];
    var finish := if ev.finishReason.Some? then [base.(finishReason := ev.finishReason)] else [];
    NoneCarries();
    OneCarries(base.(role := ev.role));
    OneCarries(base.(toolCalls := ev.toolCalls));
    OneCarries(base.(finishReason := ev.finishReason));
    OneCarries(base);
    GroupCarries(base, o1);
    GroupCarries(base, o2);
    var a, b := PieceEvents(base, Group(o1)), PieceEvents(base, Group(o2));
    CarriesConcat(role, [], [], a, o1, []);
    CarriesConcat(role + a, [] + o1, [] + [], b, o2, []);
    CarriesConcat(role + a + b, [] + o1 + o2, [] + [] + [], tools, [], ev.toolCalls);
    CarriesConcat(role + a + b + tools, [] + o1 + o2 + [], [] + [] + [] + ev.toolCalls, finish, [], []);
    assert [] + o1 + o2 + [] + [] == o1 + o2;
    assert [] + [] + [] + ev.toolCalls + [] == ev.toolCalls;
    if role + a + b + tools + finish == [] {
      EmptyCarries(o1 + o2, ev.toolCalls, base);
    }
  }

  lemma NoneCarries()
    ensures Carries([], [], [])
  {
  }

  lemma EmptyCarries(bytes: seq<Byte>, tools: seq<ToolCallDelta>, base: Event)
    requires Carries([], bytes, tools) && IsBare(base)
    ensures Carries([base], bytes, tools)
  {
    assert [base][..0] == [];
  }

  predicate FromParser(evs: seq<Event>) {
    forall i :: 0 <= i < |evs| ==> Sse.IsParsed(evs[i]) || evs[i] == DONE
  }

  lemma {:induction false} HandedCarries(evs: seq<Event>)
    requires FromParser(evs) && SseStream.NoDone(evs)
    ensures HandedAll(INITIAL, evs).0 == Run(INITIAL, InputOf(evs)).0
    ensures Carries(HandedAll(INITIAL, evs).1, Run(INITIAL, InputOf(evs)).1, ToolDeltas(evs))
  {
    hide Run, Group, Routed;
    if evs == [] {
      NoneCarries();
      RunNothing(INITIAL);
    } else {
      var n := |evs| - 1;
      var before := evs[..n];
      HandedCarries(before);
      var (s1, o1) := HandedAll(INITIAL, before);
      RunConcat(INITIAL, InputOf(before), BytesOf(evs[n]));
      var out := Run(s1, BytesOf(evs[n])).1;
      if evs[n].kind == KDelta {
        RoutedCarries(s1, evs[n]);
      } else {
        UsageIsHandedOn(s1, evs[n]);
      }
      CarriesConcat(o1, Run(INITIAL, InputOf(before)).1, ToolDeltas(before), Handed(s1, evs[n]).1, out,
          evs[n].toolCalls);
    }
  }

  lemma UsageIsHandedOn(st: RouterVal, ev: Event)
    requires Sse.IsParsed(ev) && ev.kind == KUsage
    ensures Handed(st, ev) == (st, [ev]) && Run(st, BytesOf(ev)) == (st, [])
    ensures Carries([ev], [], ev.toolCalls)
  {
    OneCarries(ev);
  }

  // Everything the one-byte automaton puts out for the events, with what Finalize adds.
  function AllBytes(evs: seq<Event>): seq<Byte> {
    var (st, out) := Run(INITIAL, InputOf(evs));
    out + Tagged(st.pending, st.pendingReasoning || st.inThinking)
  }

  lemma HandedWithEnd(evs: seq<Event>)
    ensures var (st, handed) := HandedAll(INITIAL, evs);
            HandedAll(INITIAL, evs + [DONE]).1 == handed + (PieceEvents(EMPTY_DELTA, FinalPieces(st)) + [DONE])
  {
    hide Group, Tagged, Routed;
    assert (evs + [DONE])[..|evs|] == evs;
  }

  // What is handed on before the end carries all the bytes and all the tool deltas.
  lemma AllCarried(evs: seq<Event>)
    requires FromParser(evs) && SseStream.NoDone(evs)
    ensures var (st, handed) := HandedAll(INITIAL, evs);
            Carries(handed + PieceEvents(EMPTY_DELTA, FinalPieces(st)), AllBytes(evs), ToolDeltas(evs))
  {
    hide Run, Group, HandedAll, InputOf, ToolDeltas, Tagged, Carries, FromParser;
    HandedCarries(evs);
    var (st, out) := Run(INITIAL, InputOf(evs));
    var last := Tagged(st.pending, st.pendingReasoning || st.inThinking);
    GroupCarries(EMPTY_DELTA, last);
    CarriesConcat(HandedAll(INITIAL, evs).1, out, ToolDeltas(evs), PieceEvents(EMPTY_DELTA, FinalPieces(st)), last, []);
    assert ToolDeltas(evs) + [] == ToolDeltas(evs);
  }

  lemma CarriedIsAdded(handed: seq<Event>, bytes: seq<Byte>, tools: seq<ToolCallDelta>)
    requires Carries(handed, bytes, tools)
    ensures var v := AddEvents(NOTHING, handed);
            && v.content == Project(bytes, false) && v.reasoning == Project(bytes, true)
            && v.tools == AddTools(map[], tools)
  {
    AccumulatesInOrder(handed);
    CarriesMeans(handed, bytes, tools);
    hide *;
  }

  /** The answer, from the stream: content and reasoning are the two channels of the tag
      automaton run over all the text of the stream, the tools are the tool deltas by index. */
  lemma AnswerIsRoutedText(evs: seq<Event>)
    requires FromParser(evs) && SseStream.NoDone(evs)
    ensures var v := Aggregated(evs + [DONE]);
            && v.content == Project(AllBytes(evs), false)
            && v.reasoning == Project(AllBytes(evs), true)
            && v.tools == AddTools(map[], ToolDeltas(evs))
  {
    hide Group, FinalPieces, HandedAll, AddEvents, AddTools, AllBytes, Project, ToolDeltas, Carries, FromParser,
        SseStream.NoDone;
    HandedWithEnd(evs);
    AllCarried(evs);
    var (st, handed) := HandedAll(INITIAL, evs);
    var rest := PieceEvents(EMPTY_DELTA, FinalPieces(st));
    EndAbsorbed(handed, rest);
    CarriedIsAdded(handed + rest, AllBytes(evs), ToolDeltas(evs));
  }

  /** How the upstream cuts the text into deltas makes no difference to the answer's texts. */
  lemma AnswerIgnoresChunking(a: seq<Event>, b: seq<Event>)
    requires FromParser(a) && SseStream.NoDone(a) && FromParser(b) && SseStream.NoDone(b)
    requires InputOf(a) == InputOf(b)
    ensures Aggregated(a + [DONE]).content == Aggregated(b + [DONE]).content
    ensures Aggregated(a + [DONE]).reasoning == Aggregated(b + [DONE]).reasoning
  {
    AnswerIsRoutedText(a);
    AnswerIsRoutedText(b);
  }

  // ---------------------------------------------------------------- everything but the text

  // What the texts and tools are set apart from: id, model, role, time, usage, finish reason.
  function Meta(v: AccVal): AccVal {
    v.(content := "", reasoning := "", tools := map[])
  }

  // The event without its text and tools.
  function Header(ev: Event): Event {
    ev.(content := "", reasoning := "", toolCalls := [])
  }

  lemma MetaStep(v: AccVal, ev: Event)
    ensures Meta(AddEvent(v, ev)) == AddEvent(Meta(v), Header(ev))
  {
  }

  // The same headers give the same values.
  lemma {:induction false} MetaAlong(v: AccVal, w: AccVal, evs: seq<Event>)
    requires Meta(v) == Meta(w)
    ensures Meta(AddEvents(v, evs)) == Meta(AddEvents(w, evs))
  {
    hide AddEvent, Meta, Header;
    if evs != [] {
      var n := |evs| - 1;
      MetaAlong(v, w, evs[..n]);
      MetaStep(AddEvents(v, evs[..n]), evs[n]);
      MetaStep(AddEvents(w, evs[..n]), evs[n]);
    }
  }

  lemma TwiceIsOnce(m: AccVal, ev: Event)
    requires Meta(m) == m
    ensures AddEvent(Meta(AddEvent(m, Header(ev))), Header(ev)) == Meta(AddEvent(m, Header(ev)))
  {
  }

  lemma {:induction false} PiecesMeta(v: AccVal, base: Event, pieces: seq<Piece>)
    requires Header(base) == base
    ensures Meta(AddEvents(v, PieceEvents(base, pieces))) ==
            if pieces == [] then Meta(v) else Meta(AddEvent(v, base))
  {
    var evs := PieceEvents(base, pieces);
    if pieces != [] {
      var n := |pieces| - 1;
      assert evs[..n] == PieceEvents(base, pieces[..n]);
      PiecesMeta(v, base, pieces[..n]);
      var before := AddEvents(v, evs[..n]);
      assert Header(evs[n]) == base;
      MetaStep(before, evs[n]);
      MetaStep(v, base);
      if n > 0 {
        TwiceIsOnce(Meta(v), base);
      }
    }
  }

  lemma OneMeta(v: AccVal, ev: Event)
    ensures Meta(AddEvents(v, [ev])) == AddEvent(Meta(v), Header(ev))
    ensures AddEvents(v, []) == v
  {
    assert [ev][..0] == [];
    MetaStep(v, ev);
    hide AddEvent, Meta, Header;
  }

  // A part of what is put out for one event: nothing, or one event.
  function Optional(m: AccVal, given: bool, ev: Event): AccVal {
    if given then AddEvent(m, ev) else m
  }

  // The parts together note what the event itself notes.
  lemma PartsMeta(m: AccVal, ev: Event, first: bool, second: bool)
    requires Meta(m) == m
    ensures var base := Bare(ev);
            var m1 := Optional(m, ev.role != "", base.(role := ev.role));
            var m2 := Optional(Optional(m1, first, base), second, base);
            var m3 := Optional(m2, ev.toolCalls != [], base);
            var m4 := Optional(m3, ev.finishReason.Some?, base.(finishReason := ev.finishReason));
            var none := ev.role == "" && !first && !second && ev.toolCalls == [] && ev.finishReason.None?;
            Optional(m4, none, base) == AddEvent(m, Header(ev))
  {
  }

  lemma PartMeta(v: AccVal, given: bool, ev: Event, base: Event)
    requires Header(ev) == base
    ensures Meta(AddEvents(v, if given then [ev] else [])) == Optional(Meta(v), given, base)
  {
    OneMeta(v, ev);
  }

  lemma PiecePartMeta(v: AccVal, base: Event, pieces: seq<Piece>)
    requires Header(base) == base
    ensures Meta(AddEvents(v, PieceEvents(base, pieces))) == Optional(Meta(v), pieces != [], base)
  {
    PiecesMeta(v, base, pieces);
    MetaStep(v, base);
  }

  lemma RoutedMeta(v: AccVal, st: RouterVal, ev: Event)
    requires ev.kind == KDelta
    ensures Meta(AddEvents(v, Routed(st, ev).1)) == Meta(AddEvent(v, ev))
  {
    hide Run, Group, AddEvent, AddEvents, Meta, Optional;
    var base := Bare(ev);
    var (s1, o1) := Run(st, Tagged(ev.reasoning, true));
    var (s2, o2) := Run(s1, Tagged(ev.content, false));
    var role := if ev.role != "" then [base.(role := ev.role)] else [];
    var a, b := PieceEvents(base, Group(o1)), PieceEvents(base, Group(o2));
    var tools := if ev.toolCalls != [] then [base.(toolCalls := ev.toolCalls)] else [];
    var finish := if ev.finishReason.Some? then [base.(finishReason := ev.finishReason)] else [];
    var v1 := AddEvents(v, role);
    PartMeta(v, ev.role != "", base.(role := ev.role), base.(role := ev.role));
    var v2 := AddEvents(v1, a);
    AddEventsConcat(v, role, a);
    PiecePartMeta(v1, base, Group(o1));
    var v3 := AddEvents(v2, b);
    AddEventsConcat(v, role + a, b);
    PiecePartMeta(v2, base, Group(o2));
    var v4 := AddEvents(v3, tools);
    AddEventsConcat(v, role + a + b, tools);
    PartMeta(v3, ev.toolCalls != [], base.(toolCalls := ev.toolCalls), base);
    var v5 := AddEvents(v4, finish);
    AddEventsConcat(v, role + a + b + tools, finish);
    PartMeta(v4, ev.finishReason.Some?, base.(finishReason := ev.finishReason),
        base.(finishReason := ev.finishReason));
    var all := role + a + b + tools + finish;
    var rest := if all == [] then [base] else [];
    AddEventsConcat(v, all, rest);
    PartMeta(v5, all == [], base, base);
    assert all + rest == Routed(st, ev).1;
    MetaIsMeta(v);
    PartsMeta(Meta(v), ev, Group(o1) != [], Group(o2) != []);
    MetaStep(v, ev);
  }

  lemma MetaIsMeta(v: AccVal)
    ensures Meta(Meta(v)) == Meta(v)
  {
  }

  lemma HandedOneMeta(v: AccVal, w: AccVal, st: RouterVal, ev: Event)
    requires Meta(v) == Meta(w) && ev.kind != KDone
    ensures Meta(AddEvents(v, Handed(st, ev).1)) == Meta(AddEvent(w, ev))
  {
    MetaStep(v, ev);
    MetaStep(w, ev);
    OneMeta(v, ev);
    if ev.kind == KDelta {
      RoutedMeta(v, st, ev);
    }
    hide AddEvent, AddEvents, Meta, Header;
  }

  lemma {:induction false} HandedMeta(evs: seq<Event>)
    requires SseStream.NoDone(evs)
    ensures Meta(AddEvents(NOTHING, HandedAll(INITIAL, evs).1)) == Meta(AddEvents(NOTHING, evs))
  {
    hide AddEvent, Meta, Handed;
    if evs != [] {
      var n := |evs| - 1;
      HandedMeta(evs[..n]);
      var (s1, o1) := HandedAll(INITIAL, evs[..n]);
      AddEventsConcat(NOTHING, o1, Handed(s1, evs[n]).1);
      HandedOneMeta(AddEvents(NOTHING, o1), AddEvents(NOTHING, evs[..n]), s1, evs[n]);
    }
  }

  lemma EndMeta(v: AccVal, pieces: seq<Piece>)
    ensures Meta(AddEvents(v, PieceEvents(EMPTY_DELTA, pieces))) == Meta(v)
  {
    PiecesMeta(v, EMPTY_DELTA, pieces);
    MetaStep(v, EMPTY_DELTA);
  }

  /** Only the texts are routed: in everything else the answer is what the events of the stream
      accumulate to as they came. */
  lemma OnlyTextIsRouted(evs: seq<Event>)
    requires FromParser(evs) && SseStream.NoDone(evs)
    ensures Aggregated(evs + [DONE]) ==
            AddEvents(NOTHING, evs).(content := Project(AllBytes(evs), false),
                                     reasoning := Project(AllBytes(evs), true))
  {
    hide Group, FinalPieces, HandedAll, AddEvents, AddEvent, AddTools, AllBytes, Project, ToolDeltas, FromParser,
        SseStream.NoDone, LastUsage, LastFinish;
    AnswerIsRoutedText(evs);
    AccumulatesInOrder(evs);
    HandedWithEnd(evs);
    HandedMeta(evs);
    var (st, handed) := HandedAll(INITIAL, evs);
    var rest := PieceEvents(EMPTY_DELTA, FinalPieces(st));
    EndAbsorbed(handed, rest);
    AddEventsConcat(NOTHING, handed, rest);
    EndMeta(AddEvents(NOTHING, handed), FinalPieces(st));
  }

  // ---------------------------------------------------------------- streaming is aggregate

  lemma {:induction false} EmitKeepsParsed(log: seq<Event>, es: seq<Sse.ParsedEvent>, emitOk: nat -> bool)
    requires FromParser(log)
    ensures FromParser(Sse.EmitAll(log, es, emitOk).0)
    decreases |es|
  {
    if es != [] {
      var e: Sse.ParsedEvent := es[0];
      assert Sse.IsParsed(e);
      EmitKeepsParsed(log + [es[0]], es[1..], emitOk);
    }
  }

  lemma LineKeepsParsed(d: Sse.Decoder, s: Sse.State, line: string, emitOk: nat -> bool)
    requires FromParser(s.events)
    ensures FromParser(Sse.HandleLine(d, s, line, emitOk).s.events)
  {
    hide Sse.Blank, Sse.IsDoneMarker, Sse.IsParsed;
    match Sse.LinePayload(s, line)
    case None =>
    case Some(p) =>
      var q := Sse.ParsePayload(d, s.buf + p);
      hide Sse.ParsePayload;
      if q.PEvents? {
        EmitKeepsParsed(s.events, q.events, emitOk);
      }
  }

  lemma {:induction false} ParseKeepsParsed(d: Sse.Decoder, s: Sse.State, body: string, end: Sse.ReadEnd,
      emitOk: nat -> bool)
    requires FromParser(s.events)
    ensures FromParser(Sse.Parse(d, s, body, end, emitOk).s.events)
    decreases |body|
  {
    hide Sse.HandleLine, Sse.TrimLineEnd, FromParser;
    var i := Sse.FindLF(body);
    if i == |body| {
      LineKeepsParsed(d, s, Sse.TrimLineEnd(body), emitOk);
    } else {
      var line := Sse.TrimLineEnd(body[..i + 1]);
      LineKeepsParsed(d, s, line, emitOk);
      ParseKeepsParsed(d, Sse.HandleLine(d, s, line, emitOk).s, body[i + 1..], end, emitOk);
    }
  }

  predicate AllRenderable(evs: seq<Event>) {
    forall i :: 0 <= i < |evs| ==> Renderable(evs[i])
  }

  lemma RoutedRenderable(st: RouterVal, ev: Event)
    requires Sse.IsParsed(ev)
    ensures AllRenderable(Routed(st, ev).1)
  {
    hide Run, Group;
  }

  lemma {:induction false} HandedRenderable(st: RouterVal, evs: seq<Event>)
    requires FromParser(evs)
    ensures AllRenderable(HandedAll(st, evs).1)
  {
    hide Routed, Renderable;
    if evs != [] {
      var n := |evs| - 1;
      HandedRenderable(st, evs[..n]);
      var s1 := HandedAll(st, evs[..n]).0;
      if evs[n].kind == KDone {
        EndRenderable(s1, evs[n]);
      } else {
        RoutedRenderable(s1, evs[n]);
      }
    }
  }

  lemma EndRenderable(st: RouterVal, ev: Event)
    requires ev == DONE
    ensures AllRenderable(Handed(st, ev).1)
  {
    hide Group;
  }

  /** The two modes agree: when the stream parses, the chunks a client reads add up to exactly what
      the aggregate answer is built from, but for usage nobody asked for; and whether or not it is
      asked for, the frames are the same ones without the chunks that carry it. */
  lemma StreamingAgreesWithAggregate(d: Sse.Decoder, body: string, end: Sse.ReadEnd, includeUsage: bool,
      modelId: string, now: int)
    requires ParseAll(d, body, end).err.None?
    ensures var r := ParseAll(d, body, end);
            && SameAnswer(ReadFrames(NOTHING, StreamFrames(r, includeUsage, modelId, now)),
                          Shown(Aggregated(r.s.events), includeUsage))
            && StreamFrames(r, false, modelId, now) == WithoutUsage(StreamFrames(r, true, modelId, now))
  {
    hide Sse.Parse, HandedAll, SameAnswer, ReadFrames, WrittenAll;
    ParseKeepsParsed(d, Sse.INITIAL, body, end, _ => true);
    var r := ParseAll(d, body, end);
    HandedRenderable(INITIAL, r.s.events);
    StreamAgreesWithAggregate(HandedAll(INITIAL, r.s.events).1, includeUsage, modelId, now);
    UsageIsAllThatIsLeftOut(HandedAll(INITIAL, r.s.events).1, modelId, now);
  }

  // ---------------------------------------------------------------- one terminator

  function Ends(frames: seq<Frame>): nat {
    if frames == [] then 0 else Ends(frames[..|frames| - 1]) + if frames[|frames| - 1].FDone? then 1 else 0
  }

  lemma EndsOne(frames: seq<Frame>, f: Frame)
    ensures Ends(frames + [f]) == Ends(frames) + if f.FDone? then 1 else 0
  {
    assert (frames + [f])[..|frames|] == frames;
  }

  // The writer has written [DONE] exactly if it is done, and then nothing after it.
  predicate WriterEnds(w: WriterVal) {
    && Ends(w.frames) == (if w.done then 1 else 0)
    && (w.done ==> w.frames != [] && w.frames[|w.frames| - 1].FDone?)
  }

  lemma {:induction false} WrittenEnds(w: WriterVal, evs: seq<Event>, modelId: string, now: int)
    requires WriterEnds(w) && !w.done && SseStream.NoDone(evs)
    ensures var x := WrittenAll(w, evs, modelId, now); WriterEnds(x) && !x.done
  {
    if evs != [] {
      var n := |evs| - 1;
      WrittenEnds(w, evs[..n], modelId, now);
      var u := WrittenAll(w, evs[..n], modelId, now);
      EndsOne(u.frames, FChunk(ChunkOf(evs[n], modelId, now)));
    }
  }

  lemma OneHandedNoDone(st: RouterVal, ev: Event)
    requires ev.kind != KDone
    ensures SseStream.NoDone(Handed(st, ev).1)
  {
    hide Run, Group;
  }

  lemma {:induction false} HandedNoDone(st: RouterVal, evs: seq<Event>)
    requires SseStream.NoDone(evs)
    ensures SseStream.NoDone(HandedAll(st, evs).1)
  {
    hide Handed;
    if evs != [] {
      HandedNoDone(st, evs[..|evs| - 1]);
      OneHandedNoDone(HandedAll(st, evs[..|evs| - 1]).0, evs[|evs| - 1]);
    }
  }

  lemma WriterAfterParse(s: Sse.State, includeUsage: bool, modelId: string, now: int)
    requires SseStream.EndsWithDone(s)
    ensures var w := WrittenAll(WriterVal(includeUsage, false, []), HandedAll(INITIAL, s.events).1, modelId, now);
            WriterEnds(w) && w.done == s.done
  {
    hide Run, Group;
    var w0 := WriterVal(includeUsage, false, []);
    if !s.done {
      HandedNoDone(INITIAL, s.events);
      WrittenEnds(w0, HandedAll(INITIAL, s.events).1, modelId, now);
    } else {
      var before := s.events[..|s.events| - 1];
      var (st, handed) := HandedAll(INITIAL, before);
      HandedNoDone(INITIAL, before);
      var chunks := handed + PieceEvents(DONE.(kind := KDelta), FinalPieces(st));
      var all := HandedAll(INITIAL, s.events).1;
      assert all == chunks + [DONE];
      assert all[..|all| - 1] == chunks;
      WrittenEnds(w0, chunks, modelId, now);
      EndsOne(WrittenAll(w0, chunks, modelId, now).frames, FDone);
    }
  }

  /** Every streamed answer has exactly one [DONE]. It is the last frame, on success and on
      error, except exactly when the stream was completed by a final line without line feed and
      data: field whose read failed: then the error frame comes after it. */
  lemma OneTerminator(d: Sse.Decoder, body: string, end: Sse.ReadEnd, includeUsage: bool, modelId: string, now: int)
    ensures var frames := StreamFrames(ParseAll(d, body, end), includeUsage, modelId, now);
            && Ends(frames) == 1
            && (frames[|frames| - 1].FDone? <==>
                !SseStream.CompletedByBrokenTail(d, Sse.INITIAL, body, end, _ => true))
  {
    hide Sse.Parse, SseStream.CompletedByBrokenTail, HandedAll, WrittenAll;
    SseStream.OneDoneAtMost(d, Sse.INITIAL, body, end, _ => true);
    SseStream.ErrorAfterDoneIff(d, Sse.INITIAL, body, end, _ => true);
    var r := ParseAll(d, body, end);
    WriterAfterParse(r.s, includeUsage, modelId, now);
    if r.err.Some? {
      var w := WrittenAll(WriterVal(includeUsage, false, []), HandedAll(INITIAL, r.s.events).1, modelId, now);
      var f := FError(StatusOf(r.err.value), Saw(INITIAL, r.s.events));
      EndsOne(w.frames, f);
      EndsOne(w.frames + [f], FDone);
      assert w.frames + [f] + [] == w.frames + [f];
    }
  }

  /** An instance of the exception: the end marker's envelope, cut before its closing brace, with
      a read error behind it. The error frame follows [DONE]. */
  lemma ErrorAfterDoneHappens(d: Sse.Decoder, includeUsage: bool, modelId: string, now: int)
    requires d(SseStream.EnvelopeHead() + "}") == Sse.DEnd
    ensures var body := "data: " + SseStream.EnvelopeHead() + "\n" + "}";
            var frames := StreamFrames(ParseAll(d, body, Sse.ReadError), includeUsage, modelId, now);
            Ends(frames) == 1 && |frames| > 0 && !frames[|frames| - 1].FDone?
  {
    SseStream.BrokenTailHappens(d);
    hide *;
    OneTerminator(d, "data: " + SseStream.EnvelopeHead() + "\n" + "}", Sse.ReadError, includeUsage, modelId, now);
    SomeFrame(StreamFrames(ParseAll(d, "data: " + SseStream.EnvelopeHead() + "\n" + "}", Sse.ReadError),
        includeUsage, modelId, now));
  }

  lemma SomeFrame(frames: seq<Frame>)
    requires Ends(frames) == 1
    ensures |frames| > 0
  {
  }

  // ---------------------------------------------------------------- from the body to the answer

  lemma PrefixFromParser(evs: seq<Event>, e: Event)
    requires FromParser(evs + [e])
    ensures FromParser(evs)
  {
    hide Sse.IsParsed;
    assert forall i :: 0 <= i < |evs| ==> (evs + [e])[i] == evs[i];
  }

  /** From the body to the answer: when the stream parses, the accepted payloads fall into groups
      that parse, and the aggregate answer shows the text of exactly those groups' events, routed
      by the tag automaton, and for the rest what those events accumulate to: tool deltas by index,
      the last usage, the last finish reason. */
  lemma {:induction false} BodyToAnswer(d: Sse.Decoder, body: string, end: Sse.ReadEnd, modelId: string, now: int)
    returns (groups: seq<seq<string>>)
    requires ParseAll(d, body, end).err.None?
    ensures SseStream.Flat(groups) == SseStream.Accepted(d, Sse.INITIAL, body, end, _ => true)
    ensures forall k :: 0 <= k < |groups| ==>
              var p := Sse.ParsePayload(d, SseStream.Cat(groups[k])); p.PEvents? || p.PEnd?
    ensures var evs := SseStream.GroupEvents(d, groups);
            var v := Aggregated(ParseAll(d, body, end).s.events);
            var answer := ResponseOf(v, modelId, now);
            var content, reasoning := Project(AllBytes(evs), false), Project(AllBytes(evs), true);
            && answer.content == (if content == "" && |v.tools| > 0 then None else Some(content))
            && answer.reasoning == (if reasoning == "" then None else Some(reasoning))
            && v == AddEvents(NOTHING, evs).(content := content, reasoning := reasoning)
            && v.tools == AddTools(map[], ToolDeltas(evs))
            && answer.usage == LastUsage(evs) && answer.finishReason == LastFinish(evs)
  {
    hide Sse.Parse, SseStream.Accepted, Sse.ParsePayload, SseStream.GroupEvents, SseStream.Flat, SseStream.Cat,
         Aggregated, AllBytes, Project, AddEvents, AddTools, ToolDeltas, FromParser, SseStream.NoDone, LastUsage,
         LastFinish;
    groups := SseStream.NothingSwallowed(d, body, end, _ => true);
    NothingYet();
    ParseKeepsParsed(d, Sse.INITIAL, body, end, _ => true);
    SseStream.OneDoneAtMost(d, Sse.INITIAL, body, end, _ => true);
    var evs := SseStream.GroupEvents(d, groups);
    var r := ParseAll(d, body, end);
    EndsAtDone(d, body, end);
    PrefixFromParser(evs, DONE);
    assert r.s.events[..|r.s.events| - 1] == evs;
    AnswerIsRoutedText(evs);
    OnlyTextIsRouted(evs);
    AccumulatesInOrder(evs);
  }

  lemma NothingYet()
    ensures FromParser(Sse.INITIAL.events) && SseStream.EndsWithDone(Sse.INITIAL)
  {
  }

  lemma EndsAtDone(d: Sse.Decoder, body: string, end: Sse.ReadEnd)
    requires ParseAll(d, body, end).err.None?
    ensures ParseAll(d, body, end).s.done
  {
    hide Sse.Parse, SseStream.CompletedByBrokenTail;
    SseStream.ErrorAfterDoneIff(d, Sse.INITIAL, body, end, _ => true);
  }
}
