// The two renderings of one event stream: the accumulator behind the aggregate answer and the
// writer of chat.completion.chunk frames (internal/stream/openai.go).

module OpenAI {
  import opened Wrappers
  import opened Events

  const DEFAULT_ID := "chatcmpl-qoder-proxy"

  datatype Tool = Tool(id: string, typ: string, name: string, arguments: string)

  datatype AccVal = AccVal(
    id: string, model: string, role: string, content: string, reasoning: string,
    created: int, tools: map<int, Tool>, usage: Option<Usage>, finishReason: Option<string>
  )

  const NOTHING := AccVal("", "", "", "", "", 0, map[], None, None)

  function AddTool(tools: map<int, Tool>, tc: ToolCallDelta): map<int, Tool> {
    var t := if tc.index in tools then tools[tc.index] else Tool("", "", "", "");
    tools[tc.index := Tool(
      if tc.id != "" then tc.id else t.id,
      if tc.typ != "" then tc.typ else t.typ,
      if tc.name != "" then tc.name else t.name,
      t.arguments + tc.arguments)]
  }

  function AddTools(tools: map<int, Tool>, tcs: seq<ToolCallDelta>): map<int, Tool> {
    if tcs == [] then tools else AddTool(AddTools(tools, tcs[..|tcs| - 1]), tcs[|tcs| - 1])
  }

  function AddEvent(v: AccVal, ev: Event): AccVal {
    AccVal(
      if ev.id != "" then ev.id else v.id,
      if ev.model != "" then ev.model else v.model,
      if ev.role != "" then ev.role else v.role,
      v.content + ev.content,
      v.reasoning + ev.reasoning,
      if ev.created != 0 then ev.created else v.created,
      AddTools(v.tools, ev.toolCalls),
      if ev.usage.Some? then ev.usage else v.usage,
      if ev.finishReason.Some? then ev.finishReason else v.finishReason)
  }

  function AddEvents(v: AccVal, evs: seq<Event>): AccVal {
    if evs == [] then v else AddEvent(AddEvents(v, evs[..|evs| - 1]), evs[|evs| - 1])
  }

  lemma {:induction false} AddEventsConcat(v: AccVal, a: seq<Event>, b: seq<Event>)
    ensures AddEvents(v, a + b) == AddEvents(AddEvents(v, a), b)
  {
    hide AddEvent;
    if b == [] {
      assert a + b == a;
    } else {
      assert (a + b)[..|a + b| - 1] == a + b[..|b| - 1];
      AddEventsConcat(v, a, b[..|b| - 1]);
    }
  }

  lemma {:induction false} AddToolsConcat(tools: map<int, Tool>, a: seq<ToolCallDelta>, b: seq<ToolCallDelta>)
    ensures AddTools(tools, a + b) == AddTools(AddTools(tools, a), b)
  {
    hide AddTool;
    if b == [] {
      assert a + b == a;
    } else {
      assert (a + b)[..|a + b| - 1] == a + b[..|b| - 1];
      AddToolsConcat(tools, a, b[..|b| - 1]);
    }
  }

  // ---------------------------------------------------------------- what accumulates

  function Contents(evs: seq<Event>): string {
    if evs == [] then "" else Contents(evs[..|evs| - 1]) + evs[|evs| - 1].content
  }

  function Reasonings(evs: seq<Event>): string {
    if evs == [] then "" else Reasonings(evs[..|evs| - 1]) + evs[|evs| - 1].reasoning
  }

  function ToolDeltas(evs: seq<Event>): seq<ToolCallDelta> {
    if evs == [] then [] else ToolDeltas(evs[..|evs| - 1]) + evs[|evs| - 1].toolCalls
  }

  // The last usage and the last finish reason that any event carries.
  function LastUsage(evs: seq<Event>): Option<Usage> {
    if evs == [] then None
    else if evs[|evs| - 1].usage.Some? then evs[|evs| - 1].usage
    else LastUsage(evs[..|evs| - 1])
  }

  function LastFinish(evs: seq<Event>): Option<string> {
    if evs == [] then None
    else if evs[|evs| - 1].finishReason.Some? then evs[|evs| - 1].finishReason
    else LastFinish(evs[..|evs| - 1])
  }

  // The last text that is not empty among those picked out by f, and the last time that is not zero.
  function LastText(evs: seq<Event>, f: Event -> string): string {
    if evs == [] then ""
    else if f(evs[|evs| - 1]) != "" then f(evs[|evs| - 1])
    else LastText(evs[..|evs| - 1], f)
  }

  function LastTime(evs: seq<Event>): int {
    if evs == [] then 0
    else if evs[|evs| - 1].created != 0 then evs[|evs| - 1].created
    else LastTime(evs[..|evs| - 1])
  }

  function EventId(ev: Event): string { ev.id }
  function EventModel(ev: Event): string { ev.model }
  function EventRole(ev: Event): string { ev.role }

  // In order, the argument fragments that carry index i.
  function ArgumentsOf(tcs: seq<ToolCallDelta>, i: int): string {
    if tcs == [] then ""
    else ArgumentsOf(tcs[..|tcs| - 1], i) + if tcs[|tcs| - 1].index == i then tcs[|tcs| - 1].arguments else ""
  }

  // The last of the deltas with index i whose field, picked out by f, is not empty.
  function LastGiven(tcs: seq<ToolCallDelta>, i: int, f: ToolCallDelta -> string): string {
    if tcs == [] then ""
    else
      var tc := tcs[|tcs| - 1];
      if tc.index == i && f(tc) != "" then f(tc) else LastGiven(tcs[..|tcs| - 1], i, f)
  }

  function IdOf(tc: ToolCallDelta): string { tc.id }
  function TypeOf(tc: ToolCallDelta): string { tc.typ }
  function NameOf(tc: ToolCallDelta): string { tc.name }

  function Indices(tcs: seq<ToolCallDelta>): set<int> {
    set k | 0 <= k < |tcs| :: tcs[k].index
  }

  lemma IndicesMore(tcs: seq<ToolCallDelta>)
    requires tcs != []
    ensures Indices(tcs) == Indices(tcs[..|tcs| - 1]) + {tcs[|tcs| - 1].index}
  {
    var n := |tcs| - 1;
    assert forall k :: 0 <= k < n ==> tcs[..n][k] == tcs[k];
    forall i | i in Indices(tcs[..n]) ensures i in Indices(tcs) {
      var k :| 0 <= k < n && tcs[..n][k].index == i;
      assert tcs[k].index == i;
    }
  }

  lemma {:induction false} ToolsCollect(tcs: seq<ToolCallDelta>)
    ensures AddTools(map[], tcs).Keys == Indices(tcs)
    ensures forall i :: i in AddTools(map[], tcs) ==> AddTools(map[], tcs)[i].arguments == ArgumentsOf(tcs, i)
    ensures forall i :: i !in AddTools(map[], tcs) ==> ArgumentsOf(tcs, i) == ""
  {
    if tcs != [] {
      ToolsCollect(tcs[..|tcs| - 1]);
      IndicesMore(tcs);
      hide Indices;
    }
  }

  lemma {:induction false} ToolHeadsCollect(tcs: seq<ToolCallDelta>, i: int)
    ensures var t := if i in AddTools(map[], tcs) then AddTools(map[], tcs)[i] else Tool("", "", "", "");
            t.id == LastGiven(tcs, i, IdOf) && t.typ == LastGiven(tcs, i, TypeOf) && t.name == LastGiven(tcs, i, NameOf)
  {
    if tcs != [] {
      ToolHeadsCollect(tcs[..|tcs| - 1], i);
    }
  }

  /** Accumulation in closed form: the texts in order, the tools by index, each with the in-order
      concatenation of its argument fragments, and the last usage, finish reason, ID, model, role and
      time that any event gives. */
  lemma {:induction false} AccumulatesInOrder(evs: seq<Event>)
    ensures var v := AddEvents(NOTHING, evs);
            && v.content == Contents(evs) && v.reasoning == Reasonings(evs)
            && v.tools == AddTools(map[], ToolDeltas(evs))
            && v.usage == LastUsage(evs) && v.finishReason == LastFinish(evs)
            && v.id == LastText(evs, EventId) && v.model == LastText(evs, EventModel)
            && v.role == LastText(evs, EventRole) && v.created == LastTime(evs)
  {
    if evs != [] {
      var n := |evs| - 1;
      AccumulatesInOrder(evs[..n]);
      AddToolsConcat(map[], ToolDeltas(evs[..n]), evs[n].toolCalls);
    }
  }

  // ---------------------------------------------------------------- the aggregate answer

  datatype Call = Call(id: string, typ: string, name: string, arguments: string)

  // content is None for null, reasoning and toolCalls are None when the field is absent.
  datatype Response = Response(
    id: string, created: int, model: string, content: Option<string>, reasoning: Option<string>,
    toolCalls: Option<seq<Call>>, finishReason: Option<string>, usage: Option<Usage>
  )

  function CallOf(t: Tool): Call {
    Call(t.id, if t.typ == "" then "function" else t.typ, t.name, if t.arguments == "" then "{}" else t.arguments)
  }

  // The calls at indices below n, in order.
  function CallsBelow(tools: map<int, Tool>, n: nat): seq<Call> {
    if n == 0 then [] else CallsBelow(tools, n - 1) + if n - 1 in tools then [CallOf(tools[n - 1])] else []
  }

  function Range(n: nat): (r: set<int>)
    ensures forall i :: i in r <==> 0 <= i < n
  {
    if n == 0 then {} else Range(n - 1) + {n - 1}
  }

  lemma {:induction false} RangeSize(n: nat)
    ensures |Range(n)| == n
  {
    if n > 0 {
      RangeSize(n - 1);
    }
  }

  lemma {:induction false} CallsFull(tools: map<int, Tool>, n: nat)
    requires forall i :: 0 <= i < n ==> i in tools
    ensures |CallsBelow(tools, n)| == n
    ensures forall i :: 0 <= i < n ==> CallsBelow(tools, n)[i] == CallOf(tools[i])
  {
    if n > 0 {
      CallsFull(tools, n - 1);
    }
  }

  lemma {:induction false} CallsAtMost(tools: map<int, Tool>, n: nat, missing: nat)
    requires missing < n && missing !in tools
    ensures |CallsBelow(tools, n)| < n
  {
    if missing < n - 1 {
      CallsAtMost(tools, n - 1, missing);
    } else {
      CallsBound(tools, n - 1);
    }
  }

  lemma {:induction false} CallsBound(tools: map<int, Tool>, n: nat)
    ensures |CallsBelow(tools, n)| <= n
  {
    if n > 0 {
      CallsBound(tools, n - 1);
    }
  }

  /** The answer lists every tool that was seen exactly when the indices seen are 0..n-1: the
      listing walks as many indices as there are tools. Then call i is tool i. */
  lemma AllCallsListedIff(tools: map<int, Tool>)
    ensures |CallsBelow(tools, |tools|)| == |tools| <==> tools.Keys == Range(|tools|)
    ensures tools.Keys == Range(|tools|) ==>
              forall i :: 0 <= i < |tools| ==> i in tools && CallsBelow(tools, |tools|)[i] == CallOf(tools[i])
  {
    var n := |tools|;
    RangeSize(n);
    if tools.Keys == Range(n) {
      CallsFull(tools, n);
    } else {
      assert !(Range(n) <= tools.Keys) by {
        if Range(n) <= tools.Keys {
          SubsetOfSameSize(Range(n), tools.Keys);
        }
      }
      var i :| i in Range(n) && i !in tools.Keys;
      CallsAtMost(tools, n, i);
    }
  }

  /** An instance of a gap: the only tool seen has index 1, and the answer lists no call. */
  lemma IndexOneAloneIsLost(tc: ToolCallDelta, fallbackModel: string, now: int)
    requires tc.index == 1
    ensures var v := AddEvents(NOTHING, [DONE.(kind := KDelta, toolCalls := [tc])]);
            1 in v.tools && ResponseOf(v, fallbackModel, now).toolCalls == Some([])
  {
    var ev := DONE.(kind := KDelta, toolCalls := [tc]);
    assert [ev][..0] == [] && [tc][..0] == [];
    assert AddEvents(NOTHING, []) == NOTHING && AddTools(map[], []) == map[];
    var tools := AddEvents(NOTHING, [ev]).tools;
    assert tools == AddTools(map[], [tc]) == AddTool(map[], tc);
    assert tools.Keys == {1};
    assert |tools| == |tools.Keys| == 1;
    assert CallsBelow(tools, 0) == [];
  }

  lemma SubsetOfSameSize(a: set<int>, b: set<int>)
    requires a <= b && |a| == |b|
    ensures a == b
  {
    assert b == a + (b - a);
  }

  function ResponseOf(v: AccVal, fallbackModel: string, now: int): Response {
    Response(
      if v.id == "" then DEFAULT_ID else v.id,
      if v.created == 0 then now else v.created,
      if v.model == "" then fallbackModel else v.model,
      if v.content == "" && |v.tools| > 0 then None else Some(v.content),
      if v.reasoning != "" then Some(v.reasoning) else None,
      if |v.tools| > 0 then Some(CallsBelow(v.tools, |v.tools|)) else None,
      v.finishReason,
      v.usage)
  }

  /** From events to answer: when the tool indices seen are 0..n-1, the answer has exactly n
      calls and the i-th carries the in-order concatenation of all its argument fragments, or
      {} if that is empty, and the last ID, name and type given for it; content and reasoning are
      the texts in order. */
  lemma ResponseFromEvents(evs: seq<Event>, fallbackModel: string, now: int, n: nat)
    requires n > 0 && Indices(ToolDeltas(evs)) == Range(n)
    ensures var r := ResponseOf(AddEvents(NOTHING, evs), fallbackModel, now);
            && r.toolCalls.Some? && |r.toolCalls.value| == n
            && (forall i :: 0 <= i < n ==>
                  var args := ArgumentsOf(ToolDeltas(evs), i);
                  r.toolCalls.value[i].arguments == if args == "" then "{}" else args)
            && (forall i :: 0 <= i < n ==>
                  var tcs, call := ToolDeltas(evs), r.toolCalls.value[i];
                  && call.id == LastGiven(tcs, i, IdOf) && call.name == LastGiven(tcs, i, NameOf)
                  && call.typ == if LastGiven(tcs, i, TypeOf) == "" then "function" else LastGiven(tcs, i, TypeOf))
            && r.content == (if Contents(evs) == "" then None else Some(Contents(evs)))
            && r.reasoning == (if Reasonings(evs) == "" then None else Some(Reasonings(evs)))
  {
    AccumulatesInOrder(evs);
    ToolsCollect(ToolDeltas(evs));
    RangeSize(n);
    var tools := AddEvents(NOTHING, evs).tools;
    assert |tools| == |tools.Keys| == n;
    AllCallsListedIff(tools);
    forall i | 0 <= i < n
      ensures i in tools && var t, tcs := tools[i], ToolDeltas(evs);
              && t.id == LastGiven(tcs, i, IdOf) && t.typ == LastGiven(tcs, i, TypeOf)
              && t.name == LastGiven(tcs, i, NameOf)
    {
      ToolHeadsCollect(ToolDeltas(evs), i);
    }
  }

  /** The rest of the answer: what the events give, the last one each, or else the default. Without
      tool calls the content is shown even if it is empty. */
  lemma ResponseHead(evs: seq<Event>, fallbackModel: string, now: int)
    ensures var r := ResponseOf(AddEvents(NOTHING, evs), fallbackModel, now);
            var id, model := LastText(evs, EventId), LastText(evs, EventModel);
            && r.id == (if id == "" then "chatcmpl-qoder-proxy" else id)
            && r.model == (if model == "" then fallbackModel else model)
            && r.created == (if LastTime(evs) == 0 then now else LastTime(evs))
            && r.finishReason == LastFinish(evs) && r.usage == LastUsage(evs)
            && r.reasoning == (if Reasonings(evs) == "" then None else Some(Reasonings(evs)))
            && (ToolDeltas(evs) == [] ==> r.content == Some(Contents(evs)) && r.toolCalls == None)
            && (ToolDeltas(evs) != [] ==>
                  r.content == (if Contents(evs) == "" then None else Some(Contents(evs))) && r.toolCalls.Some?)
  {
    AccumulatesInOrder(evs);
    ToolsCollect(ToolDeltas(evs));
    var tools := AddTools(map[], ToolDeltas(evs));
    if ToolDeltas(evs) != [] {
      assert ToolDeltas(evs)[0].index in tools;
    } else {
      assert tools == map[];
    }
    hide AddEvents, AddTools, CallsBelow, LastText, LastTime;
  }

  class Accumulator {
    var id: string
    var model: string
    var role: string
    var content: string
    var reasoning: string
    var created: int
    var tools: map<int, Tool>
    var usage: Option<Usage>
    var finishReason: Option<string>

    function Val(): AccVal
      reads this
    {
      AccVal(id, model, role, content, reasoning, created, tools, usage, finishReason)
    }

    constructor ()
      ensures Val() == NOTHING
    {
      id, model, role, content, reasoning := "", "", "", "", "";
      created, tools, usage, finishReason := 0, map[], None, None;
    }

    method Add(ev: Event)
      modifies this
      ensures Val() == AddEvent(old(Val()), ev)
    {
      hide AddTools, AddTool;
      AddHeader(ev);
      content := content + ev.content;
      reasoning := reasoning + ev.reasoning;
      AddToolCalls(ev.toolCalls);
      if ev.usage.Some? { usage := ev.usage; }
      if ev.finishReason.Some? { finishReason := ev.finishReason; }
    }

    // What comes first: the fields that every event may set anew.
    method AddHeader(ev: Event)
      modifies this`id, this`model, this`created, this`role
      ensures id == (if ev.id != "" then ev.id else old(id))
      ensures model == (if ev.model != "" then ev.model else old(model))
      ensures created == (if ev.created != 0 then ev.created else old(created))
      ensures role == (if ev.role != "" then ev.role else old(role))
    {
      if ev.id != "" { id := ev.id; }
      if ev.model != "" { model := ev.model; }
      if ev.created != 0 { created := ev.created; }
      if ev.role != "" { role := ev.role; }
    }

    // The loop of Add over the tool calls.
    method AddToolCalls(tcs: seq<ToolCallDelta>)
      modifies this`tools
      ensures tools == AddTools(old(tools), tcs)
    {
      for k := 0 to |tcs|
        invariant tools == AddTools(old(tools), tcs[..k])
      {
        assert tcs[..k + 1][..k] == tcs[..k];
        var tc := tcs[k];
        var t := if tc.index in tools then tools[tc.index] else Tool("", "", "", "");
        if tc.id != "" { t := t.(id := tc.id); }
        if tc.typ != "" { t := t.(typ := tc.typ); }
        if tc.name != "" { t := t.(name := tc.name); }
        t := t.(arguments := t.arguments + tc.arguments);
        tools := tools[tc.index := t];
      }
      assert tcs[..|tcs|] == tcs;
    }

    method Respond(fallbackModel: string, now: int) returns (r: Response)
      modifies this
      ensures r == ResponseOf(old(Val()), fallbackModel, now)
      ensures Val() == old(Val()).(id := r.id, model := r.model, created := r.created)
    {
      if id == "" { id := DEFAULT_ID; }
      if model == "" { model := fallbackModel; }
      if created == 0 { created := now; }
      var text := if content == "" && |tools| > 0 then None else Some(content);
      var calls: Option<seq<Call>> := None;
      if |tools| > 0 {
        var listed: seq<Call> := [];
        for i := 0 to |tools|
          invariant listed == CallsBelow(tools, i)
        {
          if i in tools {
            var t := tools[i];
            var typeName := if t.typ == "" then "function" else t.typ;
            var args := if t.arguments == "" then "{}" else t.arguments;
            listed := listed + [Call(t.id, typeName, t.name, args)];
          }
        }
        calls := Some(listed);
      }
      r := Response(id, created, model, text, if reasoning != "" then Some(reasoning) else None, calls, finishReason,
          usage);
    }
  }

  // ---------------------------------------------------------------- the frames

  // Absent fields of a delta read as "" and []; a chunk with usage has no choice.
  datatype Choice = Choice(role: string, content: string, reasoning: string, toolCalls: seq<ToolCallDelta>,
      finishReason: Option<string>)
  datatype Chunk = Chunk(id: string, created: int, model: string, choice: Option<Choice>, usage: Option<Usage>)
  datatype Frame = FChunk(chunk: Chunk) | FError(status: int, partial: bool) | FDone

  function ChunkOf(ev: Event, fallbackModel: string, now: int): Chunk {
    Chunk(
      if ev.id == "" then DEFAULT_ID else ev.id,
      if ev.created == 0 then now else ev.created,
      if ev.model == "" then fallbackModel else ev.model,
      if ev.usage.Some? then None else Some(Choice(ev.role, ev.content, ev.reasoning, ev.toolCalls, ev.finishReason)),
      ev.usage)
  }

  datatype WriterVal = WriterVal(includeUsage: bool, done: bool, frames: seq<Frame>)

  // One WriteEvent whose write succeeds.
  function Written(w: WriterVal, ev: Event, fallbackModel: string, now: int): WriterVal {
    if ev.kind == KDone then
      if w.done then w else w.(done := true, frames := w.frames + [FDone])
    else if ev.kind == KUsage && !w.includeUsage then w
    else w.(frames := w.frames + [FChunk(ChunkOf(ev, fallbackModel, now))])
  }

  function WrittenAll(w: WriterVal, evs: seq<Event>, fallbackModel: string, now: int): WriterVal {
    if evs == [] then w
    else Written(WrittenAll(w, evs[..|evs| - 1], fallbackModel, now), evs[|evs| - 1], fallbackModel, now)
  }

  class SSEWriter {
    const includeUsage: bool
    var done: bool
    var frames: seq<Frame>

    function Val(): WriterVal
      reads this
    {
      WriterVal(includeUsage, done, frames)
    }

    constructor (includeUsage: bool)
      ensures Val() == WriterVal(includeUsage, false, [])
    {
      this.includeUsage := includeUsage;
      done, frames := false, [];
    }

    // writeOk tells whether the write to the client succeeds, if there is one.
    method WriteEvent(ev: Event, fallbackModel: string, now: int, writeOk: bool) returns (ok: bool)
      modifies this
      ensures writeOk ==> ok && Val() == Written(old(Val()), ev, fallbackModel, now)
      ensures writeOk && ev.kind != KDone && (ev.kind == KUsage ==> includeUsage) ==>
                |frames| == |old(frames)| + 1 && frames[|frames| - 1].FChunk? &&
                var c := frames[|frames| - 1].chunk;
                && c.id == (if ev.id == "" then "chatcmpl-qoder-proxy" else ev.id)
                && c.created == (if ev.created == 0 then now else ev.created)
                && c.model == (if ev.model == "" then fallbackModel else ev.model)
                && c.usage == ev.usage && (c.choice.None? <==> ev.usage.Some?)
      ensures !writeOk ==> Val() == old(Val()).(done := old(done) || ev.kind == KDone)
      ensures !writeOk ==> (ok <==> (ev.kind == KDone && old(done)) || (ev.kind == KUsage && !includeUsage))
    {
      if ev.kind == KDone {
        if done {
          return true;
        }
        done := true;
        if !writeOk {
          return false;
        }
        frames := frames + [FDone];
        return true;
      }
      if ev.kind == KUsage && !includeUsage {
        return true;
      }
      var model := if ev.model == "" then fallbackModel else ev.model;
      var id := if ev.id == "" then DEFAULT_ID else ev.id;
      var created := if ev.created == 0 then now else ev.created;
      var choice := Some(Choice(ev.role, ev.content, ev.reasoning, ev.toolCalls, ev.finishReason));
      if ev.usage.Some? {
        choice := None;
      }
      if !writeOk {
        return false;
      }
      frames := frames + [FChunk(Chunk(id, created, model, choice, ev.usage))];
      ok := true;
    }
  }

  // ---------------------------------------------------------------- reading the frames back

  function EventOfChunk(c: Chunk): Event {
    match c.choice
    case None => Event(KUsage, c.id, c.created, c.model, "", "", "", [], c.usage, None)
    case Some(x) => Event(KDelta, c.id, c.created, c.model, x.role, x.content, x.reasoning, x.toolCalls, c.usage,
        x.finishReason)
  }

  function ReadFrames(v: AccVal, frames: seq<Frame>): AccVal {
    if frames == [] then v
    else
      var u := ReadFrames(v, frames[..|frames| - 1]);
      var f := frames[|frames| - 1];
      if f.FChunk? then AddEvent(u, EventOfChunk(f.chunk)) else u
  }

  // The parts of the accumulated answer that both renderings have to agree on.
  predicate SameAnswer(a: AccVal, b: AccVal) {
    && a.content == b.content && a.reasoning == b.reasoning && a.tools == b.tools
    && a.usage == b.usage && a.finishReason == b.finishReason && a.role == b.role
  }

  // An event with usage carries nothing else; WriteEvent would drop it.
  predicate UsageAlone(ev: Event) {
    ev.usage.Some? ==>
      ev.role == "" && ev.content == "" && ev.reasoning == "" && ev.toolCalls == [] && ev.finishReason.None?
  }

  predicate Renderable(ev: Event) {
    UsageAlone(ev) && (ev.kind == KDone ==> ev == DONE) && (ev.kind == KUsage <==> ev.usage.Some?)
  }

  // The answer as a client sees it that may not have asked for usage.
  function Shown(v: AccVal, includeUsage: bool): AccVal {
    if includeUsage then v else v.(usage := None)
  }

  lemma ReadFramesMore(a: AccVal, frames: seq<Frame>, f: Frame)
    ensures ReadFrames(a, frames + [f]) ==
            if f.FChunk? then AddEvent(ReadFrames(a, frames), EventOfChunk(f.chunk)) else ReadFrames(a, frames)
  {
    assert (frames + [f])[..|frames|] == frames;
  }

  // Reading the chunk made of an event adds what adding the event itself does.
  lemma ChunkAddsTheSame(v: AccVal, b: AccVal, ev: Event, includeUsage: bool, fallbackModel: string, now: int)
    requires SameAnswer(v, Shown(b, includeUsage)) && Renderable(ev) && (ev.kind == KUsage ==> includeUsage)
    ensures SameAnswer(AddEvent(v, EventOfChunk(ChunkOf(ev, fallbackModel, now))), Shown(AddEvent(b, ev), includeUsage))
  {
    hide AddTools;
    NothingAdded(b.tools);
  }

  // The end, and usage nobody asked for, add nothing that is shown.
  lemma NothingShown(v: AccVal, b: AccVal, ev: Event, includeUsage: bool)
    requires SameAnswer(v, Shown(b, includeUsage)) && Renderable(ev)
    requires ev.kind == KDone || (ev.kind == KUsage && !includeUsage)
    ensures SameAnswer(v, Shown(AddEvent(b, ev), includeUsage))
  {
    hide AddTools;
    NothingAdded(b.tools);
  }

  lemma {:induction false} FramesSayTheSame(w: WriterVal, a: AccVal, b: AccVal, evs: seq<Event>,
      fallbackModel: string, now: int)
    requires w.frames == [] && SameAnswer(a, Shown(b, w.includeUsage))
    requires forall i :: 0 <= i < |evs| ==> Renderable(evs[i])
    ensures SameAnswer(ReadFrames(a, WrittenAll(w, evs, fallbackModel, now).frames),
                       Shown(AddEvents(b, evs), w.includeUsage))
    ensures WrittenAll(w, evs, fallbackModel, now).includeUsage == w.includeUsage
  {
    hide AddEvent, SameAnswer, ChunkOf, Shown;
    if evs != [] {
      var front, ev := evs[..|evs| - 1], evs[|evs| - 1];
      FramesSayTheSame(w, a, b, front, fallbackModel, now);
      var u := WrittenAll(w, front, fallbackModel, now);
      assert Renderable(ev);
      if ev.kind == KDone || (ev.kind == KUsage && !w.includeUsage) {
        NothingShown(ReadFrames(a, u.frames), AddEvents(b, front), ev, w.includeUsage);
        ReadFramesMore(a, u.frames, FDone);
      } else {
        var f := FChunk(ChunkOf(ev, fallbackModel, now));
        ReadFramesMore(a, u.frames, f);
        ChunkAddsTheSame(ReadFrames(a, u.frames), AddEvents(b, front), ev, w.includeUsage, fallbackModel, now);
      }
      hide ReadFrames;
    }
  }

  lemma NothingAdded(tools: map<int, Tool>)
    ensures AddTools(tools, []) == tools
  {
  }

  /** What a streaming client can put together from the chunks is what the aggregate answer is made
      of: same role, content, reasoning, tool calls and finish reason, and if it asked for usage the
      same usage, else none. */
  lemma StreamAgreesWithAggregate(evs: seq<Event>, includeUsage: bool, fallbackModel: string, now: int)
    requires forall i :: 0 <= i < |evs| ==> Renderable(evs[i])
    ensures var frames := WrittenAll(WriterVal(includeUsage, false, []), evs, fallbackModel, now).frames;
            SameAnswer(ReadFrames(NOTHING, frames), Shown(AddEvents(NOTHING, evs), includeUsage))
  {
    FramesSayTheSame(WriterVal(includeUsage, false, []), NOTHING, NOTHING, evs, fallbackModel, now);
  }

  function WithoutUsage(frames: seq<Frame>): seq<Frame> {
    if frames == [] then []
    else
      var f := frames[|frames| - 1];
      WithoutUsage(frames[..|frames| - 1]) + if f.FChunk? && f.chunk.usage.Some? then [] else [f]
  }

  lemma WithoutUsageMore(frames: seq<Frame>, f: Frame)
    ensures WithoutUsage(frames + [f]) == WithoutUsage(frames) + if f.FChunk? && f.chunk.usage.Some? then [] else [f]
  {
    assert (frames + [f])[..|frames|] == frames;
  }

  /** A client that did not ask for usage gets the frames of one that did, without the chunks that
      carry usage: nothing else is missing, added or out of order. */
  lemma {:induction false} UsageIsAllThatIsLeftOut(evs: seq<Event>, fallbackModel: string, now: int)
    requires forall i :: 0 <= i < |evs| ==> Renderable(evs[i])
    ensures var with, without := WrittenAll(WriterVal(true, false, []), evs, fallbackModel, now),
                                 WrittenAll(WriterVal(false, false, []), evs, fallbackModel, now);
            without.frames == WithoutUsage(with.frames) && without.done == with.done
    ensures WrittenAll(WriterVal(true, false, []), evs, fallbackModel, now).includeUsage
    ensures !WrittenAll(WriterVal(false, false, []), evs, fallbackModel, now).includeUsage
  {
    if evs != [] {
      var front, ev := evs[..|evs| - 1], evs[|evs| - 1];
      UsageIsAllThatIsLeftOut(front, fallbackModel, now);
      assert Renderable(ev);
      var u := WrittenAll(WriterVal(true, false, []), front, fallbackModel, now);
      WithoutUsageMore(u.frames, FDone);
      WithoutUsageMore(u.frames, FChunk(ChunkOf(ev, fallbackModel, now)));
      hide WithoutUsage;
    }
  }
}
