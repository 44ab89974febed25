// Whole streams: what a parse emits and how it ends (internal/stream/sse.go:23-144).

module SseStream {
  import opened Wrappers
  import opened Events
  import opened JsonScanner
  import opened Sse
  import opened SseFrames

  // ---------------------------------------------------------------- frames in a body

  // The lines as they are sent, ended by a line feed or by a carriage return and a line feed.
  function Render(lines: seq<string>, crlf: bool): string {
    if lines == [] then "" else lines[0] + (if crlf then "\r\n" else "\n") + Render(lines[1..], crlf)
  }

  predicate CleanLine(l: string) {
    '\n' !in l && (l == "" || l[|l| - 1] != '\r')
  }

  lemma {:induction false} FindLFAt(l: string, rest: string)
    requires '\n' !in l
    ensures FindLF(l + "\n" + rest) == |l|
  {
    var body := l + "\n" + rest;
    if l != "" {
      assert body[1..] == l[1..] + "\n" + rest;
      FindLFAt(l[1..], rest);
    }
  }

  lemma TrimClean(l: string)
    requires CleanLine(l)
    ensures TrimLineEnd(l + "\n") == l && TrimLineEnd(l + "\r\n") == l && TrimLineEnd(l) == l
  {
    var crlf := l + "\r\n";
    assert (l + "\n")[..|l|] == l;
    assert crlf[|crlf| - 1] == '\n' && crlf[..|l| + 1] == l + "\r" && (l + "\r")[..|l|] == l;
    if l != "" {
      assert l[|l| - 1] in l;
    }
  }

  /** Lines in the body are handled one by one, and what follows them is parsed from where they
      leave off. */
  lemma {:induction false} ParseRendered(d: Decoder, s: State, lines: seq<string>, crlf: bool, rest: string,
      end: ReadEnd, emitOk: nat -> bool)
    requires !s.done && forall i :: 0 <= i < |lines| ==> CleanLine(lines[i])
    ensures var r := HandleLines(d, s, lines, emitOk);
            Parse(d, s, Render(lines, crlf) + rest, end, emitOk) ==
            if r.err.Some? || r.s.done then r else Parse(d, r.s, rest, end, emitOk)
    decreases |lines|
  {
    hide HandleLine, TrimLineEnd, HandleTail;
    if lines == [] {
      assert Render(lines, crlf) + rest == rest;
    } else {
      var l := lines[0];
      var sent := if crlf then l + "\r" else l;
      var more := Render(lines[1..], crlf) + rest;
      var body := Render(lines, crlf) + rest;
      assert body == sent + "\n" + more;
      assert CleanLine(l);
      FindLFAt(sent, more);
      TrimClean(l);
      assert body[..|sent| + 1] == sent + "\n" && body[|sent| + 1..] == more;
      assert sent + "\n" == if crlf then l + "\r\n" else l + "\n";
      var r := HandleLine(d, s, l, emitOk);
      if r.err.None? && !r.s.done {
        ParseRendered(d, r.s, lines[1..], crlf, rest, end, emitOk);
      }
    }
  }

  /** At the level of the byte stream: a cleanly cut JSON object gives, whatever follows, exactly
      the events and the outcome of the uncut data: line; any other cut ends the stream with a
      syntax error and no further event. */
  lemma BodyReassembly(d: Decoder, s: State, items: seq<Item>, crlf: bool, rest: string, end: ReadEnd,
      emitOk: nat -> bool)
    requires !s.done && s.buf == "" && GoodCut(items)
    requires IsObjectText(Whole(items)) && |Whole(items)| <= MAX_EVENT_BYTES
    requires CleanLine("data: " + Whole(items)) && forall i :: 0 <= i < |items| ==> CleanLine(LineOf(items[i]))
    ensures var cut := Parse(d, s, Render(LinesOf(items), crlf) + rest, end, emitOk);
            if CleanCuts("", items) then
              Alike(cut, Parse(d, s, Render(["data: " + Whole(items)], crlf) + rest, end, emitOk))
            else cut.err == Some(MalformedJson) && cut.s.events == s.events
  {
    hide IsObjectText, HandleLines, Parse, CleanLine, Pieces, StartsWithField, CutInsideToken;
    ParseRendered(d, s, LinesOf(items), crlf, rest, end, emitOk);
    ParseRendered(d, s, ["data: " + Whole(items)], crlf, rest, end, emitOk);
    ReassemblyTransparentIffClean(d, s, items, emitOk);
    assert s.buf + Whole(items) == Whole(items);
    CutLines(d, s, items, emitOk);
  }

  // ---------------------------------------------------------------- nothing is swallowed

  // The payloads that count: neither blank nor the end marker.
  predicate Counts(p: string) {
    !Blank(p) && !IsDoneMarker(p)
  }

  // What stands behind the field name and at most one space, or on the whole line of a text that is
  // being continued.
  function PayloadText(s: State, line: string): string {
    if "data: " <= line then line[6..]
    else if "data:" <= line then line[5..]
    else if s.buf == "" || ":" <= line || "event:" <= line || "id:" <= line || "retry:" <= line then ""
    else line
  }

  function LineAccepts(s: State, line: string): seq<string> {
    if Counts(PayloadText(s, line)) then [PayloadText(s, line)] else []
  }

  lemma PayloadIsText(s: State, line: string)
    ensures LinePayload(s, line) == Some(PayloadText(s, line)) ||
            (LinePayload(s, line) == None && PayloadText(s, line) == "")
  {
    if "data: " <= line {
      FragmentPayload(line[6..]);
      assert line == "data: " + line[6..];
    } else if "data:" <= line {
      FragmentPayload(line[5..]);
      assert line == "data:" + line[5..];
    }
  }

  // The payloads taken in, in order, until the parse ends.
  function Accepted(d: Decoder, s: State, body: string, end: ReadEnd, emitOk: nat -> bool): seq<string>
    decreases |body|
  {
    var i := FindLF(body);
    if i == |body| then if end == Abort then [] else LineAccepts(s, TrimLineEnd(body))
    else
      var line := TrimLineEnd(body[..i + 1]);
      var r := HandleLine(d, s, line, emitOk);
      LineAccepts(s, line) + if r.err.Some? || r.s.done then [] else Accepted(d, r.s, body[i + 1..], end, emitOk)
  }

  function Cat(ps: seq<string>): string {
    if ps == [] then "" else Cat(ps[..|ps| - 1]) + ps[|ps| - 1]
  }

  function Flat(groups: seq<seq<string>>): seq<string> {
    if groups == [] then [] else Flat(groups[..|groups| - 1]) + groups[|groups| - 1]
  }

  // The events the groups decode to, in order; an end marker contributes none.
  function GroupEvents(d: Decoder, groups: seq<seq<string>>): seq<Event> {
    if groups == [] then []
    else
      var p := ParsePayload(d, Cat(groups[|groups| - 1]));
      GroupEvents(d, groups[..|groups| - 1]) + if p.PEvents? then p.events else []
  }

  // The group's concatenation parses; to the end marker only if that may be.
  predicate Parses(d: Decoder, group: seq<string>, done: bool) {
    var p := ParsePayload(d, Cat(group));
    p.PEvents? || (p.PEnd? && done)
  }

  ghost predicate AllParse(d: Decoder, groups: seq<seq<string>>, done: bool) {
    forall k :: 0 <= k < |groups| ==> Parses(d, groups[k], done)
  }

  predicate EventsAre(d: Decoder, s: State, before: seq<Event>, groups: seq<seq<string>>) {
    s.events == before + GroupEvents(d, groups) + if s.done then [DONE] else []
  }

  // Closed groups, each of which parses, and the group still being collected.
  ghost predicate Grouped(d: Decoder, s: State, before: seq<Event>, groups: seq<seq<string>>, cur: seq<string>) {
    && s.buf == Cat(cur) && (s.buf == "" <==> cur == [])
    && AllParse(d, groups, s.done) && EventsAre(d, s, before, groups)
  }

  lemma {:induction false} EmitAllOk(log: seq<Event>, es: seq<Event>, emitOk: nat -> bool)
    requires EmitAll(log, es, emitOk).1
    ensures EmitAll(log, es, emitOk).0 == log + es
    decreases |es|
  {
    if es == [] {
      assert log + es == log;
    } else {
      EmitAllOk(log + [es[0]], es[1..], emitOk);
      assert log + [es[0]] + es[1..] == log + es;
    }
  }

  lemma CatOne(ps: seq<string>, p: string)
    ensures Cat(ps + [p]) == Cat(ps) + p
  {
    assert (ps + [p])[..|ps|] == ps;
  }

  lemma FlatOne(groups: seq<seq<string>>, g: seq<string>)
    ensures Flat(groups + [g]) == Flat(groups) + g
  {
    assert (groups + [g])[..|groups|] == groups;
  }

  lemma EventsOne(d: Decoder, groups: seq<seq<string>>, g: seq<string>)
    ensures GroupEvents(d, groups + [g]) ==
            var p := ParsePayload(d, Cat(g)); GroupEvents(d, groups) + if p.PEvents? then p.events else []
  {
    assert (groups + [g])[..|groups|] == groups;
  }

  lemma EventsGrow(d: Decoder, s: State, r: State, before: seq<Event>, groups: seq<seq<string>>, g: seq<string>)
    requires !s.done && EventsAre(d, s, before, groups) && Completes(d, s, r, Cat(g))
    ensures EventsAre(d, r, before, groups + [g])
  {
    EventsOne(d, groups, g);
    hide ParsePayload, GroupEvents, Cat;
    var q := ParsePayload(d, Cat(g));
    var es := GroupEvents(d, groups);
    if q.PEvents? {
      assert before + es + [] + q.events == before + (es + q.events) + [];
    } else {
      assert before + es + [] + [DONE] == before + (es + []) + [DONE];
    }
  }

  // The payload p completes a text that parses, and r is the state after that.
  predicate Completes(d: Decoder, s: State, r: State, text: string) {
    var q := ParsePayload(d, text);
    && r.buf == ""
    && ((q.PEvents? && !r.done && r.events == s.events + q.events) ||
        (q.PEnd? && r.done && r.events == s.events + [DONE]))
  }

  lemma CompletesParses(d: Decoder, s: State, r: State, g: seq<string>)
    requires Completes(d, s, r, Cat(g))
    ensures Parses(d, g, r.done)
  {
    hide ParsePayload, Cat;
  }

  lemma AllParseMore(d: Decoder, groups: seq<seq<string>>, g: seq<string>, done: bool)
    requires AllParse(d, groups, false) && Parses(d, g, done)
    ensures AllParse(d, groups + [g], done)
  {
    hide ParsePayload, Cat;
    assert forall k :: 0 <= k < |groups| ==> Parses(d, groups[k], false) && (groups + [g])[k] == groups[k];
  }

  lemma FlatCloses(groups: seq<seq<string>>, cur: seq<string>, p: string)
    ensures Flat(groups + [cur + [p]]) + [] == Flat(groups) + cur + [p]
  {
    FlatOne(groups, cur + [p]);
    hide Flat;
    assert Flat(groups) + (cur + [p]) + [] == Flat(groups) + cur + [p];
  }

  lemma NothingCollected()
    ensures Cat([]) == ""
  {
  }

  // A group that parses is closed.
  lemma GroupCloses(d: Decoder, s: State, r: State, before: seq<Event>, groups: seq<seq<string>>,
      cur: seq<string>, p: string)
    requires !s.done && Grouped(d, s, before, groups, cur) && Completes(d, s, r, s.buf + p)
    ensures Grouped(d, r, before, groups + [cur + [p]], [])
    ensures Flat(groups + [cur + [p]]) + [] == Flat(groups) + cur + [p]
  {
    var g := cur + [p];
    hide ParsePayload, GroupEvents, Flat, EventsAre, AllParse, Parses, Cat;
    CatOne(cur, p);
    FlatCloses(groups, cur, p);
    EventsGrow(d, s, r, before, groups, g);
    CompletesParses(d, s, r, g);
    AllParseMore(d, groups, g, r.done);
    NothingCollected();
  }

  lemma GroupGrows(d: Decoder, s: State, before: seq<Event>, groups: seq<seq<string>>, cur: seq<string>, p: string)
    requires !s.done && Grouped(d, s, before, groups, cur) && p != ""
    ensures Grouped(d, s.(buf := s.buf + p), before, groups, cur + [p])
  {
    hide ParsePayload, GroupEvents, Parses;
    CatOne(cur, p);
  }

  // One payload extends the current group, and closes it when it parses.
  lemma GroupPayload(d: Decoder, s: State, p: string, emitOk: nat -> bool, before: seq<Event>,
      groups: seq<seq<string>>, cur: seq<string>) returns (groups': seq<seq<string>>, cur': seq<string>)
    requires !s.done && Grouped(d, s, before, groups, cur) && Consume(d, s, p, emitOk).err.None?
    ensures Grouped(d, Consume(d, s, p, emitOk).s, before, groups', cur')
    ensures Flat(groups') + cur' == Flat(groups) + cur + if Counts(p) then [p] else []
  {
    if !Counts(p) {
      groups', cur' := groups, cur;
      GroupSkips(d, s, p, emitOk, before, groups, cur);
    } else {
      NotEmpty(p);
      hide Blank, IsDoneMarker, ParsePayload, Grouped;
      assert Flat(groups) + cur + [p] == Flat(groups) + (cur + [p]);
      match ParsePayload(d, s.buf + p)
      case PTruncated =>
        groups', cur' := groups, cur + [p];
        GroupGrows(d, s, before, groups, cur, p);
      case PEvents(es) =>
        groups', cur' := groups + [cur + [p]], [];
        EmitAllOk(s.events, es, emitOk);
        GroupCloses(d, s, Consume(d, s, p, emitOk).s, before, groups, cur, p);
      case PEnd =>
        groups', cur' := groups + [cur + [p]], [];
        GroupCloses(d, s, Consume(d, s, p, emitOk).s, before, groups, cur, p);
    }
  }

  lemma GroupSkips(d: Decoder, s: State, p: string, emitOk: nat -> bool, before: seq<Event>,
      groups: seq<seq<string>>, cur: seq<string>)
    requires !s.done && Grouped(d, s, before, groups, cur) && Consume(d, s, p, emitOk).err.None? && !Counts(p)
    ensures Grouped(d, Consume(d, s, p, emitOk).s, before, groups, cur)
    ensures Flat(groups) + cur + [] == Flat(groups) + cur
  {
    hide Blank, IsDoneMarker, ParsePayload;
    assert before + GroupEvents(d, groups) + [] == before + GroupEvents(d, groups);
  }

  lemma NotEmpty(p: string)
    requires Counts(p)
    ensures p != ""
  {
  }

  lemma GroupLine(d: Decoder, s: State, line: string, emitOk: nat -> bool, before: seq<Event>,
      groups: seq<seq<string>>, cur: seq<string>) returns (groups': seq<seq<string>>, cur': seq<string>)
    requires !s.done && Grouped(d, s, before, groups, cur) && HandleLine(d, s, line, emitOk).err.None?
    ensures Grouped(d, HandleLine(d, s, line, emitOk).s, before, groups', cur')
    ensures Flat(groups') + cur' == Flat(groups) + cur + LineAccepts(s, line)
  {
    PayloadIsText(s, line);
    EmptyDoesNotCount();
    hide Counts, Grouped, Consume, IsControlLine, PayloadText, LinePayload;
    match LinePayload(s, line)
    case None =>
      groups', cur' := groups, cur;
      assert Flat(groups) + cur + [] == Flat(groups) + cur;
    case Some(p) =>
      groups', cur' := GroupPayload(d, s, p, emitOk, before, groups, cur);
  }

  lemma EmptyDoesNotCount()
    ensures !Counts("")
  {
  }

  lemma {:induction false} GroupBody(d: Decoder, s: State, body: string, end: ReadEnd, emitOk: nat -> bool,
      before: seq<Event>, groups: seq<seq<string>>, cur: seq<string>) returns (groups': seq<seq<string>>)
    requires !s.done && Grouped(d, s, before, groups, cur) && Parse(d, s, body, end, emitOk).err.None?
    ensures Grouped(d, Parse(d, s, body, end, emitOk).s, before, groups', [])
    ensures Parse(d, s, body, end, emitOk).s.done
    ensures Flat(groups') == Flat(groups) + cur + Accepted(d, s, body, end, emitOk)
    decreases |body|
  {
    hide LineAccepts, TrimLineEnd, LinePayload, ParsePayload, GroupEvents, Counts, Parses, HandleLine, Flat, IsData;
    var i := FindLF(body);
    var last := i == |body|;
    var line := TrimLineEnd(if last then body else body[..i + 1]);
    var r := HandleLine(d, s, line, emitOk);
    var g, c := GroupLine(d, s, line, emitOk, before, groups, cur);
    if last || r.s.done {
      DoneHasNoBuffer(d, s, line, emitOk);
      assert Flat(g) + [] == Flat(g);
      assert LineAccepts(s, line) + [] == LineAccepts(s, line);
      groups' := g;
    } else {
      groups' := GroupBody(d, r.s, body[i + 1..], end, emitOk, before, g, c);
      var more := Accepted(d, r.s, body[i + 1..], end, emitOk);
      Regrouped(Flat(groups) + cur, LineAccepts(s, line), more);
    }
  }

  lemma Regrouped(a: seq<string>, b: seq<string>, c: seq<string>)
    ensures a + b + c == a + (b + c)
  {
  }

  lemma DoneHasNoBuffer(d: Decoder, s: State, line: string, emitOk: nat -> bool)
    requires !s.done
    ensures var r := HandleLine(d, s, line, emitOk); r.s.done ==> r.s.buf == ""
  {
  }

  /** A parse that ends without an error has swallowed nothing: the payloads it took in fall into
      consecutive groups, each group's concatenation parses, the events emitted are the groups'
      events in order, and one done event comes last. */
  lemma {:induction false} NothingSwallowed(d: Decoder, body: string, end: ReadEnd, emitOk: nat -> bool)
    returns (groups: seq<seq<string>>)
    requires Parse(d, INITIAL, body, end, emitOk).err.None?
    ensures Flat(groups) == Accepted(d, INITIAL, body, end, emitOk)
    ensures forall k :: 0 <= k < |groups| ==> var p := ParsePayload(d, Cat(groups[k])); p.PEvents? || p.PEnd?
    ensures Parse(d, INITIAL, body, end, emitOk).s.events == GroupEvents(d, groups) + [DONE]
  {
    hide Parse, Accepted, ParsePayload;
    assert Grouped(d, INITIAL, [], [], []);
    groups := GroupBody(d, INITIAL, body, end, emitOk, [], [], []);
    assert Flat([]) + [] + Accepted(d, INITIAL, body, end, emitOk) == Accepted(d, INITIAL, body, end, emitOk);
    assert [] + GroupEvents(d, groups) == GroupEvents(d, groups);
  }

  lemma LineKeepsBufferBounded(d: Decoder, s: State, line: string, emitOk: nat -> bool)
    requires |s.buf| <= MAX_EVENT_BYTES
    ensures |HandleLine(d, s, line, emitOk).s.buf| <= MAX_EVENT_BYTES
  {
    hide VerdictOf, Blank, IsDoneMarker;
  }

  /** The reassembly buffer never exceeds 16 MiB, whatever the lines and the outcome. */
  lemma {:induction false} BufferBounded(d: Decoder, s: State, lines: seq<string>, emitOk: nat -> bool)
    requires |s.buf| <= MAX_EVENT_BYTES
    ensures |HandleLines(d, s, lines, emitOk).s.buf| <= MAX_EVENT_BYTES
    decreases |lines|
  {
    hide HandleLine;
    if lines != [] {
      LineKeepsBufferBounded(d, s, lines[0], emitOk);
      var r := HandleLine(d, s, lines[0], emitOk);
      if r.err.None? && !r.s.done {
        BufferBounded(d, r.s, lines[1..], emitOk);
      }
    }
  }

  // ---------------------------------------------------------------- how a parse ends

  predicate NoDone(events: seq<Event>) {
    forall i :: 0 <= i < |events| ==> events[i].kind != KDone
  }

  // A done event has been emitted exactly if the parse is done, once, and nothing after it.
  predicate EndsWithDone(s: State) {
    if s.done then s.events != [] && s.events[|s.events| - 1] == DONE && NoDone(s.events[..|s.events| - 1])
    else NoDone(s.events)
  }

  lemma {:induction false} EmitKeepsNoDone(log: seq<Event>, es: seq<ParsedEvent>, emitOk: nat -> bool)
    requires NoDone(log)
    ensures NoDone(EmitAll(log, es, emitOk).0)
    decreases |es|
  {
    if es != [] {
      var e: ParsedEvent := es[0];
      assert e.kind != KDone;
      EmitKeepsNoDone(log + [es[0]], es[1..], emitOk);
    }
  }

  lemma LineEndsWithDone(d: Decoder, s: State, line: string, emitOk: nat -> bool)
    requires !s.done && EndsWithDone(s)
    ensures EndsWithDone(HandleLine(d, s, line, emitOk).s)
  {
    hide VerdictOf, Blank, IsDoneMarker;
    match LinePayload(s, line)
    case None =>
    case Some(p) =>
      var q := ParsePayload(d, s.buf + p);
      if q.PEvents? {
        EmitKeepsNoDone(s.events, q.events, emitOk);
      }
      assert (s.events + [DONE])[..|s.events|] == s.events;
  }

  /** Whatever the outcome, the done event is emitted at most once, and last. */
  lemma {:induction false} OneDoneAtMost(d: Decoder, s: State, body: string, end: ReadEnd, emitOk: nat -> bool)
    requires !s.done && EndsWithDone(s)
    ensures EndsWithDone(Parse(d, s, body, end, emitOk).s)
    decreases |body|
  {
    hide HandleLine, TrimLineEnd, IsData;
    var i := FindLF(body);
    if i == |body| {
      LineEndsWithDone(d, s, TrimLineEnd(body), emitOk);
    } else {
      var line := TrimLineEnd(body[..i + 1]);
      LineEndsWithDone(d, s, line, emitOk);
      var r := HandleLine(d, s, line, emitOk);
      if r.err.None? && !r.s.done {
        OneDoneAtMost(d, r.s, body[i + 1..], end, emitOk);
      }
    }
  }

  /** The stream was completed by a last line that has neither a line feed nor the data: field,
      and reading that line also failed (internal/stream/sse.go:119-141). */
  predicate CompletedByBrokenTail(d: Decoder, s: State, body: string, end: ReadEnd, emitOk: nat -> bool)
    decreases |body|
  {
    var i := FindLF(body);
    if i == |body| then
      end == ReadError && !IsData(TrimLineEnd(body)) && HandleLine(d, s, TrimLineEnd(body), emitOk).s.done
    else
      var r := HandleLine(d, s, TrimLineEnd(body[..i + 1]), emitOk);
      r.err.None? && !r.s.done && CompletedByBrokenTail(d, r.s, body[i + 1..], end, emitOk)
  }

  lemma LineDoneWithoutError(d: Decoder, s: State, line: string, emitOk: nat -> bool)
    requires !s.done && forall k :: emitOk(k)
    ensures var r := HandleLine(d, s, line, emitOk); r.s.done ==> r.err.None? && r.s.buf == ""
  {
    hide VerdictOf, Blank, IsDoneMarker;
  }

  /** When every emit succeeds, a parse reports an error after the done event in exactly that
      one situation; every other error comes without a done event, every success with one. */
  lemma {:induction false} ErrorAfterDoneIff(d: Decoder, s: State, body: string, end: ReadEnd, emitOk: nat -> bool)
    requires !s.done && forall k :: emitOk(k)
    ensures var r := Parse(d, s, body, end, emitOk);
            && (r.err.None? ==> r.s.done)
            && (r.err.Some? && r.s.done <==> CompletedByBrokenTail(d, s, body, end, emitOk))
    decreases |body|
  {
    hide HandleLine, TrimLineEnd, IsData;
    var i := FindLF(body);
    if i == |body| {
      LineDoneWithoutError(d, s, TrimLineEnd(body), emitOk);
    } else {
      var line := TrimLineEnd(body[..i + 1]);
      LineDoneWithoutError(d, s, line, emitOk);
      var r := HandleLine(d, s, line, emitOk);
      if r.err.None? && !r.s.done {
        ErrorAfterDoneIff(d, r.s, body[i + 1..], end, emitOk);
      }
    }
  }

  // ---------------------------------------------------------------- an instance

  // The envelope that carries the end marker, without its closing brace.
  function EnvelopeHead(): string {
    "{" + "\"statusCodeValue\"" + ":" + "200" + "," + "\"body\"" + ":" + "\"[DONE]\""
  }

  // Nothing that ends or escapes a JSON string.
  predicate PlainBody(s: string) {
    forall i :: 0 <= i < |s| ==> s[i] >= ' ' && s[i] != '"' && s[i] != '\\'
  }

  lemma {:induction false} ScanPlain(s: string, stack: seq<Ctx>)
    requires PlainBody(s)
    ensures ScanFrom(Scan(InString, stack), s) == Scan(InString, stack)
    decreases |s|
  {
    if s != "" {
      ScanPlain(s[1..], stack);
    }
  }

  lemma ScanOne(s: Scan, c: char)
    ensures ScanFrom(s, [c]) == JsonScanner.Step(s, c)
  {
    hide JsonScanner.Step;
    assert [c][1..] == "";
  }

  // A string where a key or a value may begin.
  lemma ScanString(m: JsonScanner.Mode, stack: seq<Ctx>, body: string)
    requires PlainBody(body) && (m == BeginStringOrEmpty || m == BeginString || m == BeginValue)
    ensures ScanFrom(Scan(m, stack), "\"" + body + "\"") == Scan(EndValue, stack)
  {
    ScanOne(Scan(m, stack), '"');
    ScanPlain(body, stack);
    ScanOne(Scan(InString, stack), '"');
    hide ScanFrom, PlainBody;
    ScanConcat(Scan(m, stack), "\"", body);
    ScanConcat(Scan(m, stack), "\"" + body, "\"");
  }

  lemma ScanKey(m: JsonScanner.Mode, body: string)
    requires PlainBody(body) && (m == BeginStringOrEmpty || m == BeginString)
    ensures ScanFrom(Scan(m, [ObjectKey]), "\"" + body + "\"" + ":") == Scan(BeginValue, [ObjectValue])
  {
    ScanString(m, [ObjectKey], body);
    ScanConcat(Scan(m, [ObjectKey]), "\"" + body + "\"", ":");
    ScanOne(Scan(EndValue, [ObjectKey]), ':');
    assert [ObjectKey][0 := ObjectValue] == [ObjectValue];
    hide ScanFrom, PlainBody;
  }

  lemma ScanNumber()
    ensures ScanFrom(Scan(BeginValue, [ObjectValue]), "200" + ",") == Scan(BeginString, [ObjectKey])
  {
    ScanOne(Scan(BeginValue, [ObjectValue]), '2');
    ScanOne(Scan(Digits, [ObjectValue]), '0');
    ScanOne(Scan(Digits, [ObjectValue]), ',');
    hide ScanFrom;
    assert [ObjectValue][0 := ObjectKey] == [ObjectKey];
    ScanConcat(Scan(BeginValue, [ObjectValue]), "2", "0");
    ScanConcat(Scan(BeginValue, [ObjectValue]), "2" + "0", "0");
    ScanConcat(Scan(BeginValue, [ObjectValue]), "2" + "0" + "0", ",");
    assert "2" + "0" + "0" + "," == "200" + ",";
  }

  // The parts of the envelope, each with its key's colon or its value's comma.
  lemma HeadInParts()
    ensures EnvelopeHead() == "{" + ("\"" + "statusCodeValue" + "\"" + ":") + ("200" + ",") +
                              ("\"" + "body" + "\"" + ":") + ("\"" + "[DONE]" + "\"")
  {
    assert "\"" + "statusCodeValue" + "\"" == "\"statusCodeValue\"";
    assert "\"" + "body" + "\"" == "\"body\"" && "\"" + "[DONE]" + "\"" == "\"[DONE]\"";
    Regroup("{", "\"statusCodeValue\"", ":", "200", ",", "\"body\"", ":", "\"[DONE]\"");
  }

  lemma Regroup(a: string, b: string, c: string, d: string, e: string, f: string, g: string, h: string)
    ensures a + b + c + d + e + f + g + h == a + (b + c) + (d + e) + (f + g) + h
  {
  }

  lemma PlainWords()
    ensures PlainBody("statusCodeValue") && PlainBody("body") && PlainBody("[DONE]")
  {
  }

  lemma ScanBrace()
    ensures ScanFrom(START, "{") == Scan(BeginStringOrEmpty, [ObjectKey])
    ensures ScanFrom(Scan(EndValue, [ObjectValue]), "}") == Scan(EndTop, [])
  {
    ScanOne(START, '{');
    ScanOne(Scan(EndValue, [ObjectValue]), '}');
    hide ScanFrom;
    assert [] + [ObjectKey] == [ObjectKey] && [ObjectValue][..0] == [];
  }

  lemma ScanEnvelope()
    ensures ScanFrom(START, EnvelopeHead()) == Scan(EndValue, [ObjectValue])
    ensures ScanFrom(START, EnvelopeHead() + "}") == Scan(EndTop, [])
  {
    HeadInParts();
    PlainWords();
    ScanBrace();
    hide ScanFrom, EnvelopeHead, PlainBody, JsonScanner.Step;
    var a, b, c := "{", "\"" + "statusCodeValue" + "\"" + ":", "200" + ",";
    var d, e := "\"" + "body" + "\"" + ":", "\"" + "[DONE]" + "\"";
    ScanConcat(START, a, b);
    ScanKey(BeginStringOrEmpty, "statusCodeValue");
    ScanConcat(START, a + b, c);
    ScanNumber();
    ScanConcat(START, a + b + c, d);
    ScanKey(BeginString, "body");
    ScanConcat(START, a + b + c + d, e);
    ScanString(BeginValue, [ObjectValue], "[DONE]");
    ScanConcat(START, EnvelopeHead(), "}");
  }

  lemma EnvelopeVerdicts()
    ensures VerdictOf(EnvelopeHead()) == Truncated && VerdictOf(EnvelopeHead() + "}") == Valid
  {
    ScanEnvelope();
    hide ScanFrom, EnvelopeHead;
  }

  lemma HeadIsPlain()
    ensures 0 < |EnvelopeHead()| < 100 && StartsObject(EnvelopeHead()) && CleanLine("data: " + EnvelopeHead())
  {
  }

  lemma BraceIsNoMarker()
    ensures !Blank("}") && !IsDoneMarker("}") && !IsData("}") && !IsControlLine("}")
    ensures FindLF("}") == 1 && TrimLineEnd("}") == "}"
  {
    assert SpaceLength("}") == 0;
  }

  lemma HeadIsKept(d: Decoder)
    ensures HandleLine(d, INITIAL, "data: " + EnvelopeHead(), _ => true) ==
            Result(INITIAL.(buf := EnvelopeHead()), None)
  {
    HeadIsPlain();
    EnvelopeVerdicts();
    hide EnvelopeHead, VerdictOf, Blank, IsDoneMarker, CleanLine;
    var head := EnvelopeHead();
    ObjectNotMarker(head);
    FragmentPayload(head);
    assert INITIAL.buf + head == head;
  }

  lemma BraceCompletes(d: Decoder)
    requires d(EnvelopeHead() + "}") == DEnd
    ensures HandleLine(d, INITIAL.(buf := EnvelopeHead()), "}", _ => true).s.done
  {
    HeadIsPlain();
    EnvelopeVerdicts();
    BraceIsNoMarker();
    hide EnvelopeHead, VerdictOf, Blank, IsDoneMarker, CleanLine, IsData, IsControlLine, FindLF;
    var s := INITIAL.(buf := EnvelopeHead());
    assert s.buf != "" && |s.buf + "}"| <= MAX_EVENT_BYTES;
    assert HandleLine(d, s, "}", _ => true) == Consume(d, s, "}", _ => true);
  }

  /** Such a stream: the envelope that carries the end marker, its closing brace on a second line
      that no line feed ends, and a read error there. */
  lemma BrokenTailHappens(d: Decoder)
    requires d(EnvelopeHead() + "}") == DEnd
    ensures CompletedByBrokenTail(d, INITIAL, "data: " + EnvelopeHead() + "\n" + "}", ReadError, _ => true)
  {
    HeadIsPlain();
    BraceIsNoMarker();
    HeadIsKept(d);
    BraceCompletes(d);
    var line := "data: " + EnvelopeHead();
    FindLFAt(line, "}");
    TrimClean(line);
    hide EnvelopeHead, HandleLine, FindLF, TrimLineEnd, CleanLine, IsData;
    var body := line + "\n" + "}";
    assert body[..|line| + 1] == line + "\n" && body[|line| + 1..] == "}";
  }
}
