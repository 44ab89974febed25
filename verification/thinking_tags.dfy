// The tags themselves, and what routing one event puts out (internal/stream/thinking.go:5-9,
// 22-32, 101-141).

module ThinkingTags {
  import opened Wrappers
  import opened Events
  import opened Thinking
  import opened ThinkingTokens

  const NAMES := {"thinking", "think", "reasoning"}

  /** The tags are an opening and a closing one for each of three names; an opening one switches
      thinking on. A candidate is a prefix of one of them. */
  lemma TagsAreNamed(s: string)
    ensures IsTag(s) <==> exists name :: name in NAMES && (s == "<" + name + ">" || s == "</" + name + ">")
    ensures forall name :: name in NAMES ==> Opens("<" + name + ">") && !Opens("</" + name + ">")
    ensures IsTagPrefix(s) <==> exists name :: name in NAMES && (s <= "<" + name + ">" || s <= "</" + name + ">")
  {
    assert "<" + "thinking" + ">" == "<thinking>" && "</" + "thinking" + ">" == "</thinking>";
    assert "<" + "think" + ">" == "<think>" && "</" + "think" + ">" == "</think>";
    assert "<" + "reasoning" + ">" == "<reasoning>" && "</" + "reasoning" + ">" == "</reasoning>";
    assert "thinking" in NAMES && "think" in NAMES && "reasoning" in NAMES;
    assert forall name :: name in NAMES ==> name == "thinking" || name == "think" || name == "reasoning";
  }

  lemma TagRuns(st: RouterVal, tag: string, reasoning: bool)
    requires st.pending == "" && IsTag(tag)
    ensures Run(st, Tagged(tag, reasoning)) == (RouterVal(Opens(tag), "", false), [])
  {
    var bs := Tagged(tag, reasoning);
    assert Chars(bs) == tag && bs[..|bs|] == bs;
    TagLength(tag);
    UndecidedShorter(tag, |tag|);
    hide IsTag, IsTagPrefix, Opens;
    assert Chars(bs[..|tag| - 1]) == tag[..|tag| - 1];
    RunDecided(st, bs, |tag|);
  }

  lemma RunThen(st: RouterVal, a: seq<Byte>, s1: RouterVal, o1: seq<Byte>, b: seq<Byte>, s2: RouterVal, o2: seq<Byte>)
    requires Run(st, a) == (s1, o1) && Run(s1, b) == (s2, o2)
    ensures Run(st, a + b) == (s2, o1 + o2)
  {
    RunConcat(st, a, b);
  }

  /** A block between an opening and a closing tag, whatever their names, is thinking; what stands
      before it stays on its channel, what follows it is an answer, and the tags are gone. */
  lemma BlockIsThinking(st: RouterVal, a: string, open: string, b: string, close: string, c: string)
    requires st.pending == "" && '<' !in a && '<' !in b && '<' !in c
    requires open in NAMES && close in NAMES
    ensures Run(st, Tagged(a + ("<" + open + ">") + b + ("</" + close + ">") + c, false)) ==
            (RouterVal(false, "", false), Tagged(a, st.inThinking) + Tagged(b, true) + Tagged(c, false))
  {
    var first, last := "<" + open + ">", "</" + close + ">";
    TagsAreNamed(first);
    TagsAreNamed(last);
    hide IsTag, IsTagPrefix, Opens, Tagged, Run;
    var on, off := RouterVal(true, "", false), RouterVal(false, "", false);
    TaggedConcat(a, first, false);
    TaggedConcat(a + first, b, false);
    TaggedConcat(a + first + b, last, false);
    TaggedConcat(a + first + b + last, c, false);
    RunPlain(st, a, false);
    TagRuns(st, first, false);
    RunThen(st, Tagged(a, false), st, Tagged(a, st.inThinking), Tagged(first, false), on, []);
    RunPlain(on, b, false);
    RunThen(st, Tagged(a, false) + Tagged(first, false), on, Tagged(a, st.inThinking) + [], Tagged(b, false), on,
        Tagged(b, true));
    TagRuns(on, last, false);
    var soFar := Tagged(a, st.inThinking) + [] + Tagged(b, true);
    RunThen(st, Tagged(a, false) + Tagged(first, false) + Tagged(b, false), on, soFar, Tagged(last, false), off, []);
    RunPlain(off, c, false);
    RunThen(st, Tagged(a, false) + Tagged(first, false) + Tagged(b, false) + Tagged(last, false), off, soFar + [],
        Tagged(c, false), off, Tagged(c, false));
    assert soFar + [] + Tagged(c, false) == Tagged(a, st.inThinking) + Tagged(b, true) + Tagged(c, false);
  }

  /** A candidate that its last byte breaks comes out whole, as reasoning if any of its bytes came
      as reasoning or the router is thinking, else as an answer. */
  lemma BrokenComesOutWhole(st: RouterVal, bs: seq<Byte>)
    requires st.pending == "" && |bs| > 1
    requires IsTagPrefix(Chars(bs)[..|bs| - 1]) && !IsTag(Chars(bs)[..|bs| - 1]) && !IsTagPrefix(Chars(bs))
    ensures var (after, out) := Run(st, bs);
            && after == RouterVal(st.inThinking, "", false) && |out| == |bs|
            && forall i :: 0 <= i < |bs| ==>
                 && out[i].c == bs[i].c
                 && out[i].reasoning == (st.inThinking || exists j :: 0 <= j < |bs| && bs[j].reasoning)
  {
    TagIsPrefix(Chars(bs));
    hide IsTag, IsTagPrefix, Opens;
    assert bs[..|bs|] == bs && Chars(bs[..|bs| - 1]) == Chars(bs)[..|bs| - 1];
    RunDecided(st, bs, |bs|);
  }

  // ---------------------------------------------------------------- one event

  // What an event says: the role, a text, tool calls or how the answer ends.
  function Says(e: Event): (r: set<int>) {
    (if e.role != "" then {0} else {}) + (if e.content != "" || e.reasoning != "" then {1} else {}) +
    (if e.toolCalls != [] then {2} else {}) + (if e.finishReason.Some? then {3} else {})
  }

  predicate OneThing(e: Event, k: int) {
    Says(e) == {k}
  }

  // Every event says the same kind of thing, and carries the header of the original.
  predicate AllSay(evs: seq<Event>, k: int, ev: Event) {
    forall i :: 0 <= i < |evs| ==>
      OneThing(evs[i], k) && evs[i].kind == KDelta && evs[i].id == ev.id && evs[i].model == ev.model &&
      evs[i].created == ev.created && evs[i].usage == ev.usage
  }

  lemma PiecesSay(ev: Event, bs: seq<Byte>)
    requires ev.kind == KDelta
    ensures AllSay(PieceEvents(Bare(ev), Group(bs)), 1, ev)
  {
    GroupIsCanonical(bs);
    hide Group;
    var pieces := Group(bs);
    forall i | 0 <= i < |pieces| ensures OneThing(PieceEvents(Bare(ev), pieces)[i], 1) {
      assert pieces[i].text != "";
    }
  }

  /** What is put out for one delta: the role first, then the texts, then the tool calls, and how
      the answer ends last, each in events of its own with the header of the delta; if the delta
      says nothing, or only what is pending, one event that says nothing. */
  lemma RoutedInOrder(st: RouterVal, ev: Event)
      returns (role: seq<Event>, texts: seq<Event>, tools: seq<Event>, end: seq<Event>)
    requires ev.kind == KDelta
    ensures AllSay(role, 0, ev) && AllSay(texts, 1, ev) && AllSay(tools, 2, ev) && AllSay(end, 3, ev)
    ensures |role| == (if ev.role != "" then 1 else 0) && (role != [] ==> role[0].role == ev.role)
    ensures |tools| == (if ev.toolCalls != [] then 1 else 0) && (tools != [] ==> tools[0].toolCalls == ev.toolCalls)
    ensures |end| == (if ev.finishReason.Some? then 1 else 0) && (end != [] ==> end[0].finishReason == ev.finishReason)
    ensures var out := Routed(st, ev).1;
            var parts := role + texts + tools + end;
            if parts != [] then out == parts
            else |out| == 1 && Says(out[0]) == {} && out[0].id == ev.id && out[0].model == ev.model &&
                 out[0].created == ev.created && out[0].usage == ev.usage && out[0].kind == KDelta
  {
    hide Run, Group;
    var base := Bare(ev);
    var (s1, o1) := Run(st, Tagged(ev.reasoning, true));
    var (s2, o2) := Run(s1, Tagged(ev.content, false));
    PiecesSay(ev, o1);
    PiecesSay(ev, o2);
    role := if ev.role != "" then [base.(role := ev.role)] else [];
    texts := PieceEvents(base, Group(o1)) + PieceEvents(base, Group(o2));
    tools := if ev.toolCalls != [] then [base.(toolCalls := ev.toolCalls)] else [];
    end := if ev.finishReason.Some? then [base.(finishReason := ev.finishReason)] else [];
    assert role + PieceEvents(base, Group(o1)) + PieceEvents(base, Group(o2)) + tools + end ==
           role + texts + tools + end;
  }
}
