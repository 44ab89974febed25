// The incremental thinking-tag router (internal/stream/thinking.go).

module Thinking {
  import opened Wrappers
  import opened Events

  predicate IsTag(s: string) {
    || s == "<thinking>" || s == "</thinking>"
    || s == "<think>" || s == "</think>"
    || s == "<reasoning>" || s == "</reasoning>"
  }

  // Meant for tags: whether the tag switches thinking on.
  predicate Opens(s: string) {
    s == "<thinking>" || s == "<think>" || s == "<reasoning>"
  }

  predicate IsTagPrefix(s: string) {
    || s <= "<thinking>" || s <= "</thinking>"
    || s <= "<think>" || s <= "</think>"
    || s <= "<reasoning>" || s <= "</reasoning>"
  }

  datatype Piece = Piece(reasoning: bool, text: string)
  datatype RouterVal = RouterVal(inThinking: bool, pending: string, pendingReasoning: bool)

  // One byte with its channel: where it comes from, or where it goes.
  datatype Byte = Byte(c: char, reasoning: bool)

  const INITIAL := RouterVal(false, "", false)

  function Tagged(s: string, reasoning: bool): (r: seq<Byte>)
    ensures |r| == |s|
  {
    seq(|s|, i requires 0 <= i < |s| => Byte(s[i], reasoning))
  }

  function Chars(bs: seq<Byte>): (r: string)
    ensures |r| == |bs|
  {
    seq(|bs|, i requires 0 <= i < |bs| => bs[i].c)
  }

  // ---------------------------------------------------------------- one byte at a time

  function StepByte(st: RouterVal, b: Byte): (RouterVal, seq<Byte>) {
    if st.pending == "" then
      if b.c == '<' then (st.(pending := "<", pendingReasoning := b.reasoning), [])
      else (st, [Byte(b.c, b.reasoning || st.inThinking)])
    else
      var p := st.pending + [b.c];
      var pr := st.pendingReasoning || b.reasoning;
      if IsTag(p) then (RouterVal(Opens(p), "", false), [])
      else if IsTagPrefix(p) then (RouterVal(st.inThinking, p, pr), [])
      else (RouterVal(st.inThinking, "", false), Tagged(p, pr || st.inThinking))
  }

  function Run(st: RouterVal, bs: seq<Byte>): (RouterVal, seq<Byte>) {
    if bs == [] then (st, [])
    else
      var (s1, o1) := Run(st, bs[..|bs| - 1]);
      var (s2, o2) := StepByte(s1, bs[|bs| - 1]);
      (s2, o1 + o2)
  }

  lemma RunMore(st: RouterVal, bs: seq<Byte>, b: Byte)
    ensures var (s1, o1) := Run(st, bs);
            var (s2, o2) := StepByte(s1, b);
            Run(st, bs + [b]) == (s2, o1 + o2)
  {
    hide StepByte;
    assert (bs + [b])[..|bs|] == bs;
  }

  lemma RunNothing(st: RouterVal)
    ensures Run(st, []) == (st, [])
  {
  }

  lemma {:induction false} RunConcat(st: RouterVal, a: seq<Byte>, b: seq<Byte>)
    ensures Run(st, a + b) == (Run(Run(st, a).0, b).0, Run(st, a).1 + Run(Run(st, a).0, b).1)
  {
    hide *;
    var (s1, o1) := Run(st, a);
    if b == [] {
      assert a + b == a && o1 + [] == o1;
      RunNothing(s1);
    } else {
      var front, last := b[..|b| - 1], b[|b| - 1];
      assert b == front + [last] && a + b == a + front + [last];
      RunConcat(st, a, front);
      RunMore(st, a + front, last);
      RunMore(s1, front, last);
      var (s2, o2) := Run(s1, front);
      var o3 := StepByte(s2, last).1;
      assert o1 + o2 + o3 == o1 + (o2 + o3);
    }
  }

  lemma TaggedMore(s: string, c: char, reasoning: bool)
    ensures Tagged(s + [c], reasoning) == Tagged(s, reasoning) + [Byte(c, reasoning)]
  {
  }

  lemma TaggedConcat(a: string, b: string, reasoning: bool)
    ensures Tagged(a + b, reasoning) == Tagged(a, reasoning) + Tagged(b, reasoning)
  {
  }

  // Bytes other than '<' pass straight through; the fast path over IndexByte relies on it.
  lemma {:induction false} RunPlain(st: RouterVal, s: string, reasoning: bool)
    requires st.pending == "" && '<' !in s
    ensures Run(st, Tagged(s, reasoning)) == (st, Tagged(s, reasoning || st.inThinking))
  {
    hide Tagged, IsTag, IsTagPrefix, Opens;
    if s != "" {
      var front, c := s[..|s| - 1], s[|s| - 1];
      assert s == front + [c];
      TaggedMore(front, c, reasoning);
      TaggedMore(front, c, reasoning || st.inThinking);
      RunPlain(st, front, reasoning);
      var bs := Tagged(s, reasoning);
      assert bs[..|bs| - 1] == Tagged(front, reasoning);
    }
  }

  // ---------------------------------------------------------------- pieces

  function EmitPiece(out: seq<Piece>, reasoning: bool, text: string): seq<Piece> {
    if text == "" then out
    else
      var n := |out| - 1;
      if n >= 0 && out[n].reasoning == reasoning then out[..n] + [Piece(reasoning, out[n].text + text)]
      else out + [Piece(reasoning, text)]
  }

  // The bytes in order, maximal runs of one channel merged into one piece.
  function Group(bs: seq<Byte>): seq<Piece> {
    if bs == [] then []
    else EmitPiece(Group(bs[..|bs| - 1]), bs[|bs| - 1].reasoning, [bs[|bs| - 1].c])
  }

  // The two ways a text is added: to the last piece, or as a new one.
  lemma EmitMerges(front: seq<Piece>, last: Piece, text: string)
    requires text != ""
    ensures EmitPiece(front + [last], last.reasoning, text) == front + [Piece(last.reasoning, last.text + text)]
  {
    assert (front + [last])[..|front|] == front;
  }

  lemma EmitAppends(out: seq<Piece>, reasoning: bool, text: string)
    requires text != "" && (out == [] || out[|out| - 1].reasoning != reasoning)
    ensures EmitPiece(out, reasoning, text) == out + [Piece(reasoning, text)]
  {
  }

  lemma EmitNothing(out: seq<Piece>, reasoning: bool)
    ensures EmitPiece(out, reasoning, "") == out
  {
  }

  lemma EmitTwice(out: seq<Piece>, reasoning: bool, a: string, b: string)
    ensures EmitPiece(EmitPiece(out, reasoning, a), reasoning, b) == EmitPiece(out, reasoning, a + b)
  {
    hide *;
    EmitNothing(out, reasoning);
    EmitNothing(EmitPiece(out, reasoning, a), reasoning);
    if a == "" {
      assert a + b == b;
    } else if b == "" {
      assert a + b == a;
    } else if out == [] || out[|out| - 1].reasoning != reasoning {
      EmitAppends(out, reasoning, a);
      EmitMerges(out, Piece(reasoning, a), b);
      EmitAppends(out, reasoning, a + b);
    } else {
      var front, last := out[..|out| - 1], out[|out| - 1];
      assert out == front + [last];
      EmitMerges(front, last, a);
      EmitMerges(front, Piece(reasoning, last.text + a), b);
      EmitMerges(front, last, a + b);
      assert last.text + a + b == last.text + (a + b);
    }
  }

  lemma GroupMore(bs: seq<Byte>, b: Byte)
    ensures Group(bs + [b]) == EmitPiece(Group(bs), b.reasoning, [b.c])
  {
    assert (bs + [b])[..|bs|] == bs;
  }

  lemma {:induction false} GroupEmit(bs: seq<Byte>, s: string, reasoning: bool)
    ensures Group(bs + Tagged(s, reasoning)) == EmitPiece(Group(bs), reasoning, s)
  {
    hide *;
    if s == "" {
      assert bs + Tagged(s, reasoning) == bs;
      EmitNothing(Group(bs), reasoning);
    } else {
      var front, c := s[..|s| - 1], s[|s| - 1];
      assert s == front + [c];
      TaggedMore(front, c, reasoning);
      var earlier := bs + Tagged(front, reasoning);
      assert bs + Tagged(s, reasoning) == earlier + [Byte(c, reasoning)];
      GroupEmit(bs, front, reasoning);
      GroupMore(earlier, Byte(c, reasoning));
      EmitTwice(Group(bs), reasoning, front, [c]);
    }
  }

  function Flatten(pieces: seq<Piece>): seq<Byte> {
    if pieces == [] then []
    else Flatten(pieces[..|pieces| - 1]) + Tagged(pieces[|pieces| - 1].text, pieces[|pieces| - 1].reasoning)
  }

  ghost predicate Canonical(pieces: seq<Piece>) {
    && (forall i :: 0 <= i < |pieces| ==> pieces[i].text != "")
    && forall i, j :: 0 <= i < j < |pieces| && j == i + 1 ==> pieces[i].reasoning != pieces[j].reasoning
  }

  lemma FlattenMore(pieces: seq<Piece>, p: Piece)
    ensures Flatten(pieces + [p]) == Flatten(pieces) + Tagged(p.text, p.reasoning)
  {
    assert (pieces + [p])[..|pieces|] == pieces;
  }

  lemma MergeKeepsCanonical(front: seq<Piece>, last: Piece, c: char)
    requires Canonical(front + [last])
    ensures Canonical(front + [Piece(last.reasoning, last.text + [c])])
  {
    var g, h := front + [last], front + [Piece(last.reasoning, last.text + [c])];
    assert forall i :: 0 <= i < |g| ==> h[i].reasoning == g[i].reasoning && (i < |front| ==> h[i] == g[i]);
  }

  lemma AppendKeepsCanonical(g: seq<Piece>, p: Piece)
    requires Canonical(g) && p.text != "" && (g == [] || g[|g| - 1].reasoning != p.reasoning)
    ensures Canonical(g + [p])
  {
  }

  lemma EmitKeepsCanonical(g: seq<Piece>, b: Byte)
    requires Canonical(g)
    ensures var h := EmitPiece(g, b.reasoning, [b.c]); Canonical(h) && Flatten(h) == Flatten(g) + [b]
  {
    hide *;
    if g == [] || g[|g| - 1].reasoning != b.reasoning {
      EmitAppends(g, b.reasoning, [b.c]);
      AppendKeepsCanonical(g, Piece(b.reasoning, [b.c]));
      FlattenMore(g, Piece(b.reasoning, [b.c]));
      TaggedMore("", b.c, b.reasoning);
      assert "" + [b.c] == [b.c] && Tagged("", b.reasoning) + [b] == [b];
    } else {
      var front, last := g[..|g| - 1], g[|g| - 1];
      assert g == front + [last];
      EmitMerges(front, last, [b.c]);
      MergeKeepsCanonical(front, last, b.c);
      FlattenMore(front, last);
      FlattenMore(front, Piece(b.reasoning, last.text + [b.c]));
      TaggedMore(last.text, b.c, b.reasoning);
      assert Flatten(front) + (Tagged(last.text, b.reasoning) + [b]) == Flatten(front) +
          Tagged(last.text, b.reasoning) + [b];
    }
  }

  lemma NothingIsCanonical()
    ensures Group([]) == [] && Canonical([]) && Flatten([]) == []
  {
  }

  /** The pieces are exactly the bytes, none of them empty, and no two neighbours could be merged. */
  lemma {:induction false} GroupIsCanonical(bs: seq<Byte>)
    ensures Canonical(Group(bs)) && Flatten(Group(bs)) == bs
  {
    hide *;
    if bs == [] {
      NothingIsCanonical();
    } else {
      var front, b := bs[..|bs| - 1], bs[|bs| - 1];
      assert bs == front + [b];
      GroupIsCanonical(front);
      GroupMore(front, b);
      EmitKeepsCanonical(Group(front), b);
    }
  }

  // ---------------------------------------------------------------- routing an event

  function PieceEvent(base: Event, p: Piece): Event {
    if p.reasoning then base.(reasoning := p.text) else base.(content := p.text)
  }

  function PieceEvents(base: Event, pieces: seq<Piece>): (r: seq<Event>)
    ensures |r| == |pieces|
  {
    seq(|pieces|, i requires 0 <= i < |pieces| => PieceEvent(base, pieces[i]))
  }

  function Bare(ev: Event): Event {
    ev.(role := "", content := "", reasoning := "", toolCalls := [], finishReason := None)
  }

  // The router after the event, and the events put out for it: role, pieces of the reasoning,
  // pieces of the content, tool calls, finish reason; a bare event if there is none of these.
  function Routed(st: RouterVal, ev: Event): (RouterVal, seq<Event>) {
    if ev.kind != KDelta then (st, [ev])
    else
      var base := Bare(ev);
      var (s1, o1) := Run(st, Tagged(ev.reasoning, true));
      var (s2, o2) := Run(s1, Tagged(ev.content, false));
      var out :=
        (if ev.role != "" then [base.(role := ev.role)] else []) +
        PieceEvents(base, Group(o1)) +
        PieceEvents(base, Group(o2)) +
        (if ev.toolCalls != [] then [base.(toolCalls := ev.toolCalls)] else []) +
        (if ev.finishReason.Some? then [base.(finishReason := ev.finishReason)] else []);
      (s2, if out == [] then [base] else out)
  }

  // ---------------------------------------------------------------- the object

  class ThinkingRouter {
    var inThinking: bool
    var pending: string
    var pendingReasoning: bool

    function Val(): RouterVal
      reads this
    {
      RouterVal(inThinking, pending, pendingReasoning)
    }

    constructor ()
      ensures Val() == INITIAL
    {
      inThinking, pending, pendingReasoning := false, "", false;
    }

    method Feed(text: string, sourceReasoning: bool) returns (out: seq<Piece>)
      modifies this
      ensures Val() == Run(old(Val()), Tagged(text, sourceReasoning)).0
      ensures out == Group(Run(old(Val()), Tagged(text, sourceReasoning)).1)
    {
      hide IsTag, IsTagPrefix, Opens, Run, Group, EmitPiece;
      out := [];
      var rest := text;
      ghost var start := Val();
      ghost var fed, done: seq<Byte> := "", [];
      FedNothing(start, sourceReasoning);
      while |rest| > 0
        invariant fed + rest == text
        invariant Fed(start, fed, sourceReasoning, Val(), done, out)
        decreases |rest|
      {
        ghost var before := Val();
        if pending == "" {
          var i := IndexByte(rest, '<');
          if i < 0 {
            FedPlain(start, fed, rest, sourceReasoning, before, done, out);
            done := done + Tagged(rest, sourceReasoning || inThinking);
            out := EmitPiece(out, sourceReasoning || inThinking, rest);
            fed := fed + rest;
            rest := "";
            break;
          }
          FedPlain(start, fed, rest[..i], sourceReasoning, before, done, out);
          done := done + Tagged(rest[..i], sourceReasoning || inThinking);
          if i > 0 {
            out := EmitPiece(out, sourceReasoning || inThinking, rest[..i]);
          } else {
            EmitNothing(out, sourceReasoning || inThinking);
          }
          fed := fed + rest[..i];
          FedByte(start, fed, rest[i], sourceReasoning, before, done, out);
          fed := fed + [rest[i]];
          pending := "<";
          pendingReasoning := sourceReasoning;
          rest := rest[i + 1..];
        } else {
          FedByte(start, fed, rest[0], sourceReasoning, before, done, out);
          fed := fed + [rest[0]];
          assert rest[..1] == [rest[0]];
          pending := pending + rest[..1];
          pendingReasoning := pendingReasoning || sourceReasoning;
          rest := rest[1..];
          if IsTag(pending) {
            inThinking := Opens(pending);
            pending := "";
            pendingReasoning := false;
            continue;
          }
          if IsTagPrefix(pending) {
            continue;
          }
          done := done + Tagged(pending, pendingReasoning || inThinking);
          out := EmitPiece(out, pendingReasoning || inThinking, pending);
          pending := "";
          pendingReasoning := false;
        }
      }
      assert fed == text;
    }

    method Route(ev: Event) returns (out: seq<Event>)
      modifies this
      ensures Val() == Routed(old(Val()), ev).0 && out == Routed(old(Val()), ev).1
    {
      hide Run, Group;
      if ev.kind != KDelta {
        return [ev];
      }
      var base := ev.(content := "", reasoning := "", toolCalls := [], finishReason := None);
      out := [];
      if ev.role != "" {
        out := [base];
        base := base.(role := "");
      }
      assert base == Bare(ev) && out == if ev.role != "" then [base.(role := ev.role)] else [];
      var pieces := Feed(ev.reasoning, true);
      out := out + PieceEvents(base, pieces);
      pieces := Feed(ev.content, false);
      out := out + PieceEvents(base, pieces);
      out := out + if |ev.toolCalls| > 0 then [base.(toolCalls := ev.toolCalls)] else [];
      out := out + if ev.finishReason.Some? then [base.(finishReason := ev.finishReason)] else [];
      if |out| == 0 {
        out := out + [base];
      }
    }

    method Finalize() returns (out: seq<Piece>)
      modifies this
      ensures Val() ==
              old(Val()).(pending := "",
                  pendingReasoning := if old(pending) == "" then old(pendingReasoning) else false)
      ensures out == Group(Tagged(old(pending), old(pendingReasoning) || inThinking))
    {
      if pending == "" {
        return [];
      }
      out := [Piece(pendingReasoning || inThinking, pending)];
      GroupEmit([], pending, pendingReasoning || inThinking);
      assert [] + Tagged(pending, pendingReasoning || inThinking) == Tagged(pending, pendingReasoning || inThinking);
      pending := "";
      pendingReasoning := false;
    }
  }

  method IndexByte(s: string, c: char) returns (i: int)
    ensures -1 <= i < |s|
    ensures i < 0 ==> c !in s
    ensures i >= 0 ==> s[i] == c && c !in s[..i]
  {
    for k := 0 to |s|
      invariant c !in s[..k]
    {
      if s[k] == c {
        return k;
      }
    }
    i := -1;
  }

  // Feeding `fed` from `start` has led to state st, output bytes done, and pieces out.
  predicate Fed(start: RouterVal, fed: string, reasoning: bool, st: RouterVal, done: seq<Byte>, out: seq<Piece>) {
    Run(start, Tagged(fed, reasoning)) == (st, done) && out == Group(done)
  }

  lemma FedNothing(start: RouterVal, reasoning: bool)
    ensures Fed(start, "", reasoning, start, [], [])
  {
  }

  lemma FedPlain(start: RouterVal, fed: string, more: string, reasoning: bool, st: RouterVal, done: seq<Byte>,
      out: seq<Piece>)
    requires Fed(start, fed, reasoning, st, done, out) && st.pending == "" && '<' !in more
    ensures var ch := reasoning || st.inThinking;
            Fed(start, fed + more, reasoning, st, done + Tagged(more, ch), EmitPiece(out, ch, more))
  {
    hide Run, Group, EmitPiece, Tagged;
    TaggedConcat(fed, more, reasoning);
    RunConcat(start, Tagged(fed, reasoning), Tagged(more, reasoning));
    RunPlain(st, more, reasoning);
    GroupEmit(done, more, reasoning || st.inThinking);
  }

  lemma FedByte(start: RouterVal, fed: string, c: char, reasoning: bool, st: RouterVal, done: seq<Byte>,
      out: seq<Piece>)
    requires Fed(start, fed, reasoning, st, done, out)
    ensures var p := st.pending + [c];
            var pr := st.pendingReasoning || reasoning;
            var ch := pr || st.inThinking;
            if st.pending == "" then
              c == '<' ==> Fed(start, fed + [c], reasoning, st.(pending := "<", pendingReasoning := reasoning), done,
                  out)
            else if IsTag(p) then Fed(start, fed + [c], reasoning, RouterVal(Opens(p), "", false), done, out)
            else if IsTagPrefix(p) then Fed(start, fed + [c], reasoning, RouterVal(st.inThinking, p, pr), done, out)
            else Fed(start, fed + [c], reasoning, RouterVal(st.inThinking, "", false), done + Tagged(p, ch),
                EmitPiece(out, ch, p))
  {
    hide IsTag, IsTagPrefix, Opens;
    var bs := Tagged(fed + [c], reasoning);
    assert bs[..|bs| - 1] == Tagged(fed, reasoning);
    assert done + [] == done;
    var p := st.pending + [c];
    GroupEmit(done, p, st.pendingReasoning || reasoning || st.inThinking);
  }
}
