// Cutting one JSON text into several data: lines (internal/stream/sse.go:29-76, 106-129).

module SseFrames {
  import opened Wrappers
  import opened JsonScanner
  import opened Sse

  // Lines in order, until an error or the end marker.
  function HandleLines(d: Decoder, s: State, lines: seq<string>, emitOk: nat -> bool): Result
    decreases |lines|
  {
    if lines == [] then Result(s, None)
    else
      var r := HandleLine(d, s, lines[0], emitOk);
      if r.err.Some? || r.s.done then r else HandleLines(d, r.s, lines[1..], emitOk)
  }

  // A line that carries nothing: blank, a control line, or a blank data: line.
  predicate Inert(line: string) {
    if IsData(line) then Blank(DataPart(line)) else IsControlLine(line) || Blank(line)
  }

  // A piece of the text on a data: line, with or without a space behind the colon, a piece on a
  // line without the field, or another line.
  datatype Item = Fragment(text: string, spaced: bool) | Bare(text: string) | Other(line: string)

  predicate GoodItem(it: Item) {
    match it
    case Fragment(f, spaced) => !Blank(f) && !IsDoneMarker(f) && (spaced || f[0] != ' ')
    case Bare(f) => !Blank(f) && !IsDoneMarker(f) && !IsData(f) && !IsControlLine(f)
    case Other(l) => Inert(l)
  }

  // The first piece is on a data: line; only then do lines without the field count.
  predicate StartsWithField(items: seq<Item>) {
    items != [] && (items[0].Fragment? || (items[0].Other? && StartsWithField(items[1..])))
  }

  // A cut text: pieces with inert lines anywhere before the last piece.
  predicate Pieces(items: seq<Item>) {
    && items != [] && !items[|items| - 1].Other?
    && forall i :: 0 <= i < |items| ==> GoodItem(items[i])
  }

  predicate GoodCut(items: seq<Item>) {
    Pieces(items) && StartsWithField(items)
  }

  function LineOf(it: Item): string {
    match it
    case Fragment(f, spaced) => (if spaced then "data: " else "data:") + f
    case Bare(f) => f
    case Other(l) => l
  }

  function LinesOf(items: seq<Item>): (r: seq<string>)
    ensures |r| == |items|
  {
    seq(|items|, i requires 0 <= i < |items| => LineOf(items[i]))
  }

  function Whole(items: seq<Item>): string {
    if items == [] then ""
    else (if items[0].Other? then "" else items[0].text) + Whole(items[1..])
  }

  // No boundary between two pieces, the text before them being p, falls inside a token that
  // cannot stop there.
  predicate CleanCuts(p: string, items: seq<Item>)
    decreases |items|
  {
    if |items| <= 1 then true
    else match items[0]
      case Other(_) => CleanCuts(p, items[1..])
      case _ => !CutInsideToken(p + items[0].text) && CleanCuts(p + items[0].text, items[1..])
  }

  lemma {:induction false} SpacesAreBlank(s: string)
    requires AllSpace(s)
    ensures Blank(s)
    decreases |s|
  {
    if s != "" {
      assert IsSpace(s[0]) && SpaceLength(s) == 1;
      SpacesAreBlank(s[1..]);
    }
  }

  lemma {:induction false} ObjectNotMarker(s: string)
    requires StartsObject(s)
    ensures !Blank(s) && !IsDoneMarker(s)
    decreases |s|
  {
    if IsSpace(s[0]) {
      assert SpaceLength(s) == 1;
      ObjectNotMarker(s[1..]);
    } else {
      assert SpaceLength(s) == 0;
    }
  }

  lemma FragmentPayload(f: string)
    ensures IsData("data: " + f) && DataPart("data: " + f) == f
    ensures IsData("data:" + f) && DataPart("data:" + f) == if f != "" && f[0] == ' ' then f[1..] else f
  {
    var line := "data: " + f;
    assert line[..5] == "data:" && line[5..] == " " + f;
    assert ("data:" + f)[5..] == f;
  }

  /** The space behind the colon is optional: a payload that does not start with a space has the
      same effect with and without it. */
  lemma SpaceIsOptional(d: Decoder, s: State, f: string, emitOk: nat -> bool)
    requires f == "" || f[0] != ' '
    ensures HandleLine(d, s, "data:" + f, emitOk) == HandleLine(d, s, "data: " + f, emitOk)
            == Consume(d, s, f, emitOk)
  {
    FragmentPayload(f);
    hide Consume;
  }

  lemma InertDoesNothing(d: Decoder, s: State, line: string, emitOk: nat -> bool)
    requires Inert(line)
    ensures HandleLine(d, s, line, emitOk) == Result(s, None)
  {
  }

  lemma {:induction false} WholeNotSpace(items: seq<Item>)
    requires Pieces(items)
    ensures !AllSpace(Whole(items))
    decreases |items|
  {
    assert GoodItem(items[0]);
    hide Blank, IsDoneMarker, Inert, IsData, IsControlLine;
    if items[0].Other? {
      RestIsPieces(items);
      WholeNotSpace(items[1..]);
      assert Whole(items) == Whole(items[1..]);
    } else {
      var f := items[0].text;
      if AllSpace(f) {
        SpacesAreBlank(f);
      }
      var i :| 0 <= i < |f| && !IsSpace(f[i]);
      assert Whole(items)[i] == f[i];
    }
  }

  lemma RestIsPieces(items: seq<Item>)
    requires Pieces(items) && |items| > 1
    ensures Pieces(items[1..])
  {
    hide GoodItem;
    assert items[1..][|items| - 2] == items[|items| - 1];
  }

  // What the whole text on one line leads to, starting with an empty buffer.
  function OneLine(d: Decoder, s: State, text: string, emitOk: nat -> bool): Result {
    Consume(d, s.(buf := ""), text, emitOk)
  }

  // Alike to whoever reads the stream: the same error and the same events, and as long as there is
  // no error the same buffer. After one nothing reads the buffer any more.
  predicate Alike(a: Result, b: Result) {
    a.err == b.err && a.s.(buf := "") == b.s.(buf := "") && (a.err.None? ==> a.s.buf == b.s.buf)
  }

  // What the buffer held before makes no difference to how the whole text is taken.
  lemma TakenAlike(d: Decoder, s: State, whole: string, emitOk: nat -> bool)
    ensures Alike(Take(d, s, whole, emitOk), Take(d, s.(buf := ""), whole, emitOk))
  {
    hide ParsePayload, EmitAll;
  }

  lemma LastPiece(d: Decoder, s: State, f: string, emitOk: nat -> bool)
    requires !s.done && IsObjectText(s.buf + f) && |s.buf + f| <= MAX_EVENT_BYTES
    requires !Blank(f) && !IsDoneMarker(f)
    ensures Alike(Consume(d, s, f, emitOk), OneLine(d, s, s.buf + f, emitOk))
  {
    ObjectNotMarker(s.buf + f);
    TakenAlike(d, s, s.buf + f, emitOk);
    hide Take, Blank, IsDoneMarker, IsObjectText, Alike;
    assert "" + (s.buf + f) == s.buf + f;
  }

  // A piece with more to come: it is kept, or the parse ends with a syntax error.
  lemma EarlierPiece(d: Decoder, s: State, f: string, q: string, emitOk: nat -> bool)
    requires !s.done && IsObjectText(s.buf + f + q) && |s.buf + f + q| <= MAX_EVENT_BYTES
    requires !Blank(f) && !IsDoneMarker(f) && !AllSpace(q)
    ensures var r := Consume(d, s, f, emitOk);
            if CutInsideToken(s.buf + f) then r.err == Some(MalformedJson) && r.s.events == s.events
            else r == Result(s.(buf := s.buf + f), None)
  {
    if AllSpace(s.buf + f) {
      assert forall i :: 0 <= i < |f| ==> f[i] == (s.buf + f)[|s.buf| + i];
      SpacesAreBlank(f);
    }
    ProperPrefixVerdict(s.buf + f, q);
    hide VerdictOf, Blank, IsDoneMarker, CutInsideToken;
  }

  lemma FirstIsGood(items: seq<Item>)
    requires Pieces(items)
    ensures GoodItem(items[0]) && (|items| == 1 ==> !items[0].Other?)
  {
    hide GoodItem;
  }

  // A line with a piece on it hands the piece on, if the field or the buffer makes it count.
  lemma PieceIsConsumed(d: Decoder, s: State, it: Item, emitOk: nat -> bool)
    requires !it.Other? && GoodItem(it) && (it.Fragment? || s.buf != "")
    ensures HandleLine(d, s, LineOf(it), emitOk) == Consume(d, s, it.text, emitOk)
    ensures !Blank(it.text) && !IsDoneMarker(it.text)
  {
    hide VerdictOf, Consume, IsDoneMarker;
    if it.Fragment? {
      FragmentPayload(it.text);
    } else {
      assert it.text != "";
    }
  }

  // One line of a cut text.
  lemma LinesStep(d: Decoder, s: State, items: seq<Item>, emitOk: nat -> bool)
    requires items != []
    ensures var r := HandleLine(d, s, LineOf(items[0]), emitOk);
            HandleLines(d, s, LinesOf(items), emitOk) ==
            if r.err.Some? || r.s.done then r else HandleLines(d, r.s, LinesOf(items[1..]), emitOk)
  {
    hide HandleLine, LineOf;
    assert LinesOf(items)[1..] == LinesOf(items[1..]);
  }

  lemma NoMoreLines(d: Decoder, s: State, emitOk: nat -> bool)
    ensures HandleLines(d, s, LinesOf([]), emitOk) == Result(s, None) && Whole([]) == ""
  {
  }

  // The text of the first item, and what its end is a cut of.
  function TextOf(it: Item): string {
    if it.Other? then "" else it.text
  }

  lemma CutStep(p: string, items: seq<Item>)
    requires |items| > 1
    ensures CleanCuts(p, items) <==>
            (items[0].Other? || !CutInsideToken(p + TextOf(items[0]))) && CleanCuts(p + TextOf(items[0]), items[1..])
  {
    hide CutInsideToken;
    assert p + "" == p;
  }

  lemma WholeStep(items: seq<Item>)
    requires items != []
    ensures Whole(items) == TextOf(items[0]) + Whole(items[1..])
  {
  }

  lemma OneIsClean(p: string, items: seq<Item>)
    requires |items| <= 1
    ensures CleanCuts(p, items)
  {
  }

  // Cut cleanly, the lines do what the whole text on one line does; otherwise they are refused.
  predicate ActsAsCut(d: Decoder, s: State, items: seq<Item>, emitOk: nat -> bool) {
    var r := HandleLines(d, s, LinesOf(items), emitOk);
    if CleanCuts(s.buf, items) then Alike(r, OneLine(d, s, s.buf + Whole(items), emitOk))
    else r.err == Some(MalformedJson) && r.s.events == s.events
  }

  lemma OtherLine(d: Decoder, s: State, items: seq<Item>, emitOk: nat -> bool)
    requires |items| > 1 && items[0].Other? && GoodItem(items[0]) && !s.done
    requires ActsAsCut(d, s, items[1..], emitOk)
    ensures ActsAsCut(d, s, items, emitOk)
  {
    hide Consume, HandleLine, Inert, GoodItem, LineOf, LinesOf, HandleLines, CleanCuts, Whole, CutInsideToken;
    LinesStep(d, s, items, emitOk);
    WholeStep(items);
    CutStep(s.buf, items);
    OtherIsInert(items[0]);
    InertDoesNothing(d, s, items[0].line, emitOk);
    LineOfOther(items[0]);
    assert s.buf + "" == s.buf && "" + Whole(items[1..]) == Whole(items[1..]);
  }

  lemma LastLine(d: Decoder, s: State, items: seq<Item>, emitOk: nat -> bool)
    requires |items| == 1 && !items[0].Other? && GoodItem(items[0]) && (items[0].Fragment? || s.buf != "") && !s.done
    requires IsObjectText(s.buf + Whole(items)) && |s.buf + Whole(items)| <= MAX_EVENT_BYTES
    ensures ActsAsCut(d, s, items, emitOk)
  {
    hide Consume, HandleLine, IsObjectText, GoodItem, LineOf, LinesOf, HandleLines, CleanCuts, Whole, CutInsideToken;
    var f := items[0].text;
    LinesStep(d, s, items, emitOk);
    WholeStep(items);
    PieceIsConsumed(d, s, items[0], emitOk);
    NoMoreLines(d, Consume(d, s, f, emitOk).s, emitOk);
    OneIsClean(s.buf, items);
    assert items[1..] == [] && f + "" == f;
    LastPiece(d, s, f, emitOk);
  }

  lemma EarlierLine(d: Decoder, s: State, items: seq<Item>, emitOk: nat -> bool)
    requires |items| > 1 && !items[0].Other? && GoodItem(items[0]) && (items[0].Fragment? || s.buf != "") && !s.done
    requires IsObjectText(s.buf + items[0].text + Whole(items[1..])) && !AllSpace(Whole(items[1..]))
    requires |s.buf + items[0].text + Whole(items[1..])| <= MAX_EVENT_BYTES
    requires !CutInsideToken(s.buf + items[0].text) ==>
               ActsAsCut(d, s.(buf := s.buf + items[0].text), items[1..], emitOk)
    ensures ActsAsCut(d, s, items, emitOk)
  {
    hide Consume, HandleLine, IsObjectText, AllSpace, GoodItem, LineOf, LinesOf, HandleLines, CleanCuts, Whole,
         CutInsideToken;
    var f, q := items[0].text, Whole(items[1..]);
    LinesStep(d, s, items, emitOk);
    WholeStep(items);
    CutStep(s.buf, items);
    PieceIsConsumed(d, s, items[0], emitOk);
    EarlierPiece(d, s, f, q, emitOk);
    assert s.buf + (f + q) == s.buf + f + q;
  }

  lemma Regroup(a: string, b: string, c: string)
    ensures a + (b + c) == a + b + c
  {
  }

  lemma {:induction false} CutLines(d: Decoder, s: State, items: seq<Item>, emitOk: nat -> bool)
    requires !s.done && Pieces(items) && (s.buf != "" || StartsWithField(items))
    requires IsObjectText(s.buf + Whole(items)) && |s.buf + Whole(items)| <= MAX_EVENT_BYTES
    ensures ActsAsCut(d, s, items, emitOk)
    decreases |items|
  {
    FirstIsGood(items);
    hide ActsAsCut, IsObjectText, AllSpace, GoodItem, Pieces, Whole, CutInsideToken, Blank, IsDoneMarker, Inert;
    var it, tail := items[0], items[1..];
    WholeStep(items);
    if |items| == 1 {
      LastLine(d, s, items, emitOk);
    } else {
      RestIsPieces(items);
      Regroup(s.buf, TextOf(it), Whole(tail));
      if it.Other? {
        assert s.buf + "" == s.buf;
        CutLines(d, s, tail, emitOk);
        OtherLine(d, s, items, emitOk);
      } else {
        WholeNotSpace(tail);
        PieceIsText(it);
        if !CutInsideToken(s.buf + it.text) {
          CutLines(d, s.(buf := s.buf + it.text), tail, emitOk);
        }
        EarlierLine(d, s, items, emitOk);
      }
    }
  }

  lemma PieceIsText(it: Item)
    requires GoodItem(it) && !it.Other?
    ensures it.text != ""
  {
  }

  lemma LineOfOther(it: Item)
    requires it.Other?
    ensures LineOf(it) == it.line
  {
  }

  lemma OtherIsInert(it: Item)
    requires it.Other? && GoodItem(it)
    ensures Inert(it.line)
  {
  }

  lemma WholeLineNeverMalformed(d: Decoder, s: State, text: string, emitOk: nat -> bool)
    requires IsObjectText(text) && |text| <= MAX_EVENT_BYTES && s.buf == ""
    ensures Consume(d, s, text, emitOk).err != Some(MalformedJson)
  {
    ObjectNotMarker(text);
    assert "" + text == text;
    hide Blank, IsDoneMarker;
  }

  /** Reassembly is transparent exactly for clean cuts. A JSON object of at most 16 MiB, cut into
      data: lines and, after the first one, lines without the field, with inert lines in between,
      leaves the parser with the events, the buffer and the done flag that the uncut line leaves it
      with, and with the error if its decoding fails, if and only if no cut falls inside a literal
      name, a number after its sign, point or exponent mark, or an escape. */
  lemma ReassemblyTransparentIffClean(d: Decoder, s: State, items: seq<Item>, emitOk: nat -> bool)
    requires !s.done && s.buf == "" && GoodCut(items)
    requires IsObjectText(Whole(items)) && |Whole(items)| <= MAX_EVENT_BYTES
    ensures Alike(HandleLines(d, s, LinesOf(items), emitOk), HandleLines(d, s, ["data: " + Whole(items)], emitOk))
            <==> CleanCuts("", items)
  {
    var text := Whole(items);
    assert "" + text == text;
    CutLines(d, s, items, emitOk);
    FragmentPayload(text);
    WholeLineNeverMalformed(d, s, text, emitOk);
    hide Consume, GoodCut, Pieces;
    assert HandleLines(d, s, ["data: " + text], emitOk) == Consume(d, s, text, emitOk) by {
      var r := Consume(d, s, text, emitOk);
      assert ["data: " + text][1..] == [];
    }
  }

  /** The concrete failure: {"":true} cut after {"":t is refused although the uncut line is a
      valid object. */
  lemma CutInsideLiteralRefused(d: Decoder, emitOk: nat -> bool)
    ensures var items := [Fragment("{\"\":t", true), Fragment("rue}", false)];
            && GoodCut(items) && IsObjectText(Whole(items)) && |Whole(items)| <= MAX_EVENT_BYTES
            && !CleanCuts("", items)
            && HandleLines(d, INITIAL, LinesOf(items), emitOk).err == Some(MalformedJson)
  {
    hide VerdictOf, Blank, IsDoneMarker, CutInsideToken, IsObjectText, Consume, ScanFrom, HandleLines, SpaceLength;
    var a, b := "{\"\":t", "rue}";
    var items := [Fragment(a, true), Fragment(b, false)];
    HeadAndTailAreGood();
    assert GoodItem(items[0]) && GoodItem(items[1]);
    HeadAndTailScan();
    WholeOfTwo(a, b);
    assert "" + a == a && "" + Whole(items) == Whole(items);
    assert !CleanCuts("", items);
    CutLines(d, INITIAL, items, emitOk);
  }

  lemma WholeOfTwo(a: string, b: string)
    ensures Whole([Fragment(a, true), Fragment(b, false)]) == a + b
  {
    var items := [Fragment(a, true), Fragment(b, false)];
    assert items[1..] == [Fragment(b, false)] && items[1..][1..] == [];
    assert Whole([Fragment(b, false)]) == b + "";
  }

  lemma HeadAndTailAreGood()
    ensures !Blank("{\"\":t") && !Blank("rue}") && !IsDoneMarker("{\"\":t") && !IsDoneMarker("rue}")
  {
    assert "{\"\":t"[0] == '{' && SpaceLength("{\"\":t") == 0;
    assert "rue}"[0] == 'r' && SpaceLength("rue}") == 0;
  }

  lemma HeadAndTailScan()
    ensures IsObjectText("{\"\":t" + "rue}") && CutInsideToken("{\"\":t")
  {
    ScanHead();
    ScanTail();
    ScanConcat(START, "{\"\":t", "rue}");
    assert ("{\"\":t" + "rue}")[0] == '{';
  }

  lemma ScanHead()
    ensures ScanFrom(START, "{\"\":t") == Scan(T, [ObjectValue])
  {
    assert [ObjectKey][0 := ObjectValue] == [ObjectValue];
    calc {
      ScanFrom(START, "{\"\":t");
      { assert "{\"\":t"[1..] == "\"\":t"; assert [] + [ObjectKey] == [ObjectKey]; }
      ScanFrom(Scan(BeginStringOrEmpty, [ObjectKey]), "\"\":t");
      { assert "\"\":t"[1..] == "\":t"; }
      ScanFrom(Scan(InString, [ObjectKey]), "\":t");
      { assert "\":t"[1..] == ":t"; }
      ScanFrom(Scan(EndValue, [ObjectKey]), ":t");
      { assert ":t"[1..] == "t"; }
      ScanFrom(Scan(BeginValue, [ObjectValue]), "t");
      { assert "t"[1..] == ""; }
      ScanFrom(Scan(T, [ObjectValue]), "");
    }
  }

  lemma ScanTail()
    ensures ScanFrom(Scan(T, [ObjectValue]), "rue}") == Scan(EndTop, [])
  {
    calc {
      ScanFrom(Scan(T, [ObjectValue]), "rue}");
      { assert "rue}"[1..] == "ue}"; }
      ScanFrom(Scan(Tr, [ObjectValue]), "ue}");
      { assert "ue}"[1..] == "e}"; }
      ScanFrom(Scan(Tru, [ObjectValue]), "e}");
      { assert "e}"[1..] == "}"; }
      ScanFrom(Scan(EndValue, [ObjectValue]), "}");
      { assert "}"[1..] == ""; assert [ObjectValue][..0] == []; }
      ScanFrom(Scan(EndTop, []), "");
    }
  }
}
