// What each line of a stream does, said without the parser's functions: by the text of the line,
// the verdict on the JSON text it completes, and the end of the stream
// (internal/stream/sse.go:23-151).

module SseLines {
  import opened Wrappers
  import opened Events
  import opened JsonScanner
  import opened Sse
  import opened SseFrames
  import opened SseStream

  // ---------------------------------------------------------------- white space and the end marker

  // The characters with the property White_Space.
  predicate White(cp: int) {
    || 0x09 <= cp <= 0x0D || cp == 0x20 || cp == 0x85 || cp == 0xA0 || cp == 0x1680
    || 0x2000 <= cp <= 0x200A || cp == 0x2028 || cp == 0x2029 || cp == 0x202F || cp == 0x205F || cp == 0x3000
  }

  // A white-space character in UTF-8 (section 3 of RFC 3629).
  function Utf8(cp: int): (s: string)
    requires White(cp)
    ensures 1 <= |s| <= 3
  {
    if cp < 0x80 then [cp as char]
    else if cp < 0x800 then [(0xC0 + cp / 64) as char, (0x80 + cp % 64) as char]
    else [(0xE0 + cp / 4096) as char, (0x80 + cp / 64 % 64) as char, (0x80 + cp % 64) as char]
  }

  predicate AllWhite(cps: seq<int>) {
    forall i :: 0 <= i < |cps| ==> White(cps[i])
  }

  function Spaces(cps: seq<int>): string
    requires AllWhite(cps)
  {
    if cps == [] then "" else Utf8(cps[0]) + Spaces(cps[1..])
  }

  // The character at the front.
  function FirstSpace(s: string): int
    requires SpaceLength(s) > 0
  {
    if SpaceLength(s) == 1 then s[0] as int
    else if SpaceLength(s) == 2 then (s[0] as int - 0xC0) * 64 + (s[1] as int - 0x80)
    else (s[0] as int - 0xE0) * 4096 + (s[1] as int - 0x80) * 64 + (s[2] as int - 0x80)
  }

  lemma FirstSpaceIsWhite(s: string)
    requires SpaceLength(s) > 0
    ensures White(FirstSpace(s)) && Utf8(FirstSpace(s)) == s[..SpaceLength(s)]
  {
  }

  lemma WhiteIsSpace(cp: int, rest: string)
    requires White(cp)
    ensures SpaceLength(Utf8(cp) + rest) == |Utf8(cp)|
  {
  }

  lemma {:induction false} SpacesThen(cps: seq<int>, rest: string)
    requires AllWhite(cps)
    ensures Blank(Spaces(cps) + rest) <==> Blank(rest)
    ensures IsDoneMarker(Spaces(cps) + rest) <==> IsDoneMarker(rest)
    decreases |cps|
  {
    if cps == [] {
      assert Spaces(cps) + rest == rest;
    } else {
      var s := Spaces(cps) + rest;
      var first, more := Utf8(cps[0]), Spaces(cps[1..]) + rest;
      assert s == first + more;
      WhiteIsSpace(cps[0], more);
      assert s[|first|..] == more;
      SpacesThen(cps[1..], rest);
      hide Utf8;
    }
  }

  // The white space in front of a text, and the rest.
  lemma {:induction false} FrontSpaces(s: string) returns (cps: seq<int>, rest: string)
    ensures AllWhite(cps)
    ensures s == Spaces(cps) + rest && SpaceLength(rest) == 0
    decreases |s|
  {
    if SpaceLength(s) == 0 {
      cps, rest := [], s;
    } else {
      var n := SpaceLength(s);
      FirstSpaceIsWhite(s);
      var more;
      more, rest := FrontSpaces(s[n..]);
      cps := [FirstSpace(s)] + more;
      assert cps[1..] == more;
      assert s == s[..n] + s[n..];
    }
  }

  /** A payload is blank if and only if it is white space only, and the end marker if and only if
      it is [DONE] with white space around it. */
  lemma BlankAndMarker(s: string)
    ensures Blank(s) <==> exists a :: AllWhite(a) && s == Spaces(a)
    ensures IsDoneMarker(s) <==> exists a, b :: AllWhite(a) && AllWhite(b) && s == Spaces(a) + ("[DONE]" + Spaces(b))
  {
    var a, rest := FrontSpaces(s);
    SpacesThen(a, rest);
    BlankIsSpaces(s, a, rest);
    if IsDoneMarker(s) {
      var b := MarkerParts(rest);
      assert s == Spaces(a) + ("[DONE]" + Spaces(b));
    }
    if x, y :| AllWhite(x) && AllWhite(y) && s == Spaces(x) + ("[DONE]" + Spaces(y)) {
      MarkerBetween(x, y);
    }
  }

  lemma BlankIsSpaces(s: string, a: seq<int>, rest: string)
    requires AllWhite(a) && s == Spaces(a) + rest && SpaceLength(rest) == 0 && (Blank(s) <==> Blank(rest))
    ensures Blank(s) <==> exists a :: AllWhite(a) && s == Spaces(a)
  {
    if Blank(s) {
      assert s == Spaces(a);
    }
    if x :| AllWhite(x) && s == Spaces(x) {
      SpacesThen(x, "");
      assert Spaces(x) + "" == s;
      hide SpaceLength;
      assert Blank("");
    }
  }

  lemma MarkerParts(rest: string) returns (b: seq<int>)
    requires SpaceLength(rest) == 0 && IsDoneMarker(rest)
    ensures AllWhite(b) && rest == "[DONE]" + Spaces(b)
  {
    var end;
    b, end := FrontSpaces(rest[6..]);
    SpacesThen(b, end);
    hide Spaces;
    assert rest == "[DONE]" + rest[6..];
  }

  lemma MarkerBetween(x: seq<int>, y: seq<int>)
    requires AllWhite(x) && AllWhite(y)
    ensures IsDoneMarker(Spaces(x) + ("[DONE]" + Spaces(y)))
  {
    var t := "[DONE]" + Spaces(y);
    SpacesThen(x, t);
    SpacesThen(y, "");
    assert Spaces(y) + "" == Spaces(y) && t[6..] == Spaces(y) && t[0] == '[';
    hide Spaces;
  }

  // ---------------------------------------------------------------- one payload

  // The events handed out after `before`: all of es, or up to the first one that is refused.
  ghost predicate HandedOut(before: seq<Event>, es: seq<Event>, emitOk: nat -> bool, r: Result) {
    var all := before + es;
    if forall k: nat :: |before| <= k < |all| ==> emitOk(k) then r.s.events == all && r.err == None
    else exists m: nat :: |before| <= m < |all| && !emitOk(m) && (forall k: nat :: |before| <= k < m ==> emitOk(k)) &&
                          r.s.events == all[..m + 1] && r.err == Some(EmitFailed)
  }

  // What taking in the payload p comes to.
  ghost predicate TakenIn(d: Decoder, s: State, p: string, emitOk: nat -> bool, r: Result) {
    var whole := s.buf + p;
    if Blank(p) then r == Result(s, None)
    else if IsDoneMarker(p) then
      if s.buf != "" then r == Result(s, Some(DoneWhileIncomplete))
      else r.s.done && r.s.buf == "" && HandedOut(s.events, [DONE], emitOk, r)
    else if |whole| > 16_777_216 then
      r == Result(s, Some(if s.buf == "" then EventTooLarge else ReassemblyTooLarge))
    else match VerdictOf(whole)
      case Truncated => r == Result(s.(buf := whole), None)
      case Malformed => r.err == Some(MalformedJson) && r.s.events == s.events && !r.s.done
      case Valid =>
        match d(whole)
        case DTruncated => r == Result(s.(buf := whole), None)
        case DError(e) => r.err == Some(DecodeFailed(e)) && r.s.events == s.events && !r.s.done
        case DEnd => r.s.done && r.s.buf == "" && HandedOut(s.events, [DONE], emitOk, r)
        case DEvents(es) => !r.s.done && r.s.buf == "" && HandedOut(s.events, es, emitOk, r)
  }

  lemma HandedMore(before: seq<Event>, e: Event, es: seq<Event>, emitOk: nat -> bool, r: Result)
    requires emitOk(|before|) && HandedOut(before + [e], es, emitOk, r)
    ensures HandedOut(before, [e] + es, emitOk, r)
  {
    var all := before + [e] + es;
    assert before + ([e] + es) == all;
    if m: nat :| |before| < m < |all| && !emitOk(m) && (forall k: nat :: |before| + 1 <= k < m ==> emitOk(k)) &&
                 r.s.events == all[..m + 1] {
      assert forall k: nat :: |before| <= k < m ==> emitOk(k);
    }
  }

  lemma HandedRefused(before: seq<Event>, es: seq<Event>, emitOk: nat -> bool, r: Result)
    requires es != [] && !emitOk(|before|) && r.s.events == before + [es[0]] && r.err == Some(EmitFailed)
    ensures HandedOut(before, es, emitOk, r)
  {
    assert (before + es)[..|before| + 1] == before + [es[0]];
  }

  lemma {:induction false} EmitAllHands(before: seq<Event>, es: seq<Event>, emitOk: nat -> bool, r: Result)
    requires (r.s.events, r.err == None) == EmitAll(before, es, emitOk)
    requires r.err == None || r.err == Some(EmitFailed)
    ensures HandedOut(before, es, emitOk, r)
    decreases |es|
  {
    if es == [] {
      assert before + es == before;
    } else if emitOk(|before|) {
      EmitAllHands(before + [es[0]], es[1..], emitOk, r);
      HandedMore(before, es[0], es[1..], emitOk, r);
      assert [es[0]] + es[1..] == es;
      hide HandedOut;
    } else {
      HandedRefused(before, es, emitOk, r);
      hide HandedOut;
    }
  }

  lemma DoneHands(before: seq<Event>, emitOk: nat -> bool, r: Result)
    requires r.s.events == before + [DONE] && r.err == if emitOk(|before|) then None else Some(EmitFailed)
    ensures HandedOut(before, [DONE], emitOk, r)
  {
    assert (before + [DONE])[..|before| + 1] == before + [DONE];
  }

  lemma ConsumeTakesIn(d: Decoder, s: State, p: string, emitOk: nat -> bool)
    requires !s.done
    ensures TakenIn(d, s, p, emitOk, Consume(d, s, p, emitOk))
  {
    hide Blank, IsDoneMarker, VerdictOf, HandedOut, EmitAll;
    var whole, r := s.buf + p, Consume(d, s, p, emitOk);
    if r.s.done {
      DoneHands(s.events, emitOk, r);
    } else if VerdictOf(whole).Valid? && d(whole).DEvents? && !Blank(p) && |whole| <= MAX_EVENT_BYTES &&
              !IsDoneMarker(p) {
      EmitAllHands(s.events, d(whole).events, emitOk, r);
    }
  }

  // ---------------------------------------------------------------- one line, and the rest

  // The payload on the line: what stands behind the field name and at most one space, or on the
  // whole line of a text that is being continued.
  function OnLine(line: string, continuing: bool): Option<string> {
    if "data: " <= line then Some(line[6..])
    else if "data:" <= line then Some(line[5..])
    else if !continuing || line == "" || ":" <= line || "event:" <= line || "id:" <= line || "retry:" <= line then None
    else Some(line)
  }

  ghost predicate LineTaken(d: Decoder, s: State, line: string, emitOk: nat -> bool, r: Result) {
    match OnLine(line, s.buf != "")
    case None => r == Result(s, None)
    case Some(p) => TakenIn(d, s, p, emitOk, r)
  }

  lemma HandleLineTakes(d: Decoder, s: State, line: string, emitOk: nat -> bool)
    requires !s.done
    ensures LineTaken(d, s, line, emitOk, HandleLine(d, s, line, emitOk))
  {
    hide Consume, TakenIn;
    if OnLine(line, s.buf != "").Some? {
      ConsumeTakesIn(d, s, OnLine(line, s.buf != "").value, emitOk);
    }
    if "data: " <= line {
      FragmentPayload(line[6..]);
      assert line == "data: " + line[6..];
    } else if "data:" <= line {
      FragmentPayload(line[5..]);
      assert line == "data:" + line[5..];
    }
  }

  // Carriage returns at the end of a line.
  function Returns(n: nat): (r: string)
    ensures '\n' !in r
  {
    if n == 0 then "" else Returns(n - 1) + "\r"
  }

  lemma TrimOne(t: string, c: char)
    requires c == '\r' || c == '\n'
    ensures TrimLineEnd(t + [c]) == TrimLineEnd(t)
  {
    assert (t + [c])[..|t|] == t;
  }

  lemma {:induction false} TrimAll(line: string, n: nat)
    requires CleanLine(line)
    ensures TrimLineEnd(line + Returns(n)) == line && TrimLineEnd(line + Returns(n) + "\n") == line
  {
    hide TrimLineEnd, CleanLine;
    TrimOne(line + Returns(n), '\n');
    if n == 0 {
      TrimClean(line);
      assert line + Returns(n) == line;
    } else {
      TrimAll(line, n - 1);
      TrimOne(line + Returns(n - 1), '\r');
      assert line + Returns(n) == line + Returns(n - 1) + "\r";
    }
  }

  /** One line of a stream, ended by a line feed with any number of carriage returns before it: it
      is skipped or its payload is taken in, and unless that ends the parse the rest is parsed from
      there. */
  lemma LineDecides(d: Decoder, s: State, line: string, n: nat, rest: string, end: ReadEnd, emitOk: nat -> bool)
    returns (r: Result)
    requires !s.done && CleanLine(line)
    ensures LineTaken(d, s, line, emitOk, r)
    ensures Parse(d, s, line + Returns(n) + "\n" + rest, end, emitOk) ==
            if r.err.Some? || r.s.done then r else Parse(d, r.s, rest, end, emitOk)
  {
    r := HandleLine(d, s, line, emitOk);
    HandleLineTakes(d, s, line, emitOk);
    var sent := line + Returns(n);
    var body := sent + "\n" + rest;
    FindLFAt(sent, rest);
    TrimAll(line, n);
    assert body[..|sent| + 1] == sent + "\n" && body[|sent| + 1..] == rest;
    hide HandleLine, LineTaken, TrimLineEnd, HandleTail;
  }

  /** The last line, which no line feed ends: aborted, nothing of it is looked at. Otherwise it is
      taken in like any other; then the parse fails if reading did, or if a text is incomplete or
      the end marker has not come, unless the marker stood on a data line. */
  lemma TailDecides(d: Decoder, s: State, tail: string, n: nat, end: ReadEnd, emitOk: nat -> bool)
    returns (r: Result)
    requires !s.done && CleanLine(tail)
    ensures LineTaken(d, s, tail, emitOk, r)
    ensures Parse(d, s, tail + Returns(n), end, emitOk) ==
            if end == Abort then Result(s, Some(Aborted))
            else if r.err.Some? || (r.s.done && "data:" <= tail) then r
            else if end == ReadError then Result(r.s, Some(ReadFailed))
            else if r.s.buf != "" then Result(r.s, Some(EndedIncomplete))
            else if r.s.done then r
            else Result(r.s, Some(EndedWithoutDone))
  {
    r := HandleLine(d, s, tail, emitOk);
    HandleLineTakes(d, s, tail, emitOk);
    hide HandleLine, LineTaken;
    TrimAll(tail, n);
    NoLF(tail + Returns(n));
    hide TrimLineEnd;
  }

  lemma NoLF(s: string)
    requires '\n' !in s
    ensures FindLF(s) == |s|
  {
  }
}
