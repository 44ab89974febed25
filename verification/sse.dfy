// Reading the upstream stream: SSE lines, reassembly of JSON cut across frames, and the end
// marker (internal/stream/sse.go). Decoding a complete JSON text into events is a parameter.

module Sse {
  import opened Wrappers
  import opened Events
  import opened JsonScanner

  const MAX_EVENT_BYTES := 16 * 1024 * 1024

  // parsePayload yields deltas and usage events; only the end marker yields a done event.
  predicate IsParsed(e: Event) {
    || (e.kind == KDelta && e.usage.None?)
    || (e.kind == KUsage && e.usage.Some? && e.role == "" && e.content == "" && e.reasoning == "" &&
        e.toolCalls == [] && e.finishReason.None?)
  }
  type ParsedEvent = e: Event | IsParsed(e) witness Event(KDelta, "", 0, "", "", "", "", [], None, None)

  // Envelope is an upstream error carried inside the stream, Invalid any other decoding error.
  datatype DecodeError = Envelope(status: int, body: string) | Invalid

  // What parsePayload makes of a complete JSON text: events, an envelope holding the end
  // marker, an envelope whose body is itself cut short (reported like an outer cut), or an error.
  datatype Decoded = DEvents(events: seq<ParsedEvent>) | DEnd | DTruncated | DError(e: DecodeError)
  type Decoder = string -> Decoded

  datatype Payload = PEvents(events: seq<ParsedEvent>) | PEnd | PTruncated | PMalformed | PError(e: DecodeError)

  function ParsePayload(d: Decoder, text: string): Payload {
    match VerdictOf(text)
    case Malformed => PMalformed
    case Truncated => PTruncated
    case Valid =>
      match d(text)
      case DEvents(es) => PEvents(es)
      case DEnd => PEnd
      case DTruncated => PTruncated
      case DError(e) => PError(e)
  }

  datatype SseError =
    | DoneWhileIncomplete | ReassemblyTooLarge | EventTooLarge | MalformedJson
    | DecodeFailed(e: DecodeError) | EmitFailed
    | EndedIncomplete | EndedWithoutDone | ReadFailed | Aborted

  // How the body ends after the given bytes: regularly, with a read error, or because the idle
  // timer or the request context fired while a line was being read.
  datatype ReadEnd = Eof | ReadError | Abort

  // buf is the incomplete buffer, events everything handed to emit so far.
  datatype State = State(buf: string, done: bool, events: seq<Event>)
  datatype Result = Result(s: State, err: Option<SseError>)

  const INITIAL := State("", false, [])

  // ---------------------------------------------------------------- bytes

  // Length of the white-space character at the front, in UTF-8 bytes; 0 if there is none.
  function SpaceLength(s: string): (n: nat)
    ensures n <= |s|
  {
    if s == "" then 0
    else if s[0] in " \t\r\n" || s[0] == '\U{0B}' || s[0] == '\U{0C}' then 1
    else if |s| >= 2 && s[0] == '\U{C2}' && (s[1] == '\U{85}' || s[1] == '\U{A0}') then 2
    else if |s| < 3 then 0
    else if s[0] == '\U{E1}' && s[1] == '\U{9A}' && s[2] == '\U{80}' then 3
    else if s[0] == '\U{E2}' && s[1] == '\U{80}' &&
            ('\U{80}' <= s[2] <= '\U{8A}' || s[2] == '\U{A8}' || s[2] == '\U{A9}' || s[2] == '\U{AF}') then 3
    else if s[0] == '\U{E2}' && s[1] == '\U{81}' && s[2] == '\U{9F}' then 3
    else if s[0] == '\U{E3}' && s[1] == '\U{80}' && s[2] == '\U{80}' then 3
    else 0
  }

  predicate Blank(s: string)
    decreases |s|
  {
    s == "" || (SpaceLength(s) > 0 && Blank(s[SpaceLength(s)..]))
  }

  predicate IsDoneMarker(s: string)
    decreases |s|
  {
    if SpaceLength(s) > 0 then IsDoneMarker(s[SpaceLength(s)..])
    else "[DONE]" <= s && Blank(s[6..])
  }

  function TrimLineEnd(s: string): string
    decreases |s|
  {
    if s != "" && (s[|s| - 1] == '\r' || s[|s| - 1] == '\n') then TrimLineEnd(s[..|s| - 1]) else s
  }

  predicate IsData(line: string) {
    "data:" <= line
  }

  function DataPart(line: string): string
    requires IsData(line)
  {
    var part := line[5..];
    if " " <= part then part[1..] else part
  }

  predicate IsControlLine(line: string) {
    ":" <= line || "event:" <= line || "id:" <= line || "retry:" <= line
  }

  function FindLF(body: string): (i: nat)
    ensures i <= |body| && '\n' !in body[..i] && (i < |body| ==> body[i] == '\n')
  {
    if body == "" || body[0] == '\n' then 0
    else
      var i := 1 + FindLF(body[1..]);
      assert body[..i] == [body[0]] + body[1..][..i - 1];
      i
  }

  // ---------------------------------------------------------------- the specification

  // emitOk(k) tells whether the k-th call of emit returns without an error.
  function EmitAll(log: seq<Event>, events: seq<Event>, emitOk: nat -> bool): (r: (seq<Event>, bool))
    decreases |events|
  {
    if events == [] then (log, true)
    else if emitOk(|log|) then EmitAll(log + [events[0]], events[1..], emitOk)
    else (log + [events[0]], false)
  }

  function Finish(s: State, emitOk: nat -> bool): Result {
    Result(s.(done := true, events := s.events + [DONE]), if emitOk(|s.events|) then None else Some(EmitFailed))
  }

  // A text that counts: the buffer with the payload behind it.
  function Take(d: Decoder, s: State, whole: string, emitOk: nat -> bool): Result {
    var kept := if s.buf != "" then whole else "";
    match ParsePayload(d, whole)
    case PTruncated => Result(s.(buf := whole), None)
    case PMalformed => Result(s.(buf := kept), Some(MalformedJson))
    case PError(e) => Result(s.(buf := kept), Some(DecodeFailed(e)))
    case PEnd => Finish(s.(buf := ""), emitOk)
    case PEvents(es) =>
      var (log, ok) := EmitAll(s.events, es, emitOk);
      Result(s.(buf := "", events := log), if ok then None else Some(EmitFailed))
  }

  function Consume(d: Decoder, s: State, payload: string, emitOk: nat -> bool): Result {
    var whole := s.buf + payload;
    if Blank(payload) then Result(s, None)
    else if IsDoneMarker(payload) then
      if s.buf != "" then Result(s, Some(DoneWhileIncomplete)) else Finish(s, emitOk)
    else if |whole| > MAX_EVENT_BYTES then
      Result(s, Some(if s.buf != "" then ReassemblyTooLarge else EventTooLarge))
    else Take(d, s, whole, emitOk)
  }

  // The payload a line contributes, if any; a line without the data: field continues a JSON
  // text that is known to be incomplete.
  function LinePayload(s: State, line: string): Option<string> {
    if IsData(line) then Some(DataPart(line))
    else if s.buf != "" && line != "" && !IsControlLine(line) then Some(line)
    else None
  }

  function HandleLine(d: Decoder, s: State, line: string, emitOk: nat -> bool): Result {
    match LinePayload(s, line)
    case None => Result(s, None)
    case Some(p) => Consume(d, s, p, emitOk)
  }

  // The last line, which no line feed ends.
  function HandleTail(d: Decoder, s: State, tail: string, end: ReadEnd, emitOk: nat -> bool): Result {
    if end == Abort then Result(s, Some(Aborted))
    else
      var r := HandleLine(d, s, TrimLineEnd(tail), emitOk);
      if r.err.Some? then r
      else if r.s.done && IsData(TrimLineEnd(tail)) then r
      else if end == ReadError then r.(err := Some(ReadFailed))
      else if r.s.buf != "" then r.(err := Some(EndedIncomplete))
      else if r.s.done then r
      else r.(err := Some(EndedWithoutDone))
  }

  function Parse(d: Decoder, s: State, body: string, end: ReadEnd, emitOk: nat -> bool): Result
    decreases |body|
  {
    var i := FindLF(body);
    if i == |body| then HandleTail(d, s, body, end, emitOk)
    else
      var r := HandleLine(d, s, TrimLineEnd(body[..i + 1]), emitOk);
      if r.err.Some? || r.s.done then r else Parse(d, r.s, body[i + 1..], end, emitOk)
  }

  // ---------------------------------------------------------------- the object

  // The variables ParseSSE and its consume closure share.
  class Parser {
    const decode: Decoder
    const emitOk: nat -> bool
    var incomplete: string
    var done: bool
    var events: seq<Event>

    function Val(): State
      reads this
    {
      State(incomplete, done, events)
    }

    constructor (decode: Decoder, emitOk: nat -> bool)
      ensures Val() == INITIAL && this.decode == decode && this.emitOk == emitOk
    {
      this.decode, this.emitOk := decode, emitOk;
      incomplete, done, events := "", false, [];
    }

    method Emit(e: Event) returns (ok: bool)
      modifies this
      ensures Val() == old(Val()).(events := old(events) + [e]) && ok == emitOk(old(|events|))
    {
      ok := emitOk(|events|);
      events := events + [e];
    }

    method ConsumePayload(payload: string) returns (err: Option<SseError>)
      modifies this
      ensures Result(Val(), err) == Consume(decode, old(Val()), payload, emitOk)
    {
      hide VerdictOf, Blank, IsDoneMarker;
      if Blank(payload) {
        return None;
      }
      if IsDoneMarker(payload) {
        if |incomplete| > 0 {
          return Some(DoneWhileIncomplete);
        }
        done := true;
        var sent := Emit(DONE);
        return if sent then None else Some(EmitFailed);
      }
      var text := payload;
      if |incomplete| > 0 {
        if |incomplete| + |payload| > MAX_EVENT_BYTES {
          return Some(ReassemblyTooLarge);
        }
        incomplete := incomplete + payload;
        text := incomplete;
      } else if |payload| > MAX_EVENT_BYTES {
        return Some(EventTooLarge);
      }
      assert text == old(incomplete) + payload;
      match ParsePayload(decode, text) {
        case PTruncated =>
          if |incomplete| == 0 {
            incomplete := text;
          }
          return None;
        case PMalformed =>
          return Some(MalformedJson);
        case PError(e) =>
          return Some(DecodeFailed(e));
        case PEnd =>
          incomplete := "";
          done := true;
          var sent := Emit(DONE);
          return if sent then None else Some(EmitFailed);
        case PEvents(es) =>
          incomplete := "";
          ghost var before := Val();
          for k := 0 to |es|
            invariant Val() == before.(events := events)
            invariant EmitAll(events, es[k..], emitOk) == EmitAll(before.events, es, emitOk)
          {
            assert es[k..][1..] == es[k + 1..];
            var sent := Emit(es[k]);
            if !sent {
              return Some(EmitFailed);
            }
          }
          return None;
      }
    }

    method ParseSSE(body: string, end: ReadEnd) returns (err: Option<SseError>)
      requires Val() == INITIAL
      modifies this
      ensures Result(Val(), err) == Parse(decode, INITIAL, body, end, emitOk)
    {
      hide Consume, IsControlLine, TrimLineEnd;
      var rest := body;
      while !done
        invariant !done && Parse(decode, Val(), rest, end, emitOk) == Parse(decode, INITIAL, body, end, emitOk)
        decreases |rest|
      {
        var i := FindLF(rest);
        var last := i == |rest|;
        if last && end == Abort {
          return Some(Aborted);
        }
        var line := TrimLineEnd(if last then rest else rest[..i + 1]);
        if IsData(line) {
          var e := ConsumePayload(DataPart(line));
          if e.Some? {
            return e;
          }
          if done {
            return None;
          }
        } else if |incomplete| > 0 && |line| > 0 && !IsControlLine(line) {
          var e := ConsumePayload(line);
          if e.Some? {
            return e;
          }
        }
        if last {
          if end == Eof {
            if |incomplete| > 0 {
              return Some(EndedIncomplete);
            }
            if done {
              return None;
            }
            return Some(EndedWithoutDone);
          }
          return Some(ReadFailed);
        }
        rest := rest[i + 1..];
        if done {
          return None;
        }
      }
      err := None;
    }
  }
}
