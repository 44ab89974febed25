// The byte scanner by which encoding/json decides whether a text is valid, malformed or cut
// short. ParseSSE reassembles frames on the strength of that verdict
// (internal/stream/sse.go:49-63, 167-175). The grammar is that of RFC 8259; the error that
// reads "unexpected end of JSON input" is the verdict Truncated. At the end of the input the
// scanner is fed one space: whatever cannot be followed by a space is reported as malformed.

module JsonScanner {
  import opened Wrappers

  datatype Ctx = ObjectKey | ObjectValue | ArrayValue

  datatype Mode =
    | BeginValue | BeginValueOrEmpty | BeginStringOrEmpty | BeginString
    | EndValue | EndTop
    | InString | Escape | EscapeU(left: nat)
    | Minus | Digits | Zero | Dot | Fraction | Exp | ExpSign | ExpDigits
    | T | Tr | Tru | F | Fa | Fal | Fals | N | Nu | Nul

  datatype Scan = Scan(mode: Mode, stack: seq<Ctx>) | Bad

  datatype Verdict = Valid | Truncated | Malformed

  const MAX_DEPTH := 10000
  const START := Scan(BeginValue, [])

  predicate IsSpace(c: char) { c == ' ' || c == '\t' || c == '\r' || c == '\n' }
  predicate IsHex(c: char) { IsDigit(c) || 'a' <= c <= 'f' || 'A' <= c <= 'F' }

  function Push(mode: Mode, stack: seq<Ctx>, ctx: Ctx): Scan {
    if |stack| + 1 <= MAX_DEPTH then Scan(mode, stack + [ctx]) else Bad
  }

  function Pop(stack: seq<Ctx>): Scan
    requires stack != []
  {
    var rest := stack[..|stack| - 1];
    Scan(if rest == [] then EndTop else EndValue, rest)
  }

  function StepEndValue(stack: seq<Ctx>, c: char): Scan {
    if stack == [] then
      if IsSpace(c) then Scan(EndTop, []) else Bad
    else if IsSpace(c) then Scan(EndValue, stack)
    else
      var n := |stack| - 1;
      match stack[n]
      case ObjectKey => if c == ':' then Scan(BeginValue, stack[n := ObjectValue]) else Bad
      case ObjectValue =>
        if c == ',' then Scan(BeginString, stack[n := ObjectKey])
        else if c == '}' then Pop(stack)
        else Bad
      case ArrayValue =>
        if c == ',' then Scan(BeginValue, stack)
        else if c == ']' then Pop(stack)
        else Bad
  }

  function StepBeginValue(stack: seq<Ctx>, c: char): Scan {
    if IsSpace(c) then Scan(BeginValue, stack)
    else if c == '{' then Push(BeginStringOrEmpty, stack, ObjectKey)
    else if c == '[' then Push(BeginValueOrEmpty, stack, ArrayValue)
    else if c == '"' then Scan(InString, stack)
    else if c == '-' then Scan(Minus, stack)
    else if c == '0' then Scan(Zero, stack)
    else if c == 't' then Scan(T, stack)
    else if c == 'f' then Scan(F, stack)
    else if c == 'n' then Scan(N, stack)
    else if IsDigit(c) then Scan(Digits, stack)
    else Bad
  }

  function StepZero(stack: seq<Ctx>, c: char): Scan {
    if c == '.' then Scan(Dot, stack)
    else if c == 'e' || c == 'E' then Scan(Exp, stack)
    else StepEndValue(stack, c)
  }

  function Expect(c: char, want: char, next: Mode, stack: seq<Ctx>): Scan {
    if c == want then Scan(next, stack) else Bad
  }

  function Step(s: Scan, c: char): Scan {
    if s.Bad? then Bad
    else
      var stack := s.stack;
      match s.mode
      case BeginValue => StepBeginValue(stack, c)
      case BeginValueOrEmpty =>
        if IsSpace(c) then s else if c == ']' then StepEndValue(stack, c) else StepBeginValue(stack, c)
      case BeginStringOrEmpty =>
        if IsSpace(c) then s
        else if c == '}' && stack != [] then StepEndValue(stack[|stack| - 1 := ObjectValue], c)
        else if c == '"' then Scan(InString, stack)
        else Bad
      case BeginString => if IsSpace(c) then s else if c == '"' then Scan(InString, stack) else Bad
      case EndValue => StepEndValue(stack, c)
      case EndTop => if IsSpace(c) then s else Bad
      case InString =>
        if c == '"' then Scan(EndValue, stack)
        else if c == '\\' then Scan(Escape, stack)
        else if c < ' ' then Bad
        else s
      case Escape =>
        if c in "bfnrt\\/\"" then Scan(InString, stack)
        else if c == 'u' then Scan(EscapeU(3), stack)
        else Bad
      case EscapeU(left) =>
        if !IsHex(c) then Bad else Scan(if left == 0 then InString else EscapeU(left - 1), stack)
      case Minus => if c == '0' then Scan(Zero, stack) else if IsDigit(c) then Scan(Digits, stack) else Bad
      case Digits => if IsDigit(c) then s else StepZero(stack, c)
      case Zero => StepZero(stack, c)
      case Dot => if IsDigit(c) then Scan(Fraction, stack) else Bad
      case Fraction =>
        if IsDigit(c) then s
        else if c == 'e' || c == 'E' then Scan(Exp, stack)
        else StepEndValue(stack, c)
      case Exp => if c == '+' || c == '-' then Scan(ExpSign, stack) else if IsDigit(c) then Scan(ExpDigits, stack)
          else Bad
      case ExpSign => if IsDigit(c) then Scan(ExpDigits, stack) else Bad
      case ExpDigits => if IsDigit(c) then s else StepEndValue(stack, c)
      case T => Expect(c, 'r', Tr, stack)
      case Tr => Expect(c, 'u', Tru, stack)
      case Tru => Expect(c, 'e', EndValue, stack)
      case F => Expect(c, 'a', Fa, stack)
      case Fa => Expect(c, 'l', Fal, stack)
      case Fal => Expect(c, 's', Fals, stack)
      case Fals => Expect(c, 'e', EndValue, stack)
      case N => Expect(c, 'u', Nu, stack)
      case Nu => Expect(c, 'l', Nul, stack)
      case Nul => Expect(c, 'l', EndValue, stack)
  }

  function ScanFrom(s: Scan, text: string): Scan
    decreases |text|
  {
    if text == "" then s else ScanFrom(Step(s, text[0]), text[1..])
  }

  function VerdictOf(text: string): Verdict {
    var s := ScanFrom(START, text);
    if s.Bad? then Malformed
    else if s.mode == EndTop then Valid
    else
      var e := Step(s, ' ');
      if e.Bad? then Malformed else if e.mode == EndTop then Valid else Truncated
  }

  // A literal name, a number after its sign, point or exponent mark, or an escape sequence has
  // begun and cannot stop here.
  predicate MidToken(m: Mode) {
    || m.Escape? || m.EscapeU?
    || m.Minus? || m.Dot? || m.Exp? || m.ExpSign?
    || m.T? || m.Tr? || m.Tru? || m.F? || m.Fa? || m.Fal? || m.Fals? || m.N? || m.Nu? || m.Nul?
  }

  /** A text cut at its end would be cut inside one of those tokens. */
  predicate CutInsideToken(text: string) {
    var s := ScanFrom(START, text);
    s.Scan? && MidToken(s.mode)
  }

  predicate AllSpace(text: string) {
    forall i :: 0 <= i < |text| ==> IsSpace(text[i])
  }

  predicate StartsObject(text: string) {
    text != "" && if IsSpace(text[0]) then StartsObject(text[1..]) else text[0] == '{'
  }

  // A JSON text (section 2 of RFC 8259) whose value is an object.
  predicate IsObjectText(text: string) {
    StartsObject(text) && VerdictOf(text) == Valid
  }

  lemma {:induction false} ScanConcat(s: Scan, a: string, b: string)
    ensures ScanFrom(s, a + b) == ScanFrom(ScanFrom(s, a), b)
    decreases |a|
  {
    hide Step;
    if a == "" {
      assert a + b == b;
    } else {
      assert (a + b)[0] == a[0] && (a + b)[1..] == a[1..] + b;
      ScanConcat(Step(s, a[0]), a[1..], b);
    }
  }

  lemma {:induction false} BadStays(text: string)
    ensures ScanFrom(Bad, text) == Bad
  {
    if text != "" {
      BadStays(text[1..]);
    }
  }

  // Inside the object, or after it; never anywhere else.
  predicate InObject(s: Scan) {
    s.Bad? || (s.stack != [] && s.mode != EndTop) || (s.stack == [] && s.mode == EndTop)
  }

  lemma InObjectKept(s: Scan, c: char)
    requires InObject(s)
    ensures InObject(Step(s, c))
  {
  }

  lemma {:induction false} InObjectAlong(s: Scan, text: string)
    requires InObject(s)
    ensures InObject(ScanFrom(s, text))
    decreases |text|
  {
    hide Step;
    if text != "" {
      InObjectKept(s, text[0]);
      InObjectAlong(Step(s, text[0]), text[1..]);
    }
  }

  lemma {:induction false} ObjectEntered(text: string, p: string)
    requires StartsObject(text) && p <= text && !AllSpace(p)
    ensures InObject(ScanFrom(START, p))
  {
    var c := text[0];
    assert p[0] == c;
    if IsSpace(c) {
      assert Step(START, c) == START;
      ObjectEntered(text[1..], p[1..]);
    } else {
      assert Step(START, c) == Scan(BeginStringOrEmpty, [] + [ObjectKey]);
      InObjectAlong(Step(START, c), p[1..]);
    }
  }

  lemma {:induction false} AfterTopOnlySpace(text: string)
    requires ScanFrom(Scan(EndTop, []), text) != Bad
    ensures AllSpace(text)
  {
    if text != "" {
      if !IsSpace(text[0]) {
        BadStays(text[1..]);
      }
      AfterTopOnlySpace(text[1..]);
    }
  }

  // Between the opening brace and the closing one the scanner is inside something.
  lemma ProperPrefixIsOpen(p: string, q: string)
    requires IsObjectText(p + q) && !AllSpace(p) && !AllSpace(q)
    ensures var s := ScanFrom(START, p); s.Scan? && s.stack != [] && s.mode != EndTop
  {
    hide Step;
    ScanConcat(START, p, q);
    ObjectEntered(p + q, p);
    var s := ScanFrom(START, p);
    if s.Bad? {
      BadStays(q);
    } else if s.stack == [] {
      if ScanFrom(Scan(EndTop, []), q) != Bad {
        AfterTopOnlySpace(q);
      }
    }
  }

  lemma SpaceDecides(s: Scan)
    requires s.Scan? && s.stack != [] && s.mode != EndTop
    ensures var e := Step(s, ' ');
            (MidToken(s.mode) <==> e.Bad?) && (!e.Bad? ==> e.mode != EndTop)
  {
  }

  /** What a frame boundary inside an object text is taken for: a proper prefix (with something
      other than white space on both sides of the cut) is reported as cut short, unless the cut
      falls inside a token that a space cannot follow. Then it is reported as malformed. */
  lemma ProperPrefixVerdict(p: string, q: string)
    requires IsObjectText(p + q) && !AllSpace(p) && !AllSpace(q)
    ensures VerdictOf(p) == if CutInsideToken(p) then Malformed else Truncated
  {
    ProperPrefixIsOpen(p, q);
    SpaceDecides(ScanFrom(START, p));
    hide Step;
  }
}
