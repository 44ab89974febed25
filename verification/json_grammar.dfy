// The scanner against the grammar of JSON (sections 2 to 7 of RFC 8259): a text is Valid if and
// only if it is a JSON text that is not nested deeper than the scanner allows.

module JsonGrammar {
  import opened Wrappers
  import opened JsonScanner

  // ---------------------------------------------------------------- the grammar

  // One digit or more.
  predicate AreDigits(s: string) {
    s != "" && forall i :: 0 <= i < |s| ==> IsDigit(s[i])
  }

  predicate IsInt(s: string) {
    s == "0" || (AreDigits(s) && s[0] != '0')
  }

  predicate IsFrac(s: string) {
    s == "" || (s[0] == '.' && AreDigits(s[1..]))
  }

  predicate IsExp(s: string) {
    s == "" || ((s[0] == 'e' || s[0] == 'E') &&
                (AreDigits(s[1..]) || (|s| > 1 && (s[1] == '+' || s[1] == '-') && AreDigits(s[2..]))))
  }

  ghost predicate IsNumber(s: string) {
    exists sign, whole, frac, exp :: Numeral(s, sign, whole, frac, exp)
  }

  predicate Numeral(s: string, sign: string, whole: string, frac: string, exp: string) {
    s == sign + (whole + frac + exp) && (sign == "" || sign == "-") && IsInt(whole) && IsFrac(frac) && IsExp(exp)
  }

  predicate IsBody(s: string)
    decreases |s|
  {
    if s == "" then true
    else if s[0] != '\\' then s[0] >= ' ' && s[0] != '"' && IsBody(s[1..])
    else if |s| == 1 then false
    else if s[1] == 'u' then
      |s| >= 6 && IsHex(s[2]) && IsHex(s[3]) && IsHex(s[4]) && IsHex(s[5]) && IsBody(s[6..])
    else s[1] in {'"', '\\', '/', 'b', 'f', 'n', 'r', 't'} && IsBody(s[2..])
  }

  ghost predicate IsString(s: string) {
    exists body :: IsBody(body) && s == "\"" + body + "\""
  }

  // Arrays and objects may be nested up to that depth.
  ghost predicate IsValue(s: string, depth: nat)
    decreases |s|, 0
  {
    || s == "true" || s == "false" || s == "null" || IsNumber(s) || IsString(s)
    || (depth > 0 && exists inner ::
          s == "[" + inner + "]" && (AllSpace(inner) || IsElements(inner, depth - 1)))
    || (depth > 0 && exists inner ::
          s == "{" + inner + "}" && (AllSpace(inner) || IsMembers(inner, depth - 1)))
  }

  // A value with white space around it.
  ghost predicate IsElement(s: string, depth: nat)
    decreases |s|, 1
  {
    exists before, v, after ::
      s == before + v + after && AllSpace(before) && IsValue(v, depth) && AllSpace(after)
  }

  ghost predicate IsElements(s: string, depth: nat)
    decreases |s|, 2
  {
    IsElement(s, depth) ||
    exists first, rest :: s == first + "," + rest && IsElement(first, depth) && IsElements(rest, depth)
  }

  ghost predicate IsMember(s: string, depth: nat)
    decreases |s|, 2
  {
    exists before, name, after, v ::
      s == before + name + after + ":" + v && AllSpace(before) && IsString(name) && AllSpace(after) &&
      IsElement(v, depth)
  }

  ghost predicate IsMembers(s: string, depth: nat)
    decreases |s|, 3
  {
    IsMember(s, depth) ||
    exists first, rest :: s == first + "," + rest && IsMember(first, depth) && IsMembers(rest, depth)
  }

  // ---------------------------------------------------------------- where a value may end

  predicate Ending(m: Mode) {
    m.EndValue? || m.Zero? || m.Digits? || m.Fraction? || m.ExpDigits?
  }

  // A value has been read, and whatever must follow it is decided by the stack.
  predicate Complete(x: Scan, stack: seq<Ctx>) {
    x.Scan? && x.stack == stack && (Ending(x.mode) || (x.mode == EndTop && stack == []))
  }

  predicate Delimits(c: char) {
    IsSpace(c) || c == ',' || c == ':' || c == ']' || c == '}'
  }

  lemma CompleteStep(x: Scan, stack: seq<Ctx>, c: char)
    requires Complete(x, stack) && Delimits(c)
    ensures Step(x, c) == StepEndValue(stack, c)
  {
  }

  lemma ScanMore(s: Scan, a: string, c: char)
    ensures ScanFrom(s, a + [c]) == Step(ScanFrom(s, a), c)
  {
    ScanConcat(s, a, [c]);
    ScanOne(ScanFrom(s, a), c);
  }

  lemma ScanOne(s: Scan, c: char)
    ensures ScanFrom(s, [c]) == Step(s, c)
  {
    hide Step;
    assert [c][1..] == "";
    assert ScanFrom(Step(s, c), "") == Step(s, c);
  }

  lemma {:induction false} SpacesComplete(x: Scan, stack: seq<Ctx>, w: string)
    requires Complete(x, stack) && AllSpace(w)
    ensures Complete(ScanFrom(x, w), stack)
    decreases |w|
  {
    if w != "" {
      CompleteStep(x, stack, w[0]);
      SpacesComplete(Step(x, w[0]), stack, w[1..]);
    }
  }

  predicate Begins(m: Mode) {
    m.BeginValue? || m.BeginValueOrEmpty? || m.BeginStringOrEmpty? || m.BeginString?
  }

  lemma {:induction false} SpacesBegin(m: Mode, stack: seq<Ctx>, w: string)
    requires Begins(m) && AllSpace(w)
    ensures ScanFrom(Scan(m, stack), w) == Scan(m, stack)
    decreases |w|
  {
    if w != "" {
      assert IsSpace(w[0]) && Step(Scan(m, stack), w[0]) == Scan(m, stack);
      SpacesBegin(m, stack, w[1..]);
    }
  }

  // ---------------------------------------------------------------- every JSON text is valid

  lemma {:induction false} DigitsScan(m: Mode, stack: seq<Ctx>, ds: string)
    requires (m.Digits? || m.Fraction? || m.ExpDigits?) && forall i :: 0 <= i < |ds| ==> IsDigit(ds[i])
    ensures ScanFrom(Scan(m, stack), ds) == Scan(m, stack)
    decreases |ds|
  {
    if ds != "" {
      assert Step(Scan(m, stack), ds[0]) == Scan(m, stack);
      DigitsScan(m, stack, ds[1..]);
    }
  }

  lemma IntScans(m: Mode, stack: seq<Ctx>, s: string)
    requires (m.BeginValue? || m.Minus?) && IsInt(s)
    ensures ScanFrom(Scan(m, stack), s) == Scan(if s == "0" then Zero else Digits, stack)
  {
    if s == "0" {
      ScanOne(Scan(m, stack), '0');
    } else {
      assert Step(Scan(m, stack), s[0]) == Scan(Digits, stack);
      DigitsScan(Digits, stack, s[1..]);
    }
  }

  lemma FracScans(x: Scan, stack: seq<Ctx>, s: string)
    requires x == Scan(Zero, stack) || x == Scan(Digits, stack)
    requires IsFrac(s)
    ensures ScanFrom(x, s) == if s == "" then x else Scan(Fraction, stack)
  {
    if s != "" {
      assert Step(x, '.') == Scan(Dot, stack) && Step(Scan(Dot, stack), s[1]) == Scan(Fraction, stack);
      assert s[1..][1..] == s[2..] && forall i :: 0 <= i < |s[2..]| ==> s[2..][i] == s[1..][i + 1];
      DigitsScan(Fraction, stack, s[2..]);
      hide Step;
    }
  }

  lemma ExpScans(x: Scan, stack: seq<Ctx>, s: string)
    requires x.Scan? && x.stack == stack && (x.mode == Zero || x.mode == Digits || x.mode == Fraction)
    requires IsExp(s)
    ensures ScanFrom(x, s) == if s == "" then x else Scan(ExpDigits, stack)
  {
    if s != "" {
      var e := Scan(Exp, stack);
      assert Step(x, s[0]) == e;
      if AreDigits(s[1..]) {
        ExpDigitsScan(e, stack, s[1..]);
      } else {
        assert Step(e, s[1]) == Scan(ExpSign, stack) && s[1..][1..] == s[2..];
        ExpDigitsScan(Scan(ExpSign, stack), stack, s[2..]);
      }
      hide Step;
    }
  }

  lemma ExpDigitsScan(x: Scan, stack: seq<Ctx>, s: string)
    requires (x == Scan(Exp, stack) || x == Scan(ExpSign, stack)) && AreDigits(s)
    ensures ScanFrom(x, s) == Scan(ExpDigits, stack)
  {
    assert Step(x, s[0]) == Scan(ExpDigits, stack);
    DigitsScan(ExpDigits, stack, s[1..]);
    hide Step;
  }

  lemma NumberScans(s: string, stack: seq<Ctx>)
    requires IsNumber(s)
    ensures Complete(ScanFrom(Scan(BeginValue, stack), s), stack)
  {
    var sign, whole, frac, exp :| Numeral(s, sign, whole, frac, exp);
    var m := if sign == "" then BeginValue else Minus;
    SignScans(sign, stack);
    ScanConcat(Scan(BeginValue, stack), sign, whole + frac + exp);
    NumeralScans(m, stack, whole, frac, exp);
    hide ScanFrom, Step;
  }

  lemma SignScans(sign: string, stack: seq<Ctx>)
    requires sign == "" || sign == "-"
    ensures ScanFrom(Scan(BeginValue, stack), sign) == Scan(if sign == "" then BeginValue else Minus, stack)
  {
    if sign != "" {
      ScanOne(Scan(BeginValue, stack), '-');
    }
  }

  lemma NumeralScans(m: Mode, stack: seq<Ctx>, whole: string, frac: string, exp: string)
    requires (m.BeginValue? || m.Minus?) && IsInt(whole) && IsFrac(frac) && IsExp(exp)
    ensures Complete(ScanFrom(Scan(m, stack), whole + frac + exp), stack)
  {
    hide ScanFrom, Step, IsInt, IsFrac, IsExp;
    var start := Scan(m, stack);
    IntScans(m, stack, whole);
    var x := ScanFrom(start, whole);
    FracScans(x, stack, frac);
    var y := ScanFrom(x, frac);
    ExpScans(y, stack, exp);
    ScanConcat(start, whole, frac);
    ScanConcat(start, whole + frac, exp);
  }

  lemma {:induction false} BodyScans(s: string, stack: seq<Ctx>)
    requires IsBody(s)
    ensures ScanFrom(Scan(InString, stack), s) == Scan(InString, stack)
    decreases |s|
  {
    var start := Scan(InString, stack);
    if s != "" {
      if s[0] != '\\' {
        assert Step(start, s[0]) == start;
        BodyScans(s[1..], stack);
      } else if s[1] == 'u' {
        HexScan(s[..6], stack);
        assert s == s[..6] + s[6..];
        ScanConcat(start, s[..6], s[6..]);
        BodyScans(s[6..], stack);
      } else {
        assert Step(start, s[0]) == Scan(Escape, stack) && Step(Scan(Escape, stack), s[1]) == start;
        assert s[1..][1..] == s[2..] && s[1..][0] == s[1];
        assert ScanFrom(start, s) == ScanFrom(Scan(Escape, stack), s[1..]) == ScanFrom(start, s[2..]);
        BodyScans(s[2..], stack);
      }
    }
  }

  lemma HexScan(s: string, stack: seq<Ctx>)
    requires |s| == 6 && s[0] == '\\' && s[1] == 'u'
    requires IsHex(s[2]) && IsHex(s[3]) && IsHex(s[4]) && IsHex(s[5])
    ensures ScanFrom(Scan(InString, stack), s) == Scan(InString, stack)
  {
    var x0 := Scan(InString, stack);
    ScanMore(x0, s[..0], s[0]);
    ScanMore(x0, s[..1], s[1]);
    ScanMore(x0, s[..2], s[2]);
    ScanMore(x0, s[..3], s[3]);
    ScanMore(x0, s[..4], s[4]);
    ScanMore(x0, s[..5], s[5]);
    assert s[..0] + [s[0]] == s[..1] && s[..1] + [s[1]] == s[..2] && s[..2] + [s[2]] == s[..3];
    assert s[..3] + [s[3]] == s[..4] && s[..4] + [s[4]] == s[..5] && s[..5] + [s[5]] == s;
    assert ScanFrom(x0, s[..0]) == x0;
    hide ScanFrom;
  }

  lemma StringScans(s: string, m: Mode, stack: seq<Ctx>)
    requires IsString(s) && Begins(m)
    ensures ScanFrom(Scan(m, stack), s) == Scan(EndValue, stack)
  {
    var body :| IsBody(body) && s == "\"" + body + "\"";
    var start := Scan(m, stack);
    ScanConcat(start, "\"" + body, "\"");
    ScanConcat(start, "\"", body);
    ScanOne(start, '"');
    BodyScans(body, stack);
    ScanOne(Scan(InString, stack), '"');
    hide ScanFrom;
  }

  lemma ScanFour(x: Scan, s: string)
    requires |s| == 4
    ensures ScanFrom(x, s) == Step(Step(Step(Step(x, s[0]), s[1]), s[2]), s[3])
  {
    hide Step;
    var x1 := Step(x, s[0]);
    var x2 := Step(x1, s[1]);
    var x3 := Step(x2, s[2]);
    assert s[1..][1..] == s[2..] && s[2..][1..] == s[3..] == [s[3]];
    assert ScanFrom(x, s) == ScanFrom(x1, s[1..]);
    assert ScanFrom(x1, s[1..]) == ScanFrom(x2, s[2..]);
    assert ScanFrom(x2, s[2..]) == ScanFrom(x3, [s[3]]);
    ScanOne(x3, s[3]);
  }

  lemma WordScans(s: string, stack: seq<Ctx>)
    requires s == "true" || s == "false" || s == "null"
    ensures ScanFrom(Scan(BeginValue, stack), s) == Scan(EndValue, stack)
  {
    hide ScanFrom;
    var start := Scan(BeginValue, stack);
    if s == "false" {
      ScanFour(start, "fals");
      ScanMore(start, "fals", 'e');
      assert s == "fals" + ['e'];
    } else {
      ScanFour(start, s);
    }
  }

  // A value does not start with a space or a closing bracket.
  lemma ValueStarts(s: string, depth: nat)
    requires IsValue(s, depth)
    ensures s != "" && s[0] != ']' && !IsSpace(s[0])
  {
    hide IsElements, IsMembers, IsBody;
    if IsNumber(s) {
      var sign, whole, frac, exp :| Numeral(s, sign, whole, frac, exp);
      assert IsDigit(whole[0]);
    }
  }

  lemma OrEmptyScans(s: string, stack: seq<Ctx>)
    requires s != "" && s[0] != ']' && !IsSpace(s[0])
    ensures ScanFrom(Scan(BeginValueOrEmpty, stack), s) == ScanFrom(Scan(BeginValue, stack), s)
  {
  }

  lemma {:induction false} ValueScans(s: string, depth: nat, m: Mode, stack: seq<Ctx>)
    requires IsValue(s, depth) && |stack| + depth <= MAX_DEPTH && (m.BeginValue? || m.BeginValueOrEmpty?)
    ensures Complete(ScanFrom(Scan(m, stack), s), stack)
    decreases |s|, 0
  {
    ValueStarts(s, depth);
    OrEmptyScans(s, stack);
    hide ScanFrom, IsNumber, IsString, IsElements, IsMembers;
    if s == "true" || s == "false" || s == "null" {
      WordScans(s, stack);
    } else if IsNumber(s) {
      NumberScans(s, stack);
    } else if IsString(s) {
      StringScans(s, BeginValue, stack);
    } else if inner :| depth > 0 && s == "[" + inner + "]" && (AllSpace(inner) || IsElements(inner, depth - 1)) {
      ArrayScans(inner, depth - 1, stack);
    } else {
      var inner :| depth > 0 && s == "{" + inner + "}" && (AllSpace(inner) || IsMembers(inner, depth - 1));
      ObjectScans(inner, depth - 1, stack);
    }
  }

  lemma {:induction false} ArrayScans(inner: string, depth: nat, stack: seq<Ctx>)
    requires (AllSpace(inner) || IsElements(inner, depth)) && |stack| + 1 + depth <= MAX_DEPTH
    ensures Complete(ScanFrom(Scan(BeginValue, stack), "[" + inner + "]"), stack)
    decreases |inner|, 3
  {
    hide ScanFrom, IsElements;
    var start, s := Scan(BeginValue, stack), stack + [ArrayValue];
    var open := Scan(BeginValueOrEmpty, s);
    ScanOne(start, '[');
    ScanConcat(start, "[", inner);
    ScanMore(start, "[" + inner, ']');
    assert s[..|s| - 1] == stack;
    if AllSpace(inner) {
      SpacesBegin(BeginValueOrEmpty, s, inner);
    } else {
      ElementsScan(inner, depth, BeginValueOrEmpty, s);
      CompleteStep(ScanFrom(open, inner), s, ']');
    }
  }

  lemma {:induction false} ObjectScans(inner: string, depth: nat, stack: seq<Ctx>)
    requires (AllSpace(inner) || IsMembers(inner, depth)) && |stack| + 1 + depth <= MAX_DEPTH
    ensures Complete(ScanFrom(Scan(BeginValue, stack), "{" + inner + "}"), stack)
    decreases |inner|, 4
  {
    hide ScanFrom, IsMembers;
    var start, s := Scan(BeginValue, stack), stack + [ObjectKey];
    var open := Scan(BeginStringOrEmpty, s);
    ScanOne(start, '{');
    ScanConcat(start, "{", inner);
    ScanMore(start, "{" + inner, '}');
    var t := stack + [ObjectValue];
    assert s[..|s| - 1] == stack && s[|s| - 1 := ObjectValue] == t && t[..|t| - 1] == stack;
    if AllSpace(inner) {
      SpacesBegin(BeginStringOrEmpty, s, inner);
    } else {
      MembersScan(inner, depth, BeginStringOrEmpty, stack);
      CompleteStep(ScanFrom(open, inner), t, '}');
    }
  }

  lemma {:induction false} ElementScans(s: string, depth: nat, m: Mode, stack: seq<Ctx>)
    requires IsElement(s, depth) && |stack| + depth <= MAX_DEPTH && (m.BeginValue? || m.BeginValueOrEmpty?)
    ensures Complete(ScanFrom(Scan(m, stack), s), stack)
    decreases |s|, 1
  {
    hide ScanFrom, IsValue;
    var before, v, after :| s == before + v + after && AllSpace(before) && IsValue(v, depth) && AllSpace(after);
    var start := Scan(m, stack);
    SpacesBegin(m, stack, before);
    ValueScans(v, depth, m, stack);
    ScanConcat(start, before, v);
    ScanConcat(start, before + v, after);
    SpacesComplete(ScanFrom(start, before + v), stack, after);
  }

  lemma {:induction false} ElementsScan(s: string, depth: nat, m: Mode, stack: seq<Ctx>)
    requires IsElements(s, depth) && |stack| + depth <= MAX_DEPTH && (m.BeginValue? || m.BeginValueOrEmpty?)
    requires stack != [] && stack[|stack| - 1] == ArrayValue
    ensures Complete(ScanFrom(Scan(m, stack), s), stack)
    decreases |s|, 2
  {
    hide ScanFrom, IsElement;
    if IsElement(s, depth) {
      ElementScans(s, depth, m, stack);
    } else {
      var first, rest :| s == first + "," + rest && IsElement(first, depth) && IsElements(rest, depth);
      var start := Scan(m, stack);
      ElementScans(first, depth, m, stack);
      ScanMore(start, first, ',');
      CompleteStep(ScanFrom(start, first), stack, ',');
      ScanConcat(start, first + ",", rest);
      ElementsScan(rest, depth, BeginValue, stack);
    }
  }

  lemma {:induction false} MemberScans(s: string, depth: nat, m: Mode, stack: seq<Ctx>)
    requires IsMember(s, depth) && |stack| + 1 + depth <= MAX_DEPTH && (m.BeginString? || m.BeginStringOrEmpty?)
    ensures Complete(ScanFrom(Scan(m, stack + [ObjectKey]), s), stack + [ObjectValue])
    decreases |s|, 2
  {
    hide ScanFrom, IsString, IsElement;
    var before, name, after, v :| s == before + name + after + ":" + v && AllSpace(before) && IsString(name) &&
                                  AllSpace(after) && IsElement(v, depth);
    var key, value := stack + [ObjectKey], stack + [ObjectValue];
    var start := Scan(m, key);
    SpacesBegin(m, key, before);
    StringScans(name, m, key);
    ScanConcat(start, before, name);
    ScanConcat(start, before + name, after);
    SpacesComplete(ScanFrom(start, before + name), key, after);
    ScanMore(start, before + name + after, ':');
    CompleteStep(ScanFrom(start, before + name + after), key, ':');
    assert key[|key| - 1 := ObjectValue] == value;
    ScanConcat(start, before + name + after + ":", v);
    ElementScans(v, depth, BeginValue, value);
  }

  lemma {:induction false} MembersScan(s: string, depth: nat, m: Mode, stack: seq<Ctx>)
    requires IsMembers(s, depth) && |stack| + 1 + depth <= MAX_DEPTH && (m.BeginString? || m.BeginStringOrEmpty?)
    ensures Complete(ScanFrom(Scan(m, stack + [ObjectKey]), s), stack + [ObjectValue])
    decreases |s|, 3
  {
    hide ScanFrom, IsMember;
    if IsMember(s, depth) {
      MemberScans(s, depth, m, stack);
    } else {
      var first, rest :| s == first + "," + rest && IsMember(first, depth) && IsMembers(rest, depth);
      var key, value := stack + [ObjectKey], stack + [ObjectValue];
      var start := Scan(m, key);
      MemberScans(first, depth, m, stack);
      ScanMore(start, first, ',');
      CompleteStep(ScanFrom(start, first), value, ',');
      assert value[|value| - 1 := ObjectKey] == key;
      ScanConcat(start, first + ",", rest);
      MembersScan(rest, depth, BeginString, stack);
    }
  }

  // ---------------------------------------------------------------- only JSON texts are valid

  // The scan x has got past a value that was begun with that stack.
  predicate Past(x: Scan, stack: seq<Ctx>) {
    x.Scan? && (|x.stack| < |stack| || Complete(x, stack))
  }

  // t begins with a, and the scan of the rest from there ends where the scan of t does.
  lemma Resume(s: Scan, t: string, n: nat)
    requires n <= |t|
    ensures ScanFrom(s, t) == ScanFrom(ScanFrom(s, t[..n]), t[n..])
  {
    ScanConcat(s, t[..n], t[n..]);
    assert t[..n] + t[n..] == t;
  }

  lemma ResumeAt(s: Scan, t: string, n: nat)
    requires n < |t| && ScanFrom(s, t).Scan?
    ensures var x := Step(ScanFrom(s, t[..n]), t[n]);
            x.Scan? && ScanFrom(s, t[..n + 1]) == x && ScanFrom(x, t[n + 1..]) == ScanFrom(s, t)
  {
    hide Step;
    ScanMore(s, t[..n], t[n]);
    assert t[..n] + [t[n]] == t[..n + 1];
    Resume(s, t, n + 1);
    if ScanFrom(s, t[..n + 1]).Bad? {
      BadStays(t[n + 1..]);
    }
  }

  lemma WholePrefix(t: string, n: nat)
    requires n <= |t|
    ensures n == |t| ==> t[..n] == t && t[n..] == ""
  {
  }

  // The white space in front.
  lemma {:induction false} SkipSpaces(t: string) returns (n: nat)
    ensures n <= |t| && AllSpace(t[..n]) && (n < |t| ==> !IsSpace(t[n]))
  {
    n := 0;
    while n < |t| && IsSpace(t[n])
      invariant n <= |t| && AllSpace(t[..n])
    {
      n := n + 1;
    }
  }

  // Only a delimiter can follow a complete value.
  lemma AfterComplete(x: Scan, stack: seq<Ctx>, c: char)
    requires Complete(x, stack) && Step(x, c).Scan?
    requires x.mode.EndValue? || x.mode.EndTop?
    ensures Delimits(c)
  {
  }

  lemma {:induction false} SkipDigits(m: Mode, stack: seq<Ctx>, t: string) returns (n: nat)
    requires m.Digits? || m.Fraction? || m.ExpDigits?
    ensures n <= |t| && (forall i :: 0 <= i < n ==> IsDigit(t[i])) && (n < |t| ==> !IsDigit(t[n]))
    ensures ScanFrom(Scan(m, stack), t[..n]) == Scan(m, stack)
  {
    n := 0;
    while n < |t| && IsDigit(t[n])
      invariant n <= |t| && forall i :: 0 <= i < n ==> IsDigit(t[i])
    {
      n := n + 1;
    }
    DigitsScan(m, stack, t[..n]);
  }

  // Digits after the mark of a fraction or an exponent.
  lemma SomeDigits(x: Scan, m: Mode, stack: seq<Ctx>, t: string) returns (n: nat)
    requires if m == Fraction then x == Scan(Dot, stack)
             else m == ExpDigits && (x == Scan(Exp, stack) || x == Scan(ExpSign, stack))
    requires t != "" && IsDigit(t[0])
    ensures 0 < n <= |t| && AreDigits(t[..n]) && (n < |t| ==> !IsDigit(t[n]))
    ensures ScanFrom(x, t[..n]) == Scan(m, stack)
  {
    var k := SkipDigits(m, stack, t[1..]);
    n := k + 1;
    assert t[..n] == [t[0]] + t[1..][..k];
    assert forall i :: 0 < i < n ==> t[i] == t[1..][i - 1];
    ScanConcat(x, [t[0]], t[1..][..k]);
    ScanOne(x, t[0]);
    hide ScanFrom;
  }

  lemma ReadInt(m: Mode, stack: seq<Ctx>, t: string) returns (n: nat)
    requires (m.BeginValue? || m.Minus?) && t != "" && IsDigit(t[0])
    ensures n <= |t| && IsInt(t[..n])
    ensures ScanFrom(Scan(m, stack), t[..n]) == Scan(if t[0] == '0' then Zero else Digits, stack)
    ensures n < |t| && t[0] != '0' ==> !IsDigit(t[n])
  {
    if t[0] == '0' {
      n := 1;
      assert t[..1] == "0";
    } else {
      var k := SkipDigits(Digits, stack, t[1..]);
      n := k + 1;
      assert t[..n] == [t[0]] + t[1..][..k];
      assert forall i :: 0 < i < n ==> t[i] == t[1..][i - 1];
    }
    IntScans(m, stack, t[..n]);
    hide ScanFrom;
  }

  lemma ReadFrac(x: Scan, stack: seq<Ctx>, t: string) returns (n: nat)
    requires x == Scan(Zero, stack) || x == Scan(Digits, stack)
    requires Past(ScanFrom(x, t), stack)
    ensures n <= |t| && IsFrac(t[..n])
    ensures ScanFrom(x, t[..n]) == (if n == 0 then x else Scan(Fraction, stack))
    ensures n < |t| && t[n] == '.' ==> n > 0
    ensures n < |t| && IsDigit(t[n]) ==> n == 0
  {
    if t != "" && t[0] == '.' {
      ResumeAt(x, t, 0);
      assert t[..0] == "";
      var dot := Scan(Dot, stack);
      assert Step(x, '.') == dot;
      if t[1..] != "" {
        ResumeAt(dot, t[1..], 0);
        assert t[1..][..0] == "";
      }
      assert ScanFrom(dot, "") == dot;
      assert IsDigit(t[1]);
      var k := SomeDigits(dot, Fraction, stack, t[1..]);
      n := k + 1;
      assert t[..n] == ['.'] + t[1..][..k] && t[..n][1..] == t[1..][..k];
      ScanConcat(x, ['.'], t[1..][..k]);
      ScanOne(x, '.');
    } else {
      n := 0;
      assert t[..0] == "";
    }
    hide ScanFrom, Step;
  }

  lemma ReadExp(x: Scan, stack: seq<Ctx>, t: string) returns (n: nat)
    requires x.Scan? && x.stack == stack && (x.mode == Zero || x.mode == Digits || x.mode == Fraction)
    requires Past(ScanFrom(x, t), stack)
    ensures n <= |t| && IsExp(t[..n])
    ensures ScanFrom(x, t[..n]) == (if n == 0 then x else Scan(ExpDigits, stack))
    ensures n < |t| && n > 0 ==> !IsDigit(t[n])
    ensures n < |t| && (t[n] == 'e' || t[n] == 'E') ==> n > 0
  {
    n := 0;
    assert t[..0] == "";
    if t != "" && (t[0] == 'e' || t[0] == 'E') {
      ResumeAt(x, t, 0);
      var e := Scan(Exp, stack);
      assert Step(x, t[0]) == e;
      var k := ReadExpDigits(e, stack, t[1..]);
      n := k + 1;
      assert t[..n] == [t[0]] + t[1..][..k] && t[..n][1..] == t[1..][..k];
      assert |t[..n]| > 1 && t[..n][1] == t[1..][0];
      assert k > 0 && t[1..][..k][1..] == t[..n][2..];
      ScanConcat(x, [t[0]], t[1..][..k]);
      ScanOne(x, t[0]);
    }
    hide ScanFrom, Step;
  }

  lemma ReadExpDigits(e: Scan, stack: seq<Ctx>, t: string) returns (n: nat)
    requires e == Scan(Exp, stack) && Past(ScanFrom(e, t), stack)
    ensures 0 < n <= |t| && (n < |t| ==> !IsDigit(t[n]))
    ensures AreDigits(t[..n]) || ((t[0] == '+' || t[0] == '-') && AreDigits(t[..n][1..]))
    ensures ScanFrom(e, t[..n]) == Scan(ExpDigits, stack)
  {
    assert ScanFrom(e, "") == e;
    assert t != "";
    ResumeAt(e, t, 0);
    assert t[..0] == "";
    if IsDigit(t[0]) {
      n := SomeDigits(e, ExpDigits, stack, t);
    } else {
      var s := Scan(ExpSign, stack);
      assert Step(e, t[0]) == s && ScanFrom(s, "") == s;
      assert t[1..] != "";
      ResumeAt(s, t[1..], 0);
      assert t[1..][..0] == "";
      var k := SomeDigits(s, ExpDigits, stack, t[1..]);
      n := k + 1;
      assert t[..n] == [t[0]] + t[1..][..k] && t[..n][1..] == t[1..][..k];
      ScanConcat(e, [t[0]], t[1..][..k]);
      ScanOne(e, t[0]);
    }
    hide ScanFrom, Step;
  }

  lemma NumberEnds(x: Scan, stack: seq<Ctx>, c: char)
    requires Complete(x, stack) && Step(x, c).Scan?
    requires x.mode.Digits? || x.mode.Fraction? || x.mode.ExpDigits? ==> !IsDigit(c)
    requires x.mode.Zero? || x.mode.Digits? ==> c != '.'
    requires !x.mode.ExpDigits? ==> c != 'e' && c != 'E'
    ensures Delimits(c)
  {
  }

  lemma ReadNumeral(m: Mode, stack: seq<Ctx>, t: string) returns (n: nat, whole: string, frac: string, exp: string)
    requires (m.BeginValue? || m.Minus?) && t != "" && IsDigit(t[0])
    requires Past(ScanFrom(Scan(m, stack), t), stack)
    ensures n <= |t| && t[..n] == whole + frac + exp && IsInt(whole) && IsFrac(frac) && IsExp(exp)
    ensures Complete(ScanFrom(Scan(m, stack), t[..n]), stack) && (n < |t| ==> Delimits(t[n]))
  {
    hide ScanFrom, IsInt, IsFrac, IsExp, Step;
    var start := Scan(m, stack);
    var a := ReadInt(m, stack, t);
    var x := ScanFrom(start, t[..a]);
    Resume(start, t, a);
    var u := t[a..];
    var b := ReadFrac(x, stack, u);
    var y := ScanFrom(x, u[..b]);
    Resume(x, u, b);
    var v := u[b..];
    var c := ReadExp(y, stack, v);
    var z := ScanFrom(y, v[..c]);
    n, whole, frac, exp := a + b + c, t[..a], u[..b], v[..c];
    Parts(t, a, b, c);
    ScanConcat(start, whole, frac);
    ScanConcat(start, whole + frac, exp);
    if n < |t| {
      ResumeAt(start, t, n);
      NumberEnds(z, stack, t[n]);
    }
  }

  lemma Parts(t: string, a: nat, b: nat, c: nat)
    requires a + b + c <= |t|
    ensures t[..a + b + c] == t[..a] + t[a..][..b] + t[a..][b..][..c]
    ensures a + b + c < |t| ==> t[a + b + c] == t[a..][b..][c]
    ensures a + b < |t| ==> t[a + b] == t[a..][b]
  {
  }

  lemma MinusFollows(stack: seq<Ctx>, t: string)
    requires t != "" && t[0] == '-' && Past(ScanFrom(Scan(BeginValue, stack), t), stack)
    ensures |t| > 1 && IsDigit(t[1]) && ScanFrom(Scan(BeginValue, stack), t) == ScanFrom(Scan(Minus, stack), t[1..])
  {
    hide ScanFrom;
    var minus := Scan(Minus, stack);
    ScanStep(Scan(BeginValue, stack), t);
    ScanNothing(minus);
    WholePrefix(t, 1);
    var u := t[1..];
    ScanStep(minus, u);
    if Step(minus, u[0]).Bad? {
      BadStays(u[1..]);
    }
  }

  lemma ReadNumber(stack: seq<Ctx>, t: string) returns (n: nat)
    requires t != "" && (t[0] == '-' || IsDigit(t[0])) && Past(ScanFrom(Scan(BeginValue, stack), t), stack)
    ensures n <= |t| && IsNumber(t[..n])
    ensures Complete(ScanFrom(Scan(BeginValue, stack), t[..n]), stack) && (n < |t| ==> Delimits(t[n]))
  {
    hide ScanFrom, Step, IsInt, IsFrac, IsExp;
    var whole, frac, exp;
    if t[0] == '-' {
      MinusFollows(stack, t);
      n, whole, frac, exp := ReadNumeral(Minus, stack, t[1..]);
      n := n + 1;
      assert t[..n] == "-" + t[1..][..n - 1];
      SignScans("-", stack);
      ScanConcat(Scan(BeginValue, stack), "-", t[1..][..n - 1]);
      assert Numeral(t[..n], "-", whole, frac, exp);
    } else {
      n, whole, frac, exp := ReadNumeral(BeginValue, stack, t);
      assert Numeral(t[..n], "", whole, frac, exp);
    }
  }

  lemma OneHex(left: nat, stack: seq<Ctx>, t: string)
    requires Past(ScanFrom(Scan(EscapeU(left), stack), t), stack)
    ensures t != "" && IsHex(t[0])
    ensures ScanFrom(Scan(EscapeU(left), stack), t) ==
            ScanFrom(Scan(if left == 0 then InString else EscapeU(left - 1), stack), t[1..])
  {
    if t != "" && !IsHex(t[0]) {
      BadStays(t[1..]);
    }
  }

  lemma HexFollows(stack: seq<Ctx>, t: string)
    requires Past(ScanFrom(Scan(EscapeU(3), stack), t), stack)
    ensures |t| >= 4 && IsHex(t[0]) && IsHex(t[1]) && IsHex(t[2]) && IsHex(t[3])
    ensures ScanFrom(Scan(EscapeU(3), stack), t) == ScanFrom(Scan(InString, stack), t[4..])
  {
    hide ScanFrom, IsHex;
    OneHex(3, stack, t);
    OneHex(2, stack, t[1..]);
    assert t[1..][1..] == t[2..] && t[1..][0] == t[1];
    OneHex(1, stack, t[2..]);
    assert t[2..][1..] == t[3..] && t[2..][0] == t[2];
    OneHex(0, stack, t[3..]);
    assert t[3..][1..] == t[4..] && t[3..][0] == t[3];
  }

  lemma EscapeFollows(stack: seq<Ctx>, t: string)
    requires Past(ScanFrom(Scan(Escape, stack), t), stack)
    ensures t != "" && t[0] in "bfnrt\\/\"u"
    ensures ScanFrom(Scan(Escape, stack), t) ==
            ScanFrom(Scan(if t[0] == 'u' then EscapeU(3) else InString, stack), t[1..])
  {
    if t != "" && t[0] !in "bfnrt\\/\"u" {
      BadStays(t[1..]);
    }
  }

  // The body of a string, up to the closing quote.
  lemma {:induction false} ReadBody(stack: seq<Ctx>, t: string) returns (n: nat)
    requires Past(ScanFrom(Scan(InString, stack), t), stack)
    ensures n < |t| && t[n] == '"' && IsBody(t[..n])
    decreases |t|
  {
    var x := Scan(InString, stack);
    assert ScanFrom(x, "") == x;
    if t[0] == '"' {
      n := 0;
    } else if t[0] != '\\' {
      if t[0] < ' ' {
        BadStays(t[1..]);
        assert false;
      }
      var k := ReadBody(stack, t[1..]);
      n := k + 1;
      assert t[..n][1..] == t[1..][..k];
    } else {
      EscapeFollows(stack, t[1..]);
      assert t[1..][1..] == t[2..] && t[1..][0] == t[1];
      if t[1] == 'u' {
        HexFollows(stack, t[2..]);
        assert t[2..][4..] == t[6..];
        var k := ReadBody(stack, t[6..]);
        n := k + 6;
        assert t[..n][6..] == t[6..][..k];
      } else {
        var k := ReadBody(stack, t[2..]);
        n := k + 2;
        assert t[..n][2..] == t[2..][..k];
      }
    }
  }

  lemma ReadString(m: Mode, stack: seq<Ctx>, t: string) returns (n: nat)
    requires Begins(m) && t != "" && t[0] == '"' && Past(ScanFrom(Scan(m, stack), t), stack)
    ensures n <= |t| && IsString(t[..n]) && ScanFrom(Scan(m, stack), t[..n]) == Scan(EndValue, stack)
  {
    assert ScanFrom(Scan(m, stack), t) == ScanFrom(Scan(InString, stack), t[1..]);
    var k := ReadBody(stack, t[1..]);
    n := k + 2;
    assert t[..n] == "\"" + t[1..][..k] + "\"";
    hide ScanFrom, IsBody;
    StringScans(t[..n], m, stack);
  }

  lemma ScanStep(x: Scan, t: string)
    requires t != ""
    ensures ScanFrom(x, t) == ScanFrom(Step(x, t[0]), t[1..])
  {
    hide Step;
  }

  // Nothing but the rest of the word can follow.
  lemma {:induction false} WordFollows(x: Scan, t: string)
    requires x.Scan? && InWord(x.mode) && Past(ScanFrom(x, t), x.stack)
    ensures Finish(x.mode) <= t
    decreases |t|
  {
    ScanNothing(x);
    var f := Finish(x.mode);
    NextLetter(x);
    ScanStep(x, t);
    if Step(x, t[0]).Bad? {
      BadStays(t[1..]);
    }
    hide Step, ScanFrom, Finish;
    assert t[0] == f[0];
    if |f| == 1 {
      assert f == [f[0]];
    } else {
      WordFollows(Step(x, t[0]), t[1..]);
      assert t == [t[0]] + t[1..] && f == [f[0]] + f[1..];
    }
  }

  lemma ReadWord(stack: seq<Ctx>, t: string) returns (n: nat)
    requires t != "" && t[0] in "tfn" && Past(ScanFrom(Scan(BeginValue, stack), t), stack)
    ensures n <= |t| && (t[..n] == "true" || t[..n] == "false" || t[..n] == "null")
    ensures ScanFrom(Scan(BeginValue, stack), t[..n]) == Scan(EndValue, stack)
  {
    ScanStep(Scan(BeginValue, stack), t);
    var x := Step(Scan(BeginValue, stack), t[0]);
    assert x == Scan(if t[0] == 't' then T else if t[0] == 'f' then F else N, stack);
    hide ScanFrom, Step;
    WordFollows(x, t[1..]);
    var f := Finish(x.mode);
    n := 1 + |f|;
    assert t[..n] == [t[0]] + f;
    assert t[..n] == if t[0] == 't' then "true" else if t[0] == 'f' then "false" else "null";
    WordScans(t[..n], stack);
  }

  // ---------------------------------------------------------------- arrays and objects

  // What starts a value.
  lemma ValueBegins(m: Mode, stack: seq<Ctx>, t: string)
    requires (m.BeginValue? || (m.BeginValueOrEmpty? && t != "" && t[0] != ']'))
    requires t != "" && !IsSpace(t[0]) && Past(ScanFrom(Scan(m, stack), t), stack)
    ensures t[0] in "{[\"tfn-" || IsDigit(t[0])
    ensures ScanFrom(Scan(m, stack), t) == ScanFrom(Scan(BeginValue, stack), t)
    ensures t[0] in "{[" ==> |stack| < MAX_DEPTH &&
                             ScanFrom(Scan(BeginValue, stack), t) == ScanFrom(Opened(stack, t[0]), t[1..])
  {
    var x := Step(Scan(BeginValue, stack), t[0]);
    assert ScanFrom(Scan(m, stack), t) == ScanFrom(x, t[1..]);
    if x.Bad? {
      BadStays(t[1..]);
    }
    hide ScanFrom;
  }

  function Opened(stack: seq<Ctx>, c: char): Scan {
    if c == '[' then Scan(BeginValueOrEmpty, stack + [ArrayValue]) else Scan(BeginStringOrEmpty, stack + [ObjectKey])
  }

  // A value that is not a container.
  lemma ReadScalar(stack: seq<Ctx>, t: string) returns (n: nat)
    requires t != "" && (t[0] in "\"tfn-" || IsDigit(t[0])) && Past(ScanFrom(Scan(BeginValue, stack), t), stack)
    ensures n <= |t| && IsValue(t[..n], MAX_DEPTH)
    ensures forall depth: nat :: IsValue(t[..n], depth)
    ensures Complete(ScanFrom(Scan(BeginValue, stack), t[..n]), stack) && (n < |t| ==> Delimits(t[n]))
  {
    hide ScanFrom, IsNumber, IsString, Step, IsElements, IsMembers;
    var start := Scan(BeginValue, stack);
    if t[0] == '-' || IsDigit(t[0]) {
      n := ReadNumber(stack, t);
    } else {
      if t[0] == '"' {
        n := ReadString(BeginValue, stack, t);
      } else {
        n := ReadWord(stack, t);
      }
      if n < |t| {
        ResumeAt(start, t, n);
        AfterComplete(ScanFrom(start, t[..n]), stack, t[n]);
      }
    }
  }

  lemma {:induction false} ReadValue(m: Mode, stack: seq<Ctx>, t: string) returns (n: nat)
    requires |stack| <= MAX_DEPTH && (m.BeginValue? || (m.BeginValueOrEmpty? && t != "" && t[0] != ']'))
    requires t != "" && !IsSpace(t[0]) && Past(ScanFrom(Scan(m, stack), t), stack)
    ensures n <= |t| && IsValue(t[..n], MAX_DEPTH - |stack|)
    ensures Complete(ScanFrom(Scan(m, stack), t[..n]), stack) && (n < |t| ==> Delimits(t[n]))
    decreases |t|, 0
  {
    ValueBegins(m, stack, t);
    hide ScanFrom, IsNumber, IsString, Step, IsElements, IsMembers;
    if t[0] != '[' && t[0] != '{' {
      n := ReadScalar(stack, t);
    } else {
      var k := ReadContainer(stack, t[0], t[1..]);
      n := k + 2;
      var inner := t[1..][..k];
      assert t[..n] == [t[0]] + inner + [t[n - 1]];
      assert t[n - 1] == if t[0] == '[' then ']' else '}';
      assert t[..n] == if t[0] == '[' then "[" + inner + "]" else "{" + inner + "}";
      if t[0] == '[' {
        ArrayScans(inner, MAX_DEPTH - |stack| - 1, stack);
      } else {
        ObjectScans(inner, MAX_DEPTH - |stack| - 1, stack);
      }
      if n < |t| {
        var start := Scan(BeginValue, stack);
        ResumeAt(start, t, n);
        ContainerEnds(stack, inner, t[0]);
        AfterComplete(ScanFrom(start, t[..n]), stack, t[n]);
      }
    }
    ValueStarts(t[..n], MAX_DEPTH - |stack|);
    OrEmptyScans(t[..n], stack);
  }

  // A container is over when its bracket has been read.
  lemma ContainerEnds(stack: seq<Ctx>, inner: string, c: char)
    requires c == '[' || c == '{'
    requires var s := if c == '[' then "[" + inner + "]" else "{" + inner + "}";
             Complete(ScanFrom(Scan(BeginValue, stack), s), stack)
    ensures var s := if c == '[' then "[" + inner + "]" else "{" + inner + "}";
            ScanFrom(Scan(BeginValue, stack), s).mode in {EndValue, EndTop}
  {
    var start := Scan(BeginValue, stack);
    if c == '[' {
      ScanMore(start, "[" + inner, ']');
      BracketEnds(ScanFrom(start, "[" + inner), ']');
    } else {
      ScanMore(start, "{" + inner, '}');
      BracketEnds(ScanFrom(start, "{" + inner), '}');
    }
  }

  lemma BracketEnds(x: Scan, c: char)
    requires c == ']' || c == '}'
    ensures var y := Step(x, c); y.Scan? ==> y.mode in {EndValue, EndTop} || y.mode == InString
  {
  }

  // Behind the opening bracket: the inside, up to the closing one.
  lemma {:induction false} ReadContainer(stack: seq<Ctx>, c: char, t: string) returns (n: nat)
    requires |stack| < MAX_DEPTH && (c == '[' || c == '{')
    requires var x := ScanFrom(Opened(stack, c), t); x.Scan? && |x.stack| <= |stack|
    ensures n < |t| && t[n] == if c == '[' then ']' else '}'
    ensures AllSpace(t[..n]) || (if c == '[' then IsElements(t[..n], MAX_DEPTH - |stack| - 1)
                                 else IsMembers(t[..n], MAX_DEPTH - |stack| - 1))
    decreases |t|, 5
  {
    hide ScanFrom, IsElements, IsMembers;
    var k := SkipSpaces(t);
    var start := Opened(stack, c);
    SpacesBegin(start.mode, start.stack, t[..k]);
    Resume(start, t, k);
    ScanNothing(start);
    WholePrefix(t, k);
    ClosesAfter(t, k);
    ClosesObjectAfter(t, k);
    if t[k] == if c == '[' then ']' else '}' {
      n := k;
    } else {
      if c == '[' {
        n := ReadElements(start.mode, start.stack, t);
      } else {
        n := ReadMembers(start.mode, stack, t);
      }
    }
  }

  lemma ScanNothing(s: Scan)
    ensures ScanFrom(s, "") == s
  {
  }

  lemma {:induction false} ReadElement(m: Mode, stack: seq<Ctx>, t: string) returns (n: nat)
    requires |stack| <= MAX_DEPTH && (m.BeginValue? || (m.BeginValueOrEmpty? && !Closes(t)))
    requires Past(ScanFrom(Scan(m, stack), t), stack)
    ensures n <= |t| && IsElement(t[..n], MAX_DEPTH - |stack|)
    ensures Complete(ScanFrom(Scan(m, stack), t[..n]), stack)
    ensures n < |t| ==> t[n] in ",:]}" && Step(ScanFrom(Scan(m, stack), t[..n]), t[n]) == StepEndValue(stack, t[n])
    decreases |t|, 1
  {
    hide ScanFrom, IsValue, Step;
    var start := Scan(m, stack);
    var i := SkipSpaces(t);
    SpacesBegin(m, stack, t[..i]);
    Resume(start, t, i);
    ScanNothing(start);
    var u := t[i..];
    WholePrefix(t, i);
    ClosesAfter(t, i);
    var j := ReadValue(m, stack, u);
    var x := ScanFrom(start, u[..j]);
    Resume(start, u, j);
    var v := u[j..];
    var k := SkipSpaces(v);
    SpacesComplete(x, stack, v[..k]);
    Resume(x, v, k);
    n := i + j + k;
    Parts(t, i, j, k);
    ScanConcat(start, t[..i], u[..j]);
    ScanConcat(start, t[..i] + u[..j], v[..k]);
    IsElementOf(t[..i], u[..j], v[..k], MAX_DEPTH - |stack|);
    if n < |t| {
      ResumeAt(start, t, n);
      var z := ScanFrom(start, t[..n]);
      if k == 0 {
        assert v == u[j..] && v[0] == u[j];
      } else {
        SpacesEnd(x, stack, v[..k]);
        AfterComplete(z, stack, t[n]);
      }
      CompleteStep(z, stack, t[n]);
    }
  }

  lemma IsElementOf(before: string, v: string, after: string, depth: nat)
    requires AllSpace(before) && IsValue(v, depth) && AllSpace(after)
    ensures IsElement(before + v + after, depth)
  {
    hide IsValue;
  }

  lemma {:induction false} SpacesEnd(x: Scan, stack: seq<Ctx>, w: string)
    requires Complete(x, stack) && AllSpace(w) && w != ""
    ensures ScanFrom(x, w).Scan? && ScanFrom(x, w).mode in {EndValue, EndTop}
    decreases |w|
  {
    CompleteStep(x, stack, w[0]);
    var y := Step(x, w[0]);
    ScanNothing(y);
    if |w| > 1 {
      SpacesEnd(y, stack, w[1..]);
    }
  }

  // The first thing that is no space is a closing bracket.
  predicate Closes(t: string) {
    t != "" && if IsSpace(t[0]) then Closes(t[1..]) else t[0] == ']'
  }

  lemma {:induction false} ClosesAfter(t: string, i: nat)
    requires i < |t| && AllSpace(t[..i]) && !IsSpace(t[i])
    ensures Closes(t) <==> t[i] == ']'
  {
    if i > 0 {
      assert t[..i][0] == t[0] && t[1..][..i - 1] == t[..i][1..];
      ClosesAfter(t[1..], i - 1);
    }
  }

  lemma {:induction false} ReadElements(m: Mode, stack: seq<Ctx>, t: string) returns (n: nat)
    requires 0 < |stack| <= MAX_DEPTH && stack[|stack| - 1] == ArrayValue
    requires m.BeginValue? || (m.BeginValueOrEmpty? && !Closes(t))
    requires var x := ScanFrom(Scan(m, stack), t); x.Scan? && |x.stack| < |stack|
    ensures n < |t| && t[n] == ']' && IsElements(t[..n], MAX_DEPTH - |stack|)
    decreases |t|, 2
  {
    hide ScanFrom, IsElement, Step;
    var start := Scan(m, stack);
    var k := ReadElement(m, stack, t);
    WholePrefix(t, k);
    ResumeAt(start, t, k);
    if t[k] == ']' {
      n := k;
    } else {
      assert t[k] == ',';
      var rest := ReadElements(BeginValue, stack, t[k + 1..]);
      n := k + 1 + rest;
      assert t[..n] == t[..k] + "," + t[k + 1..][..rest];
    }
  }

  // The name, up to the colon: white space, i characters; the name, j; white space, k.
  lemma ReadName(m: Mode, stack: seq<Ctx>, t: string) returns (i: nat, j: nat, k: nat)
    requires |stack| < MAX_DEPTH && (m.BeginString? || (m.BeginStringOrEmpty? && !ClosesObject(t)))
    requires var x := ScanFrom(Scan(m, stack + [ObjectKey]), t); x.Scan? && |x.stack| <= |stack|
    ensures i + j + k < |t| && t[i + j + k] == ':'
    ensures AllSpace(t[..i]) && IsString(t[i..][..j]) && AllSpace(t[i..][j..][..k])
    ensures ScanFrom(Scan(m, stack + [ObjectKey]), t[..i + j + k + 1]) == Scan(BeginValue, stack + [ObjectValue])
  {
    hide ScanFrom, IsString;
    var key, value := stack + [ObjectKey], stack + [ObjectValue];
    var start := Scan(m, key);
    i := SkipSpaces(t);
    SpacesBegin(m, key, t[..i]);
    Resume(start, t, i);
    ScanNothing(start);
    var u := t[i..];
    WholePrefix(t, i);
    ClosesObjectAfter(t, i);
    NameFollows(m, key, u);
    j := ReadString(m, key, u);
    var x := Scan(EndValue, key);
    Resume(start, u, j);
    var v := u[j..];
    k := SkipSpaces(v);
    SpacesInside(x, key, v[..k]);
    Resume(x, v, k);
    ScanNothing(x);
    WholePrefix(v, k);
    ColonFollows(stack, v[k..]);
    Parts(t, i, j, k);
    ScanConcat(start, t[..i], u[..j]);
    ScanConcat(start, t[..i] + u[..j], v[..k]);
    assert t[..i + j + k + 1] == t[..i + j + k] + [':'];
    ScanMore(start, t[..i + j + k], ':');
  }

  lemma IsMemberOf(before: string, name: string, after: string, v: string, depth: nat)
    requires AllSpace(before) && IsString(name) && AllSpace(after) && IsElement(v, depth)
    ensures IsMember(before + name + after + ":" + v, depth)
  {
    hide IsElement, IsString;
  }

  lemma {:induction false} ReadMember(m: Mode, stack: seq<Ctx>, t: string) returns (n: nat)
    requires |stack| < MAX_DEPTH && (m.BeginString? || (m.BeginStringOrEmpty? && !ClosesObject(t)))
    requires var x := ScanFrom(Scan(m, stack + [ObjectKey]), t); x.Scan? && |x.stack| <= |stack|
    ensures n < |t| && IsMember(t[..n], MAX_DEPTH - |stack| - 1)
    ensures Complete(ScanFrom(Scan(m, stack + [ObjectKey]), t[..n]), stack + [ObjectValue])
    ensures t[n] in ",:]}" && Step(ScanFrom(Scan(m, stack + [ObjectKey]), t[..n]), t[n]) ==
                              StepEndValue(stack + [ObjectValue], t[n])
    decreases |t|, 3
  {
    hide ScanFrom, IsString, IsElement, IsMember, Step;
    var start, value := Scan(m, stack + [ObjectKey]), stack + [ObjectValue];
    var i, j, k := ReadName(m, stack, t);
    var p := i + j + k + 1;
    Resume(start, t, p);
    var e := ReadElement(BeginValue, value, t[p..]);
    n := p + e;
    MemberParts(t, i, j, k, e);
    IsMemberOf(t[..i], t[i..][..j], t[i..][j..][..k], t[p..][..e], MAX_DEPTH - |stack| - 1);
    ScanConcat(start, t[..p], t[p..][..e]);
    WholePrefix(t[p..], e);
  }

  lemma MemberParts(t: string, i: nat, j: nat, k: nat, e: nat)
    requires i + j + k + 1 + e <= |t| && t[i + j + k] == ':'
    ensures var p := i + j + k + 1;
            && t[..p + e] == t[..i] + t[i..][..j] + t[i..][j..][..k] + ":" + t[p..][..e]
            && t[..p + e] == t[..p] + t[p..][..e] && (p + e < |t| ==> t[p + e] == t[p..][e])
  {
  }

  lemma {:induction false} SpacesInside(x: Scan, stack: seq<Ctx>, w: string)
    requires x == Scan(EndValue, stack) && stack != [] && AllSpace(w)
    ensures ScanFrom(x, w) == x
    decreases |w|
  {
    if w != "" {
      assert Step(x, w[0]) == x;
      SpacesInside(x, stack, w[1..]);
    }
  }

  predicate ClosesObject(t: string) {
    t != "" && if IsSpace(t[0]) then ClosesObject(t[1..]) else t[0] == '}'
  }

  lemma {:induction false} ClosesObjectAfter(t: string, i: nat)
    requires i < |t| && AllSpace(t[..i]) && !IsSpace(t[i])
    ensures ClosesObject(t) <==> t[i] == '}'
  {
    if i > 0 {
      assert t[..i][0] == t[0] && t[1..][..i - 1] == t[..i][1..];
      ClosesObjectAfter(t[1..], i - 1);
    }
  }

  lemma NameFollows(m: Mode, stack: seq<Ctx>, t: string)
    requires t != "" && !IsSpace(t[0]) && (m.BeginString? || (m.BeginStringOrEmpty? && t[0] != '}'))
    requires ScanFrom(Scan(m, stack), t).Scan?
    ensures t[0] == '"'
  {
    if t[0] != '"' {
      BadStays(t[1..]);
    }
  }

  lemma ColonFollows(stack: seq<Ctx>, t: string)
    requires t != "" && !IsSpace(t[0])
    requires ScanFrom(Scan(EndValue, stack + [ObjectKey]), t).Scan?
    ensures t[0] == ':'
    ensures ScanFrom(Scan(EndValue, stack + [ObjectKey]), t) ==
            ScanFrom(Scan(BeginValue, stack + [ObjectValue]), t[1..])
    ensures Step(Scan(EndValue, stack + [ObjectKey]), ':') == Scan(BeginValue, stack + [ObjectValue])
  {
    var key := stack + [ObjectKey];
    assert key[|key| - 1 := ObjectValue] == stack + [ObjectValue];
    if t[0] != ':' {
      BadStays(t[1..]);
    }
  }

  lemma {:induction false} ReadMembers(m: Mode, stack: seq<Ctx>, t: string) returns (n: nat)
    requires |stack| < MAX_DEPTH && (m.BeginString? || (m.BeginStringOrEmpty? && !ClosesObject(t)))
    requires var x := ScanFrom(Scan(m, stack + [ObjectKey]), t); x.Scan? && |x.stack| <= |stack|
    ensures n < |t| && t[n] == '}' && IsMembers(t[..n], MAX_DEPTH - |stack| - 1)
    decreases |t|, 4
  {
    hide ScanFrom, IsMember, Step;
    var value := stack + [ObjectValue];
    var start := Scan(m, stack + [ObjectKey]);
    var k := ReadMember(m, stack, t);
    ResumeAt(start, t, k);
    if t[k] == '}' {
      n := k;
    } else {
      assert t[k] == ',' && value[|value| - 1 := ObjectKey] == stack + [ObjectKey];
      var rest := ReadMembers(BeginString, stack, t[k + 1..]);
      n := k + 1 + rest;
      assert t[..n] == t[..k] + "," + t[k + 1..][..rest];
    }
  }

  // ---------------------------------------------------------------- the scanner is the grammar

  /** A text is Valid if and only if it is a JSON text: a value with white space around it, nested
      no deeper than 10000 arrays and objects. */
  lemma ValidIffJson(t: string)
    ensures VerdictOf(t) == Valid <==> IsElement(t, 10_000)
  {
    hide ScanFrom, IsElement;
    var x := ScanFrom(START, t);
    if IsElement(t, 10_000) {
      ElementScans(t, 10_000, BeginValue, []);
      if x.mode != EndTop {
        CompleteStep(x, [], ' ');
      }
    }
    if VerdictOf(t) == Valid {
      TopIsEmpty(START, t);
      ValidIsPast(x);
      var n := ReadElement(BeginValue, [], t);
      if n < |t| {
        ResumeAt(START, t, n);
        assert false;
      }
      assert t[..n] == t;
    }
  }

  predicate EmptyAtTop(x: Scan) {
    x.Scan? && x.mode == EndTop ==> x.stack == []
  }

  lemma StepTopIsEmpty(x: Scan, c: char)
    requires EmptyAtTop(x)
    ensures EmptyAtTop(Step(x, c))
  {
  }

  lemma {:induction false} TopIsEmpty(x: Scan, t: string)
    requires EmptyAtTop(x)
    ensures EmptyAtTop(ScanFrom(x, t))
    decreases |t|
  {
    hide Step, EmptyAtTop;
    if t != "" {
      StepTopIsEmpty(x, t[0]);
      TopIsEmpty(Step(x, t[0]), t[1..]);
    }
  }

  lemma ValidIsPast(x: Scan)
    requires EmptyAtTop(x) && x.Scan? && (x.mode == EndTop || (Step(x, ' ').Scan? && Step(x, ' ').mode == EndTop))
    ensures Past(x, [])
  {
  }

  // ---------------------------------------------------------------- what is only cut short

  function Zeros(n: nat): string {
    if n == 0 then "" else "0" + Zeros(n - 1)
  }

  // What completes the token or value that was begun.
  function Finish(m: Mode): string {
    match m
    case BeginValue => "0" case BeginValueOrEmpty => "0"
    case BeginStringOrEmpty => "\"\"" case BeginString => "\"\""
    case InString => "\"" case Escape => "n\"" case EscapeU(left) => Zeros(left + 1) + "\""
    case Minus => "0" case Dot => "0" case Exp => "0" case ExpSign => "0"
    case T => "rue" case Tr => "ue" case Tru => "e"
    case F => "alse" case Fa => "lse" case Fal => "se" case Fals => "e"
    case N => "ull" case Nu => "ll" case Nul => "l"
    case _ => ""
  }

  function Closers(stack: seq<Ctx>): string {
    if stack == [] then "" else Closer(stack[|stack| - 1]) + Closers(stack[..|stack| - 1])
  }

  lemma {:induction false} ZerosScan(n: nat, stack: seq<Ctx>)
    ensures ScanFrom(Scan(EscapeU(n), stack), Zeros(n + 1)) == Scan(InString, stack)
  {
    var z := Zeros(n + 1);
    assert z[0] == '0' && z[1..] == Zeros(n);
    if n == 0 {
      assert z == "0";
      ScanOne(Scan(EscapeU(0), stack), '0');
    } else {
      ZerosScan(n - 1, stack);
    }
  }

  lemma FinishEscape(n: nat, stack: seq<Ctx>)
    ensures ScanFrom(Scan(EscapeU(n), stack), Finish(EscapeU(n))) == Scan(EndValue, stack)
  {
    ZerosScan(n, stack);
    ScanMore(Scan(EscapeU(n), stack), Zeros(n + 1), '"');
    hide ScanFrom;
  }

  lemma ScanTwo(x: Scan, c: char, d: char)
    ensures ScanFrom(x, [c, d]) == Step(Step(x, c), d)
  {
    hide Step;
    assert [c, d] == [c] + [d];
    ScanMore(x, [c], d);
    ScanOne(x, c);
  }

  // Inside one of the three words.
  predicate InWord(m: Mode) {
    m.T? || m.Tr? || m.Tru? || m.F? || m.Fa? || m.Fal? || m.Fals? || m.N? || m.Nu? || m.Nul?
  }

  // The next letter of the word, and no other, leads on.
  lemma NextLetter(x: Scan)
    requires x.Scan? && InWord(x.mode)
    ensures var f := Finish(x.mode);
            && f != "" && (forall c :: Step(x, c).Scan? <==> c == f[0])
            && var y := Step(x, f[0]);
               if |f| == 1 then y == Scan(EndValue, x.stack)
               else InWord(y.mode) && y.stack == x.stack && Finish(y.mode) == f[1..]
  {
  }

  lemma {:induction false} FinishWord(x: Scan)
    requires x.Scan? && InWord(x.mode)
    ensures ScanFrom(x, Finish(x.mode)) == Scan(EndValue, x.stack)
    decreases |Finish(x.mode)|
  {
    var f := Finish(x.mode);
    NextLetter(x);
    hide Step, InWord;
    var y := Step(x, f[0]);
    if |f| == 1 {
      assert f == [f[0]];
      ScanOne(x, f[0]);
    } else {
      FinishWord(y);
    }
  }

  lemma FinishCompletes(x: Scan)
    requires x.Scan? && EmptyAtTop(x)
    ensures Complete(ScanFrom(x, Finish(x.mode)), x.stack)
  {
    var f := Finish(x.mode);
    if x.mode.EscapeU? {
      FinishEscape(x.mode.left, x.stack);
    } else if InWord(x.mode) {
      FinishWord(x);
    } else if |f| == 1 {
      ScanOne(x, f[0]);
    } else if |f| == 2 {
      ScanTwo(x, f[0], f[1]);
    } else {
      ScanNothing(x);
    }
    hide ScanFrom;
  }

  // What closes the innermost container, and leaves the rest of the stack.
  function Closer(c: Ctx): string {
    match c
    case ObjectKey => ":0}"
    case ObjectValue => "}"
    case ArrayValue => "]"
  }

  lemma CloserCompletes(x: Scan, rest: seq<Ctx>, c: Ctx)
    requires Complete(x, rest + [c])
    ensures Complete(ScanFrom(x, Closer(c)), rest)
  {
    hide ScanFrom;
    var stack := rest + [c];
    assert stack[..|stack| - 1] == rest;
    if c == ObjectKey {
      var value := rest + [ObjectValue];
      assert stack[|stack| - 1 := ObjectValue] == value && value[..|value| - 1] == rest;
      CompleteStep(x, stack, ':');
      ScanTwo(x, ':', '0');
      ScanMore(x, ":0", '}');
      assert ":0" + ['}'] == ":0}";
      CompleteStep(Scan(Zero, value), value, '}');
    } else {
      var close := Closer(c)[0];
      CompleteStep(x, stack, close);
      ScanOne(x, close);
      assert Closer(c) == [close];
    }
  }

  lemma {:induction false} ClosersComplete(x: Scan, stack: seq<Ctx>)
    requires Complete(x, stack)
    ensures Complete(ScanFrom(x, Closers(stack)), [])
    decreases |stack|
  {
    hide ScanFrom, Complete, Closer;
    if stack == [] {
      ScanNothing(x);
    } else {
      var n := |stack| - 1;
      assert stack == stack[..n] + [stack[n]];
      CloserCompletes(x, stack[..n], stack[n]);
      ClosersComplete(ScanFrom(x, Closer(stack[n])), stack[..n]);
      ScanConcat(x, Closer(stack[n]), Closers(stack[..n]));
    }
  }

  /** What the verdict says of every text that is not a JSON text: Truncated if it can be continued
      to one and does not end inside a token that a space cannot follow, Malformed otherwise. */
  lemma TruncatedIffContinues(t: string)
    ensures VerdictOf(t) == Truncated <==>
            !IsElement(t, 10_000) && !CutInsideToken(t) && exists u :: IsElement(t + u, 10_000)
  {
    hide IsElement, ScanFrom;
    var x := ScanFrom(START, t);
    ValidIffJson(t);
    TopIsEmpty(START, t);
    if x.Scan? {
      var u := Finish(x.mode) + Closers(x.stack);
      FinishCompletes(x);
      var y := ScanFrom(x, Finish(x.mode));
      ClosersComplete(y, x.stack);
      ScanConcat(x, Finish(x.mode), Closers(x.stack));
      ScanConcat(START, t, u);
      CompleteIsValid(t + u);
      ValidIffJson(t + u);
      SpaceIsRefused(x);
    } else {
      forall u ensures !IsElement(t + u, 10_000) {
        ScanConcat(START, t, u);
        BadStays(u);
        ValidIffJson(t + u);
      }
    }
  }

  lemma CompleteIsValid(t: string)
    requires Complete(ScanFrom(START, t), [])
    ensures VerdictOf(t) == Valid
  {
    hide ScanFrom;
    CompleteStep(ScanFrom(START, t), [], ' ');
  }

  lemma SpaceIsRefused(x: Scan)
    requires x.Scan? && EmptyAtTop(x)
    ensures Step(x, ' ').Bad? <==> MidToken(x.mode)
  {
  }
}
