// Recognising the upstream's "model capacity queue" signal in an error text that may have been
// JSON-escaped any number of times (internal/qoder/queue.go), and the model quota signal
// (internal/qoder/transport.go:425-436).

module QueueSignal {
  import opened Wrappers

  // \s in the patterns; a JSON string can hold only the first of these unescaped.
  predicate IsGap(c: char, spacesOnly: bool) {
    c == ' ' || (!spacesOnly && (c == '\t' || c == '\n' || c == '\r' || c == '\U{0C}'))
  }

  function SkipGap(s: string, spacesOnly: bool): (r: string)
    ensures |r| <= |s|
  {
    if s != "" && IsGap(s[0], spacesOnly) then SkipGap(s[1..], spacesOnly) else s
  }

  function Backslashes(s: string): (k: nat)
    ensures k <= |s|
  {
    if s != "" && s[0] == '\\' then 1 + Backslashes(s[1..]) else 0
  }

  // Length of the quote at the front: backslashes and a double quote. The patterns demand a
  // backslash; `plain` also takes the bare quote of unescaped JSON. 0 if there is none.
  function QuoteLength(s: string, plain: bool): (n: nat)
    ensures n <= |s|
  {
    var k := Backslashes(s);
    if (plain || k > 0) && k < |s| && s[k] == '"' then k + 1 else 0
  }

  // How strictly a text is read: as the patterns do (false, false), or as described above.
  datatype Mode = Mode(plain: bool, spacesOnly: bool)

  const PATTERN := Mode(false, false)
  const LENIENT := Mode(true, true)

  // What stands where the value of `word` is read: after the word, an optional quote, a colon
  // and gaps.
  function AfterColon(t: string, m: Mode): Option<string> {
    var u := SkipGap(t, m.spacesOnly);
    if ":" <= u then Some(SkipGap(u[1..], m.spacesOnly)) else None
  }

  function ValueOf(s: string, word: string, m: Mode): Option<string> {
    if !(word <= s) then None
    else
      var t := s[|word|..];
      var direct := AfterColon(t, m);
      if direct.Some? then direct else AfterColon(t[QuoteLength(t, m.plain)..], m)
  }

  predicate Reads(s: string, word: string, value: string, m: Mode) {
    match ValueOf(s, word, m)
    case None => false
    case Some(v) => value <= v || value <= v[QuoteLength(v, m.plain)..]
  }

  predicate MarkerHere(s: string, m: Mode) {
    Reads(s, "code", "10605", m) || Reads(s, "isQueued", "true", m) || "queueType" <= s
  }

  predicate Marked(s: string, m: Mode) {
    s != "" && (MarkerHere(s, m) || Marked(s[1..], m))
  }

  predicate IsQueueError(message: string) {
    Marked(message, PATTERN)
  }

  function Digits(s: string): string {
    if s != "" && IsDigit(s[0]) then [s[0]] + Digits(s[1..]) else ""
  }

  // The digits at the front of a value, or behind its quote.
  function NumberIn(v: string, plain: bool): string {
    var direct := Digits(v);
    if direct != "" then direct else Digits(v[QuoteLength(v, plain)..])
  }

  // The digits that the delay pattern captures at this position.
  function DelayHere(s: string, m: Mode): string {
    match ValueOf(s, "retryAfterSeconds", m)
    case None => ""
    case Some(v) => NumberIn(v, m.plain)
  }

  // The leftmost match.
  function Delay(s: string, m: Mode): string {
    if s == "" then ""
    else
      var here := DelayHere(s, m);
      if here != "" then here else Delay(s[1..], m)
  }

  function ToNat(digits: string): nat {
    if digits == "" then 0
    else
      var c := digits[|digits| - 1];
      ToNat(digits[..|digits| - 1]) * 10 + if IsDigit(c) then c as int - '0' as int else 0
  }

  const SECOND := 1_000_000_000
  const DEFAULT_WAIT := 30 * SECOND

  // Multiplication of time.Durations is 64-bit and wraps.
  function Wrap(x: int): int {
    (x + TWO_63) % (2 * TWO_63) - TWO_63
  }

  // digits is empty when the pattern does not match; Atoi fails beyond 64 bits.
  function DelayOf(digits: string): int {
    var n := ToNat(digits);
    if digits != "" && 0 < n < TWO_63 then Wrap(n * SECOND) else DEFAULT_WAIT
  }

  function QueueWaitSeconds(message: string): int {
    if !IsQueueError(message) then 0 else DelayOf(Delay(message, PATTERN))
  }

  /** The documented "always positive" holds only as far as nanoseconds fit: when a recognised
      message carries a delay of n seconds that Atoi can read, the result is n seconds exactly
      up to 9223372036. */
  lemma DelayExactIff(message: string)
    requires IsQueueError(message) && Delay(message, PATTERN) != ""
    requires 0 < ToNat(Delay(message, PATTERN)) < TWO_63
    ensures var n := ToNat(Delay(message, PATTERN));
            QueueWaitSeconds(message) == n * SECOND <==> n <= 9_223_372_036
  {
    hide IsQueueError, Delay, ToNat;
    WrapExactIff(ToNat(Delay(message, PATTERN)));
  }

  lemma WrapExactIff(n: nat)
    requires 0 < n < TWO_63
    ensures Wrap(n * SECOND) == n * SECOND <==> n <= 9_223_372_036
  {
  }

  // The sign bit of the 64-bit product is clear and the product is not zero.
  predicate FitsPositive(product: nat) {
    product / TWO_63 % 2 == 0 && product % TWO_63 != 0
  }

  lemma WrapPositiveIff(x: nat)
    ensures Wrap(x) > 0 <==> FitsPositive(x)
  {
    var q, r := x / TWO_63, x % TWO_63;
    assert x == q * TWO_63 + r;
    if q % 2 == 0 {
      assert x + TWO_63 == q / 2 * (2 * TWO_63) + (r + TWO_63);
      Remainder(x + TWO_63, q / 2, r + TWO_63);
    } else {
      assert x + TWO_63 == (q / 2 + 1) * (2 * TWO_63) + r;
      Remainder(x + TWO_63, q / 2 + 1, r);
    }
  }

  lemma Remainder(x: nat, q: nat, r: nat)
    requires r < 2 * TWO_63 && x == q * (2 * TWO_63) + r
    ensures x % (2 * TWO_63) == r
  {
  }

  /** Exactly when a message asks for a positive wait: it is recognised, and carries no delay, one
      that Atoi reads as zero or cannot read, or one whose nanoseconds leave the sign bit clear. */
  lemma WaitPositiveIff(message: string)
    ensures var digits := Delay(message, PATTERN);
            var n := ToNat(digits);
            QueueWaitSeconds(message) > 0 <==>
            IsQueueError(message) && (digits == "" || n == 0 || n >= TWO_63 || FitsPositive(n * SECOND))
  {
    hide IsQueueError, Delay, ToNat, FitsPositive, Wrap;
    WrapPositiveIff(ToNat(Delay(message, PATTERN)) * SECOND);
  }

  lemma {:induction false} DigitsEnd(digits: string, rest: string)
    requires (forall i :: 0 <= i < |digits| ==> IsDigit(digits[i])) && (rest == "" || !IsDigit(rest[0]))
    ensures Digits(digits + rest) == digits
  {
    if digits == "" {
      assert digits + rest == rest;
    } else {
      assert (digits + rest)[1..] == digits[1..] + rest;
      DigitsEnd(digits[1..], rest);
    }
  }

  lemma ToNatMore(digits: string, c: char)
    requires IsDigit(c)
    ensures ToNat(digits + [c]) == ToNat(digits) * 10 + (c as int - '0' as int)
  {
    assert (digits + [c])[..|digits|] == digits;
  }

  // The first delay, in seconds, that does not fit.
  lemma TooLong()
    ensures ToNat("9223372037") == 9_223_372_037
  {
    hide ToNat;
    NoDigits();
    FiveDigits("", "92233", 0, 92_233);
    assert "" + "92233" == "92233";
    FiveDigits("92233", "72037", 92_233, 9_223_372_037);
    assert "92233" + "72037" == "9223372037";
  }

  lemma FiveDigits(front: string, d: string, n: nat, r: nat)
    requires |d| == 5 && (forall i :: 0 <= i < 5 ==> IsDigit(d[i])) && ToNat(front) == n
    requires r == ((((n * 10 + (d[0] as int - 48)) * 10 + (d[1] as int - 48)) * 10 + (d[2] as int - 48)) * 10 +
                   (d[3] as int - 48)) * 10 + (d[4] as int - 48)
    ensures ToNat(front + d) == r
  {
    ToNatMore(front, d[0]);
    ToNatMore(front + [d[0]], d[1]);
    ToNatMore(front + [d[0]] + [d[1]], d[2]);
    ToNatMore(front + [d[0]] + [d[1]] + [d[2]], d[3]);
    ToNatMore(front + [d[0]] + [d[1]] + [d[2]] + [d[3]], d[4]);
    hide ToNat;
    OneByOne(front, d);
  }

  lemma OneByOne(front: string, d: string)
    requires |d| == 5
    ensures front + d == front + [d[0]] + [d[1]] + [d[2]] + [d[3]] + [d[4]]
  {
    assert d == [d[0], d[1], d[2], d[3], d[4]];
  }

  lemma NoDigits()
    ensures ToNat("") == 0
  {
  }

  lemma ColonInFront(value: string, m: Mode)
    requires value != "" && !IsGap(value[0], m.spacesOnly)
    ensures AfterColon(":" + value, m) == Some(value)
  {
    assert (":" + value)[1..] == value;
  }

  lemma ValueInFront(word: string, value: string, m: Mode)
    requires value != "" && !IsGap(value[0], m.spacesOnly)
    ensures ValueOf(word + (":" + value), word, m) == Some(value)
  {
    ColonInFront(value, m);
    hide AfterColon;
    assert (word + (":" + value))[|word|..] == ":" + value;
  }

  lemma DelayHereIs(s: string, value: string, digits: string, m: Mode)
    requires ValueOf(s, "retryAfterSeconds", m) == Some(value) && Digits(value) == digits != ""
    ensures DelayHere(s, m) == digits
  {
    hide ValueOf, Digits;
  }

  lemma DelayIsHere(s: string, m: Mode)
    requires DelayHere(s, m) != "" && s != ""
    ensures Delay(s, m) == DelayHere(s, m)
  {
    hide DelayHere;
  }

  // A message that starts with a delay.
  lemma DelayInFront(digits: string, rest: string)
    requires digits != "" && (forall i :: 0 <= i < |digits| ==> IsDigit(digits[i])) && (rest == "" || !IsDigit(rest[0]))
    ensures Delay("retryAfterSeconds" + (":" + (digits + rest)), PATTERN) == digits
  {
    var value := digits + rest;
    assert !IsGap(value[0], false);
    hide *;
    var s := "retryAfterSeconds" + (":" + value);
    assert |s| > 0;
    ValueInFront("retryAfterSeconds", value, PATTERN);
    DigitsEnd(digits, rest);
    DelayHereIs(s, value, digits, PATTERN);
    DelayIsHere(s, PATTERN);
  }

  lemma QueueTypeMarks()
    ensures Marked("queueType", PATTERN)
  {
    hide Reads;
    assert MarkerHere("queueType", PATTERN);
  }

  lemma LongDelayIsDigits()
    ensures forall i :: 0 <= i < |"9223372037"| ==> IsDigit("9223372037"[i])
  {
  }

  /** A message at which the wait is negative: one second more than fits. */
  lemma WaitCanBeNegative()
    ensures var message := "retryAfterSeconds" + (":" + ("9223372037" + (" " + "queueType")));
            IsQueueError(message) && QueueWaitSeconds(message) < 0
  {
    LongDelayIsDigits();
    DelayInFront("9223372037", " " + "queueType");
    QueueTypeMarks();
    TooLong();
    hide *;
    MarkedSuffix(" ", "queueType", PATTERN);
    MarkedSuffix("9223372037", " " + "queueType", PATTERN);
    MarkedSuffix(":", "9223372037" + (" " + "queueType"), PATTERN);
    MarkedSuffix("retryAfterSeconds", ":" + ("9223372037" + (" " + "queueType")), PATTERN);
    WaitOf("retryAfterSeconds" + (":" + ("9223372037" + (" " + "queueType"))), "9223372037", 9_223_372_037);
  }

  lemma WaitOf(message: string, digits: string, n: nat)
    requires IsQueueError(message) || Marked(message, PATTERN)
    requires Delay(message, PATTERN) == digits && digits != "" && ToNat(digits) == n &&
             9_223_372_036 < n < 9_300_000_000
    ensures IsQueueError(message) && QueueWaitSeconds(message) < 0
  {
    hide Marked, Delay, ToNat;
  }

  // ---------------------------------------------------------------- the quota signal

  predicate QuotaHere(s: string) {
    || "\"pricingUrl\"" <= s
    || ("\"code\"" <= s &&
        var u := SkipGap(s[6..], false);
        ":" <= u && var v := SkipGap(u[1..], false); "112" <= v || "\"112" <= v)
  }

  predicate IsQuotaError(message: string) {
    message != "" && (QuotaHere(message) || IsQuotaError(message[1..]))
  }

  // ---------------------------------------------------------------- escaping

  // A JSON string body (section 7 of RFC 8259). control says how a control character is written.
  function EscapeChar(c: char, control: char -> string): string {
    if c == '"' then "\\\"" else if c == '\\' then "\\\\" else if c < ' ' then control(c) else [c]
  }

  function Escape(s: string, control: char -> string): string {
    if s == "" then "" else EscapeChar(s[0], control) + Escape(s[1..], control)
  }

  function EscapeTimes(s: string, n: nat, control: char -> string): string {
    if n == 0 then s else Escape(EscapeTimes(s, n - 1, control), control)
  }

  predicate NoControls(s: string) {
    forall i :: 0 <= i < |s| ==> s[i] >= ' '
  }

  // Characters that escaping leaves alone.
  predicate PlainText(s: string) {
    forall i :: 0 <= i < |s| ==> s[i] >= ' ' && s[i] != '"' && s[i] != '\\'
  }

  lemma {:induction false} EscapeKeepsControlFree(s: string, control: char -> string)
    requires NoControls(s)
    ensures NoControls(Escape(s, control))
  {
    if s != "" {
      EscapeKeepsControlFree(s[1..], control);
    }
  }

  lemma {:induction false} EscapeWord(s: string, word: string, control: char -> string)
    requires NoControls(s) && PlainText(word)
    ensures word <= Escape(s, control) <==> word <= s
    ensures word <= s ==> Escape(s, control)[|word|..] == Escape(s[|word|..], control)
  {
    if word != "" && s != "" {
      EscapeWord(s[1..], word[1..], control);
      var e := Escape(s, control);
      if s[0] == word[0] {
        assert e == [s[0]] + Escape(s[1..], control);
        assert e[1..] == Escape(s[1..], control);
        assert word <= e <==> word[1..] <= e[1..];
        assert word <= s <==> word[1..] <= s[1..];
      }
    }
  }

  lemma {:induction false} EscapeGap(s: string, spacesOnly: bool, control: char -> string)
    requires NoControls(s)
    ensures SkipGap(Escape(s, control), spacesOnly) == Escape(SkipGap(s, true), control)
    ensures NoControls(SkipGap(s, true))
  {
    if s != "" && s[0] == ' ' {
      assert Escape(s, control)[1..] == Escape(s[1..], control);
      EscapeGap(s[1..], spacesOnly, control);
    }
  }

  lemma {:induction false} EscapeQuote(s: string, plain: bool, control: char -> string)
    requires StopsCleanly(s)
    ensures var n := QuoteLength(s, true);
            && QuoteLength(Escape(s, control), plain) == 2 * n
            && Escape(s, control)[2 * n..] == Escape(s[n..], control)
  {
    EscapeBackslashes(s, control);
    var k := Backslashes(s);
    var e := Escape(s, control);
    if k < |s| {
      EscapeFirst(s[k], s[k + 1..], control);
      assert [s[k]] + s[k + 1..] == s[k..];
      assert e[2 * k] == e[2 * k..][0];
    }
    hide Escape, Backslashes;
    if k < |s| && s[k] == '"' {
      DropTwice(s, k, 1);
      DropTwice(e, 2 * k, 2);
    }
  }

  lemma DropTwice(s: string, i: nat, j: nat)
    requires i + j <= |s|
    ensures s[i..][j..] == s[i + j..]
  {
  }

  // The backslashes at the front are not followed by a control character.
  predicate StopsCleanly(s: string) {
    Backslashes(s) < |s| ==> s[Backslashes(s)] >= ' '
  }

  lemma TwoBackslashes(s: string)
    ensures Backslashes("\\\\" + s) == 2 + Backslashes(s)
  {
    var e := "\\\\" + s;
    assert e[1..][1..] == s;
  }

  lemma EscapedBackslash(s: string, control: char -> string)
    requires s != "" && s[0] == '\\'
    ensures Escape(s, control) == "\\\\" + Escape(s[1..], control) && Backslashes(s) == 1 + Backslashes(s[1..])
  {
  }

  lemma NoBackslashInFront(s: string, control: char -> string)
    requires s == "" || (s[0] >= ' ' && s[0] != '\\')
    ensures Backslashes(s) == 0 && Backslashes(Escape(s, control)) == if s != "" && s[0] == '"' then 1 else 0
  {
    if s != "" && s[0] == '"' {
      var e := Escape(s, control);
      assert e[0] == '\\' && e[1] == '"' && e[1..][0] == '"';
      assert Backslashes(e[1..]) == 0;
    }
  }

  lemma {:induction false} EscapeBackslashes(s: string, control: char -> string)
    requires StopsCleanly(s)
    ensures var k := Backslashes(s);
            var e := Escape(s, control);
            && |e| >= 2 * k && e[2 * k..] == Escape(s[k..], control)
            && Backslashes(e) == 2 * k + if k < |s| && s[k] == '"' then 1 else 0
  {
    if s != "" && s[0] == '\\' {
      EscapedBackslash(s, control);
      assert StopsCleanly(s[1..]);
      EscapeBackslashes(s[1..], control);
      hide Escape, Backslashes, StopsCleanly;
      var e, more, k := Escape(s, control), Escape(s[1..], control), Backslashes(s[1..]);
      TwoBackslashes(more);
      assert e[2 + 2 * k..] == more[2 * k..];
      assert s[1..][k..] == s[1 + k..];
    } else {
      assert Backslashes(s) == 0;
      NoBackslashInFront(s, control);
      hide Escape, Backslashes, StopsCleanly;
      assert s[0..] == s && Escape(s, control)[0..] == Escape(s, control);
    }
  }

  lemma EscapeAfterColon(t: string, m: Mode, control: char -> string)
    requires NoControls(t)
    ensures var a := AfterColon(t, LENIENT);
            && AfterColon(Escape(t, control), m) == (if a.Some? then Some(Escape(a.value, control)) else None)
            && (a.Some? ==> NoControls(a.value))
  {
    EscapeGap(t, m.spacesOnly, control);
    var u := SkipGap(t, true);
    EscapeWord(u, ":", control);
    if ":" <= u {
      EscapeGap(u[1..], m.spacesOnly, control);
    }
  }

  lemma EscapeValueOf(s: string, word: string, m: Mode, control: char -> string)
    requires NoControls(s) && PlainText(word)
    ensures var v := ValueOf(s, word, LENIENT);
            && ValueOf(Escape(s, control), word, m) == (if v.Some? then Some(Escape(v.value, control)) else None)
            && (v.Some? ==> NoControls(v.value))
  {
    EscapeWord(s, word, control);
    if word <= s {
      var t := s[|word|..];
      EscapeQuote(t, m.plain, control);
      EscapeAfterColon(t, m, control);
      EscapeAfterColon(t[QuoteLength(t, true)..], m, control);
    }
  }

  lemma EscapeReads(s: string, word: string, value: string, m: Mode, control: char -> string)
    requires NoControls(s) && PlainText(word) && PlainText(value)
    ensures Reads(Escape(s, control), word, value, m) <==> Reads(s, word, value, LENIENT)
  {
    hide ValueOf, Escape, QuoteLength, NoControls, PlainText;
    EscapeValueOf(s, word, m, control);
    var v := ValueOf(s, word, LENIENT);
    if v.Some? {
      EscapeWord(v.value, value, control);
      EscapeQuote(v.value, m.plain, control);
      EscapeWord(v.value[QuoteLength(v.value, true)..], value, control);
    }
  }

  lemma EscapeMarkerHere(s: string, m: Mode, control: char -> string)
    requires NoControls(s)
    ensures MarkerHere(Escape(s, control), m) <==> MarkerHere(s, LENIENT)
  {
    hide Reads, Escape, NoControls;
    EscapeReads(s, "code", "10605", m, control);
    EscapeReads(s, "isQueued", "true", m, control);
    EscapeWord(s, "queueType", control);
  }

  // Nothing is recognised in the middle of an escape.
  lemma NoMarkerAtEscape(s: string, m: Mode)
    requires s != "" && (s[0] == '"' || s[0] == '\\')
    ensures !MarkerHere(s, m) && DelayHere(s, m) == ""
  {
  }

  lemma AcrossEscape(c: char, more: string, m: Mode)
    requires c == '"' || c == '\\'
    ensures Marked(['\\', c] + more, m) == Marked(more, m) && Delay(['\\', c] + more, m) == Delay(more, m)
  {
    var e := ['\\', c] + more;
    assert e[1..] == [c] + more && e[1..][1..] == more;
    NoMarkerAtEscape(e, m);
    NoMarkerAtEscape(e[1..], m);
    hide MarkerHere, DelayHere;
  }

  lemma {:induction false} EscapeMarked(s: string, m: Mode, control: char -> string)
    requires NoControls(s)
    ensures Marked(Escape(s, control), m) <==> Marked(s, LENIENT)
    ensures Delay(Escape(s, control), m) == Delay(s, LENIENT)
  {
    if s != "" {
      var more := Escape(s[1..], control);
      EscapeMarked(s[1..], m, control);
      if s[0] == '"' || s[0] == '\\' {
        AcrossEscape(s[0], more, m);
        NoMarkerAtEscape(s, LENIENT);
        hide MarkerHere, DelayHere;
        assert Escape(s, control) == ['\\', s[0]] + more;
      } else {
        EscapeMarkerHere(s, m, control);
        EscapeDelayHere(s, m, control);
        hide MarkerHere, DelayHere;
        assert Escape(s, control) == [s[0]] + more && Escape(s, control)[1..] == more;
      }
    }
  }

  lemma {:induction false} EscapeDigits(s: string, control: char -> string)
    ensures NoControls(s) ==> Digits(Escape(s, control)) == Digits(s)
  {
    if s != "" && NoControls(s) {
      if IsDigit(s[0]) {
        assert Escape(s, control)[1..] == Escape(s[1..], control);
        EscapeDigits(s[1..], control);
      }
    }
  }

  lemma EscapeNumber(v: string, plain: bool, control: char -> string)
    requires NoControls(v)
    ensures NumberIn(Escape(v, control), plain) == NumberIn(v, true)
  {
    EscapeDigits(v, control);
    EscapeQuote(v, plain, control);
    EscapeDigits(v[QuoteLength(v, true)..], control);
    hide Escape, QuoteLength;
  }

  lemma EscapeDelayHere(s: string, m: Mode, control: char -> string)
    requires NoControls(s)
    ensures DelayHere(Escape(s, control), m) == DelayHere(s, LENIENT)
  {
    hide ValueOf, Escape, NoControls, NumberIn;
    EscapeValueOf(s, "retryAfterSeconds", m, control);
    var v := ValueOf(s, "retryAfterSeconds", LENIENT);
    if v.Some? {
      EscapeNumber(v.value, m.plain, control);
    }
  }

  /** Recognition does not depend on the depth. Escaped once or more, a message is taken for a
      queue signal exactly when, read leniently (a quote may stand bare, gaps are spaces), it
      shows one of the markers; and the delay read from it is the same at all these depths. */
  lemma {:induction false} DepthDoesNotMatter(s: string, n: nat, control: char -> string)
    requires NoControls(s) && n > 0
    ensures IsQueueError(EscapeTimes(s, n, control)) <==> Marked(s, LENIENT)
    ensures QueueWaitSeconds(EscapeTimes(s, n, control)) == if Marked(s, LENIENT) then DelayOf(Delay(s, LENIENT)) else 0
  {
    hide DelayOf;
    LenientAtDepth(s, n - 1, control);
    EscapeMarked(EscapeTimes(s, n - 1, control), PATTERN, control);
  }

  lemma {:induction false} LenientAtDepth(s: string, n: nat, control: char -> string)
    requires NoControls(s)
    ensures var t := EscapeTimes(s, n, control);
            NoControls(t) && (Marked(t, LENIENT) <==> Marked(s, LENIENT)) && Delay(t, LENIENT) == Delay(s, LENIENT)
  {
    if n > 0 {
      var t := EscapeTimes(s, n - 1, control);
      LenientAtDepth(s, n - 1, control);
      EscapeMarked(t, LENIENT, control);
      EscapeKeepsControlFree(t, control);
    }
  }

  // ---------------------------------------------------------------- at depth zero

  /** What the patterns accept with spaces in the gaps, the lenient reading accepts. */
  lemma {:induction false} PatternIsLenient(s: string)
    ensures Marked(s, Mode(false, true)) ==> Marked(s, LENIENT)
  {
    if s != "" {
      PatternIsLenient(s[1..]);
      StrictReads(s, "code", "10605");
      StrictReads(s, "isQueued", "true");
      hide Reads;
    }
  }

  lemma StrictReads(s: string, word: string, value: string)
    ensures Reads(s, word, value, Mode(false, true)) ==> Reads(s, word, value, LENIENT)
  {
    if word <= s {
      var t := s[|word|..];
      BareQuoteReadsNothing(t);
      var v := ValueOf(s, word, Mode(false, true));
      if v.Some? {
        BareQuoteReadsNothing(v.value);
      }
    }
  }

  // A quote the patterns see is the quote the lenient reading sees.
  lemma BareQuoteReadsNothing(t: string)
    ensures QuoteLength(t, false) == 0 || QuoteLength(t, false) == QuoteLength(t, true)
    ensures QuoteLength(t, false) == 0 ==> t[QuoteLength(t, false)..] == t
  {
  }

  // ---------------------------------------------------------------- with control characters

  lemma {:induction false} MarkedSuffix(p: string, x: string, m: Mode)
    requires Marked(x, m)
    ensures Marked(p + x, m)
  {
    hide MarkerHere;
    if p == "" {
      assert p + x == x;
    } else {
      assert (p + x)[1..] == p[1..] + x;
      MarkedSuffix(p[1..], x, m);
    }
  }

  lemma {:induction false} WordForward(s: string, word: string, control: char -> string)
    requires PlainText(word) && word <= s
    ensures word <= Escape(s, control) && Escape(s, control)[|word|..] == Escape(s[|word|..], control)
  {
    if word != "" {
      assert s[0] == word[0];
      var e := Escape(s, control);
      assert e == [s[0]] + Escape(s[1..], control) && e[1..] == Escape(s[1..], control);
      WordForward(s[1..], word[1..], control);
      assert word == [word[0]] + word[1..];
      assert e[1..][|word| - 1..] == e[|word|..];
    }
  }

  lemma {:induction false} GapForward(s: string, spacesOnly: bool, control: char -> string)
    requires var u := SkipGap(s, true); u != "" && u[0] >= ' '
    ensures SkipGap(Escape(s, control), spacesOnly) == Escape(SkipGap(s, true), control)
  {
    if s[0] == ' ' {
      assert Escape(s, control) == " " + Escape(s[1..], control);
      assert Escape(s, control)[1..] == Escape(s[1..], control);
      GapForward(s[1..], spacesOnly, control);
    }
  }

  lemma ColonForward(t: string, m: Mode, control: char -> string)
    requires var a := AfterColon(t, LENIENT); a.Some? && a.value != "" && a.value[0] >= ' '
    ensures AfterColon(Escape(t, control), m) == Some(Escape(AfterColon(t, LENIENT).value, control))
  {
    GapForward(t, m.spacesOnly, control);
    var u := SkipGap(t, true);
    WordForward(u, ":", control);
    GapForward(u[1..], m.spacesOnly, control);
  }

  lemma ValueForward(s: string, word: string, m: Mode, control: char -> string)
    requires PlainText(word)
    requires var v := ValueOf(s, word, LENIENT); v.Some? && v.value != "" && v.value[0] >= ' '
    ensures ValueOf(Escape(s, control), word, m) == Some(Escape(ValueOf(s, word, LENIENT).value, control))
  {
    var t := s[|word|..];
    WordForward(s, word, control);
    if AfterColon(t, LENIENT).Some? {
      ColonForward(t, m, control);
    } else {
      QuoteFollows(t);
      EscapeQuote(t, m.plain, control);
      ColonForward(t[QuoteLength(t, true)..], m, control);
      QuoteIsNoColon(Escape(t, control), m);
    }
  }

  lemma QuoteFollows(t: string)
    requires AfterColon(t, LENIENT).None? && AfterColon(t[QuoteLength(t, true)..], LENIENT).Some?
    ensures QuoteLength(t, true) > 0
  {
    assert t[0..] == t;
  }

  lemma QuoteIsNoColon(e: string, m: Mode)
    requires QuoteLength(e, m.plain) > 0
    ensures AfterColon(e, m).None?
  {
  }

  lemma ReadsForward(s: string, word: string, value: string, m: Mode, control: char -> string)
    requires PlainText(word) && PlainText(value) && value != "" && Reads(s, word, value, LENIENT)
    ensures Reads(Escape(s, control), word, value, m)
  {
    var v := ValueOf(s, word, LENIENT).value;
    if value <= v {
      assert v[0] == value[0];
      WordForward(v, value, control);
    } else {
      assert QuoteLength(v, true) > 0 by {
        assert v[0..] == v;
      }
      EscapeQuote(v, m.plain, control);
      WordForward(v[QuoteLength(v, true)..], value, control);
    }
    ValueForward(s, word, m, control);
  }

  lemma MarkerForward(s: string, m: Mode, control: char -> string)
    requires MarkerHere(s, LENIENT)
    ensures MarkerHere(Escape(s, control), m) && Escape(s, control) != ""
  {
    hide Reads, Escape;
    if Reads(s, "code", "10605", LENIENT) {
      ReadsForward(s, "code", "10605", m, control);
      ReadsSomething(Escape(s, control), "code", "10605", m);
    } else if Reads(s, "isQueued", "true", LENIENT) {
      ReadsForward(s, "isQueued", "true", m, control);
      ReadsSomething(Escape(s, control), "isQueued", "true", m);
    } else {
      WordForward(s, "queueType", control);
    }
  }

  lemma ReadsSomething(s: string, word: string, value: string, m: Mode)
    requires Reads(s, word, value, m) && word != ""
    ensures s != ""
  {
  }

  lemma {:induction false} MarkedForward(s: string, m: Mode, control: char -> string)
    requires Marked(s, LENIENT)
    ensures Marked(Escape(s, control), m)
  {
    hide MarkerHere, EscapeChar;
    if MarkerHere(s, LENIENT) {
      MarkerForward(s, m, control);
    } else {
      MarkedForward(s[1..], m, control);
      MarkedSuffix(EscapeChar(s[0], control), Escape(s[1..], control), m);
    }
  }

  /** Recognition is closed under escaping, whatever else the message holds and however control
      characters are written: a message showing a marker (quoted or bare, spaces in its gaps) is
      recognised at every depth from one on. */
  lemma {:induction false} RecognitionClosedUnderEscaping(s: string, n: nat, control: char -> string)
    requires n > 0 && Marked(s, LENIENT)
    ensures IsQueueError(EscapeTimes(s, n, control)) && Marked(EscapeTimes(s, n, control), LENIENT)
  {
    if n > 1 {
      RecognitionClosedUnderEscaping(s, n - 1, control);
    }
    MarkedForward(EscapeTimes(s, n - 1, control), PATTERN, control);
    MarkedForward(EscapeTimes(s, n - 1, control), LENIENT, control);
  }

  lemma {:induction false} NoFirstLetter(s: string, m: Mode)
    requires forall i :: 0 <= i < |s| ==> s[i] != 'c' && s[i] != 'i' && s[i] != 'q'
    ensures !Marked(s, m)
  {
    if s != "" {
      NoFirstLetter(s[1..], m);
      assert "code"[0] == 'c' && "isQueued"[0] == 'i' && "queueType"[0] == 'q';
    }
  }

  // "code" with 10605 behind it, whatever quote stands between.
  lemma CodeMarker(quote: string, m: Mode)
    requires quote == "" || (quote == "\"" && m.plain)
    ensures Marked("code" + quote + ":10605", m)
  {
    var s := "code" + quote + ":10605";
    var t := quote + ":10605";
    assert s[4..] == t;
    assert ":10605"[1..] == "10605";
    assert AfterColon(":10605", m) == Some("10605");
    if quote == "" {
      assert t == ":10605";
    } else {
      assert t[0] == '"' && QuoteLength(t, m.plain) == 1 && t[1..] == ":10605";
    }
    assert ValueOf(s, "code", m) == Some("10605");
    assert Reads(s, "code", "10605", m);
  }

  // ---------------------------------------------------------------- unescaped text

  // As the patterns, but a quote may stand without a backslash.
  const BARE := Mode(true, false)

  // Where the value of `word` is read here, a quote without a backslash is passed: directly after
  // the word, or directly before the value.
  predicate PassesBareQuote(s: string, word: string) {
    word <= s &&
    ("\"" <= s[|word|..] || (ValueOf(s, word, BARE).Some? && "\"" <= ValueOf(s, word, BARE).value))
  }

  // A quote that the patterns do not see is a bare one.
  lemma BareOrSeen(t: string)
    ensures if "\"" <= t then QuoteLength(t, false) == 0 && QuoteLength(t, true) == 1
            else QuoteLength(t, false) == QuoteLength(t, true)
  {
  }

  lemma QuoteHidesColon(t: string, m: Mode)
    requires "\"" <= t
    ensures AfterColon(t, m).None?
  {
  }

  lemma ValueOfIff(s: string, word: string)
    requires word <= s
    ensures ValueOf(s, word, PATTERN) == if "\"" <= s[|word|..] then None else ValueOf(s, word, BARE)
  {
    var t := s[|word|..];
    BareOrSeen(t);
    hide QuoteLength, SkipGap;
    if "\"" <= t {
      QuoteHidesColon(t, PATTERN);
      assert t[0..] == t;
    }
  }

  /** At one position: the patterns read the value exactly when it is read with bare quotes
      allowed and no bare quote is passed. */
  lemma ReadsIff(s: string, word: string, value: string)
    requires value != "" && value[0] != '"'
    ensures Reads(s, word, value, PATTERN) <==> Reads(s, word, value, BARE) && !PassesBareQuote(s, word)
  {
    if word <= s {
      ValueOfIff(s, word);
      var v := ValueOf(s, word, BARE);
      if v.Some? {
        BareOrSeen(v.value);
        hide ValueOf, QuoteLength;
        assert v.value[0..] == v.value;
        assert value <= v.value ==> v.value[0] == value[0];
      }
    }
  }

  // The marker that is read here, bare quotes allowed, is read without passing one.
  predicate SeenHere(s: string) {
    || (Reads(s, "code", "10605", BARE) && !PassesBareQuote(s, "code"))
    || (Reads(s, "isQueued", "true", BARE) && !PassesBareQuote(s, "isQueued"))
    || "queueType" <= s
  }

  lemma SeenIff(s: string)
    ensures MarkerHere(s, PATTERN) <==> SeenHere(s)
  {
    hide Reads, PassesBareQuote;
    ReadsIff(s, "code", "10605");
    ReadsIff(s, "isQueued", "true");
  }

  lemma {:induction false} MarkedAt(s: string, m: Mode)
    ensures Marked(s, m) <==> exists i :: 0 <= i < |s| && MarkerHere(s[i..], m)
  {
    hide MarkerHere;
    if s != "" {
      MarkedAt(s[1..], m);
      assert s[0..] == s;
      assert forall i :: 1 <= i < |s| ==> s[i..] == s[1..][i - 1..];
      if i :| 0 <= i < |s[1..]| && MarkerHere(s[1..][i..], m) {
        assert s[i + 1..] == s[1..][i..];
      }
    }
  }

  /** Text that has not been escaped, exactly: of the messages that show a marker when a quote may
      stand without a backslash, the patterns miss those, and only those, that pass a bare quote
      at every marker they show. */
  lemma MissedIff(s: string)
    requires Marked(s, BARE)
    ensures !IsQueueError(s) <==> forall i :: 0 <= i < |s| && MarkerHere(s[i..], BARE) ==> !SeenHere(s[i..])
  {
    MarkedAt(s, PATTERN);
    hide MarkerHere, Marked, SeenHere;
    forall i | 0 <= i < |s| ensures MarkerHere(s[i..], PATTERN) <==> SeenHere(s[i..]) {
      SeenIff(s[i..]);
    }
    forall i | 0 <= i < |s| && SeenHere(s[i..]) ensures MarkerHere(s[i..], BARE) {
      SeenIsMarker(s[i..]);
    }
  }

  lemma SeenIsMarker(s: string)
    requires SeenHere(s)
    ensures MarkerHere(s, BARE)
  {
    hide Reads, PassesBareQuote;
  }

  // Every quote has a backslash before it.
  predicate QuotesEscaped(s: string) {
    forall i :: 0 <= i < |s| && s[i] == '"' ==> i > 0 && s[i - 1] == '\\'
  }

  // The rest of a text, behind a character that is no backslash, starts with no quote.
  lemma NoBareQuote(s: string, k: nat)
    requires QuotesEscaped(s) && 0 < k <= |s| && s[k - 1] != '\\'
    ensures !("\"" <= s[k..])
  {
    if k < |s| {
      assert s[k..][0] == s[k];
    }
  }

  // What is skipped ends in a gap.
  lemma {:induction false} SkippedGap(s: string) returns (k: nat)
    ensures k <= |s| && SkipGap(s, false) == s[k..] && (k > 0 ==> s[k - 1] != '\\')
  {
    k := 0;
    if s != "" && IsGap(s[0], false) {
      var j := SkippedGap(s[1..]);
      k := j + 1;
      assert s[1..][j..] == s[k..];
    }
  }

  // The value follows a colon or a gap.
  lemma {:induction false} ColonAt(t: string) returns (k: nat)
    requires AfterColon(t, BARE).Some?
    ensures 0 < k <= |t| && AfterColon(t, BARE).value == t[k..] && t[k - 1] != '\\'
  {
    var i := SkippedGap(t);
    var u := t[i..];
    var j := SkippedGap(u[1..]);
    k := i + 1 + j;
    assert u[1..][j..] == t[k..];
    if j > 0 {
      assert u[1..][j - 1] == t[k - 1];
    } else {
      assert u[0] == t[k - 1];
    }
    hide SkipGap;
  }

  lemma EscapedColon(s: string, w: nat)
    requires QuotesEscaped(s) && w <= |s| && AfterColon(s[w..], BARE).Some?
    ensures !("\"" <= AfterColon(s[w..], BARE).value)
  {
    var k := ColonAt(s[w..]);
    hide AfterColon, QuotesEscaped;
    assert s[w + k - 1] == s[w..][k - 1];
    NoBareQuote(s, w + k);
    assert s[w..][k..] == s[w + k..];
  }

  // The two places where the value may be read.
  lemma ValueOfCases(here: string, word: string)
    requires word <= here && ValueOf(here, word, BARE).Some?
    ensures var t := here[|word|..];
            var q := QuoteLength(t, true);
            || ValueOf(here, word, BARE) == AfterColon(t, BARE)
            || ValueOf(here, word, BARE) == AfterColon(t[q..], BARE)
  {
    hide AfterColon, QuoteLength;
  }

  lemma EscapedPassesNone(s: string, i: nat, word: string)
    requires QuotesEscaped(s) && i <= |s| && word != "" && word[|word| - 1] != '\\'
    ensures !PassesBareQuote(s[i..], word)
  {
    hide QuotesEscaped, AfterColon, ValueOf, QuoteLength;
    var here := s[i..];
    if word <= here {
      var w := i + |word|;
      assert s[w - 1] == here[|word| - 1] == word[|word| - 1];
      NoBareQuote(s, w);
      assert here[|word|..] == s[w..];
      if ValueOf(here, word, BARE).Some? {
        ValueOfCases(here, word);
        var q := QuoteLength(s[w..], true);
        assert s[w..][q..] == s[w + q..];
        if AfterColon(s[w..], BARE).Some? {
          EscapedColon(s, w);
        }
        if AfterColon(s[w + q..], BARE).Some? {
          EscapedColon(s, w + q);
        }
      }
    }
  }

  /** So where every quote has a backslash before it, nothing is missed. */
  lemma EscapedQuotesAreSeen(s: string)
    requires QuotesEscaped(s)
    ensures IsQueueError(s) <==> Marked(s, BARE)
  {
    MarkedAt(s, PATTERN);
    MarkedAt(s, BARE);
    hide Marked, PassesBareQuote, Reads, MarkerHere, QuotesEscaped;
    forall i | 0 <= i < |s| ensures MarkerHere(s[i..], PATTERN) <==> MarkerHere(s[i..], BARE) {
      EscapedPassesNone(s, i, "code");
      EscapedPassesNone(s, i, "isQueued");
      SeenIff(s[i..]);
      SeenWithoutBare(s[i..]);
    }
  }

  lemma SeenWithoutBare(s: string)
    requires !PassesBareQuote(s, "code") && !PassesBareQuote(s, "isQueued")
    ensures SeenHere(s) <==> MarkerHere(s, BARE)
  {
    hide Reads, PassesBareQuote;
  }

  /** An instance: in JSON that has not been escaped at all the queue code is not recognised,
      because the patterns want a backslash before every quote; escaped, it is. */
  lemma BareJsonNotRecognised(control: char -> string)
    ensures var s := "code" + "\"" + ":10605";
            Marked(s, LENIENT) && !IsQueueError(s) && IsQueueError(Escape(s, control))
  {
    var s := "code" + "\"" + ":10605";
    hide Marked, MarkerHere, Escape;
    CodeMarker("\"", LENIENT);
    MarkedForward(s, PATTERN, control);
    NoFirstLetter(s[1..], PATTERN);
    BareQuoteBlocks(s);
    MarkedHereOrLater(s, PATTERN);
  }

  lemma MarkedHereOrLater(s: string, m: Mode)
    requires s != ""
    ensures Marked(s, m) <==> MarkerHere(s, m) || Marked(s[1..], m)
  {
  }

  lemma BareQuoteBlocks(s: string)
    requires "code\"" <= s
    ensures !MarkerHere(s, PATTERN)
  {
    var t := s[4..];
    assert t[0] == '"' && t[0..] == t;
    assert Backslashes(t) == 0 && AfterColon(t, PATTERN).None?;
    assert s[0] == 'c' && "isQueued"[0] == 'i' && "queueType"[0] == 'q';
  }

  /** And the reason why exactness is stated for messages without control characters: writing a
      form feed as \u000c can spell a marker that the message does not have. */
  lemma ControlCanSpellMarker(control: char -> string)
    requires control('\U{0C}') == "\\u000c"
    ensures var s := ['\U{0C}'] + "ode:10605"; !Marked(s, LENIENT) && IsQueueError(Escape(s, control))
  {
    NoFirstLetter(['\U{0C}'] + "ode:10605", LENIENT);
    CodeMarker("", PATTERN);
    FormFeedEscapes(control);
    hide Marked, Escape, MarkerHere;
    MarkedSuffix("\\u000", "code" + "" + ":10605", PATTERN);
  }

  lemma FormFeedEscapes(control: char -> string)
    requires control('\U{0C}') == "\\u000c"
    ensures Escape(['\U{0C}'] + "ode:10605", control) == "\\u000" + ("code" + "" + ":10605")
  {
    hide PlainText, Escape;
    PlainTail();
    PlainEscapes("ode:10605", control);
    EscapeFirst('\U{0C}', "ode:10605", control);
    Spelling("\\u000");
  }

  lemma Spelling(start: string)
    ensures start + "c" + "ode:10605" == start + ("code" + "" + ":10605")
    ensures "\\u000c" == "\\u000" + "c"
  {
    assert "c" + "ode:10605" == "code" + "" + ":10605";
  }

  lemma PlainTail()
    ensures PlainText("ode:10605")
  {
  }

  lemma EscapeFirst(c: char, s: string, control: char -> string)
    ensures Escape([c] + s, control) == EscapeChar(c, control) + Escape(s, control)
  {
    assert ([c] + s)[1..] == s;
  }

  lemma {:induction false} PlainEscapes(s: string, control: char -> string)
    requires PlainText(s)
    ensures Escape(s, control) == s
  {
    if s != "" {
      PlainEscapes(s[1..], control);
    }
  }
}
