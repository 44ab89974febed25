// The delay of a queue signal at depth zero, in text that has not been escaped, against the delay
// of its escapings (internal/qoder/queue.go:33-58).

module QueueDepth {
  import opened Wrappers
  import opened QueueSignal

  const DELAY := "retryAfterSeconds"

  // ---------------------------------------------------------------- at one position

  // A text that ends in no gap but spaces is read alike whichever gaps are allowed.
  lemma {:induction false} SameGaps(s: string)
    requires NoControls(s)
    ensures SkipGap(s, false) == SkipGap(s, true) && NoControls(SkipGap(s, true))
  {
    if s != "" {
      SameGaps(s[1..]);
    }
  }

  lemma SameColons(t: string)
    requires NoControls(t)
    ensures AfterColon(t, BARE) == AfterColon(t, LENIENT)
  {
    SameGaps(t);
    var u := SkipGap(t, true);
    if ":" <= u {
      SameGaps(u[1..]);
    }
  }

  lemma SameValues(s: string, word: string)
    requires NoControls(s)
    ensures ValueOf(s, word, BARE) == ValueOf(s, word, LENIENT)
  {
    if word <= s {
      var t := s[|word|..];
      SameColons(t);
      SameColons(t[QuoteLength(t, true)..]);
    }
  }

  // Without control characters, the delay pattern captures what is read leniently, unless a bare
  // quote is passed; then it captures nothing.
  lemma DelayHereIff(s: string)
    requires NoControls(s)
    ensures DelayHere(s, PATTERN) == if PassesBareQuote(s, DELAY) then "" else DelayHere(s, LENIENT)
  {
    SameValues(s, DELAY);
    hide NoControls;
    if DELAY <= s {
      ValueOfIff(s, DELAY);
      var v := ValueOf(s, DELAY, BARE);
      if v.Some? {
        BareOrSeen(v.value);
        hide ValueOf, QuoteLength;
        assert v.value[0..] == v.value;
      }
    }
  }

  // ---------------------------------------------------------------- the leftmost delay

  /** Where the captured digits stand; the length of the text if there are none. */
  function DelayAt(s: string, m: Mode): (i: nat)
    ensures i <= |s|
  {
    if s == "" || DelayHere(s, m) != "" then 0 else 1 + DelayAt(s[1..], m)
  }

  lemma {:induction false} DelayAtIs(s: string, m: Mode)
    ensures var i := DelayAt(s, m);
            && (forall k :: 0 <= k < i ==> DelayHere(s[k..], m) == "")
            && (i < |s| ==> DelayHere(s[i..], m) != "")
            && Delay(s, m) == if i < |s| then DelayHere(s[i..], m) else ""
  {
    hide DelayHere;
    assert s[0..] == s;
    if s != "" && DelayHere(s, m) == "" {
      DelayAtIs(s[1..], m);
      assert forall k :: 1 <= k <= |s| ==> s[k..] == s[1..][k - 1..];
    }
  }

  // No quote without a backslash is passed where the lenient reading finds its delay.
  predicate DelayIsSeen(s: string) {
    var i := DelayAt(s, LENIENT);
    i < |s| ==> !PassesBareQuote(s[i..], DELAY)
  }

  /** In text without control characters the patterns read the delay where the lenient reading, and
      so every escaping, finds it, if and only if no bare quote is passed there. Otherwise they
      read one further on, or none. */
  lemma DelayAtIff(s: string)
    requires NoControls(s)
    ensures DelayAt(s, LENIENT) <= DelayAt(s, PATTERN)
    ensures DelayAt(s, LENIENT) == DelayAt(s, PATTERN) <==> DelayIsSeen(s)
    ensures DelayIsSeen(s) ==> Delay(s, LENIENT) == Delay(s, PATTERN)
  {
    DelayAtIs(s, LENIENT);
    DelayAtIs(s, PATTERN);
    hide DelayHere, PassesBareQuote, DelayAt;
    forall k | 0 <= k <= |s|
      ensures DelayHere(s[k..], PATTERN) == if PassesBareQuote(s[k..], DELAY) then "" else DelayHere(s[k..], LENIENT)
    {
      DelayHereIff(s[k..]);
    }
  }

  // ---------------------------------------------------------------- every depth

  lemma ReadsLeniently(s: string, word: string, value: string)
    requires NoControls(s) && Reads(s, word, value, BARE)
    ensures Reads(s, word, value, LENIENT)
  {
    SameValues(s, word);
    hide ValueOf, NoControls;
  }

  lemma {:induction false} SeenIsLenient(s: string)
    requires NoControls(s) && IsQueueError(s)
    ensures Marked(s, LENIENT)
  {
    hide Reads, PassesBareQuote;
    SeenIff(s);
    if SeenHere(s) {
      if Reads(s, "code", "10605", BARE) {
        ReadsLeniently(s, "code", "10605");
      }
      if Reads(s, "isQueued", "true", BARE) {
        ReadsLeniently(s, "isQueued", "true");
      }
    } else {
      SeenIsLenient(s[1..]);
    }
  }

  /** Whether or not it has been escaped, and however often: a recognised message without control
      characters, whose delay stands behind no bare quote, asks for the same wait. */
  lemma {:induction false} SameWaitAtEveryDepth(s: string, n: nat, control: char -> string)
    requires NoControls(s) && IsQueueError(s) && DelayIsSeen(s)
    ensures QueueWaitSeconds(EscapeTimes(s, n, control)) == QueueWaitSeconds(s)
  {
    SeenIsLenient(s);
    DelayAtIff(s);
    hide Marked, Delay, DelayOf, DelayIsSeen;
    if n > 0 {
      DepthDoesNotMatter(s, n, control);
    }
  }

  // ---------------------------------------------------------------- where it fails

  // Nowhere in the text does the word start.
  predicate NoStart(s: string) {
    forall i :: 0 <= i < |s| - 1 ==> !(s[i] == 'r' && s[i + 1] == 'e')
  }

  lemma {:induction false} NoStartNoDelay(s: string, m: Mode)
    requires NoStart(s)
    ensures Delay(s, m) == ""
  {
    if s != "" {
      assert DELAY[0] == 'r' && DELAY[1] == 'e';
      NoStartNoDelay(s[1..], m);
    }
  }

  lemma FiveSeconds()
    ensures DelayOf("5") == 5 * SECOND
  {
    assert "5"[..0] == "" && ToNat("") == 0;
    assert ToNat("5") == 5;
  }

  lemma RecognisedBehind(p: string)
    ensures IsQueueError(p + "queueType") && Marked(p + "queueType", LENIENT)
  {
    assert MarkerHere("queueType", PATTERN) && MarkerHere("queueType", LENIENT);
    MarkedSuffix(p, "queueType", PATTERN);
    MarkedSuffix(p, "queueType", LENIENT);
  }

  // A delay whose word is followed by a bare quote.
  function Quoted(value: string): string {
    DELAY + ("\"" + (":" + value))
  }

  lemma QuotedValue(value: string)
    requires value != "" && value[0] != ' '
    ensures ValueOf(Quoted(value), DELAY, LENIENT) == Some(value) && PassesBareQuote(Quoted(value), DELAY)
  {
    var s, tail := Quoted(value), "\"" + (":" + value);
    assert s[|DELAY|..] == tail && tail[1..] == ":" + value;
    BareOrSeen(tail);
    QuoteHidesColon(tail, LENIENT);
    ColonInFront(value, LENIENT);
    hide QuoteLength, AfterColon;
  }

  // The word without its first letter.
  const TAIL := "etryAfterSeconds"

  lemma TailText()
    ensures PlainText(TAIL) && NoStart(TAIL) && TAIL[|TAIL| - 1] == 's'
  {
  }

  lemma NoStartBehind(x: string)
    requires 'r' !in x
    ensures NoStart(TAIL + x)
  {
    TailText();
    var s := TAIL + x;
    forall i | 0 <= i < |s| - 1 ensures !(s[i] == 'r' && s[i + 1] == 'e') {
      if i >= |TAIL| {
        assert s[i] in x;
      }
    }
  }

  lemma QuotedText()
    ensures var s := Quoted("5 queueType"); s != "" && NoControls(s) && NoStart(s[1..])
  {
    var x := "\"" + (":" + "5 queueType");
    assert 'r' !in x && NoControls(x);
    NoStartBehind(x);
    TailText();
    assert Quoted("5 queueType")[1..] == TAIL + x;
    assert forall i :: 0 <= i < |TAIL| + |x| ==> (TAIL + x)[i] == if i < |TAIL| then TAIL[i] else x[i - |TAIL|];
    hide NoStart;
    InFront('r', TAIL + x);
    assert Quoted("5 queueType") == ['r'] + (TAIL + x);
  }

  lemma InFront(c: char, s: string)
    requires c >= ' ' && NoControls(s)
    ensures NoControls([c] + s)
  {
  }

  lemma QuotedIsRecognised()
    ensures IsQueueError(Quoted("5 queueType"))
  {
    hide Marked;
    var front := DELAY + ("\"" + (":" + "5 "));
    assert Quoted("5 queueType") == front + "queueType";
    hide *;
    RecognisedBehind(front);
  }

  lemma FiveIsRead(s: string)
    requires ValueOf(s, DELAY, LENIENT) == Some("5 queueType")
    ensures DelayHere(s, LENIENT) == "5"
  {
    DigitsEnd("5", " queueType");
    assert "5" + " queueType" == "5 queueType";
    DelayHereIs(s, "5 queueType", "5", LENIENT);
  }

  lemma DelayLater(s: string, m: Mode)
    requires s != "" && DelayHere(s, m) == ""
    ensures Delay(s, m) == Delay(s[1..], m)
  {
    hide DelayHere;
  }

  // A message whose only delay stands behind a bare quote.
  lemma WaitsApart(s: string, control: char -> string)
    requires s != "" && NoControls(s) && NoStart(s[1..]) && IsQueueError(s)
    requires PassesBareQuote(s, DELAY) && DelayHere(s, LENIENT) == "5"
    ensures QueueWaitSeconds(s) == DEFAULT_WAIT && QueueWaitSeconds(Escape(s, control)) == 5 * SECOND
  {
    hide NoControls, NoStart, PassesBareQuote, DelayHere, Marked, Escape, ToNat;
    DelayHereIff(s);
    DelayIsHere(s, LENIENT);
    DelayLater(s, PATTERN);
    NoStartNoDelay(s[1..], PATTERN);
    SeenIsLenient(s);
    FiveSeconds();
    hide Delay;
    DepthDoesNotMatter(s, 1, control);
    OneEscape(s, control);
  }

  /** An instance: a quote without a backslash stands before the colon. Unescaped, the delay of
      five seconds is not seen and the wait is the default one; escaped, it is five seconds. */
  lemma WaitCanDependOnDepth(control: char -> string)
    ensures var s := DELAY + ("\"" + (":" + "5 queueType"));
            QueueWaitSeconds(s) == DEFAULT_WAIT && QueueWaitSeconds(Escape(s, control)) == 5 * SECOND
  {
    QuotedText();
    QuotedValue("5 queueType");
    FiveIsRead(Quoted("5 queueType"));
    QuotedIsRecognised();
    WaitsApart(Quoted("5 queueType"), control);
    hide QueueWaitSeconds, Escape;
  }

  lemma OneEscape(s: string, control: char -> string)
    ensures EscapeTimes(s, 1, control) == Escape(s, control)
  {
    assert EscapeTimes(s, 0, control) == s;
  }

  /** With control characters the delay can even be spelled by escaping: a carriage return, written
      as a backslash and an r, completes the word. */
  lemma ControlCanSpellDelay(control: char -> string)
    requires control('\r') == "\\r"
    ensures var s := ['\r'] + (TAIL + ":5 queueType");
            && Delay(s, LENIENT) == "" && QueueWaitSeconds(s) == DEFAULT_WAIT
            && QueueWaitSeconds(Escape(s, control)) == 5 * SECOND
  {
    var rest := TAIL + ":5 queueType";
    SpelledText();
    EscapeFirst('\r', rest, control);
    hide PlainText, Escape, Marked, Delay, NoStart, ToNat;
    var s := ['\r'] + rest;
    NoStartNoDelay(s, LENIENT);
    NoStartNoDelay(s, PATTERN);
    PlainEscapes(rest, control);
    RecognitionClosedUnderEscaping(s, 1, control);
    OneEscape(s, control);
    Spelling();
    DelayInFront("5", " queueType");
    BehindBackslash(DELAY + (":" + ("5" + " queueType")));
    FiveSeconds();
  }

  lemma SpelledText()
    ensures var s := ['\r'] + (TAIL + ":5 queueType");
            && PlainText(TAIL + ":5 queueType") && NoStart(s) && IsQueueError(s) && Marked(s, LENIENT)
  {
    var x := ":5 queueType";
    assert 'r' !in x && PlainText(x);
    NoStartBehind(x);
    TailText();
    var s := ['\r'] + (TAIL + x);
    assert forall i :: 1 <= i < |s| ==> s[i] == (TAIL + x)[i - 1];
    hide Marked;
    var front := ['\r'] + (TAIL + ":5 ");
    assert s == front + "queueType";
    RecognisedBehind(front);
  }

  lemma Spelling()
    ensures "\\r" + (TAIL + ":5 queueType") == "\\" + (DELAY + (":" + ("5" + " queueType")))
  {
  }

  lemma BehindBackslash(x: string)
    ensures Delay("\\" + x, PATTERN) == Delay(x, PATTERN)
  {
    var e := "\\" + x;
    assert e[1..] == x;
    NoMarkerAtEscape(e, PATTERN);
    hide Delay, DelayHere;
    DelayLater(e, PATTERN);
  }
}
