// The patterns of the queue and quota signals as languages (internal/qoder/queue.go:31-34,
// internal/qoder/transport.go:430-436): what a text has to consist of to match, part by part.

module QueueShape {
  import opened Wrappers
  import opened QueueSignal

  // s[i..k] matches \\s*.
  predicate White(s: string, i: nat, k: nat)
    requires i <= k <= |s|
  {
    forall x :: i <= x < k ==> s[x] in [' ', '\t', '\n', '\r', '\U{0C}']
  }

  // s[i..k] is empty, or a quote with backslashes in front of it.
  predicate Quoted(s: string, i: nat, k: nat)
    requires i <= k <= |s|
  {
    i == k || (i + 2 <= k && s[k - 1] == '"' && forall x :: i <= x < k - 1 ==> s[x] == '\\')
  }

  // s starts with the word and a quote up to b, has a colon at c between gaps up to d, a quote up to
  // e, and there the value.
  predicate Parts(s: string, word: string, b: nat, c: nat, d: nat, e: nat, value: string) {
    && word <= s && |word| <= b <= c < d <= e <= |s|
    && Quoted(s, |word|, b) && White(s, b, c) && s[c] == ':' && White(s, c + 1, d) && Quoted(s, d, e)
    && value <= s[e..]
  }

  ghost predicate Spells(s: string, word: string, value: string) {
    exists b, c, d, e :: Parts(s, word, b, c, d, e, value)
  }

  // ---------------------------------------------------------------- skipping is splitting

  lemma Dropped(s: string, i: nat)
    requires i < |s|
    ensures s[i..] == [s[i]] + s[i + 1..] && s[i..][1..] == s[i + 1..] && s[i..][0] == s[i]
  {
  }

  lemma {:induction false} GapEnd(s: string, i: nat) returns (k: nat)
    requires i <= |s|
    ensures i <= k <= |s| && SkipGap(s[i..], false) == s[k..] && White(s, i, k)
    ensures k < |s| ==> !IsGap(s[k], false)
    decreases |s| - i
  {
    k := i;
    if i < |s| {
      Dropped(s, i);
      if IsGap(s[i], false) {
        k := GapEnd(s, i + 1);
      }
    }
  }

  lemma {:induction false} GapIs(s: string, i: nat, k: nat)
    requires i <= k <= |s| && White(s, i, k) && (k < |s| ==> !IsGap(s[k], false))
    ensures SkipGap(s[i..], false) == s[k..]
    decreases k - i
  {
    if i < |s| {
      Dropped(s, i);
      if i < k {
        GapIs(s, i + 1, k);
      }
    }
  }

  lemma {:induction false} BackslashRun(s: string, i: nat, k: nat)
    requires i <= k <= |s|
    ensures Backslashes(s[i..]) == k - i <==>
            (forall x :: i <= x < k ==> s[x] == '\\') && (k < |s| ==> s[k] != '\\')
    decreases |s| - i
  {
    if i < |s| {
      Dropped(s, i);
      if s[i] == '\\' && i < k {
        BackslashRun(s, i + 1, k);
      }
    }
  }

  lemma QuoteEnd(s: string, i: nat)
    requires i <= |s|
    ensures Quoted(s, i, i + QuoteLength(s[i..], false))
  {
    var k := Backslashes(s[i..]);
    BackslashRun(s, i, i + k);
  }

  lemma QuoteIs(s: string, i: nat, k: nat)
    requires i < k <= |s| && Quoted(s, i, k)
    ensures QuoteLength(s[i..], false) == k - i
  {
    BackslashRun(s, i, k - 1);
  }

  // ---------------------------------------------------------------- reading is matching

  lemma ColonEnd(s: string, i: nat) returns (c: nat, d: nat)
    requires i <= |s| && AfterColon(s[i..], PATTERN).Some?
    ensures i <= c < d <= |s| && White(s, i, c) && s[c] == ':' && White(s, c + 1, d)
    ensures AfterColon(s[i..], PATTERN) == Some(s[d..])
  {
    c := GapEnd(s, i);
    Dropped(s, c);
    d := GapEnd(s, c + 1);
    hide SkipGap, White;
  }

  lemma ColonIs(s: string, i: nat, c: nat, d: nat)
    requires i <= c < d <= |s| && White(s, i, c) && s[c] == ':' && White(s, c + 1, d)
    requires d < |s| ==> !IsGap(s[d], false)
    ensures AfterColon(s[i..], PATTERN) == Some(s[d..])
  {
    GapIs(s, i, c);
    GapIs(s, c + 1, d);
    Dropped(s, c);
    hide SkipGap, White;
  }

  lemma ValueEnd(s: string, word: string) returns (b: nat, c: nat, d: nat)
    requires ValueOf(s, word, PATTERN).Some?
    ensures word <= s && |word| <= b <= c < d <= |s|
    ensures Quoted(s, |word|, b) && White(s, b, c) && s[c] == ':' && White(s, c + 1, d)
    ensures ValueOf(s, word, PATTERN) == Some(s[d..])
  {
    var w := |word|;
    b := if AfterColon(s[w..], PATTERN).Some? then w else w + QuoteLength(s[w..], false);
    QuoteEnd(s, w);
    DropTwice(s, w, QuoteLength(s[w..], false));
    c, d := ColonEnd(s, b);
    hide AfterColon, QuoteLength, White, Quoted;
  }

  lemma ValueIs(s: string, word: string, b: nat, c: nat, d: nat)
    requires word <= s && |word| <= b <= c < d <= |s|
    requires Quoted(s, |word|, b) && White(s, b, c) && s[c] == ':' && White(s, c + 1, d)
    requires d < |s| ==> !IsGap(s[d], false)
    ensures ValueOf(s, word, PATTERN) == Some(s[d..])
  {
    var w := |word|;
    ColonIs(s, b, c, d);
    if w < b {
      QuoteIs(s, w, b);
      DropTwice(s, w, b - w);
      assert s[w] == '\\';
      NoColonAtBackslash(s[w..]);
    }
    hide AfterColon, QuoteLength, White, Quoted;
  }

  lemma NoColonAtBackslash(t: string)
    requires t != "" && t[0] == '\\'
    ensures AfterColon(t, PATTERN).None?
  {
  }

  // A value that cannot be mistaken for what stands before it.
  predicate PlainValue(value: string) {
    value != "" && value[0] != '\\' && value[0] != '"' && !IsGap(value[0], false)
  }

  /** The value is read where, and only where, the text spells it out: word, quote, gap, colon,
      gap, quote, value. */
  lemma ReadsIsSpells(s: string, word: string, value: string)
    requires PlainValue(value)
    ensures Reads(s, word, value, PATTERN) <==> Spells(s, word, value)
  {
    if Reads(s, word, value, PATTERN) {
      ReadsSpells(s, word, value);
    }
    if b: nat, c: nat, d: nat, e: nat :| Parts(s, word, b, c, d, e, value) {
      ValueBegins(s, word, b, c, d, e, value);
      QuoteOrNot(s, d, e);
    }
  }

  lemma ReadsSpells(s: string, word: string, value: string)
    requires Reads(s, word, value, PATTERN)
    ensures Spells(s, word, value)
  {
    var b, c, d := ValueEnd(s, word);
    QuoteEnd(s, d);
    var n := QuoteLength(s[d..], false);
    DropTwice(s, d, n);
    var e := if value <= s[d..] then d else d + n;
    hide ValueOf, QuoteLength, White;
    assert Parts(s, word, b, c, d, e, value);
  }

  lemma ValueBegins(s: string, word: string, b: nat, c: nat, d: nat, e: nat, value: string)
    requires Parts(s, word, b, c, d, e, value) && PlainValue(value)
    ensures ValueOf(s, word, PATTERN) == Some(s[d..])
  {
    assert s[e] == value[0] by {
      assert s[e..][0] == s[e];
    }
    assert s[d] == if d == e then value[0] else '\\';
    ValueIs(s, word, b, c, d);
  }

  lemma QuoteOrNot(s: string, d: nat, e: nat)
    requires d <= e <= |s| && Quoted(s, d, e)
    ensures d < e ==> s[d..][QuoteLength(s[d..], false)..] == s[e..]
  {
    if d < e {
      QuoteIs(s, d, e);
      DropTwice(s, d, e - d);
    }
    hide QuoteLength;
  }

  /** A message is a queue signal if and only if somewhere it spells code 10605, or isQueued true,
      or holds queueType. */
  lemma QueueErrorIff(message: string)
    ensures IsQueueError(message) <==>
            exists i :: 0 <= i < |message| && (Spells(message[i..], "code", "10605") ||
                Spells(message[i..], "isQueued", "true") || "queueType" <= message[i..])
  {
    MarkedAt(message, PATTERN);
    forall i | 0 <= i < |message|
      ensures MarkerHere(message[i..], PATTERN) <==>
              Spells(message[i..], "code", "10605") || Spells(message[i..], "isQueued", "true") ||
                  "queueType" <= message[i..]
    {
      ReadsIsSpells(message[i..], "code", "10605");
      ReadsIsSpells(message[i..], "isQueued", "true");
      hide Reads, Spells;
    }
    hide Marked, MarkerHere, Spells;
  }

  // ---------------------------------------------------------------- the delay

  predicate AllDigits(d: string) {
    d != "" && forall i :: 0 <= i < |d| ==> IsDigit(d[i])
  }

  // Here the text spells a delay of exactly these digits.
  ghost predicate DelayOfDigits(s: string, digits: string) {
    exists b, c, d, e :: DelayParts(s, b, c, d, e, digits)
  }

  predicate DelayParts(s: string, b: nat, c: nat, d: nat, e: nat, digits: string) {
    && AllDigits(digits) && Parts(s, "retryAfterSeconds", b, c, d, e, digits)
    && (e + |digits| < |s| ==> !IsDigit(s[e + |digits|]))
  }

  lemma {:induction false} DigitsSplit(v: string)
    ensures Digits(v) == "" || AllDigits(Digits(v))
    ensures Digits(v) <= v && (|v| > |Digits(v)| ==> !IsDigit(v[|Digits(v)|]))
  {
    if v != "" && IsDigit(v[0]) {
      DigitsSplit(v[1..]);
      assert v == [v[0]] + v[1..];
    }
  }

  lemma DelayHereSpells(s: string)
    requires DelayHere(s, PATTERN) != ""
    ensures DelayOfDigits(s, DelayHere(s, PATTERN))
  {
    var b, c, d := ValueEnd(s, "retryAfterSeconds");
    QuoteEnd(s, d);
    var n := QuoteLength(s[d..], false);
    DropTwice(s, d, n);
    var e := if Digits(s[d..]) != "" then d else d + n;
    DigitsSplit(s[e..]);
    var digits := DelayHere(s, PATTERN);
    assert digits == Digits(s[e..]);
    hide ValueOf, QuoteLength, Digits, DelayHere, AllDigits, White;
    assert e + |digits| < |s| ==> s[e..][|digits|] == s[e + |digits|];
    assert DelayParts(s, b, c, d, e, digits);
  }

  lemma SpelledDelayIsHere(s: string, digits: string)
    requires DelayOfDigits(s, digits)
    ensures DelayHere(s, PATTERN) == digits != ""
  {
    var b: nat, c: nat, d: nat, e: nat :| DelayParts(s, b, c, d, e, digits);
    assert IsDigit(digits[0]);
    ValueBegins(s, "retryAfterSeconds", b, c, d, e, digits);
    QuoteOrNot(s, d, e);
    var more := s[e..][|digits|..];
    assert s[e..] == digits + more;
    assert more != "" ==> more[0] == s[e + |digits|];
    DigitsEnd(digits, more);
    if d < e {
      assert s[d..][0] == '\\';
      assert Digits(s[d..]) == "";
    }
    hide ValueOf, QuoteLength, White;
  }

  lemma DelayHereIff(s: string, digits: string)
    requires digits != ""
    ensures DelayHere(s, PATTERN) == digits <==> DelayOfDigits(s, digits)
  {
    if DelayHere(s, PATTERN) == digits {
      DelayHereSpells(s);
    }
    if DelayOfDigits(s, digits) {
      SpelledDelayIsHere(s, digits);
    }
  }

  lemma NoDelayIff(s: string)
    ensures DelayHere(s, PATTERN) == "" <==> forall x :: !DelayOfDigits(s, x)
  {
    if DelayHere(s, PATTERN) == "" {
      forall x ensures !DelayOfDigits(s, x) {
        if DelayOfDigits(s, x) {
          SpelledDelayIsHere(s, x);
          assert false;
        }
      }
    } else {
      DelayHereSpells(s);
    }
  }

  /** The delay is the leftmost one that the message spells, with all its digits. */
  lemma DelayIsLeftmost(message: string, digits: string)
    requires digits != ""
    ensures Delay(message, PATTERN) == digits <==>
            exists i :: 0 <= i < |message| && DelayOfDigits(message[i..], digits) &&
                        forall j, x :: 0 <= j < i ==> !DelayOfDigits(message[j..], x)
  {
    LeftmostDelay(message, digits);
    forall i | 0 <= i < |message|
      ensures DelayHere(message[i..], PATTERN) == digits <==> DelayOfDigits(message[i..], digits)
      ensures DelayHere(message[i..], PATTERN) == "" <==> forall x :: !DelayOfDigits(message[i..], x)
    {
      DelayHereIff(message[i..], digits);
      NoDelayIff(message[i..]);
    }
    hide DelayHere, DelayOfDigits, Delay;
  }

  lemma {:induction false} LeftmostDelay(s: string, d: string)
    requires d != ""
    ensures Delay(s, PATTERN) == d <==>
            exists i :: 0 <= i < |s| && DelayHere(s[i..], PATTERN) == d &&
                        forall j :: 0 <= j < i ==> DelayHere(s[j..], PATTERN) == ""
  {
    hide DelayHere;
    if s != "" {
      assert s[0..] == s;
      LeftmostDelay(s[1..], d);
      assert forall i :: 1 <= i < |s| ==> s[i..] == s[1..][i - 1..];
      if i :| 0 <= i < |s[1..]| && DelayHere(s[1..][i..], PATTERN) == d &&
              forall j :: 0 <= j < i ==> DelayHere(s[1..][j..], PATTERN) == "" {
        assert s[i + 1..] == s[1..][i..];
        assert forall j :: 1 <= j < i + 1 ==> s[j..] == s[1..][j - 1..];
      }
      if i :| 1 <= i < |s| && DelayHere(s[i..], PATTERN) == d &&
              forall j :: 0 <= j < i ==> DelayHere(s[j..], PATTERN) == "" {
        assert DelayHere(s[1..][i - 1..], PATTERN) == d;
        assert forall j :: 0 <= j < i - 1 ==> s[1..][j..] == s[j + 1..];
      }
    }
  }

  /** Without a delay that can be read, a recognised message is waited for half a minute. */
  lemma DefaultWait(message: string)
    requires IsQueueError(message)
    requires Delay(message, PATTERN) == "" || ToNat(Delay(message, PATTERN)) == 0 ||
             ToNat(Delay(message, PATTERN)) >= 0x8000_0000_0000_0000
    ensures QueueWaitSeconds(message) == 30_000_000_000
  {
    hide IsQueueError, Delay, ToNat, Wrap;
  }

  // ---------------------------------------------------------------- the quota signal

  // The quoted code, a colon at c between gaps up to d, and there 112, perhaps behind a quote.
  predicate CodeParts(s: string, c: nat, d: nat) {
    && "\"code\"" <= s && 6 <= c < d <= |s| && White(s, 6, c) && s[c] == ':' && White(s, c + 1, d)
    && ("112" <= s[d..] || "\"112" <= s[d..])
  }

  ghost predicate SpellsQuota(s: string) {
    "\"pricingUrl\"" <= s || exists c, d :: CodeParts(s, c, d)
  }

  lemma QuotaHereIff(s: string)
    ensures QuotaHere(s) <==> SpellsQuota(s)
  {
    if "\"code\"" <= s && AfterColon(s[6..], PATTERN).Some? {
      var c, d := ColonEnd(s, 6);
      hide AfterColon, White;
      assert QuotaHere(s) ==> "\"pricingUrl\"" <= s || CodeParts(s, c, d);
    }
    if c: nat, d: nat :| CodeParts(s, c, d) {
      assert s[d..][0] == s[d];
      ColonIs(s, 6, c, d);
      hide White;
    }
    hide SkipGap;
  }

  /** A message is a model quota if and only if somewhere it holds the quoted pricingUrl, or the
      quoted code, a colon between gaps and 112, with or without a quote before it. */
  lemma {:induction false} QuotaErrorIff(message: string)
    ensures IsQuotaError(message) <==> exists i :: 0 <= i < |message| && SpellsQuota(message[i..])
  {
    if message != "" {
      QuotaErrorIff(message[1..]);
      QuotaHereIff(message);
      hide QuotaHere, SpellsQuota;
      assert message[0..] == message;
      assert forall i :: 1 <= i < |message| ==> message[i..] == message[1..][i - 1..];
      if i :| 0 <= i < |message[1..]| && SpellsQuota(message[1..][i..]) {
        assert message[i + 1..] == message[1..][i..];
      }
    }
  }

  // ---------------------------------------------------------------- behind the status

  // None of the characters that a marker begins with, and no delay.
  predicate Harmless(p: string) {
    forall i :: 0 <= i < |p| ==> HarmlessAt(p, i)
  }

  predicate HarmlessAt(p: string, i: nat)
    requires i < |p|
  {
    p[i] !in "ciq" && (p[i] == 'r' ==> i + 2 < |p| && (p[i + 1] != 'e' || p[i + 2] != 't'))
  }

  lemma {:induction false} HarmlessIsTransparent(p: string, m: string)
    requires Harmless(p)
    ensures IsQueueError(p + m) == IsQueueError(m) && Delay(p + m, PATTERN) == Delay(m, PATTERN)
  {
    if p == "" {
      assert p + m == m;
    } else {
      var s := p + m;
      assert s[1..] == p[1..] + m && s[0] == p[0] && (|p| > 2 ==> s[1] == p[1] && s[2] == p[2]);
      assert HarmlessAt(p, 0);
      forall i | 0 <= i < |p| - 1 ensures HarmlessAt(p[1..], i) {
        assert HarmlessAt(p, i + 1);
      }
      HarmlessIsTransparent(p[1..], m);
      NoMarkerHere(s);
      NoDelayHere(s);
    }
  }

  lemma NoMarkerHere(s: string)
    requires s != "" && s[0] !in "ciq"
    ensures !MarkerHere(s, PATTERN)
  {
    assert "code"[0] == 'c' && "isQueued"[0] == 'i' && "queueType"[0] == 'q';
  }

  lemma NoDelayHere(s: string)
    requires s != "" && (s[0] != 'r' || (|s| > 2 && (s[1] != 'e' || s[2] != 't')))
    ensures DelayHere(s, PATTERN) == ""
  {
    var word := "retryAfterSeconds";
    assert word[0] == 'r' && word[1] == 'e' && word[2] == 't';
  }

  /** The status line in front of an upstream message hides nothing and adds nothing: the wait is
      that of the message alone, whatever the status. */
  lemma StatusHidesNothing(digits: string, message: string)
    requires forall i :: 0 <= i < |digits| ==> IsDigit(digits[i]) || digits[i] == '-'
    ensures QueueWaitSeconds("Qoder upstream HTTP " + digits + ": " + message) == QueueWaitSeconds(message)
  {
    var p := "Qoder upstream HTTP " + digits + ": ";
    assert Harmless(p) by {
      forall i | 0 <= i < |p| ensures HarmlessAt(p, i) {
        var line := "Qoder upstream HTTP ";
        if i < |line| {
          assert p[i] == line[i];
          assert i + 2 < |line| ==> p[i + 1] == line[i + 1] && p[i + 2] == line[i + 2];
        } else if i < |line| + |digits| {
          assert p[i] == digits[i - |line|];
        } else {
          assert p[i] == ": "[i - |line| - |digits|];
        }
      }
    }
    HarmlessIsTransparent(p, message);
    hide IsQueueError, Delay;
  }
}
