// What the router computes, said without its state: a left-to-right split of the whole input
// into literal text and thinking tags, with the tags erased and the text sent to a channel
// (internal/stream/thinking.go:5-9, 34-85).

module ThinkingTokens {
  import opened Wrappers
  import opened Thinking

  datatype Token = Text(bytes: seq<Byte>) | Tag(bytes: seq<Byte>)

  // ---------------------------------------------------------------- the tags

  lemma PrefixStart(s: string)
    requires IsTagPrefix(s) && s != ""
    ensures s[0] == '<' && |s| <= 12
  {
  }

  lemma PrefixClosed(s: string, n: nat)
    requires IsTagPrefix(s) && n <= |s|
    ensures IsTagPrefix(s[..n])
  {
  }

  // Only the last character of a tag is '>', so no tag continues another.
  lemma TagIsMaximal(s: string, n: nat)
    requires IsTagPrefix(s) && n <= |s| && IsTag(s[..n])
    ensures n == |s|
  {
    assert s[n - 1] == s[..n][n - 1] == '>';
  }

  // Length of the longest prefix of cs, from k on, that is a prefix of some tag.
  function Longest(cs: string, k: nat): (n: nat)
    requires k <= |cs|
    ensures k <= n <= |cs|
    decreases |cs| - k
  {
    if k < |cs| && IsTagPrefix(cs[..k + 1]) then Longest(cs, k + 1) else k
  }

  lemma {:induction false} LongestFrom(cs: string, k: nat)
    requires k <= |cs| && IsTagPrefix(cs[..k])
    ensures IsTagPrefix(cs[..Longest(cs, k)])
    ensures Longest(cs, k) < |cs| ==> !IsTagPrefix(cs[..Longest(cs, k) + 1])
    decreases |cs| - k
  {
    hide IsTagPrefix;
    if k < |cs| && IsTagPrefix(cs[..k + 1]) {
      LongestFrom(cs, k + 1);
    }
  }

  // It is a tag prefix, and one more character is not.
  lemma LongestExact(cs: string)
    ensures IsTagPrefix(cs[..Longest(cs, 0)])
    ensures Longest(cs, 0) < |cs| ==> !IsTagPrefix(cs[..Longest(cs, 0) + 1])
  {
    NothingIsPrefix();
    hide IsTagPrefix, Longest;
    assert cs[..0] == "";
    LongestFrom(cs, 0);
  }

  lemma NothingIsPrefix()
    ensures IsTagPrefix("")
  {
  }

  function AnyReasoning(bs: seq<Byte>): bool {
    exists i :: 0 <= i < |bs| && bs[i].reasoning
  }

  // The text tokens, each on its channel: reasoning if any of its bytes came from there or the
  // last tag before it opened; the tags are gone.
  function Output(toks: seq<Token>, inThinking: bool): seq<Byte> {
    if toks == [] then []
    else match toks[0]
      case Text(bytes) => Tagged(Chars(bytes), AnyReasoning(bytes) || inThinking) + Output(toks[1..], inThinking)
      case Tag(bytes) => Output(toks[1..], Opens(Chars(bytes)))
  }

  // The polarity of the last tag, if there is one.
  function ThinkingAfter(toks: seq<Token>, inThinking: bool): bool {
    if toks == [] then inThinking
    else ThinkingAfter(toks[1..], if toks[0].Tag? then Opens(Chars(toks[0].bytes)) else inThinking)
  }

  // ---------------------------------------------------------------- the router is the split

  lemma RunLast(st: RouterVal, bs: seq<Byte>, k: nat)
    requires 0 < k <= |bs|
    ensures var (s1, o1) := Run(st, bs[..k - 1]);
            var (s2, o2) := StepByte(s1, bs[k - 1]);
            Run(st, bs[..k]) == (s2, o1 + o2)
    ensures k == 1 ==> Run(st, bs[..1]) == StepByte(st, bs[0]) && AnyReasoning(bs[..1]) == bs[0].reasoning
    ensures Chars(bs[..k]) == Chars(bs[..k - 1]) + [bs[k - 1].c]
    ensures AnyReasoning(bs[..k]) == (AnyReasoning(bs[..k - 1]) || bs[k - 1].reasoning)
  {
    assert bs[..k][..k - 1] == bs[..k - 1] && bs[..k][k - 1] == bs[k - 1];
    assert bs[..k] == bs[..k - 1] + [bs[k - 1]];
    if k == 1 {
      assert bs[..0] == [] && Run(st, bs[..0]) == (st, []);
      assert [] + StepByte(st, bs[0]).1 == StepByte(st, bs[0]).1;
    }
  }

  // A candidate that is neither complete nor broken.
  predicate Undecided(s: string) {
    s != "" && IsTagPrefix(s) && !IsTag(s)
  }

  lemma UndecidedBefore(cs: string, k: nat)
    requires 1 < k <= |cs| && IsTagPrefix(cs[..k])
    ensures IsTagPrefix(cs[..k - 1]) && !IsTag(cs[..k - 1])
  {
    assert cs[..k][..k - 1] == cs[..k - 1];
    PrefixClosed(cs[..k], k - 1);
    if IsTag(cs[..k - 1]) {
      TagIsMaximal(cs[..k], k - 1);
    }
  }

  lemma UndecidedShorter(cs: string, k: nat)
    requires 1 < k <= |cs| && IsTagPrefix(cs[..k])
    ensures Undecided(cs[..k - 1])
  {
    UndecidedBefore(cs, k);
  }

  // Reading a prefix that is still undecided leaves it pending.
  lemma {:induction false} RunUndecided(st: RouterVal, bs: seq<Byte>, k: nat)
    requires st.pending == "" && 0 < k <= |bs| && Undecided(Chars(bs[..k]))
    ensures Run(st, bs[..k]) == (RouterVal(st.inThinking, Chars(bs[..k]), AnyReasoning(bs[..k])), [])
  {
    RunLast(st, bs, k);
    if k == 1 {
      PrefixStart(Chars(bs[..1]));
      assert bs[..1][0] == bs[0] && Chars(bs[..1])[0] == bs[0].c && Chars(bs[..1]) == "<";
    } else {
      assert Chars(bs)[..k] == Chars(bs[..k]) && Chars(bs)[..k - 1] == Chars(bs[..k - 1]);
      UndecidedShorter(Chars(bs), k);
      RunUndecided(st, bs, k - 1);
      hide IsTag, IsTagPrefix, Opens;
    }
  }

  // The byte that decides: it completes a tag or breaks the candidate.
  lemma RunDecided(st: RouterVal, bs: seq<Byte>, k: nat)
    requires st.pending == "" && 1 < k <= |bs|
    requires Undecided(Chars(bs[..k - 1])) && !Undecided(Chars(bs[..k]))
    ensures var cs := Chars(bs[..k]);
            Run(st, bs[..k]) ==
            if IsTag(cs) then (RouterVal(Opens(cs), "", false), [])
            else (RouterVal(st.inThinking, "", false), Tagged(cs, AnyReasoning(bs[..k]) || st.inThinking))
  {
    hide IsTag, IsTagPrefix, Opens;
    RunLast(st, bs, k);
    RunUndecided(st, bs, k - 1);
    var cs := Chars(bs[..k]);
    assert [] + Tagged(cs, AnyReasoning(bs[..k]) || st.inThinking) ==
        Tagged(cs, AnyReasoning(bs[..k]) || st.inThinking);
  }

  // The token at the front of the input; None when the input is empty or still undecided.
  function First(bs: seq<Byte>): (t: Option<Token>)
    ensures t.Some? ==> t.value.bytes != [] && t.value.bytes <= bs
  {
    if bs == [] then None
    else
      var cs := Chars(bs);
      var n := Longest(cs, 0);
      if n == 0 then Some(Text(bs[..1]))
      else if IsTag(cs[..n]) then Some(Tag(bs[..n]))
      else if n == |bs| then None
      else Some(Text(bs[..n + 1]))
  }

  /** The split: a byte other than '<' is text by itself; after '<' the longest tag prefix is
      taken, and is a tag, or the undecided rest of the input, or, with the byte that broke it,
      text. */
  function Tokenize(bs: seq<Byte>): (r: (seq<Token>, seq<Byte>))
    decreases |bs|
  {
    match First(bs)
    case None => ([], bs)
    case Some(t) =>
      var (toks, rest) := Tokenize(bs[|t.bytes|..]);
      ([t] + toks, rest)
  }

  predicate FirstRuns(st: RouterVal, bs: seq<Byte>) {
    match First(bs)
    case None => Run(st, bs) == (RouterVal(st.inThinking, Chars(bs), AnyReasoning(bs)), [])
    case Some(t) =>
      Run(st, t.bytes) == (RouterVal(ThinkingAfter([t], st.inThinking), "", false), Output([t], st.inThinking))
  }

  lemma RunFirst(st: RouterVal, bs: seq<Byte>)
    requires st.pending == "" && !st.pendingReasoning
    ensures FirstRuns(st, bs)
  {
    if bs != [] {
      var n := Longest(Chars(bs), 0);
      if n == 0 {
        RunFirstPlain(st, bs);
      } else if Undecided(Chars(bs)[..n]) {
        RunFirstBroken(st, bs);
      } else {
        RunFirstTag(st, bs);
      }
    }
  }

  lemma RunFirstPlain(st: RouterVal, bs: seq<Byte>)
    requires st.pending == "" && !st.pendingReasoning && bs != [] && Longest(Chars(bs), 0) == 0
    ensures FirstRuns(st, bs)
  {
    AngleIsCandidate(Chars(bs));
    hide IsTag, IsTagPrefix, Opens;
    RunLast(st, bs, 1);
    OutputOne(Text(bs[..1]), st.inThinking);
    assert Run(st, bs[..1]) == (st, [Byte(bs[0].c, bs[0].reasoning || st.inThinking)]);
    assert Tagged(Chars(bs[..1]), AnyReasoning(bs[..1]) || st.inThinking) ==
        [Byte(bs[0].c, bs[0].reasoning || st.inThinking)];
  }

  lemma RunFirstBroken(st: RouterVal, bs: seq<Byte>)
    requires st.pending == "" && !st.pendingReasoning && bs != []
    requires Undecided(Chars(bs)[..Longest(Chars(bs), 0)])
    ensures FirstRuns(st, bs)
  {
    hide IsTag, IsTagPrefix, Opens, Longest, Run, AnyReasoning, Output, ThinkingAfter;
    var cs := Chars(bs);
    LongestExact(cs);
    var n := Longest(cs, 0);
    assert cs[..n] == Chars(bs[..n]);
    if n == |bs| {
      RunUndecided(st, bs, n);
      assert bs[..n] == bs;
    } else {
      assert cs[..n + 1] == Chars(bs[..n + 1]);
      RunDecided(st, bs, n + 1);
      TagIsPrefix(cs[..n + 1]);
      OutputOne(Text(bs[..n + 1]), st.inThinking);
    }
  }

  lemma OutputOne(t: Token, inThinking: bool)
    ensures Output([t], inThinking) ==
            if t.Text? then Tagged(Chars(t.bytes), AnyReasoning(t.bytes) || inThinking) else []
    ensures ThinkingAfter([t], inThinking) == if t.Tag? then Opens(Chars(t.bytes)) else inThinking
  {
    hide IsTag, Opens;
    assert [t][1..] == [];
  }

  lemma RunFirstTag(st: RouterVal, bs: seq<Byte>)
    requires st.pending == "" && !st.pendingReasoning && bs != []
    requires Longest(Chars(bs), 0) > 0 && !Undecided(Chars(bs)[..Longest(Chars(bs), 0)])
    ensures FirstRuns(st, bs)
  {
    var cs := Chars(bs);
    var n := Longest(cs, 0);
    LongestExact(cs);
    assert cs[..n] != "";
    TagLength(cs[..n]);
    UndecidedShorter(cs, n);
    hide IsTag, IsTagPrefix, Opens;
    assert cs[..n] == Chars(bs[..n]) && cs[..n - 1] == Chars(bs[..n - 1]);
    RunDecided(st, bs, n);
    OutputOne(Tag(bs[..n]), st.inThinking);
  }

  lemma AngleIsCandidate(cs: string)
    requires cs != "" && Longest(cs, 0) == 0
    ensures cs[0] != '<'
  {
    assert cs[..1] == [cs[0]] && !("<" <= cs[..1]);
  }

  lemma TagIsPrefix(s: string)
    ensures IsTag(s) ==> IsTagPrefix(s)
  {
  }

  lemma TagLength(s: string)
    requires IsTag(s)
    ensures 7 <= |s| <= 12 && IsTagPrefix(s)
  {
  }

  lemma NoOutput(inThinking: bool)
    ensures Output([], inThinking) == [] && ThinkingAfter([], inThinking) == inThinking
  {
  }

  /** The incremental router is the split, for every input and from every state between tags. */
  lemma {:induction false} RouterIsSplit(st: RouterVal, bs: seq<Byte>)
    requires st.pending == "" && !st.pendingReasoning
    ensures var (toks, rest) := Tokenize(bs);
            Run(st, bs) == (RouterVal(ThinkingAfter(toks, st.inThinking), Chars(rest), AnyReasoning(rest)),
                            Output(toks, st.inThinking))
    decreases |bs|
  {
    hide First, Run, Output, ThinkingAfter, AnyReasoning, Chars;
    RunFirst(st, bs);
    NoOutput(st.inThinking);
    if First(bs).Some? {
      var t := First(bs).value;
      var more := bs[|t.bytes|..];
      RouterIsSplit(Run(st, t.bytes).0, more);
      assert bs == t.bytes + more;
      RunConcat(st, t.bytes, more);
      OutputConcat([t], Tokenize(more).0, st.inThinking);
    }
  }

  lemma {:induction false} OutputConcat(a: seq<Token>, b: seq<Token>, inThinking: bool)
    ensures Output(a + b, inThinking) == Output(a, inThinking) + Output(b, ThinkingAfter(a, inThinking))
    ensures ThinkingAfter(a + b, inThinking) == ThinkingAfter(b, ThinkingAfter(a, inThinking))
  {
    hide IsTag, Opens, Tagged, Chars, AnyReasoning;
    if a == [] {
      assert a + b == b;
    } else {
      assert (a + b)[1..] == a[1..] + b;
      var next := if a[0].Tag? then Opens(Chars(a[0].bytes)) else inThinking;
      OutputConcat(a[1..], b, next);
      var own := if a[0].Tag? then [] else Tagged(Chars(a[0].bytes), AnyReasoning(a[0].bytes) || inThinking);
      Regrouped(own, Output(a[1..], next), Output(b, ThinkingAfter(a, inThinking)));
    }
  }

  // ---------------------------------------------------------------- conservation

  function Join(toks: seq<Token>): seq<Byte> {
    if toks == [] then [] else toks[0].bytes + Join(toks[1..])
  }

  // The text tokens alone.
  function Erased(toks: seq<Token>): string {
    if toks == [] then ""
    else (if toks[0].Text? then Chars(toks[0].bytes) else "") + Erased(toks[1..])
  }

  // A split the tag rules allow: text is one byte other than '<', or a candidate with the byte
  // that broke it; a tag is a tag; what is left over is a candidate still open.
  predicate ValidToken(t: Token) {
    var cs := Chars(t.bytes);
    match t
    case Tag(_) => IsTag(cs)
    case Text(_) =>
      cs != "" &&
      if cs[0] != '<' then |cs| == 1 else |cs| > 1 && Undecided(cs[..|cs| - 1]) && !IsTagPrefix(cs)
  }

  predicate ValidSplit(toks: seq<Token>, rest: seq<Byte>) {
    (forall i :: 0 <= i < |toks| ==> ValidToken(toks[i])) && (rest == [] || Undecided(Chars(rest)))
  }

  /** Nothing is lost or invented: the tokens and the undecided rest are the input, the rest is
      empty or a tag prefix of at most 11 bytes, and every token is what its kind says. */
  lemma {:induction false} SplitConserves(bs: seq<Byte>)
    ensures var (toks, rest) := Tokenize(bs);
            Join(toks) + rest == bs && ValidSplit(toks, rest) && |rest| <= 11
    decreases |bs|
  {
    hide IsTag, IsTagPrefix, Opens, ValidToken, First;
    match First(bs)
    case None =>
      assert Join([]) + bs == bs;
      RestIsOpen(bs);
    case Some(t) =>
      var more := bs[|t.bytes|..];
      SplitConserves(more);
      FirstIsValid(bs);
      assert bs == t.bytes + more;
      var (toks, rest) := Tokenize(more);
      assert ([t] + toks)[1..] == toks;
      assert t.bytes + Join(toks) + rest == t.bytes + (Join(toks) + rest);
  }

  lemma RestIsOpen(bs: seq<Byte>)
    requires First(bs) == None
    ensures bs == [] || (Undecided(Chars(bs)) && |bs| <= 11)
  {
    if bs != [] {
      assert Chars(bs)[..|bs|] == Chars(bs);
      LongestExact(Chars(bs));
      OpenLength(Chars(bs));
    }
  }

  lemma OpenLength(s: string)
    requires Undecided(s)
    ensures |s| <= 11 && s[0] == '<'
  {
  }

  lemma FirstIsValid(bs: seq<Byte>)
    requires First(bs).Some?
    ensures ValidToken(First(bs).value)
  {
    hide Longest, IsTag, IsTagPrefix;
    var cs := Chars(bs);
    LongestExact(cs);
    var n := Longest(cs, 0);
    if n == 0 {
      AngleIsCandidate(cs);
    } else if n < |cs| && !IsTag(cs[..n]) {
      BrokenIsValid(bs, n);
    } else {
      assert Chars(bs[..n]) == cs[..n];
    }
  }

  lemma BrokenIsValid(bs: seq<Byte>, n: nat)
    requires 0 < n < |bs| && Undecided(Chars(bs)[..n]) && !IsTagPrefix(Chars(bs)[..n + 1])
    ensures ValidToken(Text(bs[..n + 1]))
  {
    hide IsTag, IsTagPrefix;
    PrefixStart(Chars(bs)[..n]);
    var cs, t := Chars(bs), bs[..n + 1];
    assert Chars(t) == cs[..n + 1] && Chars(t)[..n] == cs[..n];
    assert Chars(t)[0] == cs[..n][0];
  }

  lemma JoinOne(toks: seq<Token>, rest: seq<Byte>)
    requires toks != []
    ensures Join(toks) + rest == toks[0].bytes + (Join(toks[1..]) + rest)
  {
    Regrouped(toks[0].bytes, Join(toks[1..]), rest);
  }

  lemma Regrouped(a: seq<Byte>, b: seq<Byte>, c: seq<Byte>)
    ensures a + b + c == a + (b + c)
  {
  }

  lemma TailIsValid(toks: seq<Token>, rest: seq<Byte>)
    requires toks != [] && ValidSplit(toks, rest)
    ensures ValidToken(toks[0]) && ValidSplit(toks[1..], rest)
  {
    hide ValidToken;
  }

  lemma OpenIsRest(rest: seq<Byte>)
    requires rest == [] || Undecided(Chars(rest))
    ensures Tokenize(rest) == ([], rest)
  {
    hide IsTag, IsTagPrefix, Longest;
    if rest != [] {
      NothingIsPrefix();
      assert Chars(rest)[..|rest|] == Chars(rest) && Chars(rest)[..0] == "";
      LongestIs(Chars(rest), 0, |rest|);
    }
  }

  lemma TokenizeOne(t: Token, more: seq<Byte>)
    requires First(t.bytes + more) == Some(t)
    ensures var (toks, rest) := Tokenize(more);
            Tokenize(t.bytes + more) == ([t] + toks, rest)
  {
    hide First;
    assert (t.bytes + more)[|t.bytes|..] == more;
  }

  /** There is only one such split. */
  lemma {:induction false} SplitIsUnique(toks: seq<Token>, rest: seq<Byte>)
    requires ValidSplit(toks, rest)
    ensures Tokenize(Join(toks) + rest) == (toks, rest)
    decreases |toks|
  {
    var bs := Join(toks) + rest;
    if toks == [] {
      assert bs == rest;
      OpenIsRest(rest);
    } else {
      var t := toks[0];
      var more := Join(toks[1..]) + rest;
      JoinOne(toks, rest);
      TailIsValid(toks, rest);
      FirstOf(t, more);
      TokenizeOne(t, more);
      SplitIsUnique(toks[1..], rest);
      hide *;
      assert [t] + toks[1..] == toks;
    }
  }

  lemma {:induction false} LongestIs(cs: string, k: nat, n: nat)
    requires k <= n <= |cs| && IsTagPrefix(cs[..n]) && IsTagPrefix(cs[..k])
    requires n < |cs| ==> !IsTagPrefix(cs[..n + 1])
    ensures Longest(cs, k) == n
    decreases n - k
  {
    if k < n {
      assert cs[..n][..k + 1] == cs[..k + 1];
      PrefixClosed(cs[..n], k + 1);
      LongestIs(cs, k + 1, n);
    }
  }

  lemma FirstOf(t: Token, more: seq<Byte>)
    requires ValidToken(t)
    ensures First(t.bytes + more) == Some(t)
  {
    hide First, ValidToken;
    if t.Tag? {
      FirstOfTag(t.bytes, more);
    } else {
      FirstOfText(t.bytes, more);
    }
  }

  lemma FirstOfTag(own: seq<Byte>, more: seq<Byte>)
    requires ValidToken(Tag(own))
    ensures First(own + more) == Some(Tag(own))
  {
    var bs := own + more;
    var cs := Chars(bs);
    var k := |own|;
    assert cs[..k] == Chars(own) && bs[..k] == own;
    TagLength(Chars(own));
    if k < |cs| && IsTagPrefix(cs[..k + 1]) {
      assert cs[..k + 1][..k] == Chars(own);
      TagIsMaximal(cs[..k + 1], k);
    }
    hide IsTag, IsTagPrefix, Longest;
    NothingIsPrefix();
    assert cs[..0] == "";
    LongestIs(cs, 0, k);
  }

  lemma OtherIsNoPrefix(s: string)
    requires s != "" && s[0] != '<'
    ensures !IsTagPrefix(s)
  {
  }

  lemma FirstOfText(own: seq<Byte>, more: seq<Byte>)
    requires ValidToken(Text(own))
    ensures First(own + more) == Some(Text(own))
  {
    hide IsTag, IsTagPrefix, Longest;
    var bs := own + more;
    var cs := Chars(bs);
    var k := |own|;
    assert cs[..k] == Chars(own) && bs[..k] == own && cs[0] == own[0].c;
    NothingIsPrefix();
    assert cs[..0] == "";
    if own[0].c != '<' {
      OtherIsNoPrefix(cs[..1]);
      LongestIs(cs, 0, 0);
    } else {
      assert cs[..k - 1] == Chars(own)[..k - 1];
      LongestIs(cs, 0, k - 1);
    }
  }

  lemma CharsConcat(a: seq<Byte>, b: seq<Byte>)
    ensures Chars(a + b) == Chars(a) + Chars(b)
  {
  }

  lemma NoChars()
    ensures Chars([]) == ""
  {
  }

  lemma CharsTagged(s: string, reasoning: bool)
    ensures Chars(Tagged(s, reasoning)) == s
  {
  }

  lemma {:induction false} OutputIsErased(toks: seq<Token>, inThinking: bool)
    ensures Chars(Output(toks, inThinking)) == Erased(toks)
  {
    hide IsTag, Opens, Chars, Tagged, AnyReasoning;
    if toks == [] {
      NoChars();
    } else {
      if toks[0].Text? {
        var text := Tagged(Chars(toks[0].bytes), AnyReasoning(toks[0].bytes) || inThinking);
        CharsConcat(text, Output(toks[1..], inThinking));
        CharsTagged(Chars(toks[0].bytes), AnyReasoning(toks[0].bytes) || inThinking);
      } else {
        assert "" + Erased(toks[1..]) == Erased(toks[1..]);
      }
      OutputIsErased(toks[1..], if toks[0].Tag? then Opens(Chars(toks[0].bytes)) else inThinking);
    }
  }

  lemma {:induction false} NoTagTokens(toks: seq<Token>, bs: seq<Byte>)
    requires forall i :: 0 <= i < |toks| ==> toks[i].Text?
    requires Join(toks) == bs
    ensures Erased(toks) == Chars(bs)
    decreases |toks|
  {
    if toks != [] {
      NoTagTokens(toks[1..], Join(toks[1..]));
    }
  }

  lemma {:induction false} TokenInside(toks: seq<Token>, k: nat) returns (i: nat, j: nat)
    requires k < |toks|
    ensures i <= j <= |Join(toks)| && Join(toks)[i..j] == toks[k].bytes
    decreases k
  {
    var first := toks[0].bytes;
    if k == 0 {
      i, j := 0, |first|;
    } else {
      var i', j' := TokenInside(toks[1..], k - 1);
      i, j := |first| + i', |first| + j';
      assert (first + Join(toks[1..]))[i..j] == Join(toks[1..])[i'..j'];
    }
  }

  // A tag token means that the input has a tag in it.
  lemma TagsComeFromInput(bs: seq<Byte>)
    requires forall i, j :: 0 <= i <= j <= |bs| ==> !IsTag(Chars(bs[i..j]))
    ensures forall k :: 0 <= k < |Tokenize(bs).0| ==> Tokenize(bs).0[k].Text?
  {
    hide IsTag, IsTagPrefix, Opens, Tokenize;
    var (toks, rest) := Tokenize(bs);
    SplitConserves(bs);
    forall k | 0 <= k < |toks| ensures toks[k].Text? {
      var i, j := TokenInside(toks, k);
      assert bs[i..j] == Join(toks)[i..j];
      assert ValidToken(toks[k]);
    }
  }

  /** Exactly the tags disappear: once finalized, the bytes put out are the input with the tag
      tokens taken away, and what waits meanwhile is a tag prefix of at most 11 bytes. */
  lemma OnlyTagsDisappear(bs: seq<Byte>)
    ensures var (st, out) := Run(INITIAL, bs);
            && Chars(out) + st.pending == Erased(Tokenize(bs).0) + Chars(Tokenize(bs).1)
            && (st.pending == "" || Undecided(st.pending)) && |st.pending| <= 11
            && st.inThinking == ThinkingAfter(Tokenize(bs).0, false)
  {
    hide IsTag, IsTagPrefix, Opens, Tokenize, Run;
    RouterIsSplit(INITIAL, bs);
    SplitConserves(bs);
    OutputIsErased(Tokenize(bs).0, false);
  }

  /** Input without a tag in it comes out unchanged, byte for byte. */
  lemma UntaggedUnchanged(bs: seq<Byte>)
    requires forall i, j :: 0 <= i <= j <= |bs| ==> !IsTag(Chars(bs[i..j]))
    ensures Chars(Run(INITIAL, bs).1) + Run(INITIAL, bs).0.pending == Chars(bs)
  {
    hide *;
    OnlyTagsDisappear(bs);
    TagsComeFromInput(bs);
    AllTextUnchanged(bs);
  }

  lemma AllTextUnchanged(bs: seq<Byte>)
    requires forall k :: 0 <= k < |Tokenize(bs).0| ==> Tokenize(bs).0[k].Text?
    ensures Erased(Tokenize(bs).0) + Chars(Tokenize(bs).1) == Chars(bs)
  {
    hide IsTag, IsTagPrefix, Opens, Tokenize;
    var (toks, rest) := Tokenize(bs);
    SplitConserves(bs);
    NoTagTokens(toks, Join(toks));
    assert Chars(Join(toks) + rest) == Chars(Join(toks)) + Chars(rest);
  }

  // ---------------------------------------------------------------- chunking does not matter

  datatype Chunk = Chunk(text: string, reasoning: bool)

  function Input(chunks: seq<Chunk>): seq<Byte> {
    if chunks == [] then [] else Tagged(chunks[0].text, chunks[0].reasoning) + Input(chunks[1..])
  }

  // One Feed per chunk, in order: the final state, and all the pieces.
  function FeedAll(st: RouterVal, chunks: seq<Chunk>): (RouterVal, seq<Piece>)
    decreases |chunks|
  {
    if chunks == [] then (st, [])
    else
      var (s1, out) := Run(st, Tagged(chunks[0].text, chunks[0].reasoning));
      var (s2, more) := FeedAll(s1, chunks[1..]);
      (s2, Group(out) + more)
  }

  lemma {:induction false} FlattenConcat(a: seq<Piece>, b: seq<Piece>)
    ensures Flatten(a + b) == Flatten(a) + Flatten(b)
  {
    if b == [] {
      assert a + b == a;
    } else {
      hide Tagged;
      assert (a + b)[..|a + b| - 1] == a + b[..|b| - 1];
      FlattenConcat(a, b[..|b| - 1]);
      var x, y, z := Flatten(a), Flatten(b[..|b| - 1]), Tagged(b[|b| - 1].text, b[|b| - 1].reasoning);
      assert x + y + z == x + (y + z);
    }
  }

  /** Any number of Feed calls amounts to the one-byte automaton on the concatenated input. */
  lemma {:induction false} FeedAllIsRun(st: RouterVal, chunks: seq<Chunk>)
    ensures FeedAll(st, chunks).0 == Run(st, Input(chunks)).0
    ensures Flatten(FeedAll(st, chunks).1) == Run(st, Input(chunks)).1
    decreases |chunks|
  {
    if chunks != [] {
      var first := Tagged(chunks[0].text, chunks[0].reasoning);
      RunConcat(st, first, Input(chunks[1..]));
      FeedAllIsRun(Run(st, first).0, chunks[1..]);
      GroupIsCanonical(Run(st, first).1);
      FlattenConcat(Group(Run(st, first).1), FeedAll(Run(st, first).0, chunks[1..]).1);
    }
  }

  /** However the same tagged bytes are cut into Feed calls, the router ends in the same state
      and has put the same bytes on the same channels. */
  lemma RechunkingInvisible(st: RouterVal, a: seq<Chunk>, b: seq<Chunk>)
    requires Input(a) == Input(b)
    ensures FeedAll(st, a).0 == FeedAll(st, b).0
    ensures Flatten(FeedAll(st, a).1) == Flatten(FeedAll(st, b).1)
  {
    FeedAllIsRun(st, a);
    FeedAllIsRun(st, b);
  }
}
