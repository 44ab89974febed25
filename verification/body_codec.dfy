// The request body encoding: base64 (section 4 of RFC 4648), a swap of the first and the last
// third, and a substitution of the alphabet (internal/qoder/encoding.go).

module BodyCodec {
  import opened Wrappers

  type Byte = b: int | 0 <= b < 256

  const STANDARD := "ABCDEFGH" + "IJKLMNOP" + "QRSTUVWX" + "YZabcdef" + "ghijklmn" + "opqrstuv" + "wxyz0123" +
      "456789+/"
  const CUSTOM := "_doRTgHZ" + "BKcGVjlv" + "pC,@aFSx" + "#DPuNJme" + "&i*MzLOE" + "n)sUrthb" + "f%Y^w.(k" + "IQyXqWA!"

  // The 65 bytes that are substituted, and what for.
  const PLAIN := STANDARD + "="
  const MAPPED := CUSTOM + "$"

  // ---------------------------------------------------------------- the substitution

  // The replacement pairs of a table: symbol and substitute alternating.
  function Pairs(from: string, to: string): (pairs: string)
    requires |from| == |to|
  {
    if from == "" then "" else [from[0], to[0]] + Pairs(from[1..], to[1..])
  }

  method BuildPairs(from: string, to: string) returns (pairs: string)
    requires |from| == |to|
    ensures pairs == Pairs(from, to)
  {
    pairs := "";
    for i := 0 to |from|
      invariant pairs + Pairs(from[i..], to[i..]) == Pairs(from, to)
    {
      assert from[i..][1..] == from[i + 1..] && to[i..][1..] == to[i + 1..];
      assert pairs + ([from[i], to[i]] + Pairs(from[i + 1..], to[i + 1..])) ==
             pairs + [from[i], to[i]] + Pairs(from[i + 1..], to[i + 1..]);
      pairs := pairs + [from[i], to[i]];
    }
  }

  // What a replacer makes of a byte: the substitute of the first pair that has it, or itself.
  function Substituted(c: char, pairs: string): char {
    if |pairs| < 2 then c else if pairs[0] == c then pairs[1] else Substituted(c, pairs[2..])
  }

  function Replace(s: string, pairs: string): (r: string)
    ensures |r| == |s|
  {
    seq(|s|, i requires 0 <= i < |s| => Substituted(s[i], pairs))
  }

  // The first place of c in s; the length if there is none.
  function Position(s: string, c: char): (p: nat)
    ensures p <= |s| && c !in s[..p] && (p < |s| ==> s[p] == c)
  {
    if s == "" || s[0] == c then 0
    else
      var p := 1 + Position(s[1..], c);
      assert s[..p] == [s[0]] + s[1..][..p - 1];
      p
  }

  lemma {:induction false} SubstitutedIs(c: char, from: string, to: string)
    requires |from| == |to|
    ensures var p := Position(from, c); Substituted(c, Pairs(from, to)) == if p < |from| then to[p] else c
  {
    if from != "" {
      assert Pairs(from, to)[2..] == Pairs(from[1..], to[1..]);
      SubstitutedIs(c, from[1..], to[1..]);
    }
  }

  predicate Distinct(s: string) {
    forall i, j :: 0 <= i < j < |s| ==> s[i] != s[j]
  }

  predicate Within(s: string, alphabet: string) {
    forall i :: 0 <= i < |s| ==> s[i] in alphabet
  }

  lemma {:induction false} PositionIs(s: string, p: nat)
    requires Distinct(s) && p < |s|
    ensures Position(s, s[p]) == p
  {
    if p > 0 {
      PositionIs(s[1..], p - 1);
    }
  }

  /** A substitution by distinct bytes is undone by the reverse substitution, on every text over
      the bytes it substitutes; what comes out is a text over the substitutes. */
  lemma ReplaceUndone(s: string, from: string, to: string)
    requires |from| == |to| && Distinct(to) && Within(s, from)
    ensures Replace(Replace(s, Pairs(from, to)), Pairs(to, from)) == s && Within(Replace(s, Pairs(from, to)), to)
  {
    hide Pairs, Substituted, Distinct;
    forall i | 0 <= i < |s|
      ensures Substituted(Substituted(s[i], Pairs(from, to)), Pairs(to, from)) == s[i]
      ensures Substituted(s[i], Pairs(from, to)) in to
    {
      var p := Position(from, s[i]);
      assert from[..|from|] == from;
      SubstitutedIs(s[i], from, to);
      PositionIs(to, p);
      SubstitutedIs(to[p], to, from);
    }
  }

  // ---------------------------------------------------------------- the alphabets

  // The places of the standard symbols, by ranges, and of the substitutes, one by one.
  function Number(c: char): int {
    if 'A' <= c <= 'Z' then c as int - 'A' as int
    else if 'a' <= c <= 'z' then c as int - 'a' as int + 26
    else if '0' <= c <= '9' then c as int - '0' as int + 52
    else if c == '+' then 62
    else if c == '/' then 63
    else if c == '=' then 64
    else -1
  }

  function Rank(c: char): int {
    if c <= '@' then RankOfSign(c) else if c <= '_' then RankOfUpper(c) else RankOfLower(c)
  }

  function RankOfSign(c: char): int {
    match c
      case '!' => 63 case '#' => 24 case '$' => 64 case '%' => 49 case '&' => 32 case '(' => 54 case ')' => 41
      case '*' => 34 case ',' => 18 case '.' => 53 case '@' => 19
      case _ => -1
  }

  function RankOfUpper(c: char): int {
    match c
      case 'A' => 62 case 'B' => 8 case 'C' => 17 case 'D' => 25 case 'E' => 39 case 'F' => 21 case 'G' => 11
      case 'H' => 6 case 'I' => 56 case 'J' => 29 case 'K' => 9 case 'L' => 37 case 'M' => 35 case 'N' => 28
      case 'O' => 38 case 'P' => 26 case 'Q' => 57 case 'R' => 3 case 'S' => 22 case 'T' => 4 case 'U' => 43
      case 'V' => 12 case 'W' => 61 case 'X' => 59 case 'Y' => 50 case 'Z' => 7 case '^' => 51 case '_' => 0
      case _ => -1
  }

  function RankOfLower(c: char): int {
    match c
      case 'a' => 20 case 'b' => 47 case 'c' => 10 case 'd' => 1 case 'e' => 31 case 'f' => 48 case 'g' => 5
      case 'h' => 46 case 'i' => 33 case 'j' => 13 case 'k' => 55 case 'l' => 14 case 'm' => 30 case 'n' => 40
      case 'o' => 2 case 'p' => 16 case 'q' => 60 case 'r' => 44 case 's' => 42 case 't' => 45 case 'u' => 27
      case 'v' => 15 case 'w' => 52 case 'x' => 23 case 'y' => 58 case 'z' => 36
      case _ => -1
  }

  // A row whose places, by f, start at n; none of its bytes is a line end.
  ghost predicate Row(row: string, f: char -> int, n: int) {
    forall i :: 0 <= i < |row| ==> f(row[i]) == n + i && row[i] > ' '
  }

  lemma JoinRows(a: string, b: string, f: char -> int, n: int)
    requires Row(a, f, n) && Row(b, f, n + |a|)
    ensures Row(a + b, f, n)
  {
  }

  lemma RowIsDistinct(row: string, f: char -> int)
    requires Row(row, f, 0)
    ensures Distinct(row)
  {
    assert forall i, j :: 0 <= i < j < |row| ==> f(row[i]) != f(row[j]);
  }

  lemma StandardRow0()
    ensures Row("ABCDEFGH", Number, 0)
  {
  }

  lemma StandardRow1()
    ensures Row("IJKLMNOP", Number, 8)
  {
  }

  lemma StandardRow2()
    ensures Row("QRSTUVWX", Number, 16)
  {
  }

  lemma StandardRow3()
    ensures Row("YZabcdef", Number, 24)
  {
  }

  lemma StandardRow4()
    ensures Row("ghijklmn", Number, 32)
  {
  }

  lemma StandardRow5()
    ensures Row("opqrstuv", Number, 40)
  {
  }

  lemma StandardRow6()
    ensures Row("wxyz0123", Number, 48)
  {
  }

  lemma StandardRow7()
    ensures Row("456789+/", Number, 56)
  {
  }

  lemma StandardRows()
    ensures |STANDARD| == 64 && Row(STANDARD + "=", Number, 0)
  {
    assert Row("=", Number, 64) by {
      StandardEnd();
    }
    StandardRow0();
    StandardRow1();
    StandardRow2();
    StandardRow3();
    StandardRow4();
    StandardRow5();
    StandardRow6();
    StandardRow7();
    hide *;
    var a := "ABCDEFGH";
    JoinRows(a, "IJKLMNOP", Number, 0);
    a := a + "IJKLMNOP";
    JoinRows(a, "QRSTUVWX", Number, 0);
    a := a + "QRSTUVWX";
    JoinRows(a, "YZabcdef", Number, 0);
    a := a + "YZabcdef";
    JoinRows(a, "ghijklmn", Number, 0);
    a := a + "ghijklmn";
    JoinRows(a, "opqrstuv", Number, 0);
    a := a + "opqrstuv";
    JoinRows(a, "wxyz0123", Number, 0);
    a := a + "wxyz0123";
    JoinRows(a, "456789+/", Number, 0);
    a := a + "456789+/";
    assert a == STANDARD;
    JoinRows(a, "=", Number, 0);
  }

  lemma StandardEnd()
    ensures Row("=", Number, 64)
  {
  }

  lemma CustomRow0()
    ensures Row("_doRTgHZ", Rank, 0)
  {
  }

  lemma CustomRow1()
    ensures Row("BKcGVjlv", Rank, 8)
  {
  }

  lemma CustomRow2()
    ensures Row("pC,@aFSx", Rank, 16)
  {
  }

  lemma CustomRow3()
    ensures Row("#DPuNJme", Rank, 24)
  {
  }

  lemma CustomRow4()
    ensures Row("&i*MzLOE", Rank, 32)
  {
  }

  lemma CustomRow5()
    ensures Row("n)sUrthb", Rank, 40)
  {
  }

  lemma CustomRow6()
    ensures Row("f%Y^w.(k", Rank, 48)
  {
  }

  lemma CustomRow7()
    ensures Row("IQyXqWA!", Rank, 56)
  {
  }

  lemma CustomRows()
    ensures |CUSTOM| == 64 && Row(CUSTOM + "$", Rank, 0)
  {
    assert Row("$", Rank, 64) by {
      CustomEnd();
    }
    CustomRow0();
    CustomRow1();
    CustomRow2();
    CustomRow3();
    CustomRow4();
    CustomRow5();
    CustomRow6();
    CustomRow7();
    hide *;
    var a := "_doRTgHZ";
    JoinRows(a, "BKcGVjlv", Rank, 0);
    a := a + "BKcGVjlv";
    JoinRows(a, "pC,@aFSx", Rank, 0);
    a := a + "pC,@aFSx";
    JoinRows(a, "#DPuNJme", Rank, 0);
    a := a + "#DPuNJme";
    JoinRows(a, "&i*MzLOE", Rank, 0);
    a := a + "&i*MzLOE";
    JoinRows(a, "n)sUrthb", Rank, 0);
    a := a + "n)sUrthb";
    JoinRows(a, "f%Y^w.(k", Rank, 0);
    a := a + "f%Y^w.(k";
    JoinRows(a, "IQyXqWA!", Rank, 0);
    a := a + "IQyXqWA!";
    assert a == CUSTOM;
    JoinRows(a, "$", Rank, 0);
  }

  lemma CustomEnd()
    ensures Row("$", Rank, 64)
  {
  }

  /** Both alphabets have 65 different symbols, none of them a line end. */
  lemma Alphabets()
    ensures |STANDARD| == |CUSTOM| == 64 && |PLAIN| == |MAPPED| == 65 && Distinct(PLAIN) && Distinct(MAPPED)
    ensures forall i :: 0 <= i < |PLAIN| ==> PLAIN[i] > ' '
  {
    StandardRows();
    CustomRows();
    RowIsDistinct(PLAIN, Number);
    RowIsDistinct(MAPPED, Rank);
    hide Number, Rank, Distinct;
  }

  predicate Symbol(c: char) {
    c in PLAIN
  }

  predicate Symbols(s: string) {
    forall i :: 0 <= i < |s| ==> Symbol(s[i])
  }

  lemma SymbolsAreWithin(s: string)
    ensures Symbols(s) <==> Within(s, PLAIN)
  {
  }

  // The number of a symbol of the standard alphabet; 64 for anything else.
  function Val(c: char): (v: int)
    ensures 0 <= v <= 64
  {
    Alphabets();
    Position(STANDARD, c)
  }

  // Symbol number v of the standard alphabet.
  function Sym(v: int): (c: char)
    requires 0 <= v < 64
    ensures Val(c) == v && Symbol(c)
  {
    Alphabets();
    SymbolHasItsNumber(v);
    STANDARD[v]
  }

  lemma SymbolHasItsNumber(v: int)
    requires 0 <= v < |STANDARD|
    ensures Val(STANDARD[v]) == v && Symbol(STANDARD[v])
  {
    Alphabets();
    hide Distinct;
    assert Distinct(STANDARD) by {
      PrefixDistinct(STANDARD, "=");
    }
    PositionIs(STANDARD, v);
    assert PLAIN[v] == STANDARD[v];
  }

  lemma PrefixDistinct(a: string, b: string)
    requires Distinct(a + b)
    ensures Distinct(a)
  {
    assert forall i :: 0 <= i < |a| ==> (a + b)[i] == a[i];
  }

  lemma PaddingIsNoSymbol()
    ensures Val('=') == 64 && Symbol('=')
  {
    Alphabets();
    assert PLAIN[64] == '=';
    assert forall i :: 0 <= i < 64 ==> STANDARD[i] == PLAIN[i];
    assert STANDARD[..64] == STANDARD;
  }

  // ---------------------------------------------------------------- base64

  // One to three bytes as four symbols.
  function EncodeQuantum(x: seq<Byte>): (s: string)
    requires 0 < |x| <= 3
    ensures |s| == 4
  {
    var y := if |x| > 1 then x[1] else 0;
    var z := if |x| > 2 then x[2] else 0;
    [Sym(x[0] / 4), Sym(x[0] % 4 * 16 + y / 16),
     if |x| > 1 then Sym(y % 16 * 4 + z / 64) else '=',
     if |x| > 2 then Sym(z % 64) else '=']
  }

  function Base64Encode(x: seq<Byte>): string {
    if x == [] then ""
    else if |x| <= 3 then EncodeQuantum(x)
    else EncodeQuantum(x[..3]) + Base64Encode(x[3..])
  }

  // The decoder skips line ends.
  function Strip(s: string): string {
    if s == "" then ""
    else (if s[0] == '\r' || s[0] == '\n' then "" else [s[0]]) + Strip(s[1..])
  }

  function Base64Decode(s: string): Option<seq<Byte>> {
    DecodeQuanta(Strip(s))
  }

  // Unused low bits are not looked at.
  function DecodeQuantum(s: string): (r: Option<seq<Byte>>)
    requires |s| == 4
  {
    var v0, v1, v2, v3 := Val(s[0]), Val(s[1]), Val(s[2]), Val(s[3]);
    if v0 == 64 || v1 == 64 then None
    else if s[2] == '=' then if s[3] == '=' then Some([v0 * 4 + v1 / 16]) else None
    else if v2 == 64 then None
    else if s[3] == '=' then Some([v0 * 4 + v1 / 16, v1 % 16 * 16 + v2 / 4])
    else if v3 == 64 then None
    else Some([v0 * 4 + v1 / 16, v1 % 16 * 16 + v2 / 4, v2 % 4 * 64 + v3])
  }

  // Padding may only end the text.
  function DecodeQuanta(t: string): Option<seq<Byte>> {
    if t == "" then Some([])
    else if |t| < 4 then None
    else match DecodeQuantum(t[..4])
      case None => None
      case Some(q) =>
        if |q| < 3 then if |t| == 4 then Some(q) else None
        else match DecodeQuanta(t[4..])
          case None => None
          case Some(rest) => Some(q + rest)
  }

  lemma Rejoin(x: Byte, y: Byte, z: Byte)
    ensures x / 4 * 4 + (x % 4 * 16 + y / 16) / 16 == x
    ensures (x % 4 * 16 + y / 16) % 16 * 16 + (y % 16 * 4 + z / 64) / 4 == y
    ensures (y % 16 * 4 + z / 64) % 4 * 64 + z % 64 == z
  {
  }

  // The two symbols that carry a lone byte, with the padding after them.
  lemma LoneByteUndone(x: seq<Byte>)
    requires |x| == 1
    ensures DecodeQuantum(EncodeQuantum(x)) == Some(x) && Symbols(EncodeQuantum(x))
  {
    hide Sym, Val, Symbol;
    PaddingIsNoSymbol();
    Rejoin(x[0], 0, 0);
    assert x == [x[0]];
  }

  lemma BytePairUndone(x: seq<Byte>)
    requires |x| == 2
    ensures DecodeQuantum(EncodeQuantum(x)) == Some(x) && Symbols(EncodeQuantum(x))
  {
    hide Sym, Val, Symbol;
    PaddingIsNoSymbol();
    Rejoin(x[0], x[1], 0);
    assert x == [x[0], x[1]];
  }

  lemma ByteTripleUndone(x: seq<Byte>)
    requires |x| == 3
    ensures DecodeQuantum(EncodeQuantum(x)) == Some(x) && Symbols(EncodeQuantum(x))
  {
    hide Sym, Val, Symbol;
    PaddingIsNoSymbol();
    Rejoin(x[0], x[1], x[2]);
    assert x == [x[0], x[1], x[2]];
  }

  lemma QuantumUndone(x: seq<Byte>)
    requires 0 < |x| <= 3
    ensures DecodeQuantum(EncodeQuantum(x)) == Some(x) && Symbols(EncodeQuantum(x))
  {
    hide *;
    if |x| == 1 {
      LoneByteUndone(x);
    } else if |x| == 2 {
      BytePairUndone(x);
    } else {
      ByteTripleUndone(x);
    }
  }

  lemma SymbolsConcat(a: string, b: string)
    requires Symbols(a) && Symbols(b)
    ensures Symbols(a + b)
  {
  }

  /** Every byte string survives base64; the text has four symbols per started group of three. */
  lemma {:induction false} Base64RoundTrip(x: seq<Byte>)
    ensures DecodeQuanta(Base64Encode(x)) == Some(x)
    ensures Symbols(Base64Encode(x)) && |Base64Encode(x)| == (|x| + 2) / 3 * 4
  {
    hide EncodeQuantum, DecodeQuantum, Symbols;
    if x == [] {
      NoSymbols();
    } else if |x| <= 3 {
      QuantumUndone(x);
      var e := EncodeQuantum(x);
      assert e[..4] == e && e[4..] == "" && x + [] == x;
    } else {
      QuantumUndone(x[..3]);
      Base64RoundTrip(x[3..]);
      var e := Base64Encode(x);
      assert e[..4] == EncodeQuantum(x[..3]) && e[4..] == Base64Encode(x[3..]);
      assert x[..3] + x[3..] == x;
      SymbolsConcat(EncodeQuantum(x[..3]), Base64Encode(x[3..]));
    }
  }

  lemma NoSymbols()
    ensures Symbols("")
  {
  }

  lemma {:induction false} StripNothing(s: string)
    requires Symbols(s)
    ensures Strip(s) == s
  {
    if s != "" {
      Alphabets();
      hide Distinct;
      assert Symbol(s[0]);
      StripNothing(s[1..]);
    }
  }

  // ---------------------------------------------------------------- the body

  // The first and the last third change places; what is between stays.
  function SwapEnds(s: string): (r: string)
    ensures |r| == |s|
  {
    var a := |s| / 3;
    s[|s| - a..] + s[a..|s| - a] + s[..a]
  }

  /** For every length, swapping twice changes nothing. */
  lemma SwapTwice(s: string)
    ensures SwapEnds(SwapEnds(s)) == s
  {
    var a := |s| / 3;
    var r := SwapEnds(s);
    assert r[|s| - a..] == s[..a] && r[a..|s| - a] == s[a..|s| - a] && r[..a] == s[|s| - a..];
    assert s == s[..a] + s[a..|s| - a] + s[|s| - a..];
  }

  lemma SwapKeepsSymbols(s: string)
    requires Symbols(s)
    ensures Symbols(SwapEnds(s))
  {
  }

  // The two tables.
  function EncodeTable(): string {
    Alphabets();
    Pairs(PLAIN, MAPPED)
  }

  function DecodeTable(): string {
    Alphabets();
    Pairs(MAPPED, PLAIN)
  }

  function EncodeBody(plain: seq<Byte>): string {
    if plain == [] then "" else Replace(SwapEnds(Base64Encode(plain)), EncodeTable())
  }

  // None is an error.
  function DecodeBody(encoded: string): Option<seq<Byte>> {
    if encoded == "" then Some([])
    else
      var mapped := Replace(encoded, DecodeTable());
      if |mapped| / 3 == 0 then None else Base64Decode(SwapEnds(mapped))
  }

  lemma NoPaddingSign(s: string)
    requires Within(s, MAPPED)
    ensures '=' !in s
  {
    CustomRows();
    assert forall i :: 0 <= i < |MAPPED| ==> Rank(MAPPED[i]) == i;
    assert Rank('=') == -1;
  }

  /** Every body comes back from its encoding, which has four symbols per started group of
      three bytes and no padding sign in it. */
  lemma BodyRoundTrip(plain: seq<Byte>)
    ensures DecodeBody(EncodeBody(plain)) == Some(plain)
    ensures |EncodeBody(plain)| == (|plain| + 2) / 3 * 4 && '=' !in EncodeBody(plain)
  {
    hide Base64Encode, DecodeQuanta, SwapEnds, Distinct, Pairs, Replace, Symbols, Within;
    Alphabets();
    if plain != [] {
      var std := Base64Encode(plain);
      Base64RoundTrip(plain);
      SwapKeepsSymbols(std);
      SymbolsAreWithin(SwapEnds(std));
      ReplaceUndone(SwapEnds(std), PLAIN, MAPPED);
      NoPaddingSign(Replace(SwapEnds(std), EncodeTable()));
      SwapTwice(std);
      StripNothing(std);
    }
  }

  /** So different bodies have different encodings. */
  lemma EncodingInjective(a: seq<Byte>, b: seq<Byte>)
    requires EncodeBody(a) == EncodeBody(b)
    ensures a == b
  {
    hide *;
    BodyRoundTrip(a);
    BodyRoundTrip(b);
  }
}
