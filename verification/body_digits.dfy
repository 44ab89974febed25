// What the body encoding computes, said by arithmetic (section 4 of RFC 4648 and
// internal/qoder/encoding.go:25-46): each symbol stands for six bits of the body.

module BodyDigits {
  import opened Wrappers
  import opened BodyCodec

  // Byte i of the body, zero bits behind its end.
  function Octet(x: seq<Byte>, i: nat): Byte {
    if i < |x| then x[i] else 0
  }

  // Three bytes from the i-th on, as a number in base 256.
  function Triple(x: seq<Byte>, i: nat): nat {
    (Octet(x, i) * 256 + Octet(x, i + 1)) * 256 + Octet(x, i + 2)
  }

  // Digit k in base 64, from the front, of a number of 24 bits.
  function Sextet(t: nat, k: nat): int
    requires k < 4
  {
    if k == 0 then t / 262144 else if k == 1 then t / 4096 % 64 else if k == 2 then t / 64 % 64 else t % 64
  }

  // Digit j in base 64 of the body; 64 where no bit of the body is left.
  function Digit(x: seq<Byte>, j: nat): int {
    if j * 6 >= |x| * 8 then 64 else Sextet(Triple(x, j / 4 * 3), j % 4)
  }

  lemma SymbolIsDigit(v: int)
    requires 0 <= v < 64
    ensures Number(Sym(v)) == v && Number('=') == 64
  {
    StandardRows();
    Alphabets();
    assert PLAIN[v] == STANDARD[v];
    hide Number, Distinct;
    assert PLAIN[64] == '=';
  }

  lemma Quotient(t: int, d: int, q: int, r: int)
    requires t == q * d + r && 0 <= r < d
    ensures t / d == q && t % d == r
  {
    Multiple(t / d - q, d);
    assert (t / d - q) * d == r - t % d;
  }

  lemma Multiple(m: int, d: int)
    requires d > 0
    ensures m >= 1 ==> m * d >= d
    ensures m <= -1 ==> m * d <= -d
  {
  }

  lemma TripleSplits(a: Byte, b: Byte, c: Byte)
    ensures var t := (a * 256 + b) * 256 + c;
            && Sextet(t, 0) == a / 4 && Sextet(t, 1) == a % 4 * 16 + b / 16
            && Sextet(t, 2) == b % 16 * 4 + c / 64 && Sextet(t, 3) == c % 64
  {
    var t := (a * 256 + b) * 256 + c;
    var a1, a0 := a / 4, a % 4;
    var b1, b0 := b / 16, b % 16;
    var c1, c0 := c / 64, c % 64;
    assert a == a1 * 4 + a0 && b == b1 * 16 + b0 && c == c1 * 64 + c0;
    assert t == a1 * 262144 + a0 * 65536 + b1 * 4096 + b0 * 256 + c1 * 64 + c0;
    Quotient(t, 262144, a1, a0 * 65536 + b * 256 + c);
    Quotient(t, 4096, a * 16 + b1, b0 * 256 + c);
    Quotient(a * 16 + b1, 64, a1, a0 * 16 + b1);
    Quotient(t, 64, a * 1024 + b * 4 + c1, c0);
    Quotient(a * 1024 + b * 4 + c1, 64, a * 16 + b1, b0 * 4 + c1);
  }

  // The six bits that symbol k of a group stands for.
  function Bits(x: seq<Byte>, k: nat): (v: int)
    requires k < 4
    ensures 0 <= v < 64
  {
    if k == 0 then Octet(x, 0) / 4
    else if k == 1 then Octet(x, 0) % 4 * 16 + Octet(x, 1) / 16
    else if k == 2 then Octet(x, 1) % 16 * 4 + Octet(x, 2) / 64
    else Octet(x, 2) % 64
  }

  lemma QuantumSymbols(x: seq<Byte>)
    requires 0 < |x| <= 3
    ensures EncodeQuantum(x) == [Sym(Bits(x, 0)), Sym(Bits(x, 1)), if |x| > 1 then Sym(Bits(x, 2)) else '=',
                                 if |x| > 2 then Sym(Bits(x, 3)) else '=']
  {
    hide Sym;
    var y := if |x| > 1 then x[1] else 0;
    var z := if |x| > 2 then x[2] else 0;
    assert y == Octet(x, 1) && z == Octet(x, 2) && x[0] == Octet(x, 0);
    hide Octet;
  }

  lemma QuantumBits(x: seq<Byte>, k: nat)
    requires 0 < |x| <= 3 && k < 4
    ensures EncodeQuantum(x)[k] == if k <= |x| then Sym(Bits(x, k)) else '='
  {
    hide *;
    QuantumSymbols(x);
  }

  lemma SextetIs(x: seq<Byte>, k: nat)
    requires k < 4
    ensures Sextet(Triple(x, 0), k) == Bits(x, k)
  {
    hide Octet, Sextet;
    TripleIs(x);
    TripleSplits(Octet(x, 0), Octet(x, 1), Octet(x, 2));
  }

  lemma QuantumDigits(x: seq<Byte>, j: nat)
    requires 0 < |x| <= 3 && j < 4
    ensures Number(EncodeQuantum(x)[j]) == Digit(x, j)
  {
    hide *;
    SextetIs(x, j);
    QuantumBits(x, j);
    SymbolIsDigit(Bits(x, j));
    DigitIs(x, j);
  }

  lemma DigitIs(x: seq<Byte>, j: nat)
    requires 0 < |x| <= 3 && j < 4
    ensures Digit(x, j) == if j <= |x| then Sextet(Triple(x, 0), j) else 64
  {
    hide Sextet, Triple;
  }

  lemma TripleIs(x: seq<Byte>)
    ensures Triple(x, 0) == (Octet(x, 0) * 256 + Octet(x, 1)) * 256 + Octet(x, 2)
  {
  }

  lemma DigitLater(x: seq<Byte>, j: nat)
    requires |x| > 3 && j >= 4
    ensures Digit(x, j) == Digit(x[3..], j - 4)
  {
    assert j / 4 * 3 == (j - 4) / 4 * 3 + 3;
  }

  lemma DigitNow(x: seq<Byte>, j: nat)
    requires |x| > 3 && j < 4
    ensures Digit(x, j) == Digit(x[..3], j)
  {
  }

  /** The standard text of a body: its digits in base 64, from the front, zero bits and then padding
      behind its end. */
  lemma {:induction false} Base64Digits(x: seq<Byte>, j: nat)
    requires j < |Base64Encode(x)|
    ensures Number(Base64Encode(x)[j]) == Digit(x, j)
  {
    hide EncodeQuantum, Number, Digit;
    if |x| <= 3 {
      QuantumDigits(x, j);
    } else if j < 4 {
      QuantumDigits(x[..3], j);
      DigitNow(x, j);
    } else {
      Base64Digits(x[3..], j - 4);
      DigitLater(x, j);
    }
  }

  // Where symbol k of n comes from: the first and the last third have changed places.
  function Origin(n: nat, k: nat): (j: nat)
    requires k < n
    ensures j < n
  {
    var a := n / 3;
    if k < a then n - a + k else if k < n - a then k else k - (n - a)
  }

  lemma SwapMoves(s: string, k: nat)
    requires k < |s|
    ensures SwapEnds(s)[k] == s[Origin(|s|, k)]
  {
  }

  lemma SubstituteKeepsNumber(c: char)
    requires Symbol(c)
    ensures Rank(Substituted(c, EncodeTable())) == Number(c)
  {
    StandardRows();
    CustomRows();
    Alphabets();
    SubstitutedIs(c, PLAIN, MAPPED);
    assert PLAIN[..|PLAIN|] == PLAIN;
    hide Number, Rank, Distinct, Substituted, Pairs;
    assert Position(PLAIN, c) < |PLAIN|;
  }

  /** The encoded body, symbol by symbol: its k-th symbol is the substitute number d, d being the
      digit in base 64 of the body at the place that symbol k comes from. */
  lemma EncodedDigits(plain: seq<Byte>, k: nat)
    requires k < |EncodeBody(plain)|
    ensures Rank(EncodeBody(plain)[k]) == Digit(plain, Origin(|EncodeBody(plain)|, k))
  {
    hide Base64Encode, Rank, Number, Digit, EncodeTable, Symbols, Substituted;
    var std := Base64Encode(plain);
    Base64RoundTrip(plain);
    var j := Origin(|std|, k);
    SwapMoves(std, k);
    Base64Digits(plain, j);
    assert Symbol(std[j]) by {
      assert Symbols(std);
      SymbolAt(std, j);
    }
    SubstituteKeepsNumber(std[j]);
  }

  lemma SymbolAt(s: string, j: nat)
    requires Symbols(s) && j < |s|
    ensures Symbol(s[j])
  {
  }

  // ---------------------------------------------------------------- what decodes

  // Symbol i of the text: one of the 64, or padding in one of the last two places, up to the end.
  predicate WellPlaced(t: string, i: nat)
    requires i < |t|
  {
    0 <= Number(t[i]) < 64 || (t[i] == '=' && i + 2 >= |t| && (i + 2 == |t| ==> t[i + 1] == '='))
  }

  predicate WellFormed(t: string) {
    |t| % 4 == 0 && forall i :: 0 <= i < |t| ==> WellPlaced(t, i)
  }

  lemma ValIsNumber(c: char)
    ensures Val(c) == if 0 <= Number(c) < 64 then Number(c) else 64
  {
    hide Number, Sym;
    var v := Val(c);
    if 0 <= Number(c) < 64 {
      NumberIsSymbol(c);
      var s := Sym(Number(c));
    } else if v < 64 {
      Alphabets();
      assert STANDARD[v] == c;
      SymbolNumbers(v);
      assert false;
    }
  }

  lemma SymbolNumbers(v: int)
    requires 0 <= v < |STANDARD|
    ensures |STANDARD| == 64 && Number(STANDARD[v]) == v
  {
    StandardRows();
    Alphabets();
    assert PLAIN[v] == STANDARD[v];
    hide Number, Distinct;
  }

  lemma NumberIsSymbol(c: char)
    requires 0 <= Number(c) < 64
    ensures Sym(Number(c)) == c
  {
    Alphabets();
    SymbolNumbers(Number(c));
    NumberInjective(c, STANDARD[Number(c)]);
  }

  lemma NumberInjective(c: char, d: char)
    requires 0 <= Number(c) == Number(d) < 64
    ensures c == d
  {
  }

  lemma QuantumDecodes(t: string)
    requires |t| == 4
    ensures DecodeQuantum(t).Some? <==> WellFormed(t)
  {
    ValIsNumber(t[0]);
    ValIsNumber(t[1]);
    ValIsNumber(t[2]);
    ValIsNumber(t[3]);
    assert Number('=') == 64;
    hide Number, Val;
    assert WellFormed(t) ==> WellPlaced(t, 0) && WellPlaced(t, 1) && WellPlaced(t, 2) && WellPlaced(t, 3);
  }

  // A group of three bytes is one without padding.
  lemma FullQuantum(t: string)
    requires |t| == 4 && DecodeQuantum(t).Some?
    ensures |DecodeQuantum(t).value| <= 3
    ensures |DecodeQuantum(t).value| == 3 <==> t[2] != '=' && t[3] != '='
  {
    hide Val;
  }

  lemma FrontPlaced(t: string, i: nat)
    requires |t| >= 8 && i < 4
    ensures WellPlaced(t, i) <==> WellPlaced(t[..4], i) && t[i] != '='
  {
    assert Number('=') == 64;
    hide Number;
  }

  lemma LaterPlaced(t: string, i: nat)
    requires 4 <= i < |t|
    ensures WellPlaced(t, i) <==> WellPlaced(t[4..], i - 4)
  {
    hide Number;
  }

  // A longer text: a group without padding, and a text.
  lemma WellFormedSteps(t: string)
    requires |t| > 4
    ensures WellFormed(t) <==> WellFormed(t[..4]) && t[2] != '=' && t[3] != '=' && WellFormed(t[4..])
  {
    hide WellPlaced;
    if |t| >= 8 {
      var a, b := t[..4], t[4..];
      forall i: nat | i < 4 ensures WellPlaced(t, i) <==> WellPlaced(a, i) && t[i] != '=' {
        FrontPlaced(t, i);
      }
      forall i: nat | i < |b| ensures WellPlaced(t, i + 4) <==> WellPlaced(b, i) {
        LaterPlaced(t, i + 4);
      }
      if WellFormed(a) && t[2] != '=' && t[3] != '=' && WellFormed(b) {
        assert WellPlaced(a, 0) && WellPlaced(a, 1);
        NotFirst(a);
        forall i | 0 <= i < |t| ensures WellPlaced(t, i) {
          assert i >= 4 ==> WellPlaced(b, i - 4) && WellPlaced(t, i - 4 + 4);
        }
      }
      if WellFormed(t) {
        assert WellPlaced(t, 2) && WellPlaced(t, 3);
        assert forall k: nat :: k < |b| ==> WellPlaced(t, k + 4) && WellPlaced(b, k);
      }
    }
  }

  lemma NotFirst(a: string)
    requires |a| == 4 && WellPlaced(a, 0) && WellPlaced(a, 1)
    ensures a[0] != '=' && a[1] != '='
  {
    assert Number('=') == 64;
    hide Number;
  }

  /** A text decodes if and only if it has symbols of the alphabet only, four by four, with one or
      two padding signs at most, at its end. */
  lemma {:induction false} DecodesIff(t: string)
    ensures DecodeQuanta(t).Some? <==> WellFormed(t)
    decreases |t|
  {
    hide WellPlaced, DecodeQuantum, WellFormed;
    if |t| < 4 {
      ShortText(t);
    } else {
      QuantumDecodes(t[..4]);
      if DecodeQuantum(t[..4]).Some? {
        FullQuantum(t[..4]);
      }
      if |t| == 4 {
        assert t[..4] == t && t[4..] == "";
      } else {
        DecodesIff(t[4..]);
        WellFormedSteps(t);
      }
    }
  }

  lemma ShortText(t: string)
    requires |t| < 4
    ensures WellFormed(t) <==> t == ""
  {
  }

  // ---------------------------------------------------------------- what it decodes to

  // Symbol i of the text as a digit in base 64; padding counts as zero bits.
  function Six(t: string, i: nat): (v: int)
    ensures 0 <= v < 64
  {
    if i < |t| && 0 <= Number(t[i]) < 64 then Number(t[i]) else 0
  }

  // Four symbols from the i-th on, as a number in base 64.
  function Quad(t: string, i: nat): int {
    ((Six(t, i) * 64 + Six(t, i + 1)) * 64 + Six(t, i + 2)) * 64 + Six(t, i + 3)
  }

  // Byte k in base 256, from the front, of a number of 24 bits.
  function ByteOf(q: int, k: int): int {
    if k == 0 then q / 65536 else if k == 1 then q / 256 % 256 else q % 256
  }

  lemma QuadSplits(a: int, b: int, c: int, d: int)
    requires 0 <= a < 64 && 0 <= b < 64 && 0 <= c < 64 && 0 <= d < 64
    ensures var q := ((a * 64 + b) * 64 + c) * 64 + d;
            && ByteOf(q, 0) == a * 4 + b / 16 && ByteOf(q, 1) == b % 16 * 16 + c / 4
            && ByteOf(q, 2) == c % 4 * 64 + d
  {
    var q := ((a * 64 + b) * 64 + c) * 64 + d;
    var b1, b0, c1, c0 := b / 16, b % 16, c / 4, c % 4;
    assert b == b1 * 16 + b0 && c == c1 * 4 + c0;
    assert q == a * 262144 + b1 * 65536 + b0 * 4096 + c1 * 256 + c0 * 64 + d;
    Quotient(q, 65536, a * 4 + b1, b0 * 4096 + c * 64 + d);
    Quotient(q, 256, a * 1024 + b * 16 + c1, c0 * 64 + d);
    Quotient(a * 1024 + b * 16 + c1, 256, a * 4 + b1, b0 * 16 + c1);
  }

  lemma QuantumBytes(t: string, k: nat)
    requires |t| == 4 && DecodeQuantum(t).Some? && k < |DecodeQuantum(t).value|
    ensures DecodeQuantum(t).value[k] == ByteOf(Quad(t, 0), k)
  {
    hide Val, Number, ByteOf, Quad;
    assert Quad(t, 0) == ((Six(t, 0) * 64 + Six(t, 1)) * 64 + Six(t, 2)) * 64 + Six(t, 3) by {
      QuadIs(t);
    }
    SixIsVal(t, 0);
    SixIsVal(t, 1);
    SixIsVal(t, 2);
    SixIsVal(t, 3);
    QuadSplits(Six(t, 0), Six(t, 1), Six(t, 2), Six(t, 3));
    hide Six;
  }

  lemma QuadIs(t: string)
    ensures Quad(t, 0) == ((Six(t, 0) * 64 + Six(t, 1)) * 64 + Six(t, 2)) * 64 + Six(t, 3)
  {
    hide Six;
  }

  lemma SixIsVal(t: string, i: nat)
    requires i < |t|
    ensures Six(t, i) == if Val(t[i]) < 64 then Val(t[i]) else 0
  {
    ValIsNumber(t[i]);
    hide Val, Number;
  }

  lemma QuadShifts(t: string, i: nat)
    requires |t| >= 4
    ensures Quad(t, i + 4) == Quad(t[4..], i) && Quad(t, 0) == Quad(t[..4], 0)
  {
    hide Number;
    assert forall j: nat :: Six(t, j + 4) == Six(t[4..], j);
  }

  // Where the four symbols of byte i start.
  function GroupOf(i: nat): nat {
    i / 3 * 4
  }

  /** What a text decodes to: its symbols and the bytes are the same number, in base 64 and in base
      256; bits behind the last byte are not looked at. */
  lemma {:induction false} DecodedDigits(t: string, i: nat)
    requires DecodeQuanta(t).Some? && i < |DecodeQuanta(t).value|
    ensures DecodeQuanta(t).value[i] == ByteOf(Quad(t, GroupOf(i)), i % 3)
    decreases |t|
  {
    hide DecodeQuantum, Quad, ByteOf, GroupOf;
    First(i);
    var q := DecodeQuantum(t[..4]).value;
    FullQuantum(t[..4]);
    if i < |q| {
      QuantumBytes(t[..4], i);
      QuadShifts(t, 0);
    } else {
      DecodedDigits(t[4..], i - 3);
      Later(i);
      QuadShifts(t, GroupOf(i - 3));
    }
  }

  lemma Later(i: nat)
    requires i >= 3
    ensures GroupOf(i) == GroupOf(i - 3) + 4 && i % 3 == (i - 3) % 3
  {
  }

  lemma First(i: nat)
    ensures i < 3 ==> GroupOf(i) == 0 && i % 3 == i
  {
  }

  /** Line ends anywhere in the text make no difference to the decoder. */
  lemma {:induction false} LineEndsIgnored(a: string, e: char, b: string)
    requires e == '\r' || e == '\n'
    ensures Base64Decode(a + [e] + b) == Base64Decode(a + b)
  {
    StripIgnores(a, e, b);
  }

  lemma {:induction false} StripIgnores(a: string, e: char, b: string)
    requires e == '\r' || e == '\n'
    ensures Strip(a + [e] + b) == Strip(a + b)
    decreases |a|
  {
    if a == "" {
      assert a + [e] + b == [e] + b && a + b == b && ([e] + b)[1..] == b;
    } else {
      assert (a + [e] + b)[1..] == a[1..] + [e] + b && (a + b)[1..] == a[1..] + b;
      StripIgnores(a[1..], e, b);
    }
  }

  /** Nothing else is dropped: a character outside the alphabets is left as it is by both tables. */
  lemma ForeignStays(c: char)
    ensures c !in PLAIN ==> Substituted(c, EncodeTable()) == c
    ensures c !in MAPPED ==> Substituted(c, DecodeTable()) == c
  {
    Alphabets();
    assert PLAIN[..|PLAIN|] == PLAIN && MAPPED[..|MAPPED|] == MAPPED;
    SubstitutedIs(c, PLAIN, MAPPED);
    SubstitutedIs(c, MAPPED, PLAIN);
    hide Distinct, Substituted, Pairs;
  }
}
