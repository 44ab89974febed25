// sort.Slice by a string key, ordered byte by byte as Go orders strings
// (internal/pool/pool.go:65, internal/qoder/catalog.go:173). Among equal keys the source leaves
// the order open; here the earlier element stays first.

module Sorting {
  // a <= b in the order of Go's strings.
  predicate AtMost(a: string, b: string) {
    a == "" || (b != "" && (a[0] < b[0] || (a[0] == b[0] && AtMost(a[1..], b[1..]))))
  }

  // The first difference between the two is at k, and a has the smaller character there.
  predicate SmallerAt(a: string, b: string, k: int) {
    0 <= k < |a| && k < |b| && a[..k] == b[..k] && a[k] < b[k]
  }

  lemma SmallerLater(a: string, b: string, k: int)
    requires a != "" && b != "" && a[0] == b[0] && k > 0
    ensures SmallerAt(a, b, k) <==> SmallerAt(a[1..], b[1..], k - 1)
  {
    if k < |a| && k < |b| {
      assert a[..k] == [a[0]] + a[1..][..k - 1] && b[..k] == [b[0]] + b[1..][..k - 1];
      assert a[..k][1..] == a[1..][..k - 1] && b[..k][1..] == b[1..][..k - 1];
    }
  }

  lemma DifferAtFront(a: string, b: string, k: int)
    requires 0 <= k < |a| && k < |b| && a[0] != b[0]
    ensures a[..k] == b[..k] ==> k == 0
  {
    if k > 0 {
      assert a[..k][0] == a[0] && b[..k][0] == b[0];
    }
  }

  /** The order: a prefix comes first, otherwise the smaller character at the first difference. */
  lemma {:induction false} AtMostIsLexical(a: string, b: string)
    ensures AtMost(a, b) <==> a <= b || exists k :: SmallerAt(a, b, k)
  {
    if a != "" && b != "" && a[0] == b[0] {
      AtMostIsLexical(a[1..], b[1..]);
      assert a == [a[0]] + a[1..] && b == [b[0]] + b[1..];
      if k :| SmallerAt(a[1..], b[1..], k) {
        SmallerLater(a, b, k + 1);
      }
      if k :| SmallerAt(a, b, k) {
        SmallerLater(a, b, k);
      }
    } else if a != "" && b != "" {
      assert a[0] < b[0] ==> SmallerAt(a, b, 0);
      if k :| SmallerAt(a, b, k) {
        DifferAtFront(a, b, k);
      }
    }
  }

  lemma {:induction false} AtMostTotal(a: string, b: string)
    ensures AtMost(a, b) || AtMost(b, a)
  {
    if a != "" && b != "" && a[0] == b[0] {
      AtMostTotal(a[1..], b[1..]);
    }
  }

  lemma {:induction false} AtMostTransitive(a: string, b: string, c: string)
    requires AtMost(a, b) && AtMost(b, c)
    ensures AtMost(a, c)
  {
    if a != "" && a[0] == b[0] == c[0] {
      AtMostTransitive(a[1..], b[1..], c[1..]);
    }
  }

  /** Two keys that are each at most the other are the same, so distinct keys leave no choice. */
  lemma {:induction false} AtMostAntisymmetric(a: string, b: string)
    requires AtMost(a, b) && AtMost(b, a)
    ensures a == b
  {
    if a != "" {
      AtMostAntisymmetric(a[1..], b[1..]);
    }
  }

  ghost predicate Ordered<T>(xs: seq<T>, key: T -> string) {
    forall i, j :: 0 <= i < j < |xs| ==> AtMost(key(xs[i]), key(xs[j]))
  }

  function Insert<T>(xs: seq<T>, x: T, key: T -> string): seq<T> {
    if xs == [] || AtMost(key(xs[|xs| - 1]), key(x)) then xs + [x]
    else Insert(xs[..|xs| - 1], x, key) + [xs[|xs| - 1]]
  }

  function Sorted<T>(xs: seq<T>, key: T -> string): seq<T> {
    if xs == [] then [] else Insert(Sorted(xs[..|xs| - 1], key), xs[|xs| - 1], key)
  }

  lemma {:induction false} InsertKeepsElements<T>(xs: seq<T>, x: T, key: T -> string)
    ensures multiset(Insert(xs, x, key)) == multiset(xs) + multiset{x}
  {
    if xs != [] && !AtMost(key(xs[|xs| - 1]), key(x)) {
      InsertKeepsElements(xs[..|xs| - 1], x, key);
      assert xs == xs[..|xs| - 1] + [xs[|xs| - 1]];
    }
  }

  lemma {:induction false} InsertKeepsOrder<T>(xs: seq<T>, x: T, key: T -> string)
    requires Ordered(xs, key)
    ensures Ordered(Insert(xs, x, key), key)
  {
    hide AtMost;
    if xs != [] {
      var front, last := xs[..|xs| - 1], xs[|xs| - 1];
      if AtMost(key(last), key(x)) {
        forall i | 0 <= i < |xs| ensures AtMost(key(xs[i]), key(x)) {
          if i < |xs| - 1 {
            AtMostTransitive(key(xs[i]), key(last), key(x));
          }
        }
      } else {
        AtMostTotal(key(last), key(x));
        InsertKeepsOrder(front, x, key);
        InsertKeepsElements(front, x, key);
        var r := Insert(front, x, key);
        forall i | 0 <= i < |r| ensures AtMost(key(r[i]), key(last)) {
          assert r[i] in multiset(r);
          assert r[i] == x || r[i] in front;
        }
      }
    }
  }

  /** The result is a permutation in the order of the keys. */
  lemma {:induction false} SortedIsOrdered<T>(xs: seq<T>, key: T -> string)
    ensures Ordered(Sorted(xs, key), key) && multiset(Sorted(xs, key)) == multiset(xs)
    ensures |Sorted(xs, key)| == |xs|
  {
    if xs != [] {
      var front := xs[..|xs| - 1];
      SortedIsOrdered(front, key);
      InsertKeepsOrder(Sorted(front, key), xs[|xs| - 1], key);
      InsertKeepsElements(Sorted(front, key), xs[|xs| - 1], key);
      assert xs == front + [xs[|xs| - 1]];
    }
    assert |multiset(Sorted(xs, key))| == |multiset(xs)|;
  }

  lemma LastIsMost<T>(xs: seq<T>, x: T, key: T -> string)
    requires Ordered(xs, key) && x in xs
    ensures AtMost(key(x), key(xs[|xs| - 1]))
  {
    var i :| 0 <= i < |xs| && xs[i] == x;
    if i == |xs| - 1 {
      AtMostTotal(key(x), key(x));
    }
  }

  lemma WithoutLast<T>(xs: seq<T>)
    requires xs != []
    ensures multiset(xs) == multiset(xs[..|xs| - 1]) + multiset{xs[|xs| - 1]}
  {
    assert xs == xs[..|xs| - 1] + [xs[|xs| - 1]];
  }

  lemma SameFronts<T>(xs: seq<T>, ys: seq<T>)
    requires multiset(xs) == multiset(ys) && xs != [] && ys != [] && xs[|xs| - 1] == ys[|ys| - 1]
    ensures multiset(xs[..|xs| - 1]) == multiset(ys[..|ys| - 1])
  {
    WithoutLast(xs);
    WithoutLast(ys);
    var last := multiset{xs[|xs| - 1]};
    assert multiset(xs[..|xs| - 1]) == multiset(xs) - last && multiset(ys[..|ys| - 1]) == multiset(ys) - last;
  }

  // Equal keys only where the elements are equal.
  ghost predicate Telling<T>(xs: seq<T>, key: T -> string) {
    forall x, y :: x in xs && y in xs && key(x) == key(y) ==> x == y
  }

  lemma SameLast<T>(xs: seq<T>, ys: seq<T>, key: T -> string)
    requires Ordered(xs, key) && Ordered(ys, key) && multiset(xs) == multiset(ys)
    requires Telling(xs, key) && xs != [] && ys != []
    ensures xs[|xs| - 1] == ys[|ys| - 1]
  {
    var x, y := xs[|xs| - 1], ys[|ys| - 1];
    assert x in multiset(ys) && y in multiset(xs);
    hide Ordered, AtMost;
    LastIsMost(xs, y, key);
    LastIsMost(ys, x, key);
    AtMostAntisymmetric(key(x), key(y));
  }

  lemma FrontIsOrdered<T>(xs: seq<T>, key: T -> string)
    requires Ordered(xs, key) && xs != []
    ensures Ordered(xs[..|xs| - 1], key) && (Telling(xs, key) ==> Telling(xs[..|xs| - 1], key))
  {
    hide AtMost;
  }

  lemma SameSize<T>(xs: seq<T>, ys: seq<T>)
    requires multiset(xs) == multiset(ys)
    ensures |xs| == |ys|
  {
    assert |multiset(xs)| == |multiset(ys)|;
  }

  /** Where equal keys mean equal elements the order leaves no choice: two ordered permutations of
      the same elements are the same list. */
  lemma {:induction false} OrderIsUnique<T>(xs: seq<T>, ys: seq<T>, key: T -> string)
    requires Ordered(xs, key) && Ordered(ys, key) && multiset(xs) == multiset(ys)
    requires Telling(xs, key)
    ensures xs == ys
  {
    hide Ordered, Telling;
    SameSize(xs, ys);
    if xs != [] {
      var n := |xs| - 1;
      SameLast(xs, ys, key);
      FrontIsOrdered(xs, key);
      FrontIsOrdered(ys, key);
      SameFronts(xs, ys);
      OrderIsUnique(xs[..n], ys[..n], key);
      assert xs == xs[..n] + [xs[n]] && ys == ys[..n] + [ys[n]];
    }
  }
}
