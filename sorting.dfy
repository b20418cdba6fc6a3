/** `sorted(d.items())` for a dictionary of strings: Python compares strings code point
    by code point, a proper prefix first, and compares pairs by key, then by value. */
module Sorting {

  /** `a < b` on Python strings. */
  predicate StrLt(a: string, b: string)
    decreases |a|
  {
    if a == [] then b != []
    else if b == [] then false
    else if a[0] != b[0] then a[0] < b[0]
    else StrLt(a[1..], b[1..])
  }

  lemma {:induction false} StrLtIrreflexive(a: string)
    ensures !StrLt(a, a)
    decreases |a|
  {
    if a != [] {
      StrLtIrreflexive(a[1..]);
    }
  }

  /** Two distinct strings are ordered one way or the other, and never both ways. */
  lemma {:induction false} StrLtTotal(a: string, b: string)
    ensures a != b ==> StrLt(a, b) || StrLt(b, a)
    ensures !(StrLt(a, b) && StrLt(b, a))
    decreases |a|
  {
    if a != [] && b != [] && a[0] == b[0] {
      StrLtTotal(a[1..], b[1..]);
      if a != b {
        assert a == [a[0]] + a[1..] && b == [b[0]] + b[1..];
      }
    }
  }

  lemma {:induction false} StrLtTransitive(a: string, b: string, c: string)
    requires StrLt(a, b) && StrLt(b, c)
    ensures StrLt(a, c)
    decreases |a|
  {
    if a != [] && b != [] && c != [] && a[0] == b[0] && b[0] == c[0] {
      StrLtTransitive(a[1..], b[1..], c[1..]);
    }
  }

  type Pair = (string, string)

  /** `x <= y` on `(key, value)` tuples. */
  predicate PairLe(x: Pair, y: Pair) {
    x == y || StrLt(x.0, y.0) || (x.0 == y.0 && StrLt(x.1, y.1))
  }

  lemma PairLeTotal(x: Pair, y: Pair)
    ensures PairLe(x, y) || PairLe(y, x)
  {
    StrLtTotal(x.0, y.0);
    StrLtTotal(x.1, y.1);
  }

  lemma PairLeTransitive(x: Pair, y: Pair, z: Pair)
    requires PairLe(x, y) && PairLe(y, z)
    ensures PairLe(x, z)
  {
    if x != y && y != z {
      if StrLt(x.0, y.0) && StrLt(y.0, z.0) {
        StrLtTransitive(x.0, y.0, z.0);
      } else if StrLt(x.0, y.0) || StrLt(y.0, z.0) {
      } else {
        StrLtTransitive(x.1, y.1, z.1);
      }
    }
  }

  predicate Sorted(s: seq<Pair>) {
    forall i, j :: 0 <= i < j < |s| ==> PairLe(s[i], s[j])
  }

  /** Insert `x` before the first element it does not exceed. */
  function Insert(x: Pair, s: seq<Pair>): seq<Pair>
  {
    if s == [] then [x]
    else if PairLe(x, s[0]) then [x] + s
    else [s[0]] + Insert(x, s[1..])
  }

  /** The sorted list of the items. */
  function SortPairs(s: seq<Pair>): seq<Pair>
  {
    if s == [] then [] else Insert(s[0], SortPairs(s[1..]))
  }

  lemma {:induction false} InsertSorted(x: Pair, s: seq<Pair>)
    requires Sorted(s)
    ensures Sorted(Insert(x, s))
    ensures multiset(Insert(x, s)) == multiset(s) + multiset{x}
    ensures forall y :: y in Insert(x, s) <==> y == x || y in s
  {
    if s == [] {
    } else if PairLe(x, s[0]) {
      var r := [x] + s;
      forall i, j | 0 <= i < j < |r| ensures PairLe(r[i], r[j]) {
        if i == 0 {
          PairLeTransitive(x, s[0], s[j - 1]);
        }
      }
    } else {
      PairLeTotal(x, s[0]);
      InsertSorted(x, s[1..]);
      var t := Insert(x, s[1..]);
      var r := [s[0]] + t;
      forall i, j | 0 <= i < j < |r| ensures PairLe(r[i], r[j]) {
        if i == 0 {
          assert r[j] in t;
        }
      }
      assert s == [s[0]] + s[1..];
    }
  }

  /** The sorted items are in ascending order, so their keys do not decrease, and they
      are the same items, each as often. */
  lemma {:induction false} SortPairsCorrect(s: seq<Pair>)
    ensures Sorted(SortPairs(s))
    ensures forall i, j :: 0 <= i < j < |SortPairs(s)| ==>
      SortPairs(s)[i].0 == SortPairs(s)[j].0 || StrLt(SortPairs(s)[i].0, SortPairs(s)[j].0)
    ensures multiset(SortPairs(s)) == multiset(s) && |SortPairs(s)| == |s|
  {
    if s != [] {
      SortPairsCorrect(s[1..]);
      InsertSorted(s[0], SortPairs(s[1..]));
      assert s == [s[0]] + s[1..];
    }
  }
}
