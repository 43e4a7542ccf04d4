/** Sorting by a pair of strings, as `sorted` orders tuples of strings. */
module Sorting {
  type Key = (string, string)

  predicate TextLe(a: string, b: string) {
    a == "" || (b != "" && (a[0] < b[0] || (a[0] == b[0] && TextLe(a[1..], b[1..]))))
  }

  predicate KeyLe(a: Key, b: Key) {
    if a.0 == b.0 then TextLe(a.1, b.1) else TextLe(a.0, b.0)
  }

  lemma {:induction false} TextTotal(a: string, b: string)
    ensures TextLe(a, a)
    ensures TextLe(a, b) || TextLe(b, a)
    ensures TextLe(a, b) && TextLe(b, a) ==> a == b
  {
    if a != "" {
      TextTotal(a[1..], if b == "" then "" else b[1..]);
      if b != "" && a[0] == b[0] && TextLe(a, b) && TextLe(b, a) {
        assert a == [a[0]] + a[1..] && b == [b[0]] + b[1..];
      }
    }
  }

  lemma {:induction false} TextTransitive(a: string, b: string, c: string)
    requires TextLe(a, b) && TextLe(b, c)
    ensures TextLe(a, c)
  {
    if a != "" && a[0] == b[0] && b[0] == c[0] {
      TextTransitive(a[1..], b[1..], c[1..]);
    }
  }

  lemma KeyTotal(a: Key, b: Key)
    ensures KeyLe(a, a)
    ensures KeyLe(a, b) || KeyLe(b, a)
    ensures KeyLe(a, b) && KeyLe(b, a) ==> a == b
  {
    TextTotal(a.0, b.0);
    TextTotal(a.1, b.1);
  }

  lemma KeyTransitive(a: Key, b: Key, c: Key)
    requires KeyLe(a, b) && KeyLe(b, c)
    ensures KeyLe(a, c)
  {
    TextTotal(a.0, b.0);
    TextTotal(b.0, c.0);
    TextTotal(a.0, c.0);
    if a.0 == b.0 && b.0 == c.0 {
      TextTransitive(a.1, b.1, c.1);
    } else {
      TextTransitive(a.0, b.0, c.0);
    }
  }

  function Insert<T>(x: T, xs: seq<T>, key: T -> Key): seq<T> {
    if xs == [] then [x]
    else if KeyLe(key(x), key(xs[0])) then [x] + xs
    else [xs[0]] + Insert(x, xs[1..], key)
  }

  function SortBy<T>(xs: seq<T>, key: T -> Key): seq<T> {
    if xs == [] then [] else Insert(xs[0], SortBy(xs[1..], key), key)
  }

  predicate Sorted<T>(xs: seq<T>, key: T -> Key) {
    forall i, j :: 0 <= i < j < |xs| ==> KeyLe(key(xs[i]), key(xs[j]))
  }

  lemma {:induction false} InsertSorts<T>(x: T, xs: seq<T>, key: T -> Key)
    requires Sorted(xs, key)
    ensures Sorted(Insert(x, xs, key), key)
    ensures multiset(Insert(x, xs, key)) == multiset{x} + multiset(xs)
  {
    if xs == [] {
    } else if KeyLe(key(x), key(xs[0])) {
      forall j | 0 <= j < |xs|
        ensures KeyLe(key(x), key(xs[j]))
      {
        if j > 0 {
          KeyTransitive(key(x), key(xs[0]), key(xs[j]));
        }
      }
    } else {
      KeyTotal(key(x), key(xs[0]));
      InsertSorts(x, xs[1..], key);
      var rest := Insert(x, xs[1..], key);
      assert xs == [xs[0]] + xs[1..];
      forall j | 0 <= j < |rest|
        ensures KeyLe(key(xs[0]), key(rest[j]))
      {
        assert rest[j] in multiset(rest);
        if rest[j] != x {
          assert rest[j] in multiset(xs[1..]);
          assert rest[j] in xs[1..];
        }
      }
    }
  }

  lemma {:induction false} SortBySorts<T>(xs: seq<T>, key: T -> Key)
    ensures Sorted(SortBy(xs, key), key)
    ensures multiset(SortBy(xs, key)) == multiset(xs)
  {
    if xs != [] {
      SortBySorts(xs[1..], key);
      InsertSorts(xs[0], SortBy(xs[1..], key), key);
      assert xs == [xs[0]] + xs[1..];
    }
  }

  /** Equal keys mean equal elements. */
  ghost predicate KeyDecides<T(!new)>(xs: seq<T>, key: T -> Key) {
    forall x, y :: x in xs && y in xs && key(x) == key(y) ==> x == y
  }

  lemma SameTails<T>(xs: seq<T>, ys: seq<T>)
    requires xs != [] && ys != [] && multiset(xs) == multiset(ys) && xs[0] == ys[0]
    ensures multiset(xs[1..]) == multiset(ys[1..])
  {
    assert xs == [xs[0]] + xs[1..] && ys == [ys[0]] + ys[1..];
    assert multiset(xs[1..]) == multiset(xs) - multiset{xs[0]};
    assert multiset(ys[1..]) == multiset(ys) - multiset{ys[0]};
  }

  /** A sorted arrangement is unique when keys decide elements. */
  lemma {:induction false} SortedUnique<T(!new)>(xs: seq<T>, ys: seq<T>, key: T -> Key)
    requires Sorted(xs, key) && Sorted(ys, key)
    requires multiset(xs) == multiset(ys) && KeyDecides(xs, key)
    ensures xs == ys
  {
    if xs == [] {
      assert |multiset(ys)| == 0;
    } else {
      assert |multiset(xs)| == |multiset(ys)|;
      assert xs[0] in multiset(ys) && ys[0] in multiset(xs);
      assert xs[0] in ys && ys[0] in xs;
      var i :| 0 <= i < |ys| && ys[i] == xs[0];
      var j :| 0 <= j < |xs| && xs[j] == ys[0];
      KeyTotal(key(xs[0]), key(ys[0]));
      assert key(xs[0]) == key(ys[0]);
      SameTails(xs, ys);
      SortedUnique(xs[1..], ys[1..], key);
    }
  }

  /** So sorting forgets the order it was given. */
  lemma SortForgetsOrder<T(!new)>(xs: seq<T>, ys: seq<T>, key: T -> Key)
    requires multiset(xs) == multiset(ys) && KeyDecides(xs, key)
    ensures SortBy(xs, key) == SortBy(ys, key)
  {
    SortBySorts(xs, key);
    SortBySorts(ys, key);
    var s := SortBy(xs, key);
    forall x, y | x in s && y in s && key(x) == key(y)
      ensures x == y
    {
      assert x in multiset(s) && y in multiset(s);
      assert x in multiset(xs) && y in multiset(xs);
    }
    SortedUnique(s, SortBy(ys, key), key);
  }

  function MapSeq<A, B>(xs: seq<A>, f: A -> B): (r: seq<B>)
    ensures |r| == |xs| && forall i :: 0 <= i < |xs| ==> r[i] == f(xs[i])
  {
    if xs == [] then [] else [f(xs[0])] + MapSeq(xs[1..], f)
  }

  lemma {:induction false} InsertMaps<A, B>(x: A, xs: seq<A>, f: A -> B, keyA: A -> Key, keyB: B -> Key)
    requires keyB(f(x)) == keyA(x) && forall y :: y in xs ==> keyB(f(y)) == keyA(y)
    ensures Insert(f(x), MapSeq(xs, f), keyB) == MapSeq(Insert(x, xs, keyA), f)
  {
    if xs == [] {
      assert MapSeq([x], f) == [f(x)];
    } else {
      assert xs[0] in xs;
      assert MapSeq(xs, f)[1..] == MapSeq(xs[1..], f);
      InsertMaps(x, xs[1..], f, keyA, keyB);
      if KeyLe(keyA(x), keyA(xs[0])) {
        assert ([x] + xs)[1..] == xs;
      } else {
        assert ([xs[0]] + Insert(x, xs[1..], keyA))[1..] == Insert(x, xs[1..], keyA);
      }
    }
  }

  /** Sorting images by the same keys is the image of sorting. */
  lemma {:induction false} SortMaps<A, B>(xs: seq<A>, f: A -> B, keyA: A -> Key, keyB: B -> Key)
    requires forall y :: y in xs ==> keyB(f(y)) == keyA(y)
    ensures SortBy(MapSeq(xs, f), keyB) == MapSeq(SortBy(xs, keyA), f)
  {
    if xs != [] {
      SortMaps(xs[1..], f, keyA, keyB);
      SortBySorts(xs[1..], keyA);
      assert xs[0] in xs;
      forall y | y in SortBy(xs[1..], keyA)
        ensures keyB(f(y)) == keyA(y)
      {
        assert y in multiset(SortBy(xs[1..], keyA));
        assert y in multiset(xs[1..]);
        assert y in xs;
      }
      InsertMaps(xs[0], SortBy(xs[1..], keyA), f, keyA, keyB);
      assert MapSeq(xs, f)[1..] == MapSeq(xs[1..], f);
    }
  }

  /** Sorting a sorted sequence changes nothing. */
  lemma {:induction false} SortedStays<T>(xs: seq<T>, key: T -> Key)
    requires Sorted(xs, key)
    ensures SortBy(xs, key) == xs
  {
    if xs != [] {
      SortedStays(xs[1..], key);
      assert xs == [xs[0]] + xs[1..];
    }
  }
}
