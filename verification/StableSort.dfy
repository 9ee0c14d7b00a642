/** Python's stable sort by a numeric key, and what makes it the only one. */
module StableSort {

  ghost predicate SortedBy<T(!new)>(key: T -> real, xs: seq<T>) {
    forall i, j :: 0 <= i < j < |xs| ==> key(xs[i]) <= key(xs[j])
  }

  // Put x before the first element whose key is not smaller.
  function Insert<T(!new)>(key: T -> real, x: T, xs: seq<T>): seq<T> {
    if xs == [] || key(x) <= key(xs[0]) then [x] + xs
    else [xs[0]] + Insert(key, x, xs[1..])
  }

  function Sort<T(!new)>(key: T -> real, xs: seq<T>): seq<T> {
    if xs == [] then [] else Insert(key, xs[0], Sort(key, xs[1..]))
  }

  // The elements carrying one key, in the order they stand.
  function WithKey<T(!new)>(key: T -> real, k: real, xs: seq<T>): seq<T> {
    if xs == [] then []
    else (if key(xs[0]) == k then [xs[0]] else []) + WithKey(key, k, xs[1..])
  }

  lemma {:induction false} InsertPermutes<T(!new)>(key: T -> real, x: T, xs: seq<T>)
    ensures multiset(Insert(key, x, xs)) == multiset{x} + multiset(xs)
  {
    if xs != [] && key(x) > key(xs[0]) {
      InsertPermutes(key, x, xs[1..]);
      assert xs == [xs[0]] + xs[1..];
    }
  }

  lemma {:induction false} InsertSorted<T(!new)>(key: T -> real, x: T, xs: seq<T>)
    requires SortedBy(key, xs)
    ensures SortedBy(key, Insert(key, x, xs))
  {
    if xs != [] && key(x) > key(xs[0]) {
      var t := Insert(key, x, xs[1..]);
      InsertSorted(key, x, xs[1..]);
      InsertPermutes(key, x, xs[1..]);
      forall i | 0 <= i < |t| ensures key(xs[0]) <= key(t[i]) {
        assert t[i] in multiset(t);
        assert t[i] == x || t[i] in xs[1..];
      }
    }
  }

  lemma WithKeyCons<T(!new)>(key: T -> real, k: real, x: T, xs: seq<T>)
    ensures WithKey(key, k, [x] + xs) == (if key(x) == k then [x] else []) + WithKey(key, k, xs)
  {
    assert ([x] + xs)[1..] == xs;
  }

  lemma {:induction false} InsertFirstAmongEquals<T(!new)>(key: T -> real, x: T, xs: seq<T>, k: real)
    ensures WithKey(key, k, Insert(key, x, xs)) == (if key(x) == k then [x] else []) + WithKey(key, k, xs)
    decreases xs
  {
    if xs == [] || key(x) <= key(xs[0]) {
      WithKeyCons(key, k, x, xs);
    } else {
      hide WithKey;
      var y, rest := xs[0], xs[1..];
      InsertFirstAmongEquals(key, x, rest, k);
      WithKeyCons(key, k, y, Insert(key, x, rest));
      WithKeyCons(key, k, y, rest);
      assert xs == [y] + rest;
      assert key(x) != key(y);
    }
  }

  // Sorted, a permutation, and elements with equal keys keep their order.
  lemma {:induction false} SortIsStable<T(!new)>(key: T -> real, xs: seq<T>)
    ensures SortedBy(key, Sort(key, xs))
    ensures multiset(Sort(key, xs)) == multiset(xs)
    ensures forall k :: WithKey(key, k, Sort(key, xs)) == WithKey(key, k, xs)
  {
    if xs != [] {
      SortIsStable(key, xs[1..]);
      var t := Sort(key, xs[1..]);
      InsertSorted(key, xs[0], t);
      InsertPermutes(key, xs[0], t);
      forall k ensures WithKey(key, k, Sort(key, xs)) == WithKey(key, k, xs) {
        InsertFirstAmongEquals(key, xs[0], t, k);
        assert WithKey(key, k, t) == WithKey(key, k, xs[1..]);
      }
      assert xs == [xs[0]] + xs[1..];
    }
  }

  lemma {:induction false} WithKeyOfSmaller<T(!new)>(key: T -> real, k: real, xs: seq<T>)
    requires forall i :: 0 <= i < |xs| ==> k < key(xs[i])
    ensures WithKey(key, k, xs) == []
  {
    if xs != [] {
      WithKeyOfSmaller(key, k, xs[1..]);
    }
  }

  lemma {:induction false} SameKeyHead<T(!new)>(key: T -> real, xs: seq<T>, ys: seq<T>)
    requires SortedBy(key, xs) && SortedBy(key, ys)
    requires forall k :: WithKey(key, k, xs) == WithKey(key, k, ys)
    requires xs != []
    ensures ys != [] && key(ys[0]) <= key(xs[0])
  {
    var k := key(xs[0]);
    assert WithKey(key, k, ys) == WithKey(key, k, xs) != [];
    if k < key(ys[0]) {
      WithKeyOfSmaller(key, k, ys);
    }
  }

  // Two sorted lists that agree key by key are the same list: the stable sort is unique.
  lemma {:induction false} StableSortUnique<T(!new)>(key: T -> real, xs: seq<T>, ys: seq<T>)
    requires SortedBy(key, xs) && SortedBy(key, ys)
    requires forall k :: WithKey(key, k, xs) == WithKey(key, k, ys)
    ensures xs == ys
  {
    if xs == [] && ys != [] {
      SameKeyHead(key, ys, xs);
    } else if xs != [] {
      SameKeyHead(key, xs, ys);
      SameKeyHead(key, ys, xs);
      var k := key(xs[0]);
      assert WithKey(key, k, xs)[0] == xs[0] && WithKey(key, k, ys)[0] == ys[0];
      forall k ensures WithKey(key, k, xs[1..]) == WithKey(key, k, ys[1..]) {
        assert WithKey(key, k, xs) == WithKey(key, k, ys);
        var h := if key(xs[0]) == k then [xs[0]] else [];
        assert (h + WithKey(key, k, xs[1..]))[|h|..] == WithKey(key, k, xs[1..]);
        assert (h + WithKey(key, k, ys[1..]))[|h|..] == WithKey(key, k, ys[1..]);
      }
      StableSortUnique(key, xs[1..], ys[1..]);
      assert xs == [xs[0]] + xs[1..] && ys == [ys[0]] + ys[1..];
    }
  }
}
