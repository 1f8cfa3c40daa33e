/** Stable sorting by a real-valued key, as Python's `list.sort(key=...)`
    does it: ascending by key, and items with equal keys keep their order.
    The specification is insertion sort; `InsertionSort` runs it in place on
    an array. */
module Sorting {

  ghost predicate Sorted<T>(s: seq<T>, key: T -> real) {
    forall i, j | 0 <= i < j < |s| :: key(s[i]) <= key(s[j])
  }

  /** Puts `x` after the trailing items whose key exceeds its own, scanning
      from the end as insertion sort does; it never passes an item whose key
      is equal, which is what makes the sort stable. */
  function Insert<T>(s: seq<T>, x: T, key: T -> real): (r: seq<T>)
    ensures |r| == |s| + 1
    decreases |s|
  {
    if s == [] || key(s[|s| - 1]) <= key(x) then s + [x]
    else Insert(s[..|s| - 1], x, key) + [s[|s| - 1]]
  }

  function Sort<T>(s: seq<T>, key: T -> real): (r: seq<T>)
    ensures |r| == |s|
    decreases |s|
  {
    if s == [] then [] else Insert(Sort(s[..|s| - 1], key), s[|s| - 1], key)
  }

  /** The items of `s` whose key is `k`, in order. */
  function WithKey<T>(s: seq<T>, key: T -> real, k: real): seq<T>
    decreases |s|
  {
    if s == [] then []
    else WithKey(s[..|s| - 1], key, k) + (if key(s[|s| - 1]) == k then [s[|s| - 1]] else [])
  }

  lemma {:induction false} InsertCount<T>(s: seq<T>, x: T, key: T -> real)
    ensures |Insert(s, x, key)| == |s| + 1
    ensures multiset(Insert(s, x, key)) == multiset(s) + multiset{x}
    decreases |s|
  {
    if s != [] && key(s[|s| - 1]) > key(x) {
      var init := s[..|s| - 1];
      InsertCount(init, x, key);
      assert s == init + [s[|s| - 1]];
    }
  }

  lemma {:induction false} InsertSorted<T>(s: seq<T>, x: T, key: T -> real)
    requires Sorted(s, key)
    ensures Sorted(Insert(s, x, key), key)
    decreases |s|
  {
    if s != [] && key(s[|s| - 1]) > key(x) {
      var init, last := s[..|s| - 1], s[|s| - 1];
      InsertSorted(init, x, key);
      var t := Insert(init, x, key);
      InsertCount(init, x, key);
      forall i | 0 <= i < |t| ensures key(t[i]) <= key(last) {
        assert t[i] in multiset(init) + multiset{x} by { assert t[i] in multiset(t); }
        if t[i] != x {
          var j :| 0 <= j < |init| && init[j] == t[i];
        }
      }
    }
  }

  lemma {:induction false} WithKeyAppend<T>(a: seq<T>, b: seq<T>, key: T -> real, k: real)
    ensures WithKey(a + b, key, k) == WithKey(a, key, k) + WithKey(b, key, k)
    decreases |b|
  {
    if b != [] {
      var b' := b[..|b| - 1];
      WithKeyAppend(a, b', key, k);
      assert (a + b)[..|a + b| - 1] == a + b';
      assert (a + b)[|a + b| - 1] == b[|b| - 1];
    } else {
      assert a + b == a;
    }
  }

  lemma {:induction false} InsertWithKey<T>(s: seq<T>, x: T, key: T -> real, k: real)
    ensures WithKey(Insert(s, x, key), key, k) == WithKey(s + [x], key, k)
    decreases |s|
  {
    if s != [] && key(s[|s| - 1]) > key(x) {
      var init, last := s[..|s| - 1], s[|s| - 1];
      InsertWithKey(init, x, key, k);
      WithKeyAppend(Insert(init, x, key), [last], key, k);
      WithKeyAppend(init + [x], [last], key, k);
      WithKeyAppend(init, [x], key, k);
      WithKeyAppend(init, [last], key, k);
      WithKeyAppend(init + [last], [x], key, k);
      assert init + [last] == s;
      assert WithKey([x], key, k) + WithKey([last], key, k) == WithKey([last], key, k) + WithKey([x], key, k) by {
        assert WithKey([x], key, k) == if key(x) == k then [x] else [];
        assert WithKey([last], key, k) == if key(last) == k then [last] else [];
      }
    }
  }

  /** `Sort` returns a sorted permutation of its input in which the items of
      each key keep their input order: a stable sort. */
  lemma {:induction false} SortIsStableSort<T>(s: seq<T>, key: T -> real)
    ensures |Sort(s, key)| == |s|
    ensures multiset(Sort(s, key)) == multiset(s)
    ensures Sorted(Sort(s, key), key)
    ensures forall k :: WithKey(Sort(s, key), key, k) == WithKey(s, key, k)
    decreases |s|
  {
    if s != [] {
      var init, last := s[..|s| - 1], s[|s| - 1];
      SortIsStableSort(init, key);
      InsertCount(Sort(init, key), last, key);
      InsertSorted(Sort(init, key), last, key);
      assert s == init + [last];
      forall k ensures WithKey(Sort(s, key), key, k) == WithKey(s, key, k) {
        InsertWithKey(Sort(init, key), last, key, k);
        WithKeyAppend(Sort(init, key), [last], key, k);
        WithKeyAppend(init, [last], key, k);
      }
    }
  }

  lemma {:induction false} WithKeyAbsent<T>(s: seq<T>, key: T -> real, k: real)
    requires forall x | x in s :: key(x) != k
    ensures WithKey(s, key, k) == []
    decreases |s|
  {
    if s != [] {
      WithKeyAbsent(s[..|s| - 1], key, k);
    }
  }

  lemma {:induction false} WithKeyLast<T>(s: seq<T>, key: T -> real)
    requires s != []
    ensures var k := key(s[|s| - 1]);
      WithKey(s, key, k) == WithKey(s[..|s| - 1], key, k) + [s[|s| - 1]]
    ensures forall k | k != key(s[|s| - 1]) :: WithKey(s, key, k) == WithKey(s[..|s| - 1], key, k)
  {
  }

  /** Two sorted lists that agree on the order of the items of every key
      are equal: there is only one stable sort of a list, so `Sort` gives
      the same result as any other stable sorting algorithm. */
  lemma {:induction false} StableSortUnique<T>(t1: seq<T>, t2: seq<T>, key: T -> real)
    requires Sorted(t1, key) && Sorted(t2, key)
    requires forall k :: WithKey(t1, key, k) == WithKey(t2, key, k)
    ensures t1 == t2
    decreases |t1| + |t2|
  {
    if t1 == [] || t2 == [] {
      // the list that is not empty has an item with a key the other lacks
      if t1 != [] {
        WithKeyLast(t1, key);
      } else if t2 != [] {
        WithKeyLast(t2, key);
      }
    } else {
      var last1, last2 := t1[|t1| - 1], t2[|t2| - 1];
      WithKeyLast(t1, key);
      WithKeyLast(t2, key);
      if key(last1) < key(last2) {
        forall x | x in t1 ensures key(x) != key(last2) {
          var i :| 0 <= i < |t1| && t1[i] == x;
        }
        WithKeyAbsent(t1, key, key(last2));
      } else if key(last2) < key(last1) {
        forall x | x in t2 ensures key(x) != key(last1) {
          var i :| 0 <= i < |t2| && t2[i] == x;
        }
        WithKeyAbsent(t2, key, key(last1));
      } else {
        var k := key(last1);
        assert WithKey(t1, key, k)[|WithKey(t1, key, k)| - 1] == last1;
        assert WithKey(t2, key, k)[|WithKey(t2, key, k)| - 1] == last2;
        var init1, init2 := t1[..|t1| - 1], t2[..|t2| - 1];
        forall k' ensures WithKey(init1, key, k') == WithKey(init2, key, k') {
          if k' == k {
            var a, b := WithKey(init1, key, k), WithKey(init2, key, k);
            assert a + [last1] == b + [last2];
            assert |a| == |b|;
            assert a == (a + [last1])[..|a|] == (b + [last2])[..|b|] == b;
          } else {
            assert WithKey(t1, key, k') == WithKey(t2, key, k');
          }
        }
        StableSortUnique(init1, init2, key);
        assert t1 == init1 + [last1] && t2 == init2 + [last2];
      }
    }
  }

  /** Sorting a sorted list changes nothing. */
  lemma {:induction false} SortSorted<T>(s: seq<T>, key: T -> real)
    requires Sorted(s, key)
    ensures Sort(s, key) == s
    decreases |s|
  {
    if s != [] {
      var init, last := s[..|s| - 1], s[|s| - 1];
      assert Sorted(init, key);
      SortSorted(init, key);
      assert init == [] || key(init[|init| - 1]) <= key(last);
      assert Sort(s, key) == Insert(init, last, key) == init + [last];
      assert s == init + [last];
    }
  }

  /** Inserting into a prefix of a sorted list gives the same first `n`
      items as inserting into the whole list. */
  lemma {:induction false} InsertPrefix<T>(s: seq<T>, n: nat, x: T, key: T -> real)
    requires Sorted(s, key) && n <= |s|
    ensures Insert(s[..n], x, key)[..n] == Insert(s, x, key)[..n]
    decreases |s|
  {
    if n < |s| {
      var init, last := s[..|s| - 1], s[|s| - 1];
      if key(last) <= key(x) {
        assert Insert(s, x, key) == s + [x];
        if n > 0 {
          assert s[..n][n - 1] == s[n - 1];
          assert key(s[n - 1]) <= key(last);
          assert Insert(s[..n], x, key) == s[..n] + [x];
        }
      } else {
        assert Sorted(init, key);
        InsertPrefix(init, n, x, key);
        assert init[..n] == s[..n];
        assert Insert(s, x, key) == Insert(init, x, key) + [last];
      }
    } else {
      assert s[..n] == s;
    }
  }

  /** Sorting the first `n` items of a sorted list with one more item added,
      then keeping `n`, is keeping the first `n` of the whole list sorted
      with that item: dropping the most expensive after each addition loses
      nothing that a later addition would have needed. */
  lemma {:induction false} SortTruncated<T>(s: seq<T>, n: nat, x: T, key: T -> real)
    requires n <= |s|
    ensures |Sort(Sort(s, key)[..n] + [x], key)| == n + 1
    ensures Sort(Sort(s, key)[..n] + [x], key)[..n] == Sort(s + [x], key)[..n]
  {
    var sorted := Sort(s, key);
    SortIsStableSort(s, key);
    var p := sorted[..n];
    assert Sorted(p, key);
    SortSorted(p, key);
    assert (p + [x])[..n] == p;
    assert (s + [x])[..|s|] == s;
    InsertPrefix(sorted, n, x, key);
    InsertCount(p, x, key);
  }

  /** In a sorted list, nothing after position `n` has a smaller key than
      anything before it. */
  lemma SortedSplit<T>(s: seq<T>, n: nat, key: T -> real)
    requires Sorted(s, key) && n <= |s|
    ensures forall x, d | x in s[..n] && d in s[n..] :: key(x) <= key(d)
  {
    forall x, d | x in s[..n] && d in s[n..] ensures key(x) <= key(d) {
      var i :| 0 <= i < n && s[..n][i] == x;
      var j :| 0 <= j < |s| - n && s[n..][j] == d;
      assert s[i] == x && s[n + j] == d;
    }
  }

  /** `list.sort(key=key)` on a list held as a sequence: its items are put in
      an array, which is sorted in place. */
  method SortList<T>(s: seq<T>, key: T -> real) returns (r: seq<T>)
    ensures r == Sort(s, key)
  {
    var a := new T[|s|](i requires 0 <= i < |s| => s[i]);
    assert a[..] == s;
    InsertionSort(a, key);
    r := a[..];
  }

  /** Sorts `a` in place by `key`, stably: `a[..i]` is the sorted prefix to
      which each new item is added. */
  method InsertionSort<T>(a: array<T>, key: T -> real)
    modifies a
    ensures a[..] == Sort(old(a[..]), key)
  {
    ghost var orig := a[..];
    for i := 0 to a.Length
      invariant a[..i] == Sort(orig[..i], key)
      invariant a[i..] == orig[i..]
    {
      assert a[i] == orig[i] && a[i + 1..] == orig[i + 1..] by { assert a[i..][0] == a[i]; }
      InsertLast(a, i, key);
      assert orig[..i + 1][..i] == orig[..i];
    }
    assert a[..] == a[..a.Length] && orig == orig[..a.Length];
  }

  /** Moves `a[i]` left past the items of `a[..i]` whose key is strictly
      greater, so that `a[..i + 1]` becomes `Insert(a[..i], a[i])`. */
  method InsertLast<T>(a: array<T>, i: nat, key: T -> real)
    requires i < a.Length
    modifies a
    ensures a[..i + 1] == Insert(old(a[..i]), old(a[i]), key)
    ensures a[i + 1..] == old(a[i + 1..])
  {
    ghost var sorted := a[..i];
    ghost var x := a[i];
    var j := i;
    while j > 0 && key(a[j - 1]) > key(a[j])
      invariant 0 <= j <= i
      invariant a[..j] == sorted[..j]
      invariant a[j] == x
      invariant a[j + 1..i + 1] == sorted[j..]
      invariant a[i + 1..] == old(a[i + 1..])
      invariant forall m | j <= m < i :: key(sorted[m]) > key(x)
    {
      a[j - 1], a[j] := a[j], a[j - 1];
      j := j - 1;
    }
    InsertAt(sorted, j, x, key);
    assert a[..i + 1] == a[..j] + [a[j]] + a[j + 1..i + 1];
  }

  /** Where `Insert` puts `x`: after the items up to `j`, when the item
      before `j` does not exceed `x` and every item from `j` on does. */
  lemma {:induction false} InsertAt<T>(s: seq<T>, j: nat, x: T, key: T -> real)
    requires j <= |s|
    requires j == 0 || key(s[j - 1]) <= key(x)
    requires forall m | j <= m < |s| :: key(s[m]) > key(x)
    ensures Insert(s, x, key) == s[..j] + [x] + s[j..]
    decreases |s|
  {
    if j < |s| {
      var init := s[..|s| - 1];
      InsertAt(init, j, x, key);
      assert init[..j] == s[..j];
      assert init[j..] + [s[|s| - 1]] == s[j..];
    } else {
      assert s[..j] == s;
    }
  }
}
