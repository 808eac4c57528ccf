/** Rust's stable `sort_by_key`, used both by the image parser and by the strip. */
module Sorting {

  ghost predicate SortedBy<T>(s: seq<T>, key: T -> int) {
    forall i, j :: 0 <= i < j < |s| ==> key(s[i]) <= key(s[j])
  }

  /** Put an element that came first in front of every element with at least its key. */
  function Insert<T>(x: T, s: seq<T>, key: T -> int): seq<T> {
    if s == [] || key(x) <= key(s[0]) then [x] + s else [s[0]] + Insert(x, s[1..], key)
  }

  function StableSort<T>(s: seq<T>, key: T -> int): seq<T> {
    if s == [] then [] else Insert(s[0], StableSort(s[1..], key), key)
  }

  /** The elements with key `k`, in order. */
  function Select<T>(s: seq<T>, key: T -> int, k: int): seq<T> {
    if s == [] then []
    else (if key(s[0]) == k then [s[0]] else []) + Select(s[1..], key, k)
  }

  lemma {:induction false} InsertKeepsAll<T>(x: T, s: seq<T>, key: T -> int)
    ensures multiset(Insert(x, s, key)) == multiset([x] + s)
  {
    if s != [] && key(x) > key(s[0]) {
      InsertKeepsAll(x, s[1..], key);
      assert s == [s[0]] + s[1..];
      assert multiset(Insert(x, s, key)) == multiset([s[0]]) + multiset(Insert(x, s[1..], key));
      assert multiset([x] + s[1..]) == multiset([x]) + multiset(s[1..]);
    }
  }

  lemma {:induction false} InsertSorted<T>(x: T, s: seq<T>, key: T -> int)
    requires SortedBy(s, key)
    ensures SortedBy(Insert(x, s, key), key)
  {
    if s != [] && key(x) > key(s[0]) {
      InsertSorted(x, s[1..], key);
      forall i | 0 <= i < |s[1..]| ensures key(s[1..][i]) >= key(s[0]) {
        assert s[1..][i] == s[i + 1];
      }
      InsertAbove(x, s[1..], key, key(s[0]));
      ConsSorted(s[0], Insert(x, s[1..], key), key);
    }
  }

  /** No key lies below `k`. */
  ghost predicate Above<T>(s: seq<T>, key: T -> int, k: int) { forall i :: 0 <= i < |s| ==> key(s[i]) >= k }

  lemma InsertAbove<T>(x: T, s: seq<T>, key: T -> int, k: int)
    requires Above(s, key, k) && key(x) >= k
    ensures Above(Insert(x, s, key), key, k)
  {
    hide Insert;
    InsertKeepsAll(x, s, key);
    var t := Insert(x, s, key);
    forall i | 0 <= i < |t| ensures key(t[i]) >= k {
      assert t[i] in multiset(t);
      assert t[i] in [x] + s;
    }
  }

  lemma ConsSorted<T>(x: T, s: seq<T>, key: T -> int)
    requires SortedBy(s, key) && Above(s, key, key(x))
    ensures SortedBy([x] + s, key)
  {
  }

  lemma {:induction false} InsertStable<T>(x: T, s: seq<T>, key: T -> int, k: int)
    ensures Select(Insert(x, s, key), key, k) == Select([x] + s, key, k)
  {
    assert ([x] + s)[1..] == s;
    if s != [] && key(x) > key(s[0]) {
      InsertStable(x, s[1..], key, k);
      assert ([x] + s[1..])[1..] == s[1..];
      assert Insert(x, s, key)[1..] == Insert(x, s[1..], key);
    } else {
      assert Insert(x, s, key) == [x] + s;
    }
  }

  /** The sort is a permutation, ordered by key, and keeps equal keys in their original order. */
  lemma {:induction false} StableSortSound<T>(s: seq<T>, key: T -> int)
    ensures SortedBy(StableSort(s, key), key)
    ensures multiset(StableSort(s, key)) == multiset(s)
    ensures forall k :: Select(StableSort(s, key), key, k) == Select(s, key, k)
  {
    if s != [] {
      StableSortSound(s[1..], key);
      assert s == [s[0]] + s[1..];
      InsertSorted(s[0], StableSort(s[1..], key), key);
      InsertKeepsAll(s[0], StableSort(s[1..], key), key);
      forall k ensures Select(StableSort(s, key), key, k) == Select(s, key, k) {
        InsertStable(s[0], StableSort(s[1..], key), key, k);
        assert ([s[0]] + StableSort(s[1..], key))[1..] == StableSort(s[1..], key);
      }
    }
  }

  lemma SortLength<T>(s: seq<T>, key: T -> int)
    ensures |StableSort(s, key)| == |s|
    ensures forall x :: x in StableSort(s, key) <==> x in s
  {
    StableSortSound(s, key);
    assert |multiset(StableSort(s, key))| == |StableSort(s, key)|;
    assert forall x :: x in multiset(s) <==> x in s;
    assert forall x :: x in multiset(StableSort(s, key)) <==> x in StableSort(s, key);
  }

  /** A list is a fixed point of the sort exactly when it is already in order. */
  lemma {:induction false} SortFixedPoint<T>(s: seq<T>, key: T -> int)
    ensures StableSort(s, key) == s <==> SortedBy(s, key)
  {
    StableSortSound(s, key);
    if SortedBy(s, key) && s != [] {
      SortFixedPoint(s[1..], key);
      assert StableSort(s[1..], key) == s[1..];
    }
  }

  /** Appending an element no smaller than the rest appends it to the sorted list. */
  lemma {:induction false} SortAppendLargest<T>(s: seq<T>, x: T, key: T -> int)
    requires SortedBy(s, key)
    requires forall y :: y in s ==> key(y) <= key(x)
    ensures StableSort(s + [x], key) == s + [x]
  {
    assert SortedBy(s + [x], key) by {
      forall i, j | 0 <= i < j < |s + [x]| ensures key((s + [x])[i]) <= key((s + [x])[j]) {
        if j == |s| {
          assert s[i] in s;
        }
      }
    }
    SortFixedPoint(s + [x], key);
  }

  // ---- sorting a longer list ----

  /** Put an element that came last behind every element with at most its key. */
  function InsertLast<T>(s: seq<T>, x: T, key: T -> int): seq<T> {
    if s == [] || key(x) < key(s[0]) then [x] + s else [s[0]] + InsertLast(s[1..], x, key)
  }

  lemma {:induction false} InsertsCommute<T>(x: T, s: seq<T>, y: T, key: T -> int)
    ensures Insert(x, InsertLast(s, y, key), key) == InsertLast(Insert(x, s, key), y, key)
  {
    if s == [] {
      assert [x] + [] == [x] && [y] + [] == [y] && [x, y][1..] == [y] && [x][1..] == [] && [y][1..] == [];
    } else if key(y) < key(s[0]) {
      assert ([y] + s)[1..] == s && ([x] + s)[1..] == s;
    } else if key(x) <= key(s[0]) {
      assert ([x] + s)[1..] == s;
    } else {
      InsertsCommute(x, s[1..], y, key);
      assert ([s[0]] + InsertLast(s[1..], y, key))[1..] == InsertLast(s[1..], y, key);
      assert ([s[0]] + Insert(x, s[1..], key))[1..] == Insert(x, s[1..], key);
    }
  }

  lemma {:induction false} SortSnoc<T>(s: seq<T>, x: T, key: T -> int)
    ensures StableSort(s + [x], key) == InsertLast(StableSort(s, key), x, key)
  {
    if s == [] {
      assert [] + [x] == [x] && [x][1..] == [];
    } else {
      assert (s + [x])[1..] == s[1..] + [x];
      SortSnoc(s[1..], x, key);
      InsertsCommute(s[0], StableSort(s[1..], key), x, key);
    }
  }

  /** Lists that sort alike still do with the same element behind them; with different ones they do not. */
  lemma SortSnocAlike<T>(a: seq<T>, b: seq<T>, x: T, y: T, key: T -> int)
    requires StableSort(a, key) == StableSort(b, key)
    ensures StableSort(a + [x], key) == StableSort(b + [y], key) <==> x == y
  {
    SortSnoc(a, x, key);
    SortSnoc(b, y, key);
    if x != y {
      StableSortSound(a, key);
      StableSortSound(b, key);
      StableSortSound(a + [x], key);
      StableSortSound(b + [y], key);
      assert multiset(a + [x]) == multiset(a) + multiset{x} && multiset(b + [y]) == multiset(b) + multiset{y};
      assert (multiset(a) + multiset{x})[x] == multiset(a)[x] + 1;
      assert (multiset(b) + multiset{y})[x] == multiset(b)[x];
    }
  }

  // ---- repetition and projections ----

  ghost predicate NoDup<T>(s: seq<T>) { forall i, j :: 0 <= i < j < |s| ==> s[i] != s[j] }

  lemma {:induction false} NoDupMultiplicity<T>(s: seq<T>)
    ensures NoDup(s) <==> forall x :: x in s ==> multiset(s)[x] == 1
  {
    if s != [] {
      NoDupMultiplicity(s[1..]);
      assert s == [s[0]] + s[1..];
      assert multiset(s) == multiset{s[0]} + multiset(s[1..]);
      if NoDup(s) {
        assert NoDup(s[1..]);
        assert s[0] !in s[1..];
        forall x | x in s ensures multiset(s)[x] == 1 {
          if x != s[0] {
            assert x in s[1..];
          }
        }
      }
      if forall x :: x in s ==> multiset(s)[x] == 1 {
        assert multiset(s)[s[0]] == 1;
        assert s[0] !in multiset(s[1..]) && s[0] !in s[1..];
        forall x | x in s[1..] ensures multiset(s[1..])[x] == 1 {
          assert x in s;
        }
        forall i, j | 0 <= i < j < |s| ensures s[i] != s[j] {
          assert s[j] == s[1..][j - 1];
          if i > 0 {
            assert s[i] == s[1..][i - 1];
          }
        }
      }
    }
  }


  lemma PermutedNoDup<T>(a: seq<T>, b: seq<T>)
    requires multiset(a) == multiset(b)
    ensures |a| == |b| && (NoDup(a) <==> NoDup(b)) && forall x :: x in a <==> x in b
  {
    assert |multiset(a)| == |a| && |multiset(b)| == |b|;
    assert forall x :: (x in a <==> x in multiset(a)) && (x in b <==> x in multiset(b));
    NoDupMultiplicity(a);
    NoDupMultiplicity(b);
  }

  function Projected<T, U>(s: seq<T>, f: T -> U): seq<U> { seq(|s|, i requires 0 <= i < |s| => f(s[i])) }

  lemma {:induction false} ProjectedInserted<T, U>(x: T, s: seq<T>, key: T -> int, f: T -> U)
    ensures multiset(Projected(Insert(x, s, key), f)) == multiset{f(x)} + multiset(Projected(s, f))
  {
    if s == [] || key(x) <= key(s[0]) {
      assert Projected([x] + s, f) == [f(x)] + Projected(s, f);
    } else {
      var t := Insert(x, s[1..], key);
      ProjectedInserted(x, s[1..], key, f);
      assert Projected([s[0]] + t, f) == [f(s[0])] + Projected(t, f);
      assert Projected(s, f) == [f(s[0])] + Projected(s[1..], f);
    }
  }

  /** Sorting permutes any projection of the elements. */
  lemma {:induction false} ProjectedSorted<T, U>(s: seq<T>, key: T -> int, f: T -> U)
    ensures multiset(Projected(StableSort(s, key), f)) == multiset(Projected(s, f))
  {
    if s != [] {
      ProjectedSorted(s[1..], key, f);
      ProjectedInserted(s[0], StableSort(s[1..], key), key, f);
      assert Projected(s, f) == [f(s[0])] + Projected(s[1..], f);
    }
  }
}
