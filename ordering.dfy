/**
 * Orders the core relies on: the iteration order of a `HashMap` (an input
 * listing each key once) and Rust's ordering of strings, which compares
 * character by character (the byte order of UTF-8 is the order of the code
 * points) with a proper prefix first.  `SortBy` is a stable sort, as
 * `slice::sort` and `slice::sort_by` are; a stable sort is determined by its
 * input, so any stable sort gives the same result.
 */
module Ordering {

  /** `order` lists the keys of `m`, each once: an iteration order of the map. */
  predicate IsOrder<V>(order: seq<string>, m: map<string, V>)
  {
    && (forall i :: 0 <= i < |order| ==> order[i] in m)
    && (forall k :: k in m ==> k in order)
    && (forall i, j :: 0 <= i < j < |order| ==> order[i] != order[j])
  }

  /** Every element of `order` is a key of `m`. */
  predicate Listed<V>(order: seq<string>, m: map<string, V>)
  {
    forall i :: 0 <= i < |order| ==> order[i] in m
  }

  /** `a <= b` in Rust's `Ord for str`. */
  predicate LessEq(a: string, b: string)
    decreases |a|
  {
    a == [] || (b != [] && (a[0] < b[0] || (a[0] == b[0] && LessEq(a[1..], b[1..]))))
  }

  function Id(s: string): string { s }

  /** Non-decreasing by `key`. */
  predicate Sorted<T>(s: seq<T>, key: T -> string)
  {
    forall i, j :: 0 <= i < j < |s| ==> LessEq(key(s[i]), key(s[j]))
  }

  /** `x` placed after every element whose key is not greater: stable insertion. */
  function Insert<T>(x: T, s: seq<T>, key: T -> string): (r: seq<T>)
    decreases |s|
  {
    if s == [] || LessEq(key(s[|s| - 1]), key(x)) then s + [x]
    else Insert(x, s[..|s| - 1], key) + [s[|s| - 1]]
  }

  /** Insertion sort, element by element from the first. */
  function SortBy<T>(s: seq<T>, key: T -> string): (r: seq<T>)
    decreases |s|
  {
    if s == [] then [] else Insert(s[|s| - 1], SortBy(s[..|s| - 1], key), key)
  }

  // ---------------------------------------------------------------- the string order is total

  lemma {:induction false} LessEqRefl(a: string)
    ensures LessEq(a, a)
    decreases |a|
  {
    if a != [] {
      LessEqRefl(a[1..]);
    }
  }

  lemma {:induction false} LessEqTotal(a: string, b: string)
    ensures LessEq(a, b) || LessEq(b, a)
    decreases |a|
  {
    if a != [] && b != [] && a[0] == b[0] {
      LessEqTotal(a[1..], b[1..]);
    }
  }

  lemma {:induction false} LessEqAntisym(a: string, b: string)
    requires LessEq(a, b) && LessEq(b, a)
    ensures a == b
    decreases |a|
  {
    if a != [] {
      LessEqAntisym(a[1..], b[1..]);
      assert a == [a[0]] + a[1..] && b == [b[0]] + b[1..];
    }
  }

  lemma {:induction false} LessEqTrans(a: string, b: string, c: string)
    requires LessEq(a, b) && LessEq(b, c)
    ensures LessEq(a, c)
    decreases |a|
  {
    if a != [] && a[0] == b[0] && b[0] == c[0] {
      LessEqTrans(a[1..], b[1..], c[1..]);
    }
  }

  // ---------------------------------------------------------------- the sort

  lemma {:induction false} InsertPerm<T>(x: T, s: seq<T>, key: T -> string)
    ensures multiset(Insert(x, s, key)) == multiset(s) + multiset{x}
    decreases |s|
  {
    if s != [] && !LessEq(key(s[|s| - 1]), key(x)) {
      InsertPerm(x, s[..|s| - 1], key);
      assert s == s[..|s| - 1] + [s[|s| - 1]];
    }
  }

  /** Every element of the insertion is `x` or an element of `s`. */
  lemma InsertElements<T>(x: T, s: seq<T>, key: T -> string)
    ensures forall y :: y in Insert(x, s, key) ==> y == x || y in s
  {
    InsertPerm(x, s, key);
    forall y | y in Insert(x, s, key)
      ensures y == x || y in s
    {
      assert y in multiset(Insert(x, s, key));
    }
  }

  lemma {:induction false} InsertSorted<T>(x: T, s: seq<T>, key: T -> string)
    requires Sorted(s, key)
    ensures Sorted(Insert(x, s, key), key)
    decreases |s|
  {
    if s == [] {
    } else if LessEq(key(s[|s| - 1]), key(x)) {
      forall i | 0 <= i < |s|
        ensures LessEq(key(s[i]), key(x))
      {
        if i < |s| - 1 {
          LessEqTrans(key(s[i]), key(s[|s| - 1]), key(x));
        }
      }
    } else {
      var init := s[..|s| - 1];
      var last := s[|s| - 1];
      InsertSorted(x, init, key);
      InsertElements(x, init, key);
      LessEqTotal(key(last), key(x));
      var r := Insert(x, init, key);
      forall i | 0 <= i < |r|
        ensures LessEq(key(r[i]), key(last))
      {
        assert r[i] in r;
        if r[i] != x {
          var k :| 0 <= k < |init| && init[k] == r[i];
        }
      }
    }
  }

  lemma {:induction false} SortByPerm<T>(s: seq<T>, key: T -> string)
    ensures multiset(SortBy(s, key)) == multiset(s)
    decreases |s|
  {
    if s != [] {
      SortByPerm(s[..|s| - 1], key);
      InsertPerm(s[|s| - 1], SortBy(s[..|s| - 1], key), key);
      assert s == s[..|s| - 1] + [s[|s| - 1]];
    }
  }

  lemma {:induction false} SortBySorted<T>(s: seq<T>, key: T -> string)
    ensures Sorted(SortBy(s, key), key)
    decreases |s|
  {
    if s != [] {
      SortBySorted(s[..|s| - 1], key);
      InsertSorted(s[|s| - 1], SortBy(s[..|s| - 1], key), key);
    }
  }

  /** Sorting strings: the result is sorted and a permutation of the input. */
  lemma SortStrings(s: seq<string>)
    ensures Sorted(SortBy(s, Id), Id) && multiset(SortBy(s, Id)) == multiset(s)
  {
    SortBySorted(s, Id);
    SortByPerm(s, Id);
  }

  /** Sorting strings keeps exactly the strings it was given. */
  lemma SortKeeps(s: seq<string>, x: string)
    ensures x in SortBy(s, Id) <==> x in s
  {
    SortByPerm(s, Id);
    assert x in SortBy(s, Id) <==> x in multiset(SortBy(s, Id));
  }

  /** The first element of a sorted list is its least. */
  lemma HeadIsLeast(a: seq<string>, x: string)
    requires Sorted(a, Id) && x in a
    ensures LessEq(a[0], x)
  {
    var i :| 0 <= i < |a| && a[i] == x;
    if i == 0 {
      LessEqRefl(x);
    } else {
      assert LessEq(Id(a[0]), Id(a[i]));
    }
  }

  /** Two sorted lists of the same strings are equal: a sorted list is determined by its contents. */
  lemma {:induction false} SortedUnique(a: seq<string>, b: seq<string>)
    requires Sorted(a, Id) && Sorted(b, Id) && multiset(a) == multiset(b)
    ensures a == b
    decreases |a|
  {
    if a != [] {
      SameHead(a, b);
      TailMultiset(a);
      TailMultiset(b);
      SortedTail(a, Id);
      SortedTail(b, Id);
      SortedUnique(a[1..], b[1..]);
      assert a == [a[0]] + a[1..] && b == [b[0]] + b[1..];
    }
  }

  /** Two sorted lists of the same strings start with the same one. */
  lemma SameHead(a: seq<string>, b: seq<string>)
    requires a != [] && Sorted(a, Id) && Sorted(b, Id) && multiset(a) == multiset(b)
    ensures b != [] && a[0] == b[0]
  {
    assert |b| == |multiset(b)| == |a|;
    assert a[0] in multiset(b) && b[0] in multiset(a);
    HeadIsLeast(b, a[0]);
    HeadIsLeast(a, b[0]);
    LessEqAntisym(a[0], b[0]);
  }

  /** The tail of a sorted sequence is sorted. */
  lemma SortedTail<T>(a: seq<T>, key: T -> string)
    requires a != [] && Sorted(a, key)
    ensures Sorted(a[1..], key)
  {
    forall i, j | 0 <= i < j < |a| - 1
      ensures LessEq(key(a[1..][i]), key(a[1..][j]))
    {
      assert a[1..][i] == a[i + 1] && a[1..][j] == a[j + 1];
    }
  }

  lemma TailMultiset(a: seq<string>)
    requires a != []
    ensures multiset(a[1..]) == multiset(a) - multiset{a[0]}
  {
    assert a == [a[0]] + a[1..];
  }

  // ---------------------------------------------------------------- iteration orders

  /** A list without repetitions holds each of its elements exactly once. */
  lemma {:induction false} DistinctCount(s: seq<string>, x: string)
    requires forall i, j :: 0 <= i < j < |s| ==> s[i] != s[j]
    ensures multiset(s)[x] == if x in s then 1 else 0
    decreases |s|
  {
    if s != [] {
      var init := s[..|s| - 1];
      DistinctCount(init, x);
      assert s == init + [s[|s| - 1]];
      assert s[|s| - 1] !in init;
    }
  }

  /** Two iteration orders of the same map are permutations of each other. */
  lemma OrdersArePermutations<V>(o1: seq<string>, o2: seq<string>, m: map<string, V>)
    requires IsOrder(o1, m) && IsOrder(o2, m)
    ensures multiset(o1) == multiset(o2)
  {
    forall x
      ensures multiset(o1)[x] == multiset(o2)[x]
    {
      DistinctCount(o1, x);
      DistinctCount(o2, x);
    }
  }
}
