/**
 * `filter_map(..).collect()`: the values a partial function gives for the
 * elements of a list, in order.  Used for the lines of a configuration file
 * and for the entries of a directory listing.
 */
module FilterMap {
  import opened Wrappers

  /** The values `f` gives for the elements of `xs` that give one, in the order of `xs`. */
  function Collect<A, B>(f: A -> Option<B>, xs: seq<A>): (r: seq<B>)
    ensures |r| <= |xs|
    decreases |xs|
  {
    if xs == [] then [] else Collect(f, xs[..|xs| - 1]) + Listed(f(xs[|xs| - 1]))
  }

  /** A present option as a list of one element, an absent one as the empty list. */
  function Listed<T>(o: Option<T>): (r: seq<T>)
    ensures |r| <= 1
  {
    if o.None? then [] else [o.value]
  }

  lemma CollectPrefix<A, B>(f: A -> Option<B>, xs: seq<A>, i: nat)
    requires i < |xs|
    ensures Collect(f, xs[..i + 1]) == Collect(f, xs[..i]) + Listed(f(xs[i]))
  {
    assert xs[..i + 1][..i] == xs[..i];
  }

  lemma CollectOne<A, B>(f: A -> Option<B>, x: A)
    ensures Collect(f, [x]) == Listed(f(x))
  {
    assert [x][..0] == [];
  }

  lemma {:induction false} CollectAppend<A, B>(f: A -> Option<B>, a: seq<A>, b: seq<A>)
    ensures Collect(f, a + b) == Collect(f, a) + Collect(f, b)
    decreases |b|
  {
    if b == [] {
      assert a + b == a;
    } else {
      var b' := b[..|b| - 1];
      assert (a + b)[..|a + b| - 1] == a + b';
      assert (a + b)[|a + b| - 1] == b[|b| - 1];
      CollectAppend(f, a, b');
    }
  }

  lemma {:induction false} CollectFrom<A, B>(f: A -> Option<B>, xs: seq<A>)
    ensures forall y :: y in Collect(f, xs) ==> exists i :: 0 <= i < |xs| && f(xs[i]) == Some(y)
    decreases |xs|
  {
    if xs != [] {
      var init := xs[..|xs| - 1];
      CollectFrom(f, init);
      forall y | y in Collect(f, xs)
        ensures exists i :: 0 <= i < |xs| && f(xs[i]) == Some(y)
      {
        if y in Collect(f, init) {
          var i :| 0 <= i < |init| && f(init[i]) == Some(y);
          assert xs[i] == init[i];
        } else {
          assert f(xs[|xs| - 1]) == Some(y);
        }
      }
    }
  }

  /** Every value `f` gives for an element is collected. */
  lemma {:induction false} CollectHas<A, B>(f: A -> Option<B>, xs: seq<A>, i: nat)
    requires i < |xs| && f(xs[i]).Some?
    ensures f(xs[i]).value in Collect(f, xs)
    decreases |xs|
  {
    if i < |xs| - 1 {
      CollectHas(f, xs[..|xs| - 1], i);
    }
  }

  /** A value is collected exactly when some element gives it. */
  lemma CollectMember<A, B>(f: A -> Option<B>, xs: seq<A>, y: B)
    ensures y in Collect(f, xs) <==> exists i :: 0 <= i < |xs| && f(xs[i]) == Some(y)
  {
    CollectFrom(f, xs);
    if exists i :: 0 <= i < |xs| && f(xs[i]) == Some(y) {
      var i :| 0 <= i < |xs| && f(xs[i]) == Some(y);
      CollectHas(f, xs, i);
    }
  }

  lemma {:induction false} CollectNothing<A, B>(f: A -> Option<B>, xs: seq<A>)
    requires forall i :: 0 <= i < |xs| ==> f(xs[i]).None?
    ensures Collect(f, xs) == []
    decreases |xs|
  {
    if xs != [] {
      CollectNothing(f, xs[..|xs| - 1]);
    }
  }

  /** Five elements of which the middle three give a value. */
  lemma CollectFive<A, B>(f: A -> Option<B>, x0: A, x1: A, x2: A, x3: A, x4: A, y1: B, y2: B, y3: B)
    requires f(x0).None? && f(x1) == Some(y1) && f(x2) == Some(y2) && f(x3) == Some(y3) && f(x4).None?
    ensures Collect(f, [x0, x1, x2, x3, x4]) == [y1, y2, y3]
  {
    var xs := [x0, x1, x2, x3, x4];
    CollectPrefix(f, xs, 0);
    assert xs[..0] == [];
    assert Collect(f, xs[..1]) == [];
    CollectPrefix(f, xs, 1);
    assert Collect(f, xs[..2]) == [y1];
    CollectPrefix(f, xs, 2);
    assert Collect(f, xs[..3]) == [y1, y2];
    CollectPrefix(f, xs, 3);
    assert Collect(f, xs[..4]) == [y1, y2, y3];
    CollectPrefix(f, xs, 4);
    assert xs[..5] == xs;
  }

  /** Two elements of which the second gives a value. */
  lemma CollectTwo<A, B>(f: A -> Option<B>, x0: A, x1: A, y1: B)
    requires f(x0).None? && f(x1) == Some(y1)
    ensures Collect(f, [x0, x1]) == [y1]
  {
    var xs := [x0, x1];
    CollectPrefix(f, xs, 0);
    assert xs[..0] == [];
    CollectPrefix(f, xs, 1);
    assert xs[..2] == xs;
  }

  lemma CollectTwice<A, B>(f: A -> Option<B>, x: A, y: B)
    requires f(x) == Some(y)
    ensures Collect(f, [x, x]) == [y, y]
  {
    var xs := [x, x];
    CollectPrefix(f, xs, 0);
    assert xs[..0] == [];
    CollectPrefix(f, xs, 1);
    assert xs[..2] == xs;
  }
}
