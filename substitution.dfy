/**
 * The placeholder substitution shared by the three naming implementations:
 * `use<T>`, `<T>Context`, `<T>Provider` and `<T>Page` are replaced by the
 * smart names, in that order, and then every remaining `<T>` by a plain value.
 * The placeholder `<T>` is `$FILE_NAME` for template contents and file names
 * and `{name}` for architecture file patterns; in both its first character
 * occurs nowhere else in it, which is what the lemmas below rely on.
 */
module Substitution {
  import opened Strings
  import opened Names

  /** The five sequential `str::replace` calls of the smart substitution. */
  function SmartSubstitute(s: string, token: string, names: SmartNames, bare: string): (r: string)
    requires |token| > 0
  {
    var r1 := Replace(s, "use" + token, names.hook);
    var r2 := Replace(r1, token + "Context", names.context);
    var r3 := Replace(r2, token + "Provider", names.provider);
    var r4 := Replace(r3, token + "Page", names.page);
    Replace(r4, token, bare)
  }

  /** The first character of the placeholder is no letter or digit and occurs only once in it. */
  predicate Token(token: string)
  {
    |token| > 0 && !IsAlnum(token[0]) && token[0] !in token[1..]
  }

  /** A non-alphanumeric marker occurs in none of the alphanumeric pattern affixes. */
  lemma AffixesFree(m: char)
    requires !IsAlnum(m)
    ensures m !in "use" && m !in "Context" && m !in "Provider" && m !in "Page"
  {
  }

  /** `p` occurs in `x` starting at index `i`. */
  predicate MatchAt(x: string, p: string, i: int)
  {
    0 <= i && i + |p| <= |x| && x[i..i + |p|] == p
  }

  /** `m` occurs in `x` exactly once, at index `d`. */
  predicate OnlyAt(x: string, m: char, d: int)
  {
    0 <= d < |x| && x[d] == m && forall k :: 0 <= k < |x| && k != d ==> x[k] != m
  }

  // ---------------------------------------------------------------- replace, one step

  /** No match starts inside `a`: the scan copies `a` and carries on with `t`. */
  lemma {:induction false} ReplaceUnmatched(a: string, t: string, p: string, r: string)
    requires |p| > 0
    requires forall i :: 0 <= i < |a| ==> !MatchAt(a + t, p, i)
    ensures Replace(a + t, p, r) == a + Replace(t, p, r)
    decreases |a|
  {
    if a != [] {
      var s := a + t;
      if |s| < |p| {
        assert Replace(t, p, r) == t;
      } else {
        assert !MatchAt(s, p, 0);
        assert Replace(s, p, r) == [s[0]] + Replace(s[1..], p, r);
        UnmatchedTail(a, t, p);
        ReplaceUnmatched(a[1..], t, p, r);
        calc {
          Replace(s, p, r);
          [s[0]] + Replace(s[1..], p, r);
          { assert s[1..] == a[1..] + t; }
          [a[0]] + Replace(a[1..] + t, p, r);
          [a[0]] + (a[1..] + Replace(t, p, r));
          { assert [a[0]] + a[1..] == a; }
          a + Replace(t, p, r);
        }
      }
    } else {
      assert a + t == t;
    }
  }

  lemma UnmatchedTail(a: string, t: string, p: string)
    requires a != [] && forall i :: 0 <= i < |a| ==> !MatchAt(a + t, p, i)
    ensures forall i :: 0 <= i < |a[1..]| ==> !MatchAt(a[1..] + t, p, i)
  {
    var s := a + t;
    assert s[1..] == a[1..] + t;
    forall i | 0 <= i < |a[1..]| ensures !MatchAt(a[1..] + t, p, i) {
      assert !MatchAt(s, p, i + 1);
      if i + |p| <= |a[1..] + t| {
        assert (a[1..] + t)[i..i + |p|] == s[i + 1..i + 1 + |p|];
      }
    }
  }

  /** A string without the marker is left alone by a pattern containing it. */
  lemma ReplaceFree(x: string, p: string, r: string, m: char)
    requires m in p && m !in x
    ensures Replace(x, p, r) == x
  {
    var j :| 0 <= j < |p| && p[j] == m;
    assert x + [] == x;
    forall i | 0 <= i < |x| ensures !MatchAt(x + [], p, i) {
      if i + |p| <= |x| {
        assert x[i..i + |p|][j] == x[i + j] != p[j];
      }
    }
    ReplaceUnmatched(x, [], p, r);
    assert x + [] == x;
  }

  /** The only marker lies inside a match: that match is replaced and no marker is left. */
  lemma StepHit(x: string, p: string, r: string, m: char, j: int, d: int)
    requires 0 <= j < |p| && p[j] == m && OnlyAt(x, m, d) && MatchAt(x, p, d - j) && m !in r
    ensures Replace(x, p, r) == x[..d - j] + r + x[d - j + |p|..]
    ensures m !in Replace(x, p, r)
  {
    var a, t := x[..d - j], x[d - j..];
    assert x == a + t;
    forall i | 0 <= i < |a| ensures !MatchAt(a + t, p, i) {
      if i + |p| <= |x| {
        assert x[i..i + |p|][j] == x[i + j] != p[j];
      }
    }
    ReplaceUnmatched(a, t, p, r);
    var rest := x[d - j + |p|..];
    assert t == p + rest;
    assert t[..|p|] == p && t[|p|..] == rest;
    assert m !in rest by {
      forall k | 0 <= k < |rest| ensures rest[k] != m {
        assert rest[k] == x[d - j + |p| + k];
      }
    }
    ReplaceFree(rest, p, r, m);
    assert m !in a by {
      forall k | 0 <= k < |a| ensures a[k] != m {
        assert a[k] == x[k];
      }
    }
  }

  /** The only marker is not inside a match: nothing is replaced. */
  lemma StepMiss(x: string, p: string, r: string, m: char, j: int, d: int)
    requires 0 <= j < |p| && p[j] == m && OnlyAt(x, m, d) && !MatchAt(x, p, d - j)
    ensures Replace(x, p, r) == x
  {
    assert x + [] == x;
    forall i | 0 <= i < |x| ensures !MatchAt(x + [], p, i) {
      if i != d - j && i + |p| <= |x| {
        assert x[i..i + |p|][j] == x[i + j] != p[j];
      }
    }
    ReplaceUnmatched(x, [], p, r);
    assert x + [] == x;
  }

  // ---------------------------------------------------------------- the chain

  /** Text without the placeholder's marker passes through unchanged. */
  lemma SubstituteNothing(s: string, token: string, names: SmartNames, bare: string)
    requires Token(token) && token[0] !in s
    ensures SmartSubstitute(s, token, names, bare) == s
  {
    var m := token[0];
    assert ("use" + token)[3] == m;
    assert (token + "Context")[0] == m && (token + "Provider")[0] == m && (token + "Page")[0] == m;
    ReplaceFree(s, "use" + token, names.hook, m);
    ReplaceFree(s, token + "Context", names.context, m);
    ReplaceFree(s, token + "Provider", names.provider, m);
    ReplaceFree(s, token + "Page", names.page, m);
    ReplaceFree(s, token, bare, m);
  }

  /** A string holding the marker once, with every later pattern left to find nothing. */
  lemma RestFree(x: string, token: string, names: SmartNames, bare: string, from: nat)
    requires Token(token) && token[0] !in x && 1 <= from <= 4
    ensures from <= 1 ==> Replace(x, token + "Context", names.context) == x
    ensures from <= 2 ==> Replace(x, token + "Provider", names.provider) == x
    ensures from <= 3 ==> Replace(x, token + "Page", names.page) == x
    ensures Replace(x, token, bare) == x
  {
    var m := token[0];
    assert (token + "Context")[0] == m && (token + "Provider")[0] == m && (token + "Page")[0] == m;
    ReplaceFree(x, token + "Context", names.context, m);
    ReplaceFree(x, token + "Provider", names.provider, m);
    ReplaceFree(x, token + "Page", names.page, m);
    ReplaceFree(x, token, bare, m);
  }

  /** Where the marker of `a + u + token + b` sits, for marker-free `a`, `u` and `b`. */
  lemma MarkerOf(a: string, u: string, token: string, b: string)
    requires Token(token) && token[0] !in a && token[0] !in u && token[0] !in b
    ensures OnlyAt(a + u + token + b, token[0], |a| + |u|)
  {
    var x := a + u + token + b;
    forall k | 0 <= k < |x| && k != |a| + |u| ensures x[k] != token[0] {
      if k < |a| {
        assert x[k] == a[k];
      } else if k < |a| + |u| {
        assert x[k] == u[k - |a|];
      } else if k < |a| + |u| + |token| {
        assert x[k] == token[1..][k - |a| - |u| - 1];
      } else {
        assert x[k] == b[k - |a| - |u| - |token|];
      }
    }
  }

  lemma FreeConcat(a: string, v: string, b: string, m: char)
    requires m !in a && m !in v && m !in b
    ensures m !in a + v + b
  {
  }

  /** `use<T>` becomes the hook name, whatever follows it. */
  lemma SubstituteHook(a: string, b: string, token: string, names: SmartNames, bare: string)
    requires Token(token)
    requires token[0] !in a && token[0] !in b && token[0] !in names.hook
    ensures SmartSubstitute(a + "use" + token + b, token, names, bare) == a + names.hook + b
  {
    AffixesFree(token[0]);
    var m, x := token[0], a + "use" + token + b;
    var p := "use" + token;
    MarkerOf(a, "use", token, b);
    assert x == a + p + b;
    assert x[|a|..|a| + |p|] == p;
    StepHit(x, p, names.hook, m, 3, |a| + 3);
    assert x[..|a|] == a && x[|a| + |p|..] == b;
    FreeConcat(a, names.hook, b, m);
    RestFree(a + names.hook + b, token, names, bare, 1);
  }

  /** The hook pattern finds nothing when the text before the placeholder does not end in "use". */
  lemma HookMiss(a: string, token: string, b: string, hook: string)
    requires Token(token) && token[0] !in a && token[0] !in b && !EndsWith(a, "use")
    ensures Replace(a + token + b, "use" + token, hook) == a + token + b
  {
    var x, p := a + token + b, "use" + token;
    MarkerOf(a, [], token, b);
    assert a + [] + token + b == x;
    if |a| >= 3 && |a| - 3 + |p| <= |x| {
      assert x[|a| - 3..|a| - 3 + |p|][..3] == a[|a| - 3..] != "use" == p[..3];
    }
    StepMiss(x, p, hook, token[0], 3, |a|);
  }

  /** A pattern `token + w` finds nothing when what follows the placeholder does not start with `w`. */
  lemma SuffixMiss(a: string, token: string, w: string, b: string, v: string)
    requires Token(token) && token[0] !in a && token[0] !in b && !StartsWith(b, w)
    ensures Replace(a + token + b, token + w, v) == a + token + b
  {
    var x, p := a + token + b, token + w;
    MarkerOf(a, [], token, b);
    assert a + [] + token + b == x;
    if |a| + |p| <= |x| {
      assert x[|a|..|a| + |p|][|token|..] == b[..|w|] != w == p[|token|..];
    }
    assert p[0] == token[0];
    StepMiss(x, p, v, token[0], 0, |a|);
  }

  /** A pattern `token + w` is replaced when the placeholder is followed by `w`. */
  lemma SuffixHit(a: string, token: string, w: string, b: string, v: string)
    requires Token(token) && token[0] !in a && token[0] !in w && token[0] !in b && token[0] !in v
    ensures Replace(a + token + w + b, token + w, v) == a + v + b
    ensures token[0] !in a + v + b
  {
    var x, p := a + token + w + b, token + w;
    MarkerOf(a, [], token, w + b);
    Regroup(a, token, w, b);
    Slices(a, p, b);
    assert p[0] == token[0];
    StepHit(x, p, v, token[0], 0, |a|);
  }

  /** The two groupings of a placeholder followed by a suffix. */
  lemma Regroup(a: string, token: string, w: string, b: string)
    ensures a + [] + token + (w + b) == a + token + w + b == a + (token + w) + b
  {
  }

  /** An empty suffix leaves the placeholder as it is. */
  lemma EmptySuffix(a: string, token: string, b: string)
    ensures token + [] == token && a + token + [] + b == a + token + b
  {
  }

  /** The three slices of `a + p + b`. */
  lemma Slices(a: string, p: string, b: string)
    ensures (a + p + b)[..|a|] == a && (a + p + b)[|a|..|a| + |p|] == p
    ensures (a + p + b)[|a| + |p|..] == b
  {
  }

  /** `<T>Context` becomes the context name unless "use" comes right before it. */
  lemma SubstituteContext(a: string, b: string, token: string, names: SmartNames, bare: string)
    requires Token(token) && !EndsWith(a, "use")
    requires token[0] !in a && token[0] !in b && token[0] !in names.context
    ensures SmartSubstitute(a + token + "Context" + b, token, names, bare) == a + names.context + b
  {
    AffixesFree(token[0]);
    assert a + token + "Context" + b == a + token + ("Context" + b);
    HookMiss(a, token, "Context" + b, names.hook);
    SuffixHit(a, token, "Context", b, names.context);
    RestFree(a + names.context + b, token, names, bare, 2);
  }

  /** `<T>Provider` becomes the provider name unless "use" comes right before it. */
  lemma SubstituteProvider(a: string, b: string, token: string, names: SmartNames, bare: string)
    requires Token(token) && !EndsWith(a, "use")
    requires token[0] !in a && token[0] !in b && token[0] !in names.provider
    ensures SmartSubstitute(a + token + "Provider" + b, token, names, bare) == a + names.provider + b
  {
    AffixesFree(token[0]);
    assert a + token + "Provider" + b == a + token + ("Provider" + b);
    assert ("Provider" + b)[0] == 'P';
    HookMiss(a, token, "Provider" + b, names.hook);
    SuffixMiss(a, token, "Context", "Provider" + b, names.context);
    SuffixHit(a, token, "Provider", b, names.provider);
    RestFree(a + names.provider + b, token, names, bare, 3);
  }

  /** `<T>Page` becomes the page name unless "use" comes right before it. */
  lemma SubstitutePage(a: string, b: string, token: string, names: SmartNames, bare: string)
    requires Token(token) && !EndsWith(a, "use")
    requires token[0] !in a && token[0] !in b && token[0] !in names.page
    ensures SmartSubstitute(a + token + "Page" + b, token, names, bare) == a + names.page + b
  {
    AffixesFree(token[0]);
    PageNoOtherSuffix(b);
    assert a + token + "Page" + b == a + token + ("Page" + b);
    EarlyMisses(a, "Page" + b, token, names);
    SuffixHit(a, token, "Page", b, names.page);
    RestFree(a + names.page + b, token, names, bare, 4);
  }

  /** Text that starts with "Page" starts with neither "Context" nor "Provider". */
  lemma PageNoOtherSuffix(b: string)
    ensures !StartsWith("Page" + b, "Context") && !StartsWith("Page" + b, "Provider")
  {
    assert ("Page" + b)[0] == 'P' && ("Page" + b)[1] == 'a';
  }

  /** The hook, context and provider patterns find nothing around a placeholder that none of them fits. */
  lemma EarlyMisses(a: string, y: string, token: string, names: SmartNames)
    requires Token(token) && !EndsWith(a, "use") && token[0] !in a && token[0] !in y
    requires !StartsWith(y, "Context") && !StartsWith(y, "Provider")
    ensures var x := a + token + y;
      var r1 := Replace(x, "use" + token, names.hook);
      var r2 := Replace(r1, token + "Context", names.context);
      Replace(r2, token + "Provider", names.provider) == x
  {
    HookMiss(a, token, y, names.hook);
    SuffixMiss(a, token, "Context", y, names.context);
    SuffixMiss(a, token, "Provider", y, names.provider);
  }

  /**
   * A placeholder that none of the four smart patterns claims becomes the
   * plain value: it is neither preceded by "use" nor followed by one of the
   * three suffixes.
   */
  lemma SubstituteBare(a: string, b: string, token: string, names: SmartNames, bare: string)
    requires Token(token) && !EndsWith(a, "use")
    requires !StartsWith(b, "Context") && !StartsWith(b, "Provider") && !StartsWith(b, "Page")
    requires token[0] !in a && token[0] !in b && token[0] !in bare
    ensures SmartSubstitute(a + token + b, token, names, bare) == a + bare + b
  {
    EarlyMisses(a, b, token, names);
    SuffixMiss(a, token, "Page", b, names.page);
    BareHit(a, token, b, bare);
  }

  /** The plain placeholder is replaced by the plain value. */
  lemma BareHit(a: string, token: string, b: string, v: string)
    requires Token(token) && token[0] !in a && token[0] !in b && token[0] !in v
    ensures Replace(a + token + b, token, v) == a + v + b
  {
    SuffixHit(a, token, [], b, v);
    EmptySuffix(a, token, b);
  }
}
