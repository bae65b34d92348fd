/**
 * Building blocks shared by the three naming implementations: the smart-name
 * record, the alphanumeric word split, word capitalisation and the
 * underscore-before-capital marking step of snake_case.
 */
module Names {
  import opened Strings

  /** The React-flavoured names derived from one component name. */
  datatype SmartNames = SmartNames(hook: string, context: string, provider: string, page: string)

  /** The non-empty alphanumeric runs of `s`. */
  function Words(s: string): (ws: seq<string>)
    ensures forall k :: 0 <= k < |ws| ==> ws[k] != [] && AllAlnum(ws[k])
  {
    NonEmpty(SplitNonAlnum(s))
  }

  /** First character upper-cased, the rest lower-cased. */
  function Capitalize(w: string): (r: string)
    ensures |r| == |w|
    ensures AllAlnum(w) ==> AllAlnum(r)
    ensures forall i :: 0 < i < |w| ==> r[i] == LowerChar(w[i])
    ensures |w| > 0 ==> r[0] == UpperChar(w[0])
  {
    if w == [] then [] else [UpperChar(w[0])] + Lower(w[1..])
  }

  /** The capitalised words glued together. */
  function CapitalizeWords(ws: seq<string>): (r: string)
    ensures (forall k :: 0 <= k < |ws| ==> AllAlnum(ws[k])) ==> AllAlnum(r)
    ensures |ws| > 0 && ws[0] != [] ==> |r| > 0 && r[0] == UpperChar(ws[0][0])
    ensures |r| == 0 <==> forall k :: 0 <= k < |ws| ==> ws[k] == []
  {
    if ws == [] then [] else Capitalize(ws[0]) + CapitalizeWords(ws[1..])
  }

  /** One character of the marking step: a capital after the first position gets a '_' before it. */
  function MarkChar(c: char, first: bool): (r: string)
  {
    if IsUpper(c) && !first then ['_', LowerChar(c)] else [LowerChar(c)]
  }

  /** Every character lower-cased, with '_' inserted before each capital but a leading one. */
  function Marked(s: string): (r: string)
    ensures forall i :: 0 <= i < |r| ==> !IsUpper(r[i])
  {
    if s == [] then []
    else Marked(s[..|s| - 1]) + MarkChar(s[|s| - 1], |s| == 1)
  }

  /** Marking changes nothing in a string without capitals. */
  lemma {:induction false} MarkedWithoutCapitals(s: string)
    requires forall i :: 0 <= i < |s| ==> !IsUpper(s[i])
    ensures Marked(s) == s
  {
    if s != [] {
      MarkedWithoutCapitals(s[..|s| - 1]);
      assert s[..|s| - 1] + [s[|s| - 1]] == s;
    }
  }

  predicate LowerWord(w: string)
  {
    w != [] && forall i :: 0 <= i < |w| ==> IsLower(w[i]) || IsDigit(w[i])
  }

  /** Letters, digits and `sep` only, never a capital. */
  predicate LowerWith(s: string, sep: char)
  {
    forall i :: 0 <= i < |s| ==> IsLower(s[i]) || IsDigit(s[i]) || s[i] == sep
  }

  predicate AlnumWords(ws: seq<string>)
  {
    forall k :: 0 <= k < |ws| ==> ws[k] != [] && AllAlnum(ws[k])
  }

  // ---------------------------------------------------------------- lemmas

  lemma {:induction false} SplitOfWord(w: string)
    requires AllAlnum(w)
    ensures SplitNonAlnum(w) == [w]
  {
    if w != [] {
      SplitOfWord(w[1..]);
      assert [w[0]] + w[1..] == w;
    }
  }

  lemma {:induction false} SplitAfterWord(w: string, c: char, t: string)
    requires AllAlnum(w) && !IsAlnum(c)
    ensures SplitNonAlnum(w + [c] + t) == [w] + SplitNonAlnum(t)
  {
    if w == [] {
      assert w + [c] + t == [c] + t;
      assert ([c] + t)[1..] == t;
    } else {
      var s := w + [c] + t;
      assert s[0] == w[0] && s[1..] == w[1..] + [c] + t;
      SplitAfterWord(w[1..], c, t);
      assert [w[0]] + w[1..] == w;
    }
  }

  /** Splitting words joined by a separator gives back the words. */
  lemma {:induction false} WordsOfJoin(ws: seq<string>, sep: char)
    requires AlnumWords(ws) && !IsAlnum(sep)
    ensures Words(Join(ws, [sep])) == ws
  {
    if ws != [] {
      SplitOfJoin(ws, sep);
      NonEmptyOfWords(ws);
    }
  }

  lemma {:induction false} SplitOfJoin(ws: seq<string>, sep: char)
    requires |ws| > 0 && AlnumWords(ws) && !IsAlnum(sep)
    ensures SplitNonAlnum(Join(ws, [sep])) == ws
  {
    if |ws| == 1 {
      SplitOfWord(ws[0]);
    } else {
      SplitOfJoin(ws[1..], sep);
      SplitAfterWord(ws[0], sep, Join(ws[1..], [sep]));
      assert [ws[0]] + ws[1..] == ws;
    }
  }

  lemma {:induction false} NonEmptyOfWords(ws: seq<string>)
    requires forall k :: 0 <= k < |ws| ==> ws[k] != []
    ensures NonEmpty(ws) == ws
  {
    if ws != [] {
      NonEmptyOfWords(ws[1..]);
      assert [ws[0]] + ws[1..] == ws;
    }
  }

  lemma {:induction false} WordsOfWord(w: string)
    requires w != [] && AllAlnum(w)
    ensures Words(w) == [w]
  {
    SplitOfWord(w);
    NonEmptyOfWords([w]);
  }

  /** Two words capitalise one after the other. */
  lemma CapitalizeTwo(w1: string, w2: string)
    ensures CapitalizeWords([w1, w2]) == Capitalize(w1) + Capitalize(w2)
  {
    assert [w1, w2][1..] == [w2];
    assert [w2][1..] == [];
  }

  /** A word without capitals is capitalised by upper-casing its first character alone. */
  lemma CapitalizeLowerWord(w: string, p: string)
    requires w != [] && (forall i :: 0 <= i < |w| ==> !IsUpper(w[i])) && p == [UpperChar(w[0])] + w[1..]
    ensures Capitalize(w) == p
  {
    assert Lower(w[1..]) == w[1..];
  }

  /** Two words joined by a separator. */
  lemma JoinTwo(w1: string, w2: string, sep: string)
    ensures Join([w1, w2], sep) == w1 + sep + w2
  {
    assert [w1, w2][1..] == [w2];
  }

  /** A joined list of lower-case words is made of lower-case letters, digits and the separator. */
  lemma {:induction false} JoinShape(ws: seq<string>, sep: char)
    requires forall k :: 0 <= k < |ws| ==> LowerWord(ws[k])
    ensures LowerWith(Join(ws, [sep]), sep)
  {
    if |ws| > 1 {
      JoinShape(ws[1..], sep);
      var r := Join(ws, [sep]);
      assert r == ws[0] + [sep] + Join(ws[1..], [sep]);
      forall i | 0 <= i < |r| ensures IsLower(r[i]) || IsDigit(r[i]) || r[i] == sep {
        if i > |ws[0]| {
          assert r[i] == Join(ws[1..], [sep])[i - |ws[0]| - 1];
        }
      }
    }
  }

  /** Words made only of letters and digits and containing no capital are lower-case words. */
  lemma WordsOfMarkedAreLower(s: string)
    ensures forall k :: 0 <= k < |Words(Marked(s))| ==> LowerWord(Words(Marked(s))[k])
  {
    var ws := Words(Marked(s));
    forall k | 0 <= k < |ws| ensures LowerWord(ws[k]) {
      WordsHaveNoUpper(Marked(s), k);
    }
  }

  lemma {:induction false} WordsHaveNoUpper(s: string, k: nat)
    requires forall i :: 0 <= i < |s| ==> !IsUpper(s[i])
    requires k < |Words(s)|
    ensures forall i :: 0 <= i < |Words(s)[k]| ==> !IsUpper(Words(s)[k][i])
  {
    SplitContained(s);
    NonEmptyKeeps(SplitNonAlnum(s), Words(s)[k]);
  }

  lemma {:induction false} NonEmptyKeeps(parts: seq<string>, w: string)
    requires w in NonEmpty(parts)
    ensures w in parts
  {
  }

  /** Every piece of the split is made of characters of the input. */
  lemma {:induction false} SplitContained(s: string)
    ensures forall k, i :: 0 <= k < |SplitNonAlnum(s)| && 0 <= i < |SplitNonAlnum(s)[k]| ==>
      SplitNonAlnum(s)[k][i] in s
  {
    if s != [] {
      SplitContained(s[1..]);
    }
  }

  /** Lower-case letters are copied by the marking step. */
  lemma {:induction false} MarkedLowerTail(a: string, b: string)
    requires forall i :: 0 <= i < |b| ==> IsLower(b[i])
    ensures Marked(a + b) == Marked(a) + b
    decreases |b|
  {
    if b == [] {
      assert a + b == a;
    } else {
      var b', c := b[..|b| - 1], b[|b| - 1];
      LowerPrefix(b, b');
      MarkedLowerTail(a, b');
      MarkedLowerSnoc(a, b, b', c);
    }
  }

  lemma MarkedLowerSnoc(a: string, b: string, b': string, c: char)
    requires b == b' + [c] && IsLower(c)
    requires Marked(a + b') == Marked(a) + b'
    ensures Marked(a + b) == Marked(a) + b
  {
    var x := a + b';
    assert a + b == x + [c];
    MarkedAppend(x, c);
    SnocAssoc(Marked(a), b, b', c);
  }

  lemma LowerPrefix(b: string, b': string)
    requires b != [] && b' == b[..|b| - 1] && forall i :: 0 <= i < |b| ==> IsLower(b[i])
    ensures forall i :: 0 <= i < |b'| ==> IsLower(b'[i])
    ensures b == b' + [b[|b| - 1]] && IsLower(b[|b| - 1])
  {
  }

  lemma SnocAssoc<T>(m: seq<T>, b: seq<T>, b': seq<T>, c: T)
    requires b == b' + [c]
    ensures (m + b') + [c] == m + b
  {
  }

  lemma MarkedAppend(a: string, c: char)
    requires !IsUpper(c)
    ensures Marked(a + [c]) == Marked(a) + [c]
  {
    assert (a + [c])[..|a|] == a;
  }

  lemma MarkedFirst(s: string)
    requires |s| == 1
    ensures Marked(s) == [LowerChar(s[0])]
  {
    assert s[..0] == [];
  }

  lemma MarkedCapital(a: string, c: char)
    requires a != [] && IsUpper(c)
    ensures Marked(a + [c]) == Marked(a) + ['_', LowerChar(c)]
  {
    assert (a + [c])[..|a|] == a;
  }

  /** Two capitalised or lower-case words run together are marked into two words joined by '_'. */
  lemma MarkedTwoWords(c1: char, l1: string, c2: char, l2: string)
    requires IsUpper(c2) && forall i :: 0 <= i < |l1| ==> IsLower(l1[i])
    requires forall i :: 0 <= i < |l2| ==> IsLower(l2[i])
    ensures Marked([c1] + l1 + [c2] + l2) == [LowerChar(c1)] + l1 + ['_', LowerChar(c2)] + l2
  {
    MarkedFirst([c1]);
    MarkedLowerTail([c1], l1);
    MarkedCapital([c1] + l1, c2);
    MarkedLowerTail([c1] + l1 + [c2], l2);
  }

  /** Marking never shortens. */
  lemma {:induction false} MarkedLength(s: string)
    ensures |Marked(s)| >= |s|
  {
    if s != [] {
      MarkedLength(s[..|s| - 1]);
    }
  }

  /** The first word of a string starting with a letter or digit starts with that character. */
  lemma FirstWord(s: string)
    requires s != [] && IsAlnum(s[0])
    ensures Words(s) != [] && Words(s)[0][0] == s[0]
  {
    assert SplitNonAlnum(s)[0][0] == s[0];
  }

  /** Lower-case words contain no '_'. */
  lemma LowerWordsFree(ws: seq<string>)
    requires forall k :: 0 <= k < |ws| ==> LowerWord(ws[k])
    ensures forall k :: 0 <= k < |ws| ==> '_' !in ws[k]
  {
    forall k | 0 <= k < |ws| ensures '_' !in ws[k] {
      assert forall i :: 0 <= i < |ws[k]| ==> ws[k][i] != '_';
    }
  }
}
