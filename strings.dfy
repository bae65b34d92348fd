/**
 * The Rust `str`/`char` operations the generator relies on, stated over
 * `seq<char>`.  Letters, digits and case mapping are ASCII; whitespace is the
 * full Unicode White_Space set, which is what `str::trim` strips.
 */
module Strings {
  import opened Wrappers

  // ---------------------------------------------------------------- chars

  predicate IsUpper(c: char) { 'A' <= c <= 'Z' }
  predicate IsLower(c: char) { 'a' <= c <= 'z' }
  predicate IsDigit(c: char) { '0' <= c <= '9' }
  predicate IsAlpha(c: char) { IsUpper(c) || IsLower(c) }
  predicate IsAlnum(c: char) { IsAlpha(c) || IsDigit(c) }

  /** `char::is_whitespace`: the Unicode White_Space property. */
  predicate IsWhitespace(c: char)
  {
    ('\t' <= c <= '\r') || c == ' ' || c == '\U{0085}' || c == '\U{00A0}' || c == '\U{1680}'
    || ('\U{2000}' <= c <= '\U{200A}') || c == '\U{2028}' || c == '\U{2029}'
    || c == '\U{202F}' || c == '\U{205F}' || c == '\U{3000}'
  }

  function LowerChar(c: char): (r: char)
    ensures IsUpper(c) ==> IsLower(r)
    ensures !IsUpper(c) ==> r == c
  {
    if IsUpper(c) then (c as int + 32) as char else c
  }

  function UpperChar(c: char): (r: char)
    ensures IsLower(c) ==> IsUpper(r)
    ensures !IsLower(c) ==> r == c
  {
    if IsLower(c) then (c as int - 32) as char else c
  }

  // ---------------------------------------------------------------- whole strings

  predicate AllAlnum(s: string) { forall i :: 0 <= i < |s| ==> IsAlnum(s[i]) }
  predicate Contains(s: string, c: char) { c in s }

  /** `str::to_lowercase` (ASCII). */
  function Lower(s: string): (r: string)
    ensures |r| == |s|
    ensures forall i :: 0 <= i < |s| ==> r[i] == LowerChar(s[i])
  {
    seq(|s|, i requires 0 <= i < |s| => LowerChar(s[i]))
  }

  /** `str::to_uppercase` (ASCII). */
  function Upper(s: string): (r: string)
    ensures |r| == |s|
    ensures forall i :: 0 <= i < |s| ==> r[i] == UpperChar(s[i])
  {
    seq(|s|, i requires 0 <= i < |s| => UpperChar(s[i]))
  }

  lemma LowerOfConcat()
    ensures forall a: string, b: string :: Lower(a + b) == Lower(a) + Lower(b)
  {
  }

  predicate StartsWith(s: string, p: string) { |p| <= |s| && s[..|p|] == p }
  predicate EndsWith(s: string, p: string) { |p| <= |s| && s[|s| - |p|..] == p }

  /** A text starts with what is put before it and ends with what is put after it. */
  lemma AppendEnds(a: string, b: string)
    ensures StartsWith(a + b, a) && EndsWith(a + b, b)
  {
    assert (a + b)[..|a|] == a;
    assert (a + b)[|a + b| - |b|..] == b;
  }

  function TrimStart(s: string): (r: string)
    ensures |r| <= |s| && r == s[|s| - |r|..]
    ensures r == [] || !IsWhitespace(r[0])
  {
    if |s| > 0 && IsWhitespace(s[0]) then TrimStart(s[1..]) else s
  }

  function TrimEnd(s: string): (r: string)
    ensures |r| <= |s| && r == s[..|r|]
    ensures r == [] || !IsWhitespace(r[|r| - 1])
  {
    if |s| > 0 && IsWhitespace(s[|s| - 1]) then TrimEnd(s[..|s| - 1]) else s
  }

  /** `str::trim`. */
  function Trim(s: string): (r: string)
  {
    TrimEnd(TrimStart(s))
  }

  function TrimStartChar(s: string, c: char): (r: string)
    ensures |r| <= |s| && r == s[|s| - |r|..]
    ensures r == [] || r[0] != c
  {
    if |s| > 0 && s[0] == c then TrimStartChar(s[1..], c) else s
  }

  function TrimEndChar(s: string, c: char): (r: string)
    ensures |r| <= |s| && r == s[..|r|]
    ensures r == [] || r[|r| - 1] != c
  {
    if |s| > 0 && s[|s| - 1] == c then TrimEndChar(s[..|s| - 1], c) else s
  }

  /** `str::trim_matches(c)`: every leading and every trailing `c` removed. */
  function TrimMatches(s: string, c: char): (r: string)
  {
    TrimEndChar(TrimStartChar(s, c), c)
  }

  /** `str::find(c)`: the index of the first `c`. */
  function Find(s: string, c: char): (r: Option<nat>)
    ensures r.None? <==> c !in s
    ensures r.Some? ==> r.value < |s| && s[r.value] == c && c !in s[..r.value]
  {
    if |s| == 0 then None
    else if s[0] == c then Some(0)
    else match Find(s[1..], c)
      case None => None
      case Some(i) => assert s[1..][..i] == s[1..i + 1]; Some(i + 1)
  }

  /** `str::split_once(c)`: the text before and after the first `c`. */
  function SplitOnce(s: string, c: char): (r: Option<(string, string)>)
    ensures r.None? <==> c !in s
    ensures r.Some? ==> s == r.value.0 + [c] + r.value.1 && c !in r.value.0
  {
    match Find(s, c)
    case None => None
    case Some(i) => Some((s[..i], s[i + 1..]))
  }

  /** `str::replace(p, r)`: every non-overlapping `p`, scanning left to right, becomes `r`. */
  function Replace(s: string, p: string, r: string): (out: string)
    requires |p| > 0
    decreases |s|
  {
    if |s| < |p| then s
    else if s[..|p|] == p then r + Replace(s[|p|..], p, r)
    else [s[0]] + Replace(s[1..], p, r)
  }

  /** Replacing one character by another works position by position. */
  lemma {:induction false} ReplaceCharAt(s: string, a: char, b: char)
    ensures |Replace(s, [a], [b])| == |s|
    ensures forall i :: 0 <= i < |s| ==> Replace(s, [a], [b])[i] == if s[i] == a then b else s[i]
    decreases |s|
  {
    if |s| >= 1 {
      ReplaceCharAt(s[1..], a, b);
      if s[..1] == [a] {
        assert s[1..] == s[|[a]|..];
      }
    }
  }

  /** A one-character pattern cannot straddle a concatenation. */
  lemma {:induction false} ReplaceCharConcat(x: string, y: string, a: char, b: char)
    ensures Replace(x + y, [a], [b]) == Replace(x, [a], [b]) + Replace(y, [a], [b])
  {
    ReplaceCharAt(x + y, a, b);
    ReplaceCharAt(x, a, b);
    ReplaceCharAt(y, a, b);
    var l, r := Replace(x + y, [a], [b]), Replace(x, [a], [b]) + Replace(y, [a], [b]);
    forall i | 0 <= i < |l| ensures l[i] == r[i] {
      if i >= |x| {
        assert (x + y)[i] == y[i - |x|];
      }
    }
  }

  lemma ReplaceCharAbsent(s: string, a: char, b: char)
    requires a !in s
    ensures Replace(s, [a], [b]) == s
  {
    ReplaceCharAt(s, a, b);
  }

  /** Joining with `a` and then replacing `a` by `b` is joining with `b`. */
  lemma {:induction false} ReplaceInJoin(ws: seq<string>, a: char, b: char)
    requires forall k :: 0 <= k < |ws| ==> a !in ws[k]
    ensures Replace(Join(ws, [a]), [a], [b]) == Join(ws, [b])
  {
    if |ws| == 1 {
      ReplaceCharAbsent(ws[0], a, b);
    } else if |ws| > 1 {
      ReplaceInJoin(ws[1..], a, b);
      ReplaceCharConcat(ws[0] + [a], Join(ws[1..], [a]), a, b);
      ReplaceCharConcat(ws[0], [a], a, b);
      ReplaceCharAbsent(ws[0], a, b);
      ReplaceCharAt([a], a, b);
      assert Join(ws, [a]) == ws[0] + [a] + Join(ws[1..], [a]);
    }
  }

  /** `str::split(c)`: the pieces between occurrences of `c`, empty ones included. */
  function SplitChar(s: string, c: char): (parts: seq<string>)
    ensures |parts| >= 1
    ensures forall k :: 0 <= k < |parts| ==> c !in parts[k]
  {
    if |s| == 0 then [[]]
    else if s[0] == c then [[]] + SplitChar(s[1..], c)
    else
      var rest := SplitChar(s[1..], c);
      [[s[0]] + rest[0]] + rest[1..]
  }

  /** `str::split(|c| !c.is_alphanumeric())`: the pieces between non-alphanumeric characters. */
  function SplitNonAlnum(s: string): (parts: seq<string>)
    ensures |parts| >= 1
    ensures forall k :: 0 <= k < |parts| ==> AllAlnum(parts[k])
  {
    if |s| == 0 then [[]]
    else if !IsAlnum(s[0]) then [[]] + SplitNonAlnum(s[1..])
    else
      var rest := SplitNonAlnum(s[1..]);
      [[s[0]] + rest[0]] + rest[1..]
  }

  /** `.filter(|w| !w.is_empty())`. */
  function NonEmpty(parts: seq<string>): (r: seq<string>)
    ensures forall k :: 0 <= k < |r| ==> r[k] != []
    ensures forall k :: 0 <= k < |r| ==> r[k] in parts
  {
    if |parts| == 0 then []
    else if parts[0] == [] then NonEmpty(parts[1..])
    else [parts[0]] + NonEmpty(parts[1..])
  }

  /** `[String]::join(sep)`. */
  function Join(parts: seq<string>, sep: string): (r: string)
  {
    if |parts| == 0 then []
    else if |parts| == 1 then parts[0]
    else parts[0] + sep + Join(parts[1..], sep)
  }

  /** `[String]::concat()`. */
  function Concat(parts: seq<string>): (r: string)
  {
    if |parts| == 0 then [] else parts[0] + Concat(parts[1..])
  }

  function StripCarriageReturn(line: string): (r: string)
  {
    if |line| > 0 && line[|line| - 1] == '\r' then line[..|line| - 1] else line
  }

  /**
   * `str::lines()`: split at '\n', a '\r' before the '\n' dropped, and no
   * final empty line after a trailing '\n'.
   */
  function Lines(s: string): (r: seq<string>)
    decreases |s|
  {
    if |s| == 0 then []
    else match Find(s, '\n')
      case None => [s]
      case Some(i) => [StripCarriageReturn(s[..i])] + Lines(s[i + 1..])
  }

  /** `str::parse::<bool>()`: exactly "true" or "false". */
  function ParseBool(s: string): (r: Option<bool>)
    ensures r == Some(true) <==> s == "true"
    ensures r == Some(false) <==> s == "false"
  {
    if s == "true" then Some(true) else if s == "false" then Some(false) else None
  }

  function BoolText(b: bool): (r: string)
    ensures ParseBool(r) == Some(b)
  {
    if b then "true" else "false"
  }
  // ---------------------------------------------------------------- trimming and splitting facts

  lemma AbsentFromSlice(s: string, c: char, i: nat, j: nat)
    requires i <= j <= |s| && c !in s
    ensures c !in s[i..j]
  {
    forall k | 0 <= k < j - i ensures s[i..j][k] != c {
      assert s[i..j][k] == s[i + k];
    }
  }

  /** Trimming only removes characters, so a character absent before is absent after. */
  lemma TrimKeepsAbsent(s: string, c: char)
    requires c !in s
    ensures c !in Trim(s)
    ensures forall d :: c !in TrimMatches(s, d)
  {
    var t := TrimStart(s);
    AbsentFromSlice(s, c, |s| - |t|, |s|);
    AbsentFromSlice(t, c, 0, |TrimEnd(t)|);
    forall d ensures c !in TrimMatches(s, d) {
      var u := TrimStartChar(s, d);
      AbsentFromSlice(s, c, |s| - |u|, |s|);
      AbsentFromSlice(u, c, 0, |TrimEndChar(u, d)|);
    }
  }

  /** A string with no whitespace at either end is its own trim. */
  lemma TrimPlain(s: string)
    requires s == [] || (!IsWhitespace(s[0]) && !IsWhitespace(s[|s| - 1]))
    ensures Trim(s) == s
  {
  }

  /** Trimming twice is trimming once. */
  lemma TrimTwice(s: string)
    ensures Trim(Trim(s)) == Trim(s)
  {
    var t := TrimStart(s);
    assert Trim(s) == [] || Trim(s)[0] == t[0];
    TrimPlain(Trim(s));
  }

  /** Leading whitespace, as in an indented line, is trimmed away. */
  lemma {:induction false} TrimIndented(indent: string, s: string)
    requires forall i :: 0 <= i < |indent| ==> IsWhitespace(indent[i])
    requires s == [] || (!IsWhitespace(s[0]) && !IsWhitespace(s[|s| - 1]))
    ensures Trim(indent + s) == s
    decreases |indent|
  {
    if indent == [] {
      assert indent + s == s;
      TrimPlain(s);
    } else {
      assert (indent + s)[1..] == indent[1..] + s;
      TrimIndented(indent[1..], s);
    }
  }

  /** A string that neither starts nor ends with `c` is its own `trim_matches(c)`. */
  lemma TrimMatchesPlain(s: string, c: char)
    requires s == [] || (s[0] != c && s[|s| - 1] != c)
    ensures TrimMatches(s, c) == s
  {
  }

  lemma {:induction false} SplitCharAbsent(x: string, c: char)
    requires c !in x
    ensures SplitChar(x, c) == [x]
    decreases |x|
  {
    if |x| > 0 {
      SplitCharAbsent(x[1..], c);
      assert [x[0]] + x[1..] == x;
    }
  }

  lemma {:induction false} SplitCharAt(x: string, c: char, y: string)
    requires c !in x
    ensures SplitChar(x + [c] + y, c) == [x] + SplitChar(y, c)
    decreases |x|
  {
    if |x| == 0 {
      assert x + [c] + y == [c] + y;
      assert ([c] + y)[1..] == y;
    } else {
      var s := x + [c] + y;
      assert s[0] == x[0] && s[1..] == x[1..] + [c] + y;
      SplitCharAt(x[1..], c, y);
      assert [x[0]] + x[1..] == x;
    }
  }

  /** Splitting a join at its separator gives the pieces back. */
  lemma {:induction false} SplitCharOfJoin(ws: seq<string>, c: char)
    requires |ws| >= 1 && forall k :: 0 <= k < |ws| ==> c !in ws[k]
    ensures SplitChar(Join(ws, [c]), c) == ws
    decreases |ws|
  {
    if |ws| == 1 {
      SplitCharAbsent(ws[0], c);
    } else {
      SplitCharOfJoin(ws[1..], c);
      SplitCharAt(ws[0], c, Join(ws[1..], [c]));
      assert [ws[0]] + ws[1..] == ws;
    }
  }
  /** The first occurrence is the one `find` reports. */
  lemma {:induction false} FindFirst(s: string, c: char, i: nat)
    requires i < |s| && s[i] == c && c !in s[..i]
    ensures Find(s, c) == Some(i)
    decreases i
  {
    if i > 0 {
      assert s[0] == s[..i][0];
      assert s[1..][..i - 1] == s[1..i];
      AbsentFromSlice(s[..i], c, 1, i);
      assert s[..i][1..i] == s[1..][..i - 1];
      FindFirst(s[1..], c, i - 1);
    }
  }

  /** Splitting at a separator between two texts splits each of them. */
  lemma {:induction false} SplitCharConcat(x: string, c: char, y: string)
    ensures SplitChar(x + [c] + y, c) == SplitChar(x, c) + SplitChar(y, c)
    decreases |x|
  {
    var s := x + [c] + y;
    if |x| == 0 {
      assert s == [c] + y && s[1..] == y;
    } else {
      assert s[0] == x[0] && s[1..] == x[1..] + [c] + y;
      SplitCharConcat(x[1..], c, y);
    }
  }

  /** Joining the pieces of a split with the separator gives the text back. */
  lemma {:induction false} JoinOfSplit(s: string, c: char)
    ensures Join(SplitChar(s, c), [c]) == s
    decreases |s|
  {
    if |s| > 0 {
      JoinOfSplit(s[1..], c);
      var rest := SplitChar(s[1..], c);
      if s[0] == c {
        assert SplitChar(s, c) == [[]] + rest;
        assert ([[]] + rest)[1..] == rest;
      } else {
        var parts := [[s[0]] + rest[0]] + rest[1..];
        assert SplitChar(s, c) == parts;
        if |rest| > 1 {
          assert parts[1..] == rest[1..];
          assert Join(rest, [c]) == rest[0] + [c] + Join(rest[1..], [c]);
        }
      }
      assert s == [s[0]] + s[1..];
    }
  }
}
