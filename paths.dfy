/**
 * Paths as `std::path::Path` reads them on Unix: a sequence of components,
 * with `join` as the output paths of both engines use it.
 */
module Paths {
  import opened Strings

  /**
   * A component of a path as `Path::components` yields it on Unix: the
   * root `/`, a leading `.`, `..`, or a normal name (non-empty, without
   * '/', and neither "." nor "..").  Interior `.` components and empty
   * pieces never appear.
   */
  datatype Component = RootDir | CurDir | ParentDir | Normal(name: string)

  /** A text that `Path::components` reads as one normal name. */
  predicate IsNormalName(s: string)
  {
    s != "" && s != "." && s != ".." && '/' !in s
  }

  /** The components of the '/'-separated pieces of a text: empty and `.` pieces vanish. */
  function PieceComponents(pieces: seq<string>): (cs: seq<Component>)
    ensures forall k :: 0 <= k < |cs| ==> cs[k].ParentDir? || cs[k].Normal?
  {
    if pieces == [] then []
    else
      var head := if pieces[0] == "" || pieces[0] == "." then []
                  else if pieces[0] == ".." then [ParentDir]
                  else [Normal(pieces[0])];
      head + PieceComponents(pieces[1..])
  }

  /** `Path::new(s).components()`: a leading root or `.`, then the pieces between the '/'s. */
  function Components(s: string): (cs: seq<Component>)
    ensures StartsWith(s, "/") ==> cs != [] && cs[0] == RootDir
  {
    (if StartsWith(s, "/") then [RootDir]
     else if s == "." || StartsWith(s, "./") then [CurDir]
     else [])
    + PieceComponents(SplitChar(s, '/'))
  }

  /**
   * The components of `parent.join(f)`: an absolute `f` replaces the parent,
   * an empty parent leaves `f` alone, and otherwise the pieces of `f` follow
   * the parent.
   */
  function JoinPath(parent: seq<Component>, f: string): (cs: seq<Component>)
  {
    if StartsWith(f, "/") || parent == [] then Components(f)
    else parent + PieceComponents(SplitChar(f, '/'))
  }

  /** A normal name is one component, whatever parent it is joined to. */
  lemma NormalNameComponents(f: string)
    requires IsNormalName(f)
    ensures PieceComponents(SplitChar(f, '/')) == [Normal(f)]
    ensures Components(f) == [Normal(f)]
  {
    SplitCharAbsent(f, '/');
    assert PieceComponents([f]) == [Normal(f)] + PieceComponents([]);
  }

  /** A relative `a/b` joined to a non-empty parent is two more components. */
  lemma JoinNested(parent: seq<Component>, a: string, b: string)
    requires parent != [] && IsNormalName(a) && IsNormalName(b)
    ensures JoinPath(parent, a + "/" + b) == parent + [Normal(a), Normal(b)]
  {
    SplitCharAt(a, '/', b);
    NormalNameComponents(b);
    assert a + "/" + b == a + ['/'] + b;
    var f := a + "/" + b;
    assert f[0] == a[0] && a[0] in a;
    assert !StartsWith(f, "/");
    var pieces := [a] + SplitChar(b, '/');
    assert PieceComponents(pieces) == [Normal(a)] + PieceComponents(pieces[1..]);
    assert pieces[1..] == SplitChar(b, '/');
    assert SplitChar(f, '/') == pieces;
    assert PieceComponents(pieces) == [Normal(a), Normal(b)];
    assert JoinPath(parent, f) == parent + [Normal(a), Normal(b)];
  }

  /** `.` joined to a non-empty parent adds nothing: `src/.` has the components of `src`. */
  lemma JoinCurrent(parent: seq<Component>)
    requires parent != []
    ensures JoinPath(parent, ".") == parent
  {
    SplitCharAbsent(".", '/');
    assert PieceComponents(["."]) == [] + PieceComponents([]);
  }
}
