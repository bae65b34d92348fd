/**
 * The loop both configuration readers run: a state updated by each line in
 * turn, from the first line to the last.  The facts here hold for any step,
 * so proofs about a particular reader never need to unfold its step more
 * than once per line.
 */
module LineFold {

  /** The state after every line, from the first to the last. */
  function Fold<S>(step: (S, string) -> S, s: S, lines: seq<string>): S
    decreases |lines|
  {
    if lines == [] then s else step(Fold(step, s, lines[..|lines| - 1]), lines[|lines| - 1])
  }

  /** Lines that every state ignores leave the start state as it is. */
  lemma {:induction false} FoldFixed<S>(step: (S, string) -> S, s: S, lines: seq<string>)
    requires forall i, t :: 0 <= i < |lines| ==> step(t, lines[i]) == t
    ensures Fold(step, s, lines) == s
    decreases |lines|
  {
    if lines != [] {
      var init := lines[..|lines| - 1];
      assert forall i, t :: 0 <= i < |init| ==> step(t, init[i]) == step(t, lines[i]);
      FoldFixed(step, s, init);
    }
  }

  /** One more line of a list is one more step. */
  lemma FoldPrefix<S>(step: (S, string) -> S, s: S, lines: seq<string>, i: nat)
    requires i < |lines|
    ensures Fold(step, s, lines[..i + 1]) == step(Fold(step, s, lines[..i]), lines[i])
  {
    assert lines[..i + 1][..i] == lines[..i];
  }

  lemma FoldSnoc<S>(step: (S, string) -> S, s: S, lines: seq<string>, line: string)
    ensures Fold(step, s, lines + [line]) == step(Fold(step, s, lines), line)
  {
    assert (lines + [line])[..|lines|] == lines;
  }

  /** A line the step ignores can be inserted anywhere without changing the outcome. */
  lemma {:induction false} FoldIgnored<S>(step: (S, string) -> S, s: S, a: seq<string>, raw: string,
                                          b: seq<string>)
    requires forall t :: step(t, raw) == t
    ensures Fold(step, s, a + [raw] + b) == Fold(step, s, a + b)
    decreases |b|
  {
    if b == [] {
      assert a + [raw] + b == a + [raw];
      assert a + b == a;
      FoldSnoc(step, s, a, raw);
    } else {
      var b' := b[..|b| - 1];
      var last := b[|b| - 1];
      assert a + [raw] + b == (a + [raw] + b') + [last];
      assert a + b == (a + b') + [last];
      FoldSnoc(step, s, a + [raw] + b', last);
      FoldSnoc(step, s, a + b', last);
      FoldIgnored(step, s, a, raw, b');
    }
  }

  /** Six lines, each taking the state to the next: the fold ends in the last state. */
  lemma FoldSix<S>(step: (S, string) -> S, s: S, lines: seq<string>, s1: S, s2: S, s3: S, s4: S, s5: S, s6: S)
    requires |lines| == 6
    requires step(s, lines[0]) == s1 && step(s1, lines[1]) == s2 && step(s2, lines[2]) == s3
    requires step(s3, lines[3]) == s4 && step(s4, lines[4]) == s5 && step(s5, lines[5]) == s6
    ensures Fold(step, s, lines) == s6
  {
    assert lines[..0] == [];
    FoldPrefix(step, s, lines, 0);
    FoldPrefix(step, s, lines, 1);
    FoldPrefix(step, s, lines, 2);
    FoldPrefix(step, s, lines, 3);
    FoldPrefix(step, s, lines, 4);
    FoldPrefix(step, s, lines, 5);
    assert lines[..6] == lines;
  }

  /** Two lists whose lines every state steps over alike fold alike. */
  lemma {:induction false} FoldAlike<S>(step: (S, string) -> S, s: S, a: seq<string>, b: seq<string>)
    requires |a| == |b|
    requires forall i, t :: 0 <= i < |a| ==> step(t, a[i]) == step(t, b[i])
    ensures Fold(step, s, a) == Fold(step, s, b)
    decreases |a|
  {
    if a != [] {
      var a' := a[..|a| - 1];
      var b' := b[..|b| - 1];
      assert forall i, t :: 0 <= i < |a'| ==> step(t, a'[i]) == step(t, b'[i]) by {
        forall i, t | 0 <= i < |a'|
          ensures step(t, a'[i]) == step(t, b'[i])
        {
          assert a'[i] == a[i] && b'[i] == b[i];
        }
      }
      FoldAlike(step, s, a', b');
      assert step(Fold(step, s, a'), a[|a| - 1]) == step(Fold(step, s, a'), b[|b| - 1]);
    }
  }

  /** The first line is the first step. */
  lemma {:induction false} FoldCons<S>(step: (S, string) -> S, s: S, line: string, rest: seq<string>)
    ensures Fold(step, s, [line] + rest) == Fold(step, step(s, line), rest)
    decreases |rest|
  {
    if rest == [] {
      assert [line] + rest == [] + [line];
      FoldSnoc(step, s, [], line);
    } else {
      var init := rest[..|rest| - 1];
      var last := rest[|rest| - 1];
      assert [line] + rest == ([line] + init) + [last];
      assert rest == init + [last];
      FoldSnoc(step, s, [line] + init, last);
      FoldSnoc(step, step(s, line), init, last);
      FoldCons(step, s, line, init);
    }
  }
}
