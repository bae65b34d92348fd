/**
 * `is_truthy`: "true", "yes" and "1" in any letter case.  The same test is
 * written out in src/template_engine/generator.rs, in
 * src/template_engine/renderer.rs and twice inline in src/template_engine.rs;
 * all of them use this one definition.
 */
module Truthiness {
  import opened Strings

  /** The three accepted spellings, stated without lower-casing the whole string; a "1" admits no variants. */
  function IsTruthy(value: string): (r: bool)
    ensures r <==> EqualsIgnoringCase(value, "true") || EqualsIgnoringCase(value, "yes") || value == "1"
  {
    LowerIsLiteral(value, "true");
    LowerIsLiteral(value, "yes");
    LowerIsLiteral(value, "1");
    assert |value| == 1 && LowerChar(value[0]) == '1' ==> value == [value[0]];
    var l := Lower(value);
    l == "true" || l == "yes" || l == "1"
  }

  /** Equal up to ASCII letter case, compared character by character. */
  predicate EqualsIgnoringCase(a: string, b: string)
  {
    |a| == |b| && forall i :: 0 <= i < |a| ==> LowerChar(a[i]) == LowerChar(b[i])
  }

  lemma LowerIsLiteral(v: string, w: string)
    requires forall i :: 0 <= i < |w| ==> LowerChar(w[i]) == w[i]
    ensures Lower(v) == w <==> EqualsIgnoringCase(v, w)
  {
    if EqualsIgnoringCase(v, w) {
      assert forall i :: 0 <= i < |w| ==> Lower(v)[i] == w[i];
    }
  }

  /** Letter case never changes the verdict. */
  lemma TruthyIgnoresCase(v: string, w: string)
    requires Lower(v) == Lower(w)
    ensures IsTruthy(v) == IsTruthy(w)
  {
  }

  /** The accepted and rejected spellings the unit tests list. */
  lemma TruthyExamples()
    ensures IsTruthy("true") && IsTruthy("True") && IsTruthy("TRUE")
    ensures IsTruthy("yes") && IsTruthy("YES") && IsTruthy("1")
    ensures !IsTruthy("false") && !IsTruthy("no") && !IsTruthy("0") && !IsTruthy("")
  {
    assert Lower("0")[0] == '0';
  }
}
