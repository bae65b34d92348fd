/**
 * What `generate_boolean_helpers` writes into the template data
 * (src/template_engine.rs and src/template_engine/renderer.rs carry the same
 * function).  For each declared option, in the map's iteration order
 * `order`: when it lists possible values and its variable has a value, one
 * `{var}_is_{value with '-' as '_'}` flag per possible value, true iff the
 * variable equals that (unsanitised) value; then, when its type is
 * "boolean" and its variable has a value, `{var}_bool`, the variable's
 * truthiness.
 *
 * The insertions are first listed (`HelperWrites`) and then applied in
 * order (`ApplyWrites`); the method `GenerateBooleanHelpers`, which models
 * the source loop of both files, is proved equal to that.
 */
module BooleanFlags {
  import opened Strings
  import opened Truthiness
  import opened EngineConfig
  import opened Json
  import opened Ordering

  /** One `data_map.insert(key, value)`. */
  datatype Write = Write(key: string, value: Value)

  function EnumFlagName(varName: string, possible: string): string
  {
    varName + "_is_" + Replace(possible, "-", "_")
  }

  function BoolFlagName(varName: string): string
  {
    varName + "_bool"
  }

  /** The flags of one enumerated option, in the order of its possible values. */
  function EnumWrites(varName: string, current: string, values: seq<string>): (ws: seq<Write>)
    ensures |ws| == |values|
    ensures forall j :: 0 <= j < |values| ==> ws[j] == Write(EnumFlagName(varName, values[j]), Bool(current == values[j]))
    decreases |values|
  {
    if values == [] then []
    else
      var last := values[|values| - 1];
      EnumWrites(varName, current, values[..|values| - 1]) + [Write(EnumFlagName(varName, last), Bool(current == last))]
  }

  function OptionWrites(variables: map<string, string>, varName: string, option: VariableOption): (ws: seq<Write>)
    ensures forall k :: 0 <= k < |ws| ==> ws[k].value.Bool?
  {
    (if option.possibleValues != [] && varName in variables
     then EnumWrites(varName, variables[varName], option.possibleValues) else [])
    + (if option.varType == "boolean" && varName in variables
       then [Write(BoolFlagName(varName), Bool(IsTruthy(variables[varName])))] else [])
  }

  /** Every insertion, option by option in `order`. */
  function HelperWrites(variables: map<string, string>, options: map<string, VariableOption>, order: seq<string>): (ws: seq<Write>)
    requires forall i :: 0 <= i < |order| ==> order[i] in options
    ensures forall k :: 0 <= k < |ws| ==> ws[k].value.Bool?
    ensures order == [] || variables == map[] ==> ws == []
    decreases |order|
  {
    if order == [] then []
    else
      var last := order[|order| - 1];
      HelperWrites(variables, options, order[..|order| - 1]) + OptionWrites(variables, last, options[last])
  }

  /** The insertions applied to `m` from first to last. */
  function ApplyWrites(m: Object, ws: seq<Write>): (r: Object)
    ensures m.Keys <= r.Keys
    ensures forall j :: 0 <= j < |ws| ==> ws[j].key in r
    decreases |ws|
  {
    if ws == [] then m
    else
      var last := ws[|ws| - 1];
      ApplyWrites(m, ws[..|ws| - 1])[last.key := last.value]
  }

  // ---------------------------------------------------------------- the source loop

  /**
   * `generate_boolean_helpers`, with the options visited in the iteration
   * order `order`: the data map ends as the listed insertions applied to it.
   */
  method GenerateBooleanHelpers(variables: map<string, string>, optionsMetadata: map<string, VariableOption>,
                                order: seq<string>, dataMap: Object) returns (out: Object)
    requires IsOrder(order, optionsMetadata)
    ensures out == ApplyWrites(dataMap, HelperWrites(variables, optionsMetadata, order))
  {
    out := dataMap;
    for i := 0 to |order|
      invariant out == ApplyWrites(dataMap, HelperWrites(variables, optionsMetadata, order[..i]))
    {
      var varName := order[i];
      var optionMeta := optionsMetadata[varName];
      ghost var start := out;
      if optionMeta.possibleValues != [] {
        if varName in variables {
          var currentValue := variables[varName];
          var values := optionMeta.possibleValues;
          assert values[..0] == [];
          for j := 0 to |values|
            invariant out == ApplyWrites(start, EnumWrites(varName, currentValue, values[..j]))
          {
            var possibleValue := values[j];
            var sanitizedValue := Replace(possibleValue, "-", "_");
            var helperName := varName + "_is_" + sanitizedValue;
            var isMatch := currentValue == possibleValue;
            EnumStep(varName, currentValue, values, j);
            ApplySnoc(start, EnumWrites(varName, currentValue, values[..j]), Write(helperName, Bool(isMatch)));
            out := out[helperName := Bool(isMatch)];
          }
          assert values[..|values|] == values;
        }
      }
      if optionMeta.varType == "boolean" {
        if varName in variables {
          var value := variables[varName];
          var isTrue := IsTruthy(value);
          var helperName := varName + "_bool";
          out := out[helperName := Bool(isTrue)];
        }
      }
      OptionApplied(start, variables, varName, optionMeta);
      HelperApplied(dataMap, variables, optionsMetadata, order, i);
    }
    assert order[..|order|] == order;
  }

  // ---------------------------------------------------------------- applying insertions

  lemma ApplySnoc(m: Object, ws: seq<Write>, w: Write)
    ensures ApplyWrites(m, ws + [w]) == ApplyWrites(m, ws)[w.key := w.value]
  {
    assert (ws + [w])[..|ws|] == ws;
  }

  lemma {:induction false} ApplyAppend(m: Object, a: seq<Write>, b: seq<Write>)
    ensures ApplyWrites(m, a + b) == ApplyWrites(ApplyWrites(m, a), b)
    decreases |b|
  {
    if b != [] {
      var init := b[..|b| - 1];
      ApplyAppend(m, a, init);
      assert (a + b)[..|a + b| - 1] == a + init;
    } else {
      assert a + b == a;
    }
  }

  /** One more option of the order adds its own insertions at the end. */
  lemma HelperStep(variables: map<string, string>, options: map<string, VariableOption>, order: seq<string>, i: nat)
    requires i < |order| && forall k :: 0 <= k < |order| ==> order[k] in options
    ensures HelperWrites(variables, options, order[..i + 1])
      == HelperWrites(variables, options, order[..i]) + OptionWrites(variables, order[i], options[order[i]])
  {
    assert order[..i + 1][..i] == order[..i];
  }

  /** The insertions of one option, applied: the enumerated flags first, then the boolean flag. */
  lemma OptionApplied(m: Object, variables: map<string, string>, varName: string, option: VariableOption)
    ensures var afterEnum := if option.possibleValues != [] && varName in variables
        then ApplyWrites(m, EnumWrites(varName, variables[varName], option.possibleValues)) else m;
      ApplyWrites(m, OptionWrites(variables, varName, option))
      == if option.varType == "boolean" && varName in variables
         then afterEnum[BoolFlagName(varName) := Bool(IsTruthy(variables[varName]))] else afterEnum
  {
    var enumPart := if option.possibleValues != [] && varName in variables
      then EnumWrites(varName, variables[varName], option.possibleValues) else [];
    var boolPart := if option.varType == "boolean" && varName in variables
      then [Write(BoolFlagName(varName), Bool(IsTruthy(variables[varName])))] else [];
    ApplyAppend(m, enumPart, boolPart);
  }

  /** Applying the insertions of one more option of the order. */
  lemma HelperApplied(m: Object, variables: map<string, string>, options: map<string, VariableOption>, order: seq<string>, i: nat)
    requires i < |order| && forall k :: 0 <= k < |order| ==> order[k] in options
    ensures ApplyWrites(m, HelperWrites(variables, options, order[..i + 1]))
      == ApplyWrites(ApplyWrites(m, HelperWrites(variables, options, order[..i])), OptionWrites(variables, order[i], options[order[i]]))
  {
    HelperStep(variables, options, order, i);
    ApplyAppend(m, HelperWrites(variables, options, order[..i]), OptionWrites(variables, order[i], options[order[i]]));
  }

  /** One more possible value adds its own flag at the end. */
  lemma EnumStep(varName: string, current: string, values: seq<string>, j: nat)
    requires j < |values|
    ensures EnumWrites(varName, current, values[..j + 1])
      == EnumWrites(varName, current, values[..j]) + [Write(EnumFlagName(varName, values[j]), Bool(current == values[j]))]
  {
    assert values[..j + 1][..j] == values[..j];
  }

  /** A key no insertion names keeps its presence and its value. */
  lemma {:induction false} ApplyUntouched(m: Object, ws: seq<Write>, k: string)
    requires forall j :: 0 <= j < |ws| ==> ws[j].key != k
    ensures k in ApplyWrites(m, ws) <==> k in m
    ensures k in m ==> ApplyWrites(m, ws)[k] == m[k]
    decreases |ws|
  {
    if ws != [] {
      ApplyUntouched(m, ws[..|ws| - 1], k);
    }
  }

  /** A key whose every insertion carries the same value ends with that value. */
  lemma {:induction false} ApplyAgreed(m: Object, ws: seq<Write>, k: string, v: Value, j0: nat)
    requires j0 < |ws| && ws[j0].key == k
    requires forall j :: 0 <= j < |ws| && ws[j].key == k ==> ws[j].value == v
    ensures k in ApplyWrites(m, ws) && ApplyWrites(m, ws)[k] == v
    decreases |ws|
  {
    var last := ws[|ws| - 1];
    if last.key != k {
      ApplyAgreed(m, ws[..|ws| - 1], k, v, j0);
    }
  }

  // ---------------------------------------------------------------- what is inserted

  /** An insertion the source can make: a flag of a declared option whose variable has a value. */
  predicate FlagWrite(variables: map<string, string>, options: map<string, VariableOption>, w: Write)
  {
    || (exists n, p :: n in options && n in variables && p in options[n].possibleValues
          && w == Write(EnumFlagName(n, p), Bool(variables[n] == p)))
    || (exists n :: n in options && n in variables && options[n].varType == "boolean"
          && w == Write(BoolFlagName(n), Bool(IsTruthy(variables[n]))))
  }

  /** Soundness: every insertion is a flag of an option whose variable has a value. */
  lemma {:induction false} WritesAreFlags(variables: map<string, string>, options: map<string, VariableOption>, order: seq<string>)
    requires forall i :: 0 <= i < |order| ==> order[i] in options
    ensures forall j :: 0 <= j < |HelperWrites(variables, options, order)| ==> FlagWrite(variables, options, HelperWrites(variables, options, order)[j])
    decreases |order|
  {
    if order != [] {
      var prefix := order[..|order| - 1];
      var n := order[|order| - 1];
      WritesAreFlags(variables, options, prefix);
      var before := HelperWrites(variables, options, prefix);
      var ow := OptionWrites(variables, n, options[n]);
      assert HelperWrites(variables, options, order) == before + ow;
      forall j | 0 <= j < |ow| ensures FlagWrite(variables, options, ow[j]) {
        var option := options[n];
        var enum := if option.possibleValues != [] && n in variables then EnumWrites(n, variables[n], option.possibleValues) else [];
        if j < |enum| {
          var p := option.possibleValues[j];
          assert ow[j] == Write(EnumFlagName(n, p), Bool(variables[n] == p));
        } else {
          assert ow[j] == Write(BoolFlagName(n), Bool(IsTruthy(variables[n])));
        }
      }
    }
  }

  /** Completeness for one option: its enum flags and its boolean flag are among the insertions. */
  lemma {:induction false} FlagsAreWritten(variables: map<string, string>, options: map<string, VariableOption>, order: seq<string>, n: string)
    requires forall i :: 0 <= i < |order| ==> order[i] in options
    requires n in order && n in variables
    ensures forall p :: p in options[n].possibleValues ==>
      Write(EnumFlagName(n, p), Bool(variables[n] == p)) in HelperWrites(variables, options, order)
    ensures options[n].varType == "boolean" ==>
      Write(BoolFlagName(n), Bool(IsTruthy(variables[n]))) in HelperWrites(variables, options, order)
    decreases |order|
  {
    var prefix := order[..|order| - 1];
    var last := order[|order| - 1];
    var before := HelperWrites(variables, options, prefix);
    var ow := OptionWrites(variables, last, options[last]);
    assert HelperWrites(variables, options, order) == before + ow;
    if last == n {
      OwnWrites(variables, n, options[n], before);
    } else {
      assert n in prefix;
      FlagsAreWritten(variables, options, prefix, n);
    }
  }

  /** An option's own insertions, placed after any others, hold its enum flags and its boolean flag. */
  lemma OwnWrites(variables: map<string, string>, n: string, option: VariableOption, before: seq<Write>)
    requires n in variables
    ensures forall p :: p in option.possibleValues ==>
      Write(EnumFlagName(n, p), Bool(variables[n] == p)) in before + OptionWrites(variables, n, option)
    ensures option.varType == "boolean" ==>
      Write(BoolFlagName(n), Bool(IsTruthy(variables[n]))) in before + OptionWrites(variables, n, option)
  {
    var ow := OptionWrites(variables, n, option);
    forall p | p in option.possibleValues
      ensures Write(EnumFlagName(n, p), Bool(variables[n] == p)) in before + ow
    {
      var j :| 0 <= j < |option.possibleValues| && option.possibleValues[j] == p;
      var enum := EnumWrites(n, variables[n], option.possibleValues);
      assert ow == enum + (if option.varType == "boolean" then [Write(BoolFlagName(n), Bool(IsTruthy(variables[n])))] else []);
      assert (before + ow)[|before| + j] == enum[j];
    }
    if option.varType == "boolean" {
      assert ow[|ow| - 1] == Write(BoolFlagName(n), Bool(IsTruthy(variables[n])));
      assert (before + ow)[|before| + |ow| - 1] == ow[|ow| - 1];
    }
  }

  // ---------------------------------------------------------------- the resulting data

  /** No two flags of the declared options share a name. */
  predicate DistinctFlagNames(options: map<string, VariableOption>)
  {
    && (forall n1, p1, n2, p2 ::
          n1 in options && n2 in options && p1 in options[n1].possibleValues && p2 in options[n2].possibleValues
          && EnumFlagName(n1, p1) == EnumFlagName(n2, p2)
          ==> n1 == n2 && p1 == p2)
    && (forall n1, p1, n2 :: n1 in options && n2 in options && p1 in options[n1].possibleValues
          ==> EnumFlagName(n1, p1) != BoolFlagName(n2))
  }

  lemma BoolFlagNameInjective(n1: string, n2: string)
    requires BoolFlagName(n1) == BoolFlagName(n2)
    ensures n1 == n2
  {
    assert BoolFlagName(n1)[..|n1|] == n1;
  }

  /** With distinct flag names, `{var}_is_{value}` is true exactly when the variable is that value. */
  lemma EnumFlagValue(variables: map<string, string>, options: map<string, VariableOption>, order: seq<string>,
                      m: Object, n: string, p: string)
    requires IsOrder(order, options) && DistinctFlagNames(options)
    requires n in options && n in variables && p in options[n].possibleValues
    ensures var out := ApplyWrites(m, HelperWrites(variables, options, order));
      EnumFlagName(n, p) in out && out[EnumFlagName(n, p)] == Bool(variables[n] == p)
  {
    var ws := HelperWrites(variables, options, order);
    var w := Write(EnumFlagName(n, p), Bool(variables[n] == p));
    FlagsAreWritten(variables, options, order, n);
    WritesAreFlags(variables, options, order);
    var j0 :| 0 <= j0 < |ws| && ws[j0] == w;
    forall j | 0 <= j < |ws| && ws[j].key == w.key ensures ws[j].value == w.value {
      assert FlagWrite(variables, options, ws[j]);
      assert !(exists n2 :: (n2 in options && n2 in variables && options[n2].varType == "boolean"
          && ws[j] == Write(BoolFlagName(n2), Bool(IsTruthy(variables[n2])))));
      var n2, p2 :| n2 in options && n2 in variables && p2 in options[n2].possibleValues
        && ws[j] == Write(EnumFlagName(n2, p2), Bool(variables[n2] == p2));
      assert EnumFlagName(n, p) == EnumFlagName(n2, p2);
    }
    ApplyAgreed(m, ws, w.key, w.value, j0);
  }
  /** `{var}_bool` carries the variable's truthiness. */
  lemma BoolFlagValue(variables: map<string, string>, options: map<string, VariableOption>, order: seq<string>,
                      m: Object, n: string)
    requires IsOrder(order, options) && DistinctFlagNames(options)
    requires n in options && n in variables && options[n].varType == "boolean"
    ensures var out := ApplyWrites(m, HelperWrites(variables, options, order));
      BoolFlagName(n) in out && out[BoolFlagName(n)] == Bool(IsTruthy(variables[n]))
  {
    var ws := HelperWrites(variables, options, order);
    var w := Write(BoolFlagName(n), Bool(IsTruthy(variables[n])));
    FlagsAreWritten(variables, options, order, n);
    WritesAreFlags(variables, options, order);
    var j0 :| 0 <= j0 < |ws| && ws[j0] == w;
    forall j | 0 <= j < |ws| && ws[j].key == w.key ensures ws[j].value == w.value {
      assert FlagWrite(variables, options, ws[j]);
      assert !(exists n2, p2 :: (n2 in options && n2 in variables && p2 in options[n2].possibleValues
        && ws[j] == Write(EnumFlagName(n2, p2), Bool(variables[n2] == p2))));
      var n2 :| n2 in options && n2 in variables && options[n2].varType == "boolean"
        && ws[j] == Write(BoolFlagName(n2), Bool(IsTruthy(variables[n2])));
      BoolFlagNameInjective(n, n2);
    }
    ApplyAgreed(m, ws, w.key, w.value, j0);
  }

  /** With distinct possible values, at most one `_is_` flag of an option is true. */
  lemma AtMostOneEnumFlag(variables: map<string, string>, options: map<string, VariableOption>, order: seq<string>,
                          m: Object, n: string, p1: string, p2: string)
    requires IsOrder(order, options) && DistinctFlagNames(options)
    requires n in options && n in variables && p1 in options[n].possibleValues && p2 in options[n].possibleValues
    requires var out := ApplyWrites(m, HelperWrites(variables, options, order));
      EnumFlagName(n, p1) in out && out[EnumFlagName(n, p1)] == Bool(true)
      && EnumFlagName(n, p2) in out && out[EnumFlagName(n, p2)] == Bool(true)
    ensures p1 == p2
  {
    EnumFlagValue(variables, options, order, m, n, p1);
    EnumFlagValue(variables, options, order, m, n, p2);
  }

  /** `k` is the name of no flag that the declared options and the variables give rise to. */
  predicate NotAFlag(variables: map<string, string>, options: map<string, VariableOption>, k: string)
  {
    && (forall n, p :: n in options && n in variables && p in options[n].possibleValues ==> k != EnumFlagName(n, p))
    && (forall n :: n in options && n in variables && options[n].varType == "boolean" ==> k != BoolFlagName(n))
  }

  /** Keys that are no flag of an option with a value keep their presence and value: no flags for absent variables. */
  lemma DataUntouched(variables: map<string, string>, options: map<string, VariableOption>, order: seq<string>,
                      m: Object, k: string)
    requires forall i :: 0 <= i < |order| ==> order[i] in options
    requires NotAFlag(variables, options, k)
    ensures var out := ApplyWrites(m, HelperWrites(variables, options, order));
      (k in out <==> k in m) && (k in m ==> out[k] == m[k])
  {
    var ws := HelperWrites(variables, options, order);
    WritesAreFlags(variables, options, order);
    forall j | 0 <= j < |ws| ensures ws[j].key != k {
      assert FlagWrite(variables, options, ws[j]);
    }
    ApplyUntouched(m, ws, k);
  }

  /** With distinct flag names the map's iteration order does not matter. */
  lemma OrderIrrelevant(variables: map<string, string>, options: map<string, VariableOption>,
                        order1: seq<string>, order2: seq<string>, m: Object)
    requires IsOrder(order1, options) && IsOrder(order2, options) && DistinctFlagNames(options)
    ensures ApplyWrites(m, HelperWrites(variables, options, order1)) == ApplyWrites(m, HelperWrites(variables, options, order2))
  {
    var a := ApplyWrites(m, HelperWrites(variables, options, order1));
    var b := ApplyWrites(m, HelperWrites(variables, options, order2));
    forall k ensures (k in a <==> k in b) && (k in a ==> a[k] == b[k]) {
      SameAtKey(variables, options, order1, order2, m, k);
    }
    SameObject(a, b);
  }

  /** Two objects with the same keys and the same value at each key are equal. */
  lemma SameObject(a: Object, b: Object)
    requires forall k :: (k in a <==> k in b) && (k in a ==> a[k] == b[k])
    ensures a == b
  {
  }

  lemma SameAtKey(variables: map<string, string>, options: map<string, VariableOption>,
                  order1: seq<string>, order2: seq<string>, m: Object, k: string)
    requires IsOrder(order1, options) && IsOrder(order2, options) && DistinctFlagNames(options)
    ensures var a := ApplyWrites(m, HelperWrites(variables, options, order1));
      var b := ApplyWrites(m, HelperWrites(variables, options, order2));
      (k in a <==> k in b) && (k in a ==> a[k] == b[k])
  {
    if exists n, p :: n in options && n in variables && p in options[n].possibleValues && k == EnumFlagName(n, p) {
      var n, p :| n in options && n in variables && p in options[n].possibleValues && k == EnumFlagName(n, p);
      EnumFlagValue(variables, options, order1, m, n, p);
      EnumFlagValue(variables, options, order2, m, n, p);
    } else if exists n :: n in options && n in variables && options[n].varType == "boolean" && k == BoolFlagName(n) {
      var n :| n in options && n in variables && options[n].varType == "boolean" && k == BoolFlagName(n);
      BoolFlagValue(variables, options, order1, m, n);
      BoolFlagValue(variables, options, order2, m, n);
    } else {
      DataUntouched(variables, options, order1, m, k);
      DataUntouched(variables, options, order2, m, k);
    }
  }

  /** A hyphen in a possible value becomes '_' in the flag name: `style_is_styled_components`. */
  lemma HyphenSanitised(a: string, b: string)
    requires '-' !in a && '-' !in b
    ensures Replace(a + "-" + b, "-", "_") == a + "_" + b
  {
    ReplaceCharConcat(a + "-", b, '-', '_');
    ReplaceCharConcat(a, "-", '-', '_');
    ReplaceCharAbsent(a, '-', '_');
    ReplaceCharAbsent(b, '-', '_');
    ReplaceCharAt("-", '-', '_');
    assert Replace("-", "-", "_") == "_" by {
      assert |Replace("-", "-", "_")| == 1;
    }
  }
}
