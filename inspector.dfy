/**
 * What `cli-frontend --describe` shows about a template
 * (src/template_engine/inspector.rs), as data rather than printed text: the
 * hint a file condition is displayed with, the three sorted groups of
 * files, and the `--var` settings of the usage examples.  The options and
 * the filters are visited in the iteration order of their maps, an input.
 */
module Inspector {
  import opened Wrappers
  import opened Strings
  import opened EngineConfig
  import opened Ordering
  import T = TemplateNaming
  import Generator
  import Truthiness

  // ---------------------------------------------------------------- format_condition

  /** The suffixes read as one value, tried in this order, and the value each stands for. */
  const MultiwordSuffixes: seq<(string, string)> :=
    [("_styled_components", "styled-components"), ("_tests", "true"), ("_stories", "true")]

  /** How a `--var` setting is displayed. */
  function Hint(varName: string, value: string): string
  {
    "(--var " + varName + "=" + value + ")"
  }

  /** The first of `suffixes` that `rest` ends with: the text before it and the value it stands for. */
  function KnownSuffix(rest: string, suffixes: seq<(string, string)>): (r: Option<(string, string)>)
    ensures r.Some? ==> exists i :: 0 <= i < |suffixes| && EndsWith(rest, suffixes[i].0)
                                  && r.value == (rest[..|rest| - |suffixes[i].0|], suffixes[i].1)
    ensures r.None? <==> forall i :: 0 <= i < |suffixes| ==> !EndsWith(rest, suffixes[i].0)
    decreases |suffixes|
  {
    if suffixes == [] then None
    else if EndsWith(rest, suffixes[0].0) then Some((rest[..|rest| - |suffixes[0].0|], suffixes[0].1))
    else
      var r := KnownSuffix(rest, suffixes[1..]);
      assert forall i :: 1 <= i < |suffixes| ==> suffixes[i] == suffixes[1..][i - 1];
      r
  }

  /**
   * `format_condition`: a condition without the `var_` prefix in
   * parentheses; a known suffix read as its value; otherwise a remainder
   * without '_' as a flag set to "true", and anything else split at its
   * last '_' into a name and a value.
   */
  function FormatCondition(condition: string): (r: string)
    ensures StartsWith(condition, "var_") ==> exists n, v :: r == Hint(n, v)
  {
    if !StartsWith(condition, "var_") then "(" + condition + ")"
    else
      var rest := condition[4..];
      match KnownSuffix(rest, MultiwordSuffixes)
      case Some(p) => Hint(p.0, p.1)
      case None =>
        var parts := SplitChar(rest, '_');
        if |parts| == 1 then Hint(parts[0], "true")
        else Hint(Join(parts[..|parts| - 1], "_"), parts[|parts| - 1])
  }

  // ---------------------------------------------------------------- properties of the display

  /** A condition without the prefix, such as "always" or "default", is shown in parentheses as written. */
  lemma NoPrefixShown(condition: string)
    requires !StartsWith(condition, "var_")
    ensures FormatCondition(condition) == "(" + condition + ")"
  {
  }

  /** Every suffix starts with '_'. */
  lemma SuffixesStartWithUnderscore()
    ensures forall i :: 0 <= i < |MultiwordSuffixes| ==> MultiwordSuffixes[i].0 != [] && MultiwordSuffixes[i].0[0] == '_'
  {
  }

  /** A remainder without '_' ends with no known suffix. */
  lemma NoUnderscoreNoSuffix(rest: string)
    requires '_' !in rest
    ensures KnownSuffix(rest, MultiwordSuffixes) == None
  {
    SuffixesStartWithUnderscore();
  }

  lemma PrefixedRest(condition: string, rest: string)
    requires condition == "var_" + rest
    ensures StartsWith(condition, "var_") && condition[4..] == rest
  {
  }

  /** `var_X` with `X` free of '_' is shown as the flag `X` set to "true": `var_typescript` gives `(--var typescript=true)`. */
  lemma SingleWordShown(condition: string, x: string)
    requires condition == "var_" + x && '_' !in x
    ensures FormatCondition(condition) == Hint(x, "true")
  {
    PrefixedRest(condition, x);
    NoUnderscoreNoSuffix(x);
    SplitCharAbsent(x, '_');
  }

  /**
   * `var_N_V` with `V` free of '_' and no known suffix is split at the last
   * '_', whatever `N` holds: `var_architecture_clean` gives
   * `(--var architecture=clean)`.
   */
  lemma LastUnderscoreShown(condition: string, n: string, v: string)
    requires condition == "var_" + n + "_" + v && '_' !in v
    requires KnownSuffix(n + "_" + v, MultiwordSuffixes) == None
    ensures FormatCondition(condition) == Hint(n, v)
  {
    var rest := n + "_" + v;
    assert condition == "var_" + rest;
    PrefixedRest(condition, rest);
    SplitCharConcat(n, '_', v);
    SplitCharAbsent(v, '_');
    var parts := SplitChar(rest, '_');
    assert parts == SplitChar(n, '_') + [v];
    assert parts[..|parts| - 1] == SplitChar(n, '_');
    JoinOfSplit(n, '_');
  }

  /** The three known suffixes: `var_N_styled_components`, `var_N_tests`, `var_N_stories`. */
  lemma KnownSuffixShown(condition: string, n: string, i: nat)
    requires i < |MultiwordSuffixes| && condition == "var_" + n + MultiwordSuffixes[i].0
    requires forall j :: 0 <= j < i ==> !EndsWith(n + MultiwordSuffixes[i].0, MultiwordSuffixes[j].0)
    ensures FormatCondition(condition) == Hint(n, MultiwordSuffixes[i].1)
  {
    var sfx := MultiwordSuffixes[i].0;
    var rest := n + sfx;
    assert condition == "var_" + rest;
    PrefixedRest(condition, rest);
    KnownSuffixAt(rest, MultiwordSuffixes, i);
    assert rest[..|rest| - |sfx|] == n;
  }

  lemma {:induction false} KnownSuffixAt(rest: string, suffixes: seq<(string, string)>, i: nat)
    requires i < |suffixes| && EndsWith(rest, suffixes[i].0)
    requires forall j :: 0 <= j < i ==> !EndsWith(rest, suffixes[j].0)
    ensures KnownSuffix(rest, suffixes) == Some((rest[..|rest| - |suffixes[i].0|], suffixes[i].1))
    decreases i
  {
    if i > 0 {
      KnownSuffixAt(rest, suffixes[1..], i - 1);
    }
  }

  /**
   * The hint for `var_N_V` (both free of '_', no known suffix, no
   * surrounding whitespace) is a setting under which the file is generated.
   */
  lemma ValueHintEnablesFile(condition: string, n: string, v: string)
    requires condition == "var_" + n + "_" + v && '_' !in n && '_' !in v && Trim(condition) == condition
    requires KnownSuffix(n + "_" + v, MultiwordSuffixes) == None
    ensures FormatCondition(condition) == Hint(n, v)
    ensures Generator.EvaluateFileCondition(condition, map[n := v])
  {
    LastUnderscoreShown(condition, n, v);
    ValueSettingHolds(condition, n, v);
  }

  lemma ValueSettingHolds(condition: string, n: string, v: string)
    requires Trim(condition) == "var_" + n + "_" + v && '_' !in n
    ensures Generator.EvaluateFileCondition(condition, map[n := v])
  {
    assert |n + "_" + v| > |n|;
    Generator.ValueCondition(condition, n, v, map[n := v]);
  }

  /** The hint for `var_X` (`X` free of '_', no surrounding whitespace) is a setting under which the file is generated. */
  lemma FlagHintEnablesFile(condition: string, x: string)
    requires condition == "var_" + x && '_' !in x && Trim(condition) == condition
    ensures FormatCondition(condition) == Hint(x, "true")
    ensures Generator.EvaluateFileCondition(condition, map[x := "true"])
  {
    SingleWordShown(condition, x);
    FlagSettingHolds(condition, x);
  }

  lemma FlagSettingHolds(condition: string, x: string)
    requires Trim(condition) == "var_" + x
    ensures Generator.EvaluateFileCondition(condition, map[x := "true"])
  {
    Generator.BooleanCondition(condition, x, map[x := "true"]);
    Truthiness.TruthyExamples();
  }

  // ---------------------------------------------------------------- print_file_filters

  const ComponentName := "ComponentName"

  /** A file name as displayed: the `$FILE_NAME` placeholder shown as `ComponentName`. */
  function Display(filename: string): string
  {
    Replace(filename, T.FileName, ComponentName)
  }

  /** The always-generated files, the default ones, and the conditional ones with their condition. */
  datatype FileGroups = FileGroups(always: seq<string>, defaults: seq<string>, conditional: seq<(string, string)>)

  function Merge(g: FileGroups, h: FileGroups): FileGroups
  {
    FileGroups(g.always + h.always, g.defaults + h.defaults, g.conditional + h.conditional)
  }

  /** The group one filter lands in, decided by its exact condition text. */
  function Entry(filename: string, condition: string): (g: FileGroups)
  {
    var d := Display(filename);
    if condition == "always" then FileGroups([d], [], [])
    else if condition == "default" then FileGroups([], [d], [])
    else FileGroups([], [], [(d, condition)])
  }

  /** The three lists as pushed, in the iteration order. */
  function Collected(filters: map<string, string>, order: seq<string>): (g: FileGroups)
    requires Listed(order, filters)
    ensures |g.always| + |g.defaults| + |g.conditional| == |order|
    decreases |order|
  {
    if order == [] then FileGroups([], [], [])
    else
      var k := order[|order| - 1];
      Merge(Collected(filters, order[..|order| - 1]), Entry(k, filters[k]))
  }

  function DisplayName(p: (string, string)): string { p.0 }

  /** The groups as listed: each sorted, the conditional files by their displayed name (stably). */
  function FileFilterGroups(filters: map<string, string>, order: seq<string>): (groups: FileGroups)
    requires Listed(order, filters)
    ensures |groups.always| + |groups.defaults| + |groups.conditional| == |order|
    ensures Sorted(groups.always, Id) && Sorted(groups.defaults, Id) && Sorted(groups.conditional, DisplayName)
  {
    var g := Collected(filters, order);
    SortByPerm(g.always, Id);
    SortByPerm(g.defaults, Id);
    SortByPerm(g.conditional, DisplayName);
    SortBySorted(g.always, Id);
    SortBySorted(g.defaults, Id);
    SortBySorted(g.conditional, DisplayName);
    assert |multiset(SortBy(g.always, Id))| == |g.always|;
    assert |multiset(SortBy(g.defaults, Id))| == |g.defaults|;
    assert |multiset(SortBy(g.conditional, DisplayName))| == |g.conditional|;
    FileGroups(SortBy(g.always, Id), SortBy(g.defaults, Id), SortBy(g.conditional, DisplayName))
  }

  /** The grouping loop of `print_file_filters` and the three sorts. */
  method GroupFileFilters(filters: map<string, string>, order: seq<string>) returns (groups: FileGroups)
    requires IsOrder(order, filters)
    ensures groups == FileFilterGroups(filters, order)
  {
    var alwaysFiles: seq<string> := [];
    var conditionalFiles: seq<(string, string)> := [];
    var defaultFiles: seq<string> := [];
    for i := 0 to |order|
      invariant Collected(filters, order[..i]) == FileGroups(alwaysFiles, defaultFiles, conditionalFiles)
    {
      assert order[..i + 1][..i] == order[..i];
      var filename := order[i];
      var condition := filters[filename];
      var displayName := Display(filename);
      if condition == "always" {
        alwaysFiles := alwaysFiles + [displayName];
      } else if condition == "default" {
        defaultFiles := defaultFiles + [displayName];
      } else {
        conditionalFiles := conditionalFiles + [(displayName, condition)];
      }
    }
    assert order[..|order|] == order;
    groups := FileGroups(SortBy(alwaysFiles, Id), SortBy(defaultFiles, Id), SortBy(conditionalFiles, DisplayName));
  }

  // ---------------------------------------------------------------- properties of the groups

  lemma {:induction false} CollectedAppend(filters: map<string, string>, a: seq<string>, b: seq<string>)
    requires Listed(a, filters) && Listed(b, filters)
    ensures Listed(a + b, filters)
    ensures Collected(filters, a + b) == Merge(Collected(filters, a), Collected(filters, b))
    decreases |b|
  {
    if b == [] {
      assert a + b == a;
    } else {
      var b', k := b[..|b| - 1], b[|b| - 1];
      CollectedAppend(filters, a, b');
      assert (a + b)[..|a + b| - 1] == a + b' && (a + b)[|a + b| - 1] == k;
      MergeAssoc(Collected(filters, a), Collected(filters, b'), Entry(k, filters[k]));
    }
  }

  lemma MergeAssoc(g: FileGroups, h: FileGroups, e: FileGroups)
    ensures Merge(Merge(g, h), e) == Merge(g, Merge(h, e))
  {
    AppendAssoc(g.always, h.always, e.always);
    AppendAssoc(g.defaults, h.defaults, e.defaults);
    AppendAssoc(g.conditional, h.conditional, e.conditional);
  }

  /** The display name of a filter with condition `c`, if it is pushed as `c` is. */
  predicate Pushed(filters: map<string, string>, order: seq<string>, i: int, c: string, x: string)
    requires Listed(order, filters)
  {
    0 <= i < |order| && filters[order[i]] == c && Display(order[i]) == x
  }

  /** Membership: a name is listed under "always" iff some filter with that condition displays as it. */
  lemma {:induction false} AlwaysMembers(filters: map<string, string>, order: seq<string>, x: string)
    requires Listed(order, filters)
    ensures x in Collected(filters, order).always <==> exists i :: Pushed(filters, order, i, "always", x)
    decreases |order|
  {
    if order != [] {
      var init := order[..|order| - 1];
      AlwaysMembers(filters, init, x);
      PushedPrefix(filters, order, "always", x);
    }
  }

  /** Likewise under "default". */
  lemma {:induction false} DefaultMembers(filters: map<string, string>, order: seq<string>, x: string)
    requires Listed(order, filters)
    ensures x in Collected(filters, order).defaults <==> exists i :: Pushed(filters, order, i, "default", x)
    decreases |order|
  {
    if order != [] {
      var init := order[..|order| - 1];
      DefaultMembers(filters, init, x);
      PushedPrefix(filters, order, "default", x);
    }
  }

  /** And among the conditional files, with the condition kept beside the name. */
  lemma {:induction false} ConditionalMembers(filters: map<string, string>, order: seq<string>, x: string, c: string)
    requires Listed(order, filters)
    ensures (x, c) in Collected(filters, order).conditional
      <==> c != "always" && c != "default" && exists i :: Pushed(filters, order, i, c, x)
    decreases |order|
  {
    if order != [] {
      var init := order[..|order| - 1];
      ConditionalMembers(filters, init, x, c);
      PushedPrefix(filters, order, c, x);
    }
  }

  /** A filter pushed within a prefix is pushed in the whole list, at the same index. */
  lemma PushedPrefix(filters: map<string, string>, order: seq<string>, c: string, x: string)
    requires Listed(order, filters) && order != []
    ensures var init := order[..|order| - 1];
      (exists i :: Pushed(filters, order, i, c, x))
      <==> (exists i :: Pushed(filters, init, i, c, x)) || Pushed(filters, order, |order| - 1, c, x)
  {
    var init := order[..|order| - 1];
    if exists i :: Pushed(filters, order, i, c, x) {
      var i :| Pushed(filters, order, i, c, x);
      if i < |init| {
        assert Pushed(filters, init, i, c, x);
      }
    }
    if exists i :: Pushed(filters, init, i, c, x) {
      var i :| Pushed(filters, init, i, c, x);
      assert Pushed(filters, order, i, c, x);
    }
  }

  /** The groups as listed are sorted, and each holds exactly what was pushed into it. */
  lemma GroupsSorted(filters: map<string, string>, order: seq<string>)
    requires Listed(order, filters)
    ensures var g := FileFilterGroups(filters, order);
      var c := Collected(filters, order);
      && Sorted(g.always, Id) && multiset(g.always) == multiset(c.always)
      && Sorted(g.defaults, Id) && multiset(g.defaults) == multiset(c.defaults)
      && Sorted(g.conditional, DisplayName) && multiset(g.conditional) == multiset(c.conditional)
  {
    var c := Collected(filters, order);
    SortStrings(c.always);
    SortStrings(c.defaults);
    SortBySorted(c.conditional, DisplayName);
    SortByPerm(c.conditional, DisplayName);
  }

  predicate SameContents(g: FileGroups, h: FileGroups)
  {
    && multiset(g.always) == multiset(h.always)
    && multiset(g.defaults) == multiset(h.defaults)
    && multiset(g.conditional) == multiset(h.conditional)
  }

  /** Listing the same keys in another order pushes the same entries, in another order. */
  lemma {:induction false} CollectedPerm(filters: map<string, string>, o1: seq<string>, o2: seq<string>)
    requires Listed(o1, filters) && Listed(o2, filters) && multiset(o1) == multiset(o2)
    ensures SameContents(Collected(filters, o1), Collected(filters, o2))
    decreases |o1|
  {
    if o1 == [] {
      assert |o2| == |multiset(o2)| == 0;
    } else {
      var init := o1[..|o1| - 1];
      var x := o1[|o1| - 1];
      assert x in multiset(o2);
      var j :| 0 <= j < |o2| && o2[j] == x;
      RemoveAt(o1, o2, j);
      var rest := o2[..j] + o2[j + 1..];
      CollectedPerm(filters, init, rest);
      CollectedSplit(filters, o2, j);
      MergeShuffle(Collected(filters, init), Collected(filters, o2[..j]), Collected(filters, o2[j + 1..]), Entry(x, filters[x]));
    }
  }

  /** Taking the last element off one list and the same element off a permutation of it leaves permutations. */
  lemma RemoveAt(o1: seq<string>, o2: seq<string>, j: nat)
    requires o1 != [] && j < |o2| && o2[j] == o1[|o1| - 1] && multiset(o1) == multiset(o2)
    ensures multiset(o2[..j] + o2[j + 1..]) == multiset(o1[..|o1| - 1])
  {
    var x := o2[j];
    assert o1 == o1[..|o1| - 1] + [x];
    assert o2 == o2[..j] + [x] + o2[j + 1..];
    assert multiset(o1[..|o1| - 1]) == multiset(o1) - multiset{x};
    assert multiset(o2[..j] + o2[j + 1..]) == multiset(o2) - multiset{x};
  }

  /** The entries pushed for a list, cut at index `j`. */
  lemma CollectedSplit(filters: map<string, string>, o: seq<string>, j: nat)
    requires Listed(o, filters) && j < |o|
    ensures Listed(o[..j] + o[j + 1..], filters)
    ensures Collected(filters, o)
      == Merge(Merge(Collected(filters, o[..j]), Entry(o[j], filters[o[j]])), Collected(filters, o[j + 1..]))
    ensures Collected(filters, o[..j] + o[j + 1..]) == Merge(Collected(filters, o[..j]), Collected(filters, o[j + 1..]))
  {
    var left, x, right := o[..j], o[j], o[j + 1..];
    assert o == left + [x] + right;
    CollectedAppend(filters, left, right);
    CollectedAppend(filters, left, [x]);
    CollectedAppend(filters, left + [x], right);
    assert Collected(filters, [x]) == Entry(x, filters[x]) by {
      assert [x][..0] == [];
    }
  }

  lemma MergeShuffle(a: FileGroups, l: FileGroups, r: FileGroups, e: FileGroups)
    requires SameContents(a, Merge(l, r))
    ensures SameContents(Merge(a, e), Merge(Merge(l, e), r))
  {
    assert multiset(l.always + e.always + r.always) == multiset(l.always) + multiset(r.always) + multiset(e.always);
    assert multiset(l.defaults + e.defaults + r.defaults) == multiset(l.defaults) + multiset(r.defaults) + multiset(e.defaults);
    assert multiset(l.conditional + e.conditional + r.conditional)
      == multiset(l.conditional) + multiset(r.conditional) + multiset(e.conditional);
  }

  /**
   * The always and default lists do not depend on the iteration order of the
   * map, and the conditional list holds the same entries whatever the order
   * (it is sorted by displayed name only, so entries sharing a displayed name
   * keep their iteration order).
   */
  lemma GroupsIndependentOfOrder(filters: map<string, string>, o1: seq<string>, o2: seq<string>)
    requires IsOrder(o1, filters) && IsOrder(o2, filters)
    ensures FileFilterGroups(filters, o1).always == FileFilterGroups(filters, o2).always
    ensures FileFilterGroups(filters, o1).defaults == FileFilterGroups(filters, o2).defaults
    ensures multiset(FileFilterGroups(filters, o1).conditional) == multiset(FileFilterGroups(filters, o2).conditional)
  {
    OrdersArePermutations(o1, o2, filters);
    CollectedPerm(filters, o1, o2);
    GroupsSorted(filters, o1);
    GroupsSorted(filters, o2);
    SortedUnique(FileFilterGroups(filters, o1).always, FileFilterGroups(filters, o2).always);
    SortedUnique(FileFilterGroups(filters, o1).defaults, FileFilterGroups(filters, o2).defaults);
  }

  // ---------------------------------------------------------------- print_usage_examples

  const MaxExamples := 3

  /** One example's `--var name=value` setting. */
  datatype Example = Example(varName: string, value: string)

  /** The variable's default, if it has one (`variables.get(name)`). */
  function Current(variables: map<string, string>, n: string): Option<string>
  {
    if n in variables then Some(variables[n]) else None
  }

  /** A boolean example flips the default: "false" when it is "true", otherwise "true". */
  function BoolExampleValue(variables: map<string, string>, n: string): (v: string)
    ensures v == "false" <==> Current(variables, n) == Some("true")
    ensures v == "false" || v == "true"
  {
    if Current(variables, n) == Some("true") then "false" else "true"
  }

  /** The first value that is not the current one (`iter().find`). */
  function FirstDifferent(values: seq<string>, current: Option<string>): (r: Option<nat>)
    ensures r.Some? ==> r.value < |values| && Some(values[r.value]) != current
                        && forall k :: 0 <= k < r.value ==> Some(values[k]) == current
    ensures r.None? ==> forall k :: 0 <= k < |values| ==> Some(values[k]) == current
    decreases |values|
  {
    if values == [] then None
    else if Some(values[0]) != current then Some(0)
    else match FirstDifferent(values[1..], current)
      case None => None
      case Some(i) => Some(i + 1)
  }

  /** An enum example: the first possible value other than the default, else the first possible value. */
  function EnumExampleValue(values: seq<string>, current: Option<string>): (v: string)
    requires values != []
    ensures v in values
  {
    match FirstDifferent(values, current)
    case Some(i) => values[i]
    case None => values[0]
  }

  /** The boolean examples, one per `boolean` option, in iteration order. */
  function BoolExamples(config: TemplateConfig, order: seq<string>): (es: seq<Example>)
    requires Listed(order, config.optionsMetadata)
    ensures |es| <= |order|
    ensures forall k :: 0 <= k < |es| ==> es[k].value == "true" || es[k].value == "false"
    decreases |order|
  {
    if order == [] then []
    else
      BoolExamples(config, order[..|order| - 1]) + BoolExample(config, order[|order| - 1])
  }

  /** The example one option contributes to the boolean list: one exactly when it is a boolean. */
  function BoolExample(config: TemplateConfig, n: string): seq<Example>
    requires n in config.optionsMetadata
  {
    if config.optionsMetadata[n].varType == "boolean" then [Example(n, BoolExampleValue(config.variables, n))] else []
  }

  /** The enum examples, one per option with more than one possible value, in iteration order. */
  function EnumExamples(config: TemplateConfig, order: seq<string>): (es: seq<Example>)
    requires Listed(order, config.optionsMetadata)
    ensures |es| <= |order|
    decreases |order|
  {
    if order == [] then []
    else
      EnumExamples(config, order[..|order| - 1]) + EnumExample(config, order[|order| - 1])
  }

  /** The example one option contributes to the enum list: one exactly when it has more than one possible value. */
  function EnumExample(config: TemplateConfig, n: string): seq<Example>
    requires n in config.optionsMetadata
  {
    var values := config.optionsMetadata[n].possibleValues;
    if |values| > 1 then [Example(n, EnumExampleValue(values, Current(config.variables, n)))] else []
  }

  function Take<T>(s: seq<T>, n: nat): (r: seq<T>)
    ensures |r| <= n && r <= s
    ensures |s| <= n ==> r == s
  {
    if |s| <= n then s else s[..n]
  }

  /** The examples shown: the boolean ones, then the enum ones, at most three in all. */
  function Examples(config: TemplateConfig, order: seq<string>): (es: seq<Example>)
    requires Listed(order, config.optionsMetadata)
    ensures |es| <= MaxExamples
  {
    Take(BoolExamples(config, order) + EnumExamples(config, order), MaxExamples)
  }

  /** The settings of one option in the full-featured example: its first possible value, or "true" for a boolean. */
  function FullSetting(config: TemplateConfig, n: string): seq<Example>
    requires n in config.optionsMetadata
  {
    var option := config.optionsMetadata[n];
    if option.possibleValues != [] then [Example(n, option.possibleValues[0])]
    else if option.varType == "boolean" then [Example(n, "true")]
    else []
  }

  function FullSettings(config: TemplateConfig, order: seq<string>): (settings: seq<Example>)
    requires Listed(order, config.optionsMetadata)
    ensures |settings| <= |order|
    decreases |order|
  {
    if order == [] then []
    else FullSettings(config, order[..|order| - 1]) + FullSetting(config, order[|order| - 1])
  }

  /** The full-featured example: shown for two or more options, over the first three of them. */
  function FullFeatured(config: TemplateConfig, order: seq<string>): (r: Option<seq<Example>>)
    requires Listed(order, config.optionsMetadata)
    ensures r.Some? <==> |config.optionsMetadata| >= 2
    ensures r.Some? ==> |r.value| <= MaxExamples
  {
    if |config.optionsMetadata| >= 2 then Some(FullSettings(config, Take(order, MaxExamples))) else None
  }

  /**
   * `print_usage_examples` without the text around the settings: the
   * boolean examples, the enum examples while fewer than three are shown,
   * and the full-featured example.
   */
  method UsageExamples(config: TemplateConfig, order: seq<string>) returns (examples: seq<Example>, full: Option<seq<Example>>)
    requires IsOrder(order, config.optionsMetadata)
    ensures examples == Examples(config, order)
    ensures full == FullFeatured(config, order)
  {
    examples := BooleanExampleLoop(config, order);
    examples := EnumExampleLoop(config, order, examples, BoolExamples(config, order));
    full := FullFeaturedExample(config, order);
  }

  /** The first loop: boolean examples until three are shown. */
  method BooleanExampleLoop(config: TemplateConfig, order: seq<string>) returns (examples: seq<Example>)
    requires Listed(order, config.optionsMetadata)
    ensures examples == Take(BoolExamples(config, order), MaxExamples)
  {
    examples := [];
    var exampleCount := 0;
    for i := 0 to |order|
      invariant examples == Take(BoolExamples(config, order[..i]), MaxExamples)
      invariant exampleCount == |examples|
    {
      if exampleCount >= MaxExamples {
        BoolSaturated(config, order, i);
        return;
      }
      BoolStep(config, order, i);
      var varName := order[i];
      var metadata := config.optionsMetadata[varName];
      if metadata.varType == "boolean" {
        var value := if Current(config.variables, varName) == Some("true") then "false" else "true";
        TakeSnoc(BoolExamples(config, order[..i]), Example(varName, value));
        examples := examples + [Example(varName, value)];
        exampleCount := exampleCount + 1;
      } else {
        assert BoolExamples(config, order[..i]) + [] == BoolExamples(config, order[..i]);
      }
    }
    assert order[..|order|] == order;
  }

  /** The second loop: enum examples after the `shown` boolean ones, until three are shown. */
  method EnumExampleLoop(config: TemplateConfig, order: seq<string>, shown: seq<Example>, ghost bools: seq<Example>)
    returns (examples: seq<Example>)
    requires Listed(order, config.optionsMetadata) && shown == Take(bools, MaxExamples)
    ensures examples == Take(bools + EnumExamples(config, order), MaxExamples)
  {
    examples := shown;
    var exampleCount := |shown|;
    assert bools + EnumExamples(config, order[..0]) == bools by {
      assert order[..0] == [];
    }
    for i := 0 to |order|
      invariant examples == Take(bools + EnumExamples(config, order[..i]), MaxExamples)
      invariant exampleCount == |examples|
    {
      if exampleCount >= MaxExamples {
        EnumExamplesAppend(config, order[..i], order[i..]);
        assert order[..i] + order[i..] == order;
        TakeFull(bools, EnumExamples(config, order[..i]), EnumExamples(config, order[i..]));
        return;
      }
      EnumStep(config, order, i);
      var varName := order[i];
      var metadata := config.optionsMetadata[varName];
      if metadata.possibleValues != [] && |metadata.possibleValues| > 1 {
        var exampleValue := EnumExampleValue(metadata.possibleValues, Current(config.variables, varName));
        TakeSnoc(bools + EnumExamples(config, order[..i]), Example(varName, exampleValue));
        AppendAssoc(bools, EnumExamples(config, order[..i]), [Example(varName, exampleValue)]);
        examples := examples + [Example(varName, exampleValue)];
        exampleCount := exampleCount + 1;
      } else {
        assert EnumExamples(config, order[..i]) + [] == EnumExamples(config, order[..i]);
      }
    }
    assert order[..|order|] == order;
  }

  /** The last block of `print_usage_examples`: the settings of the full-featured example. */
  method FullFeaturedExample(config: TemplateConfig, order: seq<string>) returns (full: Option<seq<Example>>)
    requires Listed(order, config.optionsMetadata)
    ensures full == FullFeatured(config, order)
  {
    full := None;
    if |config.optionsMetadata| >= 2 {
      var top := Take(order, MaxExamples);
      assert forall k :: 0 <= k < |top| ==> top[k] == order[k];
      var varExamples: seq<Example> := [];
      for i := 0 to |top|
        invariant varExamples == FullSettings(config, top[..i])
      {
        assert top[..i + 1][..i] == top[..i];
        var varName := top[i];
        var metadata := config.optionsMetadata[varName];
        if metadata.possibleValues != [] {
          varExamples := varExamples + [Example(varName, metadata.possibleValues[0])];
        } else if metadata.varType == "boolean" {
          varExamples := varExamples + [Example(varName, "true")];
        }
      }
      assert top[..|top|] == top;
      full := Some(varExamples);
    }
  }

  // ---------------------------------------------------------------- properties of the examples

  lemma TakeSnoc<T>(s: seq<T>, x: T)
    requires |Take(s, MaxExamples)| < MaxExamples
    ensures Take(s + [x], MaxExamples) == Take(s, MaxExamples) + [x]
  {
  }

  /** Once three examples are taken, nothing after them is shown. */
  lemma TakeFull<T>(a: seq<T>, b: seq<T>, c: seq<T>)
    requires |Take(a + b, MaxExamples)| >= MaxExamples
    ensures Take(a + (b + c), MaxExamples) == Take(a + b, MaxExamples)
  {
    assert a + (b + c) == (a + b) + c;
    assert ((a + b) + c)[..MaxExamples] == (a + b)[..MaxExamples];
  }

  lemma {:induction false} BoolExamplesAppend(config: TemplateConfig, a: seq<string>, b: seq<string>)
    requires Listed(a, config.optionsMetadata) && Listed(b, config.optionsMetadata)
    ensures Listed(a + b, config.optionsMetadata)
    ensures BoolExamples(config, a + b) == BoolExamples(config, a) + BoolExamples(config, b)
    decreases |b|
  {
    if b == [] {
      assert a + b == a;
    } else {
      var b', n := b[..|b| - 1], b[|b| - 1];
      BoolExamplesAppend(config, a, b');
      assert (a + b)[..|a + b| - 1] == a + b' && (a + b)[|a + b| - 1] == n;
      AppendAssoc(BoolExamples(config, a), BoolExamples(config, b'), BoolExample(config, n));
    }
  }

  lemma {:induction false} EnumExamplesAppend(config: TemplateConfig, a: seq<string>, b: seq<string>)
    requires Listed(a, config.optionsMetadata) && Listed(b, config.optionsMetadata)
    ensures Listed(a + b, config.optionsMetadata)
    ensures EnumExamples(config, a + b) == EnumExamples(config, a) + EnumExamples(config, b)
    decreases |b|
  {
    if b == [] {
      assert a + b == a;
    } else {
      var b', n := b[..|b| - 1], b[|b| - 1];
      EnumExamplesAppend(config, a, b');
      assert (a + b)[..|a + b| - 1] == a + b' && (a + b)[|a + b| - 1] == n;
      AppendAssoc(EnumExamples(config, a), EnumExamples(config, b'), EnumExample(config, n));
    }
  }

  lemma EnumStep(config: TemplateConfig, order: seq<string>, i: nat)
    requires Listed(order, config.optionsMetadata) && i < |order|
    ensures EnumExamples(config, order[..i + 1]) == EnumExamples(config, order[..i]) + EnumExample(config, order[i])
  {
    assert order[..i + 1][..i] == order[..i];
  }

  /** Once the boolean examples of a prefix fill the three places, the rest of the order adds none. */
  lemma BoolSaturated(config: TemplateConfig, order: seq<string>, i: nat)
    requires Listed(order, config.optionsMetadata) && i <= |order|
    requires |Take(BoolExamples(config, order[..i]), MaxExamples)| >= MaxExamples
    ensures Take(BoolExamples(config, order), MaxExamples) == Take(BoolExamples(config, order[..i]), MaxExamples)
  {
    BoolExamplesAppend(config, order[..i], order[i..]);
    assert order[..i] + order[i..] == order;
    TakeFull(BoolExamples(config, order[..i]), BoolExamples(config, order[i..]), []);
  }

  lemma BoolStep(config: TemplateConfig, order: seq<string>, i: nat)
    requires Listed(order, config.optionsMetadata) && i < |order|
    ensures BoolExamples(config, order[..i + 1]) == BoolExamples(config, order[..i]) + BoolExample(config, order[i])
  {
    assert order[..i + 1][..i] == order[..i];
  }

  lemma AppendAssoc<T>(x: seq<T>, y: seq<T>, z: seq<T>)
    ensures (x + y) + z == x + (y + z)
  {
  }

  /** The enum example: a possible value; other than the default whenever one is; the first such; else the first value. */
  lemma EnumExampleChoice(values: seq<string>, current: Option<string>)
    requires values != []
    ensures EnumExampleValue(values, current) in values
    ensures (exists k :: 0 <= k < |values| && Some(values[k]) != current) ==>
      Some(EnumExampleValue(values, current)) != current
      && exists k :: 0 <= k < |values| && values[k] == EnumExampleValue(values, current)
                     && forall m :: 0 <= m < k ==> Some(values[m]) == current
    ensures (forall k :: 0 <= k < |values| ==> Some(values[k]) == current) ==> EnumExampleValue(values, current) == values[0]
  {
  }

  /** What an example is: a boolean option with its flipped default, or an option of several values with its enum example. */
  predicate ExampleOf(config: TemplateConfig, e: Example)
  {
    && e.varName in config.optionsMetadata
    && var option := config.optionsMetadata[e.varName];
       || (option.varType == "boolean" && e.value == BoolExampleValue(config.variables, e.varName))
       || (|option.possibleValues| > 1
           && e.value == EnumExampleValue(option.possibleValues, Current(config.variables, e.varName)))
  }

  lemma {:induction false} BoolExamplesAre(config: TemplateConfig, order: seq<string>)
    requires Listed(order, config.optionsMetadata)
    ensures forall e :: e in BoolExamples(config, order) ==> ExampleOf(config, e)
    decreases |order|
  {
    if order != [] {
      BoolExamplesAre(config, order[..|order| - 1]);
    }
  }

  lemma {:induction false} EnumExamplesAre(config: TemplateConfig, order: seq<string>)
    requires Listed(order, config.optionsMetadata)
    ensures forall e :: e in EnumExamples(config, order) ==> ExampleOf(config, e)
    decreases |order|
  {
    if order != [] {
      EnumExamplesAre(config, order[..|order| - 1]);
    }
  }

  /** At most three examples, each a boolean or an enum example of a declared option. */
  lemma ExamplesShape(config: TemplateConfig, order: seq<string>)
    requires Listed(order, config.optionsMetadata)
    ensures |Examples(config, order)| <= MaxExamples
    ensures forall e :: e in Examples(config, order) ==> ExampleOf(config, e)
  {
    BoolExamplesAre(config, order);
    EnumExamplesAre(config, order);
    var all := BoolExamples(config, order) + EnumExamples(config, order);
    forall e | e in Examples(config, order)
      ensures ExampleOf(config, e)
    {
      assert e in all;
    }
  }

  /** Boolean examples come first: with three or more of them no enum example is shown. */
  lemma BooleansFirst(config: TemplateConfig, order: seq<string>)
    requires Listed(order, config.optionsMetadata)
    requires |BoolExamples(config, order)| >= MaxExamples
    ensures Examples(config, order) == BoolExamples(config, order)[..MaxExamples]
  {
    var b := BoolExamples(config, order);
    assert (b + EnumExamples(config, order))[..MaxExamples] == b[..MaxExamples];
  }

  lemma {:induction false} FullSettingsShape(config: TemplateConfig, order: seq<string>)
    requires Listed(order, config.optionsMetadata)
    ensures |FullSettings(config, order)| <= |order|
    ensures forall e :: e in FullSettings(config, order) ==>
      e.varName in order
      && var option := config.optionsMetadata[e.varName];
         (if option.possibleValues != [] then e.value == option.possibleValues[0] else option.varType == "boolean" && e.value == "true")
    decreases |order|
  {
    if order != [] {
      var init := order[..|order| - 1];
      FullSettingsShape(config, init);
      assert forall x :: x in init ==> x in order;
    }
  }

  /** The full-featured example: only for two or more options, over at most three of them, each at its first value or "true". */
  lemma FullFeaturedShape(config: TemplateConfig, order: seq<string>)
    requires Listed(order, config.optionsMetadata)
    ensures FullFeatured(config, order).Some? <==> |config.optionsMetadata| >= 2
    ensures FullFeatured(config, order).Some? ==>
      var settings := FullFeatured(config, order).value;
      && |settings| <= MaxExamples
      && forall e :: e in settings ==>
        e.varName in order
        && var option := config.optionsMetadata[e.varName];
           (if option.possibleValues != [] then e.value == option.possibleValues[0] else option.varType == "boolean" && e.value == "true")
  {
    var top := Take(order, MaxExamples);
    assert forall k :: 0 <= k < |top| ==> top[k] == order[k];
    FullSettingsShape(config, top);
  }
}
