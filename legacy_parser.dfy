/**
 * The sectioned `.conf` parser of the original engine
 * (`TemplateEngine::parse_template_config`, src/template_engine.rs).
 *
 * The text is read line by line.  Blank and `#` lines are skipped, `[x]`
 * switches the current section, and a `key=value` line is routed by the
 * section: `[metadata]` sets the name and description, `[options]` records
 * option metadata or a default variable, `[files]` maps a file to its
 * condition, and any other section (including none) reads the flat keys
 * `environment`, `enable_timestamps`, `enable_uuid` and `var_X`.  The parser
 * never fails.
 *
 * `Step` is one line's effect, `Run` folds it over a sequence of lines, and
 * the method `ParseTemplateConfig` is the loop of the source proved equal
 * to that fold.
 */
module LegacyParser {
  import opened Wrappers
  import opened Strings
  import opened EngineConfig
  import opened LineFold

  datatype ParseState = ParseState(section: string, config: TemplateConfig)

  // ---------------------------------------------------------------- values

  /** The value of a `key=value` line: cut at the first '#', trimmed, then stripped of '"' and then of '\''. */
  function CleanValue(raw: string): (v: string)
    ensures '#' !in v
  {
    var cut := match Find(raw, '#') case None => raw case Some(i) => raw[..i];
    TrimKeepsAbsent(cut, '#');
    TrimKeepsAbsent(Trim(cut), '#');
    TrimKeepsAbsent(TrimMatches(Trim(cut), '"'), '#');
    TrimMatches(TrimMatches(Trim(cut), '"'), '\'')
  }

  function TrimEach(parts: seq<string>): (r: seq<string>)
    ensures |r| == |parts|
    ensures forall k :: 0 <= k < |r| ==> r[k] == Trim(parts[k])
  {
    if parts == [] then [] else [Trim(parts[0])] + TrimEach(parts[1..])
  }

  /** The `_options` list: the comma-separated items, trimmed, empty ones dropped. */
  function PossibleValues(value: string): (vs: seq<string>)
    ensures forall k :: 0 <= k < |vs| ==> vs[k] != [] && ',' !in vs[k]
  {
    var parts := SplitChar(value, ',');
    forall k | 0 <= k < |parts| ensures ',' !in Trim(parts[k]) {
      TrimKeepsAbsent(parts[k], ',');
    }
    NonEmpty(TrimEach(parts))
  }

  /** An item that can be written in an `_options` list and read back unchanged. */
  predicate ListItem(v: string)
  {
    v != [] && ',' !in v && !IsWhitespace(v[0]) && !IsWhitespace(v[|v| - 1])
  }

  // ---------------------------------------------------------------- routing

  /** `options_metadata.entry(name).or_insert_with(..)`: the stored option, or an empty one. */
  function OptionOf(c: TemplateConfig, name: string): VariableOption
  {
    if name in c.optionsMetadata then c.optionsMetadata[name] else DefaultOption()
  }

  /** An `[options]` line: `_options`, `_type` and `_description` keys describe an option, any other key is a default. */
  function AssignOption(c: TemplateConfig, key: string, value: string): (r: TemplateConfig)
    ensures r.variables == c.variables || r.optionsMetadata == c.optionsMetadata
    ensures r.fileFilters == c.fileFilters && r.metadata == c.metadata
    ensures r.environment == c.environment && r.enableTimestamps == c.enableTimestamps && r.enableUuid == c.enableUuid
  {
    if EndsWith(key, "_options") then
      var name := key[..|key| - 8];
      c.(optionsMetadata := c.optionsMetadata[name := OptionOf(c, name).(possibleValues := PossibleValues(value))])
    else if EndsWith(key, "_type") then
      var name := key[..|key| - 5];
      c.(optionsMetadata := c.optionsMetadata[name := OptionOf(c, name).(varType := value)])
    else if EndsWith(key, "_description") then
      var name := key[..|key| - 12];
      c.(optionsMetadata := c.optionsMetadata[name := OptionOf(c, name).(description := value)])
    else
      c.(variables := c.variables[key := value])
  }

  /** `value.parse().unwrap_or(true)`. */
  function ParseFlag(value: string): (b: bool)
    ensures !b <==> value == "false"
  {
    match ParseBool(value) case Some(b) => b case None => true
  }

  /** A line outside the three named sections: the flat keys of the older format. */
  function AssignRoot(c: TemplateConfig, key: string, value: string): (r: TemplateConfig)
    ensures r.optionsMetadata == c.optionsMetadata && r.fileFilters == c.fileFilters && r.metadata == c.metadata
  {
    if key == "environment" then c.(environment := value)
    else if key == "enable_timestamps" then c.(enableTimestamps := ParseFlag(value))
    else if key == "enable_uuid" then c.(enableUuid := ParseFlag(value))
    else if StartsWith(key, "var_") then c.(variables := c.variables[key[4..] := value])
    else c
  }

  /** A `key=value` line of a section: each section writes only its own part of the configuration. */
  function Assign(section: string, key: string, value: string, c: TemplateConfig): (r: TemplateConfig)
    ensures section != "metadata" ==> r.metadata == c.metadata
    ensures section != "options" ==> r.optionsMetadata == c.optionsMetadata
    ensures section != "files" ==> r.fileFilters == c.fileFilters
    ensures section == "metadata" || section == "files" ==> r.variables == c.variables
  {
    if section == "metadata" then
      if key == "name" then c.(metadata := c.metadata.(name := value))
      else if key == "description" then c.(metadata := c.metadata.(description := value))
      else c
    else if section == "options" then AssignOption(c, key, value)
    else if section == "files" then c.(fileFilters := c.fileFilters[key := value])
    else AssignRoot(c, key, value)
  }

  predicate Skipped(line: string)
  {
    StartsWith(line, "#") || line == []
  }

  predicate SectionHeader(line: string)
  {
    StartsWith(line, "[") && EndsWith(line, "]")
  }

  /** `[x]` is at least two characters long. */
  lemma HeaderLength(line: string)
    requires SectionHeader(line)
    ensures |line| >= 2
  {
    assert line[..1] == "[" && line[|line| - 1..] == "]";
    assert line[0] == '[' && line[|line| - 1] == ']';
  }

  /** One line of the `.conf` text. */
  function Step(st: ParseState, raw: string): (r: ParseState)
    ensures Skipped(Trim(raw)) ==> r == st
    ensures !SectionHeader(Trim(raw)) ==> r.section == st.section
    ensures SectionHeader(Trim(raw)) ==> r.config == st.config
  {
    var line := Trim(raw);
    if Skipped(line) then st
    else if SectionHeader(line) then
      HeaderLength(line);
      ParseState(line[1..|line| - 1], st.config)
    else
      match SplitOnce(line, '=')
      case None => st
      case Some(kv) => ParseState(st.section, Assign(st.section, Trim(kv.0), CleanValue(kv.1), st.config))
  }

  /** The lines folded from the first to the last. */
  function Run(st: ParseState, lines: seq<string>): ParseState
  {
    Fold(Step, st, lines)
  }

  function Initial(nodeEnv: Option<string>): ParseState
  {
    ParseState([], DefaultConfig(nodeEnv))
  }

  /** The configuration `parse_template_config` returns for `content`. */
  function Parse(content: string, nodeEnv: Option<string>): (c: TemplateConfig)
    ensures (forall i :: 0 <= i < |Lines(content)| ==> Skipped(Trim(Lines(content)[i]))) ==> c == DefaultConfig(nodeEnv)
  {
    var lines := Lines(content);
    assert (forall i :: 0 <= i < |lines| ==> Skipped(Trim(lines[i]))) ==> Run(Initial(nodeEnv), lines) == Initial(nodeEnv) by {
      if forall i :: 0 <= i < |lines| ==> Skipped(Trim(lines[i])) {
        FoldFixed(Step, Initial(nodeEnv), lines);
      }
    }
    Run(Initial(nodeEnv), lines).config
  }

  // ---------------------------------------------------------------- the loop

  method ParseTemplateConfig(content: string, nodeEnv: Option<string>) returns (config: TemplateConfig)
    ensures config == Parse(content, nodeEnv)
  {
    config := DefaultConfig(nodeEnv);
    var currentSection := [];
    var lines := Lines(content);
    for i := 0 to |lines|
      invariant Run(Initial(nodeEnv), lines[..i]) == ParseState(currentSection, config)
    {
      FoldPrefix(Step, Initial(nodeEnv), lines, i);
      currentSection, config := ReadLine(currentSection, config, lines[i]);
    }
    assert lines[..|lines|] == lines;
  }

  /** The body of the loop: skip, switch section, or route a `key=value` line. */
  method ReadLine(currentSection: string, config: TemplateConfig, raw: string)
    returns (section: string, c: TemplateConfig)
    ensures ParseState(section, c) == Step(ParseState(currentSection, config), raw)
  {
    section, c := currentSection, config;
    var line := Trim(raw);
    if StartsWith(line, "#") || line == [] {
      return;
    }
    if StartsWith(line, "[") && EndsWith(line, "]") {
      HeaderLength(line);
      section := line[1..|line| - 1];
      return;
    }
    var split := SplitOnce(line, '=');
    if split.Some? {
      var key := Trim(split.value.0);
      var value := CleanValue(split.value.1);
      c := AssignLine(currentSection, key, value, config);
    }
  }

  /** The routing of one `key=value` line by the current section, as the loop writes it. */
  method AssignLine(currentSection: string, key: string, value: string, config: TemplateConfig)
    returns (c: TemplateConfig)
    ensures c == Assign(currentSection, key, value, config)
  {
    c := config;
    if currentSection == "metadata" {
      if key == "name" {
        c := c.(metadata := c.metadata.(name := value));
      } else if key == "description" {
        c := c.(metadata := c.metadata.(description := value));
      }
    } else if currentSection == "options" {
      if EndsWith(key, "_options") {
        var varName := key[..|key| - 8];
        var option := OptionOf(c, varName);
        c := c.(optionsMetadata := c.optionsMetadata[varName := option.(possibleValues := PossibleValues(value))]);
      } else if EndsWith(key, "_type") {
        var varName := key[..|key| - 5];
        var option := OptionOf(c, varName);
        c := c.(optionsMetadata := c.optionsMetadata[varName := option.(varType := value)]);
      } else if EndsWith(key, "_description") {
        var varName := key[..|key| - 12];
        var option := OptionOf(c, varName);
        c := c.(optionsMetadata := c.optionsMetadata[varName := option.(description := value)]);
      } else {
        c := c.(variables := c.variables[key := value]);
      }
    } else if currentSection == "files" {
      c := c.(fileFilters := c.fileFilters[key := value]);
    } else {
      if key == "environment" {
        c := c.(environment := value);
      } else if key == "enable_timestamps" {
        c := c.(enableTimestamps := ParseFlag(value));
      } else if key == "enable_uuid" {
        c := c.(enableUuid := ParseFlag(value));
      } else if StartsWith(key, "var_") {
        c := c.(variables := c.variables[key[4..] := value]);
      }
    }
  }

  // ---------------------------------------------------------------- lines

  lemma RunSnoc(st: ParseState, lines: seq<string>, line: string)
    ensures Run(st, lines + [line]) == Step(Run(st, lines), line)
  {
    FoldSnoc(Step, st, lines, line);
  }

  /** Blank lines, `#` lines and lines that are neither a header nor contain '=' leave the state as it was. */
  lemma IgnoredLine(st: ParseState, raw: string)
    requires Skipped(Trim(raw)) || (!SectionHeader(Trim(raw)) && '=' !in Trim(raw))
    ensures Step(st, raw) == st
  {
  }

  /** Hence such a line can be inserted anywhere without changing the outcome. */
  lemma InsertIgnoredLine(st: ParseState, a: seq<string>, raw: string, b: seq<string>)
    requires Skipped(Trim(raw)) || (!SectionHeader(Trim(raw)) && '=' !in Trim(raw))
    ensures Run(st, a + [raw] + b) == Run(st, a + b)
  {
    forall t ensures Step(t, raw) == t {
      IgnoredLine(t, raw);
    }
    FoldIgnored(Step, st, a, raw, b);
  }

  /** `[x]` makes `x` the current section and changes nothing else. */
  lemma SectionSwitch(st: ParseState, raw: string)
    requires SectionHeader(Trim(raw)) && !StartsWith(Trim(raw), "#")
    ensures |Trim(raw)| >= 2
    ensures Step(st, raw) == ParseState(Trim(raw)[1..|Trim(raw)| - 1], st.config)
  {
    HeaderLength(Trim(raw));
  }

  /** A `key=value` line: the key and value around the first '=', the key trimmed, the value cleaned. */
  lemma KeyValueLine(st: ParseState, raw: string, key: string, value: string)
    requires !Skipped(Trim(raw)) && !SectionHeader(Trim(raw))
    requires Trim(raw) == key + "=" + value && '=' !in key
    ensures Step(st, raw) == ParseState(st.section, Assign(st.section, Trim(key), CleanValue(value), st.config))
  {
    var line := Trim(raw);
    var kv := SplitOnce(line, '=');
    assert line[|key|] == '=' && line[..|key|] == key;
    var x := kv.value.0;
    FindFirst(line, '=', |key|);
    assert line[|key| + 1..] == value;
  }

  // ---------------------------------------------------------------- values

  /** Text after the first '#' of a value is a comment. */
  lemma InlineComment(v: string, comment: string)
    requires '#' !in v
    ensures CleanValue(v + "#" + comment) == CleanValue(v)
  {
    var raw := v + "#" + comment;
    assert raw[|v|] == '#' && raw[..|v|] == v;
    FindFirst(raw, '#', |v|);
    assert Find(v, '#') == None;
  }

  /** A value with no '#' and nothing to strip at its ends is kept as written, */
  lemma PlainValue(v: string)
    requires '#' !in v
    requires v == [] || (!IsWhitespace(v[0]) && !IsWhitespace(v[|v| - 1]))
    requires v == [] || (v[0] != '"' && v[|v| - 1] != '"' && v[0] != '\'' && v[|v| - 1] != '\'')
    ensures CleanValue(v) == v
  {
    assert Find(v, '#') == None;
    TrimPlain(v);
    TrimMatchesPlain(v, '"');
    TrimMatchesPlain(v, '\'');
  }

  /** and one written in double quotes loses them. */
  lemma QuotedValue(v: string)
    requires '#' !in v && '"' !in v
    requires v == [] || (v[0] != '\'' && v[|v| - 1] != '\'')
    ensures CleanValue("\"" + v + "\"") == v
  {
    var q := "\"" + v + "\"";
    QuotedNoHash(v);
    assert Find(q, '#') == None;
    TrimPlain(q);
    StripQuotes(v);
    TrimMatchesPlain(v, '\'');
  }

  lemma QuotedNoHash(v: string)
    requires '#' !in v
    ensures '#' !in "\"" + v + "\""
  {
    var q := "\"" + v + "\"";
    forall k | 0 <= k < |q| ensures q[k] != '#' {
      if 0 < k < |q| - 1 { assert q[k] == v[k - 1]; }
    }
  }

  /** The double quotes around a value free of them are stripped, and only they. */
  lemma StripQuotes(v: string)
    requires '"' !in v
    ensures TrimMatches("\"" + v + "\"", '"') == v
  {
    StripLeading(v);
    if v != [] {
      StripTrailing(v);
    }
  }

  lemma StripLeading(v: string)
    requires '"' !in v
    ensures TrimStartChar("\"" + v + "\"", '"') == (if v == [] then [] else v + "\"")
  {
    var q := "\"" + v + "\"";
    assert q[1..] == v + "\"";
    if v == [] {
      assert TrimStartChar(v + "\"", '"') == TrimStartChar([], '"');
    } else {
      assert (v + "\"")[0] == v[0];
    }
  }

  lemma StripTrailing(v: string)
    requires '"' !in v && v != []
    ensures TrimEndChar(v + "\"", '"') == v
  {
    assert (v + "\"")[..|v|] == v;
    assert v[|v| - 1] in v;
  }

  /** Writing items as a comma-separated list and reading the list back gives the items. */
  lemma PossibleValuesOfList(vs: seq<string>)
    requires forall k :: 0 <= k < |vs| ==> ListItem(vs[k])
    ensures PossibleValues(Join(vs, ",")) == vs
  {
    if vs == [] {
      EmptyList();
    } else {
      SplitCharOfJoin(vs, ',');
      ItemsKept(vs, SplitChar(Join(vs, ","), ','));
    }
  }

  lemma EmptyList()
    ensures PossibleValues([]) == []
  {
    assert SplitChar([], ',') == [[]];
    EmptyItemDropped();
  }

  lemma ItemsKept(vs: seq<string>, parts: seq<string>)
    requires forall k :: 0 <= k < |vs| ==> ListItem(vs[k])
    requires parts == vs
    ensures NonEmpty(TrimEach(parts)) == vs
  {
    TrimEachPlain(vs);
    NonEmptyOfItems(vs);
  }

  lemma EmptyItemDropped()
    ensures NonEmpty(TrimEach([[]])) == []
  {
    assert TrimEach([[]]) == [[]];
  }

  lemma TrimEachPlain(vs: seq<string>)
    requires forall k :: 0 <= k < |vs| ==> ListItem(vs[k])
    ensures TrimEach(vs) == vs
  {
    var r := TrimEach(vs);
    forall k | 0 <= k < |vs| ensures r[k] == vs[k] {
      PlainItem(vs[k]);
    }
  }

  lemma PlainItem(v: string)
    requires ListItem(v)
    ensures Trim(v) == v
  {
    TrimPlain(v);
  }

  lemma {:induction false} NonEmptyOfItems(vs: seq<string>)
    requires forall k :: 0 <= k < |vs| ==> vs[k] != []
    ensures NonEmpty(vs) == vs
  {
    if vs != [] {
      NonEmptyOfItems(vs[1..]);
      assert [vs[0]] + vs[1..] == vs;
    }
  }

  // ---------------------------------------------------------------- routing

  /** The three option suffixes end in different letters, so the order in which they are tried never matters. */
  lemma OptionSuffixesExclusive(key: string)
    ensures !(EndsWith(key, "_options") && EndsWith(key, "_type"))
    ensures !(EndsWith(key, "_options") && EndsWith(key, "_description"))
    ensures !(EndsWith(key, "_type") && EndsWith(key, "_description"))
  {
    if EndsWith(key, "_options") { assert key[|key| - 1] == 's'; }
    if EndsWith(key, "_type") { assert key[|key| - 1] == 'e'; }
    if EndsWith(key, "_description") { assert key[|key| - 1] == 'n'; }
  }

  /** `[options]`: a `name_options` key sets that option's values, leaving its other fields, the other options and the variables alone. */
  lemma OptionsListRouting(c: TemplateConfig, name: string, value: string)
    ensures var r := AssignOption(c, name + "_options", value);
      && name in r.optionsMetadata
      && r.optionsMetadata[name].possibleValues == PossibleValues(value)
      && r.optionsMetadata[name].varType == OptionOf(c, name).varType
      && r.optionsMetadata[name].description == OptionOf(c, name).description
      && r.variables == c.variables && r.fileFilters == c.fileFilters
      && (forall n :: n != name && n in c.optionsMetadata ==> n in r.optionsMetadata && r.optionsMetadata[n] == c.optionsMetadata[n])
    ensures AssignOption(c, name + "_options", value)
         == c.(optionsMetadata := c.optionsMetadata[name := OptionOf(c, name).(possibleValues := PossibleValues(value))])
  {
    var key := name + "_options";
    assert EndsWith(key, "_options") && key[..|key| - 8] == name;
  }

  /** `[options]`: a `name_type` key sets that option's type and changes nothing else. */
  lemma OptionsTypeRouting(c: TemplateConfig, name: string, value: string)
    ensures var r := AssignOption(c, name + "_type", value);
      && name in r.optionsMetadata
      && r.optionsMetadata[name].varType == value
      && r.optionsMetadata[name].possibleValues == OptionOf(c, name).possibleValues
      && r.optionsMetadata[name].description == OptionOf(c, name).description
      && r.variables == c.variables && r.fileFilters == c.fileFilters
      && (forall n :: n != name && n in c.optionsMetadata ==> n in r.optionsMetadata && r.optionsMetadata[n] == c.optionsMetadata[n])
    ensures AssignOption(c, name + "_type", value)
         == c.(optionsMetadata := c.optionsMetadata[name := OptionOf(c, name).(varType := value)])
  {
    var key := name + "_type";
    assert EndsWith(key, "_type") && key[..|key| - 5] == name;
    OptionSuffixesExclusive(key);
  }

  /** `[options]`: a `name_description` key sets that option's description and changes nothing else. */
  lemma OptionsDescriptionRouting(c: TemplateConfig, name: string, value: string)
    ensures var r := AssignOption(c, name + "_description", value);
      && name in r.optionsMetadata
      && r.optionsMetadata[name].description == value
      && r.optionsMetadata[name].varType == OptionOf(c, name).varType
      && r.optionsMetadata[name].possibleValues == OptionOf(c, name).possibleValues
      && r.variables == c.variables && r.fileFilters == c.fileFilters
      && (forall n :: n != name && n in c.optionsMetadata ==> n in r.optionsMetadata && r.optionsMetadata[n] == c.optionsMetadata[n])
    ensures AssignOption(c, name + "_description", value)
         == c.(optionsMetadata := c.optionsMetadata[name := OptionOf(c, name).(description := value)])
  {
    var key := name + "_description";
    assert EndsWith(key, "_description") && key[..|key| - 12] == name;
    OptionSuffixesExclusive(key);
  }

  /** `[options]`: any other key is a default variable, and nothing else changes. */
  lemma OptionsDefaultRouting(c: TemplateConfig, key: string, value: string)
    requires !EndsWith(key, "_options") && !EndsWith(key, "_type") && !EndsWith(key, "_description")
    ensures var r := AssignOption(c, key, value);
      && r.variables == c.variables[key := value]
      && r.optionsMetadata == c.optionsMetadata
    ensures AssignOption(c, key, value) == c.(variables := c.variables[key := value])
  {
  }

  /** `[files]`: of two lines for the same file, the later one decides its condition. */
  lemma FilesLastWins(c: TemplateConfig, key: string, v1: string, v2: string)
    ensures Assign("files", key, v2, Assign("files", key, v1, c)) == Assign("files", key, v2, c)
  {
  }

  /** Lines of the flat format: `var_X=v` sets `X`, a boolean flag falls back to true, unknown keys are ignored. */
  lemma RootRouting(c: TemplateConfig, key: string, value: string)
    requires key != "environment" && key != "enable_timestamps" && key != "enable_uuid"
    ensures StartsWith(key, "var_") ==> AssignRoot(c, key, value).variables == c.variables[key[4..] := value]
    ensures !StartsWith(key, "var_") ==> AssignRoot(c, key, value) == c
    ensures AssignRoot(c, "enable_uuid", value).enableUuid == (value != "false")
    ensures AssignRoot(c, "enable_timestamps", value).enableTimestamps == (value != "false")
  {
  }
}
