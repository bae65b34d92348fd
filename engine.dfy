/**
 * The refactored engine's own `.conf` reader and output directory
 * (src/template_engine/engine.rs).  Its format is flat: no sections, only
 * `environment`, `enable_timestamps`, `enable_uuid` and `var_X` keys, routed
 * exactly as the sectioned parser routes lines outside its named sections
 * (`LegacyParser.AssignRoot`).  Unlike the sectioned parser it does not cut
 * a value at '#'.  It never fails.
 */
module Engine {
  import opened Wrappers
  import opened Strings
  import opened EngineConfig
  import opened LineFold
  import opened Paths
  import LegacyParser

  /** A value: trimmed, then stripped of surrounding '"', then of surrounding '\''. */
  function Unquote(raw: string): (v: string)
    ensures |v| <= |raw|
    ensures v == [] || (v[0] != '\'' && v[|v| - 1] != '\'')
  {
    var unquoted := TrimMatches(Trim(raw), '"');
    var tail := TrimStartChar(unquoted, '\'');
    var v := TrimEndChar(tail, '\'');
    assert v != [] ==> v[0] == tail[0];
    v
  }

  /** One line: blank and `#` lines and lines without '=' change nothing. */
  function Step(c: TemplateConfig, raw: string): TemplateConfig
  {
    var line := Trim(raw);
    if StartsWith(line, "#") || line == [] then c
    else
      match SplitOnce(line, '=')
      case None => c
      case Some(kv) => LegacyParser.AssignRoot(c, Trim(kv.0), Unquote(kv.1))
  }

  /** The lines folded from the first to the last. */
  function Run(c: TemplateConfig, lines: seq<string>): TemplateConfig
  {
    Fold(Step, c, lines)
  }

  /** The configuration `parse_template_config` returns for `content`. */
  function Parse(content: string, nodeEnv: Option<string>): TemplateConfig
  {
    Run(DefaultConfig(nodeEnv), Lines(content))
  }

  /** `TemplateEngine::parse_template_config`: the line loop over a default configuration. */
  method ParseTemplateConfig(content: string, nodeEnv: Option<string>) returns (config: TemplateConfig)
    ensures config == Parse(content, nodeEnv)
  {
    config := DefaultConfig(nodeEnv);
    var lines := Lines(content);
    for i := 0 to |lines|
      invariant config == Run(DefaultConfig(nodeEnv), lines[..i])
    {
      FoldPrefix(Step, DefaultConfig(nodeEnv), lines, i);
      var line := Trim(lines[i]);
      if StartsWith(line, "#") || line == [] {
        continue;
      }
      var split := SplitOnce(line, '=');
      if split.Some? {
        var key := Trim(split.value.0);
        var value := Unquote(split.value.1);
        if key == "environment" {
          config := config.(environment := value);
        } else if key == "enable_timestamps" {
          config := config.(enableTimestamps := LegacyParser.ParseFlag(value));
        } else if key == "enable_uuid" {
          config := config.(enableUuid := LegacyParser.ParseFlag(value));
        } else if StartsWith(key, "var_") {
          config := config.(variables := config.variables[key[4..] := value]);
        }
      }
    }
    assert lines[..|lines|] == lines;
  }

  /**
   * `determine_output_path`: the output directory itself, or the directory
   * joined with the name when a folder is requested.  The name is not
   * checked first, so `join` decides the outcome: a plain name is one level
   * deeper, `a/b` two levels, `.` no level, and an absolute name replaces
   * the output directory.
   */
  function DetermineOutputPath(outputDir: seq<Component>, name: string, createFolder: bool): (p: seq<Component>)
    ensures !createFolder ==> p == outputDir
    ensures createFolder && IsNormalName(name) ==> p == outputDir + [Normal(name)]
    ensures createFolder && StartsWith(name, "/") ==> p == Components(name)
    ensures createFolder && outputDir != [] && !StartsWith(name, "/") ==>
      |outputDir| <= |p| && p[..|outputDir|] == outputDir
  {
    if createFolder then
      assert IsNormalName(name) ==> JoinPath(outputDir, name) == outputDir + [Normal(name)] by {
        if IsNormalName(name) {
          NormalNameComponents(name);
        }
      }
      assert outputDir != [] && !StartsWith(name, "/") ==>
        JoinPath(outputDir, name)[..|outputDir|] == outputDir;
      JoinPath(outputDir, name)
    else outputDir
  }

  /** A name `a/b` is two folders deep, as `join` reads it. */
  lemma OutputDirNested(outputDir: seq<Component>, a: string, b: string)
    requires outputDir != [] && IsNormalName(a) && IsNormalName(b)
    ensures DetermineOutputPath(outputDir, a + "/" + b, true) == outputDir + [Normal(a), Normal(b)]
  {
    JoinNested(outputDir, a, b);
  }

  /** The name `.` leaves the output directory as it is. */
  lemma OutputDirCurrent(outputDir: seq<Component>)
    requires outputDir != []
    ensures DetermineOutputPath(outputDir, ".", true) == outputDir
  {
    JoinCurrent(outputDir);
  }

  // ---------------------------------------------------------------- properties

  lemma RunSnoc(c: TemplateConfig, lines: seq<string>, line: string)
    ensures Run(c, lines + [line]) == Step(Run(c, lines), line)
  {
    FoldSnoc(Step, c, lines, line);
  }

  /** Blank lines, `#` lines and lines without '=' are ignored. */
  lemma IgnoredLine(c: TemplateConfig, raw: string)
    requires StartsWith(Trim(raw), "#") || Trim(raw) == [] || '=' !in Trim(raw)
    ensures Step(c, raw) == c
  {
  }

  /** A `key=value` line splits at the first '=': the value may contain further '=' characters. */
  lemma KeyValueLine(c: TemplateConfig, raw: string, key: string, value: string)
    requires !StartsWith(Trim(raw), "#") && Trim(raw) == key + "=" + value && '=' !in key
    ensures Step(c, raw) == LegacyParser.AssignRoot(c, Trim(key), Unquote(value))
  {
    var line := Trim(raw);
    assert line[|key|] == '=' && line[..|key|] == key;
    FindFirst(line, '=', |key|);
    assert line[|key| + 1..] == value;
  }

  /** Of two `var_X` lines the later one decides `X`; an unknown key is ignored. */
  lemma VariableLastWins(c: TemplateConfig, x: string, v1: string, v2: string)
    ensures var key := "var_" + x;
      LegacyParser.AssignRoot(LegacyParser.AssignRoot(c, key, v1), key, v2).variables
      == c.variables[x := v2]
  {
    var key := "var_" + x;
    assert key[..4] == "var_" && key[4..] == x;
    assert key != "environment" && key != "enable_timestamps" && key != "enable_uuid" by {
      assert key[0] == 'v';
    }
    LegacyParser.RootRouting(c, key, v1);
    LegacyParser.RootRouting(LegacyParser.AssignRoot(c, key, v1), key, v2);
  }

  // ---------------------------------------------------------------- the unit test's configuration

  /** A value with no whitespace and no quote at either end is kept as written. */
  lemma PlainUnquote(v: string)
    requires v == [] || (!IsWhitespace(v[0]) && !IsWhitespace(v[|v| - 1]))
    requires v == [] || (v[0] != '"' && v[|v| - 1] != '"' && v[0] != '\'' && v[|v| - 1] != '\'')
    ensures Unquote(v) == v
  {
    TrimPlain(v);
    TrimMatchesPlain(v, '"');
    TrimMatchesPlain(v, '\'');
  }

  /** A value with no whitespace, quote or '=' at either end, as the unit test writes them. */
  predicate Plain(v: string)
  {
    v != [] && !IsWhitespace(v[0]) && !IsWhitespace(v[|v| - 1])
    && v[0] != '"' && v[|v| - 1] != '"' && v[0] != '\'' && v[|v| - 1] != '\''
  }

  /** `key=v` with a plain key free of '=' and a plain value is routed with the value as written. */
  lemma PlainLine(c: TemplateConfig, raw: string, key: string, v: string)
    requires raw == key + "=" + v && '=' !in key && Plain(key) && key[0] != '#' && Plain(v)
    ensures Step(c, raw) == LegacyParser.AssignRoot(c, key, v)
  {
    assert raw[0] == key[0] && raw[|raw| - 1] == v[|v| - 1];
    TrimPlain(raw);
    assert !StartsWith(raw, "#") by {
      assert raw[..1] == [key[0]];
    }
    KeyValueLine(c, raw, key, v);
    TrimPlain(key);
    PlainUnquote(v);
  }

  /** `var_X=v`: the variable `X` is set to `v`. */
  lemma VariableLine(c: TemplateConfig, raw: string, x: string, v: string)
    requires raw == "var_" + x + "=" + v && x != [] && '=' !in x && Plain(x) && Plain(v)
    ensures Step(c, raw) == c.(variables := c.variables[x := v])
  {
    var key := "var_" + x;
    assert raw == key + "=" + v;
    assert key[..4] == "var_" && key[4..] == x && key[0] == 'v' && key[|key| - 1] == x[|x| - 1];
    assert '=' !in key by {
      assert forall k :: 0 <= k < |x| ==> key[4 + k] == x[k];
    }
    PlainLine(c, raw, key, v);
    LegacyParser.RootRouting(c, key, v);
  }

  /** The three known keys are plain and free of '='. */
  lemma KnownKeysPlain()
    ensures Plain("environment") && '=' !in "environment" && "environment"[0] != '#'
    ensures Plain("enable_timestamps") && '=' !in "enable_timestamps" && "enable_timestamps"[0] != '#'
    ensures Plain("enable_uuid") && '=' !in "enable_uuid" && "enable_uuid"[0] != '#'
  {
  }

  lemma VariableKeys(author: string, license: string)
    ensures "var_author=" + author == "var_" + "author" + "=" + author
    ensures "var_license=" + license == "var_" + "license" + "=" + license
    ensures Plain("author") && '=' !in "author" && Plain("license") && '=' !in "license"
  {
  }

  lemma KnownKeyLines(env: string, timestamps: string, uuid: string)
    ensures "environment=" + env == "environment" + "=" + env
    ensures "enable_timestamps=" + timestamps == "enable_timestamps" + "=" + timestamps
    ensures "enable_uuid=" + uuid == "enable_uuid" + "=" + uuid
  {
  }

  /**
   * The unit test's configuration, its values given as parameters: a blank
   * first line, a comment, five settings and a blank last line, every line
   * indented as the raw string literal indents it.  The environment is
   * taken, each flag is off exactly when written "false", and the author and
   * the license are the only variables.
   */
  lemma SampleConfig(lines: seq<string>, nodeEnv: Option<string>, comment: string, env: string,
                     timestamps: string, uuid: string, author: string, license: string)
    requires comment == [] || !IsWhitespace(comment[|comment| - 1])
    requires Plain(env) && Plain(timestamps) && Plain(uuid) && Plain(author) && Plain(license)
    requires |lines| == 8
    requires Trim(lines[0]) == [] && Trim(lines[7]) == []
    requires Trim(lines[1]) == "#" + comment
    requires Trim(lines[2]) == "environment=" + env
    requires Trim(lines[3]) == "enable_timestamps=" + timestamps
    requires Trim(lines[4]) == "enable_uuid=" + uuid
    requires Trim(lines[5]) == "var_author=" + author
    requires Trim(lines[6]) == "var_license=" + license
    ensures var c := Run(DefaultConfig(nodeEnv), lines);
      && c.environment == env
      && c.enableTimestamps == (timestamps != "false") && c.enableUuid == (uuid != "false")
      && c.variables == map["author" := author, "license" := license]
  {
    var c0 := DefaultConfig(nodeEnv);
    var mid := lines[1..7];
    BlankEnds(c0, lines);
    var trimmed := Trimmed(mid);
    RunTrimmed(c0, mid);
    SampleSettings(trimmed, nodeEnv, comment, env, timestamps, uuid, author, license);
  }

  /** Each line trimmed. */
  function Trimmed(lines: seq<string>): (t: seq<string>)
    ensures |t| == |lines| && forall i :: 0 <= i < |lines| ==> t[i] == Trim(lines[i])
  {
    seq(|lines|, i requires 0 <= i < |lines| => Trim(lines[i]))
  }

  /** The reader sees only trimmed lines: trimming them first changes nothing. */
  lemma RunTrimmed(c: TemplateConfig, lines: seq<string>)
    ensures Run(c, lines) == Run(c, Trimmed(lines))
  {
    forall i, t: TemplateConfig | 0 <= i < |lines|
      ensures Step(t, lines[i]) == Step(t, Trimmed(lines)[i])
    {
      StepTrim(t, lines[i]);
    }
    FoldAlike(Step, c, lines, Trimmed(lines));
  }

  /** A blank first and last line are ignored. */
  lemma BlankEnds(c: TemplateConfig, lines: seq<string>)
    requires |lines| >= 2 && Trim(lines[0]) == [] && Trim(lines[|lines| - 1]) == []
    ensures Run(c, lines) == Run(c, lines[1..|lines| - 1])
  {
    var n := |lines|;
    var mid := lines[1..n - 1];
    FoldPrefix(Step, c, lines, n - 1);
    assert lines[..n] == lines;
    IgnoredLine(Run(c, lines[..n - 1]), lines[n - 1]);
    assert lines[..n - 1] == [lines[0]] + mid;
    FoldCons(Step, c, lines[0], mid);
    IgnoredLine(c, lines[0]);
  }

  /** The comment and the five settings of the unit test, trimmed. */
  lemma SampleSettings(lines: seq<string>, nodeEnv: Option<string>, comment: string, env: string,
                       timestamps: string, uuid: string, author: string, license: string)
    requires comment == [] || !IsWhitespace(comment[|comment| - 1])
    requires Plain(env) && Plain(timestamps) && Plain(uuid) && Plain(author) && Plain(license)
    requires |lines| == 6
    requires lines[0] == "#" + comment
    requires lines[1] == "environment=" + env
    requires lines[2] == "enable_timestamps=" + timestamps
    requires lines[3] == "enable_uuid=" + uuid
    requires lines[4] == "var_author=" + author
    requires lines[5] == "var_license=" + license
    ensures var c := Run(DefaultConfig(nodeEnv), lines);
      && c.environment == env
      && c.enableTimestamps == (timestamps != "false") && c.enableUuid == (uuid != "false")
      && c.variables == map["author" := author, "license" := license]
  {
    var c0 := DefaultConfig(nodeEnv);
    CommentIgnored(c0, lines[0], comment);
    var c2 := c0.(environment := env);
    EnvironmentLine(c0, lines[1], env);
    var c3 := c2.(enableTimestamps := LegacyParser.ParseFlag(timestamps));
    TimestampsLine(c2, lines[2], timestamps);
    var c4 := c3.(enableUuid := LegacyParser.ParseFlag(uuid));
    UuidLine(c3, lines[3], uuid);
    var c5 := c4.(variables := c4.variables["author" := author]);
    AuthorLine(c4, lines[4], author);
    var c6 := c5.(variables := c5.variables["license" := license]);
    LicenseLine(c5, lines[5], license);
    FoldSix(Step, c0, lines, c0, c2, c3, c4, c5, c6);
  }

  /**
   * The unit test's own text, line by line: after the blank first line, an
   * indented comment and five indented settings, then a whitespace-only
   * last line.  The environment is "production", timestamps are off, UUIDs
   * are on, and the author and the license are "John Doe" and "MIT".
   */
  lemma SampleTest(lines: seq<string>, indent: string, last: string, nodeEnv: Option<string>)
    requires forall i :: 0 <= i < |indent| ==> IsWhitespace(indent[i])
    requires forall i :: 0 <= i < |last| ==> IsWhitespace(last[i])
    requires |lines| == 8 && lines[0] == "" && lines[7] == last
    requires lines[1] == indent + "# Test configuration"
    requires lines[2] == indent + "environment=production"
    requires lines[3] == indent + "enable_timestamps=false"
    requires lines[4] == indent + "enable_uuid=true"
    requires lines[5] == indent + "var_author=John Doe"
    requires lines[6] == indent + "var_license=MIT"
    ensures var c := Run(DefaultConfig(nodeEnv), lines);
      && c.environment == "production" && !c.enableTimestamps && c.enableUuid
      && c.variables == map["author" := "John Doe", "license" := "MIT"]
  {
    assert "# Test configuration" == "#" + " Test configuration";
    assert "environment=production" == "environment=" + "production";
    assert "enable_timestamps=false" == "enable_timestamps=" + "false";
    assert "enable_uuid=true" == "enable_uuid=" + "true";
    assert "var_author=John Doe" == "var_author=" + "John Doe";
    assert "var_license=MIT" == "var_license=" + "MIT";
    SampleValuesPlain();
    IndentedSample(lines, indent, nodeEnv, " Test configuration", "production", "false", "true", "John Doe", "MIT");
  }

  /** The unit test's layout with its values as parameters: every line indented alike. */
  lemma IndentedSample(lines: seq<string>, indent: string, nodeEnv: Option<string>, comment: string, env: string,
                       timestamps: string, uuid: string, author: string, license: string)
    requires forall i :: 0 <= i < |indent| ==> IsWhitespace(indent[i])
    requires |lines| == 8 && lines[0] == ""
    requires forall i :: 0 <= i < |lines[7]| ==> IsWhitespace(lines[7][i])
    requires comment != [] && !IsWhitespace(comment[|comment| - 1])
    requires Plain(env) && Plain(timestamps) && Plain(uuid) && Plain(author) && Plain(license)
    requires lines[1] == indent + ("#" + comment)
    requires lines[2] == indent + ("environment=" + env)
    requires lines[3] == indent + ("enable_timestamps=" + timestamps)
    requires lines[4] == indent + ("enable_uuid=" + uuid)
    requires lines[5] == indent + ("var_author=" + author)
    requires lines[6] == indent + ("var_license=" + license)
    ensures var c := Run(DefaultConfig(nodeEnv), lines);
      && c.environment == env
      && c.enableTimestamps == (timestamps != "false") && c.enableUuid == (uuid != "false")
      && c.variables == map["author" := author, "license" := license]
  {
    BlankTrim(lines[7]);
    BlankTrim(lines[0]);
    SettingTrim(lines[1], indent, "#", comment);
    SettingTrim(lines[2], indent, "environment=", env);
    SettingTrim(lines[3], indent, "enable_timestamps=", timestamps);
    SettingTrim(lines[4], indent, "enable_uuid=", uuid);
    SettingTrim(lines[5], indent, "var_author=", author);
    SettingTrim(lines[6], indent, "var_license=", license);
    SampleConfig(lines, nodeEnv, comment, env, timestamps, uuid, author, license);
  }

  /** A line of whitespace trims to nothing. */
  lemma BlankTrim(last: string)
    requires forall i :: 0 <= i < |last| ==> IsWhitespace(last[i])
    ensures Trim(last) == []
  {
    TrimIndented(last, "");
    assert last + "" == last;
  }

  /** An indented `key` and `value` trims to the two together. */
  lemma SettingTrim(raw: string, indent: string, key: string, value: string)
    requires forall i :: 0 <= i < |indent| ==> IsWhitespace(indent[i])
    requires raw == indent + (key + value)
    requires key != [] && !IsWhitespace(key[0]) && value != [] && !IsWhitespace(value[|value| - 1])
    ensures Trim(raw) == key + value
  {
    TrimIndented(indent, key + value);
  }

  /** The unit test's values need no trimming or unquoting. */
  lemma SampleValuesPlain()
    ensures Plain("production") && Plain("false") && Plain("true") && Plain("John Doe") && Plain("MIT")
    ensures !IsWhitespace(" Test configuration"[|" Test configuration"| - 1])
  {
  }

  /** A line is read as its trimmed text. */
  lemma StepTrim(c: TemplateConfig, raw: string)
    ensures Step(c, raw) == Step(c, Trim(raw))
  {
    TrimTwice(raw);
  }

  lemma EnvironmentLine(c: TemplateConfig, raw: string, env: string)
    requires raw == "environment=" + env && Plain(env)
    ensures Step(c, raw) == c.(environment := env)
  {
    KnownKeysPlain();
    KnownKeyLines(env, env, env);
    PlainLine(c, raw, "environment", env);
  }

  lemma TimestampsLine(c: TemplateConfig, raw: string, timestamps: string)
    requires raw == "enable_timestamps=" + timestamps && Plain(timestamps)
    ensures Step(c, raw) == c.(enableTimestamps := LegacyParser.ParseFlag(timestamps))
  {
    KnownKeysPlain();
    KnownKeyLines(timestamps, timestamps, timestamps);
    PlainLine(c, raw, "enable_timestamps", timestamps);
  }

  lemma UuidLine(c: TemplateConfig, raw: string, uuid: string)
    requires raw == "enable_uuid=" + uuid && Plain(uuid)
    ensures Step(c, raw) == c.(enableUuid := LegacyParser.ParseFlag(uuid))
  {
    KnownKeysPlain();
    KnownKeyLines(uuid, uuid, uuid);
    PlainLine(c, raw, "enable_uuid", uuid);
  }

  lemma AuthorLine(c: TemplateConfig, raw: string, author: string)
    requires raw == "var_author=" + author && Plain(author)
    ensures Step(c, raw) == c.(variables := c.variables["author" := author])
  {
    VariableKeys(author, author);
    VariableLine(c, raw, "author", author);
  }

  lemma LicenseLine(c: TemplateConfig, raw: string, license: string)
    requires raw == "var_license=" + license && Plain(license)
    ensures Step(c, raw) == c.(variables := c.variables["license" := license])
  {
    VariableKeys(license, license);
    VariableLine(c, raw, "license", license);
  }

  lemma CommentIgnored(c: TemplateConfig, raw: string, comment: string)
    requires raw == "#" + comment && (comment == [] || !IsWhitespace(comment[|comment| - 1]))
    ensures Step(c, raw) == c
  {
    assert raw[0] == '#' && raw[..1] == "#";
    TrimPlain(raw);
  }
}
