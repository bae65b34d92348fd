/**
 * The tool's own configuration format (src/config/parser.rs): a list of
 * `key=value` lines with `#` comments, read into pairs in file order, and
 * the text `to_ini` writes.  Paths are their displayed text; canonicalising
 * a path is the identity here, and the home directory is an input.
 */
module IniParser {
  import opened Wrappers
  import opened Strings
  import opened FilterMap
  import Engine

  // ---------------------------------------------------------------- parse_ini

  /** The pair one line gives: none for blank and `#` lines and lines without '='; the value cleaned as `Engine.Unquote` cleans it. */
  function LinePair(raw: string): Option<(string, string)>
  {
    var line := Trim(raw);
    if StartsWith(line, "#") || line == [] then None
    else
      match SplitOnce(line, '=')
      case None => None
      case Some(kv) => Some((Trim(kv.0), Engine.Unquote(kv.1)))
  }

  /** The pairs of the lines, in the order of the lines: never more pairs than lines, and every pair comes from a line. */
  function Pairs(lines: seq<string>): (pairs: seq<(string, string)>)
    ensures |pairs| <= |lines|
    ensures forall p :: p in pairs ==> exists i :: 0 <= i < |lines| && LinePair(lines[i]) == Some(p)
  {
    CollectFrom(LinePair, lines);
    Collect(LinePair, lines)
  }

  function IniPairs(content: string): seq<(string, string)>
  {
    Pairs(Lines(content))
  }

  /** `parse_ini`: the line loop pushing each pair. */
  method ParseIni(content: string) returns (pairs: seq<(string, string)>)
    ensures pairs == IniPairs(content)
  {
    pairs := [];
    var lines := Lines(content);
    for i := 0 to |lines|
      invariant pairs == Pairs(lines[..i])
    {
      CollectPrefix(LinePair, lines, i);
      var line := Trim(lines[i]);
      if StartsWith(line, "#") || line == [] {
        assert LinePair(lines[i]) == None;
        continue;
      }
      var split := SplitOnce(line, '=');
      if split.Some? {
        var key := Trim(split.value.0);
        var value := Engine.Unquote(split.value.1);
        assert LinePair(lines[i]) == Some((key, value));
        pairs := pairs + [(key, value)];
      } else {
        assert LinePair(lines[i]) == None;
      }
    }
    assert lines[..|lines|] == lines;
  }

  // ---------------------------------------------------------------- properties of parse_ini

  /** The lines are read in order, each on its own: the pairs of two blocks of lines are the pairs of each, one after the other. */
  lemma PairsAppend(a: seq<string>, b: seq<string>)
    ensures Pairs(a + b) == Pairs(a) + Pairs(b)
  {
    CollectAppend(LinePair, a, b);
  }

  /** Duplicates are kept: a line read twice gives its pair twice. */
  lemma DuplicatesKept(line: string, p: (string, string))
    requires LinePair(line) == Some(p)
    ensures Pairs([line, line]) == [p, p]
  {
    CollectTwice(LinePair, line, p);
  }

  /** Blank lines, `#` lines and lines without '=' give no pair. */
  lemma IgnoredLine(raw: string)
    requires StartsWith(Trim(raw), "#") || Trim(raw) == [] || '=' !in Trim(raw)
    ensures LinePair(raw) == None
  {
  }

  /** A `key=value` line splits at the first '=', so the value may hold further '=' characters; the key is trimmed and the value cleaned. */
  lemma KeyValueLine(raw: string, key: string, value: string)
    requires !StartsWith(Trim(raw), "#") && Trim(raw) == key + "=" + value && '=' !in key
    ensures LinePair(raw) == Some((Trim(key), Engine.Unquote(value)))
  {
    var line := Trim(raw);
    assert line[|key|] == '=' && line[..|key|] == key;
    FindFirst(line, '=', |key|);
    assert line[|key| + 1..] == value;
  }

  // ---------------------------------------------------------------- to_ini

  /** The text of a list of lines, each ended by '\n'. */
  function Unlines(ls: seq<string>): string
  {
    if ls == [] then [] else ls[0] + "\n" + Unlines(ls[1..])
  }

  /** The comment lines before and after the settings; long lines are spelled in short pieces. */
  const Header: seq<string> := ["# CLI Frontend " + "Generator Configuration",
    "# This file uses " + "INI-like format " + "for easy configuration", ""]
  const Footer: seq<string> := ["", TemplatesNote, ArchitecturesNote, NewTemplatesNote, NewArchitecturesNote]
  const TemplatesNote := "# Available " + "template types " + "are determined " + "by the directories " + "in templates_dir"
  const ArchitecturesNote := "# Available " + "architectures " + "are determined " + "by JSON files " + "in architectures_dir"
  const NewTemplatesNote := "# You can add " + "new templates " + "by creating " + "new directories " + "in templates_dir"
  const NewArchitecturesNote := "# You can add " + "new architectures " + "by creating " + "new JSON files " + "in architectures_dir"

  /** A `key=value` line. */
  function Assignment(key: string, value: string): string
  {
    key + "=" + value
  }

  /** The lines `to_ini` writes, by group. */
  function GeneralLines(defaultType: string, createFolder: bool, enableHooks: bool): seq<string>
  {
    ["# General settings", Assignment("default_type", defaultType),
     Assignment("create_folder", BoolText(createFolder)), Assignment("enable_hooks", BoolText(enableHooks)), ""]
  }

  function PathLines(templatesDir: string, outputDir: string, architecturesDir: string): seq<string>
  {
    ["# Paths configuration", Assignment("templates_dir", templatesDir), Assignment("output_dir", outputDir),
     Assignment("architectures_dir", architecturesDir), ""]
  }

  function FeatureLines(defaultArchitecture: string): seq<string>
  {
    ["# Feature settings", Assignment("default_architecture", defaultArchitecture)]
  }

  function IniLines(defaultType: string, createFolder: bool, enableHooks: bool, templatesDir: string,
                    outputDir: string, architecturesDir: string, defaultArchitecture: string): seq<string>
  {
    Header + GeneralLines(defaultType, createFolder, enableHooks)
    + PathLines(templatesDir, outputDir, architecturesDir) + FeatureLines(defaultArchitecture) + Footer
  }

  /** `to_ini`: the fixed layout with the seven settings filled in. */
  function ToIni(defaultType: string, createFolder: bool, enableHooks: bool, templatesDir: string,
                 outputDir: string, architecturesDir: string, defaultArchitecture: string): (text: string)
    ensures IniValue(defaultType) && IniValue(templatesDir) && IniValue(outputDir)
            && IniValue(architecturesDir) && IniValue(defaultArchitecture)
            ==> IniPairs(text) == Settings(defaultType, createFolder, enableHooks, templatesDir, outputDir,
                                           architecturesDir, defaultArchitecture)
  {
    var text := Unlines(IniLines(defaultType, createFolder, enableHooks, templatesDir, outputDir, architecturesDir,
                                 defaultArchitecture));
    assert IniValue(defaultType) && IniValue(templatesDir) && IniValue(outputDir)
           && IniValue(architecturesDir) && IniValue(defaultArchitecture)
           ==> IniPairs(text) == Settings(defaultType, createFolder, enableHooks, templatesDir, outputDir,
                                          architecturesDir, defaultArchitecture) by {
      if IniValue(defaultType) && IniValue(templatesDir) && IniValue(outputDir)
         && IniValue(architecturesDir) && IniValue(defaultArchitecture) {
        RoundTrip(defaultType, createFolder, enableHooks, templatesDir, outputDir, architecturesDir, defaultArchitecture);
      }
    }
    text
  }

  /** A value `parse_ini` reads back as written: one line, no whitespace or quote at either end. */
  predicate IniValue(v: string)
  {
    && '\n' !in v
    && (v == [] || (!IsWhitespace(v[0]) && !IsWhitespace(v[|v| - 1])
                    && v[0] != '"' && v[|v| - 1] != '"' && v[0] != '\'' && v[|v| - 1] != '\''))
  }

  // ---------------------------------------------------------------- the round trip

  /** The seven pairs `to_ini` writes, in the order it writes them, group by group. */
  function Settings(defaultType: string, createFolder: bool, enableHooks: bool, templatesDir: string,
                    outputDir: string, architecturesDir: string, defaultArchitecture: string): seq<(string, string)>
  {
    GeneralSettings(defaultType, createFolder, enableHooks) + PathSettings(templatesDir, outputDir, architecturesDir)
    + FeatureSettings(defaultArchitecture)
  }

  function GeneralSettings(defaultType: string, createFolder: bool, enableHooks: bool): seq<(string, string)>
  {
    [("default_type", defaultType), ("create_folder", BoolText(createFolder)), ("enable_hooks", BoolText(enableHooks))]
  }

  function PathSettings(templatesDir: string, outputDir: string, architecturesDir: string): seq<(string, string)>
  {
    [("templates_dir", templatesDir), ("output_dir", outputDir), ("architectures_dir", architecturesDir)]
  }

  function FeatureSettings(defaultArchitecture: string): seq<(string, string)>
  {
    [("default_architecture", defaultArchitecture)]
  }

  /** Reading back what `to_ini` writes gives the seven settings, in order, when every value can be read back. */
  lemma RoundTrip(defaultType: string, createFolder: bool, enableHooks: bool, templatesDir: string,
                  outputDir: string, architecturesDir: string, defaultArchitecture: string)
    requires IniValue(defaultType) && IniValue(templatesDir) && IniValue(outputDir)
    requires IniValue(architecturesDir) && IniValue(defaultArchitecture)
    ensures IniPairs(Unlines(IniLines(defaultType, createFolder, enableHooks, templatesDir, outputDir, architecturesDir,
                                      defaultArchitecture)))
         == Settings(defaultType, createFolder, enableHooks, templatesDir, outputDir, architecturesDir,
                     defaultArchitecture)
  {
    var g := GeneralLines(defaultType, createFolder, enableHooks);
    var p := PathLines(templatesDir, outputDir, architecturesDir);
    var f := FeatureLines(defaultArchitecture);
    HeaderFooterLines();
    GeneralPairs(defaultType, createFolder, enableHooks);
    PathPairs(templatesDir, outputDir, architecturesDir);
    FeaturePairs(defaultArchitecture);
    ReadBack(Header, g, p, f, Footer);
    EmptyEnds(Pairs(Header), Pairs(g), Pairs(p), Pairs(f), Pairs(Footer));
  }

  lemma EmptyEnds<T>(a: seq<T>, x: seq<T>, y: seq<T>, z: seq<T>, b: seq<T>)
    requires a == [] && b == []
    ensures a + x + y + z + b == x + y + z
  {
    assert a + x == x;
    assert x + y + z + b == x + y + z;
  }

  /** Five blocks of single lines, written out and read back, give the pairs of each block in turn. */
  lemma ReadBack(h: seq<string>, g: seq<string>, p: seq<string>, f: seq<string>, t: seq<string>)
    requires SingleLines(h)
    requires SingleLines(g)
    requires SingleLines(p)
    requires SingleLines(f)
    requires SingleLines(t)
    ensures IniPairs(Unlines(h + g + p + f + t)) == Pairs(h) + Pairs(g) + Pairs(p) + Pairs(f) + Pairs(t)
  {
    var ls := h + g + p + f + t;
    assert SingleLines(ls);
    LinesOfUnlines(ls);
    PairsAppend(h + g + p + f, t);
    PairsAppend(h + g + p, f);
    PairsAppend(h + g, p);
    PairsAppend(h, g);
  }

  /** Lines that hold no '\n' and do not end in '\r': `lines()` gives them back as written. */
  predicate SingleLines(ls: seq<string>)
  {
    forall l :: l in ls ==> SingleLine(l)
  }

  predicate SingleLine(l: string)
  {
    '\n' !in l && (l == [] || l[|l| - 1] != '\r')
  }

  lemma {:induction false} LinesOfUnlines(ls: seq<string>)
    requires SingleLines(ls)
    ensures Lines(Unlines(ls)) == ls
    decreases |ls|
  {
    if ls != [] {
      assert ls[0] in ls;
      LinesCons(ls[0], Unlines(ls[1..]));
      SingleTail(ls);
      LinesOfUnlines(ls[1..]);
      assert [ls[0]] + ls[1..] == ls;
    }
  }

  /** A single line followed by '\n' is read back as that line, then the rest. */
  lemma LinesCons(l: string, rest: string)
    requires SingleLine(l)
    ensures Lines(l + "\n" + rest) == [l] + Lines(rest)
  {
    var s := l + "\n" + rest;
    assert s[|l|] == '\n' && s[..|l|] == l;
    FindFirst(s, '\n', |l|);
    assert s[|l| + 1..] == rest;
  }

  lemma SingleTail(ls: seq<string>)
    requires ls != [] && SingleLines(ls)
    ensures SingleLines(ls[1..])
  {
    forall m | m in ls[1..] ensures SingleLine(m) {
      var j :| 0 <= j < |ls| - 1 && ls[1..][j] == m;
      assert ls[j + 1] in ls;
    }
  }

  /** A line starting with '#' is a comment. */
  lemma CommentLine(raw: string)
    requires raw != [] && raw[0] == '#'
    ensures LinePair(raw) == None
  {
    TrimEndKeeps(raw);
    assert Trim(raw)[..1] == "#";
  }

  /** Trimming the end of a text that starts with something other than whitespace keeps that first character. */
  lemma {:induction false} TrimEndKeeps(s: string)
    requires s != [] && !IsWhitespace(s[0])
    ensures TrimEnd(s) != [] && TrimEnd(s)[0] == s[0]
    decreases |s|
  {
    if |s| > 1 && IsWhitespace(s[|s| - 1]) {
      TrimEndKeeps(s[..|s| - 1]);
    }
  }

  /** `key=v` with a key free of '=', whitespace at the ends and a leading '#', and a readable value, is read as written. */
  lemma SettingLine(raw: string, key: string, v: string)
    requires raw == Assignment(key, v) && '=' !in key && key != [] && key[0] != '#'
    requires !IsWhitespace(key[0]) && !IsWhitespace(key[|key| - 1]) && IniValue(v)
    ensures LinePair(raw) == Some((key, v))
  {
    assert raw[0] == key[0];
    if v == [] {
      assert raw[|raw| - 1] == '=';
    } else {
      assert raw[|raw| - 1] == v[|v| - 1];
    }
    TrimPlain(raw);
    assert !StartsWith(raw, "#") by {
      assert raw[..1] == [key[0]];
    }
    KeyValueLine(raw, key, v);
    TrimPlain(key);
    if v != [] {
      Engine.PlainUnquote(v);
    }
  }

  /** A blank line or a one-line `#` comment. */
  predicate CommentOrBlank(l: string)
  {
    SingleLine(l) && (l == [] || l[0] == '#')
  }

  /** Comment and blank lines give no pairs. */
  lemma CommentsGiveNoPairs(ls: seq<string>)
    requires forall l :: l in ls ==> CommentOrBlank(l)
    ensures Pairs(ls) == []
  {
    forall i | 0 <= i < |ls|
      ensures LinePair(ls[i]) == None
    {
      assert ls[i] in ls;
      if ls[i] != [] {
        CommentLine(ls[i]);
      }
    }
    CollectNothing(LinePair, ls);
  }

  lemma HeaderComments()
    ensures forall l :: l in Header ==> CommentOrBlank(l)
  {
  }

  lemma FooterComments()
    ensures forall l :: l in Footer ==> CommentOrBlank(l)
  {
    TemplatesNoteComment();
    ArchitecturesNoteComment();
    NewTemplatesNoteComment();
    NewArchitecturesNoteComment();
  }

  lemma TemplatesNoteComment()
    ensures CommentOrBlank(TemplatesNote)
  {
  }

  lemma ArchitecturesNoteComment()
    ensures CommentOrBlank(ArchitecturesNote)
  {
  }

  lemma NewTemplatesNoteComment()
    ensures CommentOrBlank(NewTemplatesNote)
  {
  }

  lemma NewArchitecturesNoteComment()
    ensures CommentOrBlank(NewArchitecturesNote)
  {
  }

  lemma HeaderFooterLines()
    ensures SingleLines(Header)
    ensures SingleLines(Footer)
    ensures Pairs(Header) == [] && Pairs(Footer) == []
  {
    HeaderComments();
    FooterComments();
    CommentsGiveNoPairs(Header);
    CommentsGiveNoPairs(Footer);
  }

  /** A key `to_ini` writes: one line, free of '=', not a comment, no whitespace at either end. */
  predicate KeyText(key: string)
  {
    key != [] && SingleLine(key) && '=' !in key && key[0] != '#'
    && !IsWhitespace(key[0]) && !IsWhitespace(key[|key| - 1])
  }

  /** A setting line is a single line. */
  lemma KeyShape(key: string, v: string)
    requires KeyText(key) && IniValue(v)
    ensures SingleLine(Assignment(key, v))
  {
    var raw := Assignment(key, v);
    if v == [] {
      assert raw[|raw| - 1] == '=';
    } else {
      assert raw[|raw| - 1] == v[|v| - 1];
    }
    assert forall k :: 0 <= k < |raw| ==> raw[k] == (if k < |key| then key[k] else if k == |key| then '=' else v[k - |key| - 1]);
  }

  /** A setting line is read back as its key and value. */
  lemma Setting(key: string, v: string)
    requires KeyText(key) && IniValue(v)
    ensures SingleLine(Assignment(key, v)) && LinePair(Assignment(key, v)) == Some((key, v))
  {
    KeyShape(key, v);
    SettingLine(Assignment(key, v), key, v);
  }

  /** A comment, three lines read as settings and a line read as nothing: single lines giving the three settings. */
  lemma GroupOfThree(c: string, l1: string, l2: string, l3: string, blank: string, y1: (string, string),
                     y2: (string, string), y3: (string, string))
    requires CommentOrBlank(c) && c != [] && SingleLine(l1) && SingleLine(l2) && SingleLine(l3)
    requires LinePair(l1) == Some(y1) && LinePair(l2) == Some(y2) && LinePair(l3) == Some(y3)
    requires SingleLine(blank) && LinePair(blank) == None
    ensures SingleLines([c, l1, l2, l3, blank]) && Pairs([c, l1, l2, l3, blank]) == [y1, y2, y3]
  {
    CommentLine(c);
    SingleFive(c, l1, l2, l3, blank);
    CollectFive(LinePair, c, l1, l2, l3, blank, y1, y2, y3);
  }

  /** A comment and one line read as a setting: single lines giving the setting. */
  lemma GroupOfOne(c: string, l: string, y: (string, string))
    requires CommentOrBlank(c) && c != [] && SingleLine(l) && LinePair(l) == Some(y)
    ensures SingleLines([c, l]) && Pairs([c, l]) == [y]
  {
    CommentLine(c);
    SingleTwo(c, l);
    CollectTwo(LinePair, c, l, y);
  }

  lemma SingleFive(a: string, b: string, c: string, d: string, e: string)
    requires SingleLine(a) && SingleLine(b) && SingleLine(c) && SingleLine(d) && SingleLine(e)
    ensures SingleLines([a, b, c, d, e])
  {
  }

  lemma SingleTwo(a: string, b: string)
    requires SingleLine(a) && SingleLine(b)
    ensures SingleLines([a, b])
  {
  }

  /** The seven keys and the three group comments, one lemma each to keep each proof small. */
  lemma DefaultTypeKey()
    ensures KeyText("default_type")
  {
  }

  lemma CreateFolderKey()
    ensures KeyText("create_folder")
  {
  }

  lemma EnableHooksKey()
    ensures KeyText("enable_hooks")
  {
  }

  lemma TemplatesDirKey()
    ensures KeyText("templates_dir")
  {
  }

  lemma OutputDirKey()
    ensures KeyText("output_dir")
  {
  }

  lemma ArchitecturesDirKey()
    ensures KeyText("architectures_dir")
  {
  }

  lemma DefaultArchitectureKey()
    ensures KeyText("default_architecture")
  {
  }

  lemma GroupComments()
    ensures CommentOrBlank("# General settings") && CommentOrBlank("# Paths configuration")
    ensures CommentOrBlank("# Feature settings")
  {
  }

  lemma BoolValues(b: bool)
    ensures IniValue(BoolText(b))
  {
  }

  lemma GeneralPairs(defaultType: string, createFolder: bool, enableHooks: bool)
    requires IniValue(defaultType)
    ensures var g := GeneralLines(defaultType, createFolder, enableHooks);
      && SingleLines(g)
      && Pairs(g) == GeneralSettings(defaultType, createFolder, enableHooks)
  {
    DefaultTypeKey();
    CreateFolderKey();
    EnableHooksKey();
    GroupComments();
    BoolValues(createFolder);
    BoolValues(enableHooks);
    Setting("default_type", defaultType);
    Setting("create_folder", BoolText(createFolder));
    Setting("enable_hooks", BoolText(enableHooks));
    IgnoredLine("");
    GroupOfThree("# General settings", Assignment("default_type", defaultType),
                 Assignment("create_folder", BoolText(createFolder)), Assignment("enable_hooks", BoolText(enableHooks)), "",
                 ("default_type", defaultType), ("create_folder", BoolText(createFolder)),
                 ("enable_hooks", BoolText(enableHooks)));
  }

  lemma PathPairs(templatesDir: string, outputDir: string, architecturesDir: string)
    requires IniValue(templatesDir) && IniValue(outputDir) && IniValue(architecturesDir)
    ensures var p := PathLines(templatesDir, outputDir, architecturesDir);
      && SingleLines(p)
      && Pairs(p) == PathSettings(templatesDir, outputDir, architecturesDir)
  {
    TemplatesDirKey();
    OutputDirKey();
    ArchitecturesDirKey();
    GroupComments();
    Setting("templates_dir", templatesDir);
    Setting("output_dir", outputDir);
    Setting("architectures_dir", architecturesDir);
    IgnoredLine("");
    GroupOfThree("# Paths configuration", Assignment("templates_dir", templatesDir),
                 Assignment("output_dir", outputDir), Assignment("architectures_dir", architecturesDir), "",
                 ("templates_dir", templatesDir), ("output_dir", outputDir), ("architectures_dir", architecturesDir));
  }

  lemma FeaturePairs(defaultArchitecture: string)
    requires IniValue(defaultArchitecture)
    ensures var f := FeatureLines(defaultArchitecture);
      && SingleLines(f)
      && Pairs(f) == FeatureSettings(defaultArchitecture)
  {
    DefaultArchitectureKey();
    GroupComments();
    Setting("default_architecture", defaultArchitecture);
    GroupOfOne("# Feature settings", Assignment("default_architecture", defaultArchitecture),
               ("default_architecture", defaultArchitecture));
  }

  // ---------------------------------------------------------------- expand_path

  /** `PathBuf::join` on text: an absolute path replaces the base; otherwise a '/' is put between them when the base does not end with one. */
  function JoinPath(base: string, p: string): (r: string)
  {
    if StartsWith(p, "/") then p
    else if base == [] || base[|base| - 1] == '/' then base + p
    else base + "/" + p
  }

  /** `expand_path`: a leading '~' stands for the home directory; the text after "~/" is joined to it, and without "~/" the whole value is. */
  function ExpandPath(value: string, home: Option<string>): (r: Result<string, string>)
    ensures r.Err? <==> StartsWith(value, "~") && home.None?
    ensures r.Err? ==> r.error == "Could not find home directory"
    ensures !StartsWith(value, "~") ==> r == Ok(value)
  {
    if StartsWith(value, "~") then
      if home.None? then Err("Could not find home directory")
      else Ok(JoinPath(home.value, if StartsWith(value, "~/") then value[2..] else value))
    else Ok(value)
  }

  /** A value not starting with '~' is the path itself, with or without a home directory. */
  lemma ExpandPlain(value: string, home: Option<string>)
    requires !StartsWith(value, "~")
    ensures ExpandPath(value, home) == Ok(value)
  {
  }

  /** `~/x` is `x` under the home directory; without a home directory it is an error. */
  lemma ExpandTilde(x: string, home: Option<string>)
    requires !StartsWith(x, "/")
    ensures var r := ExpandPath("~/" + x, home);
      && (home.None? <==> r.Err?)
      && (home.Some? && home.value != [] && home.value[|home.value| - 1] != '/' ==> r == Ok(home.value + "/" + x))
  {
    var v := "~/" + x;
    assert v[..1] == "~" && v[..2] == "~/" && v[2..] == x;
  }

  /** An expanded path ends with what followed the "~/" and never starts with '~' when the home directory does not. */
  lemma ExpandedShape(value: string, h: string)
    requires StartsWith(value, "~/") && h != [] && h[0] != '~'
    ensures var r := ExpandPath(value, Some(h));
      r.Ok? && EndsWith(r.value, value[2..]) && r.value != [] && r.value[0] != '~'
  {
    assert StartsWith(value, "~") by {
      assert value[..1] == value[..2][..1];
    }
    JoinShape(h, value[2..]);
  }

  /** Joining keeps the joined part at the end, and the start is the base's or the absolute path's. */
  lemma JoinShape(h: string, rest: string)
    requires h != [] && h[0] != '~'
    ensures var r := JoinPath(h, rest);
      EndsWith(r, rest) && r != [] && r[0] != '~'
  {
    var r := JoinPath(h, rest);
    if StartsWith(rest, "/") {
      assert r == rest && r[0] == '/';
    } else if h[|h| - 1] == '/' {
      assert r == h + rest && r[|r| - |rest|..] == rest;
    } else {
      assert r == h + "/" + rest && r[|r| - |rest|..] == rest;
    }
  }

  /** "~" alone, or "~name", is joined whole to the home directory: the '~' stays in the path. */
  lemma TildeWithoutSlash(value: string, h: string)
    requires StartsWith(value, "~") && !StartsWith(value, "~/") && h != [] && h[|h| - 1] != '/'
    ensures ExpandPath(value, Some(h)) == Ok(h + "/" + value)
  {
    assert !StartsWith(value, "/") by {
      assert value[0] == '~';
    }
  }
}
