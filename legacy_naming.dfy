/**
 * The naming free functions of the original engine (src/template_engine.rs):
 * PascalCase keeps an already-Pascal input, but camel, snake and kebab case
 * have no "already in this case" shortcut; smart names and `{name}` file
 * patterns as the engine computes them.
 */
module LegacyNaming {
  import opened Strings
  import opened Names
  import opened Substitution

  predicate IsPascalCase(s: string)
  {
    s != [] && IsUpper(s[0]) && AllAlnum(s) && '_' !in s && '-' !in s && ' ' !in s
  }

  /** `to_pascal_case`: an already-Pascal input unchanged, otherwise the capitalised words glued. */
  function ToPascalCase(s: string): (r: string)
    ensures AllAlnum(r)
    ensures IsPascalCase(s) ==> r == s
    ensures r == [] <==> Words(s) == []
  {
    if IsPascalCase(s) then
      WordsOfWord(s);
      s
    else
      var ws := Words(s);
      assert ws != [] ==> ws[0] != [];
      CapitalizeWords(ws)
  }

  /** `to_camel_case`: the PascalCase form with its first character lower-cased. */
  function ToCamelCase(s: string): (r: string)
    ensures AllAlnum(r) && |r| == |ToPascalCase(s)|
    ensures r != [] ==> !IsUpper(r[0])
  {
    var pascal := ToPascalCase(s);
    if pascal == [] then [] else [LowerChar(pascal[0])] + pascal[1..]
  }

  /** `to_snake_case`: '_' before each non-initial capital, lower-cased, words rejoined with '_'. */
  function ToSnakeCase(s: string): (r: string)
    ensures LowerWith(r, '_')
  {
    WordsOfMarkedAreLower(s);
    JoinShape(Words(Marked(s)), '_');
    Join(Words(Marked(s)), "_")
  }

  /** `to_kebab_case`: the snake_case form with '_' replaced by '-'. */
  function ToKebabCase(s: string): (r: string)
    ensures r == Join(Words(Marked(s)), "-")
    ensures LowerWith(r, '-')
  {
    WordsOfMarkedAreLower(s);
    LowerWordsFree(Words(Marked(s)));
    ReplaceInJoin(Words(Marked(s)), '_', '-');
    JoinShape(Words(Marked(s)), '-');
    Replace(ToSnakeCase(s), "_", "-")
  }

  /** `process_smart_names` (the engine's private copy). */
  function ProcessSmartNames(name: string): (names: SmartNames)
    ensures names.hook == name || StartsWith(names.hook, "use")
    ensures names.context == name || EndsWith(names.context, "Context")
    ensures names.provider == name || EndsWith(names.provider, "Provider")
    ensures names.page == name || EndsWith(names.page, "Page")
  {
    var lower := Lower(name);
    var hook := if StartsWith(lower, "use") then name else "use" + ToPascalCase(name);
    var context := if EndsWith(lower, "context") then name else ToPascalCase(name) + "Context";
    var provider :=
      if EndsWith(lower, "provider") then name
      else if EndsWith(lower, "context") then ToPascalCase(name[..|name| - 7]) + "Provider"
      else ToPascalCase(name) + "Provider";
    var page := if EndsWith(lower, "page") then name else ToPascalCase(name) + "Page";
    AppendEnds("use", ToPascalCase(name));
    AppendEnds(ToPascalCase(name), "Context");
    AppendEnds(ToPascalCase(name), "Page");
    AppendEnds(ToPascalCase(name), "Provider");
    assert provider == name || EndsWith(provider, "Provider") by {
      if EndsWith(lower, "context") && !EndsWith(lower, "provider") {
        AppendEnds(ToPascalCase(name[..|name| - 7]), "Provider");
      }
    }
    SmartNames(hook, context, provider, page)
  }

  const FileName := "$FILE_NAME"
  const NamePattern := "{name}"

  /** `apply_smart_replacements`: the bare `$FILE_NAME` becomes the raw name. */
  function ApplySmartReplacements(content: string, name: string, names: SmartNames): (r: string)
    ensures '$' !in content ==> r == content
  {
    assert '$' !in content ==> SmartSubstitute(content, FileName, names, name) == content by {
      if '$' !in content { PatternIsToken(); SubstituteNothing(content, FileName, names, name); }
    }
    SmartSubstitute(content, FileName, names, name)
  }

  /** `apply_smart_filename_replacements`: the bare `$FILE_NAME` becomes the PascalCase name. */
  function ApplySmartFilenameReplacements(filename: string, name: string, names: SmartNames): (r: string)
    ensures '$' !in filename ==> r == filename
  {
    assert '$' !in filename ==> SmartSubstitute(filename, FileName, names, ToPascalCase(name)) == filename by {
      if '$' !in filename { PatternIsToken(); SubstituteNothing(filename, FileName, names, ToPascalCase(name)); }
    }
    SmartSubstitute(filename, FileName, names, ToPascalCase(name))
  }

  /** `process_filename_pattern`: `{name}` patterns with the smart names, the rest with the raw name. */
  function ProcessFilenamePattern(pattern: string, name: string): (r: string)
    ensures '{' !in pattern ==> r == pattern
  {
    assert '{' !in pattern ==> SmartSubstitute(pattern, NamePattern, ProcessSmartNames(name), name) == pattern by {
      if '{' !in pattern { PatternIsToken(); SubstituteNothing(pattern, NamePattern, ProcessSmartNames(name), name); }
    }
    SmartSubstitute(pattern, NamePattern, ProcessSmartNames(name), name)
  }

  // ---------------------------------------------------------------- lemmas

  /** snake_case is a fixed point of itself. */
  lemma SnakeIdempotent(s: string)
    ensures ToSnakeCase(ToSnakeCase(s)) == ToSnakeCase(s)
  {
    var ws := Words(Marked(s));
    var r := ToSnakeCase(s);
    assert r == Join(ws, ['_']);
    RejoinedWords(ws, r, '_');
  }

  /** kebab-case of a kebab-case string changes nothing either. */
  lemma KebabIdempotent(s: string)
    ensures ToKebabCase(ToKebabCase(s)) == ToKebabCase(s)
  {
    var ws := Words(Marked(s));
    var r := ToKebabCase(s);
    assert r == Join(ws, ['-']);
    RejoinedWords(ws, r, '-');
  }

  /** Lower-case words joined by a separator split back into the same words. */
  lemma RejoinedWords(ws: seq<string>, r: string, sep: char)
    requires AlnumWords(ws) && !IsAlnum(sep) && r == Join(ws, [sep]) && LowerWith(r, sep)
    ensures Words(Marked(r)) == ws
  {
    assert forall i :: 0 <= i < |r| ==> !IsUpper(r[i]);
    MarkedWithoutCapitals(r);
    WordsOfJoin(ws, sep);
  }

  /** Substituting `{name}` patterns: a hook pattern becomes the hook name, the bare one the raw name. */
  lemma FilenamePatternHook(a: string, b: string, name: string)
    requires '{' !in a && '{' !in b && '{' !in ProcessSmartNames(name).hook
    ensures ProcessFilenamePattern(a + "use" + NamePattern + b, name) == a + ProcessSmartNames(name).hook + b
  {
    PatternIsToken();
    SubstituteHook(a, b, NamePattern, ProcessSmartNames(name), name);
  }

  lemma PatternIsToken()
    ensures Token(NamePattern) && NamePattern[0] == '{' && Token(FileName) && FileName[0] == '$'
  {
  }
}
