/**
 * The naming helpers of the template engine (src/template_engine/naming.rs):
 * case conversions that return their input untouched when it already has the
 * target shape, smart React names, and `$FILE_NAME` substitution.
 */
module TemplateNaming {
  import opened Strings
  import opened Names
  import opened Substitution

  // ---------------------------------------------------------------- shapes

  predicate IsPascalCase(s: string)
  {
    s != [] && IsUpper(s[0]) && AllAlnum(s) && '_' !in s && '-' !in s && ' ' !in s
  }

  predicate IsCamelCase(s: string)
  {
    s != [] && IsLower(s[0]) && AllAlnum(s) && '_' !in s && '-' !in s && ' ' !in s
  }

  predicate HasLetter(s: string)
  {
    exists i :: 0 <= i < |s| && IsAlpha(s[i])
  }

  predicate IsSnakeCase(s: string)
  {
    s != [] && (forall i :: 0 <= i < |s| ==> IsLower(s[i]) || IsDigit(s[i]) || s[i] == '_')
    && '-' !in s && ' ' !in s && HasLetter(s)
  }

  predicate IsKebabCase(s: string)
  {
    s != [] && (forall i :: 0 <= i < |s| ==> IsLower(s[i]) || IsDigit(s[i]) || s[i] == '-')
    && '_' !in s && ' ' !in s && HasLetter(s)
  }

  // ---------------------------------------------------------------- conversions

  function ToPascalCase(s: string): (r: string)
    ensures AllAlnum(r)
    ensures IsPascalCase(s) ==> r == s
    ensures r == [] || IsPascalCase(r) || IsDigit(r[0])
  {
    if IsPascalCase(s) then s
    else
      CapitalizedShape(Words(s));
      CapitalizeWords(Words(s))
  }

  /** Capitalised non-empty alphanumeric words glue to a PascalCase string unless they start with a digit. */
  lemma CapitalizedShape(ws: seq<string>)
    requires forall k :: 0 <= k < |ws| ==> ws[k] != [] && AllAlnum(ws[k])
    ensures var r := CapitalizeWords(ws); AllAlnum(r) && (r == [] || IsPascalCase(r) || IsDigit(r[0]))
  {
    var r := CapitalizeWords(ws);
    if r != [] {
      assert ws != [] && ws[0] != [];
      AlnumHasNoSeparator(r);
    }
  }

  /** An all-alphanumeric string contains none of the separators. */
  predicate NoSeparator(s: string)
  {
    '_' !in s && '-' !in s && ' ' !in s
  }

  lemma AlnumHasNoSeparator(s: string)
    requires AllAlnum(s)
    ensures NoSeparator(s)
  {
  }

  function ToCamelCase(s: string): (r: string)
    ensures AllAlnum(s) ==> AllAlnum(r)
    ensures IsCamelCase(s) ==> r == s
    ensures r == [] || IsCamelCase(r) || IsDigit(r[0])
  {
    if IsCamelCase(s) then s
    else
      var pascal := ToPascalCase(s);
      if pascal == [] then []
      else
        var r := [LowerChar(pascal[0])] + pascal[1..];
        assert AllAlnum(r);
        r
  }

  function ToSnakeCase(s: string): (r: string)
    ensures IsSnakeCase(s) ==> r == s
    ensures LowerWith(r, '_')
  {
    if IsSnakeCase(s) then s
    else
      WordsOfMarkedAreLower(s);
      JoinShape(Words(Marked(s)), '_');
      Join(Words(Marked(s)), "_")
  }

  function ToKebabCase(s: string): (r: string)
    ensures IsKebabCase(s) ==> r == s
    ensures !IsKebabCase(s) ==> '_' !in r
    ensures LowerWith(r, '-') || IsKebabCase(s)
  {
    if IsKebabCase(s) then s
    else
      var snake := ToSnakeCase(s);
      if '_' in snake then
        ReplaceUnderscores(snake);
        Replace(snake, "_", "-")
      else
        assert LowerWith(snake, '-');
        snake
  }

  /** Replacing '_' by '-' in a lower-case snake string gives a lower-case kebab string. */
  lemma {:induction false} ReplaceUnderscores(s: string)
    requires LowerWith(s, '_')
    ensures LowerWith(Replace(s, "_", "-"), '-')
    ensures '_' !in Replace(s, "_", "-")
    ensures |Replace(s, "_", "-")| == |s|
    decreases |s|
  {
    if |s| >= 1 {
      ReplaceUnderscores(s[1..]);
      if s[..1] == "_" {
        assert s[1..] == s[|"_"|..];
      } else {
        assert s[0] != '_';
      }
    }
  }

  // ---------------------------------------------------------------- smart names

  function ProcessSmartNames(name: string): (names: SmartNames)
    ensures names.hook == name || StartsWith(names.hook, "use")
    ensures names.context == name || EndsWith(names.context, "Context")
    ensures names.provider == name || EndsWith(names.provider, "Provider")
    ensures names.page == name || EndsWith(names.page, "Page")
  {
    var lower := Lower(name);
    var hook := if StartsWith(lower, "use") then name else "use" + ToPascalCase(name);
    var context := if EndsWith(lower, "context") then name else ToPascalCase(name) + "Context";
    var provider :=
      if EndsWith(lower, "provider") then name
      else if EndsWith(lower, "context") then ToPascalCase(name[..|name| - 7]) + "Provider"
      else ToPascalCase(name) + "Provider";
    var page := if EndsWith(lower, "page") then name else ToPascalCase(name) + "Page";
    AppendEnds("use", ToPascalCase(name));
    AppendEnds(ToPascalCase(name), "Context");
    AppendEnds(ToPascalCase(name), "Page");
    AppendEnds(ToPascalCase(name), "Provider");
    assert provider == name || EndsWith(provider, "Provider") by {
      if EndsWith(lower, "context") && !EndsWith(lower, "provider") {
        AppendEnds(ToPascalCase(name[..|name| - 7]), "Provider");
      }
    }
    SmartNames(hook, context, provider, page)
  }

  /** A string keeps its prefix `p` (ignoring case) when something is appended to it. */
  lemma LowerStartsWithAppend(p: string, a: string, b: string)
    requires StartsWith(Lower(a), p)
    ensures StartsWith(Lower(a + b), p)
  {
    LowerOfConcat();
    assert (Lower(a) + Lower(b))[..|p|] == Lower(a)[..|p|];
  }

  /** A string ends with `p` (ignoring case) when `q`, whose lower-case form is `p`, is appended to it. */
  lemma LowerEndsWithAppend(a: string, q: string, p: string)
    requires Lower(q) == p
    ensures EndsWith(Lower(a + q), p)
  {
    LowerOfConcat();
    assert (Lower(a) + p)[|Lower(a) + p| - |p|..] == p;
  }

  /**
   * The hook name is the input itself exactly when the input starts with "use"
   * in any case (so "user" stays "user"); in every case it starts with "use".
   */
  lemma HookName(name: string)
    ensures ProcessSmartNames(name).hook == name <==> StartsWith(Lower(name), "use")
    ensures StartsWith(Lower(ProcessSmartNames(name).hook), "use")
    ensures !StartsWith(Lower(name), "use") ==> ProcessSmartNames(name).hook == "use" + ToPascalCase(name)
  {
    assert Lower("use") == "use";
    if !StartsWith(Lower(name), "use") {
      LowerStartsWithAppend("use", "use", ToPascalCase(name));
    }
  }

  /** The context name is the input itself exactly when the input ends with "context" in any case. */
  lemma ContextName(name: string)
    ensures ProcessSmartNames(name).context == name <==> EndsWith(Lower(name), "context")
    ensures EndsWith(Lower(ProcessSmartNames(name).context), "context")
    ensures !EndsWith(Lower(name), "context") ==> ProcessSmartNames(name).context == ToPascalCase(name) + "Context"
  {
    assert Lower("Context") == "context";
    LowerEndsWithAppend(ToPascalCase(name), "Context", "context");
  }

  /** The page name is the input itself exactly when the input ends with "page" in any case. */
  lemma PageName(name: string)
    ensures ProcessSmartNames(name).page == name <==> EndsWith(Lower(name), "page")
    ensures EndsWith(Lower(ProcessSmartNames(name).page), "page")
    ensures !EndsWith(Lower(name), "page") ==> ProcessSmartNames(name).page == ToPascalCase(name) + "Page"
  {
    assert Lower("Page") == "page";
    LowerEndsWithAppend(ToPascalCase(name), "Page", "page");
  }

  /**
   * The provider name: the input itself exactly when it ends with "provider";
   * otherwise a trailing "context" (seven characters) is dropped before the
   * PascalCase form gets "Provider".
   */
  lemma ProviderName(name: string)
    ensures ProcessSmartNames(name).provider == name <==> EndsWith(Lower(name), "provider")
    ensures EndsWith(Lower(ProcessSmartNames(name).provider), "provider")
    ensures !EndsWith(Lower(name), "provider") && EndsWith(Lower(name), "context") ==>
      ProcessSmartNames(name).provider == ToPascalCase(name[..|name| - 7]) + "Provider"
    ensures !EndsWith(Lower(name), "provider") && !EndsWith(Lower(name), "context") ==>
      ProcessSmartNames(name).provider == ToPascalCase(name) + "Provider"
  {
    assert Lower("Provider") == "provider";
    var lower := Lower(name);
    if EndsWith(lower, "context") {
      LowerEndsWithAppend(ToPascalCase(name[..|name| - 7]), "Provider", "provider");
    } else {
      LowerEndsWithAppend(ToPascalCase(name), "Provider", "provider");
    }
  }

  /** The doc test of process_smart_names: "auth" gives useAuth, AuthContext, AuthProvider, AuthPage. */
  lemma SmartNamesOfAuth(name: string)
    requires name == "auth"
    ensures ProcessSmartNames(name) == SmartNames("useAuth", "AuthContext", "AuthProvider", "AuthPage")
  {
    AuthFacts(name);
    PlainSmartNames(name, "Auth");
    AuthAffixed();
  }

  lemma AuthAffixed()
    ensures "use" + "Auth" == "useAuth" && "Auth" + "Context" == "AuthContext"
    ensures "Auth" + "Provider" == "AuthProvider" && "Auth" + "Page" == "AuthPage"
  {
  }

  /** A name with none of the four affixes gets all four from its PascalCase form. */
  lemma PlainSmartNames(name: string, p: string)
    requires !StartsWith(Lower(name), "use") && !EndsWith(Lower(name), "context")
    requires !EndsWith(Lower(name), "provider") && !EndsWith(Lower(name), "page")
    requires ToPascalCase(name) == p
    ensures ProcessSmartNames(name) == SmartNames("use" + p, p + "Context", p + "Provider", p + "Page")
  {
  }

  lemma AuthFacts(name: string)
    requires name == "auth"
    ensures ToPascalCase(name) == "Auth"
    ensures !StartsWith(Lower(name), "use") && !EndsWith(Lower(name), "context")
    ensures !EndsWith(Lower(name), "provider") && !EndsWith(Lower(name), "page")
  {
    LowerOfLowerWord(name);
    AuthNotAffixed(name);
    AuthPascal(name);
  }

  lemma AuthNotAffixed(l: string)
    requires l == "auth"
    ensures !StartsWith(l, "use") && !EndsWith(l, "context") && !EndsWith(l, "provider") && !EndsWith(l, "page")
  {
    assert l[..3][0] != 'u';
  }

  lemma AuthPascal(name: string)
    requires name == "auth"
    ensures ToPascalCase(name) == "Auth"
  {
    assert !IsPascalCase(name);
    PascalOfLowerWord(name, "Auth");
  }

  /** "useAuth" and "user" both keep their hook name; the second differs from the suffix-based naming. */
  lemma HookKept(name: string)
    requires name in {"useAuth", "user"}
    ensures ProcessSmartNames(name).hook == name
  {
    HookKeptWhenUse(name);
  }

  lemma HookKeptWhenUse(name: string)
    requires |name| >= 3 && name[0] == 'u' && name[1] == 's' && name[2] == 'e'
    ensures ProcessSmartNames(name).hook == name
  {
    HookName(name);
    assert Lower(name)[..3] == "use";
  }

  lemma PascalOfLowerWord(w: string, p: string)
    requires w != [] && AllAlnum(w) && !IsPascalCase(w) && p == [UpperChar(w[0])] + Lower(w[1..])
    ensures ToPascalCase(w) == p
  {
    WordsOfWord(w);
    assert CapitalizeWords([w]) == Capitalize(w);
  }

  lemma LowerOfLowerWord(w: string)
    requires forall i :: 0 <= i < |w| ==> !IsUpper(w[i])
    ensures Lower(w) == w
  {
  }

  // ---------------------------------------------------------------- substitution

  /** The placeholder of template contents and file names. */
  const FileName := "$FILE_NAME"

  /** Template contents: the four smart patterns first, then the bare placeholder becomes the raw name. */
  function ApplySmartReplacements(content: string, name: string, names: SmartNames): (r: string)
    ensures '$' !in content ==> r == content
  {
    assert '$' !in content ==> SmartSubstitute(content, FileName, names, name) == content by {
      if '$' !in content { FileNameIsToken(); SubstituteNothing(content, FileName, names, name); }
    }
    SmartSubstitute(content, FileName, names, name)
  }

  /** File names: as above, but the bare placeholder becomes the PascalCase name. */
  function ApplySmartFilenameReplacements(filename: string, name: string, names: SmartNames): (r: string)
    ensures '$' !in filename ==> r == filename
  {
    assert '$' !in filename ==> SmartSubstitute(filename, FileName, names, ToPascalCase(name)) == filename by {
      if '$' !in filename { FileNameIsToken(); SubstituteNothing(filename, FileName, names, ToPascalCase(name)); }
    }
    SmartSubstitute(filename, FileName, names, ToPascalCase(name))
  }

  // ---------------------------------------------------------------- lemmas: substitution

  lemma FileNameIsToken()
    ensures Token(FileName) && FileName[0] == '$'
  {
  }

  /** The doc test of apply_smart_replacements: a hook placeholder in code. */
  lemma ReplacementsExample(content: string, name: string)
    requires content == "export function use$FILE_NAME() { }" && name == "Auth"
    ensures ApplySmartReplacements(content, name, ProcessSmartNames(name)) == "export function useAuth() { }"
  {
    var a, b := "export function ", "() { }";
    ExportShape(content, a, b);
    HookOfAuth(name);
    HookPlaceholder(content, a, b, name, name, "useAuth");
  }

  lemma ExportShape(content: string, a: string, b: string)
    requires content == "export function use$FILE_NAME() { }"
    requires a == "export function " && b == "() { }"
    ensures content == a + "use" + FileName + b && '$' !in a && '$' !in b
    ensures a + "useAuth" + b == "export function useAuth() { }"
  {
  }

  /** The doc test of apply_smart_filename_replacements: `use$FILE_NAME.ts` becomes `useAuth.ts`. */
  lemma FilenameExample(filename: string, name: string)
    requires filename == "use$FILE_NAME.ts" && name == "Auth"
    ensures ApplySmartFilenameReplacements(filename, name, ProcessSmartNames(name)) == "useAuth.ts"
  {
    FileShape(filename);
    HookOfAuth(name);
    HookPlaceholder(filename, [], ".ts", name, ToPascalCase(name), "useAuth");
  }

  lemma FileShape(filename: string)
    requires filename == "use$FILE_NAME.ts"
    ensures filename == [] + "use" + FileName + ".ts" && '$' !in ".ts"
    ensures [] + "useAuth" + ".ts" == "useAuth.ts"
  {
  }

  /** A hook placeholder between text free of '$' becomes the hook name. */
  lemma HookPlaceholder(content: string, a: string, b: string, name: string, bare: string, hook: string)
    requires content == a + "use" + FileName + b && '$' !in a && '$' !in b
    requires ProcessSmartNames(name).hook == hook && '$' !in hook
    ensures SmartSubstitute(content, FileName, ProcessSmartNames(name), bare) == a + hook + b
  {
    FileNameIsToken();
    SubstituteHook(a, b, FileName, ProcessSmartNames(name), bare);
  }

  lemma HookOfAuth(name: string)
    requires name == "Auth"
    ensures ProcessSmartNames(name).hook == "useAuth"
  {
    assert IsPascalCase(name);
    assert Lower(name)[0] == 'a';
    HookName(name);
  }

  // ---------------------------------------------------------------- lemmas: conversions

  /** Words separated by any non-alphanumeric character are capitalised and glued. */
  lemma PascalOfSeparated(ws: seq<string>, sep: char)
    requires |ws| >= 2 && AlnumWords(ws) && !IsAlnum(sep)
    ensures ToPascalCase(Join(ws, [sep])) == CapitalizeWords(ws)
  {
    var s := Join(ws, [sep]);
    assert s == ws[0] + [sep] + Join(ws[1..], [sep]);
    assert s[|ws[0]|] == sep;
    WordsOfJoin(ws, sep);
  }

  /**
   * Converting twice changes nothing, provided the first alphanumeric run does
   * not start with a digit (see PascalNotIdempotent).
   */
  lemma PascalIdempotent(s: string)
    requires IsPascalCase(s) || Words(s) == [] || IsAlpha(Words(s)[0][0])
    ensures ToPascalCase(ToPascalCase(s)) == ToPascalCase(s)
  {
    if !IsPascalCase(s) && Words(s) != [] {
      var r := ToPascalCase(s);
      assert r[0] == UpperChar(Words(s)[0][0]);
      assert IsPascalCase(r);
    }
  }

  /** A leading digit run defeats the fast path: the second pass lower-cases the tail. */
  lemma PascalNotIdempotent(s: string)
    requires s == "1st_place"
    ensures ToPascalCase(s) == "1stPlace"
    ensures ToPascalCase(ToPascalCase(s)) == "1stplace"
  {
    FirstPlaceFacts(s);
    PascalOfSeparated(["1st", "place"], '_');
    PascalOfDigitWord(ToPascalCase(s));
  }

  lemma FirstPlaceFacts(s: string)
    requires s == "1st_place"
    ensures s == Join(["1st", "place"], ['_']) && AlnumWords(["1st", "place"])
    ensures CapitalizeWords(["1st", "place"]) == "1stPlace"
  {
    FirstPlaceJoined(s);
    FirstPlaceWords();
    CapitalizeTwo("1st", "place");
    CapitalizeFirst();
    CapitalizePlace();
  }

  lemma FirstPlaceJoined(s: string)
    requires s == "1st_place"
    ensures s == Join(["1st", "place"], ['_'])
  {
  }

  lemma FirstPlaceWords()
    ensures AlnumWords(["1st", "place"])
  {
  }

  lemma CapitalizeFirst()
    ensures Capitalize("1st") == "1st"
  {
  }

  lemma CapitalizePlace()
    ensures Capitalize("place") == "Place"
  {
  }

  lemma PascalOfDigitWord(s: string)
    requires s == "1stPlace"
    ensures ToPascalCase(s) == "1stplace"
  {
    WordsOfWord(s);
    assert Capitalize(s) == "1stplace";
  }

  lemma CamelIdempotent(s: string)
    requires IsCamelCase(s) || Words(s) == [] || IsAlpha(Words(s)[0][0])
    ensures ToCamelCase(ToCamelCase(s)) == ToCamelCase(s)
  {
    if !IsCamelCase(s) {
      var p := ToPascalCase(s);
      if p != [] {
        if IsPascalCase(s) {
          assert p == s;
        } else {
          assert p[0] == UpperChar(Words(s)[0][0]);
        }
        assert IsUpper(p[0]);
        var c := [LowerChar(p[0])] + p[1..];
        AlnumHasNoSeparator(c);
        assert IsCamelCase(c);
      }
    }
  }

  lemma SnakeIdempotent(s: string)
    ensures ToSnakeCase(ToSnakeCase(s)) == ToSnakeCase(s)
  {
    var r := ToSnakeCase(s);
    if !IsSnakeCase(r) {
      var ws := Words(Marked(s));
      assert r == Join(ws, "_");
      MarkedWithoutCapitals(r);
      WordsOfJoin(ws, '_');
    }
  }

  lemma KebabIdempotent(s: string)
    ensures ToKebabCase(ToKebabCase(s)) == ToKebabCase(s)
  {
    var r := ToKebabCase(s);
    if !IsKebabCase(r) {
      var snake := ToSnakeCase(s);
      var ws := Words(Marked(s));
      KebabJoin(s, r);
      WordsOfMarkedAreLower(s);
      MarkedWithoutCapitals(r);
      WordsOfJoin(ws, '-');
      if IsSnakeCase(r) {
        ReplaceCharAbsent(r, '_', '-');
      } else {
        assert ToSnakeCase(r) == snake;
      }
    }
  }

  /** A kebab form that is not itself kebab-case is the words of the input joined by '-'. */
  lemma KebabJoin(s: string, r: string)
    requires r == ToKebabCase(s) && !IsKebabCase(r)
    ensures !IsKebabCase(s) && !IsSnakeCase(s)
    ensures ToSnakeCase(s) == Join(Words(Marked(s)), "_") && r == Join(Words(Marked(s)), "-")
  {
    var snake := ToSnakeCase(s);
    ReplaceCharAt(snake, '_', '-');
    if IsSnakeCase(s) {
      assert false;
    }
    var ws := Words(Marked(s));
    WordsOfMarkedAreLower(s);
    assert snake == Join(ws, "_");
    ReplaceInJoin(ws, '_', '-');
    if '_' !in snake { ReplaceCharAbsent(snake, '_', '-'); }
  }

  /** The doc tests of the four conversions (naming.rs lines 446-470). */
  lemma PascalExamples(s: string)
    requires s in {"hello_world", "hello-world", "hello world", "HelloWorld"}
    ensures ToPascalCase(s) == "HelloWorld"
  {
    if s == "HelloWorld" {
      HelloWorldIsPascal();
    } else if s == "hello_world" {
      PascalOfHelloWorld(s, '_');
    } else if s == "hello-world" {
      PascalOfHelloWorld(s, '-');
    } else {
      PascalOfHelloWorld(s, ' ');
    }
  }

  lemma PascalOfHelloWorld(s: string, sep: char)
    requires sep in "_- " && s == "hello" + [sep] + "world"
    ensures ToPascalCase(s) == "HelloWorld"
  {
    JoinHelloWorld(sep);
    CapitalizeHelloWorld();
    HelloWorldWords();
    PascalOfSeparated(["hello", "world"], sep);
  }

  lemma CamelExamples(s: string)
    requires s in {"hello_world", "hello-world", "HelloWorld"}
    ensures ToCamelCase(s) == "helloWorld"
  {
    PascalExamples(s);
    NotCamel(s);
    CamelOfPascal(s);
    LowerFirstOfHelloWorld("HelloWorld");
  }

  lemma SnakeExamples(s: string)
    requires s in {"HelloWorld", "helloWorld", "hello-world"}
    ensures ToSnakeCase(s) == "hello_world"
  {
    if s == "hello-world" {
      SnakeOfHelloDashWorld(s);
    } else {
      SnakeOfHelloWorld(s);
    }
  }

  lemma SnakeOfHelloWorld(s: string)
    requires s in {"HelloWorld", "helloWorld"}
    ensures ToSnakeCase(s) == "hello_world"
  {
    NotSnake(s);
    MarkedHelloWorld(s);
    SnakeOfMarked(s, '_');
  }

  lemma SnakeOfHelloDashWorld(s: string)
    requires s == "hello-world"
    ensures ToSnakeCase(s) == "hello_world"
  {
    NotSnake(s);
    MarkedHelloDashWorld();
    SnakeOfMarked(s, '-');
  }

  lemma SnakeOfMarked(s: string, sep: char)
    requires sep in "_-" && !IsSnakeCase(s) && Marked(s) == "hello" + [sep] + "world"
    ensures ToSnakeCase(s) == "hello_world"
  {
    JoinHelloWorld(sep);
    JoinedHelloWorld();
    HelloWorldWords();
    SnakeOfSeparated(s, ["hello", "world"], sep);
  }

  lemma KebabExamples(s: string)
    requires s in {"HelloWorld", "helloWorld", "hello_world"}
    ensures ToKebabCase(s) == "hello-world"
  {
    NotKebab(s);
    if s == "hello_world" {
      HelloWorldIsSnake();
    } else {
      SnakeOfHelloWorld(s);
    }
    KebabOfHelloWorld(s);
  }

  lemma KebabOfHelloWorld(s: string)
    requires !IsKebabCase(s) && ToSnakeCase(s) == "hello_world"
    ensures ToKebabCase(s) == "hello-world"
  {
    JoinedHelloWorld();
    HelloWorldWords();
    KebabOfSnake(s, ["hello", "world"]);
  }

  lemma HelloWorldWords()
    ensures AlnumWords(["hello", "world"])
  {
  }

  /** Words whose marked form is separated by `sep` come out joined by '_'. */
  lemma SnakeOfSeparated(s: string, ws: seq<string>, sep: char)
    requires !IsSnakeCase(s) && AlnumWords(ws) && !IsAlnum(sep) && Marked(s) == Join(ws, [sep])
    ensures ToSnakeCase(s) == Join(ws, "_")
  {
    WordsOfJoin(ws, sep);
  }

  lemma KebabOfSnake(s: string, ws: seq<string>)
    requires !IsKebabCase(s) && AlnumWords(ws) && ToSnakeCase(s) == Join(ws, "_")
    ensures ToKebabCase(s) == Join(ws, "-")
  {
    KebabGeneral(s);
    ReplaceInJoin(ws, '_', '-');
  }

  // Unfoldings of the conversions, used to keep the examples away from literal evaluation.

  lemma CamelOfPascal(s: string)
    requires !IsCamelCase(s) && ToPascalCase(s) != []
    ensures ToCamelCase(s) == [LowerChar(ToPascalCase(s)[0])] + ToPascalCase(s)[1..]
  {
  }

  lemma SnakeGeneral(s: string)
    requires !IsSnakeCase(s)
    ensures ToSnakeCase(s) == Join(Words(Marked(s)), "_")
  {
  }

  lemma KebabGeneral(s: string)
    requires !IsKebabCase(s)
    ensures ToKebabCase(s) == Replace(ToSnakeCase(s), "_", "-")
  {
    if '_' !in ToSnakeCase(s) {
      ReplaceCharAbsent(ToSnakeCase(s), '_', '-');
    }
  }

  // Literal facts used by the examples, each small enough to evaluate on its own.

  lemma JoinHelloWorld(sep: char)
    ensures Join(["hello", "world"], [sep]) == "hello" + [sep] + "world"
  {
  }

  lemma JoinedHelloWorld()
    ensures Join(["hello", "world"], "_") == "hello_world"
    ensures Join(["hello", "world"], "-") == "hello-world"
  {
  }

  lemma CapitalizeHelloWorld()
    ensures CapitalizeWords(["hello", "world"]) == "HelloWorld"
  {
    CapitalizeTwo("hello", "world");
    CapitalizeHello();
    CapitalizeWorld();
  }

  lemma CapitalizeHello()
    ensures Capitalize("hello") == "Hello"
  {
  }

  lemma CapitalizeWorld()
    ensures Capitalize("world") == "World"
  {
  }

  lemma HelloWorldIsPascal()
    ensures IsPascalCase("HelloWorld")
  {
  }

  lemma HelloWorldIsSnake()
    ensures IsSnakeCase("hello_world")
  {
    assert IsAlpha("hello_world"[0]);
  }

  lemma LowerFirstOfHelloWorld(p: string)
    requires p == "HelloWorld"
    ensures [LowerChar(p[0])] + p[1..] == "helloWorld"
  {
  }

  lemma NotCamel(s: string)
    requires s in {"hello_world", "hello-world", "HelloWorld"}
    ensures !IsCamelCase(s)
  {
    assert !IsLower(s[0]) || !IsAlnum(s[5]);
  }

  lemma NotSnake(s: string)
    requires s in {"HelloWorld", "helloWorld", "hello-world"}
    ensures !IsSnakeCase(s)
  {
    assert IsUpper(s[0]) || IsUpper(s[5]) || s[5] == '-';
  }

  lemma NotKebab(s: string)
    requires s in {"HelloWorld", "helloWorld", "hello_world"}
    ensures !IsKebabCase(s)
  {
    assert IsUpper(s[0]) || IsUpper(s[5]) || s[5] == '_';
  }

  lemma MarkedHelloDashWorld()
    ensures Marked("hello-world") == "hello-world"
  {
    var s := "hello-world";
    assert forall i :: 0 <= i < |s| ==> !IsUpper(s[i]);
    MarkedWithoutCapitals(s);
  }

  lemma MarkedHelloWorld(s: string)
    requires s in {"HelloWorld", "helloWorld"}
    ensures Marked(s) == "hello_world"
  {
    HelloWorldParts(s);
    MarkedTwoWords(s[0], "ello", 'W', "orld");
  }

  lemma HelloWorldParts(s: string)
    requires s in {"HelloWorld", "helloWorld"}
    ensures s == [s[0]] + "ello" + ['W'] + "orld"
    ensures [LowerChar(s[0])] + "ello" + ['_', LowerChar('W')] + "orld" == "hello_world"
  {
  }
}
