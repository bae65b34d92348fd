/**
 * The prefix/suffix-based naming service (src/naming/mod.rs).  `SmartNaming`
 * is a unit struct, so its methods are modelled as functions of their
 * arguments; `to_snake_case`, which builds its result character by character,
 * is a method proved against `SnakeCase`.
 */
module SmartNaming {
  import opened Strings
  import opened Names
  import opened Substitution

  predicate HasUpper(s: string)
  {
    exists i :: 0 <= i < |s| && IsUpper(s[i])
  }

  /** `ensure_suffix`: `text` when it already ends with `suffix` ignoring case, else `text + suffix`. */
  function EnsureSuffix(text: string, suffix: string): (r: string)
    ensures EndsWith(Lower(r), Lower(suffix))
    ensures r == text <==> EndsWith(Lower(text), Lower(suffix))
  {
    if EndsWith(Lower(text), Lower(suffix)) then text
    else
      LowerOfConcat();
      assert Lower(text + suffix)[|text|..] == Lower(suffix);
      assert |suffix| > 0;
      text + suffix
  }

  /**
   * `to_pascal_case`: a string with a capital and no separator only gets its
   * first character upper-cased; anything else is split into words that are
   * capitalised and glued.
   */
  function ToPascalCase(s: string): (r: string)
    ensures AllAlnum(r)
    ensures r == [] <==> Words(s) == []
    ensures r != [] ==> IsUpper(r[0]) || IsDigit(r[0])
  {
    if s == [] then []
    else if HasUpper(s) && AllAlnum(s) then
      WordsOfWord(s);
      [UpperChar(s[0])] + s[1..]
    else
      var ws := Words(s);
      assert ws != [] ==> ws[0] != [];
      CapitalizeWords(ws)
  }

  /** `to_camel_case`: the PascalCase form with its first character lower-cased. */
  function ToCamelCase(s: string): (r: string)
    ensures AllAlnum(r)
    ensures |r| == |ToPascalCase(s)|
    ensures r != [] ==> !IsUpper(r[0])
  {
    var pascal := ToPascalCase(s);
    if pascal == [] then [] else [LowerChar(pascal[0])] + pascal[1..]
  }

  /** The snake_case form: the words of the marked string joined by '_'. */
  function SnakeCase(s: string): (r: string)
    ensures LowerWith(r, '_')
  {
    WordsOfMarkedAreLower(s);
    JoinShape(Words(Marked(s)), '_');
    Join(Words(Marked(s)), "_")
  }

  /** `to_snake_case`: a '_' before every capital once the buffer is non-empty, then the words rejoined. */
  method ToSnakeCase(s: string) returns (r: string)
    ensures r == SnakeCase(s)
  {
    if |s| == 0 {
      return [];
    }
    var result: string := [];
    var i := 0;
    while i < |s|
      invariant 0 <= i <= |s|
      invariant result == Marked(s[..i])
    {
      var ch := s[i];
      MarkedLength(s[..i]);
      assert s[..i + 1][..i] == s[..i];
      if IsUpper(ch) && result != [] {
        result := result + ['_'];
      }
      result := result + [LowerChar(ch)];
      i := i + 1;
    }
    assert s[..i] == s;
    r := Join(Words(result), "_");
  }

  /** `to_kebab_case`: the snake_case form with '_' replaced by '-'. */
  method ToKebabCase(s: string) returns (r: string)
    ensures r == Join(Words(Marked(s)), "-")
    ensures LowerWith(r, '-')
  {
    var snake := ToSnakeCase(s);
    WordsOfMarkedAreLower(s);
    LowerWordsFree(Words(Marked(s)));
    ReplaceInJoin(Words(Marked(s)), '_', '-');
    JoinShape(Words(Marked(s)), '-');
    r := Replace(snake, "_", "-");
  }

  /** `process_smart_names`. */
  function ProcessSmartNames(name: string): (names: SmartNames)
    ensures names.hook == name || StartsWith(names.hook, "use")
    ensures EndsWith(Lower(names.context), Lower("Context"))
    ensures EndsWith(Lower(names.provider), Lower("Provider"))
    ensures EndsWith(Lower(names.page), Lower("Page"))
  {
    var lower := Lower(name);
    var hook :=
      if StartsWith(lower, "use") && |name| > 3 then
        if IsUpper(name[3]) then name else "use" + ToPascalCase(name)
      else "use" + ToPascalCase(name);
    var pascal := ToPascalCase(name);
    SmartNames(hook, EnsureSuffix(pascal, "Context"), EnsureSuffix(pascal, "Provider"), EnsureSuffix(pascal, "Page"))
  }

  /** The placeholders: `$FILE_NAME` in contents and file names, `{name}` in architecture patterns. */
  const FileName := "$FILE_NAME"
  const NamePattern := "{name}"

  /** `apply_smart_replacements`: the bare placeholder becomes the raw name. */
  function ApplySmartReplacements(content: string, name: string, names: SmartNames): (r: string)
    ensures '$' !in content ==> r == content
  {
    assert '$' !in content ==> SmartSubstitute(content, FileName, names, name) == content by {
      if '$' !in content { PatternsAreTokens(); SubstituteNothing(content, FileName, names, name); }
    }
    SmartSubstitute(content, FileName, names, name)
  }

  /** `apply_smart_filename_replacements`: the bare placeholder becomes the PascalCase name. */
  function ApplySmartFilenameReplacements(filename: string, name: string, names: SmartNames): (r: string)
    ensures '$' !in filename ==> r == filename
  {
    assert '$' !in filename ==> SmartSubstitute(filename, FileName, names, ToPascalCase(name)) == filename by {
      if '$' !in filename { PatternsAreTokens(); SubstituteNothing(filename, FileName, names, ToPascalCase(name)); }
    }
    SmartSubstitute(filename, FileName, names, ToPascalCase(name))
  }

  /** `process_filename_pattern`: `{name}` patterns with the smart names of `name`, the rest with `name`. */
  function ProcessFilenamePattern(pattern: string, name: string): (r: string)
    ensures '{' !in pattern ==> r == pattern
  {
    assert '{' !in pattern ==> SmartSubstitute(pattern, NamePattern, ProcessSmartNames(name), name) == pattern by {
      if '{' !in pattern { PatternsAreTokens(); SubstituteNothing(pattern, NamePattern, ProcessSmartNames(name), name); }
    }
    SmartSubstitute(pattern, NamePattern, ProcessSmartNames(name), name)
  }

  // ---------------------------------------------------------------- lemmas: ensure_suffix

  /** Ensuring a suffix twice is ensuring it once. */
  lemma EnsureSuffixIdempotent(text: string, suffix: string)
    ensures EnsureSuffix(EnsureSuffix(text, suffix), suffix) == EnsureSuffix(text, suffix)
  {
  }

  lemma EnsureSuffixExamples(text: string)
    requires text in {"User", "AuthContext", "Authcontext"}
    ensures EnsureSuffix(text, "Context") == if text == "User" then "UserContext" else text
  {
    ContextLowered("Context");
    if text == "User" {
      UserLacksContext(text);
      UserContextGlued();
    } else {
      EndsWithContext(text);
    }
  }

  lemma ContextLowered(suffix: string)
    requires suffix == "Context"
    ensures Lower(suffix) == "context"
  {
  }

  lemma UserLacksContext(text: string)
    requires text == "User"
    ensures !EndsWith(Lower(text), "context")
  {
    assert |text| < |"context"|;
  }

  lemma UserContextGlued()
    ensures "User" + "Context" == "UserContext"
  {
  }

  lemma EndsWithContext(text: string)
    requires text in {"AuthContext", "Authcontext"}
    ensures EndsWith(Lower(text), "context")
  {
    assert Lower(text)[4..] == "context";
  }

  // ---------------------------------------------------------------- lemmas: case conversions

  lemma UpperCharIdempotent(c: char)
    ensures UpperChar(UpperChar(c)) == UpperChar(c)
  {
  }

  /** Converting to PascalCase twice changes nothing, for every input. */
  lemma PascalIdempotent(s: string)
    ensures ToPascalCase(ToPascalCase(s)) == ToPascalCase(s)
  {
    var r := ToPascalCase(s);
    if r != [] {
      if HasUpper(r) {
        UpperCharIdempotent(r[0]);
        assert [UpperChar(r[0])] + r[1..] == r;
      } else {
        // No capital at all: the first character is a digit and the rest is lower-case already.
        assert IsDigit(r[0]);
        WordsOfWord(r);
        assert CapitalizeWords([r]) == Capitalize(r);
        assert Capitalize(r) == r;
      }
    }
  }

  /** camelCase loses nothing PascalCase needs: converting it back gives the PascalCase form. */
  lemma PascalOfCamel(s: string)
    ensures ToPascalCase(ToCamelCase(s)) == ToPascalCase(s)
  {
    var p, c := ToPascalCase(s), ToCamelCase(s);
    if p != [] {
      assert c == [LowerChar(p[0])] + p[1..];
      if HasUpper(c) {
        PascalOfCamelFast(p, c);
      } else {
        PascalOfCamelWord(p, c);
      }
    }
  }

  lemma PascalOfCamelFast(p: string, c: string)
    requires p != [] && AllAlnum(p) && (IsUpper(p[0]) || IsDigit(p[0]))
    requires c == [LowerChar(p[0])] + p[1..] && HasUpper(c)
    ensures ToPascalCase(c) == p
  {
    assert UpperChar(LowerChar(p[0])) == p[0];
    assert [UpperChar(c[0])] + c[1..] == p;
  }

  lemma PascalOfCamelWord(p: string, c: string)
    requires p != [] && AllAlnum(p) && (IsUpper(p[0]) || IsDigit(p[0]))
    requires c == [LowerChar(p[0])] + p[1..] && !HasUpper(c)
    ensures ToPascalCase(c) == p
  {
    assert forall i :: 1 <= i < |p| ==> !IsUpper(p[i]) by {
      forall i | 1 <= i < |p| ensures !IsUpper(p[i]) {
        assert c[i] == p[i];
      }
    }
    WordsOfWord(c);
    assert CapitalizeWords([c]) == Capitalize(c);
    assert Capitalize(c) == p;
  }

  lemma CamelIdempotent(s: string)
    ensures ToCamelCase(ToPascalCase(s)) == ToCamelCase(s)
  {
    PascalIdempotent(s);
  }

  /** snake_case is a fixed point of itself: the words of the output are the words it joined. */
  lemma SnakeIdempotent(s: string)
    ensures SnakeCase(SnakeCase(s)) == SnakeCase(s)
  {
    var ws := Words(Marked(s));
    var r := SnakeCase(s);
    MarkedWithoutCapitals(r);
    WordsOfJoin(ws, '_');
  }

  // ---------------------------------------------------------------- lemmas: smart names

  /**
   * The hook name is the input itself exactly when the input starts with
   * "use" in any case, is longer than three characters and has a capital
   * fourth character; otherwise it is "use" + PascalCase.
   */
  lemma HookName(name: string)
    ensures var kept := StartsWith(Lower(name), "use") && |name| > 3 && IsUpper(name[3]);
      (ProcessSmartNames(name).hook == name <==> kept)
      && (!kept ==> ProcessSmartNames(name).hook == "use" + ToPascalCase(name))
  {
    var kept := StartsWith(Lower(name), "use") && |name| > 3 && IsUpper(name[3]);
    if !kept {
      PrefixedDiffers(name);
    }
  }

  /** Without a kept prefix, "use" + PascalCase cannot give back the name itself. */
  lemma PrefixedDiffers(name: string)
    requires !(StartsWith(Lower(name), "use") && |name| > 3 && IsUpper(name[3]))
    ensures "use" + ToPascalCase(name) != name
  {
    var p := ToPascalCase(name);
    UsePrefixLower(p);
    if StartsWith(Lower(name), "use") {
      FirstOfUse(name);
      PascalFirst(name);
      assert ("use" + p)[3] == p[0];
    }
  }

  /** Whatever follows it, "use" is still there after lower-casing. */
  lemma UsePrefixLower(p: string)
    ensures StartsWith(Lower("use" + p), "use")
  {
    var l := Lower("use" + p);
    assert l[0] == 'u' && l[1] == 's' && l[2] == 'e';
  }

  lemma FirstOfUse(name: string)
    requires StartsWith(Lower(name), "use")
    ensures name != [] && IsAlnum(name[0])
  {
    assert Lower(name)[0] == 'u';
  }

  /** PascalCase starts with the input's first character upper-cased when that is a letter or digit. */
  lemma PascalFirst(s: string)
    requires s != [] && IsAlnum(s[0])
    ensures ToPascalCase(s) != [] && ToPascalCase(s)[0] == UpperChar(s[0])
  {
    FirstWord(s);
  }

  /** Context, provider and page names always end with their suffix, ignoring case. */
  lemma SuffixedNames(name: string)
    ensures EndsWith(Lower(ProcessSmartNames(name).context), "context")
    ensures EndsWith(Lower(ProcessSmartNames(name).provider), "provider")
    ensures EndsWith(Lower(ProcessSmartNames(name).page), "page")
  {
    SuffixesLowered();
  }

  /** The unit test on "user": useUser, UserContext, UserProvider, UserPage. */
  lemma UserNames(name: string)
    requires name == "user"
    ensures ProcessSmartNames(name) == SmartNames("useUser", "UserContext", "UserProvider", "UserPage")
  {
    UserFacts(name);
    PlainNames(name, "User");
    UserAffixed();
  }

  lemma UserFacts(name: string)
    requires name == "user"
    ensures ToPascalCase(name) == "User"
    ensures StartsWith(Lower(name), "use") && |name| > 3 && !IsUpper(name[3])
    ensures !EndsWith(Lower("User"), "context") && !EndsWith(Lower("User"), "provider")
    ensures !EndsWith(Lower("User"), "page")
  {
    assert !HasUpper(name);
    WordsOfWord(name);
    assert CapitalizeWords([name]) == Capitalize(name) == "User";
    assert Lower(name) == name;
    assert Lower("User")[1..] == "ser";
  }

  lemma UserAffixed()
    ensures "use" + "User" == "useUser" && "User" + "Context" == "UserContext"
    ensures "User" + "Provider" == "UserProvider" && "User" + "Page" == "UserPage"
  {
  }

  /** A name whose PascalCase form `p` carries none of the suffixes gets "use" + `p` and `p` + each suffix. */
  lemma PlainNames(name: string, p: string)
    requires ToPascalCase(name) == p && !(StartsWith(Lower(name), "use") && |name| > 3 && IsUpper(name[3]))
    requires !EndsWith(Lower(p), "context") && !EndsWith(Lower(p), "provider") && !EndsWith(Lower(p), "page")
    ensures ProcessSmartNames(name) == SmartNames("use" + p, p + "Context", p + "Provider", p + "Page")
  {
    SuffixesLowered();
    HookName(name);
  }

  lemma SuffixesLowered()
    ensures Lower("Context") == "context" && Lower("Provider") == "provider" && Lower("Page") == "page"
  {
  }

  /** The unit test on "useAuth": the hook name is kept. */
  lemma UseAuthKept(name: string)
    requires name == "useAuth"
    ensures ProcessSmartNames(name).hook == name
  {
    UseAuthFacts(name);
    HookName(name);
  }

  lemma UseAuthFacts(name: string)
    requires name == "useAuth"
    ensures StartsWith(Lower(name), "use") && |name| > 3 && IsUpper(name[3])
  {
    assert Lower(name)[..3] == "use";
  }

  /** The unit test on "AuthContext": the context name is kept. */
  lemma AuthContextKept(name: string)
    requires name == "AuthContext"
    ensures ProcessSmartNames(name).context == name
  {
    AuthContextFacts(name);
    ContextOf(name, name);
  }

  lemma AuthContextFacts(name: string)
    requires name == "AuthContext"
    ensures ToPascalCase(name) == name && EndsWith(Lower(name), Lower("Context"))
  {
    assert IsUpper(name[0]) && AllAlnum(name);
    SuffixesLowered();
    assert Lower(name)[4..] == "context";
  }

  lemma ContextOf(name: string, p: string)
    requires ToPascalCase(name) == p
    ensures ProcessSmartNames(name).context == EnsureSuffix(p, "Context")
  {
  }

  /** The case-conversion unit tests. */
  lemma PascalExamples(s: string)
    requires s in {"user_profile", "my-component"}
    ensures ToPascalCase(s) == if s == "user_profile" then "UserProfile" else "MyComponent"
  {
    if s == "user_profile" {
      PascalOfJoined(s, ["user", "profile"], '_', "UserProfile");
    } else {
      PascalOfJoined(s, ["my", "component"], '-', "MyComponent");
    }
  }

  lemma PascalOfJoined(s: string, ws: seq<string>, sep: char, p: string)
    requires s in {"user_profile", "my-component"}
    requires ws == (if s == "user_profile" then ["user", "profile"] else ["my", "component"])
    requires sep == (if s == "user_profile" then '_' else '-')
    requires p == (if s == "user_profile" then "UserProfile" else "MyComponent")
    ensures ToPascalCase(s) == p
  {
    JoinedWords(s, ws, sep);
    WordsOfJoin(ws, sep);
    assert !AllAlnum(s) by {
      assert !IsAlnum(s[|ws[0]|]);
    }
    CapitalizedWords(ws, p);
  }

  lemma JoinedWords(s: string, ws: seq<string>, sep: char)
    requires s in {"user_profile", "my-component"}
    requires ws == (if s == "user_profile" then ["user", "profile"] else ["my", "component"])
    requires sep == (if s == "user_profile" then '_' else '-')
    ensures AlnumWords(ws) && !IsAlnum(sep) && Join(ws, [sep]) == s && s[|ws[0]|] == sep
  {
    JoinTwo(ws[0], ws[1], [sep]);
    if s == "user_profile" {
      UserProfilePair(s, ws[0], ws[1]);
    } else {
      MyComponentPair(s, ws[0], ws[1]);
    }
  }

  lemma UserProfilePair(s: string, w1: string, w2: string)
    requires s == "user_profile" && w1 == "user" && w2 == "profile"
    ensures AllAlnum(w1) && AllAlnum(w2) && w1 + "_" + w2 == s && s[|w1|] == '_'
  {
  }

  lemma MyComponentPair(s: string, w1: string, w2: string)
    requires s == "my-component" && w1 == "my" && w2 == "component"
    ensures AllAlnum(w1) && AllAlnum(w2) && w1 + "-" + w2 == s && s[|w1|] == '-'
  {
  }

  lemma CapitalizedWords(ws: seq<string>, p: string)
    requires ws in {["user", "profile"], ["my", "component"]}
    requires p == (if ws == ["user", "profile"] then "UserProfile" else "MyComponent")
    ensures CapitalizeWords(ws) == p
  {
    CapitalizeTwo(ws[0], ws[1]);
    if ws == ["user", "profile"] {
      CapitalizedUserProfile();
    } else {
      CapitalizedMyComponent();
    }
  }

  lemma CapitalizedUserProfile()
    ensures Capitalize("user") + Capitalize("profile") == "UserProfile"
  {
    CapitalizedWord("user", "User");
    CapitalizedWord("profile", "Profile");
    GluedWords();
  }

  lemma CapitalizedMyComponent()
    ensures Capitalize("my") + Capitalize("component") == "MyComponent"
  {
    CapitalizedWord("my", "My");
    CapitalizedWord("component", "Component");
    GluedWords();
  }

  lemma CapitalizedWord(w: string, p: string)
    requires (w, p) in {("user", "User"), ("profile", "Profile"), ("my", "My"), ("component", "Component")}
    ensures Capitalize(w) == p
  {
    CapitalizeLowerWord(w, p);
  }

  lemma GluedWords()
    ensures "User" + "Profile" == "UserProfile" && "My" + "Component" == "MyComponent"
  {
  }

  lemma CamelExample(s: string)
    requires s == "UserProfile"
    ensures ToCamelCase(s) == "userProfile"
  {
    assert IsUpper(s[0]);
    assert HasUpper(s) && AllAlnum(s);
    assert ToPascalCase(s) == s;
  }

  lemma SnakeExample(s: string)
    requires s == "UserProfile"
    ensures SnakeCase(s) == "user_profile"
    ensures Join(Words(Marked(s)), "-") == "user-profile"
  {
    UserProfileParts(s);
    MarkedTwoWords('U', "ser", 'P', "rofile");
    JoinedWords("user_profile", ["user", "profile"], '_');
    WordsOfJoin(["user", "profile"], '_');
    JoinedProfile();
  }

  lemma UserProfileParts(s: string)
    requires s == "UserProfile"
    ensures s == ['U'] + "ser" + ['P'] + "rofile"
    ensures [LowerChar('U')] + "ser" + ['_', LowerChar('P')] + "rofile" == "user_profile"
  {
  }

  lemma JoinedProfile()
    ensures Join(["user", "profile"], "_") == "user_profile"
    ensures Join(["user", "profile"], "-") == "user-profile"
  {
  }

  // ---------------------------------------------------------------- lemmas: substitution

  lemma PatternsAreTokens()
    ensures Token(FileName) && Token(NamePattern)
  {
  }

  /** The unit tests of process_filename_pattern: `use{name}.ts` and `{name}Context.tsx`. */
  lemma FilenamePatternExamples(pattern: string, name: string)
    requires (pattern, name) in {("use{name}.ts", "auth"), ("{name}Context.tsx", "user")}
    ensures ProcessFilenamePattern(pattern, name) == if name == "auth" then "useAuth.ts" else "UserContext.tsx"
  {
    if name == "auth" {
      HookPatternExample(pattern, name);
    } else {
      ContextPatternExample(pattern, name);
    }
  }

  lemma HookPatternExample(pattern: string, name: string)
    requires pattern == "use{name}.ts" && name == "auth"
    ensures ProcessFilenamePattern(pattern, name) == "useAuth.ts"
  {
    HookPatternShape(pattern);
    AuthHook(name);
    HookPatternOf(pattern, ".ts", ProcessSmartNames(name), name, "useAuth");
  }

  lemma HookPatternShape(pattern: string)
    requires pattern == "use{name}.ts"
    ensures pattern == [] + "use" + NamePattern + ".ts" && '{' !in ".ts"
    ensures [] + "useAuth" + ".ts" == "useAuth.ts"
  {
  }

  /** A `use{name}` pattern at the start of a file name becomes the hook name. */
  lemma HookPatternOf(pattern: string, b: string, names: SmartNames, bare: string, v: string)
    requires pattern == [] + "use" + NamePattern + b
    requires names.hook == v && '{' !in v && '{' !in b
    ensures SmartSubstitute(pattern, NamePattern, names, bare) == [] + v + b
  {
    PatternsAreTokens();
    SubstituteHook([], b, NamePattern, names, bare);
  }

  lemma ContextPatternExample(pattern: string, name: string)
    requires pattern == "{name}Context.tsx" && name == "user"
    ensures ProcessFilenamePattern(pattern, name) == "UserContext.tsx"
  {
    UserContextName(name);
    TsxPattern(pattern);
    ContextPatternOf(pattern, ".tsx", ProcessSmartNames(name), name, "UserContext");
    TsxName();
  }

  lemma TsxPattern(pattern: string)
    requires pattern == "{name}Context.tsx"
    ensures pattern == NamePattern + "Context" + ".tsx"
  {
  }

  lemma TsxName()
    ensures "UserContext" + ".tsx" == "UserContext.tsx"
  {
  }

  lemma UserContextName(name: string)
    requires name == "user"
    ensures ProcessSmartNames(name).context == "UserContext"
  {
    UserNames(name);
  }

  /** A `{name}Context` pattern at the start of a file name becomes the context name. */
  lemma ContextPatternOf(pattern: string, b: string, names: SmartNames, bare: string, v: string)
    requires pattern == NamePattern + "Context" + b
    requires names.context == v && '{' !in v && '{' !in b
    ensures SmartSubstitute(pattern, NamePattern, names, bare) == v + b
  {
    PatternsAreTokens();
    assert pattern == [] + NamePattern + "Context" + b;
    SubstituteContext([], b, NamePattern, names, bare);
  }

  lemma AuthHook(name: string)
    requires name == "auth"
    ensures ProcessSmartNames(name).hook == "useAuth"
  {
    AuthFacts(name);
    HookOf(name, "Auth");
    UseAuth();
  }

  lemma UseAuth()
    ensures "use" + "Auth" == "useAuth"
  {
  }

  lemma AuthFacts(name: string)
    requires name == "auth"
    ensures ToPascalCase(name) == "Auth" && !StartsWith(Lower(name), "use")
  {
    AuthWord(name);
    WordsOfWord(name);
    CapitalizeTwoFree(name);
    CapitalizeLowerWord(name, "Auth");
  }

  lemma AuthWord(name: string)
    requires name == "auth"
    ensures name != [] && !HasUpper(name) && AllAlnum(name) && !StartsWith(Lower(name), "use")
    ensures (forall i :: 0 <= i < |name| ==> !IsUpper(name[i])) && [UpperChar(name[0])] + name[1..] == "Auth"
  {
    assert Lower(name)[0] == 'a';
  }

  lemma CapitalizeTwoFree(w: string)
    ensures CapitalizeWords([w]) == Capitalize(w)
  {
    assert [w][1..] == [];
  }

  lemma HookOf(name: string, p: string)
    requires ToPascalCase(name) == p && !StartsWith(Lower(name), "use")
    ensures ProcessSmartNames(name).hook == "use" + p
  {
  }
}
