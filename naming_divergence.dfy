/**
 * How the three naming implementations relate: where they agree for every
 * input, and concrete inputs on which they give different answers.
 *   T = src/template_engine/naming.rs, L = src/template_engine.rs,
 *   S = src/naming/mod.rs.
 */
module NamingDivergence {
  import opened Strings
  import opened Names
  import T = TemplateNaming
  import L = LegacyNaming
  import S = SmartNaming

  // ---------------------------------------------------------------- agreement

  /** The engine's PascalCase and the naming module's are the same function. */
  lemma PascalAgrees(s: string)
    ensures L.ToPascalCase(s) == T.ToPascalCase(s)
  {
  }

  /** Hence the engine's smart names are the naming module's smart names. */
  lemma SmartNamesAgree(name: string)
    ensures L.ProcessSmartNames(name) == T.ProcessSmartNames(name)
  {
    PascalAgrees(name);
    if |name| >= 7 {
      PascalAgrees(name[..|name| - 7]);
    }
  }

  /** The engine's snake_case and the suffix-based one build the same string. */
  lemma SnakeAgrees(s: string)
    ensures L.ToSnakeCase(s) == S.SnakeCase(s)
  {
  }

  /** Off the fast path the naming module's snake_case is the engine's. */
  lemma SnakeAgreesOffShape(s: string)
    requires !T.IsSnakeCase(s)
    ensures T.ToSnakeCase(s) == L.ToSnakeCase(s)
  {
  }

  // ---------------------------------------------------------------- divergence

  /** "user": both `naming.rs` and the engine keep it as its own hook name; the suffix-based service makes it "useUser". */
  lemma UserHookDiverges(name: string)
    requires name == "user"
    ensures T.ProcessSmartNames(name).hook == "user"
    ensures L.ProcessSmartNames(name).hook == "user"
    ensures S.ProcessSmartNames(name).hook == "useUser"
  {
    UserStartsWithUse(name);
    T.HookName(name);
    SmartNamesAgree(name);
    S.UserNames(name);
  }

  lemma UserStartsWithUse(name: string)
    requires name == "user"
    ensures StartsWith(Lower(name), "use")
  {
    assert Lower(name)[..3] == "use";
  }

  /** "helloWorld": `naming.rs` lower-cases the tail of the one word, the suffix-based service keeps it. */
  lemma PascalDiverges(s: string)
    requires s == "helloWorld"
    ensures T.ToPascalCase(s) == "Helloworld"
    ensures S.ToPascalCase(s) == "HelloWorld"
  {
    HelloWorldWord(s);
    assert !T.IsPascalCase(s);
    WordsOfWord(s);
    assert CapitalizeWords([s]) == Capitalize(s);
    assert S.HasUpper(s);
  }

  lemma HelloWorldWord(s: string)
    requires s == "helloWorld"
    ensures s != [] && AllAlnum(s) && IsLower(s[0]) && IsUpper(s[5])
    ensures Capitalize(s) == "Helloworld"
    ensures [UpperChar(s[0])] + s[1..] == "HelloWorld"
  {
    HelloWorldShape(s);
    HelloWorldCapitalized(s);
    HelloWorldUpper(s);
  }

  lemma HelloWorldShape(s: string)
    requires s == "helloWorld"
    ensures s != [] && AllAlnum(s) && IsLower(s[0]) && IsUpper(s[5])
  {
  }

  lemma HelloWorldCapitalized(s: string)
    requires s == "helloWorld"
    ensures Capitalize(s) == "Helloworld"
  {
    assert Lower(s[1..]) == "elloworld";
  }

  lemma HelloWorldUpper(s: string)
    requires s == "helloWorld"
    ensures [UpperChar(s[0])] + s[1..] == "HelloWorld"
  {
  }

  /** "helloWorld" is camelCase already: `naming.rs` keeps it, the engine lower-cases the tail. */
  lemma CamelDiverges(s: string)
    requires s == "helloWorld"
    ensures T.ToCamelCase(s) == "helloWorld"
    ensures L.ToCamelCase(s) == "helloworld"
  {
    HelloWorldWord(s);
    assert T.IsCamelCase(s);
    PascalDiverges(s);
    PascalAgrees(s);
    LowerFirstOfHelloworld(L.ToPascalCase(s));
  }

  lemma LowerFirstOfHelloworld(p: string)
    requires p == "Helloworld"
    ensures [LowerChar(p[0])] + p[1..] == "helloworld"
  {
  }

  /** "_hello" is snake_case to `naming.rs`, which keeps it; the engine drops the empty word. */
  lemma SnakeDiverges(s: string)
    requires s == "_hello"
    ensures T.ToSnakeCase(s) == "_hello"
    ensures L.ToSnakeCase(s) == "hello"
  {
    LeadingSeparator(s, '_');
  }

  /** "-hello" is kebab-case to `naming.rs`, which keeps it; the engine drops the empty word. */
  lemma KebabDiverges(s: string)
    requires s == "-hello"
    ensures T.ToKebabCase(s) == "-hello"
    ensures L.ToKebabCase(s) == "hello"
  {
    LeadingSeparator(s, '-');
  }

  lemma LeadingSeparator(s: string, sep: char)
    requires sep in "_-" && s == [sep] + "hello"
    ensures T.IsSnakeCase(s) <==> sep == '_'
    ensures T.IsKebabCase(s) <==> sep == '-'
    ensures Words(Marked(s)) == ["hello"]
  {
    SeparatorShape(s, sep);
    LowerHello(s, sep);
    MarkedWithoutCapitals(s);
    WordsAfterSeparator(sep, "hello");
  }

  lemma SeparatorShape(s: string, sep: char)
    requires sep in "_-" && s == [sep] + "hello"
    ensures T.IsSnakeCase(s) <==> sep == '_'
    ensures T.IsKebabCase(s) <==> sep == '-'
  {
    assert IsAlpha(s[1]);
  }

  lemma LowerHello(s: string, sep: char)
    requires sep in "_-" && s == [sep] + "hello"
    ensures forall i :: 0 <= i < |s| ==> !IsUpper(s[i])
    ensures !IsAlnum(sep) && AllAlnum("hello")
  {
  }

  /** A separator followed by one word splits into that word alone. */
  lemma WordsAfterSeparator(sep: char, w: string)
    requires !IsAlnum(sep) && w != [] && AllAlnum(w)
    ensures Words([sep] + w) == [w]
  {
    SplitAfterWord([], sep, w);
    assert [] + [sep] + w == [sep] + w;
    SplitOfWord(w);
    var parts: seq<string> := [[], w];
    assert parts[1..] == [w];
    NonEmptyOfWords([w]);
  }
}
