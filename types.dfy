/**
 * The validated template name and the template kind (src/types.rs).  Letters
 * and digits are ASCII, and so is the lower-casing `parse` applies.
 */
module Types {
  import opened Wrappers
  import opened Strings

  // ---------------------------------------------------------------- TemplateName

  /** A character a template name may hold: a letter, a digit, '-' or '_'. */
  predicate NameChar(c: char)
  {
    IsAlnum(c) || c == '-' || c == '_'
  }

  /** A template name: built only through `NewTemplateName`, so its text is non-empty and holds only name characters. */
  datatype TemplateName = TemplateName(text: string)
  {
    /** `as_str` (and `as_ref`). */
    function AsStr(): string
    {
      text
    }

    /** `into_string` (and `String::from`). */
    function IntoString(): string
    {
      text
    }

    /** `Display`: the text itself. */
    function Display(): string
    {
      text
    }
  }

  /** The text of the error `TemplateName::new` gives for a name with a character it does not allow. */
  function InvalidNameMessage(name: string): string
  {
    "Template name '" + name + "' contains invalid characters. "
    + "Only alphanumeric characters, " + "hyphens, and underscores are allowed."
  }

  /** `TemplateName::new`: the empty name and names with other characters are refused; any other name is kept as given. */
  function NewTemplateName(name: string): (r: Result<TemplateName, string>)
    ensures r.Ok? <==> name != [] && forall i :: 0 <= i < |name| ==> NameChar(name[i])
    ensures r.Ok? ==> r.value.AsStr() == name && r.value.IntoString() == name && r.value.Display() == name
  {
    if name == [] then Err("Template name cannot be empty")
    else if exists i :: 0 <= i < |name| && !NameChar(name[i]) then Err(InvalidNameMessage(name))
    else Ok(TemplateName(name))
  }

  /** A name holding a character that is not allowed is refused with the invalid-characters message. */
  lemma InvalidCharacter(name: string, c: char)
    requires c in name && !NameChar(c)
    ensures NewTemplateName(name) == Err(InvalidNameMessage(name))
  {
    var i :| 0 <= i < |name| && name[i] == c;
  }

  /** The empty name is refused with its own message, not the invalid-characters one. */
  lemma EmptyName()
    ensures NewTemplateName("") == Err("Template name cannot be empty")
  {
  }

  /** The names of the unit tests that must be refused: a space, '/', '\\', '.' and '@' are not name characters. */
  lemma RefusedSeparators()
    ensures !NameChar(' ') && !NameChar('/') && !NameChar('\\') && !NameChar('.') && !NameChar('@')
    ensures forall a: string, b: string, c :: c in " /\\.@" ==> NewTemplateName(a + [c] + b).Err?
  {
    forall a: string, b: string, c | c in " /\\.@"
      ensures NewTemplateName(a + [c] + b).Err?
    {
      var n := a + [c] + b;
      assert n[|a|] == c;
    }
  }

  /** A name built from two accepted names joined by '-' or '_' is accepted: the test names "my-template" and "hook_v2" are of this form. */
  lemma JoinedNames(a: string, b: string, sep: char)
    requires NewTemplateName(a).Ok? && NewTemplateName(b).Ok? && (sep == '-' || sep == '_')
    ensures NewTemplateName(a + [sep] + b).Ok?
  {
    var n := a + [sep] + b;
    forall i | 0 <= i < |n|
      ensures NameChar(n[i])
    {
      if i < |a| {
        assert n[i] == a[i];
      } else if i > |a| {
        assert n[i] == b[i - |a| - 1];
      }
    }
  }

  // ---------------------------------------------------------------- TemplateType

  datatype TemplateType = Component | Hook | Service | Context | Page | Feature | Store | Custom(name: string)

  /** `as_string`: the lower-case name of a known kind, or the custom text. */
  function AsString(t: TemplateType): (s: string)
    ensures t.Custom? ==> s == t.name
    ensures Known(t) ==> KnownName(s)
  {
    match t
    case Component => "component"
    case Hook => "hook"
    case Service => "service"
    case Context => "context"
    case Page => "page"
    case Feature => "feature"
    case Store => "store"
    case Custom(s) => s
  }

  /** `Display`: what `as_string` gives. */
  function DisplayType(t: TemplateType): string
  {
    AsString(t)
  }

  /** The seven kinds with a fixed name. */
  predicate Known(t: TemplateType)
  {
    !t.Custom?
  }

  /** The text names one of the seven known kinds. */
  predicate KnownName(s: string)
  {
    s in {"component", "hook", "service", "context", "page", "feature", "store"}
  }

  /** `TemplateType::parse`: the lower-cased text chooses a known kind; anything else is kept, as written, as a custom kind. */
  function Parse(s: string): (r: TemplateType)
    ensures r.Custom? <==> !KnownName(Lower(s))
    ensures r.Custom? ==> r.name == s
    ensures Known(r) ==> AsString(r) == Lower(s)
  {
    var l := Lower(s);
    if l == "component" then Component
    else if l == "hook" then Hook
    else if l == "service" then Service
    else if l == "context" then Context
    else if l == "page" then Page
    else if l == "feature" then Feature
    else if l == "store" then Store
    else Custom(s)
  }

  /** Parsing ignores case: every spelling whose lower case is a known name gives that kind. */
  lemma ParseIgnoresCase(s: string, t: TemplateType)
    requires Known(t) && Lower(s) == AsString(t)
    ensures Parse(s) == t
  {
  }

  /** Any other text gives a custom kind holding the text as written, not lower-cased. */
  lemma ParseCustom(s: string)
    requires !KnownName(Lower(s))
    ensures Parse(s) == Custom(s)
  {
  }

  /** Parsing the printed form of a known kind gives the kind back. */
  lemma KnownRoundTrip(t: TemplateType)
    requires Known(t)
    ensures Parse(AsString(t)) == t
  {
    LowerKnown(AsString(t));
  }

  /** The known names are already lower case. */
  lemma LowerKnown(s: string)
    requires KnownName(s)
    ensures Lower(s) == s
  {
  }

  /** Printing what was parsed gives the text back, except for a spelling of a known name with upper-case letters, which prints in lower case. */
  lemma PrintParsed(s: string)
    ensures AsString(Parse(s)) == if KnownName(Lower(s)) then Lower(s) else s
  {
  }

  /** The round trip of the unit test: the seven lower-case names print as themselves after parsing. */
  lemma ParsedNamesRoundTrip(s: string)
    requires KnownName(s)
    ensures AsString(Parse(s)) == s
  {
    LowerKnown(s);
    PrintParsed(s);
  }

  /** A custom kind whose text is a spelling of a known name is never produced by `parse`: parsing its text gives the known kind. */
  lemma CustomShadowed(s: string)
    requires KnownName(Lower(s))
    ensures Parse(AsString(Custom(s))) != Custom(s)
  {
  }

  /** `Display` prints `as_string`, so the parsed text is printed the same way. */
  lemma DisplayParsed(s: string)
    requires !KnownName(Lower(s))
    ensures DisplayType(Parse(s)) == s
  {
    ParseCustom(s);
  }
}
