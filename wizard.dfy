/**
 * The interactive wizard's pure parts (src/wizard.rs): the name check the
 * name prompt applies, the help text shown for each template type, and the
 * conversion of the answers into command-line arguments.  The prompts
 * themselves are terminal input and are not modelled; an answer is an input.
 */
module Wizard {
  import opened Wrappers
  import opened Strings
  import Types
  import Cli

  /** The answers the wizard collects. */
  datatype WizardConfig = WizardConfig(
    name: string,
    templateType: string,
    architecture: Option<string>,
    createFolder: bool,
    outputDir: Option<string>)

  /** The arguments as src/wizard.rs builds them: the fields it sets, without the `describe` field of src/cli.rs. */
  datatype Args = Args(
    name: Option<string>,
    templateType: Option<string>,
    architecture: Option<string>,
    noFolder: bool,
    outputDir: Option<string>,
    config: Option<string>,
    list: bool,
    vars: seq<string>)

  // ---------------------------------------------------------------- From<WizardConfig> for Args

  /** The conversion: the answers carried over, the folder choice negated, and no config file, listing or variables. */
  function ToArgs(c: WizardConfig): (a: Args)
    ensures (a.noFolder <==> !c.createFolder) && !a.list && a.config.None? && a.vars == []
    ensures a.name == Some(c.name) && a.templateType == Some(c.templateType)
    ensures a.architecture == c.architecture && a.outputDir == c.outputDir
  {
    Args(Some(c.name), Some(c.templateType), c.architecture, !c.createFolder, c.outputDir, None, false, [])
  }

  /** No answer is lost: different answers give different arguments. */
  lemma ConversionInjective(c1: WizardConfig, c2: WizardConfig)
    requires ToArgs(c1) == ToArgs(c2)
    ensures c1 == c2
  {
    assert c1.name == ToArgs(c1).name.value;
    assert c1.templateType == ToArgs(c1).templateType.value;
    assert c1.createFolder == !ToArgs(c1).noFolder;
  }

  /** The converted arguments define no template variable. */
  lemma NoVariables(c: WizardConfig)
    ensures Cli.VarsMap(ToArgs(c).vars) == map[]
  {
  }

  // ---------------------------------------------------------------- names

  /** `is_valid_name`: non-empty, and only letters, digits and '_'. */
  predicate IsValidName(name: string)
    ensures IsValidName(name) ==> name != [] && '-' !in name && ' ' !in name
  {
    name != [] && forall i :: 0 <= i < |name| ==> IsAlnum(name[i]) || name[i] == '_'
  }

  /** The number of bytes of a character in UTF-8. */
  function Utf8Width(c: char): (r: nat)
    ensures 1 <= r <= 4
  {
    if c as int < 0x80 then 1 else if c as int < 0x800 then 2 else if c as int < 0x1_0000 then 3 else 4
  }

  /** `str::len`: the length of the text in UTF-8 bytes. */
  function ByteLength(s: string): (r: nat)
    ensures |s| <= r <= 4 * |s|
  {
    if s == [] then 0 else Utf8Width(s[0]) + ByteLength(s[1..])
  }

  /** On ASCII text the byte length is the number of characters. */
  lemma {:induction false} AsciiByteLength(s: string)
    requires forall i :: 0 <= i < |s| ==> s[i] as int < 0x80
    ensures ByteLength(s) == |s|
  {
    if s != [] {
      AsciiByteLength(s[1..]);
    }
  }

  datatype Validation = Valid | Invalid(message: string)

  const EmptyMessage := "Name cannot be empty"
  const ShortMessage := "Name must be at least " + "2 characters long"
  const CharactersMessage := "Name should contain only " + "letters, numbers, and underscores"

  /** The validator of the name prompt: on the trimmed input, emptiness first, then a length under two bytes, then the characters. */
  function ValidateName(input: string): (v: Validation)
    ensures v.Invalid? ==> v.message == EmptyMessage || v.message == ShortMessage || v.message == CharactersMessage
    ensures v == Valid ==> IsValidName(Trim(input))
  {
    var name := Trim(input);
    if name == [] then Invalid(EmptyMessage)
    else if ByteLength(name) < 2 then Invalid(ShortMessage)
    else if !IsValidName(name) then Invalid(CharactersMessage)
    else Valid
  }

  /** An input is accepted exactly when its trimmed text is at least two bytes long and a valid name. */
  lemma ValidIff(input: string)
    ensures ValidateName(input) == Valid <==> ByteLength(Trim(input)) >= 2 && IsValidName(Trim(input))
  {
  }

  /** Whitespace alone is reported as empty, before the length check. */
  lemma BlankInput(input: string)
    requires Trim(input) == []
    ensures ValidateName(input) == Invalid(EmptyMessage)
  {
  }

  /** One ASCII character is reported as too short, whatever it is: the length check comes before the character check. */
  lemma OneAsciiCharacter(input: string, c: char)
    requires Trim(input) == [c] && c as int < 0x80
    ensures ValidateName(input) == Invalid(ShortMessage)
  {
  }

  /** A long enough name with a character other than a letter, digit or '_' is refused for its characters. */
  lemma BadCharacter(input: string, i: nat)
    requires |Trim(input)| >= 2 && i < |Trim(input)|
    requires !IsAlnum(Trim(input)[i]) && Trim(input)[i] != '_'
    ensures ValidateName(input) == Invalid(CharactersMessage)
  {
  }

  /** `prompt_name_with_suggestions`: the answer the validator accepted, trimmed. */
  function PromptedName(input: string): (r: Option<string>)
    ensures r.Some? <==> ValidateName(input) == Valid
    ensures r.Some? ==> r.value == Trim(input) && IsValidName(r.value)
  {
    if ValidateName(input) == Valid then Some(Trim(input)) else None
  }

  /** The name the prompt returns is a valid name of at least two bytes with no whitespace at all. */
  lemma PromptedNameShape(input: string)
    requires PromptedName(input).Some?
    ensures var n := PromptedName(input).value;
      && IsValidName(n) && ByteLength(n) >= 2
      && forall i :: 0 <= i < |n| ==> !IsWhitespace(n[i])
  {
    var n := Trim(input);
    ValidIff(input);
    forall i | 0 <= i < |n|
      ensures !IsWhitespace(n[i])
    {
      NameCharNotSpace(n[i]);
    }
  }

  lemma NameCharNotSpace(c: char)
    requires IsAlnum(c) || c == '_'
    ensures !IsWhitespace(c)
  {
  }

  /** Surrounding whitespace does not change the outcome: the answer and its trimmed text are validated alike. */
  lemma PromptIgnoresSurroundingSpace(input: string)
    requires PromptedName(input).Some?
    ensures PromptedName(PromptedName(input).value) == PromptedName(input)
  {
    var n := Trim(input);
    PromptedNameShape(input);
    TrimPlain(n);
  }

  /** A name the wizard accepts is also accepted as a template name, which allows '-' besides. */
  lemma WizardNamesAreTemplateNames(name: string)
    requires IsValidName(name)
    ensures Types.NewTemplateName(name).Ok?
  {
    assert forall i :: 0 <= i < |name| ==> Types.NameChar(name[i]);
  }

  /** The other way does not hold: a hyphenated template name such as "my-component" is refused by the wizard. */
  lemma HyphenRefused(a: string, b: string)
    ensures !IsValidName(a + "-" + b)
  {
    assert (a + "-" + b)[|a|] == '-';
  }

  /** A space inside is refused too. */
  lemma SpaceRefused(a: string, b: string)
    ensures !IsValidName(a + " " + b)
  {
    assert (a + " " + b)[|a|] == ' ';
  }

  /** The accepted names of the unit test. */
  lemma TestNames()
    ensures IsValidName("MyComponent") && IsValidName("useAuth") && IsValidName("user_profile")
    ensures IsValidName("Component123") && !IsValidName("")
  {
  }

  // ---------------------------------------------------------------- get_naming_help

  const GenericHelp := "Choose a descriptive name " + "for your template"

  /** `get_naming_help`: the hint for each known template type, and a generic hint for any other text; the match is exact, not case-insensitive. */
  function NamingHelp(templateType: string): (help: string)
    ensures help == GenericHelp <==> !Types.KnownName(templateType)
  {
    assert GenericHelp[0] == 'C';
    match templateType
    case "component" => "PascalCase (e.g., " + "UserProfile, Navigation, " + "ButtonGroup)"
    case "hook" => "camelCase starting with 'use' " + "(e.g., useAuth, " + "useLocalStorage)"
    case "service" => "PascalCase ending with 'Service' " + "(e.g., ApiService, " + "UserService)"
    case "context" => "PascalCase ending with 'Context' " + "(e.g., AuthContext, " + "ThemeContext)"
    case "page" => "PascalCase (e.g., " + "HomePage, UserProfile, " + "Dashboard)"
    case "store" => "camelCase or PascalCase " + "(e.g., userStore, " + "AuthStore)"
    case "feature" => "PascalCase for the feature name " + "(e.g., UserManagement, " + "Authentication)"
    case _ => GenericHelp
  }

  /** The hint depends on the exact text: a capitalised type name gets the generic hint. */
  lemma HelpIsCaseSensitive(templateType: string)
    requires templateType != [] && IsUpper(templateType[0])
    ensures NamingHelp(templateType) == GenericHelp
  {
  }
}
