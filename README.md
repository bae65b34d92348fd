# cli-frontend: a verified model of the generator core

`cli-frontend` is a command-line scaffolding generator for React and
TypeScript projects. It is given a name such as `Auth` and a template type
such as `component`, `hook` or `context`. It reads that template's `.conf`
file, merges in the `--var KEY=VALUE` settings from the command line, and
decides which of the template's files to generate. For each one it computes
the output file name and fills the contents with the name in its various
forms: `AuthContext`, `useAuth`, `auth_page`, and so on.

This project models the string-level core of that generator in Dafny and
proves properties about it. Each module follows one source file:

- **Template configuration.**
  - `EngineConfig` holds the configuration records and their defaults.
  - `LegacyParser` is the sectioned `[metadata]`/`[options]`/`[files]` reader of the original engine.
  - `Engine` is the flat `var_` reader of the refactored engine.
  - `IniParser` is the tool's own `key=value` settings file, with its writer and path expansion.
- **Conditional generation.**
  - `Truthiness` is `is_truthy`.
  - `Generator` covers the `[files]` condition language and the merge of command-line variables.
  - `LegacyGenerate` covers the original engine's condition test and its per-file decision.
  - `BooleanFlags` covers the derived `{var}_is_{value}` and `{var}_bool` flags.
  - `Inspector` covers what `--describe` shows: condition hints, the sorted file groups and the usage examples.
- **Template data.**
  - `Renderer` covers `create_template_data` and the output path.
  - `DataBuilder` covers the fluent builder of the same data.
- **Naming.** The repository has three naming implementations. They disagree, so each has its own module:
  - `TemplateNaming` is `src/template_engine/naming.rs`, with its "already in this case" shortcuts.
  - `SmartNaming` is `src/naming/mod.rs`.
  - `LegacyNaming` covers the free functions of `src/template_engine.rs`.

  Supporting modules:
  - `Substitution` is the placeholder replacement chain that all three share.
  - `Names` holds the word-splitting and capitalisation steps.
  - `NamingDivergence` proves where the three agree on every input and exhibits inputs on which they differ.
- **Small validators.**
  - `Types` covers `TemplateName` and `TemplateType`.
  - `Cli` covers `--var` parsing and template and architecture discovery.
  - `Wizard` covers the interactive wizard's name validation, help text and argument conversion.
- **Shared pieces.**
  - `Strings` holds the Rust `str` operations the code uses.
  - `Ordering` holds string order, a stable sort, and `HashMap` iteration orders.
  - `FilterMap` is `filter_map`.
  - `LineFold` is the line loop of both configuration readers.
  - `Paths` holds Unix paths as `Path::components` yields them, and `join`.
  - `Json` and `Wrappers` hold small value types.

Code that updates state step by step is modelled as a method with a loop
and proved against a specification function. This covers the two
configuration readers, the `--var` loop, the boolean-flag loop, the
insertion of variables into the template data, the file-filter grouping,
the usage-example loops, the template directory walk and `SmartNaming`'s
`to_snake_case`. Other steps of the source are methods too, each tied to
a function:
- the merge of command-line variables into the configuration (`Generator.MergeVariables`);
- the legacy `generate` (`LegacyGenerate.Generate`);
- `SmartNaming.ToKebabCase`;
- `create_template_data` (`Renderer.CreateTemplateData`).

The fluent `TemplateDataBuilder` is a class whose `with_*` methods update
its fields in place. Everything else is a function.

Some inputs come from the environment. These are parameters here:
- the clock and the random UUID, as the texts the source formats from them;
- `NODE_ENV`;
- the crate version;
- the home directory;
- directory listings and the template directory walk;
- the iteration order of each `HashMap` whose order matters.

## Model

| member | source | states |
|---|---|---|
| Cli.ParseVars | src/cli.rs:108-123 | the loop's map is the fold of `VarEntry` over the `--var` entries in order |
| Cli.SplitAtFirst | src/cli.rs:111-112 | `key=value` with '=' only after the key is split at that first '=', both halves trimmed |
| Cli.BadEntrySkipped | src/cli.rs:111-118 | an entry without '=' is skipped: the map is as if it were absent |
| Cli.VarsKeys | src/cli.rs:108-123 | a key is in the map exactly when some entry splits to that key |
| Cli.LastWins | src/cli.rs:111-112 | the value stored for a key is the value of the last entry with that key |
| Cli.EntriesListed | src/cli.rs:56-63 | a missing or unreadable directory lists nothing; otherwise exactly the readable entries |
| Cli.ItemsSorted | src/cli.rs:53-70 | the discovered items are sorted and are a permutation of the filtered entries |
| Cli.ItemMember | src/cli.rs:60-65 | a name is discovered exactly when some entry's filter yields it |
| Cli.TemplatesSorted | src/cli.rs:73-88 | the templates are sorted and are the filtered directories plus one "feature" |
| Cli.DiscoverTemplates | src/cli.rs:73-88 | the template list is sorted and always holds "feature" |
| Cli.TemplateMember | src/cli.rs:74-85 | a template is "feature" or a directory whose name starts with no '.' and is not "architectures" |
| Cli.NoTemplatesDirectory | src/cli.rs:56-87 | without a templates directory the list is just `["feature"]` |
| Cli.FeatureDirectoryTwice | src/cli.rs:74-87 | a "feature" directory makes "feature" appear twice (no deduplication) |
| Cli.FeatureDirectoryKept | src/cli.rs:75-78 | a directory named "feature" passes the template filter |
| Cli.ArchitecturesSorted | src/cli.rs:91-104 | the architectures are sorted and are a permutation of the filtered entries |
| Cli.DiscoverArchitectures | src/cli.rs:91-104 | the architecture list is sorted |
| Cli.ArchitectureMember | src/cli.rs:92-100 | a name is listed exactly when `<name>.json` is a file, starts with no '.', and the name is not "default" |
| Cli.NoDefaultArchitecture | src/cli.rs:97 | "default" is never listed |
| Cli.NoArchitecturesDirectory | src/cli.rs:56-58 | without an architectures directory the list is empty |
| Types.NewTemplateName | src/types.rs:54-73 | accepted exactly when non-empty and every character is alphanumeric, '-' or '_'; an accepted name reads back unchanged through `as_str`, `into_string` and `Display` |
| Types.InvalidCharacter | src/types.rs:62-70 | a name holding a refused character gets the invalid-characters message naming it |
| Types.EmptyName | src/types.rs:57-59 | the empty name gets "Template name cannot be empty" |
| Types.RefusedSeparators | src/types.rs:191-199 | space, '/', '\', '.' and '@' are refused wherever they occur |
| Types.JoinedNames | src/types.rs:182-189 | two valid names joined by '-' or '_' form a valid name |
| Types.AsString | src/types.rs:157-168 | each built-in kind prints as one of the seven known lower-case names |
| Types.ParseIgnoresCase | src/types.rs:142-153 | any spelling whose lower case is a built-in name parses to that kind |
| Types.ParseCustom | src/types.rs:150 | any other text parses to `Custom` holding the text as given |
| Types.Parse | src/types.rs:142-153 | a type is `Custom` exactly when its lower case is no built-in name, and then holds the text as given; a built-in type prints as the lower-cased input |
| Types.KnownRoundTrip | src/types.rs:276-290 | each built-in kind parses back from its printed name |
| Types.LowerKnown | src/types.rs:142-153 | the known names are already lower case |
| Types.PrintParsed | src/types.rs:142-168 | printing a parsed text gives its lower case when it names a built-in kind, else the text itself |
| Types.ParsedNamesRoundTrip | src/types.rs:276-290 | printing what a known name parses to gives the name back |
| Types.CustomShadowed | src/types.rs:142-168 | a `Custom` value spelling a built-in name does not survive print-then-parse |
| Types.DisplayParsed | src/types.rs:171-175 | `Display` of a parsed custom text is the text itself |
| Wizard.ToArgs | src/wizard.rs:51-64 | the converted arguments carry the name, type, architecture and output directory, `no_folder` is the negated folder choice, and there is no config file, no list flag and no variables |
| Wizard.ConversionInjective | src/wizard.rs:51-64 | the conversion loses nothing: different wizard results give different arguments |
| Wizard.NoVariables | src/wizard.rs:62 | the wizard's arguments yield an empty variable map |
| Wizard.Utf8Width | src/wizard.rs:167 | one character takes 1 to 4 bytes in UTF-8 (`str::len` counts bytes) |
| Wizard.ByteLength | src/wizard.rs:167 | a string's byte length lies between its character count and four times that |
| Wizard.AsciiByteLength | src/wizard.rs:167 | for ASCII text the byte length is the character count |
| Wizard.ValidIff | src/wizard.rs:165-179 | the validator accepts exactly when the trimmed input has at least 2 bytes and is a valid name |
| Wizard.IsValidName | src/wizard.rs:232-234 | a valid name is non-empty and holds neither '-' nor a space |
| Wizard.ValidateName | src/wizard.rs:165-179 | a refusal carries one of the three messages of the validator; an accepted input trims to a valid name |
| Wizard.BlankInput | src/wizard.rs:165-166 | blank input gets "Name cannot be empty" |
| Wizard.OneAsciiCharacter | src/wizard.rs:167-170 | a single ASCII character gets "Name must be at least 2 characters long" |
| Wizard.BadCharacter | src/wizard.rs:171-174 | a long enough name holding a character other than a letter, digit or '_' gets the characters message |
| Wizard.PromptedNameShape | src/wizard.rs:159-184 | an accepted answer, returned trimmed, is a valid name of at least 2 bytes with no whitespace |
| Wizard.PromptedName | src/wizard.rs:159-184 | a name is returned exactly when the validator accepts the input, and it is the trimmed input, a valid name |
| Wizard.NameCharNotSpace | src/wizard.rs:232-234 | letters, digits and '_' are not whitespace |
| Wizard.PromptIgnoresSurroundingSpace | src/wizard.rs:183 | giving the returned name as the answer again returns the same name |
| Wizard.WizardNamesAreTemplateNames | src/wizard.rs:232-234 | every name the wizard accepts is also accepted by `TemplateName::new` in src/types.rs |
| Wizard.HyphenRefused | src/wizard.rs:269 | a name containing '-' is refused, unlike `TemplateName::new` |
| Wizard.SpaceRefused | src/wizard.rs:270 | a name containing a space is refused |
| Wizard.TestNames | src/wizard.rs:264-268 | the names the unit test accepts are valid and the empty name is refused; the refused hyphen and space names are `Wizard.HyphenRefused` and `Wizard.SpaceRefused` |
| Wizard.NamingHelp | src/wizard.rs:217-229 | the generic help text is given exactly for types other than the seven known ones |
| Wizard.HelpIsCaseSensitive | src/wizard.rs:218-227 | the help lookup is case-sensitive: a capitalised type gets the generic text |
| EngineConfig.DefaultMetadata | src/template_engine.rs:52-59 | empty name and description |
| EngineConfig.DefaultOption | src/template_engine/config.rs:114-120 | empty type, no possible values, empty description |
| EngineConfig.DefaultConfig | src/template_engine.rs:61-73 | empty maps, timestamps and UUIDs on, default metadata, and the environment from NODE_ENV or else "development" |
| EngineConfig.DefaultEnvironmentNonEmpty | src/template_engine/config.rs:124-137 | the default environment is non-empty unless NODE_ENV is set to the empty string |
| DataBuilder.TemplateDataBuilder.constructor | src/template_engine/data_builder.rs:27-34 | no name, no environment, timestamps and UUIDs on, no custom variables |
| DataBuilder.TemplateDataBuilder.WithName | src/template_engine/data_builder.rs:37-42 | sets the name and its smart names; every other field is unchanged |
| DataBuilder.TemplateDataBuilder.WithEnvironment | src/template_engine/data_builder.rs:45-48 | sets the environment; every other field is unchanged |
| DataBuilder.TemplateDataBuilder.WithTimestamps | src/template_engine/data_builder.rs:51-54 | sets the timestamps flag; every other field is unchanged |
| DataBuilder.TemplateDataBuilder.WithUuid | src/template_engine/data_builder.rs:57-60 | sets the UUID flag; every other field is unchanged |
| DataBuilder.TemplateDataBuilder.WithVariables | src/template_engine/data_builder.rs:63-66 | the custom variables are extended, the new ones overriding; every other field is unchanged |
| DataBuilder.TemplateDataBuilder.Build | src/template_engine/data_builder.rs:69-114 | returns the builder's data for the given clock reading and version |
| DataBuilder.BuildFails | src/template_engine/data_builder.rs:177-182 | without a name the build fails with `MissingName`; a builder made by its methods fails exactly then |
| DataBuilder.CustomVariablesLast | src/template_engine/data_builder.rs:104-109 | a custom variable overrides the built-in key of the same name; every other built-in key is kept |
| DataBuilder.EnvironmentDefault | src/template_engine/data_builder.rs:144-153 | "environment" is the one set, else "development" |
| DataBuilder.StampsDisabled | src/template_engine/data_builder.rs:168-190 | with timestamps (UUIDs) off, every timestamp (UUID) key holds "" |
| DataBuilder.NameKeys | src/template_engine/data_builder.rs:131-142 | the name-form keys hold the Pascal and snake forms and the hook and context names of the name |
| Generator.EvaluateFileCondition | src/template_engine/generator.rs:82-117 | "always" and "default" hold; any other condition that holds starts with `var_` |
| Generator.AlwaysCondition | src/template_engine/generator.rs:87 | "always" and "default", whitespace around them allowed, always generate |
| Generator.BooleanCondition | src/template_engine/generator.rs:88-94 | `var_X` with X a variable generates exactly when X's value is truthy |
| Generator.ValueCondition | src/template_engine/generator.rs:96-104 | `var_N_V` (N without '_', `N_V` not itself a variable) generates exactly when N holds V or V with '_' replaced by '-' |
| Generator.UnsplitCondition | src/template_engine/generator.rs:88-107 | `var_X` with X neither a variable nor holding '_' does not generate |
| Generator.UnknownCondition | src/template_engine/generator.rs:109-115 | any other condition does not generate |
| Generator.MergeVariables | src/template_engine/generator.rs:45-51 | every CLI variable overrides; other variables and every other field are kept |
| Truthiness.LowerIsLiteral | src/template_engine/generator.rs:68-70 | comparing the lower case of a value with a lower-case literal is comparing ignoring case |
| Truthiness.IsTruthy | src/template_engine/generator.rs:68-70 | truthy exactly for "true" or "yes" in any case, or "1" |
| Truthiness.TruthyIgnoresCase | src/template_engine/renderer.rs:56-58 | values with the same lower case are equally truthy |
| Truthiness.TruthyExamples | src/template_engine/generator.rs:125-135 | the truthy and falsy values of the unit test |
| IniParser.ParseIni | src/config/parser.rs:17-41 | the loop's pairs are those the line rule gives for each line of the text, in order |
| IniParser.PairsAppend | src/config/parser.rs:20-39 | the pairs of two blocks of lines are the pairs of the first, then of the second |
| IniParser.Pairs | src/config/parser.rs:17-41 | at most one pair per line, and every pair comes from some line |
| IniParser.DuplicatesKept | src/config/parser.rs:37 | a repeated key is kept twice: the parser does not deduplicate |
| IniParser.IgnoredLine | src/config/parser.rs:24-29 | comment lines, blank lines and lines without '=' give no pair |
| IniParser.KeyValueLine | src/config/parser.rs:29-37 | a `key=value` line is split at its first '=': the key trimmed, the value trimmed and unquoted |
| IniParser.CommentLine | src/config/parser.rs:24-26 | a line starting with '#' gives no pair |
| IniParser.SettingLine | src/config/parser.rs:44-91 | a `key=value` line as `to_ini` writes it is read back as `(key, value)` |
| IniParser.RoundTrip | src/config/parser.rs:17-91 | parsing what `to_ini` writes gives back the seven settings, in order, for any values `to_ini` can write faithfully |
| IniParser.ToIni | src/config/parser.rs:44-92 | when every text value is one line with no whitespace or quote at either end, the text written reads back as the seven settings in order |
| IniParser.ReadBack | src/config/parser.rs:20 | written out one per line and read back, blocks of lines give their pairs in turn |
| IniParser.LinesOfUnlines | src/config/parser.rs:20 | `lines()` of lines joined with '\n' gives those lines back when none holds '\n' or ends in '\r' |
| IniParser.CommentsGiveNoPairs | src/config/parser.rs:24-26 | comment and blank lines give no pairs |
| IniParser.HeaderFooterLines | src/config/parser.rs:65-84 | the header and footer comment lines of `to_ini` give no pairs |
| IniParser.GeneralPairs | src/config/parser.rs:68-71 | the general block gives `default_type`, `create_folder` and `enable_hooks` |
| IniParser.PathPairs | src/config/parser.rs:73-76 | the paths block gives `templates_dir`, `output_dir` and `architectures_dir` |
| IniParser.FeaturePairs | src/config/parser.rs:78-79 | the feature block gives `default_architecture` |
| IniParser.BoolValues | src/config/parser.rs:86-87 | "true" and "false" are written and read back unchanged |
| IniParser.ExpandPlain | src/config/parser.rs:6-10 | a value not starting with '~' is kept as given |
| IniParser.ExpandPath | src/config/parser.rs:5-12 | the expansion fails, with "Could not find home directory", exactly for a value starting with '~' when there is no home directory; any other value is kept as given |
| IniParser.ExpandTilde | src/config/parser.rs:6-8 | `~/x` fails exactly when there is no home directory; otherwise it becomes the home directory joined with x |
| IniParser.ExpandedShape | src/config/parser.rs:135-143 | an expanded `~/` path ends with the rest of the value and does not start with '~' |
| IniParser.TildeWithoutSlash | src/config/parser.rs:8 | `~name` without a slash is joined to the home directory whole, tilde included |
| Engine.ParseTemplateConfig | src/template_engine/engine.rs:176-208 | the loop's configuration is the fold of the flat line rule over the lines of the text, starting from the default |
| Engine.IgnoredLine | src/template_engine/engine.rs:182-188 | comment lines, blank lines and lines without '=' change nothing |
| Engine.KeyValueLine | src/template_engine/engine.rs:188-203 | a `key=value` line is split at its first '=', the key trimmed and the value trimmed and unquoted, and routed by the flat keys |
| Engine.VariableLastWins | src/template_engine/engine.rs:197-201 | of two `var_X` lines the later value wins |
| Engine.DetermineOutputPath | src/template_engine/engine.rs:211-217 | without a folder the output path is the output directory; with one it is the directory joined with the name: a normal name is one level deeper, an absolute name replaces the directory, and any other name keeps the directory as its prefix |
| Engine.OutputDirNested | src/template_engine/engine.rs:213-214 | a name `a/b` is joined as two levels below the output directory |
| Engine.OutputDirCurrent | src/template_engine/engine.rs:213-214 | the name `.` leaves the output directory as it is |
| Engine.PlainUnquote | src/template_engine/engine.rs:190 | a value with nothing to trim and no quote at either end is kept as written |
| Engine.Unquote | src/template_engine/engine.rs:190 | the unquoted value is no longer than the raw one and neither starts nor ends with '\'' |
| Engine.PlainLine | src/template_engine/engine.rs:188-203 | a plain `key=value` line applies the flat key rule to exactly that key and value |
| Engine.VariableLine | src/template_engine/engine.rs:197-200 | a plain `var_X=v` line sets variable X to v |
| Engine.SampleConfig | src/template_engine/engine.rs:579-595 | eight lines shaped as the unit test writes them (a blank first and last line, then a comment and five settings, each read after trimming its indentation) give the environment written, each flag off exactly when written "false", and exactly the two variables written |
| Engine.SampleTest | src/template_engine/engine.rs:579-594 | the unit test's text, whatever its indentation and blank last line, gives environment "production", timestamps off, UUIDs on, and the variables author "John Doe" and license "MIT" |
| Engine.RunTrimmed | src/template_engine/engine.rs:179-180 | every line is read only through its trimmed text, so trimming the lines first changes nothing |
| Engine.BlankEnds | src/template_engine/engine.rs:179-185 | a blank first and last line leave the configuration unchanged |
| Engine.EnvironmentLine | src/template_engine/engine.rs:193 | an `environment=v` line sets the environment to v |
| Engine.TimestampsLine | src/template_engine/engine.rs:194 | an `enable_timestamps=v` line sets the flag to "parse v as bool, else true" |
| Engine.UuidLine | src/template_engine/engine.rs:195 | an `enable_uuid=v` line sets the flag likewise |
| Engine.AuthorLine | src/template_engine/engine.rs:197-200 | `var_author=v` sets variable "author" |
| Engine.LicenseLine | src/template_engine/engine.rs:197-200 | `var_license=v` sets variable "license" |
| Engine.CommentIgnored | src/template_engine/engine.rs:182-185 | a `#` line changes nothing |
| LegacyParser.CleanValue | src/template_engine.rs:129-135 | the cleaned value holds no '#' |
| LegacyParser.TrimEach | src/template_engine.rs:151-154 | the list of trimmed items, one per item |
| LegacyParser.PossibleValues | src/template_engine.rs:151-155 | every listed value is non-empty and holds no ',' |
| LegacyParser.ParseFlag | src/template_engine.rs:229-232 | the flag is off exactly for "false" (`parse().unwrap_or(true)`) |
| LegacyParser.HeaderLength | src/template_engine.rs:121 | a `[..]` line has at least two characters |
| LegacyParser.ParseTemplateConfig | src/template_engine.rs:107-236 | the loop's configuration is the fold of the per-line step over the lines, from the default and no section |
| LegacyParser.Parse | src/template_engine.rs:107-236 | a text whose every line is blank, a comment or a line without '=' gives the default configuration |
| LegacyParser.ReadLine | src/template_engine.rs:113-233 | one pass of the loop body is one step: skip, switch section, or route a `key=value` line |
| LegacyParser.Step | src/template_engine.rs:113-233 | a skipped line changes nothing; only a `[..]` header changes the section, and a header leaves the configuration alone |
| LegacyParser.AssignLine | src/template_engine.rs:137-231 | the routing of a `key=value` line by the current section |
| LegacyParser.Assign | src/template_engine.rs:137-231 | each section writes only its own part: `[metadata]` only the metadata, `[options]` only options and variables, `[files]` only the file filters |
| LegacyParser.AssignOption | src/template_engine.rs:146-201 | an `[options]` line changes either the variables or the option records, never the filters, metadata, environment or flags |
| LegacyParser.AssignRoot | src/template_engine.rs:209-227 | a line outside the named sections leaves the option records, filters and metadata alone |
| LegacyParser.IgnoredLine | src/template_engine.rs:116-127 | blank, `#` and non-header lines without '=' change nothing |
| LegacyParser.InsertIgnoredLine | src/template_engine.rs:116-118 | such a line inserted anywhere leaves the parsed configuration unchanged |
| LegacyParser.SectionSwitch | src/template_engine.rs:121-124 | a `[x]` line makes x the current section and leaves the configuration alone |
| LegacyParser.KeyValueLine | src/template_engine.rs:127-135 | a `key=value` line routes the trimmed key and cleaned value by the current section |
| LegacyParser.InlineComment | src/template_engine.rs:129-134 | anything after a '#' in the value is dropped |
| LegacyParser.PlainValue | src/template_engine.rs:135 | a value with nothing to strip is kept as written |
| LegacyParser.QuotedValue | src/template_engine.rs:135 | a value in double quotes loses them |
| LegacyParser.PossibleValuesOfList | src/template_engine.rs:151-155 | writing trimmed, comma-free, non-empty items as a comma list and reading it back gives the items |
| LegacyParser.EmptyList | src/template_engine.rs:151-155 | the empty value gives no possible values |
| LegacyParser.OptionSuffixesExclusive | src/template_engine.rs:146-183 | no key ends with two of `_options`, `_type`, `_description` |
| LegacyParser.OptionsListRouting | src/template_engine.rs:146-168 | `N_options` sets N's possible values, creating the entry if needed, and keeps its type, its description and everything else |
| LegacyParser.OptionsTypeRouting | src/template_engine.rs:169-182 | `N_type` sets N's type and keeps its possible values and the variables |
| LegacyParser.OptionsDescriptionRouting | src/template_engine.rs:183-196 | `N_description` sets N's description and keeps its type and the variables |
| LegacyParser.OptionsDefaultRouting | src/template_engine.rs:197-201 | any other `[options]` key sets a default variable and leaves the option metadata alone |
| LegacyParser.FilesLastWins | src/template_engine.rs:203-208 | in `[files]` the later value for a file wins |
| LegacyParser.RootRouting | src/template_engine.rs:209-227 | outside the named sections `var_X` sets variable X, the flags are off exactly for "false", and other keys are ignored |
| LegacyGenerate.EvaluateFileCondition | src/template_engine.rs:248-287 | the engine's condition test decides every condition and variable map exactly as src/template_engine/generator.rs:82-117 does |
| LegacyGenerate.ProcessTemplateDirectory | src/template_engine.rs:659-726 | the queued files are exactly the walked files, in walk order, that pass the generation decision |
| LegacyGenerate.Generate | src/template_engine.rs:596-658 | the CLI variables override the template's defaults, and the rendered files are those selected under the merged variables |
| LegacyGenerate.SelectedMembers | src/template_engine.rs:669-705 | a file is rendered exactly when it was walked and passes the decision |
| LegacyGenerate.ConfNeverGenerated | src/template_engine.rs:673-676 | a `.conf` file is never rendered |
| LegacyGenerate.ShouldGenerate | src/template_engine.rs:673-701 | a walked file is generated exactly when it is not `.conf` and, when `[files]` names it, its condition holds |
| LegacyGenerate.UnfilteredGenerated | src/template_engine.rs:690-701 | without filters, or without a filter for the file, the file is rendered |
| LegacyGenerate.ListedFollowsCondition | src/template_engine.rs:690-695 | a file with a filter is rendered exactly when its condition holds on the merged variables |
| LegacyGenerate.CliOverridesDefault | src/template_engine.rs:616-619 | a `var_X` condition follows the CLI value of X whatever the template's default |
| BooleanFlags.EnumWrites | src/template_engine/renderer.rs:82-91 | one insertion per possible value, in order, each `{var}_is_{value}` set to whether the current value equals it |
| BooleanFlags.OptionWrites | src/template_engine/renderer.rs:79-99 | every insertion for one option is a boolean |
| BooleanFlags.HelperWrites | src/template_engine/renderer.rs:73-101 | every insertion is a boolean; no options or no variables give no insertions |
| BooleanFlags.ApplyWrites | src/template_engine/renderer.rs:89-97 | inserting keeps every key already present and adds every inserted key |
| BooleanFlags.GenerateBooleanHelpers | src/template_engine/renderer.rs:73-101 | the loop, which src/template_engine.rs:303-337 repeats, leaves the given map after every helper insertion, option by option in the given iteration order |
| BooleanFlags.ApplyAppend | src/template_engine/renderer.rs:89-97 | applying two runs of insertions is applying the first, then the second |
| BooleanFlags.OptionApplied | src/template_engine/renderer.rs:79-99 | one option inserts its enum flags, when it has possible values and a value, then its `_bool` flag when it is boolean and has a value |
| BooleanFlags.ApplyUntouched | src/template_engine/renderer.rs:89-97 | a key no insertion names keeps its old presence and value |
| BooleanFlags.ApplyAgreed | src/template_engine/renderer.rs:89-97 | a key whose every insertion gives the same value ends with that value |
| BooleanFlags.WritesAreFlags | src/template_engine/renderer.rs:78-100 | every insertion is an enum or boolean flag of a declared option that has a value |
| BooleanFlags.FlagsAreWritten | src/template_engine/renderer.rs:78-100 | every enum flag and every boolean flag of an option with a value is inserted |
| BooleanFlags.BoolFlagNameInjective | src/template_engine/renderer.rs:96 | different variables get different `_bool` names |
| BooleanFlags.EnumFlagValue | src/template_engine/renderer.rs:82-90 | with distinct flag names, `{var}_is_{value}` ends as whether the variable equals that value |
| BooleanFlags.BoolFlagValue | src/template_engine/renderer.rs:94-99 | with distinct flag names, `{var}_bool` ends as the truthiness of the variable |
| BooleanFlags.AtMostOneEnumFlag | src/template_engine/renderer.rs:86-89 | with distinct flag names, at most one enum flag of a variable is true |
| BooleanFlags.DataUntouched | src/template_engine/renderer.rs:73-101 | keys that are not flags keep their presence and value |
| BooleanFlags.OrderIrrelevant | src/template_engine/renderer.rs:78 | with distinct flag names, the `HashMap` iteration order does not change the result |
| BooleanFlags.HyphenSanitised | src/template_engine/renderer.rs:85 | a hyphen in the value becomes '_' in the flag name |
| Renderer.StrValues | src/template_engine/renderer.rs:159-161 | the variables as JSON strings, same keys, same values |
| Renderer.CreateTemplateData | src/template_engine/renderer.rs:135-172 | the data is the built-in keys, overridden by the variables, then the boolean helpers, for the given clock reading, version and iteration order |
| Renderer.BuiltIns | src/template_engine/renderer.rs:140-158 | the timestamp and UUID keys are always present, enabled or not |
| Renderer.TemplateData | src/template_engine/renderer.rs:135-172 | the data holds every built-in key and every variable's key |
| Renderer.InsertVariables | src/template_engine/renderer.rs:159-161 | the loop's object is the base with every variable inserted as a string |
| Renderer.CustomOverrides | src/template_engine/renderer.rs:159-161 | a variable that is not a flag ends with its own value |
| Renderer.BuiltInKept | src/template_engine/renderer.rs:140-167 | a built-in key no variable or flag names keeps the built-in value |
| Renderer.FlagsWin | src/template_engine/renderer.rs:162 | an enum flag overrides a variable of the same name |
| Renderer.TimestampsDisabled | src/template_engine/renderer.rs:152-156 | with timestamps off every timestamp key holds "" |
| Renderer.UuidDisabled | src/template_engine/renderer.rs:157-158 | with UUIDs off both UUID keys hold "" |
| Renderer.NameFormKeys | src/template_engine/renderer.rs:142-150 | the name-form keys hold the Pascal and snake forms and the hook and context names |
| Renderer.StampsIrrelevantWhenDisabled | src/template_engine/renderer.rs:152-158 | with both off the clock reading does not matter |
| Renderer.OutputPathShape | src/template_engine/renderer.rs:211-226 | the path fails with "Invalid output filename" exactly when its last component is not a normal name (empty, root, `.`, `..`); otherwise the parent is kept and the smart-replaced file name is joined to it, an absolute replacement replacing the whole path |
| Renderer.DetermineOutputPath | src/template_engine/renderer.rs:211-226 | the path is computed exactly when the base ends in a normal file name |
| Renderer.OutputPathNested | src/template_engine/renderer.rs:222-225 | a file name that the replacement turns into `a/b` is joined as two components under the parent |
| Renderer.NoFileName | src/template_engine/renderer.rs:216-220 | `.`, `/` and the bare root or current directory have no file name and fail |
| Renderer.OutputPathExample | src/template_engine/renderer.rs:368-376 | `output/use$FILE_NAME.ts` with `MyHook` becomes `output/useMyHook.ts` |
| Inspector.NoPrefixShown | src/template_engine/inspector.rs:226-229 | a condition without `var_` is shown in parentheses, so `always` shows as `(always)` |
| Inspector.FormatCondition | src/template_engine/inspector.rs:226-254 | a `var_` condition is always shown as a setting hint |
| Inspector.KnownSuffix | src/template_engine/inspector.rs:231-244 | the first of the known suffixes the rest ends with gives the name before it and its fixed value; none when no suffix matches |
| Inspector.KnownSuffixAt | src/template_engine/inspector.rs:239-243 | when suffix i is the first that matches, the lookup returns it |
| Inspector.KnownSuffixShown | src/template_engine/inspector.rs:239-243 | `var_` + name + a known suffix shows as `(--var name=value)` with that suffix's value |
| Inspector.NoUnderscoreNoSuffix | src/template_engine/inspector.rs:233-237 | every known suffix starts with '_', so a rest without '_' matches none |
| Inspector.SingleWordShown | src/template_engine/inspector.rs:246-248 | `var_X` with no '_' in X shows as `(--var X=true)` |
| Inspector.LastUnderscoreShown | src/template_engine/inspector.rs:249-253 | with no known suffix the name is everything before the last '_' and the value what follows |
| Inspector.ValueHintEnablesFile | src/template_engine/inspector.rs:249-253 | the hint shown for a `var_name_value` condition is a setting that enables the file |
| Inspector.ValueSettingHolds | src/template_engine/generator.rs:96-104 | setting `name=value` satisfies the condition `var_name_value` |
| Inspector.FlagHintEnablesFile | src/template_engine/inspector.rs:246-248 | the hint shown for `var_X` is a setting that enables the file |
| Inspector.FlagSettingHolds | src/template_engine/generator.rs:88-94 | setting `X=true` satisfies the condition `var_X` |
| Inspector.GroupFileFilters | src/template_engine/inspector.rs:83-117 | the grouping loop and the sorts produce the sorted groups of the filters in the given order |
| Inspector.FileFilterGroups | src/template_engine/inspector.rs:83-117 | the three groups together hold one entry per filter, and each group is sorted |
| Inspector.CollectedAppend | src/template_engine/inspector.rs:92-99 | grouping a concatenated order is merging the two groupings |
| Inspector.Collected | src/template_engine/inspector.rs:92-99 | every filter lands in exactly one group |
| Inspector.AlwaysMembers | src/template_engine/inspector.rs:94-95 | a name is in the always group exactly when some `always` filter displays as it |
| Inspector.DefaultMembers | src/template_engine/inspector.rs:96 | a name is in the default group exactly when some `default` filter displays as it |
| Inspector.ConditionalMembers | src/template_engine/inspector.rs:97 | a pair is in the conditional group exactly when its condition is neither `always` nor `default` and some filter displays as it with that condition |
| Inspector.GroupsSorted | src/template_engine/inspector.rs:101-116 | each group is sorted and a permutation of what was collected |
| Inspector.CollectedPerm | src/template_engine/inspector.rs:92 | two iteration orders of the same filters collect the same groups up to permutation |
| Inspector.GroupsIndependentOfOrder | src/template_engine/inspector.rs:92-117 | the shown always and default groups do not depend on the `HashMap` order; the conditional group only up to permutation, because the sort compares names alone |
| Inspector.BoolExampleValue | src/template_engine/inspector.rs:152-156 | a boolean example flips the default: `false` exactly when the current value is `true` |
| Inspector.FirstDifferent | src/template_engine/inspector.rs:176-181 | the index of the first possible value that differs from the current one, or none when all equal it |
| Inspector.EnumExampleChoice | src/template_engine/inspector.rs:176-181 | the enum example is a possible value; it differs from the current value whenever one can, being the first such; otherwise it is the first value |
| Inspector.EnumExampleValue | src/template_engine/inspector.rs:176-181 | the enum example value is one of the possible values |
| Inspector.UsageExamples | src/template_engine/inspector.rs:131-223 | the examples shown and the full-featured line equal their specification functions |
| Inspector.BooleanExampleLoop | src/template_engine/inspector.rs:146-167 | the boolean loop stops at three and yields the first three boolean examples |
| Inspector.EnumExampleLoop | src/template_engine/inspector.rs:170-193 | the enum loop continues the count and yields the first three of the boolean then enum examples |
| Inspector.FullFeaturedExample | src/template_engine/inspector.rs:196-219 | the full-featured line is shown exactly with two or more options and uses the first three options |
| Inspector.BoolExamplesAppend | src/template_engine/inspector.rs:147-167 | boolean examples of a concatenated order are the two lists concatenated |
| Inspector.EnumExamplesAppend | src/template_engine/inspector.rs:170-193 | enum examples of a concatenated order are the two lists concatenated |
| Inspector.BoolExamplesAre | src/template_engine/inspector.rs:151-165 | every boolean example sets a declared option to one of its values |
| Inspector.BoolExamples | src/template_engine/inspector.rs:147-168 | at most one boolean example per option, each with the value "true" or "false" |
| Inspector.EnumExamplesAre | src/template_engine/inspector.rs:174-191 | every enum example sets a declared option to one of its values |
| Inspector.EnumExamples | src/template_engine/inspector.rs:171-193 | at most one enum example per option |
| Inspector.ExamplesShape | src/template_engine/inspector.rs:144-173 | at most three examples, each a valid setting of a declared option |
| Inspector.Take | src/template_engine/inspector.rs:143-150 | the cut keeps a prefix of at most three examples, and all of a shorter list |
| Inspector.Examples | src/template_engine/inspector.rs:143-193 | at most three examples are shown |
| Inspector.BooleansFirst | src/template_engine/inspector.rs:146-173 | with three or more boolean options no enum example is shown |
| Inspector.FullSettingsShape | src/template_engine/inspector.rs:204-213 | each full-featured setting names an option from the order, with its first possible value or `true` for a boolean |
| Inspector.FullSettings | src/template_engine/inspector.rs:204-213 | at most one setting per option |
| Inspector.FullFeaturedShape | src/template_engine/inspector.rs:196-219 | the line exists exactly with two or more options and has at most three settings, each as above |
| Inspector.FullFeatured | src/template_engine/inspector.rs:196-219 | the line is shown exactly with two or more options, with at most three settings |
| TemplateNaming.ToPascalCase | src/template_engine/naming.rs:71-111 | the result is alphanumeric; an input already in PascalCase comes back unchanged; any other non-empty result is PascalCase unless it starts with a digit |
| TemplateNaming.CapitalizedShape | src/template_engine/naming.rs:79-91 | capitalizing non-empty alphanumeric words gives an alphanumeric string that is PascalCase or starts with a digit |
| TemplateNaming.ToCamelCase | src/template_engine/naming.rs:135-167 | alphanumeric input gives alphanumeric output; camelCase input comes back unchanged; any other non-empty result is camelCase unless it starts with a digit |
| TemplateNaming.ToSnakeCase | src/template_engine/naming.rs:193-230 | snake_case input comes back unchanged; the result is lower-case words joined by '_' |
| TemplateNaming.ToKebabCase | src/template_engine/naming.rs:254-281 | kebab-case input comes back unchanged; any other result has no '_' and is lower-case words joined by '-' |
| TemplateNaming.ReplaceUnderscores | src/template_engine/naming.rs:261-263 | replacing '_' by '-' in a snake result gives a kebab result of the same length |
| TemplateNaming.HookName | src/template_engine/naming.rs:315-319 | the hook name is the input exactly when the input starts with "use" ignoring case; otherwise "use" + PascalCase; either way it starts with "use" |
| TemplateNaming.ProcessSmartNames | src/template_engine/naming.rs:311-355 | each smart name is the input itself or carries its affix: "use" before the hook name, "Context", "Provider" or "Page" after the others |
| TemplateNaming.ContextName | src/template_engine/naming.rs:322-326 | the context name is the input exactly when it ends with "context" ignoring case; otherwise PascalCase + "Context" |
| TemplateNaming.ProviderName | src/template_engine/naming.rs:329-340 | the provider name is the input when it ends with "provider"; otherwise a trailing "context" is cut off before PascalCase + "Provider" |
| TemplateNaming.PageName | src/template_engine/naming.rs:343-347 | the page name is the input exactly when it ends with "page" ignoring case; otherwise PascalCase + "Page" |
| TemplateNaming.SmartNamesOfAuth | src/template_engine/naming.rs:473-479 | `auth` gives `useAuth`, `AuthContext`, `AuthProvider` and `AuthPage` |
| TemplateNaming.PlainSmartNames | src/template_engine/naming.rs:311-354 | a name with none of the four affixes gets all four names from its PascalCase form |
| TemplateNaming.HookKept | src/template_engine/naming.rs:315-319 | `useAuth` keeps its hook name, and so does `user`, since the test only looks at the first three letters |
| TemplateNaming.ReplacementsExample | src/template_engine/naming.rs:375-380 | `export function use$FILE_NAME() { }` with `Auth` becomes `export function useAuth() { }` |
| TemplateNaming.FilenameExample | src/template_engine/naming.rs:414-417 | `use$FILE_NAME.ts` with `Auth` becomes `useAuth.ts` |
| TemplateNaming.ApplySmartReplacements | src/template_engine/naming.rs:382-395 | content without a '$' is left unchanged |
| TemplateNaming.ApplySmartFilenameReplacements | src/template_engine/naming.rs:421-438 | a file name without a '$' is left unchanged |
| TemplateNaming.HookPlaceholder | src/template_engine/naming.rs:382-395 | `use$FILE_NAME` between placeholder-free text becomes the hook name |
| TemplateNaming.PascalOfSeparated | src/template_engine/naming.rs:78-91 | two or more words joined by a separator become the words capitalized and concatenated |
| TemplateNaming.PascalIdempotent | src/template_engine/naming.rs:71-91 | PascalCase is idempotent when the first word starts with a letter |
| TemplateNaming.PascalNotIdempotent | src/template_engine/naming.rs:71-91 | a first word that starts with a digit breaks idempotence: `1st_place` gives `1stPlace`, which then gives `1stplace` |
| TemplateNaming.CamelIdempotent | src/template_engine/naming.rs:135-151 | camelCase is idempotent when the first word starts with a letter |
| TemplateNaming.SnakeIdempotent | src/template_engine/naming.rs:193-217 | snake_case is idempotent on every input |
| TemplateNaming.KebabIdempotent | src/template_engine/naming.rs:254-268 | kebab-case is idempotent on every input |
| TemplateNaming.PascalExamples | src/template_engine/naming.rs:445-450 | `hello_world`, `hello-world`, `hello world` and `HelloWorld` all give `HelloWorld` |
| TemplateNaming.CamelExamples | src/template_engine/naming.rs:453-457 | `hello_world`, `hello-world` and `HelloWorld` give `helloWorld` |
| TemplateNaming.SnakeExamples | src/template_engine/naming.rs:460-464 | `HelloWorld`, `helloWorld` and `hello-world` give `hello_world` |
| TemplateNaming.KebabExamples | src/template_engine/naming.rs:467-471 | `HelloWorld`, `helloWorld` and `hello_world` give `hello-world` |
| TemplateNaming.SnakeGeneral | src/template_engine/naming.rs:199-216 | outside snake_case the result is the words of the input, with a boundary before each inner capital, joined by '_' |
| TemplateNaming.KebabGeneral | src/template_engine/naming.rs:260-267 | outside kebab-case the result is the snake result with every '_' turned into '-' |
| TemplateNaming.CamelOfPascal | src/template_engine/naming.rs:141-151 | outside camelCase the result is the PascalCase result with its first character lowered |
| TemplateNaming.SnakeOfSeparated | src/template_engine/naming.rs:199-216 | alphanumeric words separated by non-alphanumerics join with '_' |
| TemplateNaming.KebabOfSnake | src/template_engine/naming.rs:260-267 | words joined by '_' become the same words joined by '-' |
| SmartNaming.EnsureSuffix | src/naming/mod.rs:58-69 | the result ends with the suffix ignoring case, and is the text unchanged exactly when the text already did |
| SmartNaming.EnsureSuffixIdempotent | src/naming/mod.rs:58-69 | adding a suffix twice is adding it once |
| SmartNaming.EnsureSuffixExamples | src/naming/mod.rs:293-303 | `User` gains `Context`; `AuthContext` and `Authcontext` are kept as they are |
| SmartNaming.ToPascalCase | src/naming/mod.rs:72-109 | the result is alphanumeric, empty exactly when the input has no word, and starts with a capital or a digit |
| SmartNaming.ToCamelCase | src/naming/mod.rs:112-123 | the result is alphanumeric, as long as the PascalCase form, and does not start with a capital |
| SmartNaming.SnakeCase | src/naming/mod.rs:126-147 | the result is lower-case words joined by '_' |
| SmartNaming.ToSnakeCase | src/naming/mod.rs:126-147 | the loop that inserts '_' before capitals, followed by the split and join, computes the snake form |
| SmartNaming.ToKebabCase | src/naming/mod.rs:150-152 | the kebab form is the snake form's words joined by '-' instead, so it is lower-case words joined by '-' |
| SmartNaming.PascalIdempotent | src/naming/mod.rs:72-109 | PascalCase is idempotent on every input |
| SmartNaming.PascalOfCamel | src/naming/mod.rs:72-123 | the PascalCase of the camelCase form is the PascalCase form |
| SmartNaming.CamelIdempotent | src/naming/mod.rs:112-123 | camelCase of the PascalCase form is camelCase of the input |
| SmartNaming.SnakeIdempotent | src/naming/mod.rs:126-147 | snake_case is idempotent on every input |
| SmartNaming.HookName | src/naming/mod.rs:30-42 | the hook name is the input exactly when it starts with "use" ignoring case, is longer than three and has a capital fourth character; otherwise "use" + PascalCase |
| SmartNaming.SuffixedNames | src/naming/mod.rs:44-51 | the context, provider and page names end with their suffix ignoring case |
| SmartNaming.ProcessSmartNames | src/naming/mod.rs:26-52 | the hook name is the input or starts with "use"; the context, provider and page names end with their suffix ignoring case |
| SmartNaming.ContextOf | src/naming/mod.rs:44-48 | the context name adds "Context" to the PascalCase form only when it is missing |
| SmartNaming.PlainNames | src/naming/mod.rs:26-52 | a name whose PascalCase form has none of the affixes gets all four names from that form |
| SmartNaming.UserNames | src/naming/mod.rs:233-241 | `user` gives `useUser`, `UserContext`, `UserProvider` and `UserPage` |
| SmartNaming.UseAuthKept | src/naming/mod.rs:247-249 | `useAuth` keeps its hook name |
| SmartNaming.AuthContextKept | src/naming/mod.rs:251-253 | `AuthContext` keeps its context name |
| SmartNaming.PascalExamples | src/naming/mod.rs:260-261 | `user_profile` gives `UserProfile` and `my-component` gives `MyComponent` |
| SmartNaming.CamelExample | src/naming/mod.rs:262 | `UserProfile` gives `userProfile` |
| SmartNaming.SnakeExample | src/naming/mod.rs:263-264 | `UserProfile` gives `user_profile` and `user-profile` |
| SmartNaming.FilenamePatternExamples | src/naming/mod.rs:280-290 | `use{name}.ts` with `auth` gives `useAuth.ts`; `{name}Context.tsx` with `user` gives `UserContext.tsx` |
| SmartNaming.ApplySmartReplacements | src/naming/mod.rs:162-180 | content without a '$' is left unchanged |
| SmartNaming.ApplySmartFilenameReplacements | src/naming/mod.rs:187-205 | a file name without a '$' is left unchanged |
| SmartNaming.ProcessFilenamePattern | src/naming/mod.rs:210-225 | a pattern without a '{' is left unchanged |
| SmartNaming.HookPatternOf | src/naming/mod.rs:215 | `use{name}` at the start of a pattern becomes the hook name |
| SmartNaming.ContextPatternOf | src/naming/mod.rs:216 | `{name}Context` at the start of a pattern becomes the context name |
| Substitution.SubstituteNothing | src/template_engine/naming.rs:382-395 | text without the placeholder's first character comes back unchanged |
| Substitution.SubstituteHook | src/template_engine/naming.rs:386 | one `use<T>` between placeholder-free text becomes the hook name |
| Substitution.SubstituteContext | src/template_engine/naming.rs:387 | one `<T>Context` not preceded by "use" becomes the context name |
| Substitution.SubstituteProvider | src/template_engine/naming.rs:388 | one `<T>Provider` not preceded by "use" becomes the provider name |
| Substitution.SubstitutePage | src/template_engine/naming.rs:389 | one `<T>Page` not preceded by "use" becomes the page name |
| Substitution.SubstituteBare | src/template_engine/naming.rs:392 | a bare `<T>`, neither preceded by "use" nor followed by a smart suffix, becomes the plain value |
| Substitution.ReplaceUnmatched | src/template_engine/naming.rs:386-392 | `str::replace` leaves a prefix that holds no match alone |
| Substitution.ReplaceFree | src/template_engine/naming.rs:386-392 | a pattern containing a character the text lacks leaves the text unchanged |
| Substitution.StepHit | src/template_engine/naming.rs:386-392 | the only match of the pattern is replaced and nothing else changes |
| LegacyNaming.ToPascalCase | src/template_engine.rs:1139-1163 | the result is alphanumeric; a PascalCase input is kept; the result is empty exactly when the input has no word |
| LegacyNaming.ToCamelCase | src/template_engine.rs:1165-1176 | the result is alphanumeric, as long as the PascalCase form, and does not start with a capital |
| LegacyNaming.ToSnakeCase | src/template_engine.rs:1178-1193 | the result is lower-case words joined by '_' |
| LegacyNaming.ToKebabCase | src/template_engine.rs:1195-1197 | the result is the snake words joined by '-', so it is lower-case words joined by '-' |
| LegacyNaming.SnakeIdempotent | src/template_engine.rs:1178-1193 | snake_case is idempotent on every input |
| LegacyNaming.KebabIdempotent | src/template_engine.rs:1195-1197 | kebab-case is idempotent on every input |
| LegacyNaming.RejoinedWords | src/template_engine.rs:1178-1193 | the words of lower-case words joined by a separator are those words |
| LegacyNaming.FilenamePatternHook | src/template_engine.rs:474-490 | `use{name}` in an architecture pattern becomes the engine's hook name |
| LegacyNaming.ProcessFilenamePattern | src/template_engine.rs:474-489 | a pattern without a '{' is left unchanged |
| LegacyNaming.ProcessSmartNames | src/template_engine.rs:863-907 | each smart name is the input itself or carries its affix: "use" before the hook name, "Context", "Provider" or "Page" after the others |
| LegacyNaming.ApplySmartReplacements | src/template_engine.rs:910-923 | content without a '$' is left unchanged |
| LegacyNaming.ApplySmartFilenameReplacements | src/template_engine.rs:926-943 | a file name without a '$' is left unchanged |
| NamingDivergence.PascalAgrees | src/template_engine.rs:1139-1163 | the engine's PascalCase equals the one in src/template_engine/naming.rs:71-91 on every input |
| NamingDivergence.SmartNamesAgree | src/template_engine.rs:863-908 | the engine's smart names equal those of src/template_engine/naming.rs:311-354 on every input |
| NamingDivergence.SnakeAgrees | src/template_engine.rs:1178-1193 | the engine's snake_case equals the one in src/naming/mod.rs:126-147 on every input |
| NamingDivergence.SnakeAgreesOffShape | src/template_engine/naming.rs:193-217 | outside its snake_case shortcut this snake_case equals the engine's |
| NamingDivergence.UserHookDiverges | src/naming/mod.rs:30-42 | for `user` two implementations keep `user` as the hook name, while src/naming/mod.rs gives `useUser` |
| NamingDivergence.PascalDiverges | src/naming/mod.rs:76-84 | `helloWorld` gives `Helloworld` in src/template_engine/naming.rs but `HelloWorld` in src/naming/mod.rs |
| NamingDivergence.CamelDiverges | src/template_engine/naming.rs:135-139 | `helloWorld` is kept by the shortcut in src/template_engine/naming.rs but becomes `helloworld` in the engine |
| NamingDivergence.SnakeDiverges | src/template_engine/naming.rs:193-197 | `_hello` is kept by the snake shortcut but becomes `hello` in the engine |
| NamingDivergence.KebabDiverges | src/template_engine/naming.rs:254-258 | `-hello` is kept by the kebab shortcut but becomes `hello` in the engine |
| Names.Words | src/template_engine/naming.rs:79-80 | splitting at non-alphanumerics and dropping empty pieces gives non-empty alphanumeric words |
| Names.Capitalize | src/template_engine/naming.rs:81-89 | same length; first character upper-cased, the rest lower-cased |
| Names.CapitalizeWords | src/template_engine/naming.rs:78-91 | the glued capitalized words are alphanumeric, start with the upper-cased first letter, and are empty only when every word is |
| Names.Marked | src/template_engine/naming.rs:199-208 | marking capitals with '_' and lowering them leaves no capital |
| Names.MarkedWithoutCapitals | src/template_engine/naming.rs:199-208 | text without capitals is left unchanged by the marking |
| Names.WordsOfJoin | src/template_engine/naming.rs:79-80 | the words of alphanumeric words joined by a separator are those words |
| Names.WordsOfMarkedAreLower | src/template_engine/naming.rs:199-214 | every word of the marked text is lower-case |
| Ordering.LessEqTotal | src/template_engine/inspector.rs:101 | string order, as `str::cmp` compares, is total |
| Ordering.LessEqAntisym | src/template_engine/inspector.rs:101 | string order is antisymmetric |
| Ordering.LessEqTrans | src/template_engine/inspector.rs:101 | string order is transitive |
| Ordering.SortStrings | src/template_engine/inspector.rs:101 | sorting yields a sorted permutation of the input |
| Ordering.SortByPerm | src/template_engine/inspector.rs:116 | sorting by a key is a permutation |
| Ordering.SortBySorted | src/template_engine/inspector.rs:116 | sorting by a key orders by that key |
| Ordering.SortedUnique | src/template_engine/inspector.rs:101-106 | two sorted permutations of the same strings are equal, so the sorted output does not depend on the input order |
| Ordering.OrdersArePermutations | src/template_engine/inspector.rs:92 | any two iteration orders of a `HashMap`'s keys are permutations of each other |
| FilterMap.CollectMember | src/cli.rs:60-65 | `filter_map` keeps a value exactly when some element maps to it |
| FilterMap.CollectAppend | src/cli.rs:60-65 | `filter_map` over a concatenation is the concatenation of the results |

## Left out

- File-system I/O is not modelled. This covers loading a template's `.conf`, the `WalkDir` traversal, `create_dir_all`, writing files, `show_generated_files`, `read_template`/`write_output`, and `Config::load`/`save`. The walk and directory listings are inputs, given as sequences.
- The `tokio::spawn` tasks of `process_template_directory` run only for parallelism. The model takes the per-file decisions sequentially, in walk order.
- Handlebars rendering, the registered helpers and `handlebars_renderer.rs` are not modelled. They wrap a library that is not part of this model. A file's contents are modelled only up to placeholder substitution.
- The clock, `Uuid::new_v4`, `std::env::var("NODE_ENV")`, the crate version and the home directory are parameters. RFC 3339 formatting of the time is not modelled, because the formatted texts are the inputs.
- Printing is not modelled: every `println!`, colours, `print_template_header`, `print_required_variables` and `print_optional_variables`. The file groups and usage examples of `--describe` are modelled as the data they print. The interactive `inquire` prompts of the wizard are not modelled; its validator and help text are.
- Letters, digits and case mapping are ASCII only. Unicode `to_uppercase`/`to_lowercase` can change a string's length and are not modelled. Whitespace for `trim` is the full Unicode White_Space set.
- `HashMap` iteration order is unspecified in Rust. Where a result depends on it, the order is an explicit parameter that lists each key once: the boolean flags, the usage examples and the file groups. The lemmas state what does not depend on it.
- `to_ini` canonicalises the directory paths through the file system. The model uses the displayed path text unchanged.
- src/wizard.rs builds an `Args` without the `describe` field of src/cli.rs. `Wizard` models the conversion as that file writes it and does not reconcile the two.
- src/template_engine/engine.rs declares a four-field `TemplateConfig`. `Engine` reuses the full configuration record; its reader never writes the other fields, which keep their defaults.
- The boolean-flag loop of src/template_engine.rs:303-337 spells `is_truthy` out inline and is otherwise the loop of src/template_engine/renderer.rs:73-101. Both are modelled by `BooleanFlags.GenerateBooleanHelpers`.
- The unit test at src/naming/mod.rs:268-277 replaces two placeholders in one text, and it is not proved. The substitution lemmas cover one placeholder occurrence between placeholder-free text, plus text without any placeholder.
- The literal test cases of the file conditions at src/template_engine/generator.rs:137-159 are covered by the general lemmas `AlwaysCondition`, `BooleanCondition`, `ValueCondition`, `UnsplitCondition` and `UnknownCondition`, not by concrete instances.
- The error types of src/error.rs and the getters of src/config/mod.rs hold no logic and are not modelled.
- Paths are modelled as Unix component sequences of text, the way `Path::components` yields them. Non-UTF-8 file names, for which `to_str` fails, do not arise, and neither do Windows prefixes. Since `parent` is only `None` for a path that has no file name either, "Invalid output path" cannot occur: `Renderer.DetermineOutputPath` has the one error "Invalid output filename". `Engine.DetermineOutputPath` uses the same `join` model (`Paths.JoinPath`).
- Architecture JSON loading and the feature-generation flow (`generate_feature`, `process_feature_template_directory`) are not modelled; only `process_filename_pattern`'s substitution is.
