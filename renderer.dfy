/**
 * Template data and output paths of the refactored engine
 * (src/template_engine/renderer.rs).  The clock, the random UUID and the
 * crate version are inputs: `Stamps` holds the texts the source formats
 * from `Utc::now()` and `Uuid::new_v4()`, and `version` is the crate
 * version the build embeds.  The options are visited in the iteration order
 * `order` of their map.
 */
module Renderer {
  import opened Wrappers
  import opened Strings
  import opened Names
  import opened EngineConfig
  import opened Json
  import opened BooleanFlags
  import opened Ordering
  import opened Paths
  import T = TemplateNaming
  import Substitution

  /** The formatted time (RFC 3339, ISO with milliseconds, date, time, year) and UUID (hyphenated, simple). */
  datatype Stamps = Stamps(rfc3339: string, iso: string, date: string, time: string, year: string,
                           uuid: string, uuidSimple: string)

  const GeneratorName := "CLI Frontend Generator"

  /** The keys holding the time; empty strings when timestamps are disabled. */
  const TimestampKeys: set<string> := {"timestamp", "timestamp_iso", "date", "time", "year"}

  /** The keys holding the UUID; empty strings when UUIDs are disabled. */
  const UuidKeys: set<string> := {"uuid", "uuid_simple"}

  /** The name variants `create_template_data` derives from the name. */
  datatype NameForms = NameForms(pascal: string, snake: string, kebab: string, camel: string, upper: string, smart: SmartNames)

  function Forms(name: string): (f: NameForms)
  {
    NameForms(T.ToPascalCase(name), T.ToSnakeCase(name), T.ToKebabCase(name), T.ToCamelCase(name), Upper(name),
              T.ProcessSmartNames(name))
  }

  /**
   * The built-in keys of the template data, before any custom variable
   * (the `json!` object of `create_template_data`, and the same object in
   * `TemplateDataBuilder::build`).
   */
  function BuiltIns(name: string, forms: NameForms, environment: string, ts: bool, id: bool, now: Stamps, version: string): (b: Object)
    ensures TimestampKeys <= b.Keys && UuidKeys <= b.Keys
  {
    map[
      "name" := Str(name),
      "pascal_name" := Str(forms.pascal),
      "snake_name" := Str(forms.snake),
      "kebab_name" := Str(forms.kebab),
      "camel_name" := Str(forms.camel),
      "upper_name" := Str(forms.upper),
      "hook_name" := Str(forms.smart.hook),
      "context_name" := Str(forms.smart.context),
      "provider_name" := Str(forms.smart.provider),
      "page_name" := Str(forms.smart.page),
      "environment" := Str(environment),
      "timestamp" := Str(if ts then now.rfc3339 else ""),
      "timestamp_iso" := Str(if ts then now.iso else ""),
      "date" := Str(if ts then now.date else ""),
      "time" := Str(if ts then now.time else ""),
      "year" := Str(if ts then now.year else ""),
      "uuid" := Str(if id then now.uuid else ""),
      "uuid_simple" := Str(if id then now.uuidSimple else ""),
      "version" := Str(version),
      "generator_name" := Str(GeneratorName),
      "generated" := Bool(true)
    ]
  }

  /** The built-in keys `create_template_data` writes for a configuration. */
  function ConfigBuiltIns(name: string, config: TemplateConfig, now: Stamps, version: string): Object
  {
    BuiltIns(name, Forms(name), config.environment, config.enableTimestamps, config.enableUuid, now, version)
  }

  /** The variables as JSON strings. */
  function StrValues(variables: map<string, string>): (m: Object)
    ensures m.Keys == variables.Keys
    ensures forall k :: k in variables ==> m[k] == Str(variables[k])
  {
    map k | k in variables :: Str(variables[k])
  }

  /** What `create_template_data` returns: built-ins, then the custom variables over them, then the flags over both. */
  function TemplateData(name: string, config: TemplateConfig, now: Stamps, version: string, order: seq<string>): (data: Object)
    requires IsOrder(order, config.optionsMetadata)
    ensures ConfigBuiltIns(name, config, now, version).Keys <= data.Keys
    ensures config.variables.Keys <= data.Keys
  {
    ApplyWrites(ConfigBuiltIns(name, config, now, version) + StrValues(config.variables),
                HelperWrites(config.variables, config.optionsMetadata, order))
  }

  /** `create_template_data`: the built-in keys, the custom variables inserted over them, then the flags. */
  method CreateTemplateData(name: string, config: TemplateConfig, now: Stamps, version: string, order: seq<string>)
    returns (data: Object)
    requires IsOrder(order, config.optionsMetadata)
    ensures data == TemplateData(name, config, now, version, order)
  {
    var base := ConfigBuiltIns(name, config, now, version);
    data := InsertVariables(base, config.variables);
    data := GenerateBooleanHelpers(config.variables, config.optionsMetadata, order, data);
  }

  /** The loop of `create_template_data` that inserts every custom variable as a string; the variables win. */
  method InsertVariables(base: Object, variables: map<string, string>) returns (data: Object)
    ensures data == base + StrValues(variables)
  {
    data := base;
    var pending := variables.Keys;
    assert variables - pending == map[];
    while pending != {}
      invariant pending <= variables.Keys
      invariant data == base + StrValues(variables - pending)
      decreases pending
    {
      var key :| key in pending;
      data := data[key := Str(variables[key])];
      pending := pending - {key};
    }
    assert variables - {} == variables;
  }

  // ---------------------------------------------------------------- properties of the data

  /** A custom variable overrides the built-in key of the same name (a custom `version` wins); only a flag overrides it. */
  lemma CustomOverrides(name: string, config: TemplateConfig, now: Stamps, version: string, order: seq<string>, k: string)
    requires IsOrder(order, config.optionsMetadata)
    requires k in config.variables && NotAFlag(config.variables, config.optionsMetadata, k)
    ensures var data := TemplateData(name, config, now, version, order);
      k in data && data[k] == Str(config.variables[k])
  {
    DataUntouched(config.variables, config.optionsMetadata, order,
                  ConfigBuiltIns(name, config, now, version) + StrValues(config.variables), k);
  }

  /** A built-in key no custom variable and no flag names keeps its built-in value. */
  lemma BuiltInKept(name: string, config: TemplateConfig, now: Stamps, version: string, order: seq<string>, k: string)
    requires IsOrder(order, config.optionsMetadata)
    requires k in ConfigBuiltIns(name, config, now, version) && k !in config.variables
    requires NotAFlag(config.variables, config.optionsMetadata, k)
    ensures var data := TemplateData(name, config, now, version, order);
      k in data && data[k] == ConfigBuiltIns(name, config, now, version)[k]
  {
    DataUntouched(config.variables, config.optionsMetadata, order,
                  ConfigBuiltIns(name, config, now, version) + StrValues(config.variables), k);
  }

  /** Flags are inserted last: they win over custom variables and built-ins of the same name. */
  lemma FlagsWin(name: string, config: TemplateConfig, now: Stamps, version: string, order: seq<string>, n: string, p: string)
    requires IsOrder(order, config.optionsMetadata) && DistinctFlagNames(config.optionsMetadata)
    requires n in config.optionsMetadata && n in config.variables && p in config.optionsMetadata[n].possibleValues
    ensures var data := TemplateData(name, config, now, version, order);
      EnumFlagName(n, p) in data && data[EnumFlagName(n, p)] == Bool(config.variables[n] == p)
  {
    EnumFlagValue(config.variables, config.optionsMetadata, order,
                  ConfigBuiltIns(name, config, now, version) + StrValues(config.variables), n, p);
  }

  /** With timestamps disabled every time key is the empty string, whatever the clock says. */
  lemma TimestampsDisabled(name: string, forms: NameForms, environment: string, id: bool, now: Stamps, version: string, k: string)
    requires k in TimestampKeys
    ensures var b := BuiltIns(name, forms, environment, false, id, now, version);
      k in b && b[k] == Str("")
  {
  }

  /** With UUIDs disabled both UUID keys are the empty string. */
  lemma UuidDisabled(name: string, forms: NameForms, environment: string, ts: bool, now: Stamps, version: string, k: string)
    requires k in UuidKeys
    ensures var b := BuiltIns(name, forms, environment, ts, false, now, version);
      k in b && b[k] == Str("")
  {
  }

  /** The name keys hold the name variants. */
  lemma NameFormKeys(name: string, forms: NameForms, environment: string, ts: bool, id: bool, now: Stamps, version: string)
    ensures var b := BuiltIns(name, forms, environment, ts, id, now, version);
      && b["pascal_name"] == Str(forms.pascal) && b["snake_name"] == Str(forms.snake)
      && b["hook_name"] == Str(forms.smart.hook) && b["context_name"] == Str(forms.smart.context)
  {
  }

  /** The data never depends on the clock or the UUID when both are disabled. */
  lemma StampsIrrelevantWhenDisabled(name: string, forms: NameForms, environment: string, now1: Stamps, now2: Stamps, version: string)
    ensures BuiltIns(name, forms, environment, false, false, now1, version)
         == BuiltIns(name, forms, environment, false, false, now2, version)
  {
  }

  // ---------------------------------------------------------------- output path

  /**
   * `determine_output_path` over a path given as its components: the file
   * name (the last component, when it is a normal name) goes through the
   * filename replacements and is joined to the parent.  A path whose last
   * component is not a normal name (empty, the root, `.` or `..`) has no
   * file name and is an error.  The parent of a path with a file name
   * always exists, so the source's "Invalid output path" cannot occur.
   */
  function DetermineOutputPath(base: seq<Component>, name: string, names: SmartNames): (r: Result<seq<Component>, string>)
    ensures r.Ok? <==> base != [] && base[|base| - 1].Normal?
  {
    if base == [] || !base[|base| - 1].Normal? then Err("Invalid output filename")
    else Ok(JoinPath(base[..|base| - 1], T.ApplySmartFilenameReplacements(base[|base| - 1].name, name, names)))
  }

  /**
   * The path fails exactly when it has no file name.  A substituted file
   * name that is a single normal name replaces the old one under the same
   * parent; an absolute one replaces the whole path.
   */
  lemma OutputPathShape(base: seq<Component>, name: string, names: SmartNames)
    ensures DetermineOutputPath(base, name, names).Ok? <==> base != [] && base[|base| - 1].Normal?
    ensures DetermineOutputPath(base, name, names).Err? ==> DetermineOutputPath(base, name, names).error == "Invalid output filename"
    ensures DetermineOutputPath(base, name, names).Ok? ==>
      var f := T.ApplySmartFilenameReplacements(base[|base| - 1].name, name, names);
      var out := DetermineOutputPath(base, name, names).value;
      && (IsNormalName(f) ==> out == base[..|base| - 1] + [Normal(f)])
      && (StartsWith(f, "/") ==> out == Components(f))
  {
    if base != [] && base[|base| - 1].Normal? {
      var f := T.ApplySmartFilenameReplacements(base[|base| - 1].name, name, names);
      if IsNormalName(f) {
        NormalNameComponents(f);
      }
    }
  }

  /**
   * A substituted file name `a/b` under a non-empty parent is read as a
   * directory `a` holding `b`, as `join` reads any relative path.
   */
  lemma OutputPathNested(base: seq<Component>, name: string, names: SmartNames, a: string, b: string)
    requires |base| >= 2 && base[|base| - 1].Normal?
    requires T.ApplySmartFilenameReplacements(base[|base| - 1].name, name, names) == a + "/" + b
    requires IsNormalName(a) && IsNormalName(b)
    ensures DetermineOutputPath(base, name, names) == Ok(base[..|base| - 1] + [Normal(a), Normal(b)])
  {
    JoinNested(base[..|base| - 1], a, b);
  }

  /** The test path `output/use$FILE_NAME.ts` with the name `MyHook` becomes `output/useMyHook.ts`. */
  lemma OutputPathExample(base: seq<Component>, name: string)
    requires base == [Normal("output"), Normal("use$FILE_NAME.ts")] && name == "MyHook"
    ensures DetermineOutputPath(base, name, T.ProcessSmartNames(name)) == Ok([Normal("output"), Normal("useMyHook.ts")])
  {
    var names := T.ProcessSmartNames(name);
    MyHookNames(name);
    HookFileNormal();
    HookTemplateFile();
    assert names.hook + ".ts" == "useMyHook.ts";
    HookOutput(base, name, names, Normal("output"), names.hook);
  }

  /** A parent followed by `use$FILE_NAME.ts` becomes the parent followed by the hook name and ".ts". */
  lemma HookOutput(base: seq<Component>, name: string, names: SmartNames, parent: Component, hook: string)
    requires base == [parent, Normal("use" + T.FileName + ".ts")] && names.hook == hook
    requires '$' !in hook && IsNormalName(hook + ".ts")
    ensures DetermineOutputPath(base, name, names) == Ok([parent, Normal(hook + ".ts")])
  {
    HookFile(base[1].name, name, names, hook);
    OutputPathOf(base, name, names, hook + ".ts");
  }

  /** A two-component path whose file name substitutes to the normal name `f` becomes the parent followed by `f`. */
  lemma OutputPathOf(base: seq<Component>, name: string, names: SmartNames, f: string)
    requires |base| == 2 && base[1].Normal? && T.ApplySmartFilenameReplacements(base[1].name, name, names) == f
    requires IsNormalName(f)
    ensures DetermineOutputPath(base, name, names) == Ok([base[0], Normal(f)])
  {
    OutputPathShape(base, name, names);
    assert base[..1] + [Normal(f)] == [base[0], Normal(f)];
  }

  lemma HookTemplateFile()
    ensures "use" + T.FileName + ".ts" == "use$FILE_NAME.ts"
  {
  }

  lemma HookFileNormal()
    ensures IsNormalName("useMyHook.ts")
  {
  }

  /** The current directory and the root have no file name, as `Path::file_name` says. */
  lemma NoFileName(name: string, names: SmartNames)
    ensures DetermineOutputPath([CurDir], name, names).Err?
    ensures DetermineOutputPath([RootDir], name, names).Err?
    ensures DetermineOutputPath(Components("."), name, names).Err?
    ensures DetermineOutputPath(Components("/"), name, names).Err?
  {
    SplitCharAbsent(".", '/');
    assert PieceComponents(["."]) == [];
    SplitCharAt("", '/', "");
    assert "" + "/" + "" == "/";
    SplitCharAbsent("", '/');
    assert PieceComponents(["", ""]) == [];
  }

  /** The file name `use$FILE_NAME.ts` becomes the hook name followed by ".ts". */
  lemma HookFile(file: string, name: string, names: SmartNames, hook: string)
    requires file == "use" + T.FileName + ".ts" && names.hook == hook && '$' !in hook
    ensures T.ApplySmartFilenameReplacements(file, name, names) == hook + ".ts"
  {
    T.FileNameIsToken();
    assert file == [] + "use" + T.FileName + ".ts";
    assert '$' !in ".ts";
    Substitution.SubstituteHook([], ".ts", T.FileName, names, T.ToPascalCase(name));
    assert [] + hook + ".ts" == hook + ".ts";
  }

  lemma MyHookNames(name: string)
    requires name == "MyHook"
    ensures T.ProcessSmartNames(name).hook == "useMyHook"
  {
    assert T.IsPascalCase(name);
    assert Lower(name)[0] == 'm';
    T.HookName(name);
  }
}
