/**
 * The fluent builder of template data (src/template_engine/data_builder.rs).
 * Each `with_*` call updates one field of the builder; `build` writes the
 * same built-in keys as `create_template_data` (`Renderer.BuiltIns`), with
 * the name variants of `SmartNaming`, and then the custom variables over
 * them.  The clock, the UUID and the crate version are inputs of `build`.
 */
module DataBuilder {
  import opened Wrappers
  import opened Strings
  import opened Names
  import opened Json
  import S = SmartNaming
  import R = Renderer

  datatype TemplateDataError = MissingName | MissingSmartNames

  /** The environment `build` writes when none was given. */
  const DevelopmentEnvironment := "development"

  /** The name variants `build` writes: those of `SmartNaming`, and the smart names recorded by `with_name`. */
  function BuilderForms(name: string, smart: SmartNames): R.NameForms
  {
    R.NameForms(S.ToPascalCase(name), S.SnakeCase(name), Join(Words(Marked(name)), "-"), S.ToCamelCase(name),
                Upper(name), smart)
  }

  class TemplateDataBuilder {
    var name: Option<string>
    var smartNames: Option<SmartNames>
    var environment: Option<string>
    var enableTimestamps: bool
    var enableUuid: bool
    var customVariables: map<string, string>

    /** The recorded smart names are those of the recorded name, and absent without one. */
    ghost predicate Valid()
      reads this
    {
      smartNames == (if name.Some? then Some(S.ProcessSmartNames(name.value)) else None)
    }

    /** `new()`: no name and no environment yet, timestamps and UUIDs on, no custom variables. */
    constructor ()
      ensures Valid()
      ensures name == None && environment == None
      ensures enableTimestamps && enableUuid && customVariables == map[]
    {
      name := None;
      smartNames := None;
      environment := None;
      enableTimestamps := true;
      enableUuid := true;
      customVariables := map[];
    }

    /** `with_name`: the name and its smart names. */
    method WithName(n: string)
      requires Valid()
      modifies this
      ensures name == Some(n) && smartNames == Some(S.ProcessSmartNames(n)) && Valid()
      ensures environment == old(environment) && customVariables == old(customVariables)
      ensures enableTimestamps == old(enableTimestamps) && enableUuid == old(enableUuid)
    {
      smartNames := Some(S.ProcessSmartNames(n));
      name := Some(n);
    }

    /** `with_environment`: the environment `build` writes. */
    method WithEnvironment(e: string)
      requires Valid()
      modifies this
      ensures Valid()
      ensures environment == Some(e)
      ensures name == old(name) && smartNames == old(smartNames) && customVariables == old(customVariables)
      ensures enableTimestamps == old(enableTimestamps) && enableUuid == old(enableUuid)
    {
      environment := Some(e);
    }

    /** `with_timestamps`: whether `build` writes the time. */
    method WithTimestamps(enable: bool)
      requires Valid()
      modifies this
      ensures Valid()
      ensures enableTimestamps == enable
      ensures name == old(name) && smartNames == old(smartNames) && environment == old(environment)
      ensures enableUuid == old(enableUuid) && customVariables == old(customVariables)
    {
      enableTimestamps := enable;
    }

    /** `with_uuid`: whether `build` writes a UUID. */
    method WithUuid(enable: bool)
      requires Valid()
      modifies this
      ensures Valid()
      ensures enableUuid == enable
      ensures name == old(name) && smartNames == old(smartNames) && environment == old(environment)
      ensures enableTimestamps == old(enableTimestamps) && customVariables == old(customVariables)
    {
      enableUuid := enable;
    }

    /** `with_variables`: the variables are added to those given before; on a repeated key the later value wins. */
    method WithVariables(variables: map<string, string>)
      requires Valid()
      modifies this
      ensures Valid()
      ensures customVariables == old(customVariables) + variables
      ensures name == old(name) && smartNames == old(smartNames) && environment == old(environment)
      ensures enableTimestamps == old(enableTimestamps) && enableUuid == old(enableUuid)
    {
      customVariables := customVariables + variables;
    }

    /** What `build` returns in the builder's current state. */
    function Data(now: R.Stamps, version: string): Result<Object, TemplateDataError>
      reads this
    {
      if name.None? then Err(MissingName)
      else if smartNames.None? then Err(MissingSmartNames)
      else
        var n := name.value;
        var env := if environment.Some? then environment.value else DevelopmentEnvironment;
        Ok(R.BuiltIns(n, BuilderForms(n, smartNames.value), env, enableTimestamps, enableUuid, now, version)
           + R.StrValues(customVariables))
    }

    /** `build`: the built-in keys, then the custom variables inserted over them. */
    method Build(now: R.Stamps, version: string) returns (r: Result<Object, TemplateDataError>)
      ensures r == Data(now, version)
    {
      if name.None? {
        return Err(MissingName);
      }
      if smartNames.None? {
        return Err(MissingSmartNames);
      }
      var n := name.value;
      var snake := S.ToSnakeCase(n);
      var kebab := S.ToKebabCase(n);
      var forms := R.NameForms(S.ToPascalCase(n), snake, kebab, S.ToCamelCase(n), Upper(n), smartNames.value);
      var env := if environment.Some? then environment.value else DevelopmentEnvironment;
      var base := R.BuiltIns(n, forms, env, enableTimestamps, enableUuid, now, version);
      var data := R.InsertVariables(base, customVariables);
      r := Ok(data);
    }
  }

  // ---------------------------------------------------------------- properties of `build`

  /** Without `with_name` the build fails with `MissingName`; a valid builder never fails otherwise. */
  lemma BuildFails(b: TemplateDataBuilder, now: R.Stamps, version: string)
    ensures b.name.None? ==> b.Data(now, version) == Err(MissingName)
    ensures b.Valid() ==> (b.Data(now, version).Ok? <==> b.name.Some?)
  {
  }

  /** The custom variables win over the built-in keys; the other built-in keys keep their values. */
  lemma CustomVariablesLast(b: TemplateDataBuilder, now: R.Stamps, version: string, k: string)
    requires b.name.Some? && b.smartNames.Some?
    ensures var data := b.Data(now, version).value;
      var env := if b.environment.Some? then b.environment.value else DevelopmentEnvironment;
      var base := R.BuiltIns(b.name.value, BuilderForms(b.name.value, b.smartNames.value), env,
                             b.enableTimestamps, b.enableUuid, now, version);
      && (k in b.customVariables ==> k in data && data[k] == Str(b.customVariables[k]))
      && (k !in b.customVariables ==> (k in data <==> k in base) && (k in base ==> data[k] == base[k]))
  {
  }

  /** The environment is the one given, else "development", unless a custom variable overrides it. */
  lemma EnvironmentDefault(b: TemplateDataBuilder, now: R.Stamps, version: string)
    requires b.name.Some? && b.smartNames.Some? && "environment" !in b.customVariables
    ensures var data := b.Data(now, version).value;
      "environment" in data
      && data["environment"] == Str(if b.environment.Some? then b.environment.value else DevelopmentEnvironment)
  {
    var env := if b.environment.Some? then b.environment.value else DevelopmentEnvironment;
    var base := R.BuiltIns(b.name.value, BuilderForms(b.name.value, b.smartNames.value), env,
                           b.enableTimestamps, b.enableUuid, now, version);
    assert base["environment"] == Str(env);
    CustomVariablesLast(b, now, version, "environment");
  }

  /** With timestamps disabled the time keys are empty, and with UUIDs disabled the UUID keys, unless overridden. */
  lemma StampsDisabled(b: TemplateDataBuilder, now: R.Stamps, version: string, k: string)
    requires b.name.Some? && b.smartNames.Some? && k !in b.customVariables
    requires (!b.enableTimestamps && k in R.TimestampKeys) || (!b.enableUuid && k in R.UuidKeys)
    ensures var data := b.Data(now, version).value;
      k in data && data[k] == Str("")
  {
    var n := b.name.value;
    var env := if b.environment.Some? then b.environment.value else DevelopmentEnvironment;
    var forms := BuilderForms(n, b.smartNames.value);
    CustomVariablesLast(b, now, version, k);
    if !b.enableTimestamps && k in R.TimestampKeys {
      R.TimestampsDisabled(n, forms, env, b.enableUuid, now, version, k);
    } else {
      R.UuidDisabled(n, forms, env, b.enableTimestamps, now, version, k);
    }
  }

  /** The name keys of a valid builder are the `SmartNaming` forms of the recorded name, unless overridden. */
  lemma NameKeys(b: TemplateDataBuilder, now: R.Stamps, version: string)
    requires b.Valid() && b.name.Some?
    requires "pascal_name" !in b.customVariables && "snake_name" !in b.customVariables
    requires "hook_name" !in b.customVariables && "context_name" !in b.customVariables
    ensures var n := b.name.value;
      var data := b.Data(now, version).value;
      && "pascal_name" in data && data["pascal_name"] == Str(S.ToPascalCase(n))
      && "snake_name" in data && data["snake_name"] == Str(S.SnakeCase(n))
      && "hook_name" in data && data["hook_name"] == Str(S.ProcessSmartNames(n).hook)
      && "context_name" in data && data["context_name"] == Str(S.ProcessSmartNames(n).context)
  {
    var n := b.name.value;
    var env := if b.environment.Some? then b.environment.value else DevelopmentEnvironment;
    R.NameFormKeys(n, BuilderForms(n, b.smartNames.value), env, b.enableTimestamps, b.enableUuid, now, version);
    CustomVariablesLast(b, now, version, "pascal_name");
    CustomVariablesLast(b, now, version, "snake_name");
    CustomVariablesLast(b, now, version, "hook_name");
    CustomVariablesLast(b, now, version, "context_name");
  }
}
