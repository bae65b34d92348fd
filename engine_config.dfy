/**
 * The template configuration records (src/template_engine/config.rs; the
 * original engine in src/template_engine.rs declares the same three records
 * field for field) and their defaults.  The process environment is a
 * parameter: `nodeEnv` is the value of NODE_ENV, `None` when it is unset.
 */
module EngineConfig {
  import opened Wrappers

  datatype TemplateMetadata = TemplateMetadata(name: string, description: string)

  /** What `.conf` declares about one variable: its type, its allowed values, its description. */
  datatype VariableOption = VariableOption(varType: string, possibleValues: seq<string>, description: string)

  datatype TemplateConfig = TemplateConfig(
    variables: map<string, string>,
    environment: string,
    enableTimestamps: bool,
    enableUuid: bool,
    fileFilters: map<string, string>,
    metadata: TemplateMetadata,
    optionsMetadata: map<string, VariableOption>)

  const DevelopmentEnvironment := "development"

  /** `TemplateMetadata::default()`: both strings empty. */
  function DefaultMetadata(): (m: TemplateMetadata)
    ensures m.name == [] && m.description == []
  {
    TemplateMetadata([], [])
  }

  /** `VariableOption::default()`: no type, no values, no description. */
  function DefaultOption(): (o: VariableOption)
    ensures o.varType == [] && o.possibleValues == [] && o.description == []
  {
    VariableOption([], [], [])
  }

  /** `TemplateConfig::default()`: no variables, filters or options; timestamps and UUIDs on. */
  function DefaultConfig(nodeEnv: Option<string>): (c: TemplateConfig)
    ensures c.variables == map[] && c.fileFilters == map[] && c.optionsMetadata == map[]
    ensures c.enableTimestamps && c.enableUuid
    ensures c.metadata == DefaultMetadata()
    ensures nodeEnv.Some? ==> c.environment == nodeEnv.value
    ensures nodeEnv.None? ==> c.environment == DevelopmentEnvironment
  {
    var environment := match nodeEnv case Some(e) => e case None => DevelopmentEnvironment;
    TemplateConfig(map[], environment, true, true, map[], DefaultMetadata(), map[])
  }

  /** The default environment is never empty unless NODE_ENV is set to the empty string. */
  lemma DefaultEnvironmentNonEmpty(nodeEnv: Option<string>)
    requires nodeEnv != Some([])
    ensures DefaultConfig(nodeEnv).environment != []
  {
  }
}
