/**
 * Conditional generation in the original engine (src/template_engine.rs):
 * which files of a template directory `generate` renders after merging the
 * `--var` variables.  The engine's own `evaluate_file_condition` is written
 * out here and proved to decide every condition as the refactored engine's
 * `Generator.EvaluateFileCondition` does; its boolean flags are those of
 * `BooleanFlags`, whose loop is the same in both files.
 *
 * The directory walk is an input: the list of files found under the
 * template directory, each given by its path relative to that directory as
 * a sequence of components, in the order the walk yields them.
 */
module LegacyGenerate {
  import opened Strings
  import opened Truthiness
  import opened EngineConfig
  import Generator

  // ---------------------------------------------------------------- file conditions

  /**
   * The engine's `evaluate_file_condition`: the variable is tested with
   * `contains_key` before it is read, its truthiness is spelled out inline,
   * and a value test on a missing variable is false (`map_or(false, ..)`).
   */
  function EvaluateFileCondition(condition: string, variables: map<string, string>): (r: bool)
    ensures r == Generator.EvaluateFileCondition(condition, variables)
  {
    var cond := Trim(condition);
    if cond == "always" || cond == "default" then true
    else if StartsWith(cond, "var_") then
      var varPart := cond[4..];
      if varPart in variables then
        var l := Lower(variables[varPart]);
        var truthy := l == "true" || l == "yes" || l == "1";
        assert truthy == IsTruthy(variables[varPart]);
        truthy
      else if Find(varPart, '_').Some? then
        var i := Find(varPart, '_').value;
        var varName := varPart[..i];
        var expectedRaw := varPart[i + 1..];
        var expected := Replace(expectedRaw, "_", "-");
        if varName in variables then variables[varName] == expected || variables[varName] == expectedRaw
        else false
      else
        assert Find(varPart, '_').None?;
        false
    else
      assert !StartsWith(Trim(condition), "var_");
      false
  }

  // ---------------------------------------------------------------- which files are generated

  /** The key a file is looked up under in `[files]`: its relative path with '\\' turned into '/'. */
  function FilterKey(relative: seq<string>): string
  {
    Replace(Join(relative, "/"), "\\", "/")
  }

  /** The decision `process_template_directory` takes for one file of the walk. */
  function ShouldGenerate(relative: seq<string>, config: TemplateConfig): (r: bool)
    requires relative != []
    ensures r <==> relative[|relative| - 1] != ".conf"
                   && (FilterKey(relative) in config.fileFilters
                       ==> EvaluateFileCondition(config.fileFilters[FilterKey(relative)], config.variables))
  {
    if relative[|relative| - 1] == ".conf" then false
    else if config.fileFilters != map[] then
      var filename := FilterKey(relative);
      if filename in config.fileFilters then EvaluateFileCondition(config.fileFilters[filename], config.variables)
      else true
    else true
  }

  /** The files rendered, in walk order. */
  function Selected(files: seq<seq<string>>, config: TemplateConfig): seq<seq<string>>
    requires forall i :: 0 <= i < |files| ==> files[i] != []
    decreases |files|
  {
    if files == [] then []
    else
      var last := files[|files| - 1];
      Selected(files[..|files| - 1], config) + (if ShouldGenerate(last, config) then [last] else [])
  }

  /** The walk loop of `process_template_directory`: `.conf` skipped, the filters consulted, the rest queued. */
  method ProcessTemplateDirectory(files: seq<seq<string>>, config: TemplateConfig) returns (tasks: seq<seq<string>>)
    requires forall i :: 0 <= i < |files| ==> files[i] != []
    ensures tasks == Selected(files, config)
  {
    tasks := [];
    for i := 0 to |files|
      invariant tasks == Selected(files[..i], config)
    {
      var relative := files[i];
      assert files[..i + 1][..i] == files[..i];
      if relative[|relative| - 1] == ".conf" {
        continue;
      }
      var shouldGenerate := true;
      if config.fileFilters != map[] {
        var filename := FilterKey(relative);
        if filename in config.fileFilters {
          shouldGenerate := EvaluateFileCondition(config.fileFilters[filename], config.variables);
        }
      }
      if !shouldGenerate {
        continue;
      }
      tasks := tasks + [relative];
    }
    assert files[..|files|] == files;
  }

  /**
   * The part of `generate` that decides what is rendered: the `--var`
   * variables are inserted over the template's defaults, then the files
   * are filtered with the merged variables.
   */
  method Generate(config: TemplateConfig, cliVars: map<string, string>, files: seq<seq<string>>)
    returns (merged: TemplateConfig, tasks: seq<seq<string>>)
    requires forall i :: 0 <= i < |files| ==> files[i] != []
    ensures merged == config.(variables := config.variables + cliVars)
    ensures tasks == Selected(files, merged)
  {
    merged := Generator.MergeVariables(cliVars, config);
    tasks := ProcessTemplateDirectory(files, merged);
  }

  // ---------------------------------------------------------------- properties

  /** Membership: a file is rendered iff it was walked and the decision says so. */
  lemma {:induction false} SelectedMembers(files: seq<seq<string>>, config: TemplateConfig, f: seq<string>)
    requires forall i :: 0 <= i < |files| ==> files[i] != []
    ensures f in Selected(files, config) <==> f in files && ShouldGenerate(f, config)
    decreases |files|
  {
    if files != [] {
      var init := files[..|files| - 1];
      SelectedMembers(init, config, f);
      assert files == init + [files[|files| - 1]];
    }
  }

  /** `.conf` files are never rendered. */
  lemma ConfNeverGenerated(relative: seq<string>, config: TemplateConfig)
    requires relative != [] && relative[|relative| - 1] == ".conf"
    ensures !ShouldGenerate(relative, config)
  {
  }

  /** Without `[files]` entries, and for any file `[files]` does not list, everything else is rendered. */
  lemma UnfilteredGenerated(relative: seq<string>, config: TemplateConfig)
    requires relative != [] && relative[|relative| - 1] != ".conf"
    requires config.fileFilters == map[] || FilterKey(relative) !in config.fileFilters
    ensures ShouldGenerate(relative, config)
  {
  }

  /** A listed file is rendered iff its condition holds for the merged variables. */
  lemma ListedFollowsCondition(relative: seq<string>, config: TemplateConfig, cliVars: map<string, string>)
    requires relative != [] && relative[|relative| - 1] != ".conf"
    requires FilterKey(relative) in config.fileFilters
    ensures var merged := config.(variables := config.variables + cliVars);
      ShouldGenerate(relative, merged)
      == EvaluateFileCondition(config.fileFilters[FilterKey(relative)], config.variables + cliVars)
  {
  }

  /** A `--var` value overrides the template default the condition would otherwise see. */
  lemma CliOverridesDefault(condition: string, x: string, config: TemplateConfig, cliVars: map<string, string>)
    requires Trim(condition) == "var_" + x && x in cliVars
    ensures EvaluateFileCondition(condition, config.variables + cliVars) == IsTruthy(cliVars[x])
  {
    assert Trim(condition)[4..] == x;
  }
}
