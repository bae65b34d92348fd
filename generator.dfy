/**
 * Generation helpers of the refactored engine (src/template_engine/generator.rs):
 * the file-condition language of `[files]` and the merge of `--var`
 * variables into a configuration.
 */
module Generator {
  import opened Wrappers
  import opened Strings
  import opened Truthiness
  import opened EngineConfig

  /**
   * `evaluate_file_condition`: after trimming, "always" and "default" hold;
   * `var_X` is the truthiness of `X` when `X` is a variable, and otherwise
   * compares the text after the first '_' of `X`, as written or with '_'
   * read as '-', with the variable named by the text before it; anything
   * else is false.
   */
  function EvaluateFileCondition(condition: string, variables: map<string, string>): (r: bool)
    ensures Trim(condition) == "always" || Trim(condition) == "default" ==> r
    ensures r ==> Trim(condition) == "always" || Trim(condition) == "default" || StartsWith(Trim(condition), "var_")
  {
    var cond := Trim(condition);
    if cond == "always" || cond == "default" then true
    else if StartsWith(cond, "var_") then
      var varPart := cond[4..];
      if varPart in variables then IsTruthy(variables[varPart])
      else
        match Find(varPart, '_')
        case Some(i) =>
          var varName := varPart[..i];
          var expectedRaw := varPart[i + 1..];
          var expected := Replace(expectedRaw, "_", "-");
          varName in variables && (variables[varName] == expected || variables[varName] == expectedRaw)
        case None => false
    else false
  }

  /** "always" and "default" hold whatever the variables are. */
  lemma AlwaysCondition(condition: string, variables: map<string, string>)
    requires Trim(condition) == "always" || Trim(condition) == "default"
    ensures EvaluateFileCondition(condition, variables)
  {
  }

  /** `var_X` with `X` a variable is that variable's truthiness, false included: no value comparison follows. */
  lemma BooleanCondition(condition: string, x: string, variables: map<string, string>)
    requires Trim(condition) == "var_" + x && x in variables
    ensures EvaluateFileCondition(condition, variables) == IsTruthy(variables[x])
  {
    assert Trim(condition)[4..] == x;
  }

  /** `var_N_V` with `N` free of '_' and `N_V` not a variable holds iff `N` is `V`, or `V` with '_' read as '-'. */
  lemma ValueCondition(condition: string, name: string, value: string, variables: map<string, string>)
    requires Trim(condition) == "var_" + name + "_" + value && '_' !in name
    requires name + "_" + value !in variables
    ensures EvaluateFileCondition(condition, variables)
      <==> name in variables && (variables[name] == value || variables[name] == Replace(value, "_", "-"))
  {
    var cond := Trim(condition);
    var varPart := name + "_" + value;
    assert cond[4..] == varPart;
    assert !(cond == "always" || cond == "default") by {
      assert cond[..4] == "var_";
    }
    assert varPart[|name|] == '_' && varPart[..|name|] == name;
    FindFirst(varPart, '_', |name|);
    assert varPart[|name| + 1..] == value;
  }

  /** `var_X` with `X` neither a variable nor containing '_' is false. */
  lemma UnsplitCondition(condition: string, x: string, variables: map<string, string>)
    requires Trim(condition) == "var_" + x && x !in variables && '_' !in x
    ensures !EvaluateFileCondition(condition, variables)
  {
    var cond := Trim(condition);
    assert cond[4..] == x;
    assert cond[..4] == "var_";
    assert cond != "always" && cond != "default" by {
      assert cond[0] == 'v';
    }
  }

  /** Any other condition is false. */
  lemma UnknownCondition(condition: string, variables: map<string, string>)
    requires Trim(condition) != "always" && Trim(condition) != "default"
    requires !StartsWith(Trim(condition), "var_")
    ensures !EvaluateFileCondition(condition, variables)
  {
  }

  // ---------------------------------------------------------------- merge

  /**
   * `merge_variables`: every `--var` key is inserted over the configuration's
   * variables; nothing else in the configuration changes.
   */
  method MergeVariables(cliVars: map<string, string>, config: TemplateConfig) returns (merged: TemplateConfig)
    ensures merged == config.(variables := merged.variables)
    ensures forall k :: k in cliVars ==> k in merged.variables && merged.variables[k] == cliVars[k]
    ensures forall k :: k !in cliVars ==> (k in merged.variables <==> k in config.variables)
    ensures forall k :: k !in cliVars && k in config.variables ==> merged.variables[k] == config.variables[k]
    ensures merged.variables == config.variables + cliVars
  {
    var variables := config.variables;
    var pending := cliVars.Keys;
    while pending != {}
      invariant pending <= cliVars.Keys
      invariant variables == config.variables + (cliVars - pending)
      decreases pending
    {
      var key :| key in pending;
      variables := variables[key := cliVars[key]];
      pending := pending - {key};
    }
    assert cliVars - {} == cliVars;
    merged := config.(variables := variables);
  }
}
