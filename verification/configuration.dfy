/** The two configuration records, their defaults, the fixed batch size, and the
    mapping of `ASPNETCORE_ENVIRONMENT` onto `HostEnvironment`. The environment is
    not a field: it is derived from the variable each time it is read, so every
    consumer takes the variable's value as a parameter. */
module Configurations {
  import opened Wrappers
  import opened Text
  import opened Enumerations

  /** `MigrationEngineConfiguration`. */
  datatype EngineConfig = EngineConfig(
    migrationType: MigrationType,
    taskTimeout: int,
    maxRetryCount: int,
    strategy: MigrationStrategy,
    runMode: MigrationRunMode,
    target: set<Category>)

  const DefaultEngineConfig := EngineConfig(Both, 1, 2, MigrationStrategy.Strict, Incremental, AllTargets)

  /** `TaskRunnerConfiguration`. */
  datatype RunnerConfig = RunnerConfig(
    migration: MigrationType,
    taskTimeout: int,
    maxRetryCount: int,
    mode: TaskRunnerMode,
    executeIncrementally: bool,
    target: set<Category>)

  const DefaultRunnerConfig := RunnerConfig(Both, 1, 2, TaskRunnerMode.Strict, false, AllTargets)

  /** `BatchCount` of both configurations. */
  const BatchCount := 5

  /** The lower-case name an environment is recognised by. */
  function EnvironmentName(e: HostEnvironment): string {
    match e
    case Unknown => "unknown"
    case Development => "development"
    case Testing => "testing"
    case Staging => "staging"
    case Production => "production"
  }

  /** `DetectEnvironment`, given the variable's value (`None` when it is unset). */
  function DetectEnvironment(variable: Option<string>): (e: HostEnvironment)
    ensures variable.None? ==> e == HostEnvironment.Unknown
    ensures e != HostEnvironment.Unknown ==> variable.Some? && Lower(variable.value) == EnvironmentName(e)
  {
    if variable.None? then HostEnvironment.Unknown
    else
      var v := Lower(variable.value);
      if v == "development" then Development
      else if v == "testing" then Testing
      else if v == "staging" then Staging
      else if v == "production" then Production
      else HostEnvironment.Unknown
  }

  lemma {:induction false} LowerIdempotent(s: string)
    ensures Lower(Lower(s)) == Lower(s)
  {
    forall i | 0 <= i < |s| ensures Lower(Lower(s))[i] == Lower(s)[i] {
    }
  }

  lemma LowerKeepsLowerCase(s: string)
    requires forall i :: 0 <= i < |s| ==> !('A' <= s[i] <= 'Z')
    ensures Lower(s) == s
  {
  }

  /** Each environment is recognised by its own name. */
  lemma DetectEnvironmentReadsNames(e: HostEnvironment)
    ensures DetectEnvironment(Some(EnvironmentName(e))) == e
  {
    var n := EnvironmentName(e);
    assert forall i :: 0 <= i < |n| ==> 'a' <= n[i] <= 'z';
    LowerKeepsLowerCase(n);
  }

  /** The variable is read ignoring case. */
  lemma DetectEnvironmentIgnoresCase(s: string)
    ensures DetectEnvironment(Some(s)) == DetectEnvironment(Some(Lower(s)))
  {
    LowerIdempotent(s);
  }

  /** A set variable maps to `Unknown` exactly when, lower-cased, it names no known environment. */
  lemma DetectEnvironmentUnknown(s: string)
    ensures DetectEnvironment(Some(s)) == HostEnvironment.Unknown <==>
              forall e: HostEnvironment :: e != HostEnvironment.Unknown ==> Lower(s) != EnvironmentName(e)
  {
  }
}
