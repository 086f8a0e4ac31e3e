/** The enumerations of the migration runner. Two members the code relies on but
    the enumeration files do not declare are included: `MigrationTaskStatus.Picked`
    and `ScriptType.Alter`. */
module Enumerations {

  datatype ScriptType = Unknown | Schema | Proc | Alter | Constraint

  datatype MigrationType = None | Up | Down | Both

  datatype MigrationTaskStatus =
    | New
    | Picked
    | Executing
    | Completed
    | Failed
    | Retrying
    | SkippedForWrongSyntax
    | SkippedForSafety

  datatype ThreatType =
    | None
    | DropDatabase
    | XpCmdShellExecution
    | UnionSelectInjection
    | TimeDelayAttack
    | BooleanInjection
    | HexLiteralPayload

  datatype HostEnvironment = Unknown | Development | Testing | Staging | Production

  datatype MigrationRunMode = Incremental | Full

  datatype MigrationStrategy = Strict | Relaxed

  datatype TaskRunnerMode = Strict | Relaxed

  /** One flag of the `ExecutionTarget` bit mask; a mask is a `set<Category>`. */
  datatype Category = Procs | Schemas | Alters | Indexes

  /** `ExecutionTarget.All`. */
  const AllTargets: set<Category> := {Procs, Schemas, Alters, Indexes}

  /** The number each migration type is declared with. */
  function MigrationTypeValue(t: MigrationType): int {
    match t
    case None => 0
    case Up => 1
    case Down => 2
    case Both => 3
  }

  /** The number each runner mode is declared with. */
  function RunnerModeValue(m: TaskRunnerMode): int {
    match m
    case Strict => 0
    case Relaxed => 1
  }

  /** The statuses whose entry fires the completion notification. */
  predicate IsTerminal(s: MigrationTaskStatus) {
    s == Completed || s == Failed || s == SkippedForSafety || s == SkippedForWrongSyntax
  }
}

/** The exceptions the runner throws, as one datatype; `Code` is the `ErrorCode`
    carried by every domain exception. */
module Errors {

  datatype Error =
    | InvalidScript
    | ScriptFileNotFound(path: string)
    | ScriptPathIsDirectory(path: string)
    | ScriptIdMissing
    | ScriptTypeMissing
    | ScriptNameMissing
    | MigrationTypeMissing
    | CreatedAtMissing
    | MalformedAuditEntry
    | MissingFlagValue(flag: string)
    | InvalidFlagValue(flag: string, value: string)
    | UnsupportedFlag(flag: string)
    | MigrationFolderNotFound(folder: string)
    | MigrationFailedInStrictMode
    | MigrationLogWriteFailure
    | MigrationInfrastructure(inner: Error)
    // Exceptions of the .NET library rather than of the runner.
    | ArgumentNull
    | Argument(paramName: string)
    | NullReference
    | DirectoryNotFound(path: string)
    // SqlClient's refusal to use a transaction that has already been committed or rolled back.
    | TransactionCompleted
    | Database(message: string)
  {
    predicate IsDomainError() {
      !(ArgumentNull? || Argument? || NullReference? || DirectoryNotFound? || TransactionCompleted? || Database?)
    }

    function Code(): int {
      match this
      case InvalidScript => 1001
      case ScriptFileNotFound(_) => 1002
      case ScriptPathIsDirectory(_) => 1003
      case ScriptIdMissing => 1004
      case ScriptTypeMissing => 1005
      case ScriptNameMissing => 1006
      case MigrationTypeMissing => 1007
      case CreatedAtMissing => 1008
      case MalformedAuditEntry => 1009
      case MissingFlagValue(_) => 1010
      case InvalidFlagValue(_, _) => 1011
      case UnsupportedFlag(_) => 1012
      case MigrationFolderNotFound(_) => 1013
      case MigrationFailedInStrictMode => 1014
      case MigrationLogWriteFailure => 1015
      case MigrationInfrastructure(_) => 1016
      case _ => 0
    }
  }
}

/** Plain data records: audit entries, threat findings, execution profiles and the
    per-task log that is both reported and persisted as history. */
module Models {
  import opened Wrappers
  import opened Enumerations

  /** A UTC `DateTime` read from an audit line, to the second. */
  datatype Timestamp = Timestamp(year: int, month: int, day: int, hour: int, minute: int, second: int) {
    /** A number that orders timestamps as `DateTime` does: lexicographically by field. */
    function Ticks(): int {
      ((((year * 13 + month) * 32 + day) * 24 + hour) * 60 + minute) * 60 + second
    }
  }

  datatype Audit = Audit(author: string, timeStamp: Timestamp)

  datatype ThreatInfo = ThreatInfo(line: int, threatType: ThreatType)

  /** A non-null `Threat`: its insights are never empty. */
  datatype Threat = Threat(insights: seq<ThreatInfo>)

  datatype ExecutionProfile = ExecutionProfile(duration: int, memoryUsage: int)

  /** `MigrationLog`; `ranAt` is a clock reading, `profile` is null until the profiler attaches one. */
  datatype MigrationLog = MigrationLog(
    id: string,
    name: string,
    hash: string,
    absolutePath: string,
    status: MigrationTaskStatus,
    retryCount: int,
    profile: Option<ExecutionProfile>,
    migrationType: MigrationType,
    ranAt: Option<int>)

  /** The parameters of `usp_AddMigrationHistory`. */
  datatype HistoryEntry = HistoryEntry(id: string, scriptName: string, scriptHash: string, typeByte: int)
}
