/** The statements either pipeline sends to the database, in order. */
module Database {
  datatype DbOp =
    | Open
    | Close
    | Begin
    | Commit
    | Rollback
    | Execute(sql: string)
    /** `usp_GetMigrationHistory`. */
    | QueryHistory
    /** `usp_ClearMigrationHistory`. */
    | ClearHistory

  /** The statements of a trace other than script executions: the connection and
      transaction bookkeeping. */
  function Control(ops: seq<DbOp>): (c: seq<DbOp>)
    ensures |c| <= |ops|
    ensures forall i :: 0 <= i < |c| ==> !c[i].Execute?
    decreases |ops|
  {
    if ops == [] then []
    else (if ops[0].Execute? then [] else [ops[0]]) + Control(ops[1..])
  }

  /** Only script executions. */
  predicate Statements(ops: seq<DbOp>) {
    forall i :: 0 <= i < |ops| ==> ops[i].Execute?
  }

  lemma {:induction false} ControlAppend(a: seq<DbOp>, b: seq<DbOp>)
    ensures Control(a + b) == Control(a) + Control(b)
    decreases |a|
  {
    if a == [] {
      assert a + b == b;
    } else {
      assert (a + b)[1..] == a[1..] + b;
      ControlAppend(a[1..], b);
    }
  }

  lemma {:induction false} ControlOfStatements(ops: seq<DbOp>)
    requires Statements(ops)
    ensures Control(ops) == []
    decreases |ops|
  {
    if ops != [] {
      ControlOfStatements(ops[1..]);
    }
  }

  /** A trace without executions is its own bookkeeping. */
  lemma {:induction false} ControlOfBookkeeping(ops: seq<DbOp>)
    requires forall i :: 0 <= i < |ops| ==> !ops[i].Execute?
    ensures Control(ops) == ops
    decreases |ops|
  {
    if ops != [] {
      ControlOfBookkeeping(ops[1..]);
    }
  }
}

/** `MigrationEngine.Start` and the steps it runs: infrastructure setup, the history
    query or clear, `PrepareTasks` (the directory plan, and per folder the partition
    of its scripts into excluded, batched and skipped), and `ExecuteBatches` with its
    per-task retry loop. The database is a trace of statements plus oracles for how
    each statement fares. */
module Engine {
  import opened Wrappers
  import opened Enumerations
  import opened Errors
  import opened Models
  import opened Text
  import opened FileSystems
  import opened ScriptInspector
  import opened Scripts
  import opened Ordering
  import opened BatchProcessor
  import opened Migrations
  import opened Configurations
  import opened Reporting
  import opened Profiling
  import opened Plans
  import opened Database

  /** How one execution attempt of a task fares: whether the script's batch runs,
      whether the transaction is still usable afterwards, whether its commit goes
      through, whether the transaction is still usable once a commit has been
      refused, and the message of what was thrown, if anything was. */
  datatype Attempt = Attempt(executes: bool, usable: bool, commits: bool, usableAfterCommit: bool, message: string)

  /** Everything the engine reads from outside. */
  datatype Host = Host(
    fs: FileSystem,
    /** The T-SQL parser's error list for a script's lines. */
    parser: seq<string> -> seq<ParseError>,
    /** `ASPNETCORE_ENVIRONMENT`. */
    environment: Option<string>,
    /** `Environment.CurrentDirectory`. */
    cwd: string,
    /** The culture's ordering of script names. */
    nameOrder: (string, string) -> bool,
    /** The rows `usp_GetMigrationHistory` returns. */
    history: seq<MigrationLog>,
    /** The clock reading `DateTime.UtcNow` gives. */
    now: int,
    /** What the profiler's timer and memory reading give. */
    measured: ExecutionProfile,
    /** Whether `usp_AddMigrationHistory` succeeds for a script path at a given retry count. */
    historyWritten: (string, int) -> bool,
    /** How the attempt on a script path with a given retry count fares. */
    attempt: (string, int) -> Attempt,
    /** The message of the database exception an infrastructure script's execution or
        commit throws, if any. */
    infrastructure: string -> Option<string>)

  /** The statements issued so far, and what the profiler and the logger hold. */
  datatype State = State(ops: seq<DbOp>, observed: Observed)

  /** Whether the history row of the task's current attempt can be written. */
  predicate Written(host: Host, m: Migration) {
    host.historyWritten(m.script.absolutePath, m.retryCount)
  }

  function Environment(host: Host): HostEnvironment {
    DetectEnvironment(host.environment)
  }

  /** The statuses a logged entry can carry in this engine. */
  predicate Reportable(s: MigrationTaskStatus) {
    s == Completed || s == SkippedForSafety || s == SkippedForWrongSyntax
  }

  /** The observers before the report: the history matches the completed entries,
      every entry is reportable, the configuration is the run's and no report exists. */
  ghost predicate Pending(o: Observed, config: EngineConfig) {
    && Consistent(o)
    && (forall i :: 0 <= i < |o.logger.logs| ==> Reportable(o.logger.logs[i].status))
    && o.logger.configuration == config
    && !o.logger.reportGenerated
    && o.logger.reports == []
  }

  /** The logger's entries grow by entries of status `Completed` only. */
  ghost predicate LogsCompletions(o: Observed, o': Observed) {
    && |o.logger.logs| <= |o'.logger.logs|
    && o'.logger.logs[..|o.logger.logs|] == o.logger.logs
    && (forall i :: |o.logger.logs| <= i < |o'.logger.logs| ==> o'.logger.logs[i].status == Completed)
  }

  // ---------------------------------------------------------------------------
  // Observer facts

  lemma ArchiveKeepsPending(o: Observed, log: MigrationLog, measured: ExecutionProfile, written: bool, config: EngineConfig)
    requires Pending(o, config) && Reportable(log.status)
    requires Archive(o, log, measured, written).Success?
    ensures Pending(Archive(o, log, measured, written).value, config)
  {
    ArchiveKeepsConsistent(o, log, measured, written);
    var o' := Archive(o, log, measured, written).value;
    assert o'.logger.logs[|o.logger.logs|].status == log.status;
  }

  lemma {:induction false} HandleKeepsPending(o: Observed, e: Event, n: nat, measured: ExecutionProfile, written: bool, config: EngineConfig)
    requires Pending(o, config)
    requires e.Finished? ==> Reportable(e.log.status)
    requires Handle(o, e, n, measured, written).Success?
    ensures Pending(Handle(o, e, n, measured, written).value, config)
    ensures e.Finished? && e.log.status == Completed ==> LogsCompletions(o, Handle(o, e, n, measured, written).value)
    decreases n
  {
    if n > 0 {
      HandleKeepsPending(o, e, n - 1, measured, written, config);
      var o' := Handle(o, e, n - 1, measured, written).value;
      if e.Finished? {
        ArchiveKeepsPending(o', e.log, measured, written, config);
      }
    }
  }

  lemma {:induction false} DeliverKeepsPending(o: Observed, events: seq<Event>, n: nat, measured: ExecutionProfile, written: bool, config: EngineConfig)
    requires Pending(o, config)
    requires forall i :: 0 <= i < |events| && events[i].Finished? ==> Reportable(events[i].log.status)
    requires Deliver(o, events, n, measured, written).Success?
    ensures Pending(Deliver(o, events, n, measured, written).value, config)
    ensures (forall i :: 0 <= i < |events| ==> events[i].Finished? && events[i].log.status == Completed) ==>
              LogsCompletions(o, Deliver(o, events, n, measured, written).value)
    decreases |events|
  {
    if events != [] {
      HandleKeepsPending(o, events[0], n, measured, written, config);
      var o' := Handle(o, events[0], n, measured, written).value;
      DeliverKeepsPending(o', events[1..], n, measured, written, config);
      if forall i :: 0 <= i < |events| ==> events[i].Finished? && events[i].log.status == Completed {
        assert forall i :: 0 <= i < |events[1..]| ==> events[1..][i] == events[i + 1];
        LogsCompletionsTrans(o, o', Deliver(o', events[1..], n, measured, written).value);
      }
    } else {
      assert o.logger.logs[..|o.logger.logs|] == o.logger.logs;
    }
  }

  lemma LogsCompletionsTrans(a: Observed, b: Observed, c: Observed)
    requires LogsCompletions(a, b) && LogsCompletions(b, c)
    ensures LogsCompletions(a, c)
  {
    assert c.logger.logs[..|a.logger.logs|] == c.logger.logs[..|b.logger.logs|][..|a.logger.logs|];
  }

  lemma LogsCompletionsRefl(a: Observed, b: Observed)
    requires a.logger.logs == b.logger.logs
    ensures LogsCompletions(a, b)
  {
    assert b.logger.logs[..|a.logger.logs|] == a.logger.logs;
  }

  // ---------------------------------------------------------------------------
  // Infrastructure

  /** The statements of an infrastructure script that runs and commits. */
  function Committed(host: Host, files: seq<string>): seq<DbOp>
    decreases |files|
  {
    if files == [] then [] else [Begin, Execute(Body(host.fs, files[0])), Commit] + Committed(host, files[1..])
  }

  /** The index of the first infrastructure script that fails, or the count if none does. */
  function FirstFailing(host: Host, files: seq<string>): (k: nat)
    ensures k <= |files|
    ensures forall i :: 0 <= i < k ==> host.infrastructure(files[i]).None?
    ensures k < |files| ==> host.infrastructure(files[k]).Some?
    decreases |files|
  {
    if files == [] || host.infrastructure(files[0]).Some? then 0 else 1 + FirstFailing(host, files[1..])
  }

  /** The exception `SetupInfrastructure` throws when an infrastructure script fails:
      a `MigrationInfrastructureException` wrapping that script's database exception. */
  function InfrastructureFailure(host: Host, file: string): Error
    requires host.infrastructure(file).Some?
  {
    MigrationInfrastructure(Database(host.infrastructure(file).value))
  }

  /** Each infrastructure script in its own transaction; the first failure rolls back and stops. */
  function RunInfrastructure(host: Host, files: seq<string>): (r: (seq<DbOp>, Option<Error>))
    ensures r.1.None? <==> FirstFailing(host, files) == |files|
    ensures r.1.Some? ==> r.1 == Some(InfrastructureFailure(host, files[FirstFailing(host, files)]))
    ensures Committed(host, files[..FirstFailing(host, files)]) <= r.0
    decreases |files|
  {
    if files == [] then ([], Option.None)
    else if host.infrastructure(files[0]).None? then
      var (ops, failure) := RunInfrastructure(host, files[1..]);
      assert files[..FirstFailing(host, files)][1..] == files[1..][..FirstFailing(host, files[1..])];
      ([Begin, Execute(Body(host.fs, files[0])), Commit] + ops, failure)
    else ([Begin, Execute(Body(host.fs, files[0])), Rollback], Some(InfrastructureFailure(host, files[0])))
  }

  /** With no failing script, every script runs and commits, in order. */
  lemma {:induction false} InfrastructureAllCommit(host: Host, files: seq<string>)
    requires FirstFailing(host, files) == |files|
    ensures RunInfrastructure(host, files) == (Committed(host, files), Option.None)
    decreases |files|
  {
    if files != [] {
      InfrastructureAllCommit(host, files[1..]);
    }
  }

  /** Every script before the first failing one runs and commits; that one is rolled
      back and reported, and nothing after it runs. */
  lemma {:induction false} InfrastructureStopsAtFirstFailure(host: Host, files: seq<string>)
    requires FirstFailing(host, files) < |files|
    ensures var k := FirstFailing(host, files);
            RunInfrastructure(host, files) ==
              (Committed(host, files[..k]) + [Begin, Execute(Body(host.fs, files[k])), Rollback], Some(InfrastructureFailure(host, files[k])))
    decreases |files|
  {
    var k := FirstFailing(host, files);
    if k == 0 {
      assert files[..0] == [] && Committed(host, []) == [];
      assert host.infrastructure(files[0]).Some?;
      var tail := [Begin, Execute(Body(host.fs, files[0])), Rollback];
      assert [] + tail == tail;
    } else {
      var later := files[1..];
      assert host.infrastructure(files[0]).None? && k - 1 == FirstFailing(host, later);
      InfrastructureStopsAtFirstFailure(host, later);
      var head := [Begin, Execute(Body(host.fs, files[0])), Commit];
      var rest := RunInfrastructure(host, later);
      assert RunInfrastructure(host, files) == (head + rest.0, rest.1);
      assert files[k] == later[k - 1];
      assert files[..k][1..] == later[..k - 1];
      var done := Committed(host, later[..k - 1]);
      assert Committed(host, files[..k]) == head + done;
      var tail := [Begin, Execute(Body(host.fs, files[k])), Rollback];
      assert rest.0 == done + tail;
      assert rest.1 == Some(InfrastructureFailure(host, files[k]));
      assert head + (done + tail) == (head + done) + tail;
    }
  }

  function InfrastructureDirectory(host: Host): string {
    host.cwd + "/Scripts/Infrastructure"
  }

  /** `SetupInfrastructure`: a missing directory fails before any statement. */
  function SetupInfrastructure(host: Host): (r: (seq<DbOp>, Option<Error>))
    ensures !host.fs.dirExists(InfrastructureDirectory(host)) ==>
              r == ([], Some(MigrationInfrastructure(DirectoryNotFound(InfrastructureDirectory(host)))))
    ensures host.fs.dirExists(InfrastructureDirectory(host)) ==>
              r == RunInfrastructure(host, host.fs.sqlFiles(InfrastructureDirectory(host)))
  {
    var directory := InfrastructureDirectory(host);
    if !host.fs.dirExists(directory) then ([], Some(MigrationInfrastructure(DirectoryNotFound(directory))))
    else RunInfrastructure(host, host.fs.sqlFiles(directory))
  }

  // ---------------------------------------------------------------------------
  // Intake

  /** A history record names the task when id, migration type and hash all match. */
  predicate Matches(log: MigrationLog, m: Migration) {
    && log.id == m.script.metadata.id
    && log.migrationType == m.script.metadata.migrationType
    && m.script.metadata.hash == Some(log.hash)
  }

  /** Whether the engine leaves the task out as already applied. */
  predicate Excluded(config: EngineConfig, history: seq<MigrationLog>, m: Migration) {
    config.runMode == Incremental && exists log :: log in history && Matches(log, m)
  }

  predicate Eligible(m: Migration) {
    m.script.IsSafe() && m.script.HasCorrectSyntax()
  }

  /** The loop can only finish on a script with some text in it. */
  predicate Runnable(host: Host, m: Migration) {
    !IsBlank(Body(host.fs, m.script.absolutePath))
  }

  /** `new Migration(new Script(file))`. */
  function Load(host: Host, file: string): (r: Result<Migration, Error>)
    ensures r.Failure? <==> NewScript(host.fs, file, host.parser).Failure?
    ensures r.Failure? ==> r.error == NewScript(host.fs, file, host.parser).error
    ensures r.Success? ==>
              && Runnable(host, r.value)
              && r.value.status == New && r.value.retryCount == 0 && r.value.subscriptions == 0
              && r.value.script.absolutePath == file
  {
    var script :- NewScript(host.fs, file, host.parser);
    BodyNotBlank(host.fs, file, host.parser);
    NewMigration(Some(script), host.fs)
  }

  /** A status change and the delivery of what it raises to the task's handlers. */
  function Mark(host: Host, m: Migration, s: MigrationTaskStatus, o: Observed): (r: (Migration, Result<Observed, Error>))
    ensures r.0.status == s && r.0.script == m.script && r.0.subscriptions == m.subscriptions
    ensures r.1.Failure? <==> s != m.status && s == Completed && m.subscriptions > 0 && !Written(host, m)
  {
    var (m', events) := SetStatus(m, s, host.now);
    HandleFinishedSucceeds(o, Snapshot(m'), m'.subscriptions, host.measured, Written(host, m'));
    assert |events| == 1 ==> events[1..] == [];
    (m', Deliver(o, events, m'.subscriptions, host.measured, Written(host, m')))
  }

  /** The skip statuses a script earns: the syntax one first, then the safety one. */
  function SkipStatuses(m: Migration): seq<MigrationTaskStatus> {
    (if !m.script.HasCorrectSyntax() then [SkippedForWrongSyntax] else [])
    + (if !m.script.IsSafe() then [SkippedForSafety] else [])
  }

  /** Marking an ineligible task: wrong syntax first, then unsafe, which overrides it. */
  function Skip(host: Host, m: Migration, o: Observed): (r: (Migration, Result<Observed, Error>))
    ensures r.1.Success?
    ensures r.0.script == m.script && r.0.subscriptions == m.subscriptions
    ensures r.0.status ==
              if !m.script.IsSafe() then SkippedForSafety
              else if !m.script.HasCorrectSyntax() then SkippedForWrongSyntax
              else m.status
  {
    var (m1, r1) := if !m.script.HasCorrectSyntax() then Mark(host, m, SkippedForWrongSyntax, o) else (m, Success(o));
    if r1.Failure? || m1.script.IsSafe() then (m1, r1)
    else Mark(host, m1, SkippedForSafety, r1.value)
  }

  /** What `GetTasks` has gathered from the files read so far, and the error that stopped it, if any. */
  datatype Intake = Intake(tasks: seq<Migration>, observed: Observed, error: Option<Error>)

  /** One file of `GetTasks`: excluded, batched, or registered and skipped. */
  function Admit(host: Host, config: EngineConfig, history: seq<MigrationLog>, file: string, acc: Intake): (r: Intake)
    requires acc.error.None?
    ensures (forall m :: m in acc.tasks ==> Runnable(host, m)) ==> forall m :: m in r.tasks ==> Runnable(host, m)
  {
    match Load(host, file)
    case Failure(e) => acc.(error := Some(e))
    case Success(m) =>
      if Excluded(config, history, m) then acc
      else
        var m := Register(m);
        if Eligible(m) then acc.(tasks := acc.tasks + [m])
        else
          match Skip(host, m, acc.observed).1
          case Failure(e) => acc.(error := Some(e))
          case Success(o) => acc.(observed := o)
  }

  function AdmitAll(host: Host, config: EngineConfig, history: seq<MigrationLog>, files: seq<string>, o: Observed): (r: Intake)
    ensures forall m :: m in r.tasks ==> Runnable(host, m)
    decreases |files|
  {
    if files == [] then Intake([], o, Option.None)
    else
      var acc := AdmitAll(host, config, history, files[..|files| - 1], o);
      if acc.error.Some? then acc else Admit(host, config, history, files[|files| - 1], acc)
  }

  /** The name batches are sorted by. */
  function TaskName(m: Migration): string {
    m.script.metadata.name
  }

  /** The queued batches, what the observers hold, and the error that stopped the preparation, if any. */
  datatype Gathered = Gathered(queue: seq<seq<Migration>>, observed: Observed, error: Option<Error>)

  function FolderOf(host: Host, f: Folder): string {
    FolderPath(host.cwd, f)
  }

  /** `GetTasks` for one folder. */
  function GetTasks(host: Host, config: EngineConfig, history: seq<MigrationLog>, folder: Folder, o: Observed): (r: Gathered)
    requires TotalPreorder(host.nameOrder)
    ensures forall m :: m in Flatten(r.queue) ==> Runnable(host, m)
  {
    var path := FolderOf(host, folder);
    if !host.fs.dirExists(path) then Gathered([], o, Some(MigrationFolderNotFound(path)))
    else
      var intake := AdmitAll(host, config, history, host.fs.sqlFiles(path), o);
      if intake.error.Some? then Gathered([], intake.observed, intake.error)
      else
        var batches := Batchify(intake.tasks, BatchCount, Some(TaskName), SortAscending(folder), host.nameOrder).value;
        assert forall m :: m in Flatten(batches) ==> m in multiset(Flatten(batches));
        Gathered(batches, intake.observed, Option.None)
  }

  /** `PrepareTasks`: the folders of the plan in order, each folder's batches queued after the previous ones. */
  function PrepareTasks(host: Host, config: EngineConfig, history: seq<MigrationLog>, plan: seq<Folder>, o: Observed): (r: Gathered)
    requires TotalPreorder(host.nameOrder)
    ensures forall m :: m in Flatten(r.queue) ==> Runnable(host, m)
    decreases |plan|
  {
    if plan == [] then Gathered([], o, Option.None)
    else
      var g := PrepareTasks(host, config, history, plan[..|plan| - 1], o);
      if g.error.Some? then g
      else
        var next := GetTasks(host, config, history, plan[|plan| - 1], g.observed);
        FlattenAppend(g.queue, next.queue);
        Gathered(g.queue + next.queue, next.observed, next.error)
  }

  // ---------------------------------------------------------------------------
  // Execution

  /** The catch block of an attempt: roll back when the transaction is `usable`,
      mark the task for a retry, count the retry. */
  function Recover(host: Host, config: EngineConfig, m: Migration, st: State, a: Attempt, usable: bool): (r: (Migration, State))
    requires m.retryCount < config.maxRetryCount
    ensures r.0.status == Retrying && r.0.retryCount == m.retryCount + 1 && r.0.error == Some(a.message)
    ensures r.0.script == m.script && r.0.subscriptions == m.subscriptions
    ensures r.0.ranAt == m.ranAt
    ensures r.1 == st.(ops := st.ops + (if usable then [Rollback] else []))
  {
    var status := if m.retryCount < config.maxRetryCount then Retrying else Failed;
    var (m', events) := SetStatus(m, status, host.now);
    assert events == [];
    (m'.(error := Some(a.message), retryCount := m.retryCount + 1), st.(ops := st.ops + (if usable then [Rollback] else [])))
  }

  /** One pass of the retry loop's body. */
  function Try(host: Host, config: EngineConfig, m: Migration, st: State): (r: (Migration, State))
    requires m.retryCount < config.maxRetryCount
    requires Runnable(host, m)
    ensures r.0.script == m.script && r.0.subscriptions == m.subscriptions
    ensures st.ops <= r.1.ops
    ensures || (r.0.status == Completed && r.0.retryCount == m.retryCount)
            || (r.0.status == Retrying && r.0.retryCount == m.retryCount + 1)
  {
    var a := host.attempt(m.script.absolutePath, m.retryCount);
    var (m1, _) := SetStatus(m, Executing, host.now);
    var ops := st.ops + [Begin, Execute(Body(host.fs, m.script.absolutePath))];
    if !a.executes then Recover(host, config, m1, st.(ops := ops), a, a.usable)
    else
      var (m2, events) := SetStatus(m1, Completed, host.now);
      match Deliver(st.observed, events, m2.subscriptions, host.measured, Written(host, m2))
      case Failure(_) => Recover(host, config, m2, st.(ops := ops), a, a.usable)
      case Success(o) =>
        if !a.usable then (m2, State(ops, o))
        else if a.commits then (m2, State(ops + [Commit], o))
        else Recover(host, config, m2, State(ops + [Commit], o), a, a.usableAfterCommit)
  }

  /** The retry loop: attempts while the task is not completed and has retries left. */
  function RunTask(host: Host, config: EngineConfig, m: Migration, st: State): (r: (Migration, State))
    requires Runnable(host, m)
    ensures r.0.script == m.script && r.0.subscriptions == m.subscriptions
    ensures m.retryCount <= r.0.retryCount
    ensures m.retryCount <= config.maxRetryCount ==> r.0.retryCount <= config.maxRetryCount
    ensures r.0.status == Completed || r.0.retryCount >= config.maxRetryCount
    ensures m.status != Failed ==> r.0.status != Failed
    ensures st.ops <= r.1.ops
    decreases config.maxRetryCount - m.retryCount
  {
    if m.status == Completed || m.retryCount >= config.maxRetryCount then (m, st)
    else
      var (m', st') := Try(host, config, m, st);
      if m'.status == Completed then (m', st') else RunTask(host, config, m', st')
  }

  /** How a queued task ends: the same script, not `Failed`, and either completed
      or out of retries, having used no more retries than allowed. */
  ghost predicate Finishes(config: EngineConfig, m: Migration, r: Migration) {
    && r.script == m.script
    && (m.status != Failed ==> r.status != Failed)
    && (r.status == Completed || r.retryCount >= config.maxRetryCount)
    && (0 <= m.retryCount <= config.maxRetryCount ==> m.retryCount <= r.retryCount <= config.maxRetryCount)
  }

  /** Every task of `src` finishes as the task at the same position of `done`. */
  ghost predicate FinishAll(config: EngineConfig, src: seq<Migration>, done: seq<Migration>) {
    |done| == |src| && forall i :: 0 <= i < |src| ==> Finishes(config, src[i], done[i])
  }

  lemma FinishAllAppend(config: EngineConfig, a: seq<Migration>, b: seq<Migration>, da: seq<Migration>, db: seq<Migration>)
    requires FinishAll(config, a, da) && FinishAll(config, b, db)
    ensures FinishAll(config, a + b, da + db)
  {
    forall i | 0 <= i < |a + b|
      ensures Finishes(config, (a + b)[i], (da + db)[i])
    {
      if i >= |a| {
        assert (a + b)[i] == b[i - |a|] && (da + db)[i] == db[i - |a|];
      }
    }
  }

  /** Picking a task: its status becomes `Picked`, and the start handlers touch neither the log nor the history. */
  function Pick(host: Host, m: Migration, o: Observed): (r: (Migration, Observed))
    ensures r.0 == m.(status := Picked)
    ensures r.1.logger == o.logger && r.1.history == o.history
  {
    var (m', events) := SetStatus(m, Picked, host.now);
    assert events == [] || events == [Started];
    (m', Deliver(o, events, m'.subscriptions, host.measured, Written(host, m')).value)
  }

  /** A runnable task, picked and then run, finishes as that task, and only statements are appended. */
  lemma PickThenRun(host: Host, config: EngineConfig, m0: Migration, st: State)
    requires Runnable(host, m0)
    ensures var (m, o) := Pick(host, m0, st.observed);
            && Runnable(host, m)
            && var r := RunTask(host, config, m, st.(observed := o));
               Finishes(config, m0, r.0) && st.ops <= r.1.ops
  {
  }

  /** Each task of a batch, in order: picked, then run. */
  function RunBatch(host: Host, config: EngineConfig, batch: seq<Migration>, st: State): (r: (seq<Migration>, State))
    requires forall m :: m in batch ==> Runnable(host, m)
    ensures st.ops <= r.1.ops
    ensures FinishAll(config, batch, r.0)
    decreases |batch|
  {
    if batch == [] then ([], st)
    else
      var (m, o) := Pick(host, batch[0], st.observed);
      assert batch[0] in batch;
      PickThenRun(host, config, batch[0], st);
      var (done, st1) := RunTask(host, config, m, st.(observed := o));
      assert forall x :: x in batch[1..] ==> x in batch;
      assert FinishAll(config, [batch[0]], [done]);
      var (rest, st2) := RunBatch(host, config, batch[1..], st1);
      FinishAllAppend(config, [batch[0]], batch[1..], [done], rest);
      assert [batch[0]] + batch[1..] == batch;
      ([done] + rest, st2)
  }

  function RunQueue(host: Host, config: EngineConfig, queue: seq<seq<Migration>>, st: State): (r: (seq<Migration>, State))
    requires forall m :: m in Flatten(queue) ==> Runnable(host, m)
    ensures st.ops <= r.1.ops
    ensures FinishAll(config, Flatten(queue), r.0)
    decreases |queue|
  {
    if queue == [] then ([], st)
    else
      FlattenSplit(queue);
      var (done, st1) := RunBatch(host, config, queue[0], st);
      var (rest, st2) := RunQueue(host, config, queue[1..], st1);
      FinishAllAppend(config, queue[0], Flatten(queue[1..]), done, rest);
      (done + rest, st2)
  }

  /** `ExecuteBatches`: the connection opened, the queue drained in order, the connection closed. */
  function ExecuteBatches(host: Host, config: EngineConfig, queue: seq<seq<Migration>>, st: State): (r: (seq<Migration>, State))
    requires forall m :: m in Flatten(queue) ==> Runnable(host, m)
    ensures |r.0| == |Flatten(queue)|
    ensures forall i :: 0 <= i < |r.0| ==> Finishes(config, Flatten(queue)[i], r.0[i])
    ensures |r.1.ops| >= |st.ops| + 2 && r.1.ops[..|st.ops| + 1] == st.ops + [Open] && r.1.ops[|r.1.ops| - 1] == Close
  {
    var (done, st1) := RunQueue(host, config, queue, st.(ops := st.ops + [Open]));
    (done, st1.(ops := st1.ops + [Close]))
  }

  // ---------------------------------------------------------------------------
  // Start

  /** The outcome of `Start`: the statements issued, the observers, the tasks as they
      ended, and the error rethrown, if any. */
  datatype Run = Run(ops: seq<DbOp>, observed: Observed, finished: seq<Migration>, error: Option<Error>)

  /** The history statement of a run mode. */
  function HistoryStatement(mode: MigrationRunMode): DbOp {
    if mode == Incremental then QueryHistory else ClearHistory
  }

  /** The catch block of `Start`: a report, then the error again. */
  function Abort(ops: seq<DbOp>, o: Observed, e: Error): Run {
    Run(ops, o.(logger := GenerateReport(o.logger)), [], Some(e))
  }

  /** `Start`: the infrastructure, then the history statement, the tasks of the plan
      and their execution; an error at any step is reported and rethrown with no task
      counted as finished. */
  function Start(host: Host, config: EngineConfig): (r: Run)
    requires TotalPreorder(host.nameOrder)
    ensures SetupInfrastructure(host).1.Some? ==>
              r.error == SetupInfrastructure(host).1 && r.ops == SetupInfrastructure(host).0 && r.finished == []
    ensures r.error.Some? ==> r.finished == [] && r.observed.logger.reportGenerated
  {
    var o := Unobserved.(logger := LogConfiguration(NewLogger, config));
    var (setup, failure) := SetupInfrastructure(host);
    if failure.Some? then Abort(setup, o, failure.value)
    else
      var ops := setup + [HistoryStatement(config.runMode)];
      var history := if config.runMode == Incremental then host.history else [];
      var g := PrepareTasks(host, config, history, EnginePlan(config.migrationType, Environment(host), config.target), o);
      if g.error.Some? then Abort(ops, g.observed, g.error.value)
      else
        var (done, st) := ExecuteBatches(host, config, g.queue, State(ops, g.observed));
        var o' := if Environment(host) == Development then st.observed.(logger := GenerateReport(st.observed.logger)) else st.observed;
        Run(st.ops, o', done, Option.None)
  }
}

/** What the engine's steps promise: the partition of a folder's scripts, the
    outcome of the retry loop, and the run-wide bookkeeping. */
module EngineProperties {
  import opened Wrappers
  import opened Enumerations
  import opened Errors
  import opened Models
  import opened Scripts
  import opened Migrations
  import opened Configurations
  import opened Reporting
  import opened Profiling
  import opened Ordering
  import opened BatchProcessor
  import opened Plans
  import opened Database
  import opened Engine

  lemma {:induction false} HandleSucceedsUnlessCompleted(o: Observed, e: Event, n: nat, measured: ExecutionProfile, written: bool)
    requires e.Finished? && e.log.status != Completed
    ensures Handle(o, e, n, measured, written).Success?
    decreases n
  {
    if n > 0 {
      HandleSucceedsUnlessCompleted(o, e, n - 1, measured, written);
    }
  }

  /** A skip status, once per handler: the entry is logged and nothing fails. */
  lemma MarkSkip(host: Host, m: Migration, s: MigrationTaskStatus, o: Observed, config: EngineConfig)
    requires s == SkippedForSafety || s == SkippedForWrongSyntax
    requires Pending(o, config)
    ensures Mark(host, m, s, o).0 == SetStatus(m, s, host.now).0
    ensures Mark(host, m, s, o).1.Success?
    ensures Pending(Mark(host, m, s, o).1.value, config)
  {
    var (m', events) := SetStatus(m, s, host.now);
    if events != [] {
      assert events == [Finished(Snapshot(m'))];
      HandleSucceedsUnlessCompleted(o, events[0], m'.subscriptions, host.measured, Written(host, m'));
      assert events[1..] == [];
    }
    DeliverKeepsPending(o, events, m'.subscriptions, host.measured, Written(host, m'), config);
  }

  /** With one subscription, a change to a skip status logs exactly one entry for the task, with that status. */
  lemma MarkSkipOnce(host: Host, m: Migration, s: MigrationTaskStatus, o: Observed)
    requires s == SkippedForSafety || s == SkippedForWrongSyntax
    requires m.subscriptions == 1 && m.status != s
    ensures var (m', r) := Mark(host, m, s, o);
            && m'.status == s && m'.script == m.script && m'.subscriptions == 1
            && r.Success?
            && |r.value.logger.logs| == |o.logger.logs| + 1
            && r.value.logger.logs[..|o.logger.logs|] == o.logger.logs
            && r.value.logger.logs[|o.logger.logs|].status == s
            && r.value.logger.logs[|o.logger.logs|].absolutePath == m.script.absolutePath
            && r.value.history == o.history
  {
    var (m', events) := SetStatus(m, s, host.now);
    assert events == [Finished(Snapshot(m'))];
    assert Handle(o, events[0], 1, host.measured, Written(host, m')) == Archive(o, Snapshot(m'), host.measured, Written(host, m'));
    assert events[1..] == [];
    var o' := Archive(o, Snapshot(m'), host.measured, Written(host, m')).value;
    assert o'.logger.logs[..|o.logger.logs|] == o.logger.logs;
  }

  /** One log entry appended: the new suffix holds exactly its status. */
  lemma AppendedOne(a: seq<MigrationLog>, b: seq<MigrationLog>)
    requires |b| == |a| + 1 && b[..|a|] == a
    ensures Statuses(b[|a|..]) == [b[|a|].status]
  {
    assert b[|a|..] == [b[|a|]];
  }

  /** Two log entries appended one after the other. */
  lemma AppendedTwo(a: seq<MigrationLog>, b: seq<MigrationLog>, c: seq<MigrationLog>)
    requires |b| == |a| + 1 && b[..|a|] == a
    requires |c| == |b| + 1 && c[..|b|] == b
    ensures c[..|a|] == a
    ensures Statuses(c[|a|..]) == [b[|a|].status, c[|b|].status]
  {
    assert c[..|a|] == c[..|b|][..|a|];
    assert c[|a|..] == [b[|a|], c[|b|]];
  }

  /** What `Skip` leaves behind: the final status, and the log extended by exactly `statuses`. */
  ghost predicate SkipLeaves(o: Observed, r: (Migration, Result<Observed, Error>), status: MigrationTaskStatus, statuses: seq<MigrationTaskStatus>) {
    && r.1.Success?
    && r.0.status == status
    && |o.logger.logs| <= |r.1.value.logger.logs|
    && r.1.value.logger.logs[..|o.logger.logs|] == o.logger.logs
    && Statuses(r.1.value.logger.logs[|o.logger.logs|..]) == statuses
    && r.1.value.history == o.history
  }

  lemma SkipTwice(host: Host, m: Migration, o: Observed)
    requires m.subscriptions == 1 && m.status == New
    requires !m.script.HasCorrectSyntax() && !m.script.IsSafe()
    ensures SkipLeaves(o, Skip(host, m, o), SkippedForSafety, [SkippedForWrongSyntax, SkippedForSafety])
  {
    MarkSkipOnce(host, m, SkippedForWrongSyntax, o);
    var (m1, r1) := Mark(host, m, SkippedForWrongSyntax, o);
    var o1 := r1.value;
    MarkSkipOnce(host, m1, SkippedForSafety, o1);
    assert Skip(host, m, o) == Mark(host, m1, SkippedForSafety, o1);
    var o2 := Mark(host, m1, SkippedForSafety, o1).1.value;
    AppendedTwo(o.logger.logs, o1.logger.logs, o2.logger.logs);
  }

  lemma SkipOnce(host: Host, m: Migration, o: Observed)
    requires m.subscriptions == 1 && m.status == New
    requires m.script.HasCorrectSyntax() != m.script.IsSafe()
    ensures var s := if m.script.IsSafe() then SkippedForWrongSyntax else SkippedForSafety;
            SkipLeaves(o, Skip(host, m, o), s, [s])
  {
    var s := if m.script.IsSafe() then SkippedForWrongSyntax else SkippedForSafety;
    MarkSkipOnce(host, m, s, o);
    assert Skip(host, m, o) == Mark(host, m, s, o);
    AppendedOne(o.logger.logs, Mark(host, m, s, o).1.value.logger.logs);
  }

  /** An ineligible new task registered once: it ends as `SkippedForSafety` when
      unsafe and as `SkippedForWrongSyntax` otherwise, and it logs one entry per
      skip status it earned, in the order they were set. */
  lemma SkipLogsEachStatus(host: Host, m: Migration, o: Observed)
    requires m.subscriptions == 1 && m.status == New && !Eligible(m)
    ensures Skip(host, m, o).1.Success?
    ensures Skip(host, m, o).0.status == (if !m.script.IsSafe() then SkippedForSafety else SkippedForWrongSyntax)
    ensures var o' := Skip(host, m, o).1.value;
            && |o.logger.logs| <= |o'.logger.logs|
            && o'.logger.logs[..|o.logger.logs|] == o.logger.logs
            && Statuses(o'.logger.logs[|o.logger.logs|..]) == SkipStatuses(m)
            && o'.history == o.history
  {
    if !m.script.HasCorrectSyntax() && !m.script.IsSafe() {
      SkipTwice(host, m, o);
    } else {
      SkipOnce(host, m, o);
    }
  }

  /** One file of a folder: a script already applied (in Incremental mode only) leaves
      everything as it was; a safe, well-formed script is batched with its handlers
      attached; any other script is only logged, once per skip status. */
  lemma AdmitPartition(host: Host, config: EngineConfig, history: seq<MigrationLog>, file: string, acc: Intake)
    requires acc.error.None?
    requires Load(host, file).Success?
    ensures var m := Load(host, file).value;
            var r := Admit(host, config, history, file, acc);
            && (Excluded(config, history, m) ==> r == acc)
            && (!Excluded(config, history, m) && Eligible(m) ==> r == acc.(tasks := acc.tasks + [Register(m)]))
            && (!Excluded(config, history, m) && !Eligible(m) ==>
                  && r.error.None? && r.tasks == acc.tasks && r.observed.history == acc.observed.history
                  && |acc.observed.logger.logs| <= |r.observed.logger.logs|
                  && r.observed.logger.logs[..|acc.observed.logger.logs|] == acc.observed.logger.logs
                  && Statuses(r.observed.logger.logs[|acc.observed.logger.logs|..]) == SkipStatuses(m))
  {
    var m := Load(host, file).value;
    if !Excluded(config, history, m) && !Eligible(m) {
      SkipLogsEachStatus(host, Register(m), acc.observed);
    }
  }

  /** Full mode excludes nothing: every script that loads is either batched or logged as skipped. */
  lemma FullModeExcludesNothing(host: Host, config: EngineConfig, history: seq<MigrationLog>, file: string, acc: Intake)
    requires acc.error.None? && config.runMode == Full
    requires Load(host, file).Success?
    ensures var m := Load(host, file).value;
            var r := Admit(host, config, history, file, acc);
            Eligible(m) <==> r.tasks == acc.tasks + [Register(m)]
    ensures var m := Load(host, file).value;
            var r := Admit(host, config, history, file, acc);
            !Eligible(m) ==> |r.observed.logger.logs| > |acc.observed.logger.logs|
  {
    var m := Load(host, file).value;
    AdmitPartition(host, config, history, file, acc);
    if !Eligible(m) {
      var r := Admit(host, config, history, file, acc);
      assert |acc.tasks + [Register(m)]| != |acc.tasks|;
      assert |SkipStatuses(m)| > 0;
      assert |r.observed.logger.logs[|acc.observed.logger.logs|..]| > 0;
    }
  }

  /** A file whose script cannot be constructed stops the folder with that script's error. */
  lemma AdmitPropagatesScriptErrors(host: Host, config: EngineConfig, history: seq<MigrationLog>, file: string, acc: Intake)
    requires acc.error.None?
    requires NewScript(host.fs, file, host.parser).Failure?
    ensures Admit(host, config, history, file, acc) == acc.(error := Some(NewScript(host.fs, file, host.parser).error))
  {
  }

  /** The task a file contributes to its folder's batches: none when it does not
      load, is already applied or is ineligible; otherwise its registered task. */
  function Batched(host: Host, config: EngineConfig, history: seq<MigrationLog>, file: string): seq<Migration> {
    match Load(host, file)
    case Failure(_) => []
    case Success(m) => if !Excluded(config, history, m) && Eligible(m) then [Register(m)] else []
  }

  /** The batched tasks of a folder's files, in file order. */
  function BatchedTasks(host: Host, config: EngineConfig, history: seq<MigrationLog>, files: seq<string>): seq<Migration>
    decreases |files|
  {
    if files == [] then []
    else BatchedTasks(host, config, history, files[..|files| - 1]) + Batched(host, config, history, files[|files| - 1])
  }

  lemma AdmitTasks(host: Host, config: EngineConfig, history: seq<MigrationLog>, file: string, acc: Intake)
    requires acc.error.None?
    requires Load(host, file).Success?
    ensures Admit(host, config, history, file, acc).error.None?
    ensures Admit(host, config, history, file, acc).tasks == acc.tasks + Batched(host, config, history, file)
  {
    AdmitPartition(host, config, history, file, acc);
  }

  /** When every file of a folder loads, nothing fails and the folder's tasks are
      exactly the batched files' tasks, in file order. */
  lemma {:induction false} AdmitAllSelects(host: Host, config: EngineConfig, history: seq<MigrationLog>, files: seq<string>, o: Observed)
    requires forall i :: 0 <= i < |files| ==> Load(host, files[i]).Success?
    ensures AdmitAll(host, config, history, files, o).error.None?
    ensures AdmitAll(host, config, history, files, o).tasks == BatchedTasks(host, config, history, files)
    decreases |files|
  {
    if files != [] {
      var front := files[..|files| - 1];
      var last := files[|files| - 1];
      AdmitAllSelects(host, config, history, front, o);
      var acc := AdmitAll(host, config, history, front, o);
      AdmitTasks(host, config, history, last, acc);
    }
  }

  /** A folder that does not exist stops the preparation before anything is read. */
  lemma GetTasksMissingFolder(host: Host, config: EngineConfig, history: seq<MigrationLog>, folder: Folder, o: Observed)
    requires TotalPreorder(host.nameOrder)
    requires !host.fs.dirExists(FolderOf(host, folder))
    ensures GetTasks(host, config, history, folder, o) == Gathered([], o, Some(MigrationFolderNotFound(FolderOf(host, folder))))
  {
  }

  /** A folder whose scripts all load: its batched tasks, sorted by name (descending
      for a Down folder), cut into batches of at most `BatchCount`. */
  lemma GetTasksBatches(host: Host, config: EngineConfig, history: seq<MigrationLog>, folder: Folder, o: Observed)
    requires TotalPreorder(host.nameOrder)
    requires host.fs.dirExists(FolderOf(host, folder))
    requires var files := host.fs.sqlFiles(FolderOf(host, folder));
             forall i :: 0 <= i < |files| ==> Load(host, files[i]).Success?
    ensures var g := GetTasks(host, config, history, folder, o);
            && g.error.None?
            && multiset(Flatten(g.queue)) == multiset(BatchedTasks(host, config, history, host.fs.sqlFiles(FolderOf(host, folder))))
            && (forall i :: 0 <= i < |g.queue| ==> 0 < |g.queue[i]| <= BatchCount)
            && (folder.direction == Up ==> SortedBy(Flatten(g.queue), TaskName, host.nameOrder))
            && (folder.direction != Up ==> SortedBy(Flatten(g.queue), TaskName, Flip(host.nameOrder)))
  {
    var files := host.fs.sqlFiles(FolderOf(host, folder));
    AdmitAllSelects(host, config, history, files, o);
    var intake := AdmitAll(host, config, history, files, o);
  }

  // ---------------------------------------------------------------------------
  // The retry loop

  /** One attempt's statements: a transaction, then the script. A success ends with
      a commit when the transaction is usable. A failure records the attempt's message
      and ends with a rollback exactly when the transaction is usable at the catch:
      after a refused commit that is the check made after the refusal, otherwise the
      check made after the script. */
  lemma AttemptStatements(host: Host, config: EngineConfig, m: Migration, st: State)
    requires m.retryCount < config.maxRetryCount && Runnable(host, m)
    ensures var r := Try(host, config, m, st);
            var a := host.attempt(m.script.absolutePath, m.retryCount);
            var head := st.ops + [Begin, Execute(Body(host.fs, m.script.absolutePath))];
            var refused := a.executes && (m.subscriptions == 0 || Written(host, m)) && a.usable && !a.commits;
            var usableAtCatch := if refused then a.usableAfterCommit else a.usable;
            && (r.0.status == Completed ==> a.executes && r.1.ops == head + (if a.usable then [Commit] else []))
            && (r.0.status == Retrying ==>
                  && r.0.error == Some(a.message)
                  && r.1.ops == head + (if refused then [Commit] else []) + (if usableAtCatch then [Rollback] else []))
  {
    var a := host.attempt(m.script.absolutePath, m.retryCount);
    var (m1, _) := SetStatus(m, Executing, host.now);
    if a.executes {
      var (m2, events) := SetStatus(m1, Completed, host.now);
      assert events == [Finished(Snapshot(m2))];
      HandleFinishedSucceeds(st.observed, Snapshot(m2), m2.subscriptions, host.measured, Written(host, m2));
      assert events[1..] == [];
    }
  }

  lemma TryKeepsPending(host: Host, config: EngineConfig, m: Migration, st: State)
    requires m.retryCount < config.maxRetryCount && Runnable(host, m)
    requires Pending(st.observed, config)
    ensures Pending(Try(host, config, m, st).1.observed, config)
    ensures LogsCompletions(st.observed, Try(host, config, m, st).1.observed)
  {
    var a := host.attempt(m.script.absolutePath, m.retryCount);
    var (m1, _) := SetStatus(m, Executing, host.now);
    if a.executes {
      var (m2, events) := SetStatus(m1, Completed, host.now);
      assert events == [Finished(Snapshot(m2))];
      var d := Deliver(st.observed, events, m2.subscriptions, host.measured, Written(host, m2));
      if d.Success? {
        DeliverKeepsPending(st.observed, events, m2.subscriptions, host.measured, Written(host, m2), config);
        return;
      }
    }
    LogsCompletionsRefl(st.observed, Try(host, config, m, st).1.observed);
  }

  /** The retry loop logs only completions, so an exhausted task leaves no entry, and
      it keeps the history in step with the completed entries. */
  lemma {:induction false} RunTaskKeepsPending(host: Host, config: EngineConfig, m: Migration, st: State)
    requires Runnable(host, m)
    requires Pending(st.observed, config)
    ensures Pending(RunTask(host, config, m, st).1.observed, config)
    ensures LogsCompletions(st.observed, RunTask(host, config, m, st).1.observed)
    decreases config.maxRetryCount - m.retryCount
  {
    if m.status == Completed || m.retryCount >= config.maxRetryCount {
      LogsCompletionsRefl(st.observed, st.observed);
    } else {
      TryKeepsPending(host, config, m, st);
      var (m', st') := Try(host, config, m, st);
      if m'.status != Completed {
        RunTaskKeepsPending(host, config, m', st');
        LogsCompletionsTrans(st.observed, st'.observed, RunTask(host, config, m', st').1.observed);
      }
    }
  }

  /** Whether attempt `k` of a task succeeds: the script executes, the completion
      handlers can write that attempt's history row, and a usable transaction commits. */
  predicate AttemptSucceeds(host: Host, m: Migration, k: int) {
    var a := host.attempt(m.script.absolutePath, k);
    a.executes && (m.subscriptions == 0 || host.historyWritten(m.script.absolutePath, k)) && (!a.usable || a.commits)
  }

  /** The first attempt from `k` on that succeeds, or `max` when none before it does. */
  function FirstSuccess(host: Host, m: Migration, k: int, max: int): (r: int)
    requires k <= max
    ensures k <= r <= max
    decreases max - k
  {
    if k == max || AttemptSucceeds(host, m, k) then k else FirstSuccess(host, m, k + 1, max)
  }

  lemma {:induction false} FirstSuccessIsFirst(host: Host, m: Migration, k: int, max: int)
    requires k <= max
    ensures var f := FirstSuccess(host, m, k, max);
            && (f < max ==> AttemptSucceeds(host, m, f))
            && (forall j :: k <= j < f ==> !AttemptSucceeds(host, m, j))
    decreases max - k
  {
    if k < max && !AttemptSucceeds(host, m, k) {
      FirstSuccessIsFirst(host, m, k + 1, max);
    }
  }

  /** Only the script and the handlers attached matter to which attempt succeeds first. */
  lemma {:induction false} FirstSuccessOfSameTask(host: Host, m: Migration, n: Migration, k: int, max: int)
    requires k <= max
    requires m.script == n.script && m.subscriptions == n.subscriptions
    ensures FirstSuccess(host, m, k, max) == FirstSuccess(host, n, k, max)
    decreases max - k
  {
    if k < max {
      FirstSuccessOfSameTask(host, m, n, k + 1, max);
    }
  }

  /** One pass completes the task exactly when its attempt succeeds; otherwise the
      task waits for a retry carrying that attempt's message. */
  lemma TryCompletesIff(host: Host, config: EngineConfig, m: Migration, st: State)
    requires m.retryCount < config.maxRetryCount && Runnable(host, m)
    ensures Try(host, config, m, st).0.status == Completed <==> AttemptSucceeds(host, m, m.retryCount)
    ensures !AttemptSucceeds(host, m, m.retryCount) ==>
              Try(host, config, m, st).0.error == Some(host.attempt(m.script.absolutePath, m.retryCount).message)
  {
    var a := host.attempt(m.script.absolutePath, m.retryCount);
    var (m1, _) := SetStatus(m, Executing, host.now);
    if a.executes {
      var (m2, events) := SetStatus(m1, Completed, host.now);
      assert events == [Finished(Snapshot(m2))];
      HandleFinishedSucceeds(st.observed, Snapshot(m2), m2.subscriptions, host.measured, Written(host, m2));
      assert events[1..] == [];
    }
  }

  /** A pass of the retry loop's body, then the rest of the loop. */
  lemma RunTaskStep(host: Host, config: EngineConfig, m: Migration, st: State)
    requires Runnable(host, m)
    requires m.status != Completed && m.retryCount < config.maxRetryCount
    ensures var (m', st') := Try(host, config, m, st);
            RunTask(host, config, m, st) == if m'.status == Completed then (m', st') else RunTask(host, config, m', st')
  {
  }

  /** The retry loop stops at the first successful attempt, or runs out of retries
      keeping the last attempt's message. */
  lemma {:induction false} RunTaskStopsAtFirstSuccess(host: Host, config: EngineConfig, m: Migration, st: State)
    requires Runnable(host, m)
    requires m.status != Completed && m.retryCount <= config.maxRetryCount
    ensures var r := RunTask(host, config, m, st).0;
            var f := FirstSuccess(host, m, m.retryCount, config.maxRetryCount);
            && (r.status == Completed <==> f < config.maxRetryCount)
            && r.retryCount == f
            && (r.status != Completed && m.retryCount < config.maxRetryCount ==>
                  && r.status == Retrying
                  && r.error == Some(host.attempt(m.script.absolutePath, config.maxRetryCount - 1).message))
    decreases config.maxRetryCount - m.retryCount
  {
    if m.retryCount < config.maxRetryCount {
      TryCompletesIff(host, config, m, st);
      RunTaskStep(host, config, m, st);
      var (m', st') := Try(host, config, m, st);
      if m'.status != Completed {
        assert m'.retryCount == m.retryCount + 1;
        RunTaskStopsAtFirstSuccess(host, config, m', st');
        FirstSuccessOfSameTask(host, m, m', m'.retryCount, config.maxRetryCount);
        assert FirstSuccess(host, m, m.retryCount, config.maxRetryCount) == FirstSuccess(host, m, m'.retryCount, config.maxRetryCount);
      } else {
        assert FirstSuccess(host, m, m.retryCount, config.maxRetryCount) == m.retryCount;
      }
    }
  }

  /** The retry loop completes a task exactly when one of its remaining attempts
      succeeds, and then at the first such attempt; otherwise it uses up every retry
      and keeps the last attempt's message. */
  lemma RunTaskCompletesIff(host: Host, config: EngineConfig, m: Migration, st: State)
    requires Runnable(host, m)
    requires m.status != Completed && m.retryCount <= config.maxRetryCount
    ensures var r := RunTask(host, config, m, st).0;
            r.status == Completed <==>
              exists k :: m.retryCount <= k < config.maxRetryCount && AttemptSucceeds(host, m, k)
    ensures var r := RunTask(host, config, m, st).0;
            r.status == Completed ==>
              && AttemptSucceeds(host, m, r.retryCount)
              && forall k :: m.retryCount <= k < r.retryCount ==> !AttemptSucceeds(host, m, k)
    ensures var r := RunTask(host, config, m, st).0;
            r.status != Completed ==>
              && r.retryCount == config.maxRetryCount
              && (m.retryCount < config.maxRetryCount ==>
                    && r.status == Retrying
                    && r.error == Some(host.attempt(m.script.absolutePath, config.maxRetryCount - 1).message))
  {
    RunTaskStopsAtFirstSuccess(host, config, m, st);
    FirstSuccessIsFirst(host, m, m.retryCount, config.maxRetryCount);
  }

  lemma {:induction false} RunBatchKeepsPending(host: Host, config: EngineConfig, batch: seq<Migration>, st: State)
    requires forall m :: m in batch ==> Runnable(host, m)
    requires Pending(st.observed, config)
    ensures Pending(RunBatch(host, config, batch, st).1.observed, config)
    ensures LogsCompletions(st.observed, RunBatch(host, config, batch, st).1.observed)
    decreases |batch|
  {
    if batch == [] {
      LogsCompletionsRefl(st.observed, st.observed);
    } else {
      var (m, o) := Pick(host, batch[0], st.observed);
      assert batch[0] in batch;
      LogsCompletionsRefl(st.observed, o);
      RunTaskKeepsPending(host, config, m, st.(observed := o));
      var st1 := RunTask(host, config, m, st.(observed := o)).1;
      LogsCompletionsTrans(st.observed, o, st1.observed);
      assert forall x :: x in batch[1..] ==> x in batch;
      RunBatchKeepsPending(host, config, batch[1..], st1);
      LogsCompletionsTrans(st.observed, st1.observed, RunBatch(host, config, batch[1..], st1).1.observed);
    }
  }

  lemma {:induction false} RunQueueKeepsPending(host: Host, config: EngineConfig, queue: seq<seq<Migration>>, st: State)
    requires forall m :: m in Flatten(queue) ==> Runnable(host, m)
    requires Pending(st.observed, config)
    ensures Pending(RunQueue(host, config, queue, st).1.observed, config)
    ensures LogsCompletions(st.observed, RunQueue(host, config, queue, st).1.observed)
    decreases |queue|
  {
    if queue == [] {
      LogsCompletionsRefl(st.observed, st.observed);
    } else {
      assert Flatten(queue) == queue[0] + Flatten(queue[1..]);
      RunBatchKeepsPending(host, config, queue[0], st);
      var st1 := RunBatch(host, config, queue[0], st).1;
      RunQueueKeepsPending(host, config, queue[1..], st1);
      LogsCompletionsTrans(st.observed, st1.observed, RunQueue(host, config, queue[1..], st1).1.observed);
    }
  }

  /** Executing the queue opens the connection first and closes it last, logs only
      completed tasks, and keeps the history in step with them. */
  lemma ExecuteBatchesKeepsPending(host: Host, config: EngineConfig, queue: seq<seq<Migration>>, st: State)
    requires forall m :: m in Flatten(queue) ==> Runnable(host, m)
    requires Pending(st.observed, config)
    ensures Pending(ExecuteBatches(host, config, queue, st).1.observed, config)
    ensures LogsCompletions(st.observed, ExecuteBatches(host, config, queue, st).1.observed)
  {
    RunQueueKeepsPending(host, config, queue, st.(ops := st.ops + [Open]));
  }

  // ---------------------------------------------------------------------------
  // Preparation and the whole run

  lemma SkipKeepsPending(host: Host, m: Migration, o: Observed, config: EngineConfig)
    requires Pending(o, config)
    ensures Skip(host, m, o).1.Success?
    ensures Pending(Skip(host, m, o).1.value, config)
  {
    if !m.script.HasCorrectSyntax() {
      MarkSkip(host, m, SkippedForWrongSyntax, o, config);
      var (m1, r1) := Mark(host, m, SkippedForWrongSyntax, o);
      MarkSkip(host, m1, SkippedForSafety, r1.value, config);
    } else {
      MarkSkip(host, m, SkippedForSafety, o, config);
    }
  }

  lemma AdmitKeepsPending(host: Host, config: EngineConfig, history: seq<MigrationLog>, file: string, acc: Intake)
    requires acc.error.None? && Pending(acc.observed, config)
    ensures Pending(Admit(host, config, history, file, acc).observed, config)
  {
    if Load(host, file).Success? {
      SkipKeepsPending(host, Register(Load(host, file).value), acc.observed, config);
    }
  }

  lemma {:induction false} AdmitAllKeepsPending(host: Host, config: EngineConfig, history: seq<MigrationLog>, files: seq<string>, o: Observed)
    requires Pending(o, config)
    ensures Pending(AdmitAll(host, config, history, files, o).observed, config)
    decreases |files|
  {
    if files != [] {
      AdmitAllKeepsPending(host, config, history, files[..|files| - 1], o);
      var acc := AdmitAll(host, config, history, files[..|files| - 1], o);
      if acc.error.None? {
        AdmitKeepsPending(host, config, history, files[|files| - 1], acc);
      }
    }
  }

  /** A one-folder plan queues exactly that folder's batches. */
  lemma PrepareTasksSingle(host: Host, config: EngineConfig, history: seq<MigrationLog>, folder: Folder, o: Observed)
    requires TotalPreorder(host.nameOrder)
    ensures PrepareTasks(host, config, history, [folder], o) == GetTasks(host, config, history, folder, o)
  {
    assert [folder][..0] == [];
    var g := GetTasks(host, config, history, folder, o);
    assert [] + g.queue == g.queue;
  }

  /** The last folder of a plan is read after the others, unless they failed. */
  lemma PrepareTasksSnoc(host: Host, config: EngineConfig, history: seq<MigrationLog>, plan: seq<Folder>, f: Folder, o: Observed)
    requires TotalPreorder(host.nameOrder)
    ensures var g := PrepareTasks(host, config, history, plan, o);
            var next := GetTasks(host, config, history, f, g.observed);
            PrepareTasks(host, config, history, plan + [f], o)
              == if g.error.Some? then g else Gathered(g.queue + next.queue, next.observed, next.error)
  {
    assert (plan + [f])[..|plan + [f]| - 1] == plan;
  }

  /** Queueing after a prefix commutes with reading one more folder. */
  lemma GatheredAssociative(prefix: seq<seq<Migration>>, h: Gathered, next: Gathered)
    ensures var c := Gathered(prefix + h.queue, h.observed, h.error);
            var hh := if h.error.Some? then h else Gathered(h.queue + next.queue, next.observed, next.error);
            (if c.error.Some? then c else Gathered(c.queue + next.queue, next.observed, next.error))
              == Gathered(prefix + hh.queue, hh.observed, hh.error)
  {
    assert (prefix + h.queue) + next.queue == prefix + (h.queue + next.queue);
  }

  /** Preparing a plan in two parts: the second part's batches are queued after the
      first part's, no batch is shared between them, and an error in the first part
      stops the preparation before the second part's folders are read. */
  lemma {:induction false} PrepareTasksAppend(host: Host, config: EngineConfig, history: seq<MigrationLog>, p1: seq<Folder>, p2: seq<Folder>, o: Observed)
    requires TotalPreorder(host.nameOrder)
    ensures var g1 := PrepareTasks(host, config, history, p1, o);
            var g := PrepareTasks(host, config, history, p1 + p2, o);
            && (g1.error.Some? ==> g == g1)
            && (g1.error.None? ==>
                  var g2 := PrepareTasks(host, config, history, p2, g1.observed);
                  g == Gathered(g1.queue + g2.queue, g2.observed, g2.error))
    decreases |p2|
  {
    var g1 := PrepareTasks(host, config, history, p1, o);
    if p2 == [] {
      assert p1 + p2 == p1;
      assert g1.queue + [] == g1.queue;
    } else {
      var init, last := p2[..|p2| - 1], p2[|p2| - 1];
      assert p2 == init + [last];
      assert p1 + p2 == (p1 + init) + [last];
      PrepareTasksAppend(host, config, history, p1, init, o);
      PrepareTasksSnoc(host, config, history, p1 + init, last, o);
      if g1.error.None? {
        PrepareTasksSnoc(host, config, history, init, last, g1.observed);
        var h := PrepareTasks(host, config, history, init, g1.observed);
        GatheredAssociative(g1.queue, h, GetTasks(host, config, history, last, h.observed));
      }
    }
  }

  /** Preparing the queue, whether it succeeds or stops on an error, logs only skipped tasks and writes no history. */
  lemma {:induction false} PrepareTasksKeepsPending(host: Host, config: EngineConfig, history: seq<MigrationLog>, plan: seq<Folder>, o: Observed)
    requires TotalPreorder(host.nameOrder)
    requires Pending(o, config)
    ensures Pending(PrepareTasks(host, config, history, plan, o).observed, config)
    decreases |plan|
  {
    if plan != [] {
      PrepareTasksKeepsPending(host, config, history, plan[..|plan| - 1], o);
      var g := PrepareTasks(host, config, history, plan[..|plan| - 1], o);
      if g.error.None? {
        var path := FolderOf(host, plan[|plan| - 1]);
        if host.fs.dirExists(path) {
          AdmitAllKeepsPending(host, config, history, host.fs.sqlFiles(path), g.observed);
        }
      }
    }
  }

  lemma {:induction false} NoFailedEntries(logs: seq<MigrationLog>)
    requires forall i :: 0 <= i < |logs| ==> Reportable(logs[i].status)
    ensures CountStatus(logs, Failed) == 0
    decreases |logs|
  {
    if logs != [] {
      NoFailedEntries(logs[1..]);
    }
  }

  lemma PendingReport(o: Observed, config: EngineConfig)
    requires Pending(o, config)
    ensures GenerateReport(o.logger).reports == [Report(config, Summarize(o.logger.logs), o.logger.logs)]
    ensures Summarize(o.logger.logs).failed == 0
  {
    NoFailedEntries(o.logger.logs);
  }

  /** `Start`: a report is written exactly when the run fails or runs in Development;
      it is the only one, covers the run's configuration and every logged entry, and
      never counts a failed task. Whatever happens, the history written records
      exactly the completed entries. */
  lemma StartReports(host: Host, config: EngineConfig)
    requires TotalPreorder(host.nameOrder)
    ensures var r := Start(host, config);
            && (r.observed.logger.reportGenerated <==> r.error.Some? || Environment(host) == Development)
            && (r.observed.logger.reportGenerated ==>
                  r.observed.logger.reports == [Report(config, Summarize(r.observed.logger.logs), r.observed.logger.logs)])
            && Summarize(r.observed.logger.logs).failed == 0
            && r.observed.history == CompletedRecords(r.observed.logger.logs)
  {
    var o := Unobserved.(logger := LogConfiguration(NewLogger, config));
    assert Pending(o, config);
    var (setup, failure) := SetupInfrastructure(host);
    if failure.Some? {
      PendingReport(o, config);
    } else {
      var history := if config.runMode == Incremental then host.history else [];
      var plan := EnginePlan(config.migrationType, Environment(host), config.target);
      PrepareTasksKeepsPending(host, config, history, plan, o);
      var g := PrepareTasks(host, config, history, plan, o);
      if g.error.Some? {
        PendingReport(g.observed, config);
      } else {
        var ops := setup + [HistoryStatement(config.runMode)];
        ExecuteBatchesKeepsPending(host, config, g.queue, State(ops, g.observed));
        PendingReport(ExecuteBatches(host, config, g.queue, State(ops, g.observed)).1.observed, config);
      }
    }
  }

  /** After a successful infrastructure setup, Incremental mode queries the history
      and Full mode clears it, and only Incremental mode has any history to exclude by. */
  lemma StartHistoryMode(host: Host, config: EngineConfig)
    requires TotalPreorder(host.nameOrder)
    requires SetupInfrastructure(host).1.None?
    ensures var setup := SetupInfrastructure(host).0;
            var r := Start(host, config);
            && |setup| < |r.ops|
            && r.ops[..|setup|] == setup
            && r.ops[|setup|] == (if config.runMode == Incremental then QueryHistory else ClearHistory)
  {
    var setup := SetupInfrastructure(host).0;
    var ops := setup + [HistoryStatement(config.runMode)];
    var history := if config.runMode == Incremental then host.history else [];
    var plan := EnginePlan(config.migrationType, Environment(host), config.target);
    var g := PrepareTasks(host, config, history, plan, Unobserved.(logger := LogConfiguration(NewLogger, config)));
    if g.error.None? {
      var r := ExecuteBatches(host, config, g.queue, State(ops, g.observed));
      ExtendsPrefix(setup, HistoryStatement(config.runMode), Open, r.1.ops);
    }
  }

  lemma ExtendsPrefix(setup: seq<DbOp>, h: DbOp, o: DbOp, r: seq<DbOp>)
    requires |setup| + 2 <= |r| && r[..|setup| + 2] == setup + [h] + [o]
    ensures |setup| < |r| && r[..|setup|] == setup && r[|setup|] == h
  {
    assert r[..|setup|] == r[..|setup| + 2][..|setup|];
    assert r[|setup|] == r[..|setup| + 2][|setup|];
  }
}
