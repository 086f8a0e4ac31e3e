/** The legacy pipeline: `TaskRunner` gathers `MigrationTask`s from the folders of its
    plan and `TaskExecutor.ExecuteBatches` runs them, either inside one global
    transaction (Strict) or inside one transaction per batch (Relaxed). Unlike the
    engine, a task's status changes raise no events, nothing is excluded by history,
    and the legacy JSON log is written once per skipped or finished task. */
module Legacy {
  import opened Wrappers
  import opened Enumerations
  import opened Errors
  import opened Text
  import opened FileSystems
  import opened ScriptInspector
  import opened Scripts
  import opened Ordering
  import opened BatchProcessor
  import opened Configurations
  import opened Plans
  import opened Database

  /** `MigrationTask`: a script, its status, its retry count and the messages of its failed attempts. */
  datatype MigrationTask = MigrationTask(script: Script, status: MigrationTaskStatus, retryCount: int, errors: seq<string>)

  /** `new MigrationTask(script)`: a null script is refused. */
  function NewTask(script: Option<Script>): (r: Result<MigrationTask, Error>)
    ensures r.Failure? <==> script.None?
    ensures r.Failure? ==> r.error == ArgumentNull
    ensures r.Success? ==>
              r.value.script == script.value && r.value.status == New && r.value.retryCount == 0 && r.value.errors == []
  {
    if script.None? then Failure(ArgumentNull) else Success(MigrationTask(script.value, New, 0, []))
  }

  /** Everything the legacy pipeline reads from outside. */
  datatype RunnerHost = RunnerHost(
    fs: FileSystem,
    /** The T-SQL parser's error list for a script's lines. */
    parser: seq<string> -> seq<ParseError>,
    /** `ASPNETCORE_ENVIRONMENT`. */
    environment: Option<string>,
    /** `Environment.CurrentDirectory`. */
    cwd: string,
    /** The culture's ordering of script names. */
    nameOrder: (string, string) -> bool,
    /** What executing a script's text throws on the attempt with a given retry count, if anything. */
    throws: (string, int) -> Option<string>,
    /** Whether the JSON log file accepts an entry for a task in this state. */
    logWritten: MigrationTask -> bool,
    /** Whether the commit closing the n-th batch of a Relaxed run goes through. */
    batchCommits: nat -> bool,
    /** What the commit of a Strict run's transaction throws, if anything. */
    globalCommit: Option<string>)

  /** The retry loop only ends on a script with some text in it. */
  predicate Runnable(host: RunnerHost, t: MigrationTask) {
    !IsBlank(Body(host.fs, t.script.absolutePath))
  }

  predicate AllRunnable(host: RunnerHost, tasks: seq<MigrationTask>) {
    forall j :: 0 <= j < |tasks| ==> Runnable(host, tasks[j])
  }

  lemma AllRunnableTail(host: RunnerHost, tasks: seq<MigrationTask>)
    requires tasks != [] && AllRunnable(host, tasks)
    ensures Runnable(host, tasks[0]) && AllRunnable(host, tasks[1..])
  {
    assert forall j :: 0 <= j < |tasks| - 1 ==> tasks[1..][j] == tasks[j + 1];
  }

  /** Every task of every batch is runnable. */
  predicate Ready(host: RunnerHost, queue: seq<seq<MigrationTask>>) {
    AllRunnable(host, Flatten(queue))
  }

  /** A ready queue splits into a runnable first batch and a ready rest. */
  lemma ReadySplit(host: RunnerHost, queue: seq<seq<MigrationTask>>)
    requires queue != [] && Ready(host, queue)
    ensures AllRunnable(host, queue[0]) && Ready(host, queue[1..])
    ensures Flatten(queue) == queue[0] + Flatten(queue[1..])
  {
    assert forall j :: 0 <= j < |queue[0]| ==> queue[0][j] == Flatten(queue)[j];
    assert forall j :: 0 <= j < |Flatten(queue[1..])| ==> Flatten(queue[1..])[j] == Flatten(queue)[|queue[0]| + j];
  }

  /** `new MigrationTask(new Script(file))`. */
  function LoadTask(host: RunnerHost, file: string): (r: Result<MigrationTask, Error>)
    ensures r.Success? ==> Runnable(host, r.value) && r.value.status == New && r.value.retryCount == 0 && r.value.errors == []
  {
    var script :- NewScript(host.fs, file, host.parser);
    BodyNotBlank(host.fs, file, host.parser);
    NewTask(Some(script))
  }

  /** A task loads exactly when its script does, with that script, or fails with the script's error. */
  lemma LoadTaskFacts(host: RunnerHost, file: string)
    ensures LoadTask(host, file).Failure? <==> NewScript(host.fs, file, host.parser).Failure?
    ensures LoadTask(host, file).Failure? ==> LoadTask(host, file).error == NewScript(host.fs, file, host.parser).error
    ensures LoadTask(host, file).Success? ==> LoadTask(host, file).value.script == NewScript(host.fs, file, host.parser).value
  {
  }

  predicate Eligible(t: MigrationTask) {
    t.script.IsSafe() && t.script.HasCorrectSyntax()
  }

  /** The status a skipped task is logged with: the syntax status is set first and
      the safety status, when it applies, overwrites it. */
  function SkipStatus(t: MigrationTask): MigrationTaskStatus {
    var syntax := if !t.script.HasCorrectSyntax() then SkippedForWrongSyntax else t.status;
    if !t.script.IsSafe() then SkippedForSafety else syntax
  }

  function Skipped(t: MigrationTask): MigrationTask {
    t.(status := SkipStatus(t))
  }

  // ---------------------------------------------------------------------------
  // TaskRunner

  /** The tasks gathered so far, the log entries written so far, and the error that stopped the gathering, if any. */
  datatype Gathering = Gathering(tasks: seq<MigrationTask>, journal: seq<MigrationTask>, error: Option<Error>)

  /** `new MigrationTask(new Script(file))` for each file of a folder, in file order. */
  function LoadAll(host: RunnerHost, files: seq<string>): (r: seq<Result<MigrationTask, Error>>)
    ensures |r| == |files|
    ensures forall i :: 0 <= i < |r| ==> r[i] == LoadTask(host, files[i])
    ensures RunnableLoads(host, r)
  {
    seq(|files|, i requires 0 <= i < |files| => LoadTask(host, files[i]))
  }

  /** Every task that loaded is runnable. */
  predicate RunnableLoads(host: RunnerHost, loads: seq<Result<MigrationTask, Error>>) {
    forall i :: 0 <= i < |loads| && loads[i].Success? ==> Runnable(host, loads[i].value)
  }

  /** One file of `GetTasks`, given what loading it produced: batched, or skipped and
      logged. Whatever is thrown is rethrown in Strict mode and dropped in Relaxed mode. */
  function Collect(host: RunnerHost, mode: TaskRunnerMode, loaded: Result<MigrationTask, Error>, acc: Gathering): (r: Gathering)
    requires acc.error.None?
    ensures r.error.None? ==> r.tasks == acc.tasks || (loaded.Success? && r.tasks == acc.tasks + [loaded.value])
  {
    match loaded
    case Failure(e) => if mode == TaskRunnerMode.Strict then acc.(error := Some(e)) else acc
    case Success(t) =>
      if Eligible(t) then acc.(tasks := acc.tasks + [t])
      else if host.logWritten(Skipped(t)) then acc.(journal := acc.journal + [Skipped(t)])
      else if mode == TaskRunnerMode.Strict then acc.(error := Some(MigrationLogWriteFailure))
      else acc
  }

  /** The loop of `GetTasks` over a folder's loaded files. */
  function CollectAll(host: RunnerHost, mode: TaskRunnerMode, loads: seq<Result<MigrationTask, Error>>, journal: seq<MigrationTask>): (r: Gathering)
    requires RunnableLoads(host, loads)
    ensures forall t :: t in r.tasks ==> Runnable(host, t)
    decreases |loads|
  {
    if loads == [] then Gathering([], journal, Option.None)
    else
      var acc := CollectAll(host, mode, loads[..|loads| - 1], journal);
      if acc.error.Some? then acc else Collect(host, mode, loads[|loads| - 1], acc)
  }

  /** The name batches are sorted by. */
  function TaskName(t: MigrationTask): string {
    t.script.metadata.name
  }

  /** The queued batches, the log entries written, and the error thrown, if any. */
  datatype Gathered = Gathered(queue: seq<seq<MigrationTask>>, journal: seq<MigrationTask>, error: Option<Error>)

  /** `GetTasks` for one folder. */
  function GetTasks(host: RunnerHost, config: RunnerConfig, folder: Folder, journal: seq<MigrationTask>): (r: Gathered)
    requires TotalPreorder(host.nameOrder)
    ensures forall t :: t in Flatten(r.queue) ==> Runnable(host, t)
  {
    var path := FolderPath(host.cwd, folder);
    if !host.fs.dirExists(path) then Gathered([], journal, Some(MigrationFolderNotFound(path)))
    else
      var g := CollectAll(host, config.mode, LoadAll(host, host.fs.sqlFiles(path)), journal);
      if g.error.Some? then Gathered([], g.journal, g.error)
      else
        var batches := Batchify(g.tasks, BatchCount, Some(TaskName), SortAscending(folder), host.nameOrder).value;
        assert forall t :: t in Flatten(batches) ==> t in multiset(Flatten(batches));
        Gathered(batches, g.journal, Option.None)
  }

  /** `PrepareTasks`: the folders of the plan in order, each folder's batches queued
      after the previous ones; an error stops the preparation. */
  function PrepareTasks(host: RunnerHost, config: RunnerConfig, plan: seq<Folder>, journal: seq<MigrationTask>): (r: Gathered)
    requires TotalPreorder(host.nameOrder)
    ensures forall t :: t in Flatten(r.queue) ==> Runnable(host, t)
    decreases |plan|
  {
    if plan == [] then Gathered([], journal, Option.None)
    else
      var g := PrepareTasks(host, config, plan[..|plan| - 1], journal);
      if g.error.Some? then g
      else
        var next := GetTasks(host, config, plan[|plan| - 1], g.journal);
        FlattenAppend(g.queue, next.queue);
        Gathered(g.queue + next.queue, next.journal, next.error)
  }

  // ---------------------------------------------------------------------------
  // TaskExecutor: the retry loop

  function Message(thrown: Option<string>): string {
    if thrown.Some? then thrown.value else ""
  }

  /** The messages thrown by the attempts with retry counts `lo` up to `hi`, excluded. */
  function Messages(host: RunnerHost, path: string, lo: int, hi: int): (r: seq<string>)
    ensures |r| == (if lo < hi then hi - lo else 0)
    decreases hi - lo
  {
    if lo >= hi then [] else [Message(host.throws(path, lo))] + Messages(host, path, lo + 1, hi)
  }

  function Repeat<T>(x: T, n: nat): (r: seq<T>)
    ensures |r| == n && forall i :: 0 <= i < n ==> r[i] == x
  {
    if n == 0 then [] else [x] + Repeat(x, n - 1)
  }

  /** One pass of the loop body: `Executing`, the script's text executed, then either
      `Completed` or, in the catch block, `Retrying` (or `Failed` when no retry is
      left), the message recorded and the retry counted. */
  function Attempt(host: RunnerHost, config: RunnerConfig, t: MigrationTask): (r: MigrationTask)
    requires t.retryCount < config.maxRetryCount
    ensures r.script == t.script
    ensures host.throws(t.script.absolutePath, t.retryCount).None? ==>
              r.status == Completed && r.retryCount == t.retryCount && r.errors == t.errors
    ensures host.throws(t.script.absolutePath, t.retryCount).Some? ==>
              && r.status == Retrying && r.retryCount == t.retryCount + 1
              && r.errors == t.errors + [host.throws(t.script.absolutePath, t.retryCount).value]
  {
    var t1 := t.(status := Executing);
    match host.throws(t.script.absolutePath, t.retryCount)
    case None => t1.(status := Completed)
    case Some(message) =>
      var status := if t1.retryCount < config.maxRetryCount then Retrying else Failed;
      t1.(status := status, errors := t1.errors + [message], retryCount := t1.retryCount + 1)
  }

  /** The retry loop of one task, and the statements it executes: attempts while the
      task is not completed and has retries left. */
  function RunTask(host: RunnerHost, config: RunnerConfig, t: MigrationTask): (r: (MigrationTask, seq<DbOp>))
    requires Runnable(host, t)
    ensures r.0.script == t.script
    ensures Statements(r.1)
    decreases config.maxRetryCount - t.retryCount, if t.status == Completed then 0 else 1
  {
    if t.status == Completed || t.retryCount >= config.maxRetryCount then (t, [])
    else
      var t' := Attempt(host, config, t);
      var (r, s) := RunTask(host, config, t');
      (r, [Execute(Body(host.fs, t.script.absolutePath))] + s)
  }

  /** The retry loop never sets `Failed`; it ends completed or out of retries; each
      retry used records the message its attempt threw; a completion is an attempt
      that threw nothing; and each attempt executes the script's text once. */
  lemma {:induction false} RunTaskFacts(host: RunnerHost, config: RunnerConfig, t: MigrationTask)
    requires Runnable(host, t)
    ensures var (r, s) := RunTask(host, config, t);
            && (t.status != Failed ==> r.status != Failed)
            && (r.status == Completed || r.retryCount >= config.maxRetryCount)
            && t.retryCount <= r.retryCount
            && (t.retryCount <= config.maxRetryCount ==> r.retryCount <= config.maxRetryCount)
            && (forall i :: t.retryCount <= i < r.retryCount ==> host.throws(t.script.absolutePath, i).Some?)
            && r.errors == t.errors + Messages(host, t.script.absolutePath, t.retryCount, r.retryCount)
            && (t.status != Completed && r.status == Completed ==>
                  r.retryCount < config.maxRetryCount && host.throws(t.script.absolutePath, r.retryCount).None?)
            && s == Repeat(Execute(Body(host.fs, t.script.absolutePath)),
                           r.retryCount - t.retryCount + (if t.status != Completed && r.status == Completed then 1 else 0))
    decreases config.maxRetryCount - t.retryCount, if t.status == Completed then 0 else 1
  {
    if !(t.status == Completed || t.retryCount >= config.maxRetryCount) {
      var path := t.script.absolutePath;
      var t' := Attempt(host, config, t);
      RunTaskFacts(host, config, t');
      var r := RunTask(host, config, t').0;
      if host.throws(path, t.retryCount).Some? {
        assert Messages(host, path, t.retryCount, r.retryCount)
            == [Message(host.throws(path, t.retryCount))] + Messages(host, path, t.retryCount + 1, r.retryCount);
        assert t'.errors + Messages(host, path, t'.retryCount, r.retryCount)
            == t.errors + ([Message(host.throws(path, t.retryCount))] + Messages(host, path, t.retryCount + 1, r.retryCount));
      }
    }
  }

  /** What each task's retry loop leaves it as, in order. */
  function Outcomes(host: RunnerHost, config: RunnerConfig, tasks: seq<MigrationTask>): (r: seq<MigrationTask>)
    requires AllRunnable(host, tasks)
    ensures |r| == |tasks|
    decreases |tasks|
  {
    if tasks == [] then [] else [RunTask(host, config, tasks[0]).0] + Outcomes(host, config, tasks[1..])
  }

  /** Every log entry is accepted. */
  predicate LogsAccepted(host: RunnerHost, entries: seq<MigrationTask>) {
    forall i :: 0 <= i < |entries| ==> host.logWritten(entries[i])
  }

  /** The tasks of a batch that were run and logged, the statements executed, and
      whether a log write failed, which ends the batch. */
  datatype Sweep = Sweep(done: seq<MigrationTask>, statements: seq<DbOp>, failed: bool)

  /** The tasks of one batch, in order: each task's loop, then its log entry. */
  function RunBatch(host: RunnerHost, config: RunnerConfig, batch: seq<MigrationTask>): (r: Sweep)
    requires AllRunnable(host, batch)
    ensures Statements(r.statements)
    ensures |r.done| <= |batch|
    ensures r.failed <==> |r.done| < |batch|
    decreases |batch|
  {
    if batch == [] then Sweep([], [], false)
    else
      var (t, s) := RunTask(host, config, batch[0]);
      if !host.logWritten(t) then Sweep([], s, true)
      else
        var rest := RunBatch(host, config, batch[1..]);
        Sweep([t] + rest.done, s + rest.statements, rest.failed)
  }

  // ---------------------------------------------------------------------------
  // TaskExecutor: the transactions

  /** The tasks run and logged, the statements issued, and the error rethrown, if any. */
  datatype Exec = Exec(finished: seq<MigrationTask>, ops: seq<DbOp>, error: Option<Error>)

  /** The bookkeeping of `n` Relaxed batches: each is begun, then committed, rolled
      back after a failure, or rolled back after a commit that failed. */
  ghost predicate BatchTransactions(c: seq<DbOp>, n: nat)
    decreases n
  {
    if n == 0 then c == []
    else
      || (|c| >= 2 && c[..2] == [Begin, Commit] && BatchTransactions(c[2..], n - 1))
      || (|c| >= 2 && c[..2] == [Begin, Rollback] && BatchTransactions(c[2..], n - 1))
      || (|c| >= 3 && c[..3] == [Begin, Commit, Rollback] && BatchTransactions(c[3..], n - 1))
  }

  /** The Relaxed loop from the `k`-th batch on: each batch in its own transaction;
      a failed batch is rolled back and the loop goes on. */
  function RelaxedQueue(host: RunnerHost, config: RunnerConfig, queue: seq<seq<MigrationTask>>, k: nat): (r: Exec)
    requires Ready(host, queue)
    ensures r.error.None?
    ensures |r.finished| <= |Flatten(queue)|
    decreases |queue|
  {
    if queue == [] then Exec([], [], Option.None)
    else
      ReadySplit(host, queue);
      var b := RunBatch(host, config, queue[0]);
      var close := if b.failed then [Rollback] else if host.batchCommits(k) then [Commit] else [Commit, Rollback];
      var rest := RelaxedQueue(host, config, queue[1..], k + 1);
      Exec(b.done + rest.finished, [Begin] + b.statements + close + rest.ops, Option.None)
  }

  /** The Strict loop: every batch inside the global transaction; a failed batch rolls
      that transaction back and raises `MigrationFailedInStrictMode`, which ends the loop. */
  function StrictQueue(host: RunnerHost, config: RunnerConfig, queue: seq<seq<MigrationTask>>): (r: Exec)
    requires Ready(host, queue)
    ensures r.error.None? || r.error == Some(MigrationFailedInStrictMode)
    ensures r.error.None? ==> |r.finished| == |Flatten(queue)|
    ensures r.error.Some? ==> |r.finished| < |Flatten(queue)|
    decreases |queue|
  {
    if queue == [] then Exec([], [], Option.None)
    else
      ReadySplit(host, queue);
      var b := RunBatch(host, config, queue[0]);
      if b.failed then Exec(b.done, b.statements + [Rollback], Some(MigrationFailedInStrictMode))
      else
        var rest := StrictQueue(host, config, queue[1..]);
        Exec(b.done + rest.finished, b.statements + rest.ops, rest.error)
  }

  /** The end of the global transaction, as written. After a failed batch the outer
      handler rolls back the global transaction again, but the batch handler has
      already rolled that same transaction back: the provider refuses the second
      rollback before anything reaches the server, and its exception replaces the
      one being rethrown. Otherwise the transaction is committed, and a failed
      commit is rolled back and rethrown. */
  function StrictClosing(host: RunnerHost, q: Exec): (r: Exec)
    ensures r.finished == q.finished
    ensures q.error.Some? ==> r.error == Some(TransactionCompleted) && r.ops == q.ops
    ensures q.error.None? && host.globalCommit.None? ==> r.error.None? && r.ops == q.ops + [Commit]
    ensures q.error.None? && host.globalCommit.Some? ==>
              r.error == Some(Database(host.globalCommit.value)) && r.ops == q.ops + [Commit, Rollback]
  {
    if q.error.Some? then q.(error := Some(TransactionCompleted))
    else if host.globalCommit.None? then q.(ops := q.ops + [Commit])
    else q.(ops := q.ops + [Commit, Rollback], error := Some(Database(host.globalCommit.value)))
  }

  /** The end of the global transaction as evidently intended: a transaction the
      batch handler has already rolled back is left alone, so the documented
      `MigrationFailedInStrictModeException` reaches the caller. */
  function StrictClosingCorrected(host: RunnerHost, q: Exec): (r: Exec)
    ensures r.finished == q.finished && r.ops == StrictClosing(host, q).ops
    ensures q.error.Some? ==> r.error == q.error
    ensures q.error.None? ==> r == StrictClosing(host, q)
  {
    if q.error.Some? then q else StrictClosing(host, q)
  }

  /** `ExecuteBatches`: the connection opened, the queue drained in the mode's
      transactions, and the connection closed on every path. */
  function ExecuteBatches(host: RunnerHost, config: RunnerConfig, queue: seq<seq<MigrationTask>>): (r: Exec)
    requires Ready(host, queue)
    ensures |r.ops| >= 2 && r.ops[0] == Open && r.ops[|r.ops| - 1] == Close
    ensures config.mode == TaskRunnerMode.Relaxed ==> r.error.None?
  {
    if config.mode == TaskRunnerMode.Strict then StrictExecute(host, config, queue)
    else RelaxedExecute(host, config, queue)
  }

  /** Strict mode: the connection opened and the global transaction begun before the loop. */
  function StrictExecute(host: RunnerHost, config: RunnerConfig, queue: seq<seq<MigrationTask>>): (r: Exec)
    requires Ready(host, queue)
    ensures |r.ops| >= 2 && r.ops[0] == Open && r.ops[1] == Begin && r.ops[|r.ops| - 1] == Close
  {
    var q := StrictClosing(host, StrictQueue(host, config, queue));
    q.(ops := [Open, Begin] + q.ops + [Close])
  }

  /** Strict mode with the corrected end of the global transaction. */
  function StrictExecuteCorrected(host: RunnerHost, config: RunnerConfig, queue: seq<seq<MigrationTask>>): (r: Exec)
    requires Ready(host, queue)
    ensures |r.ops| >= 2 && r.ops[0] == Open && r.ops[1] == Begin && r.ops[|r.ops| - 1] == Close
  {
    var q := StrictClosingCorrected(host, StrictQueue(host, config, queue));
    q.(ops := [Open, Begin] + q.ops + [Close])
  }

  /** Relaxed mode: the connection opened before the loop; each batch begins its own transaction. */
  function RelaxedExecute(host: RunnerHost, config: RunnerConfig, queue: seq<seq<MigrationTask>>): (r: Exec)
    requires Ready(host, queue)
    ensures |r.ops| >= 2 && r.ops[0] == Open && r.ops[|r.ops| - 1] == Close
    ensures r.error.None?
  {
    var q := RelaxedQueue(host, config, queue, 0);
    q.(ops := [Open] + q.ops + [Close])
  }

  // ---------------------------------------------------------------------------
  // TaskRunner.Run

  /** The outcome of `Run`: every log entry written, the statements issued, and the error thrown, if any. */
  datatype RunnerRun = RunnerRun(journal: seq<MigrationTask>, ops: seq<DbOp>, error: Option<Error>)

  function RunPlan(host: RunnerHost, config: RunnerConfig): seq<Folder> {
    RunnerPlan(config.migration, DetectEnvironment(host.environment), config.target)
  }

  /** `Run`: the configuration handed to the executor, the tasks prepared, then executed. */
  function Run(host: RunnerHost, config: RunnerConfig): (r: RunnerRun)
    requires TotalPreorder(host.nameOrder)
    ensures r.ops == [] <==> PrepareTasks(host, config, RunPlan(host, config), []).error.Some?
    ensures r.ops != [] ==> r.ops[0] == Open && r.ops[|r.ops| - 1] == Close
  {
    var g := PrepareTasks(host, config, RunPlan(host, config), []);
    if g.error.Some? then RunnerRun(g.journal, [], g.error)
    else
      assert forall k :: 0 <= k < |Flatten(g.queue)| ==> Flatten(g.queue)[k] in Flatten(g.queue);
      var x := ExecuteBatches(host, config, g.queue);
      RunnerRun(g.journal + x.finished, x.ops, x.error)
  }
}

/** What the legacy pipeline promises: the partition of a folder's scripts in each
    mode, the outcome of the retry loop, and the transaction shapes of the two modes. */
module LegacyProperties {
  import opened Wrappers
  import opened Enumerations
  import opened Errors
  import opened Scripts
  import opened Ordering
  import opened BatchProcessor
  import opened Configurations
  import opened Plans
  import opened Database
  import opened Legacy

  // ---------------------------------------------------------------------------
  // Gathering

  /** An ineligible task is logged as unsafe whenever it is unsafe, and otherwise as badly formed. */
  lemma SkipStatusSafetyWins(t: MigrationTask)
    requires !Eligible(t)
    ensures SkipStatus(t) == (if !t.script.IsSafe() then SkippedForSafety else SkippedForWrongSyntax)
    ensures Skipped(t).script == t.script && Skipped(t).retryCount == t.retryCount && Skipped(t).errors == t.errors
  {
  }

  /** A file is taken in without error: its script loads, and it is batched or its skip entry is written. */
  predicate Admissible(host: RunnerHost, loaded: Result<MigrationTask, Error>) {
    loaded.Success? && (Eligible(loaded.value) || host.logWritten(Skipped(loaded.value)))
  }

  predicate Clean(host: RunnerHost, loads: seq<Result<MigrationTask, Error>>) {
    forall i :: 0 <= i < |loads| ==> Admissible(host, loads[i])
  }

  /** The task a file contributes to the batches. */
  function SelectedOne(loaded: Result<MigrationTask, Error>): seq<MigrationTask> {
    if loaded.Success? && Eligible(loaded.value) then [loaded.value] else []
  }

  /** The skip entry a file contributes to the log. */
  function LoggedOne(host: RunnerHost, loaded: Result<MigrationTask, Error>): seq<MigrationTask> {
    if loaded.Success? && !Eligible(loaded.value) && host.logWritten(Skipped(loaded.value)) then [Skipped(loaded.value)] else []
  }

  /** The eligible tasks of the files, in file order. */
  function Selected(loads: seq<Result<MigrationTask, Error>>): seq<MigrationTask>
    decreases |loads|
  {
    if loads == [] then [] else Selected(loads[..|loads| - 1]) + SelectedOne(loads[|loads| - 1])
  }

  /** The skip entries of the files whose log write goes through, in file order. */
  function Logged(host: RunnerHost, loads: seq<Result<MigrationTask, Error>>): seq<MigrationTask>
    decreases |loads|
  {
    if loads == [] then [] else Logged(host, loads[..|loads| - 1]) + LoggedOne(host, loads[|loads| - 1])
  }

  /** One file: it stops the gathering exactly when Strict mode meets a file that is
      not admissible; otherwise it adds its selected task and its skip entry. */
  lemma CollectStep(host: RunnerHost, mode: TaskRunnerMode, loaded: Result<MigrationTask, Error>, acc: Gathering)
    requires acc.error.None?
    ensures var r := Collect(host, mode, loaded, acc);
            && (r.error.None? <==> Admissible(host, loaded) || mode == TaskRunnerMode.Relaxed)
            && (r.error.None? ==>
                  r.tasks == acc.tasks + SelectedOne(loaded) && r.journal == acc.journal + LoggedOne(host, loaded))
  {
  }

  /** `GetTasks`' loop over a folder's files: Relaxed mode drops whatever fails, Strict
      mode stops at the first file that fails; without an error the batched tasks are
      the eligible ones and the log holds the written skip entries, both in file order. */
  lemma {:induction false} CollectAllSelects(host: RunnerHost, mode: TaskRunnerMode, loads: seq<Result<MigrationTask, Error>>, journal: seq<MigrationTask>)
    requires RunnableLoads(host, loads)
    ensures var g := CollectAll(host, mode, loads, journal);
            && (mode == TaskRunnerMode.Relaxed ==> g.error.None?)
            && (mode == TaskRunnerMode.Strict ==> (g.error.None? <==> Clean(host, loads)))
            && (g.error.None? ==> g.tasks == Selected(loads) && g.journal == journal + Logged(host, loads))
    decreases |loads|
  {
    if loads != [] {
      var prefix := loads[..|loads| - 1];
      var last := loads[|loads| - 1];
      assert RunnableLoads(host, prefix) by {
        assert forall i :: 0 <= i < |prefix| ==> prefix[i] == loads[i];
      }
      CollectAllSelects(host, mode, prefix, journal);
      assert Clean(host, loads) <==> Clean(host, prefix) && Admissible(host, last) by {
        assert forall i :: 0 <= i < |prefix| ==> prefix[i] == loads[i];
      }
      var acc := CollectAll(host, mode, prefix, journal);
      if acc.error.None? {
        CollectStep(host, mode, last, acc);
        assert journal + Logged(host, prefix) + LoggedOne(host, last) == journal + (Logged(host, prefix) + LoggedOne(host, last));
      }
    }
  }

  /** A missing folder raises `MigrationFolderNotFound` in either mode and queues nothing. */
  lemma GetTasksMissingFolder(host: RunnerHost, config: RunnerConfig, folder: Folder, journal: seq<MigrationTask>)
    requires TotalPreorder(host.nameOrder)
    requires !host.fs.dirExists(FolderPath(host.cwd, folder))
    ensures GetTasks(host, config, folder, journal) == Gathered([], journal, Some(MigrationFolderNotFound(FolderPath(host.cwd, folder))))
  {
  }

  /** A folder gathered without error: its eligible tasks, sorted by name (descending
      for a Down folder), cut into batches of at most `BatchCount`. */
  lemma GetTasksBatches(host: RunnerHost, config: RunnerConfig, folder: Folder, journal: seq<MigrationTask>)
    requires TotalPreorder(host.nameOrder)
    requires host.fs.dirExists(FolderPath(host.cwd, folder))
    requires config.mode == TaskRunnerMode.Relaxed || Clean(host, LoadAll(host, host.fs.sqlFiles(FolderPath(host.cwd, folder))))
    ensures var loads := LoadAll(host, host.fs.sqlFiles(FolderPath(host.cwd, folder)));
            var g := GetTasks(host, config, folder, journal);
            && g.error.None?
            && g.journal == journal + Logged(host, loads)
            && multiset(Flatten(g.queue)) == multiset(Selected(loads))
            && (forall i :: 0 <= i < |g.queue| ==> 0 < |g.queue[i]| <= BatchCount)
            && (folder.direction == Up ==> SortedBy(Flatten(g.queue), TaskName, host.nameOrder))
            && (folder.direction != Up ==> SortedBy(Flatten(g.queue), TaskName, Flip(host.nameOrder)))
  {
    CollectAllSelects(host, config.mode, LoadAll(host, host.fs.sqlFiles(FolderPath(host.cwd, folder))), journal);
  }

  /** In Relaxed mode preparation can only fail on a missing folder. */
  lemma {:induction false} RelaxedPrepareErrors(host: RunnerHost, config: RunnerConfig, plan: seq<Folder>, journal: seq<MigrationTask>)
    requires TotalPreorder(host.nameOrder)
    requires config.mode == TaskRunnerMode.Relaxed
    ensures var g := PrepareTasks(host, config, plan, journal);
            g.error.None? || g.error.value.MigrationFolderNotFound?
    decreases |plan|
  {
    if plan != [] {
      RelaxedPrepareErrors(host, config, plan[..|plan| - 1], journal);
      var g := PrepareTasks(host, config, plan[..|plan| - 1], journal);
      if g.error.None? {
        var folder := plan[|plan| - 1];
        CollectAllSelects(host, config.mode, LoadAll(host, host.fs.sqlFiles(FolderPath(host.cwd, folder))), g.journal);
      }
    }
  }

  /** The history switch is never read: preparation is the same with it on or off. */
  lemma {:induction false} PrepareIgnoresIncremental(host: RunnerHost, config: RunnerConfig, plan: seq<Folder>, journal: seq<MigrationTask>, incremental: bool)
    requires TotalPreorder(host.nameOrder)
    ensures PrepareTasks(host, config, plan, journal) == PrepareTasks(host, config.(executeIncrementally := incremental), plan, journal)
    decreases |plan|
  {
    if plan != [] {
      var front := plan[..|plan| - 1];
      PrepareIgnoresIncremental(host, config, front, journal, incremental);
      var g := PrepareTasks(host, config, front, journal);
      if g.error.None? {
        GetTasksIgnoresIncremental(host, config, plan[|plan| - 1], g.journal, incremental);
      }
    }
  }

  lemma GetTasksIgnoresIncremental(host: RunnerHost, config: RunnerConfig, folder: Folder, journal: seq<MigrationTask>, incremental: bool)
    requires TotalPreorder(host.nameOrder)
    ensures GetTasks(host, config, folder, journal) == GetTasks(host, config.(executeIncrementally := incremental), folder, journal)
  {
  }

  /** Outside Development the runner reads at most `Schemas/Down`, then `StoredProcedures/Up`. */
  lemma RunnerPlanOutsideDevelopment(t: MigrationType, env: HostEnvironment, targets: set<Category>)
    requires env != Development
    ensures RunnerPlan(t, env, targets) ==
              (if Covers(t, Down) && Schemas in targets then [Folder(Schemas, Down)] else [])
              + (if Covers(t, Up) && Procs in targets then [Folder(Procs, Up)] else [])
  {
    assert RunnerDownOrder[1..][1..][1..] == [];
    assert RunnerUpOrder[1..][1..][1..] == [];
  }

  // ---------------------------------------------------------------------------
  // The retry loop

  /** A fresh task completes exactly when some attempt within its retry budget runs
      without throwing; otherwise it ends with every retry used and one message per retry. */
  lemma RunTaskCompletesIff(host: RunnerHost, config: RunnerConfig, t: MigrationTask)
    requires Runnable(host, t)
    requires t.status != Completed && t.status != Failed
    requires t.retryCount <= config.maxRetryCount
    ensures var r := RunTask(host, config, t).0;
            && (r.status == Completed <==>
                  exists i :: t.retryCount <= i < config.maxRetryCount && host.throws(t.script.absolutePath, i).None?)
            && (r.status != Completed ==>
                  r.retryCount == config.maxRetryCount && |r.errors| == |t.errors| + (config.maxRetryCount - t.retryCount))
            && r.status != Failed
  {
    RunTaskFacts(host, config, t);
    var r := RunTask(host, config, t).0;
    if r.status == Completed {
      assert host.throws(t.script.absolutePath, r.retryCount).None?;
    }
  }

  // ---------------------------------------------------------------------------
  // Batches

  /** The outcome of each task is what its own retry loop leaves it as. */
  lemma {:induction false} OutcomesAt(host: RunnerHost, config: RunnerConfig, tasks: seq<MigrationTask>, i: int)
    requires AllRunnable(host, tasks) && 0 <= i < |tasks|
    ensures Outcomes(host, config, tasks)[i] == RunTask(host, config, tasks[i]).0
    decreases |tasks|
  {
    if i > 0 {
      OutcomesAt(host, config, tasks[1..], i - 1);
    }
  }

  lemma {:induction false} OutcomesAppend(host: RunnerHost, config: RunnerConfig, a: seq<MigrationTask>, b: seq<MigrationTask>)
    requires AllRunnable(host, a) && AllRunnable(host, b)
    ensures AllRunnable(host, a + b)
    ensures Outcomes(host, config, a + b) == Outcomes(host, config, a) + Outcomes(host, config, b)
    decreases |a|
  {
    AllRunnableAppend(host, a, b);
    if a == [] {
      assert a + b == b;
    } else {
      AllRunnableTail(host, a);
      OutcomesAppend(host, config, a[1..], b);
      OutcomesAppendStep(host, config, a, b);
    }
  }

  lemma AllRunnableAppend(host: RunnerHost, a: seq<MigrationTask>, b: seq<MigrationTask>)
    requires AllRunnable(host, a) && AllRunnable(host, b)
    ensures AllRunnable(host, a + b)
  {
    assert forall j :: |a| <= j < |a + b| ==> (a + b)[j] == b[j - |a|];
  }

  lemma OutcomesAppendStep(host: RunnerHost, config: RunnerConfig, a: seq<MigrationTask>, b: seq<MigrationTask>)
    requires a != [] && AllRunnable(host, a) && AllRunnable(host, b)
    requires AllRunnable(host, a[1..]) && AllRunnable(host, a[1..] + b) && AllRunnable(host, a + b)
    requires Outcomes(host, config, a[1..] + b) == Outcomes(host, config, a[1..]) + Outcomes(host, config, b)
    ensures Outcomes(host, config, a + b) == Outcomes(host, config, a) + Outcomes(host, config, b)
  {
    assert (a + b)[0] == a[0] && (a + b)[1..] == a[1..] + b;
    ConsAssoc(RunTask(host, config, a[0]).0, Outcomes(host, config, a[1..]), Outcomes(host, config, b));
  }

  lemma ConsAssoc<T>(h: T, x: seq<T>, y: seq<T>)
    ensures [h] + (x + y) == ([h] + x) + y
  {
  }

  lemma LogsAcceptedAppend(host: RunnerHost, a: seq<MigrationTask>, b: seq<MigrationTask>)
    ensures LogsAccepted(host, a + b) <==> LogsAccepted(host, a) && LogsAccepted(host, b)
  {
    if LogsAccepted(host, a + b) {
      assert forall i :: 0 <= i < |a| ==> a[i] == (a + b)[i];
      assert forall i :: 0 <= i < |b| ==> b[i] == (a + b)[|a| + i];
    }
  }

  /** A batch runs its tasks' loops in order and logs each outcome; it stops at the
      first outcome whose log entry is refused, and fails exactly when there is one. */
  lemma {:induction false} RunBatchSettles(host: RunnerHost, config: RunnerConfig, batch: seq<MigrationTask>)
    requires AllRunnable(host, batch)
    ensures Settles(host, RunBatch(host, config, batch), Outcomes(host, config, batch))
    decreases |batch|
  {
    if batch != [] {
      var rest := batch[1..];
      AllRunnableTail(host, batch);
      var (t, stmts) := RunTask(host, config, batch[0]);
      assert Outcomes(host, config, batch) == [t] + Outcomes(host, config, rest);
      if host.logWritten(t) {
        RunBatchSettles(host, config, rest);
        var r := RunBatch(host, config, rest);
        assert RunBatch(host, config, batch) == Sweep([t] + r.done, stmts + r.statements, r.failed);
        SettlesCons(host, t, r, Outcomes(host, config, rest), stmts);
      } else {
        assert RunBatch(host, config, batch) == Sweep([], stmts, true);
      }
    }
  }

  /** The outcome of a batch against the outcomes of its tasks: what was logged is a
      prefix of them, all accepted; it stops at the first refused entry, and fails
      exactly when there is one. */
  predicate Settles(host: RunnerHost, r: Sweep, o: seq<MigrationTask>) {
    && |r.done| <= |o|
    && r.done == o[..|r.done|]
    && LogsAccepted(host, r.done)
    && (r.failed ==> |r.done| < |o| && !host.logWritten(o[|r.done|]))
    && (LogsAccepted(host, o) <==> !r.failed)
  }

  lemma SettlesCons(host: RunnerHost, t: MigrationTask, r: Sweep, o: seq<MigrationTask>, stmts: seq<DbOp>)
    requires host.logWritten(t) && Settles(host, r, o)
    ensures Settles(host, Sweep([t] + r.done, stmts + r.statements, r.failed), [t] + o)
  {
    LogsAcceptedAppend(host, [t], o);
    LogsAcceptedAppend(host, [t], r.done);
    assert ([t] + o)[..1 + |r.done|] == [t] + o[..|r.done|];
  }

  // ---------------------------------------------------------------------------
  // Strict mode

  /** The statements of a Strict loop: script executions only, ended by one rollback on failure. */
  predicate StrictStatements(r: Exec) {
    && (r.error.None? ==> Statements(r.ops))
    && (r.error.Some? ==> |r.ops| > 0 && r.ops[|r.ops| - 1] == Rollback && Statements(r.ops[..|r.ops| - 1]))
  }

  lemma StrictStatementsPrepend(a: seq<DbOp>, r: Exec, done: seq<MigrationTask>)
    requires Statements(a) && StrictStatements(r)
    ensures StrictStatements(Exec(done, a + r.ops, r.error))
  {
    if r.error.Some? {
      assert (a + r.ops)[..|a + r.ops| - 1] == a + r.ops[..|r.ops| - 1];
    }
  }

  /** The Strict loop only executes scripts until a batch fails, and then rolls back once. */
  lemma {:induction false} StrictQueueStatements(host: RunnerHost, config: RunnerConfig, queue: seq<seq<MigrationTask>>)
    requires Ready(host, queue)
    ensures StrictStatements(StrictQueue(host, config, queue))
    decreases |queue|
  {
    if queue != [] {
      ReadySplit(host, queue);
      var b := RunBatch(host, config, queue[0]);
      if b.failed {
        assert (b.statements + [Rollback])[..|b.statements|] == b.statements;
      } else {
        StrictQueueStatements(host, config, queue[1..]);
        StrictStatementsPrepend(b.statements, StrictQueue(host, config, queue[1..]), b.done);
      }
    }
  }

  /** A Strict loop whose first batch fails stops there, at the refused entry: it
      throws `MigrationFailedInStrictModeException`, has logged only tasks of that
      batch, and after the batch's scripts issues nothing but one rollback. */
  lemma StrictFirstBatchFails(host: RunnerHost, config: RunnerConfig, queue: seq<seq<MigrationTask>>)
    requires queue != [] && Ready(host, queue)
    requires AllRunnable(host, queue[0]) && RunBatch(host, config, queue[0]).failed
    ensures var r := StrictQueue(host, config, queue);
            var o := Outcomes(host, config, Flatten(queue));
            && r.finished == o[..|r.finished|]
            && LogsAccepted(host, r.finished)
            && r.error == Some(MigrationFailedInStrictMode) && !LogsAccepted(host, o)
            && |r.finished| < |queue[0]|
            && r.ops == RunBatch(host, config, queue[0]).statements + [Rollback]
            && Statements(RunBatch(host, config, queue[0]).statements)
  {
    ReadySplit(host, queue);
    RunBatchSettles(host, config, queue[0]);
    OutcomesAppend(host, config, queue[0], Flatten(queue[1..]));
    var ob := Outcomes(host, config, queue[0]);
    var orest := Outcomes(host, config, Flatten(queue[1..]));
    var b := RunBatch(host, config, queue[0]);
    assert !host.logWritten((ob + orest)[|b.done|]);
    assert (ob + orest)[..|b.done|] == ob[..|b.done|];
  }

  /** A Strict loop whose first batch goes through continues with the rest of the
      queue under the same transaction: the batch's scripts are followed directly by
      the rest's statements, with no commit, rollback or new transaction between. */
  lemma StrictFirstBatchPasses(host: RunnerHost, config: RunnerConfig, queue: seq<seq<MigrationTask>>)
    requires queue != [] && Ready(host, queue)
    requires AllRunnable(host, queue[0]) && !RunBatch(host, config, queue[0]).failed
    requires Ready(host, queue[1..])
    requires var r := StrictQueue(host, config, queue[1..]);
             var o := Outcomes(host, config, Flatten(queue[1..]));
             && r.finished == o[..|r.finished|]
             && LogsAccepted(host, r.finished)
             && (r.error.None? <==> LogsAccepted(host, o))
    ensures var r := StrictQueue(host, config, queue);
            var o := Outcomes(host, config, Flatten(queue));
            && r.finished == o[..|r.finished|]
            && LogsAccepted(host, r.finished)
            && (r.error.None? <==> LogsAccepted(host, o))
    ensures var b := RunBatch(host, config, queue[0]);
            var rest := StrictQueue(host, config, queue[1..]);
            && StrictQueue(host, config, queue).ops == b.statements + rest.ops
            && Statements(b.statements)
            && StrictQueue(host, config, queue).error == rest.error
  {
    ReadySplit(host, queue);
    RunBatchSettles(host, config, queue[0]);
    OutcomesAppend(host, config, queue[0], Flatten(queue[1..]));
    var ob := Outcomes(host, config, queue[0]);
    var orest := Outcomes(host, config, Flatten(queue[1..]));
    LogsAcceptedAppend(host, ob, orest);
    var b := RunBatch(host, config, queue[0]);
    var rest := StrictQueue(host, config, queue[1..]);
    assert b.done == ob;
    LogsAcceptedAppend(host, b.done, rest.finished);
    PrefixAppend(ob, orest, |rest.finished|);
  }

  lemma PrefixAppend<T>(a: seq<T>, b: seq<T>, k: int)
    requires 0 <= k <= |b|
    ensures (a + b)[..|a| + k] == a + b[..k]
  {
  }

  /** The Strict loop runs the tasks in queue order and logs each outcome; it stops at
      the first refused log entry and fails exactly when there is one. */
  lemma {:induction false} StrictQueueSettles(host: RunnerHost, config: RunnerConfig, queue: seq<seq<MigrationTask>>)
    requires Ready(host, queue)
    ensures var r := StrictQueue(host, config, queue);
            var o := Outcomes(host, config, Flatten(queue));
            && r.finished == o[..|r.finished|]
            && LogsAccepted(host, r.finished)
            && (r.error.None? <==> LogsAccepted(host, o))
    decreases |queue|
  {
    if queue != [] {
      ReadySplit(host, queue);
      if RunBatch(host, config, queue[0]).failed {
        StrictFirstBatchFails(host, config, queue);
      } else {
        StrictQueueSettles(host, config, queue[1..]);
        StrictFirstBatchPasses(host, config, queue);
      }
    }
  }

  /** A Strict run ends in one of three ways: committed; a refused log entry, after
      which the refused second rollback's `TransactionCompleted` escapes in place of
      `MigrationFailedInStrictMode`; or a refused commit, which is rethrown. */
  lemma StrictOutcome(host: RunnerHost, config: RunnerConfig, queue: seq<seq<MigrationTask>>)
    requires Ready(host, queue)
    ensures var r := StrictExecute(host, config, queue);
            var o := Outcomes(host, config, Flatten(queue));
            && (r.error.None? <==> LogsAccepted(host, o) && host.globalCommit.None?)
            && (r.error == Some(TransactionCompleted) <==> !LogsAccepted(host, o))
            && (r.error.Some? && r.error != Some(TransactionCompleted) ==>
                  host.globalCommit.Some? && r.error == Some(Database(host.globalCommit.value)))
            && r.error != Some(MigrationFailedInStrictMode)
            && r.finished == o[..|r.finished|]
  {
    StrictQueueSettles(host, config, queue);
  }

  /** The end of the global transaction, as bookkeeping: a failed loop has rolled back
      once and nothing follows; otherwise a commit, rolled back when it fails. */
  lemma StrictClosingControl(host: RunnerHost, q: Exec)
    requires q.error.None? ==> Statements(q.ops)
    requires q.error.Some? ==> |q.ops| > 0 && q.ops[|q.ops| - 1] == Rollback && Statements(q.ops[..|q.ops| - 1])
    ensures Control(StrictClosing(host, q).ops)
              == if q.error.Some? then [Rollback] else if host.globalCommit.None? then [Commit] else [Commit, Rollback]
  {
    var tail := if q.error.Some? then [Rollback] else if host.globalCommit.None? then [Commit] else [Commit, Rollback];
    var body := if q.error.Some? then q.ops[..|q.ops| - 1] else q.ops;
    assert StrictClosing(host, q).ops == body + tail by {
      if q.error.Some? {
        assert q.ops == body + [Rollback];
      }
    }
    ControlOfStatements(body);
    ControlAppend(body, tail);
    ControlOfBookkeeping(tail);
  }

  /** The bookkeeping of a Strict run: one connection, one transaction begun, and one
      of three endings. */
  lemma StrictControl(host: RunnerHost, config: RunnerConfig, queue: seq<seq<MigrationTask>>)
    requires Ready(host, queue)
    ensures var r := StrictExecute(host, config, queue);
            && (r.error.None? ==> Control(r.ops) == [Open, Begin, Commit, Close])
            && (r.error == Some(TransactionCompleted) ==> Control(r.ops) == [Open, Begin, Rollback, Close])
            && (r.error.Some? && r.error != Some(TransactionCompleted) ==>
                  Control(r.ops) == [Open, Begin, Commit, Rollback, Close])
  {
    StrictQueueStatements(host, config, queue);
    StrictRunControl(host, StrictQueue(host, config, queue));
  }

  lemma StrictRunControl(host: RunnerHost, q: Exec)
    requires q.error.None? || q.error == Some(MigrationFailedInStrictMode)
    requires q.error.None? ==> Statements(q.ops)
    requires q.error.Some? ==> |q.ops| > 0 && q.ops[|q.ops| - 1] == Rollback && Statements(q.ops[..|q.ops| - 1])
    ensures var c := StrictClosing(host, q);
            var ops := [Open, Begin] + c.ops + [Close];
            && (c.error.None? ==> Control(ops) == [Open, Begin, Commit, Close])
            && (c.error == Some(TransactionCompleted) ==> Control(ops) == [Open, Begin, Rollback, Close])
            && (c.error.Some? && c.error != Some(TransactionCompleted) ==>
                  Control(ops) == [Open, Begin, Commit, Rollback, Close])
  {
    StrictClosingControl(host, q);
    var c := StrictClosing(host, q);
    ControlAppend([Open, Begin] + c.ops, [Close]);
    ControlAppend([Open, Begin], c.ops);
    ControlOfBookkeeping([Open, Begin]);
    ControlOfBookkeeping([Close]);
  }

  /** The documented Strict exception never escapes: after a refused log entry the
      program as written throws `TransactionCompleted` where the corrected closing
      throws `MigrationFailedInStrictMode`. Both issue the same statements, with a
      single rollback. */
  lemma StrictDocumentedExceptionLost(host: RunnerHost, config: RunnerConfig, queue: seq<seq<MigrationTask>>)
    requires Ready(host, queue)
    requires !LogsAccepted(host, Outcomes(host, config, Flatten(queue)))
    ensures var r := StrictExecute(host, config, queue);
            var c := StrictExecuteCorrected(host, config, queue);
            && r.error == Some(TransactionCompleted)
            && c.error == Some(MigrationFailedInStrictMode)
            && r.ops == c.ops && r.finished == c.finished
            && Control(r.ops) == [Open, Begin, Rollback, Close]
  {
    StrictOutcome(host, config, queue);
    StrictControl(host, config, queue);
    StrictQueueSettles(host, config, queue);
  }

  /** The corrected Strict run ends committed; with `MigrationFailedInStrictMode`,
      exactly when a log entry is refused, after a single rollback; or with a refused
      commit's own error. */
  lemma StrictCorrectedOutcome(host: RunnerHost, config: RunnerConfig, queue: seq<seq<MigrationTask>>)
    requires Ready(host, queue)
    ensures var r := StrictExecuteCorrected(host, config, queue);
            var o := Outcomes(host, config, Flatten(queue));
            && (r.error.None? <==> LogsAccepted(host, o) && host.globalCommit.None?)
            && (r.error == Some(MigrationFailedInStrictMode) <==> !LogsAccepted(host, o))
            && (r.error.None? ==> Control(r.ops) == [Open, Begin, Commit, Close])
            && (r.error == Some(MigrationFailedInStrictMode) ==> Control(r.ops) == [Open, Begin, Rollback, Close])
            && (r.error.Some? && r.error != Some(MigrationFailedInStrictMode) ==>
                  && host.globalCommit.Some? && r.error == Some(Database(host.globalCommit.value))
                  && Control(r.ops) == [Open, Begin, Commit, Rollback, Close])
            && r.finished == o[..|r.finished|]
  {
    StrictOutcome(host, config, queue);
    StrictControl(host, config, queue);
    StrictQueueSettles(host, config, queue);
  }

  /** Strict mode does not look at how the tasks ended: when every statement throws,
      every task ends uncompleted with all its retries used, and the run still commits. */
  lemma StrictCommitsExhaustedTasks(host: RunnerHost, config: RunnerConfig, queue: seq<seq<MigrationTask>>)
    requires Ready(host, queue)
    requires forall k :: 0 <= k < |Flatten(queue)| ==> Flatten(queue)[k].status == New && Flatten(queue)[k].retryCount == 0
    requires config.maxRetryCount >= 0
    requires forall p: string, n: int :: host.throws(p, n).Some?
    requires LogsAccepted(host, Outcomes(host, config, Flatten(queue))) && host.globalCommit.None?
    ensures var r := StrictExecute(host, config, queue);
            && r.error.None?
            && Control(r.ops) == [Open, Begin, Commit, Close]
            && |r.finished| == |Flatten(queue)|
            && forall i :: 0 <= i < |r.finished| ==>
                 r.finished[i].status != Completed && r.finished[i].retryCount == config.maxRetryCount
  {
    StrictOutcome(host, config, queue);
    StrictControl(host, config, queue);
    var r := StrictExecute(host, config, queue);
    forall i | 0 <= i < |r.finished|
      ensures r.finished[i].status != Completed && r.finished[i].retryCount == config.maxRetryCount
    {
      OutcomesAt(host, config, Flatten(queue), i);
      RunTaskCompletesIff(host, config, Flatten(queue)[i]);
    }
  }

  // ---------------------------------------------------------------------------
  // Relaxed mode

  /** One Relaxed batch as bookkeeping: its executions vanish, leaving the begin and the ending. */
  lemma BatchControl(statements: seq<DbOp>, close: seq<DbOp>, rest: seq<DbOp>)
    requires Statements(statements)
    requires close == [Rollback] || close == [Commit] || close == [Commit, Rollback]
    ensures Control([Begin] + statements + close + rest) == [Begin] + close + Control(rest)
  {
    ControlAppend([Begin] + statements + close, rest);
    ControlAppend([Begin] + statements, close);
    ControlAppend([Begin], statements);
    ControlOfStatements(statements);
    ControlOfBookkeeping([Begin]);
    ControlOfBookkeeping(close);
  }

  lemma BatchTransactionsStep(close: seq<DbOp>, c: seq<DbOp>, n: nat)
    requires close == [Rollback] || close == [Commit] || close == [Commit, Rollback]
    requires BatchTransactions(c, n)
    ensures BatchTransactions([Begin] + close + c, n + 1)
  {
    var d := [Begin] + close + c;
    assert d[|close| + 1..] == c;
  }

  /** The Relaxed loop gives each batch its own transaction. */
  lemma {:induction false} RelaxedTransactions(host: RunnerHost, config: RunnerConfig, queue: seq<seq<MigrationTask>>, k: nat)
    requires Ready(host, queue)
    ensures BatchTransactions(Control(RelaxedQueue(host, config, queue, k).ops), |queue|)
    decreases |queue|
  {
    if queue != [] {
      ReadySplit(host, queue);
      var b := RunBatch(host, config, queue[0]);
      var close := if b.failed then [Rollback] else if host.batchCommits(k) then [Commit] else [Commit, Rollback];
      var rest := RelaxedQueue(host, config, queue[1..], k + 1);
      RelaxedTransactions(host, config, queue[1..], k + 1);
      BatchControl(b.statements, close, rest.ops);
      BatchTransactionsStep(close, Control(rest.ops), |queue| - 1);
    }
  }

  /** A Relaxed run opens one connection, gives every batch its own transaction, and never rethrows. */
  lemma RelaxedControl(host: RunnerHost, config: RunnerConfig, queue: seq<seq<MigrationTask>>)
    requires Ready(host, queue)
    ensures var r := RelaxedExecute(host, config, queue);
            && r.error.None?
            && |Control(r.ops)| >= 2
            && Control(r.ops)[0] == Open && Control(r.ops)[|Control(r.ops)| - 1] == Close
            && BatchTransactions(Control(r.ops)[1..|Control(r.ops)| - 1], |queue|)
  {
    var q := RelaxedQueue(host, config, queue, 0);
    RelaxedTransactions(host, config, queue, 0);
    ControlAppend([Open] + q.ops, [Close]);
    ControlAppend([Open], q.ops);
    ControlOfBookkeeping([Open]);
    ControlOfBookkeeping([Close]);
    var c := Control(RelaxedExecute(host, config, queue).ops);
    assert c == [Open] + Control(q.ops) + [Close];
    assert c[1..|c| - 1] == Control(q.ops);
  }

  /** The outcomes of a queue are those of its first batch, then those of the rest. */
  lemma QueueOutcomesSplit(host: RunnerHost, config: RunnerConfig, queue: seq<seq<MigrationTask>>)
    requires queue != [] && Ready(host, queue)
    ensures AllRunnable(host, queue[0]) && Ready(host, queue[1..])
    ensures Outcomes(host, config, Flatten(queue)) == Outcomes(host, config, queue[0]) + Outcomes(host, config, Flatten(queue[1..]))
    ensures LogsAccepted(host, Outcomes(host, config, Flatten(queue))) <==>
              LogsAccepted(host, Outcomes(host, config, queue[0])) && LogsAccepted(host, Outcomes(host, config, Flatten(queue[1..])))
  {
    ReadySplit(host, queue);
    OutcomesAppend(host, config, queue[0], Flatten(queue[1..]));
    LogsAcceptedAppend(host, Outcomes(host, config, queue[0]), Outcomes(host, config, Flatten(queue[1..])));
  }

  lemma RelaxedStep(host: RunnerHost, config: RunnerConfig, queue: seq<seq<MigrationTask>>, k: nat)
    requires queue != [] && Ready(host, queue)
    requires AllRunnable(host, queue[0]) && Ready(host, queue[1..])
    requires LogsAccepted(host, Outcomes(host, config, Flatten(queue)))
    requires RelaxedQueue(host, config, queue[1..], k + 1).finished == Outcomes(host, config, Flatten(queue[1..]))
    ensures RelaxedQueue(host, config, queue, k).finished == Outcomes(host, config, Flatten(queue))
  {
    QueueOutcomesSplit(host, config, queue);
    var b := RunBatch(host, config, queue[0]);
    assert RelaxedQueue(host, config, queue, k).finished == b.done + RelaxedQueue(host, config, queue[1..], k + 1).finished;
    RunBatchSettles(host, config, queue[0]);
    assert b.done == Outcomes(host, config, queue[0]);
  }

  /** When every log entry is accepted, a Relaxed loop runs every task of the queue, in order. */
  lemma {:induction false} RelaxedRunsEveryTask(host: RunnerHost, config: RunnerConfig, queue: seq<seq<MigrationTask>>, k: nat)
    requires Ready(host, queue)
    requires LogsAccepted(host, Outcomes(host, config, Flatten(queue)))
    ensures RelaxedQueue(host, config, queue, k).finished == Outcomes(host, config, Flatten(queue))
    decreases |queue|
  {
    if queue != [] {
      QueueOutcomesSplit(host, config, queue);
      RelaxedRunsEveryTask(host, config, queue[1..], k + 1);
      RelaxedStep(host, config, queue, k);
    }
  }

  // ---------------------------------------------------------------------------
  // Run

  /** In Relaxed mode the only error a run rethrows is a missing folder. */
  lemma RelaxedRunErrors(host: RunnerHost, config: RunnerConfig)
    requires TotalPreorder(host.nameOrder) && config.mode == TaskRunnerMode.Relaxed
    ensures Run(host, config).error.None? || Run(host, config).error.value.MigrationFolderNotFound?
  {
    RelaxedPrepareErrors(host, config, RunPlan(host, config), []);
  }
}
