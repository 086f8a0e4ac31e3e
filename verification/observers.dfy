/** `Logger` (of the services): it accumulates the task logs, remembers the
    configuration it was shown, and writes one report at most. The report file and
    the console are outputs, so a written report is an entry of `reports`. */
module Reporting {
  import opened Enumerations
  import opened Models
  import opened Configurations

  datatype Summary = Summary(
    totalTimeTakenInMs: int,
    total: int,
    completed: int,
    failed: int,
    skippedForSafety: int,
    skippedForWrongSyntax: int)
  {
    /** The "Skipped tasks" figure printed on the console. */
    function Skipped(): int { skippedForSafety + skippedForWrongSyntax }
  }

  datatype Report = Report(configuration: EngineConfig, summary: Summary, tasks: seq<MigrationLog>)

  datatype Logger = Logger(
    logs: seq<MigrationLog>,
    configuration: EngineConfig,
    reportGenerated: bool,
    reports: seq<Report>)

  /** The logger as its constructor leaves it. */
  const NewLogger := Logger([], DefaultEngineConfig, false, [])

  /** `Log`: the entry goes at the end. */
  function Log(l: Logger, e: MigrationLog): Logger {
    l.(logs := l.logs + [e])
  }

  /** `LogConfiguration`: the configuration is kept for the report. */
  function LogConfiguration(l: Logger, c: EngineConfig): Logger {
    l.(configuration := c)
  }

  function Statuses(logs: seq<MigrationLog>): (r: seq<MigrationTaskStatus>)
    ensures |r| == |logs| && forall i :: 0 <= i < |logs| ==> r[i] == logs[i].status
  {
    if logs == [] then [] else [logs[0].status] + Statuses(logs[1..])
  }

  /** How many entries have status `s`: the multiplicity of `s` among the statuses. */
  function CountStatus(logs: seq<MigrationLog>, s: MigrationTaskStatus): (n: nat)
    ensures n == multiset(Statuses(logs))[s]
    decreases |logs|
  {
    if logs == [] then 0
    else
      assert Statuses(logs) == [logs[0].status] + Statuses(logs[1..]);
      (if logs[0].status == s then 1 else 0) + CountStatus(logs[1..], s)
  }

  /** An entry's duration; every entry the profiler logs carries a profile, and one without counts as zero. */
  function Duration(e: MigrationLog): int {
    if e.profile.Some? then e.profile.value.duration else 0
  }

  function TotalDuration(logs: seq<MigrationLog>): int
    decreases |logs|
  {
    if logs == [] then 0 else Duration(logs[0]) + TotalDuration(logs[1..])
  }

  function Summarize(logs: seq<MigrationLog>): Summary {
    Summary(
      TotalDuration(logs),
      |logs|,
      CountStatus(logs, Completed),
      CountStatus(logs, Failed),
      CountStatus(logs, SkippedForSafety),
      CountStatus(logs, SkippedForWrongSyntax))
  }

  /** `GenerateReport`: a report of the configuration, the summary and every log,
      written only the first time. */
  function GenerateReport(l: Logger): (r: Logger)
    ensures r.logs == l.logs && r.configuration == l.configuration && r.reportGenerated
    ensures l.reportGenerated ==> r == l
    ensures !l.reportGenerated ==> r.reports == l.reports + [Report(l.configuration, Summarize(l.logs), l.logs)]
  {
    if l.reportGenerated then l
    else l.(reports := l.reports + [Report(l.configuration, Summarize(l.logs), l.logs)], reportGenerated := true)
  }

  /** The report describes the configuration last shown to the logger, and showing
      one changes nothing else. */
  lemma ReportCarriesConfiguration(l: Logger, c: EngineConfig)
    requires !l.reportGenerated
    ensures LogConfiguration(l, c).logs == l.logs && !LogConfiguration(l, c).reportGenerated
    ensures GenerateReport(LogConfiguration(l, c)).reports == l.reports + [Report(c, Summarize(l.logs), l.logs)]
  {
  }

  lemma {:induction false} CountsWithinTotal(logs: seq<MigrationLog>)
    ensures CountStatus(logs, Completed) + CountStatus(logs, Failed)
            + CountStatus(logs, SkippedForSafety) + CountStatus(logs, SkippedForWrongSyntax) <= |logs|
    decreases |logs|
  {
    if logs != [] {
      CountsWithinTotal(logs[1..]);
    }
  }

  /** The summary's figures: counts by status that add up to no more than the total,
      a skipped figure that adds the two skip counts, and the sum of the durations. */
  lemma {:induction false} SummaryFigures(logs: seq<MigrationLog>)
    ensures var s := Summarize(logs);
            && s.total == |logs|
            && s.completed + s.failed + s.skippedForSafety + s.skippedForWrongSyntax <= s.total
            && s.completed == multiset(Statuses(logs))[Completed]
            && s.failed == multiset(Statuses(logs))[Failed]
            && s.Skipped() == multiset(Statuses(logs))[SkippedForSafety] + multiset(Statuses(logs))[SkippedForWrongSyntax]
  {
    CountsWithinTotal(logs);
    var s := Summarize(logs);
    assert s.completed == CountStatus(logs, Completed);
    assert s.failed == CountStatus(logs, Failed);
    assert s.skippedForSafety == CountStatus(logs, SkippedForSafety);
    assert s.skippedForWrongSyntax == CountStatus(logs, SkippedForWrongSyntax);
  }

  lemma {:induction false} TotalDurationAppend(a: seq<MigrationLog>, b: seq<MigrationLog>)
    ensures TotalDuration(a + b) == TotalDuration(a) + TotalDuration(b)
    decreases |a|
  {
    if a == [] {
      assert a + b == b;
    } else {
      assert (a + b)[1..] == a[1..] + b;
      TotalDurationAppend(a[1..], b);
    }
  }

  /** Each logged entry adds its own duration to the reported total time. */
  lemma LogAddsDuration(l: Logger, e: MigrationLog)
    ensures Summarize(Log(l, e).logs).totalTimeTakenInMs == Summarize(l.logs).totalTimeTakenInMs + Duration(e)
    ensures Summarize(Log(l, e).logs).total == Summarize(l.logs).total + 1
  {
    TotalDurationAppend(l.logs, [e]);
  }

  /** A call on the logger. */
  datatype Call = LogCall(e: MigrationLog) | ConfigurationCall(c: EngineConfig) | ReportCall

  function Perform(l: Logger, call: Call): Logger {
    match call
    case LogCall(e) => Log(l, e)
    case ConfigurationCall(c) => LogConfiguration(l, c)
    case ReportCall => GenerateReport(l)
  }

  function PerformAll(l: Logger, calls: seq<Call>): Logger
    decreases |calls|
  {
    if calls == [] then l else Perform(PerformAll(l, calls[..|calls| - 1]), calls[|calls| - 1])
  }

  function LogsOf(calls: seq<Call>): seq<MigrationLog>
    decreases |calls|
  {
    if calls == [] then []
    else LogsOf(calls[..|calls| - 1]) + (if calls[|calls| - 1].LogCall? then [calls[|calls| - 1].e] else [])
  }

  /** Whatever the logger is asked to do, it writes at most one report, the flag
      records whether it has, and its entries are the logged ones in arrival order. */
  lemma {:induction false} ReportAtMostOnce(calls: seq<Call>)
    ensures |PerformAll(NewLogger, calls).reports| <= 1
    ensures PerformAll(NewLogger, calls).reportGenerated <==> |PerformAll(NewLogger, calls).reports| == 1
    ensures PerformAll(NewLogger, calls).logs == LogsOf(calls)
    decreases |calls|
  {
    if calls != [] {
      ReportAtMostOnce(calls[..|calls| - 1]);
    }
  }
}

/** `MigrationProfiler`: attached to each task by `Register`, it starts a timer when
    the task is picked and, when the task completes, appends a history record (only
    for `Completed`), attaches the measured profile and logs the entry. Time and
    memory readings are parameters. */
module Profiling {
  import opened Wrappers
  import opened Enumerations
  import opened Errors
  import opened Models
  import opened Migrations
  import opened Reporting

  /** What the handlers have done: whether a timer was ever started, the logger, and
      the records written by `usp_AddMigrationHistory`. */
  datatype Observed = Observed(timerStarted: bool, logger: Logger, history: seq<HistoryEntry>)

  const Unobserved := Observed(false, NewLogger, [])

  /** `Convert.ToByte(migrationType)`. */
  function TypeByte(t: MigrationType): (b: int)
    ensures 0 <= b < 4
  {
    MigrationTypeValue(t)
  }

  function TypeOfByte(b: int): MigrationType {
    if b == 1 then Up else if b == 2 then Down else if b == 3 then Both else MigrationType.None
  }

  /** The byte stored for a migration type reads back as that type. */
  lemma TypeByteRoundTrip(t: MigrationType, b: int)
    ensures TypeOfByte(TypeByte(t)) == t
    ensures 0 <= b < 4 ==> TypeByte(TypeOfByte(b)) == b
  {
  }

  /** The parameters `AddLog` passes. */
  function HistoryEntryOf(log: MigrationLog): HistoryEntry {
    HistoryEntry(log.id, log.name, log.hash, TypeByte(log.migrationType))
  }

  /** `Register`: one start handler and one completion handler more. */
  function Register(m: Migration): (r: Migration)
    ensures r.subscriptions == m.subscriptions + 1
    ensures r.(subscriptions := m.subscriptions) == m
  {
    m.(subscriptions := m.subscriptions + 1)
  }

  /** `TrackPerformance`: the timer starts. */
  function TrackPerformance(o: Observed): Observed {
    o.(timerStarted := true)
  }

  /** `Archive`, with a profile of zeros when no timer has ever run. `measured` is
      what the timer and the memory reading would give; `historyWritten` is whether
      `usp_AddMigrationHistory` succeeds. */
  function Archive(o: Observed, log: MigrationLog, measured: ExecutionProfile, historyWritten: bool): (r: Result<Observed, Error>)
    ensures r.Failure? <==> log.status == Completed && !historyWritten
    ensures r.Success? ==> r.value.history == o.history + (if log.status == Completed then [HistoryEntryOf(log)] else [])
    ensures r.Success? ==>
              && |r.value.logger.logs| == |o.logger.logs| + 1
              && r.value.logger.logs == o.logger.logs + [log.(profile := r.value.logger.logs[|o.logger.logs|].profile)]
              && r.value.logger.logs[|o.logger.logs|].profile.Some?
    ensures r.Success? ==> r.value.logger.(logs := o.logger.logs) == o.logger
    ensures r.Success? ==> r.value.timerStarted == o.timerStarted
  {
    if log.status == Completed && !historyWritten then Failure(Database("usp_AddMigrationHistory"))
    else
      var history := o.history + (if log.status == Completed then [HistoryEntryOf(log)] else []);
      var profile := if o.timerStarted then measured else ExecutionProfile(0, 0);
      Success(o.(history := history, logger := Log(o.logger, log.(profile := Some(profile)))))
  }

  /** `Archive` as written: it stops a timer that exists only once some task has been
      picked, so a completion before that dereferences null. */
  function ArchiveAsWritten(o: Observed, log: MigrationLog, measured: ExecutionProfile, historyWritten: bool): (r: Result<Observed, Error>)
    ensures !o.timerStarted ==> r == Failure(NullReference)
    ensures o.timerStarted ==> r == Archive(o, log, measured, historyWritten)
  {
    if !o.timerStarted then Failure(NullReference) else Archive(o, log, measured, historyWritten)
  }

  /** A task skipped before any task was picked brings the run down with the handler
      as written, while the corrected handler logs it. */
  lemma SkipBeforeFirstPick(m: Migration, now: int, measured: ExecutionProfile)
    requires m.status == New
    ensures var (m', events) := SetStatus(m, SkippedForSafety, now);
            && ArchiveAsWritten(Unobserved, events[0].log, measured, true) == Failure(NullReference)
            && Archive(Unobserved, events[0].log, measured, true).Success?
            && Archive(Unobserved, events[0].log, measured, true).value.logger.logs[0].status == SkippedForSafety
  {
    var (m', events) := SetStatus(m, SkippedForSafety, now);
    assert events == [Finished(Snapshot(m'))];
  }

  /** The history records are those of the completed entries, in order. */
  function CompletedRecords(logs: seq<MigrationLog>): seq<HistoryEntry>
    decreases |logs|
  {
    if logs == [] then []
    else CompletedRecords(logs[..|logs| - 1]) + (if logs[|logs| - 1].status == Completed then [HistoryEntryOf(logs[|logs| - 1])] else [])
  }

  /** The history written matches the completed entries logged. */
  ghost predicate Consistent(o: Observed) {
    o.history == CompletedRecords(o.logger.logs)
  }

  /** Attaching a profile changes nothing the history records. */
  lemma RecordIgnoresProfile(log: MigrationLog, p: Option<ExecutionProfile>)
    ensures HistoryEntryOf(log.(profile := p)) == HistoryEntryOf(log)
  {
  }

  /** Archiving keeps the history in step with the completed entries. */
  lemma ArchiveKeepsConsistent(o: Observed, log: MigrationLog, measured: ExecutionProfile, historyWritten: bool)
    requires Consistent(o)
    requires Archive(o, log, measured, historyWritten).Success?
    ensures Consistent(Archive(o, log, measured, historyWritten).value)
  {
    var r := Archive(o, log, measured, historyWritten).value;
    var logs := r.logger.logs;
    assert logs[..|logs| - 1] == o.logger.logs;
    RecordIgnoresProfile(log, logs[|logs| - 1].profile);
  }

  /** The start and completion handlers, run once per subscription. */
  function Deliver(o: Observed, events: seq<Event>, subscriptions: nat, measured: ExecutionProfile, historyWritten: bool): (r: Result<Observed, Error>)
    ensures (forall i :: 0 <= i < |events| ==> events[i].Started?) ==>
              r.Success? && r.value.logger == o.logger && r.value.history == o.history
    decreases |events|
  {
    if events == [] then Success(o)
    else
      match Handle(o, events[0], subscriptions, measured, historyWritten)
      case Failure(e) => Failure(e)
      case Success(o') => Deliver(o', events[1..], subscriptions, measured, historyWritten)
  }

  function Handle(o: Observed, e: Event, n: nat, measured: ExecutionProfile, historyWritten: bool): (r: Result<Observed, Error>)
    ensures e.Started? ==> r.Success? && r.value.logger == o.logger && r.value.history == o.history
    ensures e.Started? && n > 0 ==> r.value.timerStarted
    decreases n
  {
    if n == 0 then Success(o)
    else
      match Handle(o, e, n - 1, measured, historyWritten)
      case Failure(err) => Failure(err)
      case Success(o') =>
        if e.Started? then Success(TrackPerformance(o'))
        else Archive(o', e.log, measured, historyWritten)
  }

  /** A completion event gets through every subscription unless it is a completed
      task's and the history row cannot be written; an empty invocation list never fails. */
  lemma {:induction false} HandleFinishedSucceeds(o: Observed, log: MigrationLog, n: nat, measured: ExecutionProfile, historyWritten: bool)
    ensures Handle(o, Finished(log), n, measured, historyWritten).Success? <==>
              n == 0 || log.status != Completed || historyWritten
    decreases n
  {
    if n > 0 {
      HandleFinishedSucceeds(o, log, n - 1, measured, historyWritten);
    }
  }

  /** With one subscription, a completion event logs exactly its own entry, with a
      profile attached, and a start event only starts the timer. */
  lemma SingleSubscription(o: Observed, e: Event, measured: ExecutionProfile, historyWritten: bool)
    ensures e.Started? ==> Handle(o, e, 1, measured, historyWritten) == Success(TrackPerformance(o))
    ensures e.Finished? ==> Handle(o, e, 1, measured, historyWritten) == Archive(o, e.log, measured, historyWritten)
  {
  }
}
