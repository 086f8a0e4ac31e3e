# FlexiForm.Database migration runner, modelled in Dafny

FlexiForm.Database applies SQL schema migrations to a database. A migration is a `.sql` file under
`Scripts/<category>/<Up|Down>`. It must begin with header comments (`-- Script ID`,
`-- Script Type`, `-- Name`, `-- Migration Type`, `-- Created At`, and optionally `-- Updated At`).
The same sequence runs in two pipelines:

- the current engine, `MigrationEngine` with `Migration`, `MigrationProfiler` and the report-writing `Logger`;
- the legacy runner, `TaskRunner` with `TaskExecutor` and `MigrationTask`.

Both pipelines:

1. parse the command line into a configuration;
2. pick the script folders that the migration type, the targets and the host environment allow;
3. construct every script (validation, header parsing, T-SQL syntax check, threat scan);
4. skip scripts that are unsafe or badly formed;
5. sort the remaining scripts by name and cut them into batches of five;
6. execute each script in a retry loop inside database transactions.

The engine also:

- runs the infrastructure scripts first;
- either reads the migration history (Incremental mode, so that applied scripts are left out) or clears it (Full mode);
- records every completed script in the history;
- writes one JSON report.

The legacy runner instead has two transaction strategies. In Strict mode one global transaction covers the whole run. In Relaxed mode each batch has its own transaction.

The model is purely functional:

- **Database.** The database is the trace of statements sent to it (`Database.DbOp`).
- **External inputs.** File contents, the clock, the environment variable, the T-SQL parser, the SHA-256 digest, the profiler's measurements, the culture's name ordering, and how each attempt of a script fares are fields of a host record. For each attempt, keyed by the script's path and the retry count, the record says: whether the script executes; whether the transaction is usable after it, and again after a refused commit; whether the commit goes through; and whether the attempt's history row can be written. The model reads them and never computes them.
- **Handlers.** The event handlers are explicit functions over an `Observed` state: the logger plus the history written.

The configuration defaults are the constants `Configurations.DefaultEngineConfig` and `Configurations.DefaultRunnerConfig`. Both default to migration type Both, a timeout of 1, two retries, the Strict strategy or mode, and every target. The engine's run mode defaults to Incremental. The legacy runner's incremental switch defaults to off. `BatchCount` is 5. The environment is not stored: it is recomputed from the host's variable wherever the code reads it.

Where the documentation and the code disagree, the model follows the code:

- The documentation says Strict mode aborts on a failed task. In the code a failing statement never leaves the retry loop. Strict mode aborts only when a log entry cannot be written or the final commit fails (`LegacyProperties.StrictCommitsExhaustedTasks`).
- The documentation says a failed Strict run throws `MigrationFailedInStrictModeException`. In the code that exception never reaches the caller. The outer handler rolls back the already rolled-back transaction a second time, and the provider's refusal replaces it. The model follows the code (`LegacyProperties.StrictOutcome`) and proves the corrected closing beside it (see Findings).
- A task that uses up its retries is left `Retrying`, never `Failed`. The catch block tests the retry count before incrementing it, so the `Failed` branch of both retry loops is dead. The model keeps this, and proves that no run reports a failed task (`EngineProperties.NoFailedEntries`, `LegacyProperties.RunTaskCompletesIff`).
- `MigrationTaskStatus.Picked` and `ScriptType.Alter` are used by the code but missing from the enumeration files. The model includes both.

Source: the C# files under `FlexiForm.Database/`. The .dfy files, each holding the modules named in the table below:

| file | modules |
|---|---|
| wrappers.dfy | Wrappers |
| domain.dfy | Enumerations, Errors, Models |
| text.dfy | Text |
| ordering.dfy | Ordering |
| date_format.dfy | DateFormat |
| flags.dfy | Numerals, CommandLine |
| configuration.dfy | Configurations |
| plans.dfy | Plans |
| batch_processor.dfy | BatchProcessor |
| threat_scanner.dfy | ThreatScanner |
| script_metadata.dfy | Metadata |
| script_inspector.dfy | ScriptInspector |
| script.dfy | FileSystems, Scripts |
| migration.dfy | HashRendering, Migrations |
| observers.dfy | Reporting, Profiling |
| engine.dfy | Database, Engine, EngineProperties |
| task_runner.dfy | Legacy, LegacyProperties |

## Model

| member | source | states |
|---|---|---|
| BatchProcessor.Batchify | FlexiForm.Database/Services/BatchProcessor.cs:25-49 | A batch size of zero or less is rejected with an argument error. Otherwise the batches, read in order, are a permutation of the items: sorted by name (ascending or descending) and stable among equal names, or in the original order when there is no selector. Every batch holds between 1 and `batchSize` items, and every batch but the last is full. |
| BatchProcessor.Chunks | FlexiForm.Database/Services/BatchProcessor.cs:43-46 | The slices concatenate back to the list. Each slice holds 1 to `n` items, all but the last exactly `n`. The number of slices `c` satisfies `(c-1)*n < |list| <= c*n`. |
| BatchProcessor.Ordered | FlexiForm.Database/Services/BatchProcessor.cs:34-38 | The list that gets sliced is a permutation of the items. It is sorted ascending or descending by the selector and stable, or unchanged when there is no selector. |
| BatchProcessor.BatchCountIsCeiling | FlexiForm.Database/Services/BatchProcessor.cs:40-48 | The number of batches is the ceiling of `items / batchSize`, and it is zero exactly when there are no items. |
| Ordering.OrderBySortsStably | FlexiForm.Database/Services/BatchProcessor.cs:36-37 | `OrderBy` and `OrderByDescending` return the list sorted under any total preorder on names, and items with equivalent names keep their relative order. |
| Ordering.OrderBySortedIsIdentity | FlexiForm.Database/Services/BatchProcessor.cs:36 | Sorting a list that is already sorted returns it unchanged. |
| Ordering.InsertSorted | FlexiForm.Database/Services/BatchProcessor.cs:36 | Inserting one item into a sorted list keeps it sorted. |
| Ordering.InsertStable | FlexiForm.Database/Services/BatchProcessor.cs:36 | Insertion puts the new item before every item with an equivalent key. |
| Ordering.FlipIsTotalPreorder | FlexiForm.Database/Services/BatchProcessor.cs:37 | The reversed comparer of `OrderByDescending` is again a total preorder. |
| Configurations.DetectEnvironment | FlexiForm.Database/Configurations/MigrationEngineConfiguration.cs:74-86 | An unset variable gives `Unknown`. A known environment is returned only when the lower-cased variable is exactly that environment's name. |
| Configurations.DetectEnvironmentReadsNames | FlexiForm.Database/Configurations/TaskRunnerConfiguration.cs:73-85 | Each environment is recognised by its own name. |
| Configurations.DetectEnvironmentIgnoresCase | FlexiForm.Database/Configurations/MigrationEngineConfiguration.cs:78 | The variable is matched without regard to case. |
| Configurations.DetectEnvironmentUnknown | FlexiForm.Database/Configurations/MigrationEngineConfiguration.cs:78-85 | A set variable maps to `Unknown` exactly when, lower-cased, it names none of the known environments. |
| Numerals.TryParseInt | FlexiForm.Database/Services/MigrationEngine.cs:141 | A number that `int.TryParse` accepts is within the 32-bit range. |
| Numerals.TryParseIntSound | FlexiForm.Database/Services/MigrationEngine.cs:141 | Whatever `int.TryParse` accepts is blank padding around an optional sign and at least one decimal digit, and the result is the number they denote. |
| Numerals.TryParseIntComplete | FlexiForm.Database/Services/MigrationEngine.cs:141 | Every such padded numeral of a 32-bit number is accepted, as that number. |
| Numerals.TryParseIntExact | FlexiForm.Database/Services/MigrationEngine.cs:141 | `int.TryParse` accepts a text as a number exactly when the text is a padded numeral of that number and the number fits in 32 bits. |
| Numerals.TryParseDecimal | FlexiForm.Database/Services/MigrationEngine.cs:141 | Every 32-bit number is read back from its decimal rendering. |
| Numerals.TryParseIgnoresPadding | FlexiForm.Database/Services/MigrationEngine.cs:169 | White space around a number does not change what `int.TryParse` reads. |
| Numerals.DigitsOfNat | FlexiForm.Database/Services/MigrationEngine.cs:141 | The digits of a natural number denote that number. |
| CommandLine.ParseValue | FlexiForm.Database/Services/MigrationEngine.cs:141-156 | A retry count is accepted only when it parses and lies in 1..5, and a timeout only when it lies in 1..10000. Every other value is rejected. |
| CommandLine.ParseMigrationType | FlexiForm.Database/Services/MigrationEngine.cs:196-197 | A value is read as a migration type exactly when it is a number that `int.TryParse` reads as the type's declared value (None 0, Up 1, Down 2, Both 3), or a comma-separated list of type names, each in any case and padded with white space, whose values OR to the type's value. Every OR of these values is declared, so every list of names is accepted. Every other value, including any other number, is rejected. |
| CommandLine.ParseRunnerMode | FlexiForm.Database/Services/TaskRunner.cs:120-138 | A value is read as a runner mode exactly when it is a number read as the mode's declared value (Strict 0, Relaxed 1), or a comma-separated list of mode names in any case whose values OR to the mode's value. Every other value is rejected. |
| CommandLine.TargetNames | FlexiForm.Database/Services/MigrationEngine.cs:224-226 | A list of target names is accepted exactly when every name is. The result holds each name's categories and nothing else. |
| CommandLine.ParseTargets | FlexiForm.Database/Services/MigrationEngine.cs:224-231 | A target value is accepted exactly when it is a number, or a comma-separated list of known target names. |
| CommandLine.Configure | FlexiForm.Database/Services/MigrationEngine.cs:126-238 | Every error of the flag walk is an unknown flag from the arguments, a value-taking flag left without a value as the last argument, or a flag from the arguments with a value from the arguments that it rejects. |
| CommandLine.ConfigureKeeps | FlexiForm.Database/Services/MigrationEngine.cs:126-238 | A property that every switch and every accepted value keeps holds of the configuration the walk produces. |
| CommandLine.ConfigureEngine | FlexiForm.Database/Services/MigrationEngine.cs:122-238 | The engine's parse fails only with one of the flag walk's errors. A retry count in 1..5 and a timeout in 1..10000 stay within those limits whatever flags are given. |
| CommandLine.ConfigureRunner | FlexiForm.Database/Services/TaskRunner.cs:35-164 | The legacy parse fails only with one of the flag walk's errors, and keeps the retry count and timeout within the same limits. |
| CommandLine.ConfigureAppend | FlexiForm.Database/Services/MigrationEngine.cs:126-238 | The left-to-right flag walk is compositional. Parsing `a + b` is parsing `b` starting from the configuration that `a` produced. |
| CommandLine.LastFlagDecides | FlexiForm.Database/Services/MigrationEngine.cs:136-156 | A value-taking flag at the very end fails with `MissingFlagValue`. A flag followed by an accepted value sets that value and nothing else. A rejected value fails with `InvalidFlagValue`. |
| CommandLine.UnknownFlagRejected | FlexiForm.Database/Services/MigrationEngine.cs:235-236 | An unrecognised flag fails the whole parse with `UnsupportedFlag`, whatever follows it. |
| CommandLine.EngineLimits | FlexiForm.Database/Services/MigrationEngine.cs:133-187 | `--r`/`--maxretry` and `--t`/`--timeout`, in any case and with surrounding blanks, set the retry count or the timeout when the value is in range. Otherwise they fail. |
| CommandLine.EngineRunModeSwitches | FlexiForm.Database/Services/MigrationEngine.cs:209-215 | `--incremental` and `--full` take no value and set the run mode. The later switch wins. |
| CommandLine.EngineSwitchKeys | FlexiForm.Database/Services/MigrationEngine.cs:209-215 | The two run-mode keys are recognised as switches. |
| CommandLine.RunnerKeys | FlexiForm.Database/Services/TaskRunner.cs:44-164 | The legacy parser knows neither `--full` nor the short aliases nor `--type`. It has `--incremental` and `--mode`. |
| CommandLine.RunnerFlags | FlexiForm.Database/Services/TaskRunner.cs:140-143 | In the legacy parser `--incremental` sets the (unused) incremental switch, and the flags it lacks are rejected as unsupported. |
| CommandLine.RunnerModeFlag | FlexiForm.Database/Services/TaskRunner.cs:120-138 | `--mode` followed by either mode's name, in any case, sets that mode. |
| CommandLine.MigrationTypeNamesParse | FlexiForm.Database/Services/TaskRunner.cs:107-108 | Every migration type is accepted by its name, in any case and with surrounding white space. |
| CommandLine.ConstraintIsNoTarget | FlexiForm.Database/Services/MigrationEngine.cs:224-231 | `Constraint`, although the error message offers it, is not a target name. |
| CommandLine.NumericTargets | FlexiForm.Database/Services/MigrationEngine.cs:224-226 | A numeric target selects the categories whose bits are set. 15 selects all four and 0 selects none. |
| CommandLine.NameUnion | FlexiForm.Database/Services/MigrationEngine.cs:196-197 | `Enum.TryParse` reads a comma-separated list of names. The list is accepted exactly when every name is. The result holds what each name stands for, and nothing else. |
| CommandLine.MigrationTypeNamedReads | FlexiForm.Database/Services/MigrationEngine.cs:196-197 | A type's name, in any case and padded, stands for the set bits of that type's value. |
| CommandLine.RunnerModeNamedReads | FlexiForm.Database/Services/TaskRunner.cs:127-128 | A mode's name, in any case and padded, stands for the set bits of that mode's value. |
| CommandLine.NumberNamesNothing | FlexiForm.Database/Services/MigrationEngine.cs:196-197 | A text that reads as a number names no type or mode, so the numeric reading and the list reading never both apply. |
| CommandLine.RunnerModeNamesParse | FlexiForm.Database/Services/TaskRunner.cs:127-128 | Every runner mode is accepted by its name, in any case and with surrounding white space. |
| CommandLine.MigrationTypeListOrs | FlexiForm.Database/Services/MigrationEngine.cs:196-197 | Two type names joined by a comma are accepted. The result is the type whose value sets exactly the bits of both names' values. |
| CommandLine.RunnerModeListOrs | FlexiForm.Database/Services/TaskRunner.cs:127-128 | Two mode names joined by a comma are accepted. The result is the mode whose value sets exactly the bits of both names' values. |
| CommandLine.UpDownIsBoth | FlexiForm.Database/Services/MigrationEngine.cs:196-197 | `up,down`, in any case and padded, reads as `Both`. |
| CommandLine.StrictRelaxedIsRelaxed | FlexiForm.Database/Services/TaskRunner.cs:127-128 | `strict,relaxed`, in any case and padded, reads as `Relaxed`. |
| Plans.EnginePlanMembership | FlexiForm.Database/Services/MigrationEngine.cs:367-424 | The engine reads a folder exactly when the migration type covers its direction, its category is a selected target, and either the environment is Development or the folder is `Schemas/Down` or `StoredProcedures/Up`. |
| Plans.RunnerPlanMembership | FlexiForm.Database/Services/TaskRunner.cs:263-308 | The legacy runner reads the same folders as the engine, except the index folders, which it never reads. |
| Plans.DownBeforeUp | FlexiForm.Database/Services/MigrationEngine.cs:371-423 | No Down folder is read after an Up folder. Up folders are sorted ascending and Down folders descending. |
| Plans.EnginePlanOutsideDevelopment | FlexiForm.Database/Services/MigrationEngine.cs:392-395 | Outside Development the engine reads at most `Schemas/Down` and then `StoredProcedures/Up`. |
| Plans.EngineFullPlan | FlexiForm.Database/Services/MigrationEngine.cs:371-423 | In Development with every target and both directions, the engine reads all eight folders in the documented order. |
| Plans.NonePlansNothing | FlexiForm.Database/Services/MigrationEngine.cs:371-399 | Migration type `None` reads no folder. |
| LegacyProperties.RunnerPlanOutsideDevelopment | FlexiForm.Database/Services/TaskRunner.cs:282-306 | Outside Development the legacy runner reads at most `Schemas/Down` and then `StoredProcedures/Up`. |
| Text.SplitJoin | FlexiForm.Database/Extensions/ScriptInspector.cs:126-127 | Splitting a line on a separator and joining the pieces with it gives the line back. |
| Text.SplitOnFacts | FlexiForm.Database/Extensions/ScriptInspector.cs:81 | `Split` yields one piece, the whole text, exactly when the separator does not occur. Otherwise the first piece ends at the first occurrence. |
| Text.SplitOnAbsent | FlexiForm.Database/Services/MigrationEngine.cs:224-226 | A text without the separator character splits into one piece, itself. |
| Text.SplitOnTwo | FlexiForm.Database/Services/MigrationEngine.cs:224-226 | Two pieces without the separator character, joined by it, split back into exactly those two. |
| Text.TrimSurrounded | FlexiForm.Database/Extensions/ScriptInspector.cs:81 | `Trim` removes exactly the surrounding white space. |
| Text.TrimIsSlice | FlexiForm.Database/Extensions/ScriptInspector.cs:81 | The trimmed text is a slice of the text between a blank prefix and a blank suffix. |
| Text.FindFromFirst | FlexiForm.Database/Extensions/ScriptInspector.cs:81 | The separator search finds the first occurrence, and finds nothing only when there is none. |
| Text.Remove | FlexiForm.Database/Extensions/ScriptInspector.cs:134-136 | Removing a character leaves no occurrence of it and keeps every other character. |
| DateFormat.ParseTimestamp | FlexiForm.Database/Extensions/ScriptInspector.cs:129-133 | A text is parsed only when it has the layout `yyyy-MM-dd HH:mm:ss` and denotes a valid date and time. |
| DateFormat.ParseFormatted | FlexiForm.Database/Extensions/ScriptInspector.cs:129-133 | Rendering a valid time stamp in the header format and parsing it back gives the same time stamp. |
| DateFormat.FormattedParse | FlexiForm.Database/Extensions/ScriptInspector.cs:129-133 | The exact parse accepts only the canonical rendering. A parsed text is the rendering of its time stamp. |
| ThreatScanner.Scan | FlexiForm.Database/Extensions/ThreatScanner.cs:45-77 | A null script fails with `InvalidScript`. A reported threat always has at least one insight. |
| ThreatScanner.ScanReportsMatches | FlexiForm.Database/Extensions/ThreatScanner.cs:45-77 | The scan reports no threat exactly when no line matches any pattern. Otherwise the insights are exactly the (line number, threat type) pairs whose line matches that type's pattern. They are ordered by line, then by table position, and each line appears at most once per type. |
| ThreatScanner.SearchFinds | FlexiForm.Database/Extensions/ThreatScanner.cs:63 | The left-to-right search finds a match exactly when the pattern matches at some position. |
| ThreatScanner.IsMatchIgnoresCase | FlexiForm.Database/Extensions/ThreatScanner.cs:27-32 | Under `IgnoreCase` a line matches a pattern exactly when its lower-case form does. |
| ThreatScanner.FindingsInScanOrder | FlexiForm.Database/Extensions/ThreatScanner.cs:58-73 | Findings come out line by line and, within a line, in table order. |
| ThreatScanner.FindingsInRange | FlexiForm.Database/Extensions/ThreatScanner.cs:60-70 | Every finding names an existing line, numbered from 1. There are at most as many findings as table entries times lines. |
| ThreatScanner.LineFindingsExact | FlexiForm.Database/Extensions/ThreatScanner.cs:61-72 | A line's findings are exactly the table types it is detected for, in strictly increasing table order. |
| ThreatScanner.ThreatOrderRanks | FlexiForm.Database/Extensions/ThreatScanner.cs:25-33 | The table lists each of the six threat types once, in declaration order, and never `None`. |
| ThreatScanner.DropDatabaseFound | FlexiForm.Database/Extensions/ThreatScanner.cs:27 | `\bDROP\s+DATABASE\b` matches `drop  Database`, with mixed case and two blanks. |
| ThreatScanner.HexLiteralFoundInsideWord | FlexiForm.Database/Extensions/ThreatScanner.cs:32 | The hex-literal pattern has no word boundary, so it matches `0X1F` directly after a letter. |
| Metadata.AddAuditSortsStably | FlexiForm.Database/Models/ScriptMetadata.cs:59-63 | After `AddAudit` the history is sorted by time stamp. It holds the old audits plus the new one, with audits of equal time in the order they were added, and no other field changes. |
| Metadata.AddLatestAudit | FlexiForm.Database/Models/ScriptMetadata.cs:59-63 | An audit no older than every recorded one is appended at the end and nothing moves. |
| Metadata.AddAuditsKeepsAudits | FlexiForm.Database/Models/ScriptMetadata.cs:61 | Adding audits one at a time neither loses nor invents any. |
| Metadata.AddAuditsKeepsFields | FlexiForm.Database/Models/ScriptMetadata.cs:59-63 | Adding audits changes no field but the history. |
| Metadata.AddAuditsSorted | FlexiForm.Database/Models/ScriptMetadata.cs:62 | After at least one addition the history is sorted by time stamp. |
| Metadata.AddAuditsStable | FlexiForm.Database/Models/ScriptMetadata.cs:62 | Across any number of additions, audits with equal time stamps keep the order in which they were recorded and then added. |
| ScriptInspector.Parse | FlexiForm.Database/Extensions/ScriptInspector.cs:26-42 | A null script fails with `InvalidScript`. Otherwise the result carries the parser's errors and counts as successful exactly when there are none. |
| ScriptInspector.HeaderLines | FlexiForm.Database/Extensions/ScriptInspector.cs:72-75 | The header loop reads the longest prefix of lines that start with `--`, and stops at the first line that does not. |
| ScriptInspector.HeaderStopsAtFirstNonComment | FlexiForm.Database/Extensions/ScriptInspector.cs:206-209 | Lines after the first non-comment line never reach the header loop. |
| ScriptInspector.FieldValueBetweenColons | FlexiForm.Database/Extensions/ScriptInspector.cs:81 | `line.Split(':')[1].Trim()` throws exactly when the line has no colon. Otherwise it is the trimmed text between the first colon and the next one, or the end of the line. |
| ScriptInspector.TypeValuesIgnoreCase | FlexiForm.Database/Extensions/ScriptInspector.cs:82-97 | Type values are read without regard to case, and no value ever reads as `Constraint`. |
| ScriptInspector.ConstraintReadsAsUnknown | FlexiForm.Database/Extensions/ScriptInspector.cs:82-97 | The value `constraint` reads as `Unknown`. |
| ScriptInspector.ScriptTypeNamesRead | FlexiForm.Database/Extensions/ScriptInspector.cs:82-97 | `Alter` reads as `Alter`, although the enumeration file lacks it, and `SCHEMA` reads as `Schema`: names match in any case. |
| ScriptInspector.MigrationTypeNamesRead | FlexiForm.Database/Extensions/ScriptInspector.cs:177-204 | `Up` reads as `Up` and `DOWN` as `Down`: names match in any case. |
| ScriptInspector.ParseAudit | FlexiForm.Database/Extensions/ScriptInspector.cs:126-141 | An audit is read only from a line with a colon. Its time stamp is valid and its author has no parentheses. |
| ScriptInspector.AuditNeedsColon | FlexiForm.Database/Extensions/ScriptInspector.cs:126-134 | An audit line without a colon is malformed. |
| ScriptInspector.KeysExclusive | FlexiForm.Database/Extensions/ScriptInspector.cs:77-177 | No line starts with two different header keys, so at most one extraction block acts on a line. |
| ScriptInspector.ReadLineOutcome | FlexiForm.Database/Extensions/ScriptInspector.cs:148-157 | One header line fails exactly when it is a malformed `Updated At` line, and then with `MalformedAuditEntry`. |
| ScriptInspector.ReadLineIdName | FlexiForm.Database/Extensions/ScriptInspector.cs:107-119 | One header line sets the Script ID or the Name when it starts with that key, marks the field present exactly when the line has a colon, and leaves both fields alone otherwise. |
| ScriptInspector.ReadLineTypes | FlexiForm.Database/Extensions/ScriptInspector.cs:77-104 | One header line sets the script type or the migration type only when it starts with that key. The field's presence follows whether the line has a colon. |
| ScriptInspector.ReadLineAudits | FlexiForm.Database/Extensions/ScriptInspector.cs:122-158 | A well-formed audit line adds its audit. A `Created At` line sets the creation flag to whether it is well formed. The hash is untouched. |
| ScriptInspector.ReadLinesFailsOnMalformedUpdate | FlexiForm.Database/Extensions/ScriptInspector.cs:148-157 | The header loop fails, with `MalformedAuditEntry`, exactly when some header line is a malformed `Updated At` line. |
| ScriptInspector.ReadLinesKeepsLastIdAndName | FlexiForm.Database/Extensions/ScriptInspector.cs:107-119 | The Script ID and Name hold the value of the last line with their key. |
| ScriptInspector.ReadLinesKeepsLastTypes | FlexiForm.Database/Extensions/ScriptInspector.cs:77-104 | The script type and migration type hold the value of the last line with their key. |
| ScriptInspector.ReadLinesTracksCreation | FlexiForm.Database/Extensions/ScriptInspector.cs:143-153 | `CreatedAt` counts as present exactly when the last `Created At` line is well formed. |
| ScriptInspector.CheckFields | FlexiForm.Database/Extensions/ScriptInspector.cs:215-232 | The check passes exactly when all five required fields are present, and then returns the metadata read. A missing Script ID is always the error reported when it is missing. Every error is a domain error with a code from 1004 to 1008. |
| ScriptInspector.ReadLinesCollectsAudits | FlexiForm.Database/Extensions/ScriptInspector.cs:137-141 | The history receives the audit of every well-formed audit line, in line order, through `AddAudit`. |
| ScriptInspector.LastWithIsLast | FlexiForm.Database/Extensions/ScriptInspector.cs:72-205 | The last line with a key is found exactly when some line starts with it, and no later line does. |
| ScriptInspector.ParseHeaderAsDescribed | FlexiForm.Database/Extensions/ScriptInspector.cs:52-235 | `ParseHeader` equals an independent per-field description. Any malformed `Updated At` line fails the header. Otherwise the first missing field, in the order Script ID, Script Type, Name, Migration Type, Created At, is the error. Otherwise each field holds its last line's value and the history holds every well-formed audit. |
| Scripts.Validate | FlexiForm.Database/Models/Script.cs:57-71 | A path passes exactly when the file exists and is not a directory. A missing file is `ScriptFileNotFound`, and a directory is `ScriptPathIsDirectory`. |
| Scripts.NewScript | FlexiForm.Database/Models/Script.cs:15-22 | Construction fails with the validation error, and otherwise with the header error. A constructed script carries its path, its parsed header, the parser's result and the scan's threat. |
| Scripts.NewScriptSafety | FlexiForm.Database/Models/Script.cs:37 | A constructed script is safe exactly when no line matches any threat pattern. An unsafe one reports exactly the matching findings. |
| Scripts.FirstLineIsComment | FlexiForm.Database/Extensions/ScriptInspector.cs:214-232 | A header that passes the checks comes from a file whose first line starts with `--`. |
| Scripts.BodyNotBlank | FlexiForm.Database/Services/MigrationEngine.cs:480 | The text of a constructed script is never blank, so the blank-text branch of the retry loop is never taken. |
| HashRendering.RenderHashIsLowerHex | FlexiForm.Database/Models/Migration.cs:147 | `BitConverter.ToString` without dashes and lower-cased gives two lower-case hex digits per byte, high nibble first. |
| HashRendering.UnhexLowerHex | FlexiForm.Database/Models/Migration.cs:147 | The rendering loses nothing: reading the hex digits back gives the digest. |
| HashRendering.DigestRendering | FlexiForm.Database/Models/Migration.cs:141-149 | A SHA-256 digest renders as 64 lower-case hex digits, and distinct digests render differently. |
| Migrations.NewMigration | FlexiForm.Database/Models/Migration.cs:23-28 | A null script is refused with `ArgumentNull`. A new migration has status `New`, no retries and no handlers, and stores the file's rendered digest as the script's hash. |
| Migrations.SetStatus | FlexiForm.Database/Models/Migration.cs:61-86 | Setting the current status changes nothing and raises nothing. A change to `Picked` raises the start event. A change to `Executing` stamps the clock. A change to a terminal status raises one completion event, whose log describes the task after the change. Nothing else changes. |
| Migrations.SetStatusIdempotent | FlexiForm.Database/Models/Migration.cs:66 | Setting the same status twice is the same as setting it once. |
| Migrations.SnapshotDescribesTask | FlexiForm.Database/Models/Migration.cs:103-120 | A change to a terminal status raises exactly one completion event. Its log carries the new status and the task's id, path, retry count and start time. |
| Migrations.DoubleSkipRaisesTwoEvents | FlexiForm.Database/Models/Migration.cs:77-83 | A new task marked first as badly formed and then as unsafe raises two completion events, one per status. |
| Reporting.CountStatus | FlexiForm.Database/Services/Logger.cs:152-155 | The count for a status is the number of entries that carry it. |
| Reporting.GenerateReport | FlexiForm.Database/Services/Logger.cs:143-191 | The first call writes one report of the configuration, the summary and every log entry. Later calls do nothing, and the logs are never changed. |
| Reporting.ReportCarriesConfiguration | FlexiForm.Database/Services/Logger.cs:123-126 | `LogConfiguration` only records the configuration. The report generated afterwards describes that configuration. |
| Reporting.SummaryFigures | FlexiForm.Database/Services/Logger.cs:151-183 | The total is the number of entries. The status counts add up to at most the total. The skipped figure is the sum of the two skip counts. The total time is the sum of the durations. |
| Reporting.CountsWithinTotal | FlexiForm.Database/Services/Logger.cs:151-155 | Completed, failed and both skip counts together never exceed the total. |
| Reporting.LogAddsDuration | FlexiForm.Database/Services/Logger.cs:82-84 | Each logged entry adds one to the total and its own duration to the total time. |
| Reporting.ReportAtMostOnce | FlexiForm.Database/Services/Logger.cs:39 | Whatever sequence of calls the logger receives, it writes at most one report. The report flag is set exactly when it has, and the logs are exactly the entries logged, in order. |
| Profiling.TypeByteRoundTrip | FlexiForm.Database/Services/MigrationProfiler.cs:140 | The byte stored for a migration type reads back as that type, and every value below 4 is some type's byte. |
| Profiling.Register | FlexiForm.Database/Services/MigrationProfiler.cs:87-91 | Registering attaches one more pair of handlers and changes nothing else. |
| Profiling.Archive | FlexiForm.Database/Services/MigrationProfiler.cs:99-112 | A completed task's history record is written first, and a failed write fails the handler. Then the entry, with a profile attached, is appended to the log. Nothing else changes. |
| Profiling.ArchiveAsWritten | FlexiForm.Database/Services/MigrationProfiler.cs:101 | Before any timer has been started the handler fails with a null reference. Afterwards it behaves as the corrected handler. |
| Profiling.SkipBeforeFirstPick | FlexiForm.Database/Services/MigrationProfiler.cs:99-101 | A script skipped before any task is picked brings the handler down with a null reference, while the corrected handler logs it. |
| Profiling.ArchiveKeepsConsistent | FlexiForm.Database/Services/MigrationProfiler.cs:102-105 | Archiving keeps the history written equal to the records of the completed entries logged. |
| Profiling.RecordIgnoresProfile | FlexiForm.Database/Services/MigrationProfiler.cs:106-110 | The profile attached after the history write does not affect the history record. |
| Profiling.Handle | FlexiForm.Database/Services/MigrationProfiler.cs:120-128 | The start handler starts the timer and touches neither the log nor the history. |
| Profiling.HandleFinishedSucceeds | FlexiForm.Database/Services/MigrationProfiler.cs:99-128 | A completion event passes every attached handler unless it is a completed task's and its history row cannot be written. With no handler attached it never fails. |
| Profiling.SingleSubscription | FlexiForm.Database/Services/MigrationProfiler.cs:87-128 | With one pair of handlers, a start event runs `TrackPerformance` once and a completion event runs `Archive` once. |
| Profiling.Deliver | FlexiForm.Database/Services/MigrationProfiler.cs:120-128 | Start events alone never fail. |
| Database.ControlAppend | FlexiForm.Database/Services/TaskExecutor.cs:91-190 | The bookkeeping statements of a concatenated trace are those of each part, concatenated. |
| Engine.FirstFailing | FlexiForm.Database/Services/MigrationEngine.cs:539-563 | Every infrastructure script before the returned index commits, and the script at that index fails. |
| Engine.InfrastructureAllCommit | FlexiForm.Database/Services/MigrationEngine.cs:539-556 | When no infrastructure script fails, each runs in its own transaction and commits, in order. |
| Engine.InfrastructureStopsAtFirstFailure | FlexiForm.Database/Services/MigrationEngine.cs:541-562 | The scripts before the first failing one commit. That one is rolled back and reported as `MigrationInfrastructure` wrapping its database exception, and nothing after it runs. |
| Engine.SetupInfrastructure | FlexiForm.Database/Services/MigrationEngine.cs:531-570 | A missing `Scripts/Infrastructure` directory fails before any statement, with `MigrationInfrastructure` wrapping a `DirectoryNotFoundException` for that directory. Otherwise its scripts run in order. |
| Engine.RunInfrastructure | FlexiForm.Database/Services/MigrationEngine.cs:539-563 | The infrastructure scripts fail exactly when some script fails. The error is then `MigrationInfrastructure` wrapping the database exception of the first failing script. The scripts before it are each run and committed in their own transaction, at the start of the trace. |
| Engine.Load | FlexiForm.Database/Services/MigrationEngine.cs:306 | Loading a file fails exactly when constructing its script does, with the same error. Otherwise it yields a new migration of that script. |
| Engine.Recover | FlexiForm.Database/Services/MigrationEngine.cs:497-508 | The catch block rolls back exactly when the transaction is usable at that point. It marks the task `Retrying` with the attempt's message and one more retry, and keeps its script and handlers. |
| Engine.Try | FlexiForm.Database/Services/MigrationEngine.cs:472-512 | One attempt only appends statements. It either completes the task without using a retry, or leaves it `Retrying` with one retry more. When each of these happens is stated by `EngineProperties.TryCompletesIff`. |
| Engine.RunTask | FlexiForm.Database/Services/MigrationEngine.cs:469-513 | The retry loop ends with the task completed or with every retry used, never `Failed`, with the same script and handlers. It only appends statements. Which of the two happens is stated by `EngineProperties.RunTaskCompletesIff`. |
| Engine.RunBatch | FlexiForm.Database/Services/MigrationEngine.cs:465-514 | The batch only appends statements. It yields one finished task per task, in order: same script, completed or out of retries, never `Failed`. |
| Engine.RunQueue | FlexiForm.Database/Services/MigrationEngine.cs:461-515 | The queue is drained batch by batch and statements are only appended. Every queued task finishes, in queue order: completed or out of retries, never `Failed`. |
| Engine.ExecuteBatches | FlexiForm.Database/Services/MigrationEngine.cs:455-525 | The connection is opened before the first batch and closed last. Every queued task finishes, in queue order: completed or out of retries, never `Failed`. |
| Engine.Start | FlexiForm.Database/Services/MigrationEngine.cs:247-278 | A failed infrastructure setup is rethrown with its own statements only and no task finished. Any error of the run leaves no task finished and a report written. |
| Engine.Admit | FlexiForm.Database/Services/MigrationEngine.cs:302-341 | Taking in a file adds only runnable tasks. |
| Engine.AdmitAll | FlexiForm.Database/Services/MigrationEngine.cs:302-341 | Taking in a folder's files adds only runnable tasks. |
| Engine.Mark | FlexiForm.Database/Models/Migration.cs:77-83 | Setting a status sets it and keeps the script and handlers. The handlers fail exactly when the status changes to `Completed`, some handler is attached, and the history row for the task's current attempt cannot be written. |
| Engine.Skip | FlexiForm.Database/Services/MigrationEngine.cs:326-334 | Marking an ineligible task never fails the handlers. The task ends `SkippedForSafety` when unsafe, `SkippedForWrongSyntax` when only badly formed, and unchanged when eligible, with the same script and handlers. |
| Engine.GetTasks | FlexiForm.Database/Services/MigrationEngine.cs:292-355 | Every queued task is runnable. |
| Engine.PrepareTasks | FlexiForm.Database/Services/MigrationEngine.cs:367-453 | Every task queued over the whole plan is runnable. How the folders' queues combine is stated by `EngineProperties.PrepareTasksAppend`. |
| EngineProperties.AdmitPartition | FlexiForm.Database/Services/MigrationEngine.cs:307-335 | A script already applied (same id, type and hash, Incremental mode only) changes nothing. A safe, well-formed script is batched with its handlers attached. Any other script is logged once per skip status (wrong syntax, then unsafe) and nothing is batched. This holds with the corrected completion handler (see Findings). |
| EngineProperties.FullModeExcludesNothing | FlexiForm.Database/Services/MigrationEngine.cs:309 | In Full mode every script that loads is either batched or logged as skipped. This holds with the corrected completion handler (see Findings). |
| EngineProperties.AdmitPropagatesScriptErrors | FlexiForm.Database/Services/MigrationEngine.cs:337-340 | A file whose script cannot be constructed stops the folder with that script's error. |
| EngineProperties.AdmitAllSelects | FlexiForm.Database/Services/MigrationEngine.cs:302-341 | When every file loads, the folder's tasks are exactly the batched files' tasks, in file order. |
| EngineProperties.GetTasksMissingFolder | FlexiForm.Database/Services/MigrationEngine.cs:351-354 | A missing folder raises `MigrationFolderNotFound` before anything is read. |
| EngineProperties.GetTasksBatches | FlexiForm.Database/Services/MigrationEngine.cs:343-349 | When every file loads, a folder's queue is a permutation of its batched tasks, sorted by name (descending for Down), in batches of one to five. |
| EngineProperties.SkipLogsEachStatus | FlexiForm.Database/Services/MigrationEngine.cs:326-334 | An ineligible task ends `SkippedForSafety` when unsafe and `SkippedForWrongSyntax` otherwise. One log entry is appended per status it passed through, and no history is written. This holds with the corrected completion handler (see Findings). |
| EngineProperties.MarkSkip | FlexiForm.Database/Services/MigrationEngine.cs:328-333 | Setting a skip status never fails the handlers and keeps the observers consistent. This holds with the corrected completion handler (see Findings). |
| EngineProperties.MarkSkipOnce | FlexiForm.Database/Models/Migration.cs:77-83 | With one pair of handlers, a change to a skip status appends exactly one log entry, with that status and the script's path, and writes no history. |
| EngineProperties.HandleSucceedsUnlessCompleted | FlexiForm.Database/Services/MigrationProfiler.cs:102-111 | A completion handler can only fail on the history write of a completed task. |
| EngineProperties.AttemptStatements | FlexiForm.Database/Services/MigrationEngine.cs:472-508 | The exact statements of an attempt: it begins a transaction and executes the script. On success it commits when the transaction is usable. On failure it records the message. A refused commit is followed by a rollback exactly when the transaction is still usable after the refusal. Any other failure rolls back exactly when the transaction is usable after the script. |
| EngineProperties.TryCompletesIff | FlexiForm.Database/Services/MigrationEngine.cs:472-512 | One attempt completes the task exactly when the script executes, the completion handlers can write that attempt's history row (or none is attached), and a usable transaction commits. Otherwise the task carries that attempt's error message. |
| EngineProperties.FirstSuccessIsFirst | FlexiForm.Database/Services/MigrationEngine.cs:469 | The first successful attempt found from a retry count on does succeed, and no earlier one does. |
| EngineProperties.RunTaskStopsAtFirstSuccess | FlexiForm.Database/Services/MigrationEngine.cs:469-513 | The retry loop stops at the first successful attempt, with that attempt's retry count. Without one it runs out of retries and keeps the last attempt's message. |
| EngineProperties.RunTaskCompletesIff | FlexiForm.Database/Services/MigrationEngine.cs:469-513 | A task that is not yet completed completes exactly when one of its remaining attempts succeeds, and then at the first such attempt. Otherwise it ends `Retrying` with every retry used and the last attempt's error message. |
| EngineProperties.RunTaskKeepsPending | FlexiForm.Database/Services/MigrationEngine.cs:469-513 | The retry loop logs only completions, and the history stays equal to the completed entries. |
| EngineProperties.ExecuteBatchesKeepsPending | FlexiForm.Database/Services/MigrationEngine.cs:455-525 | Executing the queue logs only completions, each with its history record. |
| EngineProperties.PrepareTasksKeepsPending | FlexiForm.Database/Services/MigrationEngine.cs:367-443 | Preparing the queue, whether it succeeds or stops on an error, logs only skipped tasks and writes no history. |
| EngineProperties.PrepareTasksSingle | FlexiForm.Database/Services/MigrationEngine.cs:367-453 | A plan of one folder queues exactly that folder's batches. |
| EngineProperties.PrepareTasksSnoc | FlexiForm.Database/Services/MigrationEngine.cs:367-453 | The last folder of a plan is read after the others, with its batches queued after theirs, unless an earlier folder failed. |
| EngineProperties.PrepareTasksAppend | FlexiForm.Database/Services/MigrationEngine.cs:367-453 | Preparing a plan in two parts queues the second part's batches after the first part's, so no batch spans the two. An error in the first part stops the preparation before any later folder is read. |
| EngineProperties.NoFailedEntries | FlexiForm.Database/Services/MigrationEngine.cs:504-505 | No logged entry is `Failed`, so the report's failed count is zero. |
| EngineProperties.PendingReport | FlexiForm.Database/Services/MigrationEngine.cs:268 | The report generated from consistent observers is the only one, and counts no failed task. |
| EngineProperties.StartReports | FlexiForm.Database/Services/MigrationEngine.cs:247-278 | A report is written exactly when the run fails or runs in Development. It is the only report, covers the configuration and every logged entry, and counts no failed task. The history written records exactly the completed entries. This holds with the corrected completion handler (see Findings). |
| EngineProperties.StartHistoryMode | FlexiForm.Database/Services/MigrationEngine.cs:255-262 | After the infrastructure statements, Incremental mode queries the history and Full mode clears it. |
| Legacy.NewTask | FlexiForm.Database/Models/MigrationTask.cs:20-24 | A null script is refused with `ArgumentNull`. A new task has status `New`, no retries and no errors. |
| Legacy.LoadTaskFacts | FlexiForm.Database/Services/TaskRunner.cs:209 | A task loads exactly when its script does, with that script, or fails with the script's error. |
| Legacy.LoadAll | FlexiForm.Database/Services/TaskRunner.cs:205-209 | Every file of a folder is loaded in file order, and every task that loads is runnable. |
| Legacy.Collect | FlexiForm.Database/Services/TaskRunner.cs:207-236 | One file adds at most its own task to the batches. |
| Legacy.GetTasks | FlexiForm.Database/Services/TaskRunner.cs:195-261 | Every task queued from a folder is runnable. |
| Legacy.PrepareTasks | FlexiForm.Database/Services/TaskRunner.cs:263-331 | Every task queued over the whole plan is runnable. |
| Legacy.Attempt | FlexiForm.Database/Services/TaskExecutor.cs:114-138 | An attempt that throws nothing completes the task without using a retry. One that throws leaves it `Retrying`, appends the message and counts one retry. |
| Legacy.RunTask | FlexiForm.Database/Services/TaskExecutor.cs:111-141 | The retry loop keeps the script and issues only script executions. |
| Legacy.RunTaskFacts | FlexiForm.Database/Services/TaskExecutor.cs:111-141 | The loop never sets `Failed`. It ends completed or out of retries. Each retry used records its attempt's message. A completion is an attempt that threw nothing. Each attempt executes the script's text once. |
| Legacy.RunBatch | FlexiForm.Database/Services/TaskExecutor.cs:109-144 | A batch issues only script executions, and fails exactly when it stops before its last task. |
| Legacy.RelaxedQueue | FlexiForm.Database/Services/TaskExecutor.cs:102-164 | The Relaxed loop never rethrows and finishes at most every queued task. |
| Legacy.StrictQueue | FlexiForm.Database/Services/TaskExecutor.cs:102-164 | The Strict loop either finishes every task or stops early with `MigrationFailedInStrictMode`. |
| Legacy.StrictClosing | FlexiForm.Database/Services/TaskExecutor.cs:166-179 | After a failed loop the outer handler rolls back the global transaction a second time. The batch handler has already completed that transaction, so the provider refuses the call before anything reaches the server, and its `TransactionCompleted` error escapes in place of `MigrationFailedInStrictMode`. Otherwise the transaction is committed, and a failed commit is rolled back and rethrown. |
| Legacy.StrictClosingCorrected | FlexiForm.Database/Services/TaskExecutor.cs:88-90 | The corrected end of the global transaction: a transaction that is already rolled back is left alone and `MigrationFailedInStrictMode` escapes, with the same statements as the code as written. A successful loop ends as in `StrictClosing`. |
| Legacy.ExecuteBatches | FlexiForm.Database/Services/TaskExecutor.cs:91-190 | The connection is opened first and closed last. Relaxed mode never rethrows. |
| Legacy.StrictExecute | FlexiForm.Database/Services/TaskExecutor.cs:91-190 | Strict mode opens the connection and begins the global transaction first, and closes the connection last. |
| Legacy.StrictExecuteCorrected | FlexiForm.Database/Services/TaskExecutor.cs:88-90 | With the corrected closing, Strict mode also opens the connection and begins the global transaction first, and closes the connection last. |
| Legacy.RelaxedExecute | FlexiForm.Database/Services/TaskExecutor.cs:91-190 | Relaxed mode opens the connection first and closes it last, and never rethrows. |
| Legacy.Run | FlexiForm.Database/Services/TaskRunner.cs:176-181 | Nothing reaches the database exactly when preparation fails. Otherwise the run opens and closes the connection. |
| LegacyProperties.SkipStatusSafetyWins | FlexiForm.Database/Services/TaskRunner.cs:217-225 | An ineligible task is logged as unsafe whenever it is unsafe, and otherwise as badly formed. Nothing else about it changes. |
| LegacyProperties.CollectStep | FlexiForm.Database/Services/TaskRunner.cs:207-236 | One file stops the gathering exactly when Strict mode meets a file that fails to load or whose skip entry cannot be written. Otherwise the file adds its eligible task and its skip entry. |
| LegacyProperties.CollectAllSelects | FlexiForm.Database/Services/TaskRunner.cs:205-237 | Relaxed mode drops every file that fails. Strict mode stops exactly when some file fails. Without an error the batched tasks are the eligible ones and the log holds the written skip entries, both in file order. |
| LegacyProperties.GetTasksMissingFolder | FlexiForm.Database/Services/TaskRunner.cs:247-250 | A missing folder raises `MigrationFolderNotFound` in either mode and queues nothing. |
| LegacyProperties.GetTasksBatches | FlexiForm.Database/Services/TaskRunner.cs:239-245 | When gathering does not stop (Relaxed mode, or no file fails in Strict mode), a folder's queue is a permutation of its eligible tasks, sorted by name (descending for Down), in batches of one to five. The log gains the skip entries. |
| LegacyProperties.RelaxedPrepareErrors | FlexiForm.Database/Services/TaskRunner.cs:230-236 | In Relaxed mode preparation can fail only on a missing folder. |
| LegacyProperties.PrepareIgnoresIncremental | FlexiForm.Database/Services/TaskRunner.cs:263-308 | The `--incremental` switch is never read: preparation is the same with it on or off. |
| LegacyProperties.RunTaskCompletesIff | FlexiForm.Database/Services/TaskExecutor.cs:111-141 | A fresh task completes exactly when some attempt within the retry budget throws nothing. Otherwise it ends with every retry used, one message per retry, and never `Failed`. |
| LegacyProperties.OutcomesAt | FlexiForm.Database/Services/TaskExecutor.cs:109-144 | The outcome of each task is what its own retry loop leaves it as. |
| LegacyProperties.OutcomesAppend | FlexiForm.Database/Services/TaskExecutor.cs:102-109 | The outcomes of concatenated task lists are the outcomes of each list, concatenated. |
| LegacyProperties.LogsAcceptedAppend | FlexiForm.Database/Services/TaskExecutor.cs:143 | A concatenation of entries is accepted exactly when both parts are. |
| LegacyProperties.RunBatchSettles | FlexiForm.Database/Services/TaskExecutor.cs:109-144 | A batch logs its tasks' outcomes in order. It stops at the first entry the log refuses, and fails exactly when there is one. |
| LegacyProperties.StrictQueueStatements | FlexiForm.Database/Services/TaskExecutor.cs:151-158 | The Strict loop only executes scripts until a batch fails, and then rolls back once. |
| LegacyProperties.StrictFirstBatchFails | FlexiForm.Database/Services/TaskExecutor.cs:151-158 | A Strict loop whose first batch fails stops there with `MigrationFailedInStrictMode`. It has logged only tasks of that batch, up to the refused entry, and after the batch's script executions it issues one rollback and nothing more. |
| LegacyProperties.StrictFirstBatchPasses | FlexiForm.Database/Services/TaskExecutor.cs:102-164 | A Strict loop whose first batch passes continues with the rest of the queue under the same transaction. The batch's script executions are followed directly by the rest's statements, with no commit, rollback or new transaction between, and the rest's error is the loop's. |
| LegacyProperties.StrictQueueSettles | FlexiForm.Database/Services/TaskExecutor.cs:102-164 | The Strict loop logs the tasks' outcomes in queue order. It stops at the first refused entry and fails exactly when there is one. |
| LegacyProperties.StrictOutcome | FlexiForm.Database/Services/TaskExecutor.cs:96-179 | A Strict run ends in one of three ways. It is committed. Or a log entry is refused, and then the error is `TransactionCompleted` from the refused second rollback and never `MigrationFailedInStrictMode`. Or the commit fails, and its own error is rethrown. |
| LegacyProperties.StrictControl | FlexiForm.Database/Services/TaskExecutor.cs:95-189 | A Strict run opens one connection and begins one transaction. It ends in a commit, a commit then a rollback, or, after a refused entry, a single rollback. Then it closes the connection. |
| LegacyProperties.StrictDocumentedExceptionLost | FlexiForm.Database/Services/TaskExecutor.cs:151-178 | When a log entry is refused, the code as written throws `TransactionCompleted` where the corrected closing throws the documented `MigrationFailedInStrictMode`. Both issue the same statements, ending in a single rollback. |
| LegacyProperties.StrictCorrectedOutcome | FlexiForm.Database/Services/TaskExecutor.cs:88-179 | With the corrected closing, a Strict run fails with `MigrationFailedInStrictMode` exactly when a log entry is refused, after a single rollback. Otherwise it is committed, or the commit's own error is rethrown after a commit then a rollback. |
| LegacyProperties.StrictClosingControl | FlexiForm.Database/Services/TaskExecutor.cs:166-179 | The end of the global transaction issues only bookkeeping statements. |
| LegacyProperties.StrictCommitsExhaustedTasks | FlexiForm.Database/Services/TaskExecutor.cs:126-168 | Strict mode does not look at how tasks ended. When every statement throws, every task ends uncompleted with all retries used. If every log entry is accepted and the commit succeeds, the run still commits without error. |
| LegacyProperties.RelaxedTransactions | FlexiForm.Database/Services/TaskExecutor.cs:105-163 | The Relaxed loop gives each batch its own transaction: begun, then committed, rolled back, or committed and rolled back. |
| LegacyProperties.RelaxedControl | FlexiForm.Database/Services/TaskExecutor.cs:95-189 | A Relaxed run opens one connection, gives every batch its own transaction, and never rethrows. |
| LegacyProperties.RelaxedRunsEveryTask | FlexiForm.Database/Services/TaskExecutor.cs:102-164 | When every log entry is accepted, a Relaxed run runs every queued task in order. |
| LegacyProperties.RelaxedRunErrors | FlexiForm.Database/Services/TaskRunner.cs:176-181 | In Relaxed mode the only error a run rethrows is a missing folder. |

## Left out

- Console output, the JSON serialisation of the report and the log file, file paths of the logs, and `Logger.LogMigration`: output only, with no effect on any result.
- The profiler's stopwatch readings, memory figures and `GC` calls: each archive takes a measured profile as a parameter.
- SHA-256 itself: the digest of a file is an oracle, and only its rendering (`GetHash`'s string handling) is modelled.
- The T-SQL parser: a function from a script's lines to its error list.
- The database: statements are recorded in a trace. Whether an attempt, an infrastructure script, a history write, a log write or a commit succeeds is an oracle. The connection that the engine's infrastructure setup opens through `DBConnector.BeginTransaction` is not traced: the engine's trace records `Open` only where `ExecuteBatches` opens the connection, and the paths that abort the run before that are not shown leaving a connection open.
- Failures of `OpenConnection`, `BeginTransaction` and `usp_GetMigrationHistory`/`usp_ClearMigrationHistory` are not modelled. They would abort `Start` or `ExecuteBatches` with the same report-then-rethrow path that is modelled for the other errors.
- `Script.OpenReader`/`CloseReader`, which the engine calls but `Script.cs` does not define, and the reader lifecycle of `MigrationTask`: only the text read is modelled.
- Engine.RunTask, Legacy.RunTask: a script with blank text would spin forever in the retry loop, since neither the status nor the retry count changes. Constructed scripts always have a header and so are never blank (`Scripts.BodyNotBlank`), and the loops require that as `Runnable`.
- Engine.PrepareTasks: the static queue of the engine (and of the legacy runner) is never cleared between runs. One run is modelled, starting from an empty queue.
- Singletons (`GetInstance`, the locks), the static constructors, `Program.cs` and `TaskExecutor.SetConfiguration`: one configured instance per run is modelled.
- CommandLine.ParseMigrationType, CommandLine.ParseRunnerMode, CommandLine.ParseTargets: `Enum.TryParse` is modelled for comma-separated lists of names and for decimal numbers. Numbers are read by the rules of `int.TryParse`: surrounding white space, an optional sign, decimal digits. Any way in which the runtime's own number reading inside `Enum.TryParse` differs from these rules is not modelled.
- Text.Lower, Text.IsWhiteSpace, Text.IsWordChar: case folding, white space and the word characters of `\b` and `\w` are ASCII only. In .NET, `\w` also covers every Unicode letter, digit and connector punctuation. So with a non-ASCII letter right before a threat keyword, as in `éDROP DATABASE x`, .NET finds no word boundary and reports nothing, while `ThreatScanner.Scan` reports the threat. A script the program would run is then skipped for safety. `ToLowerInvariant` and the culture-sensitive string comparer are not modelled beyond that. The name ordering used by `OrderBy` is an abstract total preorder.
- DateFormat.ParseTimestamp: `DateTimeStyles.AssumeUniversal | AdjustToUniversal` is a no-op on these UTC stamps and is not modelled. Seconds are the finest unit.
- Legacy.StrictClosing: the rollback after a failed global commit (`TaskExecutor.cs` lines 171-176) is assumed not to throw, so the commit's error is the one rethrown. Whether a refused commit leaves the transaction usable depends on how it failed. The second rollback after a failed batch is different: it always meets a completed transaction, and is modelled as throwing (see Findings).
- Engine.Recover: the rollback in an attempt's catch block is assumed not to throw. A throwing rollback would leave the catch block and abort `Start`.
- Engine.RunInfrastructure: the rollback after a failed infrastructure script is assumed not to throw. The database exception is represented by its message alone, and the wrapper's fixed message is not represented. A failure of the script and a failure of its commit are one oracle, so a failed commit is traced without the `Commit` statement.
- Engine.Start: it runs the corrected completion handler, `Profiling.Archive`. With the handler as written a script skipped before any task is picked aborts the run (see Findings). The lemmas about `Start`, `Admit` and `Skip` describe the corrected behaviour.
- Legacy.RelaxedQueue: when a Relaxed batch's commit fails, the rollback that follows is assumed not to throw.
- The statement counts ("one connection", "one transaction") are stated as the exact shape of the bookkeeping statements (`Database.Control`), not as counters.
- The `TaskLogger`, `TaskProfiler`, `GlobalProfiler` and `DBConnector` services are not part of this model.
- Scripts.Body: a file's contents are its lines, an oracle, and the text read is the lines joined with a line feed. Carriage returns and a final line break are not represented.
- The engine's `OnStart`, `OnComplete` and `OnFailed` events are raised by `Start` for outside subscribers. Nothing in the core subscribes to them, so they are not modelled.

## Findings

| source | as written | input that shows it | evidently intended | confidence | as-written member | corrected member |
|---|---|---|---|---|---|---|
| FlexiForm.Database/Services/MigrationProfiler.cs:101 | `Archive` calls `_stopwatch.Stop()`. The stopwatch is only created by `TrackPerformance`, when a task is picked. | An unsafe or badly formed script in the first folder read: `GetTasks` sets its skip status during preparation, before any task is picked. The completion handler then dereferences a null stopwatch, and `Start` fails with a null reference. | A skipped script is logged, with an empty profile, and the run goes on. | not executed | Profiling.ArchiveAsWritten (shown by Profiling.SkipBeforeFirstPick) | Profiling.Archive |
| FlexiForm.Database/Services/TaskExecutor.cs:175 | In Strict mode the batch handler rolls back the global transaction and throws `MigrationFailedInStrictModeException` (lines 153-157). The outer handler then calls `Rollback` on the same transaction again. SqlClient refuses a completed transaction with an `InvalidOperationException`, which replaces the exception being rethrown. | A Strict run in which one log entry cannot be written. The caller gets "This SqlTransaction has completed" instead of the exception documented at lines 88-90. | `MigrationFailedInStrictModeException` reaches the caller, and a transaction already rolled back is not rolled back again. | not executed | Legacy.StrictClosing (shown by LegacyProperties.StrictDocumentedExceptionLost) | Legacy.StrictClosingCorrected (proved by LegacyProperties.StrictCorrectedOutcome) |
