/** `ScriptInspector`: reading the metadata out of a script's header comments
    (`ParseHeader`) and the syntax check (`Parse`), whose T-SQL parser is an
    oracle here. A script is given by its lines; `None` stands for a null script. */
module ScriptInspector {
  import opened Wrappers
  import opened Enumerations
  import opened Errors
  import opened Models
  import opened Text
  import opened Metadata
  import opened DateFormat

  const HeaderMarker := "--"
  const ScriptTypeKey := "-- Script Type"
  const NameKey := "-- Name"
  const CreatedAtKey := "-- Created At"
  const UpdatedAtKey := "-- Updated At"
  const ScriptIdKey := "-- Script ID"
  const MigrationTypeKey := "-- Migration Type"

  /** One error reported by the T-SQL parser. */
  datatype ParseError = ParseError(line: int, column: int, message: string)

  /** `ParseResult`; a null error list counts as success. */
  datatype ParseResult = ParseResult(errors: Option<seq<ParseError>>) {
    predicate Success() {
      errors.None? || |errors.value| == 0
    }
  }

  /** `Parse`: the parser, an oracle from the script's lines to its errors, always
      yields a (possibly empty) list. */
  function Parse(script: Option<seq<string>>, parser: seq<string> -> seq<ParseError>): (r: Result<ParseResult, Error>)
    ensures r.Failure? <==> script.None?
    ensures r.Failure? ==> r.error == InvalidScript
    ensures r.Success? ==> r.value.errors == Some(parser(script.value))
    ensures r.Success? ==> (r.value.Success() <==> parser(script.value) == [])
  {
    if script.None? then Failure(InvalidScript)
    else Success(ParseResult(Some(parser(script.value))))
  }

  /** The lines the header loop reads: all lines up to the first that does not start with `--`. */
  function HeaderLines(lines: seq<string>): (h: seq<string>)
    ensures |h| <= |lines| && h == lines[..|h|]
    ensures forall i :: 0 <= i < |h| ==> StartsWith(h[i], HeaderMarker)
    ensures |h| < |lines| ==> !StartsWith(lines[|h|], HeaderMarker)
  {
    if lines == [] || !StartsWith(lines[0], HeaderMarker) then []
    else [lines[0]] + HeaderLines(lines[1..])
  }

  /** Lines after the first non-comment line never reach the header loop. */
  lemma {:induction false} HeaderStopsAtFirstNonComment(h: seq<string>, rest: seq<string>)
    requires forall i :: 0 <= i < |h| ==> StartsWith(h[i], HeaderMarker)
    requires rest == [] || !StartsWith(rest[0], HeaderMarker)
    ensures HeaderLines(h + rest) == h
    decreases |h|
  {
    if h == [] {
      assert h + rest == rest;
    } else {
      assert (h + rest)[0] == h[0];
      assert (h + rest)[1..] == h[1..] + rest;
      HeaderStopsAtFirstNonComment(h[1..], rest);
    }
  }

  lemma ColonAt(s: string, j: int)
    ensures OccursAt(s, ":", j) <==> (0 <= j < |s| && s[j] == ':')
  {
    if 0 <= j < |s| {
      assert |s[j..j + 1]| == 1 && s[j..j + 1][0] == s[j];
    }
  }

  /** `line.Split(':')[1].Trim()`, or `None` where indexing the split throws. The
      value is the trimmed text between the first colon and the next one (or the end). */
  function FieldValue(line: string): Option<string> {
    var parts := SplitOn(line, ":");
    if |parts| < 2 then Option.None else Some(Trim(parts[1]))
  }

  /** The value is the trimmed text between the first colon and the next one (or
      the end of the line); there is none exactly when the line has no colon. */
  lemma FieldValueBetweenColons(line: string)
    ensures FieldValue(line).None? <==> ':' !in line
    ensures FieldValue(line).Some? ==>
              exists k, e {:trigger line[k + 1..e]} ::
                (&& 0 <= k < e <= |line| && line[k] == ':' && ':' !in line[..k]
                 && ':' !in line[k + 1..e] && (e == |line| || line[e] == ':')
                 && FieldValue(line).value == Trim(line[k + 1..e]))
  {
    FieldValueFacts(line);
  }

  lemma NoColonOccurrence(s: string)
    ensures (forall j :: 0 <= j <= |s| ==> !OccursAt(s, ":", j)) <==> ':' !in s
  {
    if ':' in s {
      var j :| 0 <= j < |s| && s[j] == ':';
      ColonAt(s, j);
    } else {
      forall j | 0 <= j <= |s| ensures !OccursAt(s, ":", j) {
        ColonAt(s, j);
      }
    }
  }

  lemma NoColonBefore(s: string, k: int)
    requires 0 <= k <= |s|
    requires forall j :: 0 <= j < k ==> !OccursAt(s, ":", j)
    ensures ':' !in s[..k]
  {
    forall j | 0 <= j < k ensures s[..k][j] != ':' {
      ColonAt(s, j);
    }
  }

  lemma FieldValueFacts(line: string)
    ensures |SplitOn(line, ":")| == 1 <==> ':' !in line
    ensures |SplitOn(line, ":")| > 1 ==>
              exists k, e {:trigger line[k + 1..e]} ::
                (&& 0 <= k < e <= |line| && line[k] == ':' && ':' !in line[..k]
                 && ':' !in line[k + 1..e] && (e == |line| || line[e] == ':')
                 && SplitOn(line, ":")[1] == line[k + 1..e])
  {
    var parts := SplitOn(line, ":");
    SplitOnFacts(line, ":");
    NoColonOccurrence(line);
    if |parts| > 1 {
      var k := |parts[0]|;
      ColonAt(line, k);
      NoColonBefore(line, k);
      SplitOnRest(line, ":");
      var rest := line[k + 1..];
      var more := SplitOn(rest, ":");
      assert parts[1] == more[0];
      var e := k + 1 + |more[0]|;
      assert line[k + 1..e] == more[0];
      SplitOnFacts(rest, ":");
      if |more| > 1 {
        ColonAt(rest, |more[0]|);
        NoColonBefore(rest, |more[0]|);
        assert rest[..|more[0]|] == more[0];
        assert rest[|more[0]|] == line[e];
      } else {
        NoColonOccurrence(rest);
      }
    }
  }

  /** The `-- Script Type` value, lower-cased: anything but alter, schema or proc,
      `constraint` included, reads as Unknown. */
  function ScriptTypeOf(value: string): ScriptType {
    var v := Lower(value);
    if v == "alter" then ScriptType.Alter
    else if v == "schema" then ScriptType.Schema
    else if v == "proc" then ScriptType.Proc
    else ScriptType.Unknown
  }

  /** The `-- Migration Type` value, lower-cased: anything but up, down or both reads as None. */
  function MigrationTypeOf(value: string): MigrationType {
    var v := Lower(value);
    if v == "up" then MigrationType.Up
    else if v == "down" then MigrationType.Down
    else if v == "both" then MigrationType.Both
    else MigrationType.None
  }

  /** The header values are read without regard to case, and no value reads as Constraint. */
  lemma TypeValuesIgnoreCase(a: string, b: string)
    ensures EqualsIgnoreCase(a, b) ==> ScriptTypeOf(a) == ScriptTypeOf(b) && MigrationTypeOf(a) == MigrationTypeOf(b)
    ensures ScriptTypeOf(a) != ScriptType.Constraint
  {
  }

  /** `constraint`, in any case, reads as Unknown. */
  lemma ConstraintReadsAsUnknown()
    ensures ScriptTypeOf("Constraint") == ScriptType.Unknown
  {
    assert Lower("Constraint")[0] == 'c';
  }

  /** Recognised script type names read back as their type, whatever their case. */
  lemma ScriptTypeNamesRead()
    ensures ScriptTypeOf("Alter") == ScriptType.Alter
    ensures ScriptTypeOf("SCHEMA") == ScriptType.Schema
  {
    assert Lower("Alter") == "alter";
    assert Lower("SCHEMA") == "schema";
  }

  /** Recognised migration type names read back as their type, whatever their case. */
  lemma MigrationTypeNamesRead()
    ensures MigrationTypeOf("Up") == MigrationType.Up
    ensures MigrationTypeOf("DOWN") == MigrationType.Down
  {
    assert Lower("Up") == "up";
    assert Lower("DOWN") == "down";
  }

  /** An audit line: the text after the first colon, trimmed, holds a time stamp
      before `UTC` and the author, in parentheses, after it. `None` where the
      time stamp does not parse or there is nothing after `UTC`. */
  function ParseAudit(line: string): (r: Option<Audit>)
    ensures r.Some? ==> ':' in line && ValidTimestamp(r.value.timeStamp)
    ensures r.Some? ==> '(' !in r.value.author && ')' !in r.value.author
  {
    var parts := SplitOn(line, ":");
    var signature := Trim(Join(parts[1..], ":"));
    var info := SplitOn(signature, "UTC");
    var stamp := ParseTimestamp(Trim(info[0]));
    AuditNeedsColon(line);
    if stamp.None? || |info| < 2 then Option.None
    else Some(Audit(Remove(Remove(Trim(info[1]), '('), ')'), stamp.value))
  }

  lemma AuditNeedsColon(line: string)
    ensures ':' !in line ==>
              ParseTimestamp(Trim(SplitOn(Trim(Join(SplitOn(line, ":")[1..], ":")), "UTC")[0])).None?
  {
    if ':' !in line {
      FieldValueFacts(line);
      var parts := SplitOn(line, ":");
      assert parts[1..] == [];
      var signature := Trim(Join(parts[1..], ":"));
      assert signature == "";
      var info := SplitOn(signature, "UTC");
      assert |info[0]| <= |signature|;
      assert |Trim(info[0])| <= |info[0]|;
    }
  }

  /** The metadata being filled in, and the dictionary of which required fields
      have been seen. */
  datatype HeaderState = HeaderState(
    metadata: ScriptMetadata,
    hasScriptId: bool,
    hasScriptType: bool,
    hasName: bool,
    hasMigrationType: bool,
    hasCreatedAt: bool)

  const Initial := HeaderState(Fresh, false, false, false, false, false)

  /** No line starts with two different keys. */
  lemma KeysExclusive(line: string)
    ensures StartsWith(line, ScriptTypeKey) ==>
              !StartsWith(line, NameKey) && !StartsWith(line, CreatedAtKey) && !StartsWith(line, UpdatedAtKey)
              && !StartsWith(line, ScriptIdKey) && !StartsWith(line, MigrationTypeKey)
    ensures StartsWith(line, NameKey) ==>
              !StartsWith(line, CreatedAtKey) && !StartsWith(line, UpdatedAtKey)
              && !StartsWith(line, ScriptIdKey) && !StartsWith(line, MigrationTypeKey)
    ensures StartsWith(line, CreatedAtKey) ==>
              !StartsWith(line, UpdatedAtKey) && !StartsWith(line, ScriptIdKey) && !StartsWith(line, MigrationTypeKey)
    ensures StartsWith(line, UpdatedAtKey) ==> !StartsWith(line, ScriptIdKey) && !StartsWith(line, MigrationTypeKey)
    ensures StartsWith(line, ScriptIdKey) ==> !StartsWith(line, MigrationTypeKey)
  {
    if |line| > 3 {
      assert StartsWith(line, ScriptTypeKey) ==> line[3] == line[..|ScriptTypeKey|][3] == 'S';
      assert StartsWith(line, NameKey) ==> line[3] == line[..|NameKey|][3] == 'N';
      assert StartsWith(line, CreatedAtKey) ==> line[3] == line[..|CreatedAtKey|][3] == 'C';
      assert StartsWith(line, UpdatedAtKey) ==> line[3] == line[..|UpdatedAtKey|][3] == 'U';
      assert StartsWith(line, ScriptIdKey) ==> line[3] == line[..|ScriptIdKey|][3] == 'S';
      assert StartsWith(line, MigrationTypeKey) ==> line[3] == line[..|MigrationTypeKey|][3] == 'M';
    }
    if |line| > 10 {
      assert StartsWith(line, ScriptTypeKey) ==> line[10] == line[..|ScriptTypeKey|][10] == 'T';
      assert StartsWith(line, ScriptIdKey) ==> line[10] == line[..|ScriptIdKey|][10] == 'I';
    }
  }

  function ReadScriptType(st: HeaderState, line: string): HeaderState {
    if !StartsWith(line, ScriptTypeKey) then st
    else match FieldValue(line)
      case None => st.(hasScriptType := false)
      case Some(v) => st.(metadata := st.metadata.(scriptType := ScriptTypeOf(v)), hasScriptType := true)
  }

  function ReadName(st: HeaderState, line: string): HeaderState {
    if !StartsWith(line, NameKey) then st
    else match FieldValue(line)
      case None => st.(hasName := false)
      case Some(v) => st.(metadata := st.metadata.(name := v), hasName := true)
  }

  /** A well-formed audit line adds its audit; a malformed `Created At` line marks
      the creation entry absent, and a malformed `Updated At` line is an error. */
  function ReadAudit(st: HeaderState, line: string): Result<HeaderState, Error> {
    var created := StartsWith(line, CreatedAtKey);
    if !created && !StartsWith(line, UpdatedAtKey) then Success(st)
    else match ParseAudit(line)
      case Some(a) => Success(st.(metadata := AddAudit(st.metadata, a), hasCreatedAt := created || st.hasCreatedAt))
      case None => if created then Success(st.(hasCreatedAt := false)) else Failure(MalformedAuditEntry)
  }

  function ReadScriptId(st: HeaderState, line: string): HeaderState {
    if !StartsWith(line, ScriptIdKey) then st
    else match FieldValue(line)
      case None => st.(hasScriptId := false)
      case Some(v) => st.(metadata := st.metadata.(id := v), hasScriptId := true)
  }

  function ReadMigrationType(st: HeaderState, line: string): HeaderState {
    if !StartsWith(line, MigrationTypeKey) then st
    else match FieldValue(line)
      case None => st.(hasMigrationType := false)
      case Some(v) => st.(metadata := st.metadata.(migrationType := MigrationTypeOf(v)), hasMigrationType := true)
  }

  /** One pass of the header loop's body, the key tests in the order the code makes them. */
  function ReadLine(st: HeaderState, line: string): Result<HeaderState, Error> {
    var afterType := ReadScriptType(st, line);
    var afterName := ReadName(afterType, line);
    var afterAudit :- ReadAudit(afterName, line);
    var afterId := ReadScriptId(afterAudit, line);
    Success(ReadMigrationType(afterId, line))
  }

  /** The header loop over the given lines, in order. */
  function ReadLines(st: HeaderState, h: seq<string>): Result<HeaderState, Error>
    decreases |h|
  {
    if h == [] then Success(st)
    else
      var before :- ReadLines(st, h[..|h| - 1]);
      ReadLine(before, h[|h| - 1])
  }

  /** The check after the loop: the first absent field, in dictionary order, is the error. */
  function CheckFields(st: HeaderState): (r: Result<ScriptMetadata, Error>)
    ensures r.Success? <==> st.hasScriptId && st.hasScriptType && st.hasName && st.hasMigrationType && st.hasCreatedAt
    ensures r.Success? ==> r.value == st.metadata
    ensures r.Failure? ==> (r.error == ScriptIdMissing <==> !st.hasScriptId)
    ensures r.Failure? ==> r.error.IsDomainError() && 1004 <= r.error.Code() <= 1008
  {
    if !st.hasScriptId then Failure(ScriptIdMissing)
    else if !st.hasScriptType then Failure(ScriptTypeMissing)
    else if !st.hasName then Failure(ScriptNameMissing)
    else if !st.hasMigrationType then Failure(MigrationTypeMissing)
    else if !st.hasCreatedAt then Failure(CreatedAtMissing)
    else Success(st.metadata)
  }

  /** `ParseHeader`. */
  function ParseHeader(script: Option<seq<string>>): Result<ScriptMetadata, Error> {
    if script.None? then Failure(InvalidScript)
    else
      var st :- ReadLines(Initial, HeaderLines(script.value));
      CheckFields(st)
  }

  // The header described line by line rather than as a loop: which line decides
  // each field, and which lines contribute audits.

  /** The last line starting with `key`. */
  function LastWith(h: seq<string>, key: string): Option<string>
    decreases |h|
  {
    if h == [] then Option.None
    else if StartsWith(h[|h| - 1], key) then Some(h[|h| - 1])
    else LastWith(h[..|h| - 1], key)
  }

  /** `LastWith` finds a line exactly when one starts with the key, and no later line does. */
  lemma {:induction false} LastWithIsLast(h: seq<string>, key: string)
    ensures LastWith(h, key).None? <==> forall i :: 0 <= i < |h| ==> !StartsWith(h[i], key)
    ensures LastWith(h, key).Some? ==>
              exists i :: (0 <= i < |h| && h[i] == LastWith(h, key).value && StartsWith(h[i], key)
                           && forall j :: i < j < |h| ==> !StartsWith(h[j], key))
    decreases |h|
  {
    if h != [] && !StartsWith(h[|h| - 1], key) {
      LastWithIsLast(h[..|h| - 1], key);
      assert forall i :: 0 <= i < |h| - 1 ==> h[..|h| - 1][i] == h[i];
    }
  }

  /** The value a field ends up with: that of its last line, if that line has a colon. */
  function FieldOf(h: seq<string>, key: string): Option<string> {
    match LastWith(h, key)
    case None => Option.None
    case Some(line) => FieldValue(line)
  }

  /** The audit of the last `Created At` line, if it is well formed. */
  function CreationOf(h: seq<string>): Option<Audit> {
    match LastWith(h, CreatedAtKey)
    case None => Option.None
    case Some(line) => ParseAudit(line)
  }

  predicate IsAuditLine(line: string) {
    StartsWith(line, CreatedAtKey) || StartsWith(line, UpdatedAtKey)
  }

  predicate IsMalformedUpdate(line: string) {
    StartsWith(line, UpdatedAtKey) && ParseAudit(line).None?
  }

  /** Some line satisfies `p`. */
  predicate AnyLine(h: seq<string>, p: string -> bool)
    decreases |h|
  {
    h != [] && (AnyLine(h[..|h| - 1], p) || p(h[|h| - 1]))
  }

  lemma {:induction false} AnyLineExists(h: seq<string>, p: string -> bool)
    ensures AnyLine(h, p) <==> exists i :: 0 <= i < |h| && p(h[i])
    decreases |h|
  {
    if h != [] {
      var front := h[..|h| - 1];
      AnyLineExists(front, p);
      assert forall i :: 0 <= i < |h| - 1 ==> front[i] == h[i];
    }
  }

  predicate AnyMalformedUpdate(h: seq<string>) {
    AnyLine(h, IsMalformedUpdate)
  }

  lemma AnyMalformedUpdateExists(h: seq<string>)
    ensures AnyMalformedUpdate(h) <==> exists i :: 0 <= i < |h| && IsMalformedUpdate(h[i])
  {
    AnyLineExists(h, IsMalformedUpdate);
  }

  /** The audits of the well-formed audit lines, in line order. */
  function AuditsOf(h: seq<string>): seq<Audit>
    decreases |h|
  {
    if h == [] then []
    else
      var line := h[|h| - 1];
      AuditsOf(h[..|h| - 1]) + (if IsAuditLine(line) && ParseAudit(line).Some? then [ParseAudit(line).value] else [])
  }

  /** What the header yields, stated per field. */
  function ExpectedHeader(h: seq<string>): Result<ScriptMetadata, Error> {
    if AnyMalformedUpdate(h) then Failure(MalformedAuditEntry)
    else if FieldOf(h, ScriptIdKey).None? then Failure(ScriptIdMissing)
    else if FieldOf(h, ScriptTypeKey).None? then Failure(ScriptTypeMissing)
    else if FieldOf(h, NameKey).None? then Failure(ScriptNameMissing)
    else if FieldOf(h, MigrationTypeKey).None? then Failure(MigrationTypeMissing)
    else if CreationOf(h).None? then Failure(CreatedAtMissing)
    else Success(Fresh.(
      id := FieldOf(h, ScriptIdKey).value,
      name := FieldOf(h, NameKey).value,
      scriptType := ScriptTypeOf(FieldOf(h, ScriptTypeKey).value),
      migrationType := MigrationTypeOf(FieldOf(h, MigrationTypeKey).value),
      history := AddAudits(Fresh, AuditsOf(h)).history))
  }

  /** A header line starts with at most one key, so only that key's reader acts on it. */
  lemma ReadLineByKey(st: HeaderState, line: string)
    ensures ReadLine(st, line) ==
              if StartsWith(line, ScriptTypeKey) then Success(ReadScriptType(st, line))
              else if StartsWith(line, NameKey) then Success(ReadName(st, line))
              else if StartsWith(line, ScriptIdKey) then Success(ReadScriptId(st, line))
              else if StartsWith(line, MigrationTypeKey) then Success(ReadMigrationType(st, line))
              else ReadAudit(st, line)
  {
    KeysExclusive(line);
    if StartsWith(line, ScriptTypeKey) {
      assert ReadLine(st, line) == Success(ReadScriptType(st, line));
    } else if StartsWith(line, NameKey) {
      assert ReadLine(st, line) == Success(ReadName(st, line));
    } else if StartsWith(line, ScriptIdKey) {
      assert ReadLine(st, line) == Success(ReadScriptId(st, line));
    } else if StartsWith(line, MigrationTypeKey) {
      assert ReadLine(st, line) == Success(ReadMigrationType(st, line));
    } else {
      assert ReadLine(st, line) == ReadAudit(st, line);
    }
  }

  /** A header line fails exactly when it is a malformed `Updated At` line, and then with MalformedAuditEntry. */
  lemma ReadLineOutcome(st: HeaderState, line: string)
    ensures ReadLine(st, line).Failure? <==> IsMalformedUpdate(line)
    ensures ReadLine(st, line).Failure? ==> ReadLine(st, line).error == MalformedAuditEntry
  {
    KeysExclusive(line);
    ReadLineByKey(st, line);
  }

  /** What one header line does to the Script ID and Name fields. */
  lemma ReadLineIdName(st: HeaderState, line: string)
    ensures ReadLine(st, line).Success? ==>
              var s := ReadLine(st, line).value;
              && s.hasScriptId == (if StartsWith(line, ScriptIdKey) then FieldValue(line).Some? else st.hasScriptId)
              && s.metadata.id == (if StartsWith(line, ScriptIdKey) && FieldValue(line).Some? then FieldValue(line).value else st.metadata.id)
              && s.hasName == (if StartsWith(line, NameKey) then FieldValue(line).Some? else st.hasName)
              && s.metadata.name == (if StartsWith(line, NameKey) && FieldValue(line).Some? then FieldValue(line).value else st.metadata.name)
  {
    KeysExclusive(line);
    ReadLineByKey(st, line);
    if StartsWith(line, ScriptIdKey) {
      assert ReadLine(st, line) == Success(ReadScriptId(st, line));
    } else if StartsWith(line, NameKey) {
      assert ReadLine(st, line) == Success(ReadName(st, line));
    }
  }

  /** What one header line does to the Script Type and Migration Type fields. */
  lemma ReadLineTypes(st: HeaderState, line: string)
    ensures ReadLine(st, line).Success? ==>
              var s := ReadLine(st, line).value;
              && s.hasScriptType == (if StartsWith(line, ScriptTypeKey) then FieldValue(line).Some? else st.hasScriptType)
              && s.metadata.scriptType == (if StartsWith(line, ScriptTypeKey) && FieldValue(line).Some? then ScriptTypeOf(FieldValue(line).value) else st.metadata.scriptType)
              && s.hasMigrationType == (if StartsWith(line, MigrationTypeKey) then FieldValue(line).Some? else st.hasMigrationType)
              && s.metadata.migrationType == (if StartsWith(line, MigrationTypeKey) && FieldValue(line).Some? then MigrationTypeOf(FieldValue(line).value) else st.metadata.migrationType)
  {
    KeysExclusive(line);
    ReadLineByKey(st, line);
    if StartsWith(line, ScriptTypeKey) {
      assert ReadLine(st, line) == Success(ReadScriptType(st, line));
    } else if StartsWith(line, MigrationTypeKey) {
      assert ReadLine(st, line) == Success(ReadMigrationType(st, line));
    }
  }

  /** What one header line does to the Created At flag, the history and the hash. */
  lemma ReadLineAudits(st: HeaderState, line: string)
    ensures ReadLine(st, line).Success? ==>
              var s := ReadLine(st, line).value;
              && s.hasCreatedAt == (if StartsWith(line, CreatedAtKey) then ParseAudit(line).Some? else st.hasCreatedAt)
              && s.metadata.history == (if IsAuditLine(line) && ParseAudit(line).Some? then AddAudit(st.metadata, ParseAudit(line).value).history else st.metadata.history)
              && s.metadata.hash == st.metadata.hash
  {
    KeysExclusive(line);
    ReadLineByKey(st, line);
    if IsAuditLine(line) {
      assert ReadLine(st, line) == ReadAudit(st, line);
    }
  }

  /** The header loop fails, with MalformedAuditEntry, exactly when some line is a malformed `Updated At` line. */
  lemma {:induction false} ReadLinesFailsOnMalformedUpdate(st: HeaderState, h: seq<string>)
    ensures ReadLines(st, h).Failure? <==> AnyMalformedUpdate(h)
    ensures ReadLines(st, h).Failure? ==> ReadLines(st, h).error == MalformedAuditEntry
    decreases |h|
  {
    if h != [] {
      var front := h[..|h| - 1];
      ReadLinesFailsOnMalformedUpdate(st, front);
      match ReadLines(st, front)
      case Failure(e) =>
        assert ReadLines(st, h) == Failure(e);
      case Success(before) =>
        assert ReadLines(st, h) == ReadLine(before, h[|h| - 1]);
        ReadLineOutcome(before, h[|h| - 1]);
    }
  }

  /** The Script ID and Name fields hold their last line's value. */
  lemma {:induction false} ReadLinesKeepsLastIdAndName(st: HeaderState, h: seq<string>)
    ensures ReadLines(st, h).Success? ==>
              var s := ReadLines(st, h).value;
              && s.hasScriptId == (if LastWith(h, ScriptIdKey).Some? then FieldOf(h, ScriptIdKey).Some? else st.hasScriptId)
              && (FieldOf(h, ScriptIdKey).Some? ==> s.metadata.id == FieldOf(h, ScriptIdKey).value)
              && s.hasName == (if LastWith(h, NameKey).Some? then FieldOf(h, NameKey).Some? else st.hasName)
              && (FieldOf(h, NameKey).Some? ==> s.metadata.name == FieldOf(h, NameKey).value)
    decreases |h|
  {
    if h != [] {
      var front := h[..|h| - 1];
      var line := h[|h| - 1];
      ReadLinesKeepsLastIdAndName(st, front);
      ReadLinesFailsOnMalformedUpdate(st, front);
      if ReadLines(st, front).Success? {
        ReadLineIdName(ReadLines(st, front).value, line);
      }
    }
  }

  /** The Script Type and Migration Type fields hold their last line's value. */
  lemma {:induction false} ReadLinesKeepsLastTypes(st: HeaderState, h: seq<string>)
    ensures ReadLines(st, h).Success? ==>
              var s := ReadLines(st, h).value;
              && s.hasScriptType == (if LastWith(h, ScriptTypeKey).Some? then FieldOf(h, ScriptTypeKey).Some? else st.hasScriptType)
              && (FieldOf(h, ScriptTypeKey).Some? ==> s.metadata.scriptType == ScriptTypeOf(FieldOf(h, ScriptTypeKey).value))
              && s.hasMigrationType == (if LastWith(h, MigrationTypeKey).Some? then FieldOf(h, MigrationTypeKey).Some? else st.hasMigrationType)
              && (FieldOf(h, MigrationTypeKey).Some? ==> s.metadata.migrationType == MigrationTypeOf(FieldOf(h, MigrationTypeKey).value))
    decreases |h|
  {
    if h != [] {
      var front := h[..|h| - 1];
      var line := h[|h| - 1];
      ReadLinesKeepsLastTypes(st, front);
      ReadLinesFailsOnMalformedUpdate(st, front);
      if ReadLines(st, front).Success? {
        ReadLineTypes(ReadLines(st, front).value, line);
      }
    }
  }

  /** The Created At flag follows the last `Created At` line. */
  lemma {:induction false} ReadLinesTracksCreation(st: HeaderState, h: seq<string>)
    ensures ReadLines(st, h).Success? ==>
              ReadLines(st, h).value.hasCreatedAt == (if LastWith(h, CreatedAtKey).Some? then CreationOf(h).Some? else st.hasCreatedAt)
    decreases |h|
  {
    if h != [] {
      var front := h[..|h| - 1];
      var line := h[|h| - 1];
      ReadLinesTracksCreation(st, front);
      match ReadLines(st, front)
      case Failure(e) =>
        assert ReadLines(st, h) == Failure(e);
      case Success(before) =>
        assert ReadLines(st, h) == ReadLine(before, line);
        ReadLineAudits(before, line);
    }
  }

  /** The history collects the audit of every well-formed audit line, and the hash is untouched. */
  lemma {:induction false} ReadLinesCollectsAudits(st: HeaderState, h: seq<string>)
    ensures ReadLines(st, h).Success? ==>
              && ReadLines(st, h).value.metadata.history == AddAudits(st.metadata, AuditsOf(h)).history
              && ReadLines(st, h).value.metadata.hash == st.metadata.hash
    decreases |h|
  {
    if h == [] {
      assert AuditsOf(h) == [];
    } else {
      var front := h[..|h| - 1];
      var line := h[|h| - 1];
      ReadLinesCollectsAudits(st, front);
      match ReadLines(st, front)
      case Failure(e) =>
        assert ReadLines(st, h) == Failure(e);
      case Success(before) =>
        assert ReadLines(st, h) == ReadLine(before, line);
        ReadLineAudits(before, line);
        var audits := AuditsOf(front);
        if IsAuditLine(line) && ParseAudit(line).Some? {
          var a := ParseAudit(line).value;
          assert AuditsOf(h) == audits + [a];
          AddAuditsSnoc(st.metadata, audits, a);
        } else {
          assert AuditsOf(h) == audits;
        }
    }
  }

  /** `ParseHeader` yields exactly what the per-field description says: the first
      malformed `Updated At` line is an error; otherwise the first absent field in
      the order Script ID, Script Type, Name, Migration Type, Created At is the
      error; otherwise each field holds its last line's value and the history
      holds the audits of all well-formed audit lines. */
  lemma ParseHeaderAsDescribed(lines: seq<string>)
    ensures ParseHeader(Some(lines)) == ExpectedHeader(HeaderLines(lines))
  {
    var h := HeaderLines(lines);
    ReadLinesFailsOnMalformedUpdate(Initial, h);
    ReadLinesKeepsLastIdAndName(Initial, h);
    ReadLinesKeepsLastTypes(Initial, h);
    ReadLinesCollectsAudits(Initial, h);
    ReadLinesTracksCreation(Initial, h);
    if ReadLines(Initial, h).Success? {
      var s := ReadLines(Initial, h).value;
      if CheckFields(s).Success? {
        assert FieldOf(h, ScriptIdKey).Some?;
        assert s.metadata == Fresh.(
          id := FieldOf(h, ScriptIdKey).value,
          name := FieldOf(h, NameKey).value,
          scriptType := ScriptTypeOf(FieldOf(h, ScriptTypeKey).value),
          migrationType := MigrationTypeOf(FieldOf(h, MigrationTypeKey).value),
          history := AddAudits(Fresh, AuditsOf(h)).history);
      }
    }
  }
}
