/** `ThreatScanner`: every line of a script is matched against six case-insensitive
    regular expressions; each match is reported with its line number. The six
    expressions use only word boundaries, literal characters and runs of white
    space or hex digits, so they are written here in a small pattern language
    with its own matcher. */
module ThreatScanner {
  import opened Wrappers
  import opened Enumerations
  import opened Errors
  import opened Models
  import opened Text

  datatype CharClass = Space | Hex

  /** `\b`, one literal character, or `\s+` / `\s*` / `[0-9a-fA-F]+` / `[0-9a-fA-F]*`. */
  datatype Token = Boundary | Lit(c: char) | Run(cls: CharClass, atLeastOne: bool)

  type Pattern = seq<Token>

  predicate InClass(cls: CharClass, c: char) {
    match cls
    case Space => IsWhiteSpace(c)
    case Hex => IsHexDigit(c)
  }

  /** `\b` at position `i`: exactly one of the characters around `i` is a word character. */
  predicate IsBoundary(s: string, i: int)
    requires 0 <= i <= |s|
  {
    (i > 0 && IsWordChar(s[i - 1])) != (i < |s| && IsWordChar(s[i]))
  }

  /** Under `RegexOptions.IgnoreCase` a literal matches either case of itself. */
  predicate SameIgnoringCase(a: char, b: char) {
    LowerChar(a) == LowerChar(b)
  }

  /** Pattern `p` matches some prefix of `s[i..]`. */
  predicate MatchFrom(p: Pattern, s: string, i: nat)
    requires i <= |s|
    decreases |s| - i, |p|
  {
    if p == [] then true
    else
      match p[0]
      case Boundary => IsBoundary(s, i) && MatchFrom(p[1..], s, i)
      case Lit(c) => i < |s| && SameIgnoringCase(s[i], c) && MatchFrom(p[1..], s, i + 1)
      case Run(cls, true) => i < |s| && InClass(cls, s[i]) && MatchFrom([Run(cls, false)] + p[1..], s, i + 1)
      case Run(cls, false) =>
        MatchFrom(p[1..], s, i) || (i < |s| && InClass(cls, s[i]) && MatchFrom(p, s, i + 1))
  }

  /** `Regex.IsMatch`: the pattern matches somewhere in the line. */
  ghost predicate IsMatch(p: Pattern, s: string) {
    exists i :: 0 <= i <= |s| && MatchFrom(p, s, i)
  }

  /** The scan for a match, left to right from position `from`. */
  predicate Search(p: Pattern, s: string, from: nat)
    requires from <= |s|
    decreases |s| - from
  {
    MatchFrom(p, s, from) || (from < |s| && Search(p, s, from + 1))
  }

  /** The scan finds a match exactly when there is one at or after its start. */
  lemma {:induction false} SearchFinds(p: Pattern, s: string, from: nat)
    requires from <= |s|
    ensures Search(p, s, from) ==> exists i :: from <= i <= |s| && MatchFrom(p, s, i)
    ensures (exists i :: from <= i <= |s| && MatchFrom(p, s, i)) ==> Search(p, s, from)
    decreases |s| - from
  {
    if MatchFrom(p, s, from) {
      assert Search(p, s, from);
      assert from <= from <= |s| && MatchFrom(p, s, from);
    } else if from < |s| {
      SearchFinds(p, s, from + 1);
      if Search(p, s, from + 1) {
        var i :| from + 1 <= i <= |s| && MatchFrom(p, s, i);
        assert from <= i <= |s| && MatchFrom(p, s, i);
      } else {
        forall i | from <= i <= |s|
          ensures !MatchFrom(p, s, i)
        {
          if i > from {
            assert from + 1 <= i <= |s|;
          }
        }
      }
    } else {
      forall i | from <= i <= |s|
        ensures !MatchFrom(p, s, i)
      {
        assert i == from;
      }
    }
  }

  lemma SearchIsMatch(p: Pattern, s: string)
    ensures Search(p, s, 0) ==> IsMatch(p, s)
    ensures IsMatch(p, s) ==> Search(p, s, 0)
  {
    SearchFinds(p, s, 0);
  }

  // Case folding: a line and its lower-case form match the same patterns.

  lemma LowerCharFacts(c: char)
    ensures LowerChar(LowerChar(c)) == LowerChar(c)
    ensures IsWordChar(LowerChar(c)) == IsWordChar(c)
    ensures IsWhiteSpace(LowerChar(c)) == IsWhiteSpace(c)
    ensures IsHexDigit(LowerChar(c)) == IsHexDigit(c)
  {
  }

  lemma {:induction false} MatchFromIgnoresCase(p: Pattern, s: string, i: nat)
    requires i <= |s|
    ensures MatchFrom(p, Lower(s), i) == MatchFrom(p, s, i)
    decreases |s| - i, |p|
  {
    var t := Lower(s);
    if p != [] {
      if i < |s| {
        LowerCharFacts(s[i]);
      }
      if i > 0 {
        LowerCharFacts(s[i - 1]);
      }
      match p[0]
      case Boundary =>
        MatchFromIgnoresCase(p[1..], s, i);
      case Lit(c) =>
        if i < |s| {
          MatchFromIgnoresCase(p[1..], s, i + 1);
        }
      case Run(cls, true) =>
        if i < |s| {
          MatchFromIgnoresCase([Run(cls, false)] + p[1..], s, i + 1);
        }
      case Run(cls, false) =>
        MatchFromIgnoresCase(p[1..], s, i);
        if i < |s| {
          MatchFromIgnoresCase(p, s, i + 1);
        }
    }
  }

  /** `RegexOptions.IgnoreCase`: a line matches a pattern exactly when its lower-case form does. */
  lemma IsMatchIgnoresCase(p: Pattern, s: string)
    ensures IsMatch(p, Lower(s)) <==> IsMatch(p, s)
  {
    if IsMatch(p, s) {
      var i :| 0 <= i <= |s| && MatchFrom(p, s, i);
      MatchFromIgnoresCase(p, s, i);
    }
    if IsMatch(p, Lower(s)) {
      var i :| 0 <= i <= |Lower(s)| && MatchFrom(p, Lower(s), i);
      MatchFromIgnoresCase(p, s, i);
    }
  }

  // The table of known threats.

  function Word(w: string): (p: Pattern)
    ensures |p| == |w|
    ensures forall i :: 0 <= i < |w| ==> p[i] == Lit(w[i])
  {
    if w == [] then [] else [Lit(w[0])] + Word(w[1..])
  }

  const SpacesPlus: Token := Run(Space, true)
  const SpacesStar: Token := Run(Space, false)

  /** `\bDROP\s+DATABASE\b` */
  const DropDatabasePattern: Pattern := [Boundary] + Word("DROP") + [SpacesPlus] + Word("DATABASE") + [Boundary]
  /** `\bEXEC\s+xp_cmdshell\b` */
  const XpCmdShellPattern: Pattern := [Boundary] + Word("EXEC") + [SpacesPlus] + Word("xp_cmdshell") + [Boundary]
  /** `\bUNION\s+SELECT\b` */
  const UnionSelectPattern: Pattern := [Boundary] + Word("UNION") + [SpacesPlus] + Word("SELECT") + [Boundary]
  /** `\bWAITFOR\s+DELAY\b` */
  const WaitForDelayPattern: Pattern := [Boundary] + Word("WAITFOR") + [SpacesPlus] + Word("DELAY") + [Boundary]
  /** `\bOR\s+1\s*=\s*1\b` */
  const OrOneEqualsOnePattern: Pattern :=
    [Boundary] + Word("OR") + [SpacesPlus, Lit('1'), SpacesStar, Lit('='), SpacesStar, Lit('1'), Boundary]
  /** `0x[0-9a-fA-F]+` */
  const HexLiteralPattern: Pattern := [Lit('0'), Lit('x'), Run(Hex, true)]

  /** The threat types in the order the table lists them. */
  const ThreatOrder: seq<ThreatType> :=
    [DropDatabase, XpCmdShellExecution, UnionSelectInjection, TimeDelayAttack, BooleanInjection, HexLiteralPayload]

  function PatternOf(t: ThreatType): Pattern {
    match t
    case DropDatabase => DropDatabasePattern
    case XpCmdShellExecution => XpCmdShellPattern
    case UnionSelectInjection => UnionSelectPattern
    case TimeDelayAttack => WaitForDelayPattern
    case BooleanInjection => OrOneEqualsOnePattern
    case HexLiteralPayload => HexLiteralPattern
    case None => []
  }

  /** The position of a threat type in the table; `None` is in no position. */
  function Rank(t: ThreatType): int {
    match t
    case DropDatabase => 0
    case XpCmdShellExecution => 1
    case UnionSelectInjection => 2
    case TimeDelayAttack => 3
    case BooleanInjection => 4
    case HexLiteralPayload => 5
    case None => -1
  }

  lemma ThreatOrderRanks()
    ensures forall k :: 0 <= k < |ThreatOrder| ==> Rank(ThreatOrder[k]) == k
    ensures forall t :: t in ThreatOrder <==> t != ThreatType.None
  {
  }

  /** The table lists each threat type once, in increasing rank. */
  ghost predicate Ranked(table: seq<ThreatType>) {
    forall i, j :: 0 <= i < j < |table| ==> Rank(table[i]) < Rank(table[j])
  }

  lemma ThreatOrderRanked()
    ensures Ranked(ThreatOrder)
  {
  }

  lemma ThreatOrderComplete()
    ensures forall t :: t in ThreatOrder <==> t != ThreatType.None
  {
  }

  /** The line matches the pattern of threat type `t`. */
  predicate Detects(t: ThreatType, line: string) {
    t != ThreatType.None && Search(PatternOf(t), line, 0)
  }

  /** The findings for line number `n`: one per type of `table` that `detects`
      reports for the line, in table order. */
  function LineFindings(n: int, line: string, table: seq<ThreatType>, detects: (ThreatType, string) -> bool): seq<ThreatInfo>
    decreases |table|
  {
    if table == [] then []
    else
      (if detects(table[0], line) then [ThreatInfo(n, table[0])] else [])
      + LineFindings(n, line, table[1..], detects)
  }

  /** The findings of all lines, numbered from 1. */
  function Findings(lines: seq<string>, table: seq<ThreatType>, detects: (ThreatType, string) -> bool): seq<ThreatInfo>
    decreases |lines|
  {
    if lines == [] then []
    else Findings(lines[..|lines| - 1], table, detects) + LineFindings(|lines|, lines[|lines| - 1], table, detects)
  }

  /** `Scan`: the findings, or no threat at all when there are none. */
  function Scan(script: Option<seq<string>>): (r: Result<Option<Threat>, Error>)
    ensures script.None? <==> r.Failure?
    ensures r.Failure? ==> r.error == InvalidScript
    ensures r.Success? && r.value.Some? ==> r.value.value.insights != []
  {
    if script.None? then Failure(InvalidScript)
    else
      var found := Findings(script.value, ThreatOrder, Detects);
      if found == [] then Success(Option.None) else Success(Some(Threat(found)))
  }

  /** Findings are ordered by line and, within a line, by table position. */
  predicate Before(a: ThreatInfo, b: ThreatInfo) {
    a.line < b.line || (a.line == b.line && Rank(a.threatType) < Rank(b.threatType))
  }

  ghost predicate InScanOrder(s: seq<ThreatInfo>) {
    forall i, j :: 0 <= i < j < |s| ==> Before(s[i], s[j])
  }

  /** A finding `f` belongs to the report exactly when its line matches its threat type's pattern. */
  ghost predicate Reported(lines: seq<string>, f: ThreatInfo) {
    && 1 <= f.line <= |lines|
    && f.threatType != ThreatType.None
    && IsMatch(PatternOf(f.threatType), lines[f.line - 1])
  }

  predicate Detected(lines: seq<string>, table: seq<ThreatType>, f: ThreatInfo, detects: (ThreatType, string) -> bool) {
    1 <= f.line <= |lines| && f.threatType in table && detects(f.threatType, lines[f.line - 1])
  }

  lemma {:induction false} LineFindingsExact(
    n: int, line: string, table: seq<ThreatType>, detects: (ThreatType, string) -> bool)
    requires Ranked(table)
    ensures forall f :: f in LineFindings(n, line, table, detects) <==>
              (f.line == n && f.threatType in table && detects(f.threatType, line))
    ensures forall i, j :: 0 <= i < j < |LineFindings(n, line, table, detects)| ==>
              Rank(LineFindings(n, line, table, detects)[i].threatType)
              < Rank(LineFindings(n, line, table, detects)[j].threatType)
    ensures |LineFindings(n, line, table, detects)| <= |table|
    decreases |table|
  {
    if table != [] {
      var t := table[0];
      var rest := LineFindings(n, line, table[1..], detects);
      LineFindingsExact(n, line, table[1..], detects);
      var here := if detects(t, line) then [ThreatInfo(n, t)] else [];
      assert LineFindings(n, line, table, detects) == here + rest;
      assert table == [t] + table[1..];
      forall f | f in rest
        ensures Rank(t) < Rank(f.threatType)
      {
        var j :| 0 <= j < |table[1..]| && table[1..][j] == f.threatType;
        assert table[1 + j] == f.threatType;
      }
      forall i, j | 0 <= i < j < |here + rest|
        ensures Rank((here + rest)[i].threatType) < Rank((here + rest)[j].threatType)
      {
        if i < |here| {
          assert (here + rest)[j] == rest[j - |here|] && rest[j - |here|] in rest;
        } else {
          assert (here + rest)[i] == rest[i - |here|] && (here + rest)[j] == rest[j - |here|];
        }
      }
    }
  }

  /** A line's findings are its number paired with each type of the table the line is detected for. */
  lemma {:induction false} LineFindingsMember(
    n: int, line: string, table: seq<ThreatType>, detects: (ThreatType, string) -> bool, f: ThreatInfo)
    ensures f in LineFindings(n, line, table, detects) <==> (f.line == n && f.threatType in table && detects(f.threatType, line))
    decreases |table|
  {
    if table != [] {
      LineFindingsMember(n, line, table[1..], detects, f);
      assert f.threatType in table <==> f.threatType == table[0] || f.threatType in table[1..];
    }
  }

  /** A finding is reported exactly when its line matches its threat type's pattern. */
  lemma FindingsExact(lines: seq<string>, table: seq<ThreatType>, detects: (ThreatType, string) -> bool)
    ensures forall f :: f in Findings(lines, table, detects) <==> Detected(lines, table, f, detects)
  {
    forall f: ThreatInfo
      ensures f in Findings(lines, table, detects) <==> Detected(lines, table, f, detects)
    {
      FindingExact(lines, table, detects, f);
    }
  }

  lemma {:induction false} FindingExact(lines: seq<string>, table: seq<ThreatType>, detects: (ThreatType, string) -> bool, f: ThreatInfo)
    ensures f in Findings(lines, table, detects) <==> Detected(lines, table, f, detects)
    decreases |lines|
  {
    if lines != [] {
      FindingExact(lines[..|lines| - 1], table, detects, f);
      FindingStep(lines, table, detects, f);
    }
  }

  lemma FindingStep(lines: seq<string>, table: seq<ThreatType>, detects: (ThreatType, string) -> bool, f: ThreatInfo)
    requires lines != []
    requires f in Findings(lines[..|lines| - 1], table, detects) <==> Detected(lines[..|lines| - 1], table, f, detects)
    ensures f in Findings(lines, table, detects) <==> Detected(lines, table, f, detects)
  {
    var n := |lines|;
    LineFindingsMember(n, lines[n - 1], table, detects, f);
    if 1 <= f.line < n {
      assert lines[f.line - 1] == lines[..n - 1][f.line - 1];
    }
  }

  /** Every finding is for a line that exists, and a line has at most one finding per table entry. */
  lemma {:induction false} FindingsInRange(lines: seq<string>, table: seq<ThreatType>, detects: (ThreatType, string) -> bool)
    requires Ranked(table)
    ensures forall f :: f in Findings(lines, table, detects) ==> 1 <= f.line <= |lines|
    ensures |Findings(lines, table, detects)| <= |table| * |lines|
    decreases |lines|
  {
    if lines != [] {
      var front := lines[..|lines| - 1];
      FindingsInRange(front, table, detects);
      LineFindingsExact(|lines|, lines[|lines| - 1], table, detects);
      MulSucc(|table|, |front|);
    }
  }

  lemma MulSucc(a: int, b: int)
    ensures a * (b + 1) == a * b + a
  {
  }

  /** The findings come out in line order, then in table order. */
  lemma {:induction false} FindingsInScanOrder(lines: seq<string>, table: seq<ThreatType>, detects: (ThreatType, string) -> bool)
    requires Ranked(table)
    ensures InScanOrder(Findings(lines, table, detects))
    decreases |lines|
  {
    if lines != [] {
      var front := lines[..|lines| - 1];
      var n := |lines|;
      FindingsInScanOrder(front, table, detects);
      FindingsInRange(front, table, detects);
      LineFindingsExact(n, lines[n - 1], table, detects);
      var a := Findings(front, table, detects);
      var b := LineFindings(n, lines[n - 1], table, detects);
      assert Findings(lines, table, detects) == a + b;
      forall i, j | 0 <= i < j < |a + b|
        ensures Before((a + b)[i], (a + b)[j])
      {
        if j < |a| {
          assert (a + b)[i] == a[i] && (a + b)[j] == a[j];
        } else if i >= |a| {
          assert (a + b)[i] == b[i - |a|] && (a + b)[j] == b[j - |a|];
        } else {
          assert (a + b)[i] == a[i] && a[i] in a;
          assert (a + b)[j] == b[j - |a|] && b[j - |a|] in b;
        }
      }
    }
  }

  lemma DetectedIsReported(lines: seq<string>, f: ThreatInfo)
    ensures Detected(lines, ThreatOrder, f, Detects) <==> Reported(lines, f)
  {
    ThreatOrderComplete();
    if 1 <= f.line <= |lines| {
      SearchIsMatch(PatternOf(f.threatType), lines[f.line - 1]);
    }
  }

  /** The scan reports a threat exactly when some line matches some pattern, and
      then reports precisely the matches, in scan order. */
  lemma ScanReportsMatches(lines: seq<string>)
    ensures Scan(Some(lines)).Success?
    ensures Scan(Some(lines)).value.None? <==> forall f :: !Reported(lines, f)
    ensures Scan(Some(lines)).value.Some? ==>
              var found := Scan(Some(lines)).value.value.insights;
              (forall f :: f in found <==> Reported(lines, f)) && InScanOrder(found)
    ensures Scan(Some(lines)).value.Some? ==>
              |Scan(Some(lines)).value.value.insights| <= |ThreatOrder| * |lines|
  {
    var found := Findings(lines, ThreatOrder, Detects);
    ThreatOrderRanked();
    FindingsExact(lines, ThreatOrder, Detects);
    FindingsInRange(lines, ThreatOrder, Detects);
    FindingsInScanOrder(lines, ThreatOrder, Detects);
    forall f: ThreatInfo
      ensures f in found <==> Reported(lines, f)
    {
      DetectedIsReported(lines, f);
    }
    if found != [] {
      assert found[0] in found;
    }
  }

  // Examples of the patterns' behaviour.

  /** Matching ignores case, and `\s+` takes several blanks. */
  lemma DropDatabaseFound()
    ensures IsMatch(DropDatabasePattern, "drop  Database x")
  {
    var s := "drop  Database x";
    DropDatabaseTokens();
    DropWordMatches(s);
    assert MatchFrom(DropDatabasePattern, s, 0);
  }

  lemma DropWordMatches(s: string)
    requires s == "drop  Database x"
    ensures MatchFrom(DropDatabaseTokenList, s, 0)
  {
    var p := DropDatabaseTokenList;
    SpacesThenDatabase(s);
    assert MatchFrom(p[4..], s, 3);
    assert MatchFrom(p[3..], s, 2);
    assert MatchFrom(p[2..], s, 1);
    assert MatchFrom(p[1..], s, 0);
  }

  lemma SpacesThenDatabase(s: string)
    requires s == "drop  Database x"
    ensures MatchFrom(DropDatabaseTokenList[5..], s, 4)
  {
    var p := DropDatabaseTokenList;
    DatabaseWordMatches(s);
    var star := [Run(Space, false)] + p[6..];
    assert star[1..] == p[6..];
    assert MatchFrom(star, s, 6);
    assert MatchFrom(star, s, 5);
    assert p[5..][1..] == p[6..];
  }

  const DropDatabaseTokenList: Pattern := [Boundary, Lit('D'), Lit('R'), Lit('O'), Lit('P'), SpacesPlus,
    Lit('D'), Lit('A'), Lit('T'), Lit('A'), Lit('B'), Lit('A'), Lit('S'), Lit('E'), Boundary]

  lemma DropDatabaseTokens()
    ensures DropDatabasePattern == DropDatabaseTokenList
  {
    assert Word("DROP") == DropDatabaseTokenList[1..5];
    assert Word("DATABASE") == DropDatabaseTokenList[6..14];
  }

  lemma DatabaseWordMatches(s: string)
    requires s == "drop  Database x"
    ensures MatchFrom(DropDatabaseTokenList[6..], s, 6)
  {
    var p := DropDatabaseTokenList;
    assert MatchFrom(p[15..], s, 14);
    assert MatchFrom(p[14..], s, 14);
    assert MatchFrom(p[13..], s, 13);
    assert MatchFrom(p[12..], s, 12);
    assert MatchFrom(p[11..], s, 11);
    assert MatchFrom(p[10..], s, 10);
    assert MatchFrom(p[9..], s, 9);
    assert MatchFrom(p[8..], s, 8);
    assert MatchFrom(p[7..], s, 7);
    assert MatchFrom(p[6..], s, 6);
  }

  /** The hex pattern has no word boundary: it matches inside a word, in either case. */
  lemma HexLiteralFoundInsideWord()
    ensures IsMatch(HexLiteralPattern, "SELECT a0X1F")
  {
    assert MatchFrom(HexLiteralPattern, "SELECT a0X1F", 8);
  }
}
