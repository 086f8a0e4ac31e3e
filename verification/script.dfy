/** The file system as the runner sees it. Every query is a pure function of the
    path, so the file is assumed not to change while one run reads it. */
module FileSystems {

  type Byte = bv8

  /** A SHA-256 digest: 32 bytes. */
  type Digest = s: seq<Byte> | |s| == 32 witness seq(32, i => 0 as Byte)

  datatype FileSystem = FileSystem(
    /** `File.Exists`. */
    fileExists: string -> bool,
    /** The `Directory` flag of `File.GetAttributes`. */
    isDirectory: string -> bool,
    /** The lines `StreamReader.ReadLine` yields, in order. */
    lines: string -> seq<string>,
    /** SHA-256 of the file's bytes; the digest function itself is not modelled. */
    sha256: string -> Digest,
    /** `Directory.Exists`. */
    dirExists: string -> bool,
    /** The `*.sql` files of a directory, in enumeration order. */
    sqlFiles: string -> seq<string>)
}

/** `Script`: a migration script file, checked and inspected once, when it is constructed. */
module Scripts {
  import opened Wrappers
  import opened Errors
  import opened Models
  import opened Text
  import opened Metadata
  import opened ScriptInspector
  import ThreatScanner
  import opened FileSystems

  datatype Script = Script(
    absolutePath: string,
    metadata: ScriptMetadata,
    parseResult: Option<ParseResult>,
    threat: Option<Threat>)
  {
    predicate IsSafe() { threat.None? }

    predicate HasCorrectSyntax() { parseResult.None? || parseResult.value.Success() }
  }

  /** The whole text of a file, as `ReadToEnd` returns it. */
  function Body(fs: FileSystem, path: string): string {
    Join(fs.lines(path), "\n")
  }

  /** `Validate`: the path must name an existing file that is not a directory. */
  function Validate(fs: FileSystem, path: string): (r: Outcome<Error>)
    ensures r.Pass? <==> fs.fileExists(path) && !fs.isDirectory(path)
    ensures !fs.fileExists(path) ==> r == Fail(ScriptFileNotFound(path))
    ensures fs.fileExists(path) && fs.isDirectory(path) ==> r == Fail(ScriptPathIsDirectory(path))
  {
    if !fs.fileExists(path) then Fail(ScriptFileNotFound(path))
    else if fs.isDirectory(path) then Fail(ScriptPathIsDirectory(path))
    else Pass
  }

  /** `new Script(path)`: validation, then the header, then the syntax check, then the threat scan. */
  function NewScript(fs: FileSystem, path: string, parser: seq<string> -> seq<ParseError>): (r: Result<Script, Error>)
    ensures Validate(fs, path).Fail? ==> r == Failure(Validate(fs, path).error)
    ensures Validate(fs, path).Pass? ==>
              (r.Success? <==> ParseHeader(Some(fs.lines(path))).Success?)
    ensures Validate(fs, path).Pass? && r.Failure? ==> r.error == ParseHeader(Some(fs.lines(path))).error
    ensures r.Success? ==>
              && ParseHeader(Some(fs.lines(path))).Success?
              && r.value.absolutePath == path
              && r.value.metadata == ParseHeader(Some(fs.lines(path))).value
              && (r.value.HasCorrectSyntax() <==> parser(fs.lines(path)) == [])
  {
    var lines := fs.lines(path);
    if Validate(fs, path).Fail? then Failure(Validate(fs, path).error)
    else
    var metadata :- ParseHeader(Some(lines));
    var parsed := Parse(Some(lines), parser).value;
    var threat := ThreatScanner.Scan(Some(lines)).value;
    Success(Script(path, metadata, Some(parsed), threat))
  }

  /** A constructed script is safe exactly when no line of the file matches a threat
      pattern, and its threat lists exactly the matching lines, in scan order. */
  lemma NewScriptSafety(fs: FileSystem, path: string, parser: seq<string> -> seq<ParseError>)
    requires NewScript(fs, path, parser).Success?
    ensures NewScript(fs, path, parser).value.IsSafe() <==>
              forall f :: !ThreatScanner.Reported(fs.lines(path), f)
    ensures !NewScript(fs, path, parser).value.IsSafe() ==>
              var found := NewScript(fs, path, parser).value.threat.value.insights;
              (forall f :: f in found <==> ThreatScanner.Reported(fs.lines(path), f))
              && ThreatScanner.InScanOrder(found)
  {
    ThreatScanner.ScanReportsMatches(fs.lines(path));
  }

  /** A header that passes the checks has at least one comment line, so the file's
      first line starts with `--`. */
  lemma FirstLineIsComment(lines: seq<string>)
    requires ParseHeader(Some(lines)).Success?
    ensures lines != [] && StartsWith(lines[0], HeaderMarker)
  {
    if HeaderLines(lines) == [] {
      assert false;
    }
    assert lines[0] == HeaderLines(lines)[0];
  }

  /** The text of a file whose header passes the checks is not blank: it starts with `--`. */
  lemma HeaderedTextNotBlank(lines: seq<string>)
    requires ParseHeader(Some(lines)).Success?
    ensures !IsBlank(Join(lines, "\n"))
  {
    FirstLineIsComment(lines);
    assert lines[0][0] == '-';
    JoinStartsWithFirst(lines, "\n");
    assert Join(lines, "\n")[0] == lines[0][0];
  }

  /** The text of a constructed script is not blank. */
  lemma BodyNotBlank(fs: FileSystem, path: string, parser: seq<string> -> seq<ParseError>)
    requires NewScript(fs, path, parser).Success?
    ensures !IsBlank(Body(fs, path))
  {
    HeaderedTextNotBlank(fs.lines(path));
  }

  lemma JoinStartsWithFirst(parts: seq<string>, sep: string)
    requires parts != []
    ensures |parts[0]| <= |Join(parts, sep)| && Join(parts, sep)[..|parts[0]|] == parts[0]
  {
    if |parts| > 1 {
      assert Join(parts, sep) == parts[0] + (sep + Join(parts[1..], sep));
    }
  }
}
