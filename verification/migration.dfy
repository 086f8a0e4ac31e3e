/** The rendering of a SHA-256 digest that `Migration.GetHash` stores as the
    script's hash: `BitConverter.ToString` (upper-case byte pairs joined by `-`),
    then `Replace("-", "")`, then `ToLowerInvariant`. */
module HashRendering {
  import opened Text
  import opened FileSystems

  function UpperHexDigit(n: int): char
    requires 0 <= n < 16
  {
    if n < 10 then (48 + n) as char else (55 + n) as char
  }

  function LowerHexDigit(n: int): char
    requires 0 <= n < 16
  {
    if n < 10 then (48 + n) as char else (87 + n) as char
  }

  function UpperPair(b: Byte): string {
    [UpperHexDigit(b as int / 16), UpperHexDigit(b as int % 16)]
  }

  /** `BitConverter.ToString(bytes)`: `"0A-FF-…"`. */
  function BitConverterString(bytes: seq<Byte>): string
    decreases |bytes|
  {
    if |bytes| == 0 then ""
    else if |bytes| == 1 then UpperPair(bytes[0])
    else UpperPair(bytes[0]) + "-" + BitConverterString(bytes[1..])
  }

  /** `GetHash`'s string: the `-` separators removed, then lower-cased. */
  function RenderHash(bytes: seq<Byte>): string {
    Lower(Remove(BitConverterString(bytes), '-'))
  }

  /** The intended rendering: two lower-case hex digits per byte, high nibble first. */
  function LowerHex(bytes: seq<Byte>): (s: string)
    ensures |s| == 2 * |bytes|
    decreases |bytes|
  {
    if bytes == [] then ""
    else [LowerHexDigit(bytes[0] as int / 16), LowerHexDigit(bytes[0] as int % 16)] + LowerHex(bytes[1..])
  }

  predicate IsLowerHexChar(c: char) { '0' <= c <= '9' || 'a' <= c <= 'f' }

  function HexValue(c: char): int {
    if '0' <= c <= '9' then c as int - 48
    else if 'a' <= c <= 'f' then c as int - 87
    else 0
  }

  /** Reads a string of hex digit pairs back into bytes. */
  function Unhex(s: string): seq<Byte>
    decreases |s|
  {
    if |s| < 2 then []
    else [(HexValue(s[0]) * 16 + HexValue(s[1])) as Byte] + Unhex(s[2..])
  }

  lemma LowerAppend(a: string, b: string)
    ensures Lower(a + b) == Lower(a) + Lower(b)
  {
  }

  lemma NoDashInPair(b: Byte)
    ensures '-' !in UpperPair(b)
    ensures Remove(UpperPair(b), '-') == UpperPair(b)
  {
  }

  lemma {:induction false} RemoveDashesKeepsPairs(bytes: seq<Byte>)
    ensures Remove(BitConverterString(bytes), '-') == UpperPairs(bytes)
    decreases |bytes|
  {
    if |bytes| == 1 {
      NoDashInPair(bytes[0]);
      assert UpperPairs(bytes) == UpperPair(bytes[0]) + UpperPairs([]);
    } else if |bytes| > 1 {
      var head := UpperPair(bytes[0]);
      var rest := BitConverterString(bytes[1..]);
      assert BitConverterString(bytes) == head + ("-" + rest);
      NoDashInPair(bytes[0]);
      RemoveAppend(head, "-" + rest, '-');
      RemoveAppend("-", rest, '-');
      assert Remove("-", '-') == [];
      RemoveDashesKeepsPairs(bytes[1..]);
    }
  }

  function UpperPairs(bytes: seq<Byte>): string
    decreases |bytes|
  {
    if bytes == [] then "" else UpperPair(bytes[0]) + UpperPairs(bytes[1..])
  }

  lemma {:induction false} LowerUpperPairs(bytes: seq<Byte>)
    ensures Lower(UpperPairs(bytes)) == LowerHex(bytes)
    decreases |bytes|
  {
    if bytes != [] {
      LowerAppend(UpperPair(bytes[0]), UpperPairs(bytes[1..]));
      LowerUpperPairs(bytes[1..]);
    }
  }

  /** Removing the separators and lower-casing gives two lower-case hex digits per byte. */
  lemma RenderHashIsLowerHex(bytes: seq<Byte>)
    ensures RenderHash(bytes) == LowerHex(bytes)
  {
    RemoveDashesKeepsPairs(bytes);
    LowerUpperPairs(bytes);
  }

  lemma {:induction false} LowerHexChars(bytes: seq<Byte>)
    ensures forall i :: 0 <= i < |LowerHex(bytes)| ==> IsLowerHexChar(LowerHex(bytes)[i])
    decreases |bytes|
  {
    if bytes != [] {
      LowerHexChars(bytes[1..]);
    }
  }

  lemma HexValueOfDigit(n: int)
    requires 0 <= n < 16
    ensures HexValue(LowerHexDigit(n)) == n
  {
  }

  lemma ByteFromNibbles(b: Byte)
    ensures ((b as int / 16) * 16 + b as int % 16) as Byte == b
  {
  }

  /** The rendering loses nothing: reading it back gives the digest. */
  lemma {:induction false} UnhexLowerHex(bytes: seq<Byte>)
    ensures Unhex(LowerHex(bytes)) == bytes
    decreases |bytes|
  {
    if bytes != [] {
      var hi := bytes[0] as int / 16;
      var lo := bytes[0] as int % 16;
      var s := LowerHex(bytes);
      assert s == [LowerHexDigit(hi), LowerHexDigit(lo)] + LowerHex(bytes[1..]);
      assert s[2..] == LowerHex(bytes[1..]);
      HexValueOfDigit(hi);
      HexValueOfDigit(lo);
      ByteFromNibbles(bytes[0]);
      UnhexLowerHex(bytes[1..]);
      assert Unhex(s) == [bytes[0]] + bytes[1..];
    }
  }

  /** A SHA-256 digest renders as 64 lower-case hex digits, and distinct digests render differently. */
  lemma DigestRendering(d: Digest, e: Digest)
    ensures |RenderHash(d)| == 64
    ensures forall i :: 0 <= i < |RenderHash(d)| ==> IsLowerHexChar(RenderHash(d)[i])
    ensures RenderHash(d) == RenderHash(e) ==> d == e
  {
    RenderHashIsLowerHex(d);
    RenderHashIsLowerHex(e);
    LowerHexChars(d);
    UnhexLowerHex(d);
    UnhexLowerHex(e);
  }
}

/** `Migration`: a script plus its execution state. Its status setter raises the
    start event on `Picked`, stamps `RanAt` on `Executing`, and raises the completion
    event, carrying a `MigrationLog` snapshot, on every terminal status. */
module Migrations {
  import opened Wrappers
  import opened Enumerations
  import opened Errors
  import opened Models
  import opened Metadata
  import opened FileSystems
  import opened Scripts
  import opened HashRendering

  datatype Migration = Migration(
    script: Script,
    status: MigrationTaskStatus,
    retryCount: int,
    error: Option<string>,
    profile: Option<ExecutionProfile>,
    ranAt: Option<int>,
    /** How many times the profiler's pair of handlers has been attached. */
    subscriptions: nat)

  /** `OnStart` and `OnCompleted`. */
  datatype Event = Started | Finished(log: MigrationLog)

  /** `new Migration(script)`: status `New`, no retries, and the file's digest stored as the hash. */
  function NewMigration(script: Option<Script>, fs: FileSystem): (r: Result<Migration, Error>)
    ensures script.None? <==> r.Failure?
    ensures r.Failure? ==> r.error == ArgumentNull
    ensures r.Success? ==>
              && r.value.status == New && r.value.retryCount == 0 && r.value.ranAt.None?
              && r.value.profile.None? && r.value.error.None? && r.value.subscriptions == 0
              && r.value.script.absolutePath == script.value.absolutePath
              && r.value.script.metadata == script.value.metadata.(hash := r.value.script.metadata.hash)
              && r.value.script.metadata.hash == Some(LowerHex(fs.sha256(script.value.absolutePath)))
  {
    if script.None? then Failure(ArgumentNull)
    else
      var s := script.value;
      var hash := RenderHash(fs.sha256(s.absolutePath));
      RenderHashIsLowerHex(fs.sha256(s.absolutePath));
      Success(Migration(s.(metadata := s.metadata.(hash := Some(hash))), New, 0, Option.None, Option.None, Option.None, 0))
  }

  /** The `MigrationLog` of `InvokeOnCompleted`; a null hash is the empty string. */
  function Snapshot(m: Migration): MigrationLog {
    MigrationLog(
      m.script.metadata.id,
      m.script.metadata.name,
      if m.script.metadata.hash.Some? then m.script.metadata.hash.value else "",
      m.script.absolutePath,
      m.status,
      m.retryCount,
      m.profile,
      m.script.metadata.migrationType,
      m.ranAt)
  }

  /** The `Status` setter; `now` is the clock reading `DateTime.UtcNow` would give. */
  function SetStatus(m: Migration, s: MigrationTaskStatus, now: int): (r: (Migration, seq<Event>))
    ensures r.0.status == s
    ensures r.0 == m.(status := s, ranAt := r.0.ranAt)
    ensures s == m.status ==> r.0 == m && r.1 == []
    ensures r.0.ranAt == (if s != m.status && s == Executing then Some(now) else m.ranAt)
    ensures |r.1| <= 1
    ensures r.1 == [Started] <==> s != m.status && s == Picked
    ensures (exists log :: Finished(log) in r.1) <==> s != m.status && IsTerminal(s)
    ensures forall log :: Finished(log) in r.1 ==> log == Snapshot(r.0)
  {
    if m.status == s then (m, [])
    else
      var m' := m.(status := s, ranAt := if s == Executing then Some(now) else m.ranAt);
      var events := (if s == Picked then [Started] else []) + (if IsTerminal(s) then [Finished(Snapshot(m'))] else []);
      assert IsTerminal(s) ==> Finished(Snapshot(m')) in events;
      (m', events)
  }

  /** Setting the status a second time changes nothing and raises nothing. */
  lemma SetStatusIdempotent(m: Migration, s: MigrationTaskStatus, now: int, later: int)
    ensures SetStatus(SetStatus(m, s, now).0, s, later) == (SetStatus(m, s, now).0, [])
  {
  }

  /** The completion log describes the task as it is after the change. */
  lemma SnapshotDescribesTask(m: Migration, s: MigrationTaskStatus, now: int)
    requires s != m.status && IsTerminal(s)
    ensures var (m', events) := SetStatus(m, s, now);
            && events == [Finished(Snapshot(m'))]
            && events[0].log.status == s
            && events[0].log.retryCount == m.retryCount
            && events[0].log.ranAt == m.ranAt
            && events[0].log.absolutePath == m.script.absolutePath
            && events[0].log.id == m.script.metadata.id
  {
  }

  /** A task marked first as badly formed and then as unsafe raises two completion
      events, one per status, in that order. */
  lemma DoubleSkipRaisesTwoEvents(m: Migration, now: int)
    requires m.status == New
    ensures var (m1, e1) := SetStatus(m, SkippedForWrongSyntax, now);
            var (m2, e2) := SetStatus(m1, SkippedForSafety, now);
            && |e1 + e2| == 2
            && (e1 + e2)[0].Finished? && (e1 + e2)[0].log.status == SkippedForWrongSyntax
            && (e1 + e2)[1].Finished? && (e1 + e2)[1].log.status == SkippedForSafety
            && m2.status == SkippedForSafety
  {
  }
}
