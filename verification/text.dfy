/** String primitives of the .NET base library as the migration runner uses them:
    `Trim`, `ToLower`, `StartsWith`, `Split`, `string.Join`, `Replace(x, "")` and
    `IsNullOrWhiteSpace`. Character classes are restricted to ASCII. */
module Text {
  import opened Wrappers

  /** White space for `Trim`, `IsNullOrWhiteSpace` and the regular-expression class `\s`. */
  predicate IsWhiteSpace(c: char) {
    c == ' ' || c == '\t' || c == '\n' || c == '\r' || c == '\U{000B}' || c == '\U{000C}'
  }

  /** `string.IsNullOrWhiteSpace` for a non-null string. */
  predicate IsBlank(s: string) {
    forall i :: 0 <= i < |s| ==> IsWhiteSpace(s[i])
  }

  predicate IsAsciiDigit(c: char) { '0' <= c <= '9' }

  predicate IsHexDigit(c: char) { IsAsciiDigit(c) || 'a' <= c <= 'f' || 'A' <= c <= 'F' }

  /** A character of the regular-expression class `\w`. */
  predicate IsWordChar(c: char) {
    IsAsciiDigit(c) || 'a' <= c <= 'z' || 'A' <= c <= 'Z' || c == '_'
  }

  function TrimStart(s: string): (r: string)
    ensures |r| <= |s|
  {
    if |s| > 0 && IsWhiteSpace(s[0]) then TrimStart(s[1..]) else s
  }

  /** `TrimStart` drops a blank prefix and stops at the first other character. */
  lemma {:induction false} TrimStartFacts(s: string)
    ensures var r := TrimStart(s);
            r == s[|s| - |r|..] && IsBlank(s[..|s| - |r|]) && (r == [] || !IsWhiteSpace(r[0]))
  {
    if |s| > 0 && IsWhiteSpace(s[0]) {
      TrimStartFacts(s[1..]);
      var r := TrimStart(s[1..]);
      assert s[1..][..|s| - 1 - |r|] == s[1..|s| - |r|];
    }
  }

  function TrimEnd(s: string): (r: string)
    ensures |r| <= |s|
  {
    if |s| > 0 && IsWhiteSpace(s[|s| - 1]) then TrimEnd(s[..|s| - 1]) else s
  }

  /** `TrimEnd` drops a blank suffix and stops at the last other character. */
  lemma {:induction false} TrimEndFacts(s: string)
    ensures var r := TrimEnd(s);
            r == s[..|r|] && IsBlank(s[|r|..]) && (r == [] || !IsWhiteSpace(r[|r| - 1]))
  {
    if |s| > 0 && IsWhiteSpace(s[|s| - 1]) {
      TrimEndFacts(s[..|s| - 1]);
      var r := TrimEnd(s[..|s| - 1]);
      assert s[..|s| - 1][|r|..] + [s[|s| - 1]] == s[|r|..];
    }
  }

  /** `string.Trim()`: white space removed from both ends. */
  function Trim(s: string): (r: string)
    ensures |r| <= |s|
  {
    TrimEnd(TrimStart(s))
  }

  /** The trimmed text is the slice left between a blank prefix and a blank suffix. */
  lemma TrimIsSlice(s: string)
    ensures exists i {:trigger s[i..]} ::
              (0 <= i <= |s| - |Trim(s)| && Trim(s) == s[i..i + |Trim(s)|] && IsBlank(s[..i]) && IsBlank(s[i + |Trim(s)|..]))
  {
    var a := TrimStart(s);
    var r := TrimEnd(a);
    TrimStartFacts(s);
    TrimEndFacts(a);
    var i := |s| - |a|;
    assert r == s[i..i + |r|];
    assert s[i + |r|..] == a[|r|..];
  }

  function LowerChar(c: char): char {
    if 'A' <= c <= 'Z' then (c as int + 32) as char else c
  }

  /** `ToLower()` over ASCII. */
  function Lower(s: string): (r: string)
    ensures |r| == |s|
    ensures forall i :: 0 <= i < |s| ==> r[i] == LowerChar(s[i])
  {
    if s == [] then [] else [LowerChar(s[0])] + Lower(s[1..])
  }

  predicate EqualsIgnoreCase(a: string, b: string) {
    Lower(a) == Lower(b)
  }

  /** Ordinal `StartsWith`. */
  predicate StartsWith(s: string, prefix: string) {
    |prefix| <= |s| && s[..|prefix|] == prefix
  }

  predicate OccursAt(s: string, sep: string, i: int) {
    0 <= i && i + |sep| <= |s| && s[i..i + |sep|] == sep
  }

  /** The first occurrence of `sep` in `s` at or after position `from`. */
  function FindFrom(s: string, sep: string, from: nat): (r: Option<nat>)
    requires from <= |s|
    ensures r.Some? ==> from <= r.value && OccursAt(s, sep, r.value)
    decreases |s| - from
  {
    if OccursAt(s, sep, from) then Some(from)
    else if from == |s| then None
    else FindFrom(s, sep, from + 1)
  }

  /** The search finds the first occurrence, and finds none only when there is none. */
  lemma {:induction false} FindFromFirst(s: string, sep: string, from: nat)
    requires from <= |s|
    ensures var r := FindFrom(s, sep, from);
            && (r.Some? ==> forall j :: from <= j < r.value ==> !OccursAt(s, sep, j))
            && (r.None? ==> forall j :: from <= j <= |s| ==> !OccursAt(s, sep, j))
    decreases |s| - from
  {
    if !OccursAt(s, sep, from) && from < |s| {
      FindFromFirst(s, sep, from + 1);
    }
  }

  /** `s.Split(sep)`: the pieces between the left-to-right occurrences of `sep`. */
  function SplitOn(s: string, sep: string): (parts: seq<string>)
    requires |sep| > 0
    ensures |parts| >= 1
    ensures |parts[0]| <= |s| && parts[0] == s[..|parts[0]|]
    decreases |s|
  {
    match FindFrom(s, sep, 0)
    case None => [s]
    case Some(k) => [s[..k]] + SplitOn(s[k + |sep|..], sep)
  }

  /** The text splits into one piece exactly when the separator does not occur in
      it; otherwise the first piece ends at the first occurrence. */
  lemma SplitOnFacts(s: string, sep: string)
    requires |sep| > 0
    ensures |SplitOn(s, sep)| == 1 <==> forall j :: 0 <= j <= |s| ==> !OccursAt(s, sep, j)
    ensures |SplitOn(s, sep)| == 1 ==> SplitOn(s, sep)[0] == s
    ensures |SplitOn(s, sep)| > 1 ==>
              (&& OccursAt(s, sep, |SplitOn(s, sep)[0]|)
               && forall j :: 0 <= j < |SplitOn(s, sep)[0]| ==> !OccursAt(s, sep, j))
  {
    FindFromFirst(s, sep, 0);
    match FindFrom(s, sep, 0)
    case None =>
    case Some(k) =>
      SplitOnSome(s, sep, k);
  }

  /** After the first piece and its separator, the rest of the text splits into the remaining pieces. */
  lemma SplitOnRest(s: string, sep: string)
    requires |sep| > 0 && |SplitOn(s, sep)| > 1
    ensures |SplitOn(s, sep)[0]| + |sep| <= |s|
    ensures SplitOn(s, sep)[1..] == SplitOn(s[|SplitOn(s, sep)[0]| + |sep|..], sep)
  {
    var k := FindFrom(s, sep, 0).value;
    SplitOnSome(s, sep, k);
  }

  lemma SplitOnSome(s: string, sep: string, k: nat)
    requires |sep| > 0 && FindFrom(s, sep, 0) == Some(k)
    ensures k + |sep| <= |s|
    ensures SplitOn(s, sep) == [s[..k]] + SplitOn(s[k + |sep|..], sep)
  {
    assert OccursAt(s, sep, k);
    var rest := s[k + |sep|..];
    assert SplitOn(s, sep) == [s[..k]] + SplitOn(rest, sep);
  }

  /** `c` does not occur in `s`. */
  predicate Lacks(s: string, c: char) {
    forall j :: 0 <= j < |s| ==> s[j] != c
  }

  /** Text in which a one-character separator does not occur is a single piece. */
  lemma SplitOnAbsent(s: string, c: char)
    requires Lacks(s, c)
    ensures SplitOn(s, [c]) == [s]
  {
    forall j | 0 <= j <= |s|
      ensures !OccursAt(s, [c], j)
    {
      if j < |s| {
        assert s[j..j + 1] == [s[j]];
      }
    }
    SplitOnFacts(s, [c]);
  }

  /** Two pieces free of a one-character separator, joined by it, split back into those two. */
  lemma SplitOnTwo(a: string, b: string, c: char)
    requires Lacks(a, c) && Lacks(b, c)
    ensures SplitOn(a + [c] + b, [c]) == [a, b]
  {
    var s := a + [c] + b;
    assert s[|a|..|a| + 1] == [c];
    assert OccursAt(s, [c], |a|);
    SplitOnFacts(s, [c]);
    forall j | 0 <= j < |a|
      ensures !OccursAt(s, [c], j)
    {
      assert s[j..j + 1] == [a[j]];
    }
    assert |SplitOn(s, [c])| > 1;
    var k := |SplitOn(s, [c])[0]|;
    assert k == |a|;
    assert SplitOn(s, [c])[0] == a;
    SplitOnRest(s, [c]);
    assert s[k + 1..] == b;
    SplitOnAbsent(b, c);
  }

  /** `string.Join(sep, parts)`. */
  function Join(parts: seq<string>, sep: string): string {
    if |parts| == 0 then ""
    else if |parts| == 1 then parts[0]
    else parts[0] + sep + Join(parts[1..], sep)
  }

  /** Splitting and re-joining on the same separator gives the original text back. */
  lemma {:induction false} SplitJoin(s: string, sep: string)
    requires |sep| > 0
    ensures Join(SplitOn(s, sep), sep) == s
    decreases |s|
  {
    var parts := SplitOn(s, sep);
    if |parts| > 1 {
      SplitOnRest(s, sep);
      var k := |parts[0]|;
      SplitJoin(s[k + |sep|..], sep);
      ThreeSlices(s, k, k + |sep|);
    }
  }

  lemma ThreeSlices(s: string, i: int, j: int)
    requires 0 <= i <= j <= |s|
    ensures s == s[..i] + s[i..j] + s[j..]
  {
  }

  /** `s.Replace(c.ToString(), "")`. */
  function Remove(s: string, c: char): (r: string)
    ensures c !in r
    ensures forall d :: d != c ==> (d in r <==> d in s)
    ensures c !in s ==> r == s
  {
    if s == [] then []
    else if s[0] == c then Remove(s[1..], c)
    else
      assert s == [s[0]] + s[1..];
      [s[0]] + Remove(s[1..], c)
  }

  lemma {:induction false} RemoveAppend(a: string, b: string, c: char)
    ensures Remove(a + b, c) == Remove(a, c) + Remove(b, c)
    decreases |a|
  {
    if a != [] {
      assert (a + b)[0] == a[0];
      assert (a + b)[1..] == a[1..] + b;
      RemoveAppend(a[1..], b, c);
      if a[0] != c {
        assert [a[0]] + Remove(a[1..], c) + Remove(b, c) == [a[0]] + (Remove(a[1..], c) + Remove(b, c));
      }
    } else {
      assert a + b == b;
    }
  }

  lemma {:induction false} TrimStartBlankPrefix(a: string, t: string)
    requires IsBlank(a) && t != [] && !IsWhiteSpace(t[0])
    ensures TrimStart(a + t) == t
    decreases |a|
  {
    if a == [] {
      assert a + t == t;
    } else {
      assert (a + t)[0] == a[0];
      assert (a + t)[1..] == a[1..] + t;
      TrimStartBlankPrefix(a[1..], t);
    }
  }

  lemma {:induction false} TrimEndBlankSuffix(t: string, b: string)
    requires IsBlank(b) && t != [] && !IsWhiteSpace(t[|t| - 1])
    ensures TrimEnd(t + b) == t
    decreases |b|
  {
    if b == [] {
      assert t + b == t;
    } else {
      var s := t + b;
      assert s[|s| - 1] == b[|b| - 1];
      assert s[..|s| - 1] == t + b[..|b| - 1];
      TrimEndBlankSuffix(t, b[..|b| - 1]);
    }
  }

  /** Trimming text that is `m` surrounded by white space gives `m`, when `m`
      neither starts nor ends with white space. */
  lemma TrimSurrounded(a: string, m: string, b: string)
    requires IsBlank(a) && IsBlank(b)
    requires m != [] && !IsWhiteSpace(m[0]) && !IsWhiteSpace(m[|m| - 1])
    ensures Trim(a + m + b) == m
  {
    assert a + m + b == a + (m + b);
    TrimStartBlankPrefix(a, m + b);
    TrimEndBlankSuffix(m, b);
  }
}
