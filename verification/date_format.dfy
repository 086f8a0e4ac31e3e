/** `DateTime.ParseExact(s, "yyyy-MM-dd HH:mm:ss", InvariantCulture)` as the header
    parser uses it, and the matching rendering of a `Timestamp`. */
module DateFormat {
  import opened Wrappers
  import opened Text
  import opened Models

  function DigitValue(c: char): int { c as int - '0' as int }

  function DigitChar(d: int): char
    requires 0 <= d < 10
  {
    (d + '0' as int) as char
  }

  predicate AllDigits(s: string) {
    forall i :: 0 <= i < |s| ==> IsAsciiDigit(s[i])
  }

  /** The number a string of decimal digits spells, most significant first. */
  function DigitsValue(s: string): int
    decreases |s|
  {
    if s == [] then 0 else DigitsValue(s[..|s| - 1]) * 10 + DigitValue(s[|s| - 1])
  }

  predicate IsLeapYear(y: int) {
    (y % 4 == 0 && y % 100 != 0) || y % 400 == 0
  }

  function DaysInMonth(y: int, m: int): int {
    if m == 2 then (if IsLeapYear(y) then 29 else 28)
    else if m == 4 || m == 6 || m == 9 || m == 11 then 30
    else 31
  }

  /** A time stamp `DateTime` can represent. */
  predicate ValidTimestamp(t: Timestamp) {
    && 1 <= t.year <= 9999
    && 1 <= t.month <= 12
    && 1 <= t.day <= DaysInMonth(t.year, t.month)
    && 0 <= t.hour <= 23
    && 0 <= t.minute <= 59
    && 0 <= t.second <= 59
  }

  /** The layout `yyyy-MM-dd HH:mm:ss`: fixed-width digit fields and literal separators. */
  predicate HasLayout(s: string) {
    && |s| == 19
    && AllDigits(s[0..4]) && s[4] == '-'
    && AllDigits(s[5..7]) && s[7] == '-'
    && AllDigits(s[8..10]) && s[10] == ' '
    && AllDigits(s[11..13]) && s[13] == ':'
    && AllDigits(s[14..16]) && s[16] == ':'
    && AllDigits(s[17..19])
  }

  /** `DateTime.ParseExact` with the one format the header uses. */
  function ParseTimestamp(s: string): (r: Option<Timestamp>)
    ensures r.Some? ==> HasLayout(s) && ValidTimestamp(r.value)
  {
    if !HasLayout(s) then None
    else
      var t := Timestamp(
        DigitsValue(s[0..4]), DigitsValue(s[5..7]), DigitsValue(s[8..10]),
        DigitsValue(s[11..13]), DigitsValue(s[14..16]), DigitsValue(s[17..19]));
      if ValidTimestamp(t) then Some(t) else None
  }

  function Pad2(n: int): string
    requires 0 <= n < 100
  {
    [DigitChar(n / 10), DigitChar(n % 10)]
  }

  function Pad4(n: int): string
    requires 0 <= n < 10000
  {
    Pad2(n / 100) + Pad2(n % 100)
  }

  /** `t.ToString("yyyy-MM-dd HH:mm:ss")`. */
  function FormatTimestamp(t: Timestamp): (s: string)
    requires ValidTimestamp(t)
  {
    Pad4(t.year) + "-" + Pad2(t.month) + "-" + Pad2(t.day) + " "
      + Pad2(t.hour) + ":" + Pad2(t.minute) + ":" + Pad2(t.second)
  }

  lemma Pad2Digits(n: int)
    requires 0 <= n < 100
    ensures AllDigits(Pad2(n)) && DigitsValue(Pad2(n)) == n
  {
    var s := Pad2(n);
    assert s[..1][..0] == [];
    assert s[..1] == [DigitChar(n / 10)];
    assert DigitsValue(s[..1]) == n / 10;
    assert DigitsValue(s) == DigitsValue(s[..1]) * 10 + n % 10;
  }

  lemma Pad4Digits(n: int)
    requires 0 <= n < 10000
    ensures AllDigits(Pad4(n)) && DigitsValue(Pad4(n)) == n
  {
    var s := Pad4(n);
    var hi, lo := n / 100, n % 100;
    Pad2Digits(hi);
    assert s[..3] == Pad2(hi) + [DigitChar(lo / 10)];
    assert s[..3][..2] == Pad2(hi);
    assert s[..2] == Pad2(hi);
    assert DigitsValue(s[..3]) == hi * 10 + lo / 10;
    assert DigitsValue(s) == (hi * 10 + lo / 10) * 10 + lo % 10;
  }

  lemma TwoDigitsRoundTrip(s: string)
    requires |s| == 2 && AllDigits(s)
    ensures 0 <= DigitsValue(s) < 100 && Pad2(DigitsValue(s)) == s
  {
    assert s[..1][..0] == [];
    assert DigitsValue(s[..1]) == DigitValue(s[0]);
    var n := DigitsValue(s);
    assert n == DigitValue(s[0]) * 10 + DigitValue(s[1]);
  }

  /** Four digits spell a hundred times their first two plus their last two. */
  lemma FourDigitsValue(s: string)
    requires |s| == 4
    ensures DigitsValue(s) == DigitsValue(s[..2]) * 100 + DigitsValue(s[2..])
  {
    var t := s[..3];
    assert t[..|t| - 1] == s[..2] && t[|t| - 1] == s[2];
    assert s[..|s| - 1] == t;
    var lo := s[2..];
    assert lo[..|lo| - 1] == lo[..1] && lo[|lo| - 1] == s[3];
    assert lo[..1][..0] == [];
    assert lo[..1] == [s[2]];
    assert DigitsValue(lo[..1]) == DigitValue(s[2]);
    assert DigitsValue(t) == DigitsValue(s[..2]) * 10 + DigitValue(s[2]);
    assert DigitsValue(lo) == DigitValue(s[2]) * 10 + DigitValue(s[3]);
  }

  lemma DivMod100(h: int, l: int)
    requires 0 <= l < 100
    ensures (h * 100 + l) / 100 == h && (h * 100 + l) % 100 == l
  {
  }

  lemma FourDigitsRoundTrip(s: string)
    requires |s| == 4 && AllDigits(s)
    ensures 0 <= DigitsValue(s) < 10000 && Pad4(DigitsValue(s)) == s
  {
    var hi := s[..2];
    var lo := s[2..];
    TwoDigitsRoundTrip(hi);
    TwoDigitsRoundTrip(lo);
    FourDigitsValue(s);
    DivMod100(DigitsValue(hi), DigitsValue(lo));
    assert hi + lo == s;
  }

  /** Rendering a valid time stamp and reading it back gives the same time stamp. */
  lemma ParseFormatted(t: Timestamp)
    requires ValidTimestamp(t)
    ensures ParseTimestamp(FormatTimestamp(t)) == Some(t)
  {
    var s := FormatTimestamp(t);
    Pad4Digits(t.year);
    Pad2Digits(t.month);
    Pad2Digits(t.day);
    Pad2Digits(t.hour);
    Pad2Digits(t.minute);
    Pad2Digits(t.second);
    assert s[0..4] == Pad4(t.year);
    assert s[5..7] == Pad2(t.month);
    assert s[8..10] == Pad2(t.day);
    assert s[11..13] == Pad2(t.hour);
    assert s[14..16] == Pad2(t.minute);
    assert s[17..19] == Pad2(t.second);
  }

  /** Only the canonical rendering of a time stamp parses: a parsed text is exactly
      the rendering of what it parsed to. */
  lemma FormattedParse(s: string, t: Timestamp)
    requires ParseTimestamp(s) == Some(t)
    ensures FormatTimestamp(t) == s
  {
    FourDigitsRoundTrip(s[0..4]);
    TwoDigitsRoundTrip(s[5..7]);
    TwoDigitsRoundTrip(s[8..10]);
    TwoDigitsRoundTrip(s[11..13]);
    TwoDigitsRoundTrip(s[14..16]);
    TwoDigitsRoundTrip(s[17..19]);
    assert s == s[0..4] + "-" + s[5..7] + "-" + s[8..10] + " " + s[11..13] + ":" + s[14..16] + ":" + s[17..19];
  }
}
