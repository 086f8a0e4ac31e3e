/** `int.TryParse` with the default integer style: optional surrounding white space,
    an optional sign, decimal digits, and a value that fits in 32 bits. */
module Numerals {
  import opened Wrappers
  import opened Text

  const Int32Min := -0x8000_0000
  const Int32Max := 0x7FFF_FFFF

  predicate AllDigits(s: string) {
    forall i :: 0 <= i < |s| ==> IsAsciiDigit(s[i])
  }

  function DigitValue(c: char): int { c as int - '0' as int }

  function DigitChar(d: int): char
    requires 0 <= d < 10
  {
    (d + '0' as int) as char
  }

  /** The number a string of decimal digits denotes. */
  function DigitsValue(s: string): (n: nat)
    requires AllDigits(s)
    decreases |s|
  {
    if s == [] then 0 else DigitsValue(s[..|s| - 1]) * 10 + DigitValue(s[|s| - 1])
  }

  /** The shortest decimal digits of `n`. */
  function NatDigits(n: nat): (s: string)
    ensures s != [] && AllDigits(s)
    decreases n
  {
    if n < 10 then [DigitChar(n)] else NatDigits(n / 10) + [DigitChar(n % 10)]
  }

  /** `n.ToString()`. */
  function DecimalString(n: int): string {
    if n < 0 then "-" + NatDigits(-n) else NatDigits(n)
  }

  function TryParseInt(s: string): (r: Option<int>)
    ensures r.Some? ==> Int32Min <= r.value <= Int32Max
  {
    ParseTrimmedInt(Trim(s))
  }

  /** The number in text that has no surrounding white space. */
  function ParseTrimmedInt(t: string): (r: Option<int>)
    ensures r.Some? ==> Int32Min <= r.value <= Int32Max
  {
    var negative := |t| > 0 && t[0] == '-';
    var digits := if |t| > 0 && (t[0] == '-' || t[0] == '+') then t[1..] else t;
    if digits == [] || !AllDigits(digits) then None
    else
      var v: int := DigitsValue(digits);
      var n := if negative then -v else v;
      if Int32Min <= n <= Int32Max then Some(n) else None
  }

  lemma {:induction false} DigitsOfNat(n: nat)
    ensures DigitsValue(NatDigits(n)) == n
    decreases n
  {
    if n >= 10 {
      var s := NatDigits(n);
      assert s[..|s| - 1] == NatDigits(n / 10);
      DigitsOfNat(n / 10);
    }
  }

  /** A string with no white space at either end is its own trim. */
  lemma TrimUnpadded(s: string)
    requires s != [] && !IsWhiteSpace(s[0]) && !IsWhiteSpace(s[|s| - 1])
    ensures Trim(s) == s
  {
    assert "" + s + "" == s;
    TrimSurrounded("", s, "");
  }

  lemma ParseDecimal(n: int)
    requires Int32Min <= n <= Int32Max
    ensures ParseTrimmedInt(DecimalString(n)) == Some(n)
  {
    var m: nat := if n < 0 then -n else n;
    DigitsOfNat(m);
    var d := NatDigits(m);
    if n < 0 {
      assert DecimalString(n)[1..] == d;
    }
  }

  /** Every 32-bit number is read back from its decimal rendering. */
  lemma TryParseDecimal(n: int)
    requires Int32Min <= n <= Int32Max
    ensures TryParseInt(DecimalString(n)) == Some(n)
  {
    var s := DecimalString(n);
    assert !IsWhiteSpace(s[0]) && !IsWhiteSpace(s[|s| - 1]);
    TrimUnpadded(s);
    ParseDecimal(n);
  }

  /** The number a sign and its digits denote. */
  function SignedValue(sign: string, digits: string): int
    requires AllDigits(digits)
  {
    var v: int := DigitsValue(digits);
    if sign == "-" then -v else v
  }

  /** `s` is blank padding `a` and `b` around an optional sign and at least one
      decimal digit that denote the 32-bit number `n`. */
  predicate Numeral(s: string, a: string, sign: string, digits: string, b: string, n: int) {
    && s == a + sign + digits + b
    && IsBlank(a) && IsBlank(b)
    && (sign == "" || sign == "+" || sign == "-")
    && digits != [] && AllDigits(digits)
    && SignedValue(sign, digits) == n
    && Int32Min <= n <= Int32Max
  }

  /** The padding `Trim` removes. */
  lemma Padding(s: string) returns (a: string, b: string)
    ensures s == a + Trim(s) + b && IsBlank(a) && IsBlank(b)
  {
    var t := Trim(s);
    TrimIsSlice(s);
    var i :| 0 <= i <= |s| - |t| && t == s[i..i + |t|] && IsBlank(s[..i]) && IsBlank(s[i + |t|..]);
    a, b := s[..i], s[i + |t|..];
    assert s == a + t + b;
  }

  /** What `ParseTrimmedInt` accepts is a sign and digits. */
  lemma TrimmedNumeral(t: string) returns (sign: string, digits: string)
    requires ParseTrimmedInt(t).Some?
    ensures t == sign + digits
    ensures (sign == "" || sign == "+" || sign == "-") && digits != [] && AllDigits(digits)
    ensures SignedValue(sign, digits) == ParseTrimmedInt(t).value
  {
    sign := if t[0] == '-' || t[0] == '+' then t[..1] else "";
    digits := t[|sign|..];
  }

  /** Whatever `int.TryParse` accepts is a padded numeral of the number it returns. */
  lemma TryParseIntSound(s: string)
    requires TryParseInt(s).Some?
    ensures exists a, sign, digits, b :: Numeral(s, a, sign, digits, b, TryParseInt(s).value)
  {
    var a, b := Padding(s);
    var sign, digits := TrimmedNumeral(Trim(s));
    var n := TryParseInt(s).value;
    assert n == ParseTrimmedInt(Trim(s)).value == SignedValue(sign, digits);
    assert a + (sign + digits) + b == a + sign + digits + b;
    assert Numeral(s, a, sign, digits, b, n);
  }

  /** Every padded numeral of a 32-bit number is accepted as that number. */
  lemma TryParseIntComplete(s: string, a: string, sign: string, digits: string, b: string, n: int)
    requires Numeral(s, a, sign, digits, b, n)
    ensures TryParseInt(s) == Some(n)
  {
    var m := sign + digits;
    assert !IsWhiteSpace(m[0]) && !IsWhiteSpace(m[|m| - 1]);
    assert s == a + m + b;
    TrimSurrounded(a, m, b);
    if sign == "" {
      assert m == digits;
    } else {
      assert m[1..] == digits;
    }
  }

  /** `int.TryParse` accepts exactly the padded numerals, each as the number it denotes. */
  lemma TryParseIntExact(s: string, n: int)
    ensures TryParseInt(s) == Some(n) <==> exists a, sign, digits, b :: Numeral(s, a, sign, digits, b, n)
  {
    if TryParseInt(s) == Some(n) {
      TryParseIntSound(s);
    }
    if exists a, sign, digits, b :: Numeral(s, a, sign, digits, b, n) {
      var a, sign, digits, b :| Numeral(s, a, sign, digits, b, n);
      TryParseIntComplete(s, a, sign, digits, b, n);
    }
  }

  /** Surrounding white space is ignored. */
  lemma TryParseIgnoresPadding(a: string, s: string, b: string)
    requires IsBlank(a) && IsBlank(b) && s != []
    requires !IsWhiteSpace(s[0]) && !IsWhiteSpace(s[|s| - 1])
    ensures TryParseInt(a + s + b) == TryParseInt(s)
  {
    TrimSurrounded(a, s, b);
    TrimUnpadded(s);
  }
}

/** The command-line parsers of `MigrationEngine.Configure` and `TaskRunner.Configure`.
    Both walk the arguments left to right, match each flag after lower-casing and
    trimming it, let a flag that takes a value consume the next argument, and stop
    at the first error; they differ only in their flag tables and in what a flag sets. */
module CommandLine {
  import opened Wrappers
  import opened Text
  import opened Enumerations
  import opened Errors
  import opened Configurations
  import opened Numerals

  /** What a recognised flag sets. */
  datatype Setting = MaxRetry | Timeout | Kind | Mode | IncrementalRun | FullRun | Targets

  /** A parsed flag value; switches carry none. */
  datatype Value = Count(n: int) | KindValue(t: MigrationType) | ModeValue(m: TaskRunnerMode) | Categories(c: set<Category>) | Switch

  predicate TakesValue(s: Setting) { !(s == IncrementalRun || s == FullRun) }

  /** The `switch` key: `flag.ToLower().Trim()`. */
  function FlagKey(flag: string): string { Trim(Lower(flag)) }

  /** The flags of `MigrationEngine.Configure`. */
  function EngineSetting(key: string): Option<Setting> {
    if key == "--r" || key == "--maxretry" then Some(MaxRetry)
    else if key == "--t" || key == "--timeout" then Some(Timeout)
    else if key == "--type" then Some(Kind)
    else if key == "--incremental" then Some(IncrementalRun)
    else if key == "--full" then Some(FullRun)
    else if key == "--tgt" || key == "--targets" then Some(Targets)
    else Option.None
  }

  lemma EngineSwitchKeys(k: string)
    ensures k == "--full" ==> EngineSetting(k) == Some(FullRun)
    ensures k == "--incremental" ==> EngineSetting(k) == Some(IncrementalRun)
  {
  }

  function EngineLookup(flag: string): Option<Setting> { EngineSetting(FlagKey(flag)) }

  /** The flags of `TaskRunner.Configure`. */
  function RunnerSetting(key: string): Option<Setting> {
    if key == "--maxretry" then Some(MaxRetry)
    else if key == "--timeout" then Some(Timeout)
    else if key == "--migration" then Some(Kind)
    else if key == "--mode" then Some(Mode)
    else if key == "--incremental" then Some(IncrementalRun)
    else if key == "--targets" then Some(Targets)
    else Option.None
  }

  function RunnerLookup(flag: string): Option<Setting> { RunnerSetting(FlagKey(flag)) }

  /** Whether `text` is `lowerName` in any case. */
  predicate Names(text: string, lowerName: string) { Lower(text) == lowerName }

  /** A lower-case word, such as a member name. */
  predicate Word(lowerName: string) {
    lowerName != [] && forall j :: 0 <= j < |lowerName| ==> 'a' <= lowerName[j] <= 'z'
  }

  /** A word that starts with a letter, in any case, is not a number. */
  lemma NameIsNoNumber(t: string, lowerName: string)
    requires lowerName != [] && 'a' <= lowerName[0] <= 'z'
    ensures Names(t, lowerName) ==> ParseTrimmedInt(t).None?
  {
    if Names(t, lowerName) {
      assert LowerChar(t[0]) == lowerName[0];
      assert !IsAsciiDigit(t[0]);
    }
  }

  /** A word in any case, padded with white space, is no number and holds no comma. */
  lemma PaddedName(text: string, lowerName: string)
    requires Word(lowerName) && Names(Trim(text), lowerName)
    ensures TryParseInt(text).None?
    ensures Lacks(text, ',')
  {
    NameIsNoNumber(Trim(text), lowerName);
    var a, b := Padding(text);
    var t := Trim(text);
    assert forall j :: 0 <= j < |t| ==> LowerChar(t[j]) == lowerName[j];
    assert Lacks(t, ',');
    assert Lacks(a, ',') && Lacks(b, ',');
    assert text == a + t + b;
  }

  /** A number is padding around a sign and digits, so it holds no comma and is a list of one piece. */
  lemma NumberIsOnePiece(text: string)
    requires TryParseInt(text).Some?
    ensures SplitOn(text, ",") == [text]
  {
    var a, b := Padding(text);
    var t := Trim(text);
    var sign, digits := TrimmedNumeral(t);
    assert Lacks(sign, ',') && Lacks(digits, ',');
    assert Lacks(t, ',') by {
      assert t == sign + digits;
    }
    assert Lacks(a, ',') && Lacks(b, ',');
    assert text == a + t + b;
    SplitOnAbsent(text, ',');
  }

  /** A number names no member of either enumeration, so its list of names is rejected. */
  lemma NumberNamesNothing(text: string)
    requires TryParseInt(text).Some?
    ensures NameUnion(SplitOn(text, ","), MigrationTypeNamed).None?
    ensures NameUnion(SplitOn(text, ","), RunnerModeNamed).None?
  {
    NumberIsOnePiece(text);
    NameUnionOne(text, MigrationTypeNamed);
    NameUnionOne(text, RunnerModeNamed);
    NameIsNoNumber(Trim(text), "none");
    NameIsNoNumber(Trim(text), "up");
    NameIsNoNumber(Trim(text), "down");
    NameIsNoNumber(Trim(text), "both");
    NameIsNoNumber(Trim(text), "strict");
    NameIsNoNumber(Trim(text), "relaxed");
  }

  /** Two names free of commas, joined by one, are no number and split back into the two. */
  lemma ListOfTwo(sa: string, sb: string)
    requires Lacks(sa, ',') && Lacks(sb, ',')
    ensures TryParseInt(sa + "," + sb).None?
    ensures SplitOn(sa + "," + sb, ",") == [sa, sb]
  {
    SplitOnTwo(sa, sb, ',');
    if TryParseInt(sa + "," + sb).Some? {
      NumberIsOnePiece(sa + "," + sb);
      assert false;
    }
  }

  /** `Enum.TryParse`'s reading of a comma-separated list of names: accepted when
      every name is, as the union of what the names stand for. A name stands for
      the set bits of its member's value, so the union is the bitwise OR the parse
      computes. */
  function NameUnion<T>(names: seq<string>, named: string -> Option<set<T>>): (r: Option<set<T>>)
    ensures r.Some? <==> forall i :: 0 <= i < |names| ==> named(names[i]).Some?
    ensures r.Some? ==> forall i :: 0 <= i < |names| ==> named(names[i]).value <= r.value
    ensures r.Some? ==> forall x :: x in r.value ==> exists i :: 0 <= i < |names| && x in named(names[i]).value
    decreases |names|
  {
    if names == [] then Some({})
    else
      match (named(names[0]), NameUnion(names[1..], named))
      case (Some(a), Some(b)) => Some(a + b)
      case _ => Option.None
  }

  /** A list of one name stands for what that name does. */
  lemma NameUnionOne<T>(name: string, named: string -> Option<set<T>>)
    ensures NameUnion([name], named) == named(name)
  {
    assert [name][1..] == [];
    assert NameUnion([], named) == Some({});
    if named(name).Some? {
      assert named(name).value + {} == named(name).value;
    }
  }

  /** A list of two names stands for the union of what each does. */
  lemma NameUnionTwo<T>(a: string, b: string, named: string -> Option<set<T>>)
    requires named(a).Some? && named(b).Some?
    ensures NameUnion([a, b], named) == Some(named(a).value + named(b).value)
  {
    assert [a, b][1..] == [b];
    NameUnionOne(b, named);
  }

  /** The set bits of a declared value below 4: 1 for the low bit, 2 for the next. */
  function ValueBits(v: int): set<int> {
    (if v % 2 == 1 then {1} else {}) + (if v / 2 % 2 == 1 then {2} else {})
  }

  function MigrationTypeName(t: MigrationType): string {
    match t
    case None => "none"
    case Up => "up"
    case Down => "down"
    case Both => "both"
  }

  /** What a name in a list of migration types stands for: the bits of the named member's value. */
  function MigrationTypeNamed(name: string): (r: Option<set<int>>)
    ensures r.Some? ==> r.value <= {1, 2}
  {
    var s := Trim(name);
    if Names(s, MigrationTypeName(MigrationType.None)) then Some(ValueBits(0))
    else if Names(s, MigrationTypeName(Up)) then Some(ValueBits(1))
    else if Names(s, MigrationTypeName(Down)) then Some(ValueBits(2))
    else if Names(s, MigrationTypeName(Both)) then Some(ValueBits(3))
    else Option.None
  }

  /** A member's name, in any case and padded, stands for the bits of that member's value. */
  lemma MigrationTypeNamedReads(t: MigrationType, name: string)
    requires Names(Trim(name), MigrationTypeName(t))
    ensures MigrationTypeNamed(name) == Some(ValueBits(MigrationTypeValue(t)))
  {
    var l := Lower(Trim(name));
    match t
    case None =>
    case Up => assert l != "none";
    case Down => assert l != "none" && l != "up";
    case Both => assert l != "none" && l != "up" && l[0] != 'd';
  }

  /** The migration type whose value sets exactly `bits`; `Enum.IsDefined` holds of every such OR. */
  function MigrationTypeOfBits(bits: set<int>): (t: MigrationType)
    requires bits <= {1, 2}
    ensures ValueBits(MigrationTypeValue(t)) == bits
    ensures forall u :: ValueBits(MigrationTypeValue(u)) == bits ==> u == t
  {
    assert ValueBits(0) == {} && ValueBits(1) == {1} && ValueBits(2) == {2} && ValueBits(3) == {1, 2};
    if 1 in bits && 2 in bits then Both
    else if 1 in bits then Up
    else if 2 in bits then Down
    else MigrationType.None
  }

  /** `Enum.TryParse(text, ignoreCase: true)` followed by `Enum.IsDefined`: the number
      of a declared member, or a comma-separated list of member names in any case,
      read as the OR of their values. */
  function ParseMigrationType(text: string): (r: Option<MigrationType>)
    ensures forall t :: r == Some(t) <==>
              || TryParseInt(text) == Some(MigrationTypeValue(t))
              || NameUnion(SplitOn(text, ","), MigrationTypeNamed) == Some(ValueBits(MigrationTypeValue(t)))
  {
    if TryParseInt(text).Some? then
      NumberNamesNothing(text);
      var n := TryParseInt(text).value;
      if n == 0 then Some(MigrationType.None)
      else if n == 1 then Some(Up)
      else if n == 2 then Some(Down)
      else if n == 3 then Some(Both)
      else Option.None
    else
      match NameUnion(SplitOn(text, ","), MigrationTypeNamed)
      case Some(bits) => Some(MigrationTypeOfBits(bits))
      case None => Option.None
  }

  function RunnerModeName(m: TaskRunnerMode): string {
    match m
    case Strict => "strict"
    case Relaxed => "relaxed"
  }

  /** What a name in a list of runner modes stands for: the bits of the named mode's value. */
  function RunnerModeNamed(name: string): (r: Option<set<int>>)
    ensures r.Some? ==> r.value <= {1}
  {
    var s := Trim(name);
    if Names(s, RunnerModeName(TaskRunnerMode.Strict)) then Some(ValueBits(0))
    else if Names(s, RunnerModeName(TaskRunnerMode.Relaxed)) then Some(ValueBits(1))
    else Option.None
  }

  /** A mode's name, in any case and padded, stands for the bits of that mode's value. */
  lemma RunnerModeNamedReads(m: TaskRunnerMode, name: string)
    requires Names(Trim(name), RunnerModeName(m))
    ensures RunnerModeNamed(name) == Some(ValueBits(RunnerModeValue(m)))
  {
    if m == TaskRunnerMode.Relaxed {
      assert Lower(Trim(name)) != "strict";
    }
  }

  /** The runner mode whose value sets exactly `bits`. */
  function RunnerModeOfBits(bits: set<int>): (m: TaskRunnerMode)
    requires bits <= {1}
    ensures ValueBits(RunnerModeValue(m)) == bits
    ensures forall u :: ValueBits(RunnerModeValue(u)) == bits ==> u == m
  {
    assert ValueBits(0) == {} && ValueBits(1) == {1};
    if 1 in bits then TaskRunnerMode.Relaxed else TaskRunnerMode.Strict
  }

  /** The same parse for `TaskRunnerMode`. */
  function ParseRunnerMode(text: string): (r: Option<TaskRunnerMode>)
    ensures forall m :: r == Some(m) <==>
              || TryParseInt(text) == Some(RunnerModeValue(m))
              || NameUnion(SplitOn(text, ","), RunnerModeNamed) == Some(ValueBits(RunnerModeValue(m)))
  {
    if TryParseInt(text).Some? then
      NumberNamesNothing(text);
      var n := TryParseInt(text).value;
      if n == 0 then Some(TaskRunnerMode.Strict)
      else if n == 1 then Some(TaskRunnerMode.Relaxed)
      else Option.None
    else
      match NameUnion(SplitOn(text, ","), RunnerModeNamed)
      case Some(bits) => Some(RunnerModeOfBits(bits))
      case None => Option.None
  }

  function TargetName(name: string): Option<set<Category>> {
    var t := Trim(name);
    if Names(t, "none") then Some({})
    else if Names(t, "proc") then Some({Procs})
    else if Names(t, "schema") then Some({Schemas})
    else if Names(t, "alter") then Some({Alters})
    else if Names(t, "index") then Some({Indexes})
    else if Names(t, "all") then Some(AllTargets)
    else Option.None
  }

  predicate AllTargetNames(names: seq<string>) {
    forall i :: 0 <= i < |names| ==> TargetName(names[i]).Some?
  }

  /** A list of target names is accepted when every name is, as the union of their categories. */
  function TargetNames(names: seq<string>): (r: Option<set<Category>>)
    ensures r.Some? <==> AllTargetNames(names)
    ensures r.Some? ==> forall i :: 0 <= i < |names| ==> TargetName(names[i]).value <= r.value
    ensures r.Some? ==> forall c :: c in r.value ==> exists i :: 0 <= i < |names| && c in TargetName(names[i]).value
  {
    NameUnion(names, TargetName)
  }

  function Bit(c: Category): int {
    match c
    case Procs => 1
    case Schemas => 2
    case Alters => 4
    case Indexes => 8
  }

  /** The categories whose bit is set in the low four bits of `n`'s two's complement. */
  function CategoriesOf(n: int): set<Category> {
    set c | c in AllTargets && (n % 16) / Bit(c) % 2 == 1
  }

  /** `Enum.TryParse<ExecutionTarget>(text, ignoreCase: true)`: a number, or a
      comma-separated list of flag names; there is no `IsDefined` check. */
  function ParseTargets(text: string): (r: Option<set<Category>>)
    ensures r.Some? <==> TryParseInt(text).Some? || AllTargetNames(SplitOn(text, ","))
  {
    if TryParseInt(text).Some? then Some(CategoriesOf(TryParseInt(text).value))
    else TargetNames(SplitOn(text, ","))
  }

  /** The value a value-taking flag accepts; range errors and parse errors alike reject it. */
  function ParseValue(s: Setting, text: string): (r: Option<Value>)
    ensures r.Some? && (s == MaxRetry || s == Timeout) ==> r.value.Count? && TryParseInt(text) == Some(r.value.n)
    ensures r.Some? && s == MaxRetry ==> 1 <= r.value.n <= 5
    ensures r.Some? && s == Timeout ==> 1 <= r.value.n <= 10000
  {
    match s
    case MaxRetry =>
      var n := TryParseInt(text);
      if n.Some? && 0 < n.value <= 5 then Some(Count(n.value)) else Option.None
    case Timeout =>
      var n := TryParseInt(text);
      if n.Some? && 0 < n.value <= 10000 then Some(Count(n.value)) else Option.None
    case Kind => (match ParseMigrationType(text) case Some(t) => Some(KindValue(t)) case None => Option.None)
    case Mode => (match ParseRunnerMode(text) case Some(m) => Some(ModeValue(m)) case None => Option.None)
    case Targets => (match ParseTargets(text) case Some(c) => Some(Categories(c)) case None => Option.None)
    case _ => Some(Switch)
  }

  /** An error of the flag walk: an unknown flag, a flag missing its value at the
      end of the arguments, or a value its flag rejects, each as written. */
  predicate FlagError(args: seq<string>, e: Error) {
    || (e.UnsupportedFlag? && e.flag in args)
    || (e.MissingFlagValue? && args != [] && e.flag == args[|args| - 1])
    || (e.InvalidFlagValue? && e.flag in args && e.value in args)
  }

  /** The left-to-right walk shared by both parsers: `lookup` recognises a flag as
      written, `parse` reads a flag's value. */
  function Configure<C>(
    args: seq<string>,
    c: C,
    lookup: string -> Option<Setting>,
    parse: (Setting, string) -> Option<Value>,
    apply: (C, Setting, Value) -> C): (r: Result<C, Error>)
    ensures r.Failure? ==> FlagError(args, r.error)
    decreases |args|
  {
    if args == [] then Success(c)
    else
      var flag := args[0];
      match lookup(flag)
      case None => Failure(UnsupportedFlag(flag))
      case Some(s) =>
        if !TakesValue(s) then Configure(args[1..], apply(c, s, Switch), lookup, parse, apply)
        else if |args| == 1 then Failure(MissingFlagValue(flag))
        else
          match parse(s, args[1])
          case None => Failure(InvalidFlagValue(flag, args[1]))
          case Some(v) => Configure(args[2..], apply(c, s, v), lookup, parse, apply)
  }

  /** A property of configurations that every switch and every accepted value keeps
      holds of whatever the walk produces. */
  lemma {:induction false} ConfigureKeeps<C>(
    args: seq<string>,
    c: C,
    lookup: string -> Option<Setting>,
    apply: (C, Setting, Value) -> C,
    inv: C -> bool)
    requires forall d, s :: inv(d) && !TakesValue(s) ==> inv(apply(d, s, Switch))
    requires forall d, s, text :: inv(d) && ParseValue(s, text).Some? ==> inv(apply(d, s, ParseValue(s, text).value))
    ensures inv(c) && Configure(args, c, lookup, ParseValue, apply).Success? ==> inv(Configure(args, c, lookup, ParseValue, apply).value)
    decreases |args|
  {
    if inv(c) && args != [] && lookup(args[0]).Some? {
      var s := lookup(args[0]).value;
      if !TakesValue(s) {
        ConfigureKeeps(args[1..], apply(c, s, Switch), lookup, apply, inv);
      } else if |args| > 1 && ParseValue(s, args[1]).Some? {
        ConfigureKeeps(args[2..], apply(c, s, ParseValue(s, args[1]).value), lookup, apply, inv);
      }
    }
  }

  function ApplyToEngine(c: EngineConfig, s: Setting, v: Value): EngineConfig {
    match (s, v)
    case (MaxRetry, Count(n)) => c.(maxRetryCount := n)
    case (Timeout, Count(n)) => c.(taskTimeout := n)
    case (Kind, KindValue(t)) => c.(migrationType := t)
    case (IncrementalRun, _) => c.(runMode := Incremental)
    case (FullRun, _) => c.(runMode := Full)
    case (Targets, Categories(ts)) => c.(target := ts)
    case _ => c
  }

  function ApplyToRunner(c: RunnerConfig, s: Setting, v: Value): RunnerConfig {
    match (s, v)
    case (MaxRetry, Count(n)) => c.(maxRetryCount := n)
    case (Timeout, Count(n)) => c.(taskTimeout := n)
    case (Kind, KindValue(t)) => c.(migration := t)
    case (Mode, ModeValue(m)) => c.(mode := m)
    case (IncrementalRun, _) => c.(executeIncrementally := true)
    case (Targets, Categories(ts)) => c.(target := ts)
    case _ => c
  }

  /** The retry count and timeout the value-taking flags accept. */
  predicate WithinLimits(maxRetryCount: int, taskTimeout: int) {
    1 <= maxRetryCount <= 5 && 1 <= taskTimeout <= 10000
  }

  /** `MigrationEngine.Configure`: a retry count and timeout within the accepted
      limits stay within them. */
  function ConfigureEngine(args: seq<string>, c: EngineConfig): (r: Result<EngineConfig, Error>)
    ensures r.Failure? ==> FlagError(args, r.error)
    ensures r.Success? && WithinLimits(c.maxRetryCount, c.taskTimeout) ==>
              WithinLimits(r.value.maxRetryCount, r.value.taskTimeout)
  {
    ConfigureKeeps(args, c, EngineLookup, ApplyToEngine, (e: EngineConfig) => WithinLimits(e.maxRetryCount, e.taskTimeout));
    Configure(args, c, EngineLookup, ParseValue, ApplyToEngine)
  }

  /** `TaskRunner.Configure`, with the same limits kept. */
  function ConfigureRunner(args: seq<string>, c: RunnerConfig): (r: Result<RunnerConfig, Error>)
    ensures r.Failure? ==> FlagError(args, r.error)
    ensures r.Success? && WithinLimits(c.maxRetryCount, c.taskTimeout) ==>
              WithinLimits(r.value.maxRetryCount, r.value.taskTimeout)
  {
    ConfigureKeeps(args, c, RunnerLookup, ApplyToRunner, (e: RunnerConfig) => WithinLimits(e.maxRetryCount, e.taskTimeout));
    Configure(args, c, RunnerLookup, ParseValue, ApplyToRunner)
  }

  /** Parsing two argument lists one after the other is parsing their concatenation,
      as long as the first one parses: no flag's value straddles the boundary. */
  lemma {:induction false} ConfigureAppend<C>(a: seq<string>, b: seq<string>, c: C, lookup: string -> Option<Setting>, parse: (Setting, string) -> Option<Value>, apply: (C, Setting, Value) -> C)
    requires Configure(a, c, lookup, parse, apply).Success?
    ensures Configure(a + b, c, lookup, parse, apply) == Configure(b, Configure(a, c, lookup, parse, apply).value, lookup, parse, apply)
    decreases |a|
  {
    if a == [] {
      assert a + b == b;
    } else {
      var s := lookup(a[0]).value;
      assert (a + b)[0] == a[0];
      if !TakesValue(s) {
        assert (a + b)[1..] == a[1..] + b;
        ConfigureAppend(a[1..], b, apply(c, s, Switch), lookup, parse, apply);
      } else {
        assert (a + b)[1] == a[1];
        assert (a + b)[2..] == a[2..] + b;
        ConfigureAppend(a[2..], b, apply(c, s, parse(s, a[1]).value), lookup, parse, apply);
      }
    }
  }

  /** One flag and its value, appended to arguments that parse: an accepted value
      overrides whatever earlier occurrences set, a rejected one is reported with the
      flag as written, and a missing one is reported as missing. */
  lemma LastFlagDecides<C>(a: seq<string>, flag: string, value: string, c: C, lookup: string -> Option<Setting>, parse: (Setting, string) -> Option<Value>, apply: (C, Setting, Value) -> C)
    requires Configure(a, c, lookup, parse, apply).Success?
    requires lookup(flag).Some? && TakesValue(lookup(flag).value)
    ensures var s := lookup(flag).value;
            var before := Configure(a, c, lookup, parse, apply).value;
            Configure(a + [flag, value], c, lookup, parse, apply) ==
              if parse(s, value).Some? then Success(apply(before, s, parse(s, value).value))
              else Failure(InvalidFlagValue(flag, value))
    ensures Configure(a + [flag], c, lookup, parse, apply) == Failure(MissingFlagValue(flag))
  {
    ConfigureAppend(a, [flag, value], c, lookup, parse, apply);
    ConfigureAppend(a, [flag], c, lookup, parse, apply);
    assert [flag, value][2..] == [];
  }

  /** An unrecognised flag stops the parse, whatever precedes it. */
  lemma UnknownFlagRejected<C>(a: seq<string>, flag: string, rest: seq<string>, c: C, lookup: string -> Option<Setting>, parse: (Setting, string) -> Option<Value>, apply: (C, Setting, Value) -> C)
    requires Configure(a, c, lookup, parse, apply).Success?
    requires lookup(flag).None?
    ensures Configure(a + [flag] + rest, c, lookup, parse, apply) == Failure(UnsupportedFlag(flag))
  {
    assert a + [flag] + rest == a + ([flag] + rest);
    ConfigureAppend(a, [flag] + rest, c, lookup, parse, apply);
  }

  /** The engine's retry and timeout flags, long or short, in any case, keep the last
      accepted value and reject values outside 1..5 and 1..10000. */
  lemma EngineLimits(a: seq<string>, flag: string, value: string, c: EngineConfig)
    requires ConfigureEngine(a, c).Success?
    requires FlagKey(flag) in {"--r", "--maxretry", "--t", "--timeout"}
    ensures var before := ConfigureEngine(a, c).value;
            var n := TryParseInt(value);
            var retry := FlagKey(flag) in {"--r", "--maxretry"};
            var ok := n.Some? && 1 <= n.value && (if retry then n.value <= 5 else n.value <= 10000);
            ConfigureEngine(a + [flag, value], c) ==
              if !ok then Failure(InvalidFlagValue(flag, value))
              else if retry then Success(before.(maxRetryCount := n.value))
              else Success(before.(taskTimeout := n.value))
  {
    LastFlagDecides(a, flag, value, c, EngineLookup, ParseValue, ApplyToEngine);
  }

  /** `--incremental` and `--full` set the run mode; the later one wins. */
  lemma EngineRunModeSwitches(a: seq<string>, flag: string, c: EngineConfig)
    requires ConfigureEngine(a, c).Success?
    requires FlagKey(flag) == "--incremental" || FlagKey(flag) == "--full"
    ensures ConfigureEngine(a + [flag], c) ==
              Success(ConfigureEngine(a, c).value.(runMode := if FlagKey(flag) == "--full" then Full else Incremental))
  {
    var before := ConfigureEngine(a, c).value;
    ConfigureAppend(a, [flag], c, EngineLookup, ParseValue, ApplyToEngine);
    assert ConfigureEngine(a + [flag], c) == Configure([flag], before, EngineLookup, ParseValue, ApplyToEngine);
    var s := if FlagKey(flag) == "--full" then FullRun else IncrementalRun;
    EngineSwitchKeys(FlagKey(flag));
    assert EngineLookup(flag) == Some(s);
    assert [flag][1..] == [];
    assert Configure([flag], before, EngineLookup, ParseValue, ApplyToEngine) == Success(ApplyToEngine(before, s, Switch));
  }

  lemma RunnerKeys(k: string)
    ensures k in {"--full", "--r", "--t", "--tgt", "--type"} ==> RunnerSetting(k).None?
    ensures k == "--incremental" ==> RunnerSetting(k) == Some(IncrementalRun)
    ensures k == "--mode" ==> RunnerSetting(k) == Some(Mode)
  {
  }

  /** The legacy parser knows no `--full` and no short aliases, and its
      `--incremental` sets `ExecuteIncrementally`. */
  lemma RunnerFlags(flag: string, c: RunnerConfig)
    ensures FlagKey(flag) in {"--full", "--r", "--t", "--tgt", "--type"} ==>
              ConfigureRunner([flag], c) == Failure(UnsupportedFlag(flag))
    ensures FlagKey(flag) == "--incremental" ==>
              ConfigureRunner([flag], c) == Success(c.(executeIncrementally := true))
  {
    RunnerKeys(FlagKey(flag));
    assert [flag][1..] == [];
    if FlagKey(flag) == "--incremental" {
      var c' := ApplyToRunner(c, IncrementalRun, Switch);
      assert Configure([], c', RunnerLookup, ParseValue, ApplyToRunner) == Success(c');
    }
  }

  /** The legacy `--mode` flag accepts either mode's name in any case. */
  lemma RunnerModeFlag(a: seq<string>, flag: string, text: string, m: TaskRunnerMode, c: RunnerConfig)
    requires ConfigureRunner(a, c).Success?
    requires FlagKey(flag) == "--mode"
    requires Names(Trim(text), RunnerModeName(m))
    ensures ConfigureRunner(a + [flag, text], c) == Success(ConfigureRunner(a, c).value.(mode := m))
  {
    RunnerKeys(FlagKey(flag));
    LastFlagDecides(a, flag, text, c, RunnerLookup, ParseValue, ApplyToRunner);
    RunnerModeNamesParse(m, text);
  }

  lemma MigrationTypeNameIsWord(t: MigrationType)
    ensures Word(MigrationTypeName(t))
  {
  }

  lemma RunnerModeNameIsWord(m: TaskRunnerMode)
    ensures Word(RunnerModeName(m))
  {
  }

  /** A list of names that is no number reads as the type whose value sets the list's bits. */
  lemma ParseMigrationTypeOfList(text: string, bits: set<int>)
    requires TryParseInt(text).None? && NameUnion(SplitOn(text, ","), MigrationTypeNamed) == Some(bits)
    ensures ParseMigrationType(text).Some? && ValueBits(MigrationTypeValue(ParseMigrationType(text).value)) == bits
  {
  }

  /** A list of names that is no number reads as the mode whose value sets the list's bits. */
  lemma ParseRunnerModeOfList(text: string, bits: set<int>)
    requires TryParseInt(text).None? && NameUnion(SplitOn(text, ","), RunnerModeNamed) == Some(bits)
    ensures ParseRunnerMode(text).Some? && ValueBits(RunnerModeValue(ParseRunnerMode(text).value)) == bits
  {
  }

  /** Every migration type is accepted by its name, in any case and with surrounding white space. */
  lemma MigrationTypeNamesParse(t: MigrationType, s: string)
    requires Names(Trim(s), MigrationTypeName(t))
    ensures ParseMigrationType(s) == Some(t)
  {
    PaddedName(s, MigrationTypeName(t));
    SplitOnAbsent(s, ',');
    NameUnionOne(s, MigrationTypeNamed);
    MigrationTypeNamedReads(t, s);
  }

  /** Every runner mode is accepted by its name, in any case and with surrounding white space. */
  lemma RunnerModeNamesParse(m: TaskRunnerMode, s: string)
    requires Names(Trim(s), RunnerModeName(m))
    ensures ParseRunnerMode(s) == Some(m)
  {
    PaddedName(s, RunnerModeName(m));
    SplitOnAbsent(s, ',');
    NameUnionOne(s, RunnerModeNamed);
    RunnerModeNamedReads(m, s);
  }

  /** Two migration type names joined by a comma read as the type whose value is
      the OR of theirs: `up,down` reads as `Both`. */
  lemma MigrationTypeListOrs(a: MigrationType, b: MigrationType, sa: string, sb: string)
    requires Names(Trim(sa), MigrationTypeName(a)) && Names(Trim(sb), MigrationTypeName(b))
    ensures var r := ParseMigrationType(sa + "," + sb);
            && r.Some?
            && ValueBits(MigrationTypeValue(r.value)) == ValueBits(MigrationTypeValue(a)) + ValueBits(MigrationTypeValue(b))
  {
    MigrationTypeNameIsWord(a);
    MigrationTypeNameIsWord(b);
    PaddedName(sa, MigrationTypeName(a));
    PaddedName(sb, MigrationTypeName(b));
    ListOfTwo(sa, sb);
    MigrationTypeNamedReads(a, sa);
    MigrationTypeNamedReads(b, sb);
    NameUnionTwo(sa, sb, MigrationTypeNamed);
    ParseMigrationTypeOfList(sa + "," + sb, ValueBits(MigrationTypeValue(a)) + ValueBits(MigrationTypeValue(b)));
  }

  /** Two runner mode names joined by a comma read as the mode whose value is the
      OR of theirs: `strict,relaxed` reads as `Relaxed`. */
  lemma RunnerModeListOrs(a: TaskRunnerMode, b: TaskRunnerMode, sa: string, sb: string)
    requires Names(Trim(sa), RunnerModeName(a)) && Names(Trim(sb), RunnerModeName(b))
    ensures var r := ParseRunnerMode(sa + "," + sb);
            && r.Some?
            && ValueBits(RunnerModeValue(r.value)) == ValueBits(RunnerModeValue(a)) + ValueBits(RunnerModeValue(b))
  {
    RunnerModeNameIsWord(a);
    RunnerModeNameIsWord(b);
    PaddedName(sa, RunnerModeName(a));
    PaddedName(sb, RunnerModeName(b));
    ListOfTwo(sa, sb);
    RunnerModeNamedReads(a, sa);
    RunnerModeNamedReads(b, sb);
    NameUnionTwo(sa, sb, RunnerModeNamed);
    ParseRunnerModeOfList(sa + "," + sb, ValueBits(RunnerModeValue(a)) + ValueBits(RunnerModeValue(b)));
  }

  /** `up,down`, in any case and padded, reads as `Both`. */
  lemma UpDownIsBoth(sa: string, sb: string)
    requires Names(Trim(sa), MigrationTypeName(Up)) && Names(Trim(sb), MigrationTypeName(Down))
    ensures ParseMigrationType(sa + "," + sb) == Some(Both)
  {
    MigrationTypeListOrs(Up, Down, sa, sb);
    BothOfBits(ParseMigrationType(sa + "," + sb).value);
  }

  lemma BothOfBits(t: MigrationType)
    requires ValueBits(MigrationTypeValue(t)) == ValueBits(MigrationTypeValue(Up)) + ValueBits(MigrationTypeValue(Down))
    ensures t == Both
  {
    assert ValueBits(1) + ValueBits(2) == {1, 2};
    assert t == MigrationTypeOfBits({1, 2});
  }

  /** `strict,relaxed`, in any case and padded, reads as `Relaxed`. */
  lemma StrictRelaxedIsRelaxed(sa: string, sb: string)
    requires Names(Trim(sa), RunnerModeName(TaskRunnerMode.Strict)) && Names(Trim(sb), RunnerModeName(TaskRunnerMode.Relaxed))
    ensures ParseRunnerMode(sa + "," + sb) == Some(TaskRunnerMode.Relaxed)
  {
    RunnerModeListOrs(TaskRunnerMode.Strict, TaskRunnerMode.Relaxed, sa, sb);
    RelaxedOfBits(ParseRunnerMode(sa + "," + sb).value);
  }

  lemma RelaxedOfBits(m: TaskRunnerMode)
    requires ValueBits(RunnerModeValue(m)) == ValueBits(RunnerModeValue(TaskRunnerMode.Strict)) + ValueBits(RunnerModeValue(TaskRunnerMode.Relaxed))
    ensures m == TaskRunnerMode.Relaxed
  {
    assert ValueBits(0) + ValueBits(1) == {1};
    assert m == RunnerModeOfBits({1});
  }

  /** `Constraint` is not a target name, so a list naming it is rejected. */
  lemma ConstraintIsNoTarget()
    ensures TargetName("Constraint").None?
  {
    TrimUnpadded("Constraint");
    assert |Lower("Constraint")| == 10;
  }

  /** The numeric form of a target selects the categories whose bits are set;
      `15` is every category and `0` none. */
  lemma NumericTargets(n: int)
    requires Int32Min <= n <= Int32Max
    ensures ParseTargets(DecimalString(n)) == Some(CategoriesOf(n))
    ensures CategoriesOf(15) == AllTargets && CategoriesOf(0) == {}
  {
    TryParseDecimal(n);
    assert forall c :: c in AllTargets ==> 15 / Bit(c) % 2 == 1;
  }
}
