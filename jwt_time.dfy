/** The JWT_EXPIRATION parser of apps/auth/src/utils/jwt-time.util.ts: a
    seconds count, or digits followed by one unit letter s, m, h or d. */
module JwtTime {
  import opened Common
  import opened Numerals

  /** The errors the parser throws, one per `throw new Error(...)`. */
  datatype TtlError =
    | NotPositiveNumber
    | InvalidFormat(input: string)
    | ValueNotPositive
    | InvalidUnit(unit: string)

  const FormatPrefix := "Invalid JWT_EXPIRATION format: \""
  const UnitPrefix := "Invalid JWT time unit: \""

  /** The message each error carries; the format and unit errors quote the
      offending text right after a fixed prefix. */
  function Message(e: TtlError): (m: string)
    ensures e.InvalidFormat? ==> |m| >= |FormatPrefix| + |e.input| && FormatPrefix <= m && m[|FormatPrefix|..][..|e.input|] == e.input
    ensures e.InvalidUnit? ==> |m| >= |UnitPrefix| + |e.unit| && UnitPrefix <= m && m[|UnitPrefix|..][..|e.unit|] == e.unit
  {
    match e
    case NotPositiveNumber => "JWT_EXPIRATION must be a positive number"
    case InvalidFormat(input) =>
      FormatPrefix + input + "\". Expected: \"3600\", \"1h\", \"30m\", \"60s\", \"1d\""
    case ValueNotPositive => "JWT_EXPIRATION value must be positive"
    case InvalidUnit(unit) => UnitPrefix + unit + "\". Supported: s, m, h, d"
  }

  /** Each error has its own message: the thrown text tells the errors, and
      the quoted input or unit, apart. */
  lemma MessageInjective(a: TtlError, b: TtlError)
    requires Message(a) == Message(b)
    ensures a == b
  {
    var m := Message(a);
    // The first, thirteenth and sixteenth characters tell the four kinds apart.
    assert m[0] == Message(b)[0] && m[12] == Message(b)[12] && m[15] == Message(b)[15];
    if a.InvalidFormat? && b.InvalidFormat? {
      assert |a.input| == |b.input|;
      assert a.input == m[|FormatPrefix|..][..|a.input|];
    } else if a.InvalidUnit? && b.InvalidUnit? {
      assert |a.unit| == |b.unit|;
      assert a.unit == m[|UnitPrefix|..][..|a.unit|];
    }
  }

  predicate IsDecimal(s: string)
  {
    s != [] && AllDigits(s, 10)
  }

  /** JavaScript's `Number(s)` on strings over the digits, '+', '-' and the
      unit letters: the empty string is 0, an optionally signed run of
      digits is its value, anything else is NaN (None). */
  function JsNumber(s: string): (r: Option<int>)
    ensures IsDecimal(s) ==> r == Some(Value(s, 10))
  {
    if s == [] then Some(0)
    else if s[0] == '-' && IsDecimal(s[1..]) then Some(0 - Value(s[1..], 10))
    else if s[0] == '+' && IsDecimal(s[1..]) then Some(Value(s[1..], 10))
    else if IsDecimal(s) then Some(Value(s, 10))
    else None
  }

  /** The seconds per unit of `jwtMultipliers`; None for a key it lacks. */
  function Multiplier(unit: string): (m: Option<nat>)
    ensures m.Some? <==> unit in {"s", "m", "h", "d"}
  {
    if unit == "s" then Some(1)
    else if unit == "m" then Some(60)
    else if unit == "h" then Some(3600)
    else if unit == "d" then Some(86400)
    else None
  }

  predicate IsUnitLetter(c: char)
  {
    c == 's' || c == 'm' || c == 'h' || c == 'd'
  }

  /** The match of `/^(\d+)([smhd]?)$/`: the digit group and the (possibly
      empty) unit group, or None when the string does not match. */
  function TimePattern(s: string): (r: Option<(string, string)>)
    ensures r.Some? ==> IsDecimal(r.value.0) && s == r.value.0 + r.value.1
    ensures r.Some? ==> r.value.1 == [] || (|r.value.1| == 1 && IsUnitLetter(r.value.1[0]))
  {
    if IsDecimal(s) then Some((s, ""))
    else if |s| >= 2 && IsUnitLetter(s[|s| - 1]) && IsDecimal(s[..|s| - 1]) then
      assert s == s[..|s| - 1] + [s[|s| - 1]];
      Some((s[..|s| - 1], [s[|s| - 1]]))
    else None
  }

  /** `parseTimeStringToSeconds`: the suffixed branch. */
  function ParseTimeStringToSeconds(s: string): (r: Result<nat, TtlError>)
    ensures r.Ok? ==> r.value > 0
    ensures r.Err? && r.error.InvalidUnit? ==> r.error.unit == ""
  {
    match TimePattern(s)
    case None => Err(InvalidFormat(s))
    case Some((digits, unit)) =>
      var value := Value(digits, 10);
      if value <= 0 then Err(ValueNotPositive)
      else match Multiplier(unit)
        case None => Err(InvalidUnit(unit))
        case Some(m) => Ok(value * m)
  }

  /** `parseJwtExpirationToSeconds`: a number is taken as seconds, anything
      else goes to the suffixed branch. A returned value is always positive. */
  function ParseJwtExpirationToSeconds(s: string): (r: Result<nat, TtlError>)
    ensures r.Ok? ==> r.value > 0
  {
    match JsNumber(s)
    case Some(seconds) =>
      if seconds <= 0 then Err(NotPositiveNumber) else Ok(seconds)
    case None => ParseTimeStringToSeconds(s)
  }

  /** The units a suffixed TTL may carry. */
  datatype Unit = Seconds | Minutes | Hours | Days

  function Letter(u: Unit): char
  {
    match u
    case Seconds => 's'
    case Minutes => 'm'
    case Hours => 'h'
    case Days => 'd'
  }

  /** Writes a TTL the way the configuration is written: decimal digits,
      then the unit letter when there is one. */
  function FormatTtl(value: nat, unit: Option<Unit>): (s: string)
  {
    Render(value, 10, 1) + (if unit.Some? then [Letter(unit.value)] else "")
  }

  lemma DecimalIsNumber(s: string)
    requires IsDecimal(s)
    ensures ParseJwtExpirationToSeconds(s) ==
      if Value(s, 10) > 0 then Ok(Value(s, 10)) else Err(NotPositiveNumber)
  {
  }

  /** Digits followed by a unit letter are not a number, so they reach the
      suffixed branch and are multiplied by the unit's seconds. */
  lemma SuffixedValue(digits: string, u: Unit)
    requires IsDecimal(digits)
    ensures var value := Value(digits, 10);
      ParseJwtExpirationToSeconds(digits + [Letter(u)]) ==
        if value == 0 then Err(ValueNotPositive)
        else Ok(value * Multiplier([Letter(u)]).value)
  {
  }

  /** Round trip: a positive TTL written out parses back to its seconds. */
  lemma ParseFormatted(value: nat, unit: Option<Unit>)
    requires value > 0
    ensures ParseJwtExpirationToSeconds(FormatTtl(value, unit)) ==
      Ok(if unit.Some? then value * Multiplier([Letter(unit.value)]).value else value)
  {
    var digits := Render(value, 10, 1);
    ValueOfRender(value, 10, 1);
    if unit.Some? {
      SuffixedValue(digits, unit.value);
    } else {
      assert FormatTtl(value, unit) == digits;
      DecimalIsNumber(digits);
    }
  }

  /** A number at most zero is refused as not positive. */
  lemma NonPositiveNumberRejected(s: string)
    requires JsNumber(s).Some? && JsNumber(s).value <= 0
    ensures ParseJwtExpirationToSeconds(s) == Err(NotPositiveNumber)
  {
  }

  /** A string that is neither a number nor `\d+[smhd]?` is refused with the
      format message, which quotes the input. */
  lemma MalformedRejected(s: string)
    requires JsNumber(s).None? && TimePattern(s).None?
    ensures ParseJwtExpirationToSeconds(s) == Err(InvalidFormat(s))
  {
  }

  /** The "Invalid JWT time unit" branch cannot be reached from the entry
      point: a string whose unit group is empty is all digits, which the
      numeric branch has already taken. */
  lemma InvalidUnitUnreachable(s: string)
    ensures !ParseJwtExpirationToSeconds(s).Err? || !ParseJwtExpirationToSeconds(s).error.InvalidUnit?
  {
  }

  /** The branch exists: called directly, the suffixed parser refuses a
      positive digits-only string for its empty unit. */
  lemma DigitsOnlyReachInvalidUnitDirectly(s: string)
    requires IsDecimal(s) && Value(s, 10) > 0
    ensures ParseTimeStringToSeconds(s) == Err(InvalidUnit(""))
  {
  }

  /** The TTLs the configuration comments name. */
  lemma AcceptedExamples()
    ensures ParseJwtExpirationToSeconds("3600") == Ok(3600)
    ensures ParseJwtExpirationToSeconds("1h") == Ok(3600)
    ensures ParseJwtExpirationToSeconds("30m") == Ok(1800)
    ensures ParseJwtExpirationToSeconds("1d") == Ok(86400)
  {
    assert "3600"[..3] == "360" && "360"[..2] == "36" && "36"[..1] == "3" && "3"[..0] == "";
    assert Value("3600", 10) == 3600;
    DecimalIsNumber("3600");
    assert "1" + ['h'] == "1h" && "30" + ['m'] == "30m" && "1" + ['d'] == "1d";
    assert "30"[..1] == "3";
    assert Value("1", 10) == 1 && Value("30", 10) == 30;
    SuffixedValue("1", Hours);
    SuffixedValue("30", Minutes);
    SuffixedValue("1", Days);
  }

  /** Forms the parser refuses, one per error. */
  lemma RejectedExamples()
    ensures ParseJwtExpirationToSeconds("0") == Err(NotPositiveNumber)
    ensures ParseJwtExpirationToSeconds("-5") == Err(NotPositiveNumber)
    ensures ParseJwtExpirationToSeconds("0h") == Err(ValueNotPositive)
    ensures ParseJwtExpirationToSeconds("000s") == Err(ValueNotPositive)
    ensures ParseJwtExpirationToSeconds("1w") == Err(InvalidFormat("1w"))
    ensures ParseJwtExpirationToSeconds("h") == Err(InvalidFormat("h"))
    ensures ParseJwtExpirationToSeconds("-5s") == Err(InvalidFormat("-5s"))
    ensures ParseJwtExpirationToSeconds("10 m") == Err(InvalidFormat("10 m"))
  {
    assert "0" + ['h'] == "0h" && "000" + ['s'] == "000s";
    assert "000"[..2] == "00" && "00"[..1] == "0" && "0"[..0] == "";
    SuffixedValue("0", Hours);
    SuffixedValue("000", Seconds);
    assert "-5"[1..] == "5";
    assert !IsDigit('w', 10) && !IsDigit('-', 10);
    assert "-5s"[1..] == "5s" && "5s"[1] == 's' && !IsDigit('s', 10);
    assert "-5s"[..2] == "-5" && "-5"[0] == '-';
    assert "10 m"[2] == ' ' && "10 m"[..3] == "10 " && "10 "[2] == ' ' && !IsDigit(' ', 10);
  }
}
