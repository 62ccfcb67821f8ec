/** The interval of the recent-window reads, as the database evaluates it
    once the named parameters are bound. The parameter parser recognises a
    named parameter only outside quotes: a ':days' written inside a string
    literal stays literal text, the parameter is left unbound, and the
    database reads the text as interval input. */
module Interval {
  import opened Wrappers
  import Text

  const SecondsPerDay: int := 86400
  const SecondsPerHour: int := 3600

  /** The operand of NOW() - ...: a quoted interval literal, or a bound
      named parameter times an interval of one unit. */
  datatype IntervalExpr = Literal(text: string) | ParamTimes(name: string, unitSeconds: int)

  /** INTERVAL ':days days' (query/repository/ContextRepository.java). */
  const DaysAsWritten: IntervalExpr := Literal(":days days")
  /** INTERVAL ':hours hours' (query/repository/KnowledgeBaseRepository.java). */
  const HoursAsWritten: IntervalExpr := Literal(":hours hours")
  /** The window evidently meant: the bound days, in days. */
  const DaysIntended: IntervalExpr := ParamTimes("days", SecondsPerDay)
  /** The window evidently meant: the bound hours, in hours. */
  const HoursIntended: IntervalExpr := ParamTimes("hours", SecondsPerHour)

  /** The value given for the named parameter of the read. */
  datatype Binding = Binding(name: string, value: int)

  const InvalidInterval := "invalid input syntax for type interval"
  const UnboundParameter := "no value bound for a named parameter"

  predicate IsDigit(c: char) {
    '0' <= c <= '9'
  }

  /** The length of the run of digits that s starts with. */
  function DigitRun(s: string): (n: nat)
    ensures n <= |s|
    ensures Text.AllDigits(s[..n])
    ensures n < |s| ==> !IsDigit(s[n])
  {
    if s == [] || !IsDigit(s[0]) then 0
    else
      var n := 1 + DigitRun(s[1..]);
      assert s[..n] == [s[0]] + s[1..][..n - 1];
      n
  }

  function UnitSeconds(unit: string): Option<int> {
    if unit == "day" || unit == "days" then Some(SecondsPerDay)
    else if unit == "hour" || unit == "hours" then Some(SecondsPerHour)
    else None
  }

  /** Interval input of the form "<digits> <unit>" with unit day(s) or
      hour(s), in seconds; other text is rejected. */
  function ParseInterval(s: string): (r: Option<int>)
    ensures r.Some? ==> |s| > 0 && IsDigit(s[0])
    ensures r.Some? ==> r.value >= 0
  {
    var n := DigitRun(s);
    if n == 0 || n == |s| || s[n] != ' ' then None
    else
      var unit := UnitSeconds(s[n + 1..]);
      if unit.None? then None else Some(Text.DecimalValue(s[..n]) * unit.value)
  }

  /** The interval in seconds with the arguments bound: a literal is parsed
      as interval input and rejected text fails the statement; a parameter
      must be bound. */
  function Seconds(e: IntervalExpr, arg: Binding): (r: Result<int>)
    ensures e.Literal? && r.Success? ==> |e.text| > 0 && IsDigit(e.text[0]) && r.value >= 0
    ensures e.Literal? && r.Failure? ==> r.error == InvalidInterval
    ensures e.ParamTimes? ==> (r.Success? <==> e.name == arg.name)
    ensures e.ParamTimes? && r.Success? ==> r.value == arg.value * e.unitSeconds
  {
    match e
    case Literal(text) =>
      var p := ParseInterval(text);
      if p.None? then Failure(InvalidInterval) else Success(p.value)
    case ParamTimes(name, unit) =>
      if name == arg.name then Success(arg.value * unit) else Failure(UnboundParameter)
  }

  /** A named parameter left inside the quotes reaches the database as
      text starting with ':', which no interval input accepts: the
      statement fails whatever value the parameter was given. */
  lemma QuotedParamRejected(name: string, rest: string, arg: Binding)
    ensures Seconds(Literal([':'] + name + rest), arg) == Failure(InvalidInterval)
  {
    var s := [':'] + name + rest;
    assert s[0] == ':';
  }

  /** Both recent-window literals as written fail for every argument. */
  lemma AsWrittenFails(n: int)
    ensures Seconds(DaysAsWritten, Binding("days", n)) == Failure(InvalidInterval)
    ensures Seconds(HoursAsWritten, Binding("hours", n)) == Failure(InvalidInterval)
  {
    QuotedParamRejected("days", " days", Binding("days", n));
    assert [':'] + "days" + " days" == ":days days";
    QuotedParamRejected("hours", " hours", Binding("hours", n));
    assert [':'] + "hours" + " hours" == ":hours hours";
  }

  lemma {:induction false} DigitRunOfDigits(d: string, rest: string)
    requires Text.AllDigits(d)
    requires rest == [] || !IsDigit(rest[0])
    ensures DigitRun(d + rest) == |d|
  {
    if d != [] {
      assert (d + rest)[1..] == d[1..] + rest;
      DigitRunOfDigits(d[1..], rest);
    }
  }

  /** "<digits> <unit>" reads as the number of units, in seconds. */
  lemma NumberThenUnit(d: string, unit: string)
    requires |d| > 0 && Text.AllDigits(d) && UnitSeconds(unit).Some?
    ensures ParseInterval(d + " " + unit) == Some(Text.DecimalValue(d) * UnitSeconds(unit).value)
  {
    var s := d + " " + unit;
    DigitRunOfDigits(d, " " + unit);
    assert s == d + (" " + unit);
    assert s[..|d|] == d && s[|d|] == ' ' && s[|d| + 1..] == unit;
  }

  /** The literal the authors evidently meant to send, with the value in
      place of the parameter, reads as that many days or hours. */
  lemma BoundLiteralReads(n: nat)
    ensures ParseInterval(Text.NatToString(n) + " " + "days") == Some(n * SecondsPerDay)
    ensures ParseInterval(Text.NatToString(n) + " " + "hours") == Some(n * SecondsPerHour)
  {
    var d := Text.NatToString(n);
    Text.NatToStringRoundTrip(n);
    assert UnitSeconds("days") == Some(SecondsPerDay) && UnitSeconds("hours") == Some(SecondsPerHour);
    NumberThenUnit(d, "days");
    NumberThenUnit(d, "hours");
  }

  /** The intended intervals are bound and span the given number of units. */
  lemma IntendedSeconds(n: int)
    ensures Seconds(DaysIntended, Binding("days", n)).Success?
    ensures Seconds(DaysIntended, Binding("days", n)).value == n * SecondsPerDay
    ensures Seconds(HoursIntended, Binding("hours", n)).Success?
    ensures Seconds(HoursIntended, Binding("hours", n)).value == n * SecondsPerHour
  {
  }

  /** The intended interval gives the window the reads are meant to cover,
      and agrees with the literal holding the value. */
  lemma IntendedWindow(n: nat)
    ensures Seconds(DaysIntended, Binding("days", n)) == Success(n * SecondsPerDay)
    ensures Seconds(HoursIntended, Binding("hours", n)) == Success(n * SecondsPerHour)
    ensures Seconds(Literal(Text.NatToString(n) + " " + "days"), Binding("days", n)) == Seconds(DaysIntended, Binding("days", n))
    ensures Seconds(Literal(Text.NatToString(n) + " " + "hours"), Binding("hours", n)) == Seconds(HoursIntended, Binding("hours", n))
  {
    BoundLiteralReads(n);
  }
}
