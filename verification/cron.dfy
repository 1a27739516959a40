/** Five-field cron schedules: gpu_watcher/cron.py over ASCII text. */
module Cron {
  import opened Models

  // ----- the string methods the parser relies on -----

  predicate IsSpace(c: char) {
    9 <= c as int <= 13 || 28 <= c as int <= 32
  }

  predicate IsDigit(c: char) {
    '0' <= c <= '9'
  }

  function LowerChar(c: char): char {
    if 'A' <= c <= 'Z' then (c as int + 32) as char else c
  }

  function Lower(s: string): (r: string)
    ensures |r| == |s|
  {
    seq(|s|, i requires 0 <= i < |s| => LowerChar(s[i]))
  }

  function StripLeft(s: string): (r: string)
    ensures r == "" || !IsSpace(r[0])
    ensures s == "" || IsSpace(s[0]) || r == s
  {
    if s != "" && IsSpace(s[0]) then StripLeft(s[1..]) else s
  }

  function StripRight(s: string): (r: string)
    ensures r <= s
    ensures r == "" || !IsSpace(r[|r| - 1])
    ensures s == "" || IsSpace(s[|s| - 1]) || r == s
  {
    if s != "" && IsSpace(s[|s| - 1]) then StripRight(s[..|s| - 1]) else s
  }

  function Strip(s: string): string {
    StripRight(StripLeft(s))
  }

  function SplitOn(s: string, c: char): (parts: seq<string>)
    ensures |parts| >= 1
  {
    if s == "" then [""]
    else
      var rest := SplitOn(s[1..], c);
      if s[0] == c then [""] + rest else [[s[0]] + rest[0]] + rest[1..]
  }

  function SplitFields(s: string): seq<string>
    decreases |s|
  {
    var t := StripLeft(s);
    if t == "" then []
    else
      var n := WordLength(t);
      ShorterAfterStrip(s);
      [t[..n]] + SplitFields(t[n..])
  }

  function WordLength(s: string): (n: nat)
    ensures n <= |s|
    ensures s != "" && !IsSpace(s[0]) ==> n > 0
  {
    if s == "" || IsSpace(s[0]) then 0 else 1 + WordLength(s[1..])
  }

  lemma ShorterAfterStrip(s: string)
    ensures |StripLeft(s)| <= |s|
  {
  }

  /** The position of the first `c`, if any: `partition` and `split(c, 1)` cut there. */
  function Find(s: string, c: char): (r: Option<nat>)
    ensures r.Some? ==> r.value < |s| && s[r.value] == c
  {
    if s == "" then None
    else if s[0] == c then Some(0)
    else
      match Find(s[1..], c)
      case None => None
      case Some(i) => Some(i + 1)
  }

  predicate AllDigits(s: string) {
    s != "" && forall i | 0 <= i < |s| :: IsDigit(s[i])
  }

  function DigitValue(c: char): (r: nat)
    requires IsDigit(c)
  {
    c as int - '0' as int
  }

  function ToNat(s: string): nat
    requires forall i | 0 <= i < |s| :: IsDigit(s[i])
  {
    if s == "" then 0 else ToNat(s[..|s| - 1]) * 10 + DigitValue(s[|s| - 1])
  }

  // ----- fields -----

  /** The five fields with the bounds and names `CronExpression.parse` gives them. */
  datatype Field = Minute | Hour | Day | Month | Weekday {
    function Minimum(): int {
      if Day? || Month? then 1 else 0
    }

    function Maximum(): int {
      match this
      case Minute => 59
      case Hour => 23
      case Day => 31
      case Month => 12
      case Weekday => 7
    }

    /** The largest value a parsed set can hold: weekday 7 is folded into 0. */
    function Top(): int {
      if Weekday? then 6 else Maximum()
    }

    function Fold(v: int): int {
      if Weekday? then v % 7 else v
    }

    function Named(text: string): Option<int> {
      match this
      case Month => MonthNumber(text)
      case Weekday => WeekdayNumber(text)
      case _ => None
    }
  }

  function MonthNumber(text: string): Option<int> {
    match text
    case "jan" => Some(1)
    case "feb" => Some(2)
    case "mar" => Some(3)
    case "apr" => Some(4)
    case "may" => Some(5)
    case "jun" => Some(6)
    case "jul" => Some(7)
    case "aug" => Some(8)
    case "sep" => Some(9)
    case "oct" => Some(10)
    case "nov" => Some(11)
    case "dec" => Some(12)
    case _ => None
  }

  function WeekdayNumber(text: string): Option<int> {
    match text
    case "sun" => Some(0)
    case "mon" => Some(1)
    case "tue" => Some(2)
    case "wed" => Some(3)
    case "thu" => Some(4)
    case "fri" => Some(5)
    case "sat" => Some(6)
    case _ => None
  }

  function ParseValue(text: string, field: Field, normalizeWeekday: bool): (r: Result<int>)
    ensures r.Ok? ==> field.Minimum() <= r.value <= field.Maximum()
    ensures r.Ok? && field.Weekday? && normalizeWeekday ==> r.value != 7
  {
    if field.Named(text).None? && !AllDigits(text) then Err("invalid value")
    else
      var value := if field.Named(text).Some? then field.Named(text).value else ToNat(text);
      if !(field.Minimum() <= value <= field.Maximum()) then Err("value out of bounds")
      else if field.Weekday? && normalizeWeekday && value == 7 then Ok(0)
      else Ok(value)
  }

  /** One comma-separated part of a field: a single value, or a stepped range. */
  datatype Part = Single(value: int) | Stepped(start: int, end: int, step: int)

  function ParsePart(part: string, field: Field): (r: Result<Part>)
    ensures r.Ok? && r.value.Single? ==> field.Minimum() <= r.value.value <= field.Top()
    ensures r.Ok? && r.value.Stepped? ==>
              field.Minimum() <= r.value.start <= r.value.end <= field.Maximum() && r.value.step >= 1
  {
    if part == "" then Err("invalid list")
    else
      var slash := Find(part, '/');
      var base := if slash.Some? then part[..slash.value] else part;
      var stepText := if slash.Some? then part[slash.value + 1..] else "1";
      if !AllDigits(stepText) || ToNat(stepText) < 1 then Err("step must be a positive integer")
      else if base == "*" then Ok(Stepped(field.Minimum(), field.Maximum(), ToNat(stepText)))
      else
        match Find(base, '-')
        case Some(dash) =>
          (match (ParseValue(base[..dash], field, false), ParseValue(base[dash + 1..], field, false))
           case (Err(e), _) => Err(e)
           case (_, Err(e)) => Err(e)
           case (Ok(start), Ok(end)) =>
             if start > end then Err("range start must not exceed its end")
             else Ok(Stepped(start, end, ToNat(stepText))))
        case None =>
          if slash.Some? then Err("steps require '*' or a range")
          else
            match ParseValue(base, field, true)
            case Err(e) => Err(e)
            case Ok(v) => Ok(Single(v))
  }

  function StepValues(start: int, end: int, step: int, field: Field): set<int>
    requires step >= 1
    decreases end - start
  {
    if start > end then {} else {field.Fold(start)} + StepValues(start + step, end, step, field)
  }

  function PartValues(p: Part, field: Field): set<int> {
    match p
    case Single(v) => {v}
    case Stepped(start, end, step) => if step >= 1 then StepValues(start, end, step, field) else {}
  }

  /** What the parts of a field add up to, or the first part's error. */
  function UnionOfParts(parts: seq<string>, field: Field): Result<set<int>>
  {
    if parts == [] then Ok({})
    else
      match ParsePart(parts[0], field)
      case Err(e) => Err(e)
      case Ok(p) =>
        match UnionOfParts(parts[1..], field)
        case Err(e) => Err(e)
        case Ok(rest) => Ok(PartValues(p, field) + rest)
  }

  function FieldValues(text: string, field: Field): Result<set<int>>
  {
    if text == "" then Err("field cannot be empty")
    else UnionOfParts(SplitOn(Lower(text), ','), field)
  }

  /** The parser's loop: one growing set, stopped by the first bad part. */
  method ParseField(text: string, field: Field) returns (r: Result<set<int>>)
    ensures r == FieldValues(text, field)
  {
    if text == "" {
      return Err("field cannot be empty");
    }
    var parts := SplitOn(Lower(text), ',');
    var result: set<int> := {};
    assert parts[0..] == parts;
    PrependNothing(UnionOfParts(parts, field));
    for i := 0 to |parts|
      invariant UnionOfParts(parts, field) == Prepend(result, UnionOfParts(parts[i..], field))
    {
      assert parts[i..][1..] == parts[i + 1..];
      match ParsePart(parts[i], field) {
        case Err(e) => return Err(e);
        case Ok(p) =>
          PrependTwice(result, PartValues(p, field), UnionOfParts(parts[i + 1..], field));
          result := result + PartValues(p, field);
      }
    }
    return Ok(result);
  }

  ghost function Prepend(s: set<int>, r: Result<set<int>>): Result<set<int>> {
    match r
    case Err(e) => r
    case Ok(t) => Ok(s + t)
  }

  lemma PrependNothing(r: Result<set<int>>)
    ensures Prepend({}, r) == r
  {
    if r.Ok? {
      assert {} + r.value == r.value;
    }
  }

  lemma PrependTwice(s: set<int>, t: set<int>, r: Result<set<int>>)
    ensures Prepend(s, Prepend(t, r)) == Prepend(s + t, r)
  {
    if r.Ok? {
      assert s + (t + r.value) == s + t + r.value;
    }
  }

  /** `v` is a value the part names: itself, or reachable from the range start in whole steps. */
  ghost predicate Denotes(p: Part, field: Field, v: int) {
    match p
    case Single(x) => v == x
    case Stepped(start, end, step) => exists k: nat :: InRange(start, end, step, k) && v == field.Fold(start + k * step)
  }

  ghost predicate InRange(start: int, end: int, step: int, k: nat) {
    start + k * step <= end
  }

  lemma {:induction false} StepValuesMeaning(start: int, end: int, step: int, field: Field, v: int)
    requires step >= 1
    ensures v in StepValues(start, end, step, field) <==> Denotes(Stepped(start, end, step), field, v)
    decreases end - start
  {
    if start <= end {
      StepValuesMeaning(start + step, end, step, field, v);
      assert InRange(start, end, step, 0) && start + 0 * step == start;
      if k: nat :| InRange(start + step, end, step, k) && v == field.Fold(start + step + k * step) {
        assert start + step + k * step == start + (k + 1) * step;
        assert InRange(start, end, step, k + 1);
      }
      if k: nat :| InRange(start, end, step, k) && v == field.Fold(start + k * step) {
        if k > 0 {
          assert start + step + (k - 1) * step == start + k * step;
          assert InRange(start + step, end, step, k - 1);
        }
      }
    } else {
      forall k: nat ensures !InRange(start, end, step, k) {
        assert k * step >= 0;
      }
    }
  }

  ghost predicate SomePartDenotes(parts: seq<string>, field: Field, v: int)
  {
    exists i :: 0 <= i < |parts| && ParsePart(parts[i], field).Ok?
      && Denotes(ParsePart(parts[i], field).value, field, v)
  }

  ghost predicate AllPartsParse(parts: seq<string>, field: Field)
  {
    forall i | 0 <= i < |parts| :: ParsePart(parts[i], field).Ok?
  }

  lemma {:induction false} SomePartSplits(parts: seq<string>, field: Field, v: int)
    requires parts != [] && ParsePart(parts[0], field).Ok?
    ensures SomePartDenotes(parts, field, v) <==>
            Denotes(ParsePart(parts[0], field).value, field, v) || SomePartDenotes(parts[1..], field, v)
  {
    if SomePartDenotes(parts[1..], field, v) {
      var i :| 0 <= i < |parts[1..]| && ParsePart(parts[1..][i], field).Ok?
        && Denotes(ParsePart(parts[1..][i], field).value, field, v);
      assert parts[i + 1] == parts[1..][i];
    }
    if SomePartDenotes(parts, field, v) {
      var i :| 0 <= i < |parts| && ParsePart(parts[i], field).Ok?
        && Denotes(ParsePart(parts[i], field).value, field, v);
      assert i > 0 ==> parts[1..][i - 1] == parts[i];
    }
  }

  lemma {:induction false} PartMeaning(p: Part, field: Field, v: int)
    requires p.Stepped? ==> p.step >= 1
    ensures v in PartValues(p, field) <==> Denotes(p, field, v)
  {
    if p.Stepped? {
      StepValuesMeaning(p.start, p.end, p.step, field, v);
    }
  }

  lemma {:induction false} UnionMeaning(parts: seq<string>, field: Field)
    ensures UnionOfParts(parts, field).Ok? <==> AllPartsParse(parts, field)
    ensures UnionOfParts(parts, field).Ok? ==>
              forall v :: v in UnionOfParts(parts, field).value <==> SomePartDenotes(parts, field, v)
  {
    if parts != [] {
      UnionMeaning(parts[1..], field);
      assert parts == [parts[0]] + parts[1..];
      if UnionOfParts(parts, field).Ok? {
        forall v
          ensures v in UnionOfParts(parts, field).value <==> SomePartDenotes(parts, field, v)
        {
          PartMeaning(ParsePart(parts[0], field).value, field, v);
          SomePartSplits(parts, field, v);
        }
      }
    }
  }

  /** A field is accepted exactly when every part is, and then holds exactly what its parts denote. */
  lemma {:induction false} FieldMeaning(text: string, field: Field)
    ensures FieldValues(text, field).Ok? <==> text != "" && AllPartsParse(SplitOn(Lower(text), ','), field)
    ensures FieldValues(text, field).Ok? ==>
              forall v :: v in FieldValues(text, field).value <==>
                          SomePartDenotes(SplitOn(Lower(text), ','), field, v)
  {
    UnionMeaning(SplitOn(Lower(text), ','), field);
  }

  lemma {:induction false} DenotedInBounds(p: Part, field: Field)
    requires p.Single? ==> field.Minimum() <= p.value <= field.Top()
    requires p.Stepped? ==> field.Minimum() <= p.start <= p.end <= field.Maximum() && p.step >= 1
    ensures exists v :: Denotes(p, field, v)
    ensures forall v | Denotes(p, field, v) :: field.Minimum() <= v <= field.Top()
  {
    if p.Stepped? {
      assert InRange(p.start, p.end, p.step, 0);
      assert Denotes(p, field, field.Fold(p.start + 0 * p.step));
      forall v | Denotes(p, field, v)
        ensures field.Minimum() <= v <= field.Top()
      {
        var k: nat :| InRange(p.start, p.end, p.step, k) && v == field.Fold(p.start + k * p.step);
        assert k * p.step >= 0;
      }
    } else {
      assert Denotes(p, field, p.value);
    }
  }

  /** An accepted field names something, and nothing outside its bounds. */
  lemma {:induction false} FieldInBounds(text: string, field: Field)
    requires FieldValues(text, field).Ok?
    ensures FieldValues(text, field).value != {}
    ensures forall v | v in FieldValues(text, field).value :: field.Minimum() <= v <= field.Top()
  {
    var parts := SplitOn(Lower(text), ',');
    FieldMeaning(text, field);
    forall i | 0 <= i < |parts|
      ensures exists v :: Denotes(ParsePart(parts[i], field).value, field, v)
      ensures forall v | Denotes(ParsePart(parts[i], field).value, field, v) :: field.Minimum() <= v <= field.Top()
    {
      DenotedInBounds(ParsePart(parts[i], field).value, field);
    }
    var v :| Denotes(ParsePart(parts[0], field).value, field, v);
    assert SomePartDenotes(parts, field, v);
  }

  // ----- expressions -----

  datatype CronExpression = CronExpression(
    expression: string,
    minutes: set<int>,
    hours: set<int>,
    daysOfMonth: set<int>,
    months: set<int>,
    daysOfWeek: set<int>,
    dayOfMonthWildcard: bool,
    dayOfWeekWildcard: bool)

  /** Wall-clock time in the task's zone; `weekday` counts from Monday = 0. */
  datatype Moment = Moment(minute: int, hour: int, day: int, month: int, weekday: int)

  ghost predicate ValidMoment(m: Moment) {
    0 <= m.minute <= 59 && 0 <= m.hour <= 23 && 1 <= m.day <= 31 && 1 <= m.month <= 12 && 0 <= m.weekday <= 6
  }

  function Alias(text: string): Option<string> {
    match text
    case "@yearly" => Some("0 0 1 1 *")
    case "@annually" => Some("0 0 1 1 *")
    case "@monthly" => Some("0 0 1 * *")
    case "@weekly" => Some("0 0 * * 0")
    case "@daily" => Some("0 0 * * *")
    case "@midnight" => Some("0 0 * * *")
    case "@hourly" => Some("0 * * * *")
    case _ => None
  }

  function Expand(stripped: string): string {
    match Alias(Lower(stripped))
    case Some(expansion) => expansion
    case None => stripped
  }

  function ParseFields(expression: string, fields: seq<string>): Result<CronExpression>
    requires |fields| == 5
  {
    match (FieldValues(fields[0], Minute), FieldValues(fields[1], Hour), FieldValues(fields[2], Day),
           FieldValues(fields[3], Month), FieldValues(fields[4], Weekday))
    case (Ok(minutes), Ok(hours), Ok(days), Ok(months), Ok(weekdays)) =>
      Ok(CronExpression(expression, minutes, hours, days, months, weekdays, fields[2] == "*", fields[4] == "*"))
    case _ => Err("invalid field")
  }

  function Parse(value: string): Result<CronExpression> {
    var stripped := Strip(value);
    if stripped == "" then Err("cron expression cannot be empty")
    else
      var expression := Expand(stripped);
      var fields := SplitFields(expression);
      if |fields| != 5 then Err("cron expression must contain exactly 5 fields")
      else ParseFields(expression, fields)
  }

  predicate Matches(c: CronExpression, m: Moment) {
    && m.minute in c.minutes
    && m.hour in c.hours
    && m.month in c.months
    && DayMatches(c, m)
  }

  /** `validate_cron_expression`: the text that is stored. */
  function Validate(value: string): Result<string> {
    var normalized := Strip(value);
    if normalized == "" then Ok("")
    else
      match Parse(normalized)
      case Err(e) => Err(e)
      case Ok(c) => Ok(c.expression)
  }

  lemma StripIdempotent(s: string)
    ensures Strip(Strip(s)) == Strip(s)
  {
    var t := Strip(s);
    if t != "" {
      assert t[0] == StripLeft(s)[0];
      assert StripLeft(t) == t;
    }
  }

  lemma {:induction false} AliasExpansionIsPlain(stripped: string)
    ensures Alias(Lower(stripped)).Some? ==> Strip(Expand(stripped)) == Expand(stripped) && Expand(stripped) != ""
    ensures Expand(Expand(stripped)) == Expand(stripped)
  {
    if Alias(Lower(stripped)).Some? {
      var e := Expand(stripped);
      assert e[0] == '0' && !IsSpace(e[|e| - 1]);
      assert Lower(e)[0] == '0';
    }
  }

  /** Storing a schedule loses nothing: its normal form is a fixed point and parses to the same schedule. */
  lemma {:induction false} NormalizationIsIdempotent(value: string)
    ensures Validate(value).Ok? ==> Validate(Validate(value).value) == Validate(value)
    ensures Validate(value).Ok? && Validate(value).value != "" ==>
              Parse(Validate(value).value).Ok? && Parse(Validate(value).value) == Parse(value)
  {
    var stripped := Strip(value);
    StripIdempotent(value);
    if stripped != "" {
      AliasExpansionIsPlain(stripped);
    }
  }

  lemma {:induction false} StarParses(field: Field)
    ensures SplitOn(Lower("*"), ',') == ["*"]
    ensures ParsePart("*", field) == Ok(Stepped(field.Minimum(), field.Maximum(), 1))
  {
    assert Lower("*") == "*";
    assert "*"[1..] == "" && "1"[..0] == "";
    assert ['*'] + "" == "*";
    assert Find("*", '/') == None;
    assert ToNat("1") == 1;
  }

  lemma {:induction false} FullRangeDenotes(field: Field, v: int)
    requires field.Minimum() <= v <= field.Top()
    ensures Denotes(Stepped(field.Minimum(), field.Maximum(), 1), field, v)
  {
    var k: nat := v - field.Minimum();
    assert k * 1 == k;
    assert InRange(field.Minimum(), field.Maximum(), 1, k);
    assert field.Fold(v) == v;
  }

  lemma {:induction false} StarIsEverything(field: Field)
    ensures FieldValues("*", field).Ok?
    ensures forall v | field.Minimum() <= v <= field.Top() :: v in FieldValues("*", field).value
  {
    StarParses(field);
    FieldMeaning("*", field);
    forall v | field.Minimum() <= v <= field.Top()
      ensures SomePartDenotes(["*"], field, v)
    {
      FullRangeDenotes(field, v);
      assert Denotes(ParsePart(["*"][0], field).value, field, v);
    }
  }

  lemma {:induction false} ParseShape(value: string, c: CronExpression)
    returns (expression: string, fields: seq<string>)
    requires Parse(value) == Ok(c)
    ensures |fields| == 5 && ParseFields(expression, fields) == Ok(c)
  {
    expression := Expand(Strip(value));
    fields := SplitFields(expression);
  }

  predicate DayMatches(c: CronExpression, m: Moment) {
    var dom := m.day in c.daysOfMonth;
    var dow := (m.weekday + 1) % 7 in c.daysOfWeek;
    if c.dayOfMonthWildcard || c.dayOfWeekWildcard then dom && dow else dom || dow
  }

  /**
   * The POSIX `crontab` utility's rule: a `*` day field leaves the other to decide, and two restricted
   * day fields match when either does.
   */
  ghost predicate PosixDay(dayStar: bool, weekdayStar: bool, day: bool, weekday: bool) {
    if dayStar then weekdayStar || weekday
    else if weekdayStar then day
    else day || weekday
  }

  ghost predicate FollowsPosix(c: CronExpression, m: Moment) {
    DayMatches(c, m) <==>
    PosixDay(c.dayOfMonthWildcard, c.dayOfWeekWildcard, m.day in c.daysOfMonth, (m.weekday + 1) % 7 in c.daysOfWeek)
  }

  lemma {:induction false} ParsedDaysFollowPosix(c: CronExpression, expression: string, fields: seq<string>, m: Moment)
    requires |fields| == 5 && ParseFields(expression, fields) == Ok(c)
    requires ValidMoment(m)
    ensures FollowsPosix(c, m)
  {
    StarIsEverything(Day);
    StarIsEverything(Weekday);
  }

  lemma {:induction false} DayRule(value: string, m: Moment)
    requires ValidMoment(m)
    ensures Parse(value).Ok? ==> FollowsPosix(Parse(value).value, m)
  {
    if Parse(value).Ok? {
      var expression, fields := ParseShape(value, Parse(value).value);
      ParsedDaysFollowPosix(Parse(value).value, expression, fields, m);
    }
  }

  /** Every field of an accepted expression is non-empty and within its calendar bounds; Sunday is only 0. */
  ghost predicate InCalendarBounds(c: CronExpression) {
    && c.minutes != {} && (forall v | v in c.minutes :: 0 <= v <= 59)
    && c.hours != {} && (forall v | v in c.hours :: 0 <= v <= 23)
    && c.daysOfMonth != {} && (forall v | v in c.daysOfMonth :: 1 <= v <= 31)
    && c.months != {} && (forall v | v in c.months :: 1 <= v <= 12)
    && c.daysOfWeek != {} && (forall v | v in c.daysOfWeek :: 0 <= v <= 6)
  }

  lemma {:induction false} FieldsInBounds(c: CronExpression, expression: string, fields: seq<string>)
    requires |fields| == 5 && ParseFields(expression, fields) == Ok(c)
    ensures InCalendarBounds(c)
  {
    hide FieldValues;
    FieldInBounds(fields[0], Minute);
    FieldInBounds(fields[1], Hour);
    FieldInBounds(fields[2], Day);
    FieldInBounds(fields[3], Month);
    FieldInBounds(fields[4], Weekday);
  }

  lemma {:induction false} ParsedFieldsInBounds(value: string)
    ensures Parse(value).Ok? ==> InCalendarBounds(Parse(value).value)
  {
    if Parse(value).Ok? {
      var expression, fields := ParseShape(value, Parse(value).value);
      FieldsInBounds(Parse(value).value, expression, fields);
    }
  }
}
