/** What a cron text says, from its characters to the moments at which it is due. */
module CronLaws {
  import opened Models
  import opened Cron
  import opened Schedules

  // ----- numbers and names -----

  function PowerOfTen(n: nat): nat {
    if n == 0 then 1 else 10 * PowerOfTen(n - 1)
  }

  /** A numeral is worth its first digit times the power of ten of the rest, plus the rest. */
  lemma {:induction false} NumeralValue(s: string)
    requires AllDigits(s)
    ensures |s| == 1 ==> ToNat(s) == s[0] as int - 48
    ensures |s| > 1 ==> ToNat(s) == (s[0] as int - 48) * PowerOfTen(|s| - 1) + ToNat(s[1..])
  {
    var n := |s| - 1;
    if n == 0 {
      assert s[..0] == "";
    } else {
      NumeralValue(s[..n]);
      assert s[..n][1..] == s[1..][..n - 1] && s[1..][n - 1] == s[n] && s[..n][0] == s[0];
      assert AllDigits(s[1..]);
      var d, first := DigitValue(s[n]), s[0] as int - 48;
      assert ToNat(s) == ToNat(s[..n]) * 10 + d;
      assert ToNat(s[1..]) == ToNat(s[..n][1..]) * 10 + d;
      hide ToNat, DigitValue, AllDigits;
      if n == 1 {
        EmptyNumeral();
      } else {
        ShiftDigits(first, PowerOfTen(n - 1), ToNat(s[..n][1..]), d);
      }
    }
  }

  lemma EmptyNumeral()
    ensures ToNat("") == 0 && PowerOfTen(1) == 10
  {
  }

  lemma ShiftDigits(first: int, power: int, rest: int, last: int)
    ensures (first * power + rest) * 10 + last == first * (10 * power) + (rest * 10 + last)
  {
  }

  function Numeral(n: nat): (s: string)
    ensures AllDigits(s)
  {
    if n < 10 then [(n + 48) as char] else Numeral(n / 10) + [(n % 10 + 48) as char]
  }

  lemma {:induction false} NumeralReadsBack(n: nat)
    ensures ToNat(Numeral(n)) == n
  {
    if n < 10 {
      assert Numeral(n)[..0] == "";
    } else {
      NumeralReadsBack(n / 10);
      var s := Numeral(n);
      assert s[..|s| - 1] == Numeral(n / 10);
    }
  }

  const MONTHS := ["jan", "feb", "mar", "apr", "may", "jun", "jul", "aug", "sep", "oct", "nov", "dec"]
  const DAYS := ["sun", "mon", "tue", "wed", "thu", "fri", "sat"]

  /** January is 1 and December 12, and nothing else names a month. */
  lemma MonthNames(text: string)
    ensures forall i | 0 <= i < 12 :: MonthNumber(MONTHS[i]) == Some(i + 1)
    ensures MonthNumber(text).Some? <==> text in MONTHS
  {
  }

  /** Sunday is 0 and Saturday 6, and nothing else names a weekday. */
  lemma DayNames(text: string)
    ensures forall i | 0 <= i < 7 :: WeekdayNumber(DAYS[i]) == Some(i)
    ensures WeekdayNumber(text).Some? <==> text in DAYS
  {
  }

  /** The bounds of each field, and the number a weekday 7 stands for. */
  lemma FieldBounds()
    ensures Minute.Minimum() == Hour.Minimum() == Weekday.Minimum() == 0 && Day.Minimum() == Month.Minimum() == 1
    ensures Minute.Maximum() == 59 && Hour.Maximum() == 23 && Day.Maximum() == 31 && Month.Maximum() == 12
    ensures Weekday.Maximum() == 7 && Weekday.Fold(7) == 0
    ensures forall f: Field, v | f.Minimum() <= v < 7 || (!f.Weekday? && 7 <= v) :: f.Fold(v) == v
  {
  }

  // ----- words -----

  ghost predicate IsWord(s: string) {
    s != "" && forall i | 0 <= i < |s| :: !IsSpace(s[i])
  }

  ghost predicate IsBlank(s: string) {
    forall i | 0 <= i < |s| :: IsSpace(s[i])
  }

  lemma {:induction false} StripLeftBlank(blank: string, rest: string)
    requires IsBlank(blank) && (rest == "" || !IsSpace(rest[0]))
    ensures StripLeft(blank + rest) == rest
  {
    if blank == "" {
      assert blank + rest == rest;
    } else {
      assert (blank + rest)[1..] == blank[1..] + rest;
      StripLeftBlank(blank[1..], rest);
    }
  }

  lemma {:induction false} StripRightBlank(rest: string, blank: string)
    requires IsBlank(blank) && (rest == "" || !IsSpace(rest[|rest| - 1]))
    ensures StripRight(rest + blank) == rest
  {
    if blank == "" {
      assert rest + blank == rest;
    } else {
      var n := |blank| - 1;
      assert (rest + blank)[..|rest + blank| - 1] == rest + blank[..n];
      StripRightBlank(rest, blank[..n]);
    }
  }

  lemma {:induction false} StripsBlanks(before: string, core: string, after: string)
    requires IsBlank(before) && IsBlank(after)
    requires core != "" && !IsSpace(core[0]) && !IsSpace(core[|core| - 1])
    ensures Strip(before + core + after) == core
  {
    assert before + core + after == before + (core + after);
    StripLeftBlank(before, core + after);
    StripRightBlank(core, after);
  }

  lemma {:induction false} WordEnds(word: string, rest: string)
    requires IsWord(word) && (rest == "" || IsSpace(rest[0]))
    ensures WordLength(word + rest) == |word|
  {
    assert (word + rest)[1..] == word[1..] + rest;
    if |word| > 1 {
      WordEnds(word[1..], rest);
    } else {
      assert word[1..] + rest == rest;
    }
  }

  /** A word and what follows it after some space. */
  lemma {:induction false} FirstField(blank: string, word: string, rest: string)
    requires IsBlank(blank) && IsWord(word) && (rest == "" || IsSpace(rest[0]))
    ensures SplitFields(blank + (word + rest)) == [word] + SplitFields(rest)
  {
    StripLeftBlank(blank, word + rest);
    WordEnds(word, rest);
    assert (word + rest)[..|word|] == word && (word + rest)[|word|..] == rest;
  }

  /** Five words, each separated from the next by some space. */
  datatype Line = Line(words: seq<string>, gaps: seq<string>) {
    ghost predicate Valid() {
      && |words| == 5 && |gaps| == 4
      && (forall i | 0 <= i < 5 :: IsWord(words[i]))
      && (forall i | 0 <= i < 4 :: gaps[i] != "" && IsBlank(gaps[i]))
    }

    function Tail(i: nat): string
      requires |words| == 5 && |gaps| == 4 && i < 5
      decreases 5 - i
    {
      words[i] + if i == 4 then "" else gaps[i] + Tail(i + 1)
    }

    function Text(): string
      requires |words| == 5 && |gaps| == 4
    {
      Tail(0)
    }
  }

  lemma {:induction false} LineSplits(l: Line, i: nat, blank: string)
    requires l.Valid() && i < 5 && IsBlank(blank)
    ensures SplitFields(blank + l.Tail(i)) == l.words[i..]
    decreases 5 - i
  {
    if i == 4 {
      FirstField(blank, l.words[4], "");
      assert SplitFields("") == [];
    } else {
      FirstField(blank, l.words[i], l.gaps[i] + l.Tail(i + 1));
      LineSplits(l, i + 1, l.gaps[i]);
      assert l.words[i..] == [l.words[i]] + l.words[i + 1..];
    }
  }

  lemma {:induction false} TailEnds(l: Line, i: nat)
    requires l.Valid() && i < 5
    ensures var t := l.Tail(i);
            t != "" && !IsSpace(t[0]) && !IsSpace(t[|t| - 1])
    decreases 5 - i
  {
    if i < 4 {
      TailEnds(l, i + 1);
      var t := l.Tail(i + 1);
      assert l.Tail(i) == l.words[i] + (l.gaps[i] + t);
      assert l.Tail(i)[|l.Tail(i)| - 1] == t[|t| - 1];
    } else {
      assert l.Tail(4) == l.words[4];
    }
  }

  lemma AliasIsOneWord(text: string, i: nat)
    requires Alias(text).Some? && i < |text|
    ensures !IsSpace(text[i])
  {
  }

  lemma {:induction false} LineIsNoAlias(l: Line)
    requires l.Valid()
    ensures Expand(l.Text()) == l.Text()
  {
    var k := |l.words[0]|;
    assert l.Text()[k] == l.gaps[0][0];
    var c := l.Text()[k];
    assert Lower(l.Text())[k] == LowerChar(c) == c;
    if Alias(Lower(l.Text())).Some? {
      AliasIsOneWord(Lower(l.Text()), k);
    }
  }

  // ----- when a line is due -----

  /** The word is an accepted field and the value is one of those it names. */
  ghost predicate Says(word: string, field: Field, v: int) {
    FieldValues(word, field).Ok? && v in FieldValues(word, field).value
  }

  ghost predicate Accepted(l: Line)
    requires |l.words| == 5
  {
    && FieldValues(l.words[0], Minute).Ok? && FieldValues(l.words[1], Hour).Ok? && FieldValues(l.words[2], Day).Ok?
    && FieldValues(l.words[3], Month).Ok? && FieldValues(l.words[4], Weekday).Ok?
  }

  /** Sunday, the moment's 6, is cron's 0. */
  function CronWeekday(m: Moment): int {
    if m.weekday == 6 then 0 else m.weekday + 1
  }

  /** Space around a line does not matter, and its words are its fields. */
  lemma {:induction false} LineIsParsed(l: Line, before: string, after: string)
    requires l.Valid() && IsBlank(before) && IsBlank(after)
    ensures Strip(before + l.Text() + after) == l.Text() && l.Text() != ""
    ensures Parse(before + l.Text() + after) == ParseFields(l.Text(), l.words)
  {
    TailEnds(l, 0);
    StripsBlanks(before, l.Text(), after);
    LineIsNoAlias(l);
    LineSplits(l, 0, "");
    assert "" + l.Tail(0) == l.Text() && l.words[0..] == l.words;
    hide Strip, SplitFields, Expand, IsWord, IsBlank, ParseFields;
  }

  /**
   * A stored line is due if and only if its words are accepted, the first names the minute, the second the hour,
   * the fourth the month, and the day rule holds of the third and the fifth.
   */
  lemma {:induction false} LineIsDueExactly(l: Line, before: string, after: string, m: Moment)
    requires l.Valid() && IsBlank(before) && IsBlank(after) && ValidMoment(m)
    ensures IsDue(Some(before + l.Text() + after), m) <==>
            && Accepted(l)
            && Says(l.words[0], Minute, m.minute) && Says(l.words[1], Hour, m.hour) && Says(l.words[3], Month, m.month)
            && PosixDay(l.words[2] == "*", l.words[4] == "*", Says(l.words[2], Day, m.day),
                        Says(l.words[4], Weekday, CronWeekday(m)))
  {
    var value := before + l.Text() + after;
    LineIsParsed(l, before, after);
    DayRule(value, m);
    assert IsDue(Some(value), m) <==> Parse(value).Ok? && Matches(Parse(value).value, m);
    FieldsAreDue(l.words, l.Text(), m);
  }

  lemma {:induction false} FieldsAreDue(words: seq<string>, text: string, m: Moment)
    requires |words| == 5 && ValidMoment(m)
    requires ParseFields(text, words).Ok? ==> FollowsPosix(ParseFields(text, words).value, m)
    ensures ParseFields(text, words).Ok? <==> Accepted(Line(words, []))
    ensures Accepted(Line(words, [])) ==>
              (Matches(ParseFields(text, words).value, m) <==>
               && Says(words[0], Minute, m.minute) && Says(words[1], Hour, m.hour) && Says(words[3], Month, m.month)
               && PosixDay(words[2] == "*", words[4] == "*", Says(words[2], Day, m.day),
                           Says(words[4], Weekday, CronWeekday(m))))
  {
    hide FieldValues;
    assert (m.weekday + 1) % 7 == CronWeekday(m);
  }

  // ----- what a word says -----

  lemma SplitHead(x: char, s: string, c: char)
    ensures SplitOn([x] + s, c) ==
            if x == c then [""] + SplitOn(s, c) else [[x] + SplitOn(s, c)[0]] + SplitOn(s, c)[1..]
  {
    assert ([x] + s)[1..] == s;
  }

  /** Lists add up. */
  lemma {:induction false} SplitOnConcat(a: string, b: string, c: char)
    ensures SplitOn(a + [c] + b, c) == SplitOn(a, c) + SplitOn(b, c)
  {
    if a == "" {
      SplitHead(c, b, c);
      assert a + [c] + b == [c] + b;
    } else {
      var left, right := SplitOn(a[1..], c), SplitOn(b, c);
      SplitOnConcat(a[1..], b, c);
      SplitHead(a[0], a[1..], c);
      SplitHead(a[0], a[1..] + [c] + b, c);
      hide SplitOn;
      HeadOfText(a, [c], b);
      JoinLists([""], left, right);
      JoinLists([[a[0]] + left[0]], left, right);
    }
  }

  lemma HeadOfText(a: string, c: string, b: string)
    requires a != ""
    ensures a == [a[0]] + a[1..] && a + c + b == [a[0]] + (a[1..] + c + b)
  {
  }

  lemma JoinLists(head: seq<string>, left: seq<string>, right: seq<string>)
    requires left != []
    ensures head + (left + right) == head + left + right
    ensures (left + right)[0] == left[0] && head + (left + right)[1..] == head + left[1..] + right
  {
    assert (left + right)[1..] == left[1..] + right;
  }

  lemma {:induction false} UnionHead(x: string, rest: seq<string>, field: Field)
    requires UnionOfParts(rest, field).Ok?
    ensures UnionOfParts([x] + rest, field).Ok? <==> ParsePart(x, field).Ok?
    ensures ParsePart(x, field).Ok? ==>
              UnionOfParts([x] + rest, field) ==
              Ok(PartValues(ParsePart(x, field).value, field) + UnionOfParts(rest, field).value)
  {
    hide ParsePart, PartValues;
    assert ([x] + rest)[1..] == rest;
  }

  lemma {:induction false} UnionConcat(a: seq<string>, b: seq<string>, field: Field)
    requires UnionOfParts(a, field).Ok? && UnionOfParts(b, field).Ok?
    ensures UnionOfParts(a + b, field) == Ok(UnionOfParts(a, field).value + UnionOfParts(b, field).value)
  {
    hide ParsePart, PartValues;
    if a == [] {
      assert a + b == b;
      assert {} + UnionOfParts(b, field).value == UnionOfParts(b, field).value;
    } else {
      assert UnionOfParts(a[1..], field).Ok? && ParsePart(a[0], field).Ok?;
      UnionConcat(a[1..], b, field);
      UnionHead(a[0], a[1..], field);
      UnionHead(a[0], a[1..] + b, field);
      hide UnionOfParts;
      assert a == [a[0]] + a[1..] && a + b == [a[0]] + (a[1..] + b);
      var x, y, z := PartValues(ParsePart(a[0], field).value, field), UnionOfParts(a[1..], field).value,
        UnionOfParts(b, field).value;
      assert x + (y + z) == x + y + z;
    }
  }

  lemma {:induction false} LowerJoin(a: string, b: string)
    ensures Lower(a + "," + b) == Lower(a) + [','] + Lower(b)
  {
    assert forall i | 0 <= i < |a| :: (a + "," + b)[i] == a[i];
    assert forall i | 0 <= i < |b| :: (a + "," + b)[|a| + 1 + i] == b[i];
  }

  /** Two accepted words joined by a comma name what either names. */
  lemma {:induction false} ListIsUnion(a: string, b: string, field: Field)
    requires FieldValues(a, field).Ok? && FieldValues(b, field).Ok?
    ensures FieldValues(a + "," + b, field) == Ok(FieldValues(a, field).value + FieldValues(b, field).value)
  {
    LowerJoin(a, b);
    hide SplitOn, UnionOfParts, Lower;
    SplitOnConcat(Lower(a), Lower(b), ',');
    UnionConcat(SplitOn(Lower(a), ','), SplitOn(Lower(b), ','), field);
  }

  /** Text that the parser takes character by character: no separators and no capitals. */
  ghost predicate IsPlain(s: string) {
    s != "" && forall i | 0 <= i < |s| :: s[i] !in {',', '/', '-', '*'} && LowerChar(s[i]) == s[i]
  }

  lemma {:induction false} NotFound(s: string, c: char)
    requires forall i | 0 <= i < |s| :: s[i] != c
    ensures Find(s, c) == None
  {
    if s != "" {
      NotFound(s[1..], c);
    }
  }

  lemma {:induction false} FoundAfter(a: string, c: char, b: string)
    requires forall i | 0 <= i < |a| :: a[i] != c
    ensures Find(a + [c] + b, c) == Some(|a|)
    ensures (a + [c] + b)[..|a|] == a && (a + [c] + b)[|a| + 1..] == b
  {
    if a != "" {
      assert (a + [c] + b)[1..] == a[1..] + [c] + b;
      FoundAfter(a[1..], c, b);
    }
  }

  lemma {:induction false} NotSplit(s: string, c: char)
    requires forall i | 0 <= i < |s| :: s[i] != c
    ensures SplitOn(s, c) == [s]
  {
    if s != "" {
      NotSplit(s[1..], c);
      assert [s[0]] + s[1..] == s;
    }
  }

  /** A word without commas or capitals is one part. */
  lemma {:induction false} OnePart(s: string, field: Field)
    requires s != "" && forall i | 0 <= i < |s| :: s[i] != ',' && LowerChar(s[i]) == s[i]
    requires ParsePart(s, field).Ok?
    ensures FieldValues(s, field) == Ok(PartValues(ParsePart(s, field).value, field))
  {
    assert Lower(s) == s;
    NotSplit(s, ',');
    hide ParsePart, PartValues, SplitOn, Lower;
    assert [s][1..] == [] && [s][0] == s;
    assert UnionOfParts([s][1..], field) == Ok({});
    var x := PartValues(ParsePart(s, field).value, field);
    assert x + {} == x;
  }

  /** The text stands for the number: as its numeral, or as the name of a month or a weekday. */
  ghost predicate Reads(text: string, field: Field, v: int) {
    || (v >= 0 && text == Numeral(v))
    || (field.Month? && 1 <= v <= 12 && text == MONTHS[v - 1])
    || (field.Weekday? && 0 <= v <= 6 && text == DAYS[v])
  }

  lemma NumeralIsPlain(n: nat)
    ensures IsPlain(Numeral(n))
    ensures MonthNumber(Numeral(n)).None? && WeekdayNumber(Numeral(n)).None?
  {
    assert IsDigit(Numeral(n)[0]);
  }

  lemma NamesArePlain(field: Field, v: int)
    ensures 1 <= v <= 12 ==> IsPlain(MONTHS[v - 1])
    ensures 0 <= v <= 6 ==> IsPlain(DAYS[v])
  {
  }

  ghost predicate InBounds(field: Field, v: int) {
    field.Minimum() <= v <= field.Maximum()
  }

  lemma {:induction false} NumberOf(text: string, field: Field, v: int)
    requires Reads(text, field, v)
    ensures IsPlain(text) && (field.Named(text).Some? || AllDigits(text))
    ensures v == if field.Named(text).Some? then field.Named(text).value else ToNat(text)
  {
    if v >= 0 && text == Numeral(v) {
      NumeralIsPlain(v);
      NumeralReadsBack(v);
    } else if field.Month? {
      NamesArePlain(field, v);
      MonthNames(text);
    } else {
      NamesArePlain(field, v);
      DayNames(text);
    }
  }

  /** Such a text is read as its number, if that is within the field's bounds; weekday 7 alone is Sunday. */
  lemma {:induction false} ValueIsRead(text: string, field: Field, v: int)
    requires Reads(text, field, v)
    ensures IsPlain(text)
    ensures ParseValue(text, field, false).Ok? <==> InBounds(field, v)
    ensures ParseValue(text, field, true).Ok? <==> InBounds(field, v)
    ensures InBounds(field, v) ==>
              && ParseValue(text, field, false) == Ok(v)
              && ParseValue(text, field, true) == Ok(if field.Weekday? && v == 7 then 0 else v)
  {
    NumberOf(text, field, v);
    hide Numeral, ToNat, IsPlain, Reads, AllDigits, MonthNumber, WeekdayNumber;
  }

  /** A single value names itself. */
  lemma {:induction false} ValueSays(text: string, field: Field, v: int)
    requires Reads(text, field, v) && InBounds(field, v)
    ensures FieldValues(text, field) == Ok({if field.Weekday? && v == 7 then 0 else v})
  {
    ValueIsRead(text, field, v);
    NotFound(text, '/');
    NotFound(text, '-');
    OneIsStep();
    assert text != "*";
    hide ParseValue, Find, Reads, Numeral, ToNat, AllDigits;
    OnePart(text, field);
  }

  lemma OneIsStep()
    ensures AllDigits("1") && ToNat("1") == 1
  {
    assert "1"[..0] == "";
  }

  ghost predicate Multiple(d: int, step: int) {
    exists k: nat :: d == k * step
  }

  /** What a range names: its values at whole steps from its start, weekday 7 as 0. */
  ghost predicate OnSteps(field: Field, start: int, end: int, step: int, v: int) {
    exists x :: x <= end && Multiple(x - start, step) && v == field.Fold(x)
  }

  lemma {:induction false} SteppedSays(field: Field, start: int, end: int, step: int, v: int)
    requires step >= 1
    ensures v in PartValues(Stepped(start, end, step), field) <==> OnSteps(field, start, end, step, v)
  {
    PartMeaning(Stepped(start, end, step), field, v);
    hide StepValues;
    if k: nat :| InRange(start, end, step, k) && v == field.Fold(start + k * step) {
      assert Multiple(start + k * step - start, step);
    }
    if x :| x <= end && Multiple(x - start, step) && v == field.Fold(x) {
      var k: nat :| x - start == k * step;
      assert InRange(start, end, step, k) && start + k * step == x;
    }
  }

  /** A base, with `/` and a step or without, where no step means 1. */
  function WithStep(base: string, step: Option<nat>): string {
    if step.Some? then base + "/" + Numeral(step.value) else base
  }

  function StepOf(step: Option<nat>): nat {
    if step.Some? then step.value else 1
  }

  /** What the parser makes of the text around the slash. */
  lemma {:induction false} StepIsRead(base: string, step: Option<nat>)
    requires base != "" && forall i | 0 <= i < |base| :: base[i] != '/'
    ensures var part, slash := WithStep(base, step), Find(WithStep(base, step), '/');
            && part != ""
            && (if slash.Some? then part[..slash.value] else part) == base
            && (var text := if slash.Some? then part[slash.value + 1..] else "1";
                AllDigits(text) && ToNat(text) == StepOf(step))
            && (slash.Some? <==> step.Some?)
  {
    if step.Some? {
      FoundAfter(base, '/', Numeral(step.value));
      NumeralReadsBack(step.value);
      assert base + "/" + Numeral(step.value) == base + ['/'] + Numeral(step.value);
    } else {
      NotFound(base, '/');
      OneIsStep();
    }
  }

  lemma {:induction false} StepIsPlain(base: string, step: Option<nat>)
    requires base != "" && forall i | 0 <= i < |base| :: base[i] != ',' && LowerChar(base[i]) == base[i]
    ensures var s := WithStep(base, step);
            s != "" && forall i | 0 <= i < |s| :: s[i] != ',' && LowerChar(s[i]) == s[i]
  {
    if step.Some? {
      NumeralIsPlain(step.value);
    }
  }

  /** A star names the whole field, at whole steps from its least value. */
  lemma {:induction false} StarSays(field: Field, step: Option<nat>, v: int)
    requires StepOf(step) >= 1
    ensures FieldValues(WithStep("*", step), field).Ok?
    ensures v in FieldValues(WithStep("*", step), field).value <==>
            OnSteps(field, field.Minimum(), field.Maximum(), StepOf(step), v)
  {
    StepIsRead("*", step);
    StepIsPlain("*", step);
    assert ParsePart(WithStep("*", step), field) == Ok(Stepped(field.Minimum(), field.Maximum(), StepOf(step)));
    hide ParsePart, WithStep;
    OnePart(WithStep("*", step), field);
    SteppedSays(field, field.Minimum(), field.Maximum(), StepOf(step), v);
  }

  lemma {:induction false} RangeIsRead(a: string, b: string, field: Field, start: int, end: int)
    requires Reads(a, field, start) && Reads(b, field, end)
    ensures var base := a + "-" + b;
            && base != "" && base != "*" && Find(base, '-') == Some(|a|)
            && base[..|a|] == a && base[|a| + 1..] == b
            && forall i | 0 <= i < |base| :: base[i] !in {'/', ','} && LowerChar(base[i]) == base[i]
  {
    ValueIsRead(a, field, start);
    ValueIsRead(b, field, end);
    FoundAfter(a, '-', b);
    assert a + "-" + b == a + ['-'] + b;
  }

  lemma {:induction false} RangePart(part: string, base: string, step: nat, dash: nat, field: Field)
    requires var slash := Find(part, '/');
             && part != ""
             && (if slash.Some? then part[..slash.value] else part) == base
             && var text := if slash.Some? then part[slash.value + 1..] else "1";
                AllDigits(text) && ToNat(text) == step
    requires step >= 1 && base != "*" && Find(base, '-') == Some(dash)
    ensures var a, b := ParseValue(base[..dash], field, false), ParseValue(base[dash + 1..], field, false);
            && (a.Ok? && b.Ok? && a.value <= b.value ==> ParsePart(part, field) == Ok(Stepped(a.value, b.value, step)))
            && (a.Err? || b.Err? || a.value > b.value ==> ParsePart(part, field).Err?)
  {
    hide ParseValue, Find, AllDigits, ToNat;
  }

  /** A range names its values at whole steps; one that runs backwards or leaves the bounds is refused. */
  lemma {:induction false} RangeSays(a: string, b: string, field: Field, start: int, end: int, step: Option<nat>,
                                     v: int)
    requires Reads(a, field, start) && Reads(b, field, end) && StepOf(step) >= 1
    ensures InBounds(field, start) && InBounds(field, end) && start <= end ==>
              && FieldValues(WithStep(a + "-" + b, step), field).Ok?
              && (v in FieldValues(WithStep(a + "-" + b, step), field).value <==>
                  OnSteps(field, start, end, StepOf(step), v))
    ensures !(InBounds(field, start) && InBounds(field, end) && start <= end) ==>
              ParsePart(WithStep(a + "-" + b, step), field).Err?
  {
    var base := a + "-" + b;
    RangeIsRead(a, b, field, start, end);
    ValueIsRead(a, field, start);
    ValueIsRead(b, field, end);
    StepIsRead(base, step);
    StepIsPlain(base, step);
    hide Reads, ParseValue, Find, WithStep, StepOf, AllDigits, ToNat, InBounds, ParsePart;
    RangePart(WithStep(base, step), base, StepOf(step), |a|, field);
    if InBounds(field, start) && InBounds(field, end) && start <= end {
      OnePart(WithStep(base, step), field);
      SteppedSays(field, start, end, StepOf(step), v);
    }
  }

  /** A single value takes no step. */
  lemma {:induction false} StepNeedsRange(text: string, field: Field, v: int, step: nat)
    requires Reads(text, field, v)
    ensures ParsePart(WithStep(text, Some(step)), field).Err?
  {
    ValueIsRead(text, field, v);
    NotFound(text, '-');
    StepIsRead(text, Some(step));
    assert text != "*";
    hide Reads, ParseValue, Find, WithStep, AllDigits, ToNat;
  }

  // ----- the aliases -----

  function Spaced(a: string, b: string, c: string, d: string, e: string): Line {
    Line([a, b, c, d, e], [" ", " ", " ", " "])
  }

  lemma {:induction false} SpacedText(a: string, b: string, c: string, d: string, e: string)
    ensures Spaced(a, b, c, d, e).Text() == a + " " + b + " " + c + " " + d + " " + e
  {
    var l := Spaced(a, b, c, d, e);
    assert l.Tail(4) == e;
    assert l.Tail(3) == d + " " + e;
    assert l.Tail(2) == c + " " + d + " " + e;
    assert l.Tail(1) == b + " " + c + " " + d + " " + e;
  }

  lemma {:induction false} FixedSays(field: Field, n: nat, v: int)
    requires n < 7 && InBounds(field, n)
    ensures Says(Numeral(n), field, v) <==> v == n
    ensures FieldValues(Numeral(n), field).Ok?
  {
    ValueSays(Numeral(n), field, n);
  }

  lemma {:induction false} StarSaysAll(field: Field, v: int)
    requires field.Minimum() <= v <= field.Top()
    ensures FieldValues("*", field).Ok? && Says("*", field, v)
  {
    StarIsEverything(field);
  }

  /** A schedule stored under an alias is due when the line it stands for is. */
  lemma {:induction false} AliasIsDue(value: string, l: Line, m: Moment)
    requires l.Valid() && Alias(Lower(Strip(value))) == Some(l.Text())
    ensures IsDue(Some(value), m) <==> IsDue(Some(l.Text()), m)
  {
    TailEnds(l, 0);
    StripsBlanks("", l.Text(), "");
    assert "" + l.Text() + "" == l.Text();
    LineIsNoAlias(l);
    AliasIsNotEmpty(Strip(value));
    hide Strip, SplitFields, ParseFields, Alias, Lower, IsWord, IsBlank, Matches;
    ExpandedParse(value, l.Text());
  }

  lemma AliasIsNotEmpty(text: string)
    requires Alias(Lower(text)).Some?
    ensures text != ""
  {
    assert Lower(text) != "";
  }

  lemma {:induction false} ExpandedParse(value: string, text: string)
    requires Strip(value) != "" && Expand(Strip(value)) == text
    requires text != "" && Strip(text) == text && Expand(text) == text
    ensures Parse(value) == Parse(text)
  {
    hide Strip, Expand, SplitFields, ParseFields;
  }

  /** Fixed words, or stars after them. */
  ghost predicate Fixed(word: string, n: nat) {
    word == "*" || word == Numeral(n)
  }

  lemma {:induction false} FixedWord(word: string, n: nat, field: Field, v: int)
    requires Fixed(word, n) && n < 7 && InBounds(field, n) && field.Minimum() <= v <= field.Top()
    ensures IsWord(word) && FieldValues(word, field).Ok?
    ensures Says(word, field, v) <==> word == "*" || v == n
  {
    if word == "*" {
      StarSaysAll(field, v);
    } else {
      NumeralIsPlain(n);
      FixedSays(field, n, v);
    }
  }

  /** A spaced line of numerals and stars, of which at most one day field is restricted. */
  lemma {:induction false} FixedLineIsDue(a: string, b: string, c: string, d: string, e: string, m: Moment)
    requires Fixed(a, 0) && Fixed(b, 0) && Fixed(c, 1) && Fixed(d, 1) && Fixed(e, 0)
    requires (c == "*" || e == "*") && ValidMoment(m)
    ensures Spaced(a, b, c, d, e).Valid()
    ensures IsDue(Some(Spaced(a, b, c, d, e).Text()), m) <==>
            && (a == "*" || m.minute == 0) && (b == "*" || m.hour == 0)
            && (c == "*" || m.day == 1) && (d == "*" || m.month == 1) && (e == "*" || m.weekday == 6)
  {
    hide Fixed, FieldValues, IsDue, Says, IsWord, Numeral;
    var l := Spaced(a, b, c, d, e);
    FixedWord(a, 0, Minute, m.minute);
    FixedWord(b, 0, Hour, m.hour);
    FixedWord(c, 1, Day, m.day);
    FixedWord(d, 1, Month, m.month);
    FixedWord(e, 0, Weekday, CronWeekday(m));
    assert l.words == [a, b, c, d, e];
    LineIsDueExactly(l, "", "", m);
    assert "" + l.Text() + "" == l.Text();
  }

  /** The aliases, in any case: the first minute of each hour, day, week from Sunday, month and year. */
  lemma {:induction false} AliasesAreDueExactly(value: string, m: Moment)
    requires ValidMoment(m)
    ensures var text, due, midnight := Lower(Strip(value)), IsDue(Some(value), m), m.minute == 0 && m.hour == 0;
            && (text == "@hourly" ==> (due <==> m.minute == 0))
            && (text in {"@daily", "@midnight"} ==> (due <==> midnight))
            && (text == "@weekly" ==> (due <==> midnight && m.weekday == 6))
            && (text == "@monthly" ==> (due <==> midnight && m.day == 1))
            && (text in {"@yearly", "@annually"} ==> (due <==> midnight && m.day == 1 && m.month == 1))
  {
    assert Numeral(0) == "0" && Numeral(1) == "1";
    AliasTexts();
    match Lower(Strip(value))
    case "@hourly" => AliasLine(value, "0", "*", "*", "*", "*", m);
    case "@daily" => AliasLine(value, "0", "0", "*", "*", "*", m);
    case "@midnight" => AliasLine(value, "0", "0", "*", "*", "*", m);
    case "@weekly" => AliasLine(value, "0", "0", "*", "*", "0", m);
    case "@monthly" => AliasLine(value, "0", "0", "1", "*", "*", m);
    case "@yearly" => AliasLine(value, "0", "0", "1", "1", "*", m);
    case "@annually" => AliasLine(value, "0", "0", "1", "1", "*", m);
    case _ =>
  }

  lemma AliasTexts()
    ensures "0" + " " + "*" + " " + "*" + " " + "*" + " " + "*" == "0 * * * *"
    ensures "0" + " " + "0" + " " + "*" + " " + "*" + " " + "*" == "0 0 * * *"
    ensures "0" + " " + "0" + " " + "*" + " " + "*" + " " + "0" == "0 0 * * 0"
    ensures "0" + " " + "0" + " " + "1" + " " + "*" + " " + "*" == "0 0 1 * *"
    ensures "0" + " " + "0" + " " + "1" + " " + "1" + " " + "*" == "0 0 1 1 *"
  {
  }

  lemma {:induction false} AliasLine(value: string, a: string, b: string, c: string, d: string, e: string, m: Moment)
    requires Fixed(a, 0) && Fixed(b, 0) && Fixed(c, 1) && Fixed(d, 1) && Fixed(e, 0)
    requires (c == "*" || e == "*") && ValidMoment(m)
    requires Alias(Lower(Strip(value))) == Some(a + " " + b + " " + c + " " + d + " " + e)
    ensures IsDue(Some(value), m) <==>
            && (a == "*" || m.minute == 0) && (b == "*" || m.hour == 0)
            && (c == "*" || m.day == 1) && (d == "*" || m.month == 1) && (e == "*" || m.weekday == 6)
  {
    SpacedText(a, b, c, d, e);
    FixedLineIsDue(a, b, c, d, e, m);
    AliasIsDue(value, Spaced(a, b, c, d, e), m);
  }

  // ----- what is stored -----

  /** An accepted line is stored without the space around it; any other is refused. */
  lemma {:induction false} LineIsStored(l: Line, before: string, after: string)
    requires l.Valid() && IsBlank(before) && IsBlank(after)
    ensures Accepted(l) ==> Validate(before + l.Text() + after) == Ok(l.Text())
    ensures !Accepted(l) ==> Validate(before + l.Text() + after).Err?
  {
    LineIsParsed(l, before, after);
    LineIsParsed(l, "", "");
    assert "" + l.Text() + "" == l.Text();
    hide Strip, Parse, FieldValues, IsWord, IsBlank;
  }

  /** An alias is stored as the line it stands for. */
  lemma {:induction false} AliasIsStored(value: string, l: Line)
    requires l.Valid() && Accepted(l) && Alias(Lower(Strip(value))) == Some(l.Text())
    ensures Validate(value) == Ok(l.Text())
  {
    AliasIsNotEmpty(Strip(value));
    StripIdempotent(value);
    LineIsParsed(l, "", "");
    assert "" + l.Text() + "" == l.Text();
    LineIsNoAlias(l);
    assert Expand(Strip(value)) == l.Text();
    hide Strip, SplitFields, Alias, Lower, IsWord, IsBlank, FieldValues, Expand;
    ExpandedParse(Strip(value), l.Text());
  }
}
