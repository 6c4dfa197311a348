/** The cron grammar. */
module CronFields {
  // The five-field cron grammar (src/evomesh/cron.py; INPUT FILES of the crontab utility in
  // IEEE Std 1003.1-2017): one field, a whole expression, and what a printed one parses to.

  import opened Text

  datatype Kind = Minute | Hour | DayOfMonth | Month | DayOfWeek

  datatype Parsed<+T> = Values(value: T) | Invalid

  function Low(kind: Kind): nat {
    if kind.DayOfMonth? || kind.Month? then 1 else 0
  }

  function High(kind: Kind): nat {
    match kind
    case Minute => 59
    case Hour => 23
    case DayOfMonth => 31
    case Month => 12
    case DayOfWeek => 7
  }

  // ---- splitting ----

  function IndexOf(s: string, c: char): (i: nat)
    ensures i <= |s| && (i < |s| ==> s[i] == c)
    ensures forall j :: 0 <= j < i ==> s[j] != c
  {
    if s == [] || s[0] == c then 0 else 1 + IndexOf(s[1..], c)
  }

  /** `s.split(c)`. */
  function SplitOn(s: string, c: char): (parts: seq<string>)
    ensures parts != []
  {
    if s == [] then [""]
    else if s[0] == c then [""] + SplitOn(s[1..], c)
    else
      var rest := SplitOn(s[1..], c);
      [[s[0]] + rest[0]] + rest[1..]
  }

  /** `c.join(parts)`. */
  function JoinOn(parts: seq<string>, c: char): string
    requires parts != []
  {
    if |parts| == 1 then parts[0] else parts[0] + [c] + JoinOn(parts[1..], c)
  }

  // ---- names ----

  function Upper(s: string): string {
    if s == [] then []
    else [if 'a' <= s[0] <= 'z' then 'A' + (s[0] - 'a') else s[0]] + Upper(s[1..])
  }

  function MonthCode(name: string): nat {
    if name == "JAN" then 1 else if name == "FAB" || name == "FEB" then 2 else if name == "MAR" then 3
    else if name == "APR" then 4 else if name == "MAY" then 5 else if name == "JUN" then 6
    else if name == "JUL" then 7 else if name == "AUG" then 8 else if name == "SEP" then 9
    else if name == "OCT" then 10 else if name == "NOV" then 11 else if name == "DEC" then 12
    else 13
  }

  function WeekdayCode(name: string): nat {
    if name == "MON" then 1 else if name == "TUE" || name == "TUES" then 2
    else if name == "WED" || name == "WEDS" then 3
    else if name == "THU" || name == "THUR" || name == "THURS" then 4
    else if name == "FRI" then 5 else if name == "SAT" || name == "SATU" then 6
    else if name == "SUN" then 0
    else 13
  }

  /** The number a name stands for in this field, as text, or the text itself. */
  function Coded(kind: Kind, segment: string): string {
    var code := if kind.Month? then MonthCode(Upper(segment)) else WeekdayCode(Upper(segment));
    if code < 13 then Decimal(code) else segment
  }

  function CodedAll(kind: Kind, segments: seq<string>): (r: seq<string>)
    ensures |r| == |segments|
  {
    if segments == [] then [] else [Coded(kind, segments[0])] + CodedAll(kind, segments[1..])
  }

  function Translated(kind: Kind, part: string): string {
    if kind.Month? || kind.DayOfWeek? then JoinOn(CodedAll(kind, SplitOn(part, '-')), '-') else part
  }

  // ---- one part of a field ----

  predicate IsNumber(s: string) {
    s != [] && AllDigits(s)
  }

  /** What comes before a part's step, and the step. */
  function Stepped(part: string): (r: Parsed<(string, nat)>)
    ensures r.Values? ==> r.value.1 > 0
  {
    var i := IndexOf(part, '/');
    if i == |part| then Values((part, 1))
    else
      var text := part[i + 1..];
      if IsNumber(text) && ParseNat(text) > 0 then Values((part[..i], ParseNat(text))) else Invalid
  }

  /** Where a part starts and ends. A single value with a step runs to the end of the field,
      which is Saturday for weekdays: 7 is Sunday again. */
  function Span(kind: Kind, part: string, step: nat): Parsed<(nat, nat)> {
    var i := IndexOf(part, '-');
    if part == "*" then Values((Low(kind), High(kind)))
    else if i < |part| then
      if IsNumber(part[..i]) && IsNumber(part[i + 1..]) then Values((ParseNat(part[..i]), ParseNat(part[i + 1..]))) else Invalid
    else if IsNumber(part) then
      Values((ParseNat(part), if step == 1 then ParseNat(part) else LastStep(kind)))
    else Invalid
  }

  function LastStep(kind: Kind): nat {
    if kind.DayOfWeek? then High(kind) - 1 else High(kind)
  }

  predicate OnStep(v: nat, start: nat, step: nat)
    requires step > 0
  {
    (v - start) % step == 0
  }

  /** `set(range(start, end + 1, step))`. */
  function Range(start: nat, end: nat, step: nat): set<nat>
    requires step > 0
  {
    set v: nat | start <= v <= end && OnStep(v, start, step)
  }

  function PartValues(kind: Kind, part: string): Parsed<set<nat>> {
    var stepped := Stepped(part);
    if stepped.Invalid? then Invalid
    else
      var span := Span(kind, Translated(kind, stepped.value.0), stepped.value.1);
      if span.Invalid? then Invalid
      else
        var (start, end) := span.value;
        if Low(kind) <= start <= end <= High(kind) then Values(Range(start, end, stepped.value.1)) else Invalid
  }

  function PartsValues(kind: Kind, parts: seq<string>): Parsed<set<nat>> {
    if parts == [] then Values({})
    else
      var first, rest := PartValues(kind, parts[0]), PartsValues(kind, parts[1..]);
      if first.Values? && rest.Values? then Values(first.value + rest.value) else Invalid
  }

  function FieldValues(kind: Kind, field: string): Parsed<set<nat>> {
    PartsValues(kind, SplitOn(field, ','))
  }

  lemma {:induction false} PartsAppendValues(kind: Kind, parts: seq<string>, last: string)
    ensures PartsValues(kind, parts + [last]) ==
      if PartsValues(kind, parts).Values? && PartValues(kind, last).Values?
      then Values(PartsValues(kind, parts).value + PartValues(kind, last).value) else Invalid
  {
    hide PartValues;
    var all := parts + [last];
    if parts == [] {
      assert all == [last] && all[1..] == [];
      var v := PartValues(kind, last);
      assert v.Values? ==> v.value + {} == v.value && {} + v.value == v.value;
    } else {
      PartsAppendValues(kind, parts[1..], last);
      assert all[1..] == parts[1..] + [last] && all[0] == parts[0];
      var a, b, c := PartValues(kind, parts[0]), PartsValues(kind, parts[1..]), PartValues(kind, last);
      assert a.Values? && b.Values? && c.Values? ==> a.value + (b.value + c.value) == (a.value + b.value) + c.value;
    }
  }

  lemma {:induction false} InvalidSpreads(kind: Kind, parts: seq<string>, i: nat)
    requires i < |parts| && PartValues(kind, parts[i]).Invalid?
    ensures PartsValues(kind, parts).Invalid?
  {
    hide PartValues;
    if i > 0 {
      InvalidSpreads(kind, parts[1..], i - 1);
    }
  }

  /** `_parse_field`: the set grown part by part, or the first thing wrong with the field. */
  method ParseField(kind: Kind, field: string) returns (r: Parsed<set<nat>>)
    ensures r == FieldValues(kind, field)
  {
    hide PartsValues, Translated, Range, ParseNat, AllDigits, SplitOn;
    var parts := SplitOn(field, ',');
    var values: set<nat> := {};
    var low, high := Low(kind), High(kind);
    var k := 0;
    NoParts(kind);
    assert parts[..0] == [];
    while k < |parts|
      invariant k <= |parts| && PartsValues(kind, parts[..k]) == Values(values)
    {
      var part, step := parts[k], 1;
      assert parts[..k + 1] == parts[..k] + [parts[k]];
      PartsAppendValues(kind, parts[..k], parts[k]);
      var slash := IndexOf(part, '/');
      if slash < |part| {
        var stepText := part[slash + 1..];
        part := part[..slash];
        if !IsNumber(stepText) || ParseNat(stepText) <= 0 {
          InvalidSpreads(kind, parts, k);
          return Invalid;
        }
        step := ParseNat(stepText);
      }
      part := Translated(kind, part);
      var start, end := low, high;
      var dash := IndexOf(part, '-');
      if part == "*" {
      } else if dash < |part| {
        var startText, endText := part[..dash], part[dash + 1..];
        if !(IsNumber(startText) && IsNumber(endText)) {
          InvalidSpreads(kind, parts, k);
          return Invalid;
        }
        start, end := ParseNat(startText), ParseNat(endText);
      } else if IsNumber(part) {
        start := ParseNat(part);
        if step > 1 {
          end := if kind.DayOfWeek? then high - 1 else high;
        } else {
          end := start;
        }
      } else {
        InvalidSpreads(kind, parts, k);
        return Invalid;
      }
      if !(low <= start <= high && low <= end <= high && start <= end) {
        InvalidSpreads(kind, parts, k);
        return Invalid;
      }
      values := values + Range(start, end, step);
      k := k + 1;
    }
    assert parts[..k] == parts;
    r := Values(values);
  }

  lemma NoParts(kind: Kind)
    ensures PartsValues(kind, []) == Values({})
  {
  }

  // ---- what a field can mean ----

  ghost predicate Within(kind: Kind, values: set<nat>) {
    values != {} && forall v :: v in values ==> Low(kind) <= v <= High(kind)
  }

  lemma RangeWithin(start: nat, end: nat, step: nat)
    requires start <= end && step > 0
    ensures start in Range(start, end, step)
    ensures forall v :: v in Range(start, end, step) ==> start <= v <= end
  {
    assert OnStep(start, start, step);
  }

  lemma PartWithin(kind: Kind, part: string)
    requires PartValues(kind, part).Values?
    ensures Within(kind, PartValues(kind, part).value)
  {
    hide Range, Translated, Span;
    var (rest, step) := Stepped(part).value;
    var (start, end) := Span(kind, Translated(kind, rest), step).value;
    RangeWithin(start, end, step);
  }

  lemma {:induction false} PartsWithin(kind: Kind, parts: seq<string>)
    requires parts != [] && PartsValues(kind, parts).Values?
    ensures Within(kind, PartsValues(kind, parts).value)
  {
    hide PartValues, Low, High;
    PartWithin(kind, parts[0]);
    if |parts| > 1 {
      PartsWithin(kind, parts[1..]);
    } else {
      assert parts[1..] == [];
    }
  }

  // ---- whole expressions ----

  /** What a parsed expression selects, and whether its day fields are wild. */
  datatype Schedule = Schedule(minutes: set<nat>, hours: set<nat>, days: set<nat>, months: set<nat>,
                               weekdays: set<nat>, domWild: bool, dowWild: bool)

  function WordLength(s: string): (n: nat)
    ensures n <= |s| && (n < |s| ==> IsSpace(s[n])) && forall i :: 0 <= i < n ==> !IsSpace(s[i])
  {
    if s == [] || IsSpace(s[0]) then 0 else 1 + WordLength(s[1..])
  }

  /** `expression.split()`. */
  function Words(s: string): seq<string>
    decreases |s|
  {
    if s == [] then []
    else if IsSpace(s[0]) then Words(s[1..])
    else
      var n := WordLength(s);
      assert n > 0;
      [s[..n]] + Words(s[n..])
  }

  function Folded(values: set<nat>): set<nat> {
    set v | v in values :: v % 7
  }

  /** `parse`, with what `next_after` reads off the day fields. */
  function Parse(expression: string): Parsed<Schedule> {
    var f := Words(expression);
    if |f| != 5 then Invalid
    else
      var minutes, hours, days := FieldValues(Minute, f[0]), FieldValues(Hour, f[1]), FieldValues(DayOfMonth, f[2]);
      var months, weekdays := FieldValues(Month, f[3]), FieldValues(DayOfWeek, f[4]);
      if minutes.Invalid? || hours.Invalid? || days.Invalid? || months.Invalid? || weekdays.Invalid? then Invalid
      else
        Values(Schedule(minutes.value, hours.value, days.value, months.value, Folded(weekdays.value),
                        f[2] == "*", f[4] == "*"))
  }

  /** A schedule as parsing yields one: every field selects something, all in range. */
  ghost predicate IsSchedule(s: Schedule) {
    && Within(Minute, s.minutes) && Within(Hour, s.hours) && Within(DayOfMonth, s.days) && Within(Month, s.months)
    && s.weekdays != {} && (forall w :: w in s.weekdays ==> w < 7)
  }

  /** Every expression that parses selects at least one value in every field, all in range. */
  lemma ParsedIsSchedule(expression: string)
    requires Parse(expression).Values?
    ensures IsSchedule(Parse(expression).value)
  {
    hide PartsValues, SplitOn, Words;
    var f := Words(expression);
    PartsWithin(Minute, SplitOn(f[0], ','));
    PartsWithin(Hour, SplitOn(f[1], ','));
    PartsWithin(DayOfMonth, SplitOn(f[2], ','));
    PartsWithin(Month, SplitOn(f[3], ','));
    PartsWithin(DayOfWeek, SplitOn(f[4], ','));
    var weekdays := FieldValues(DayOfWeek, f[4]).value;
    var v :| v in weekdays;
    assert v % 7 in Folded(weekdays);
  }

  /** `parse`. */
  method ParseExpression(expression: string) returns (r: Parsed<Schedule>)
    ensures r == Parse(expression)
  {
    hide FieldValues, Words;
    var fields := Words(expression);
    if |fields| != 5 {
      return Invalid;
    }
    var minutes := ParseField(Minute, fields[0]);
    var hours := ParseField(Hour, fields[1]);
    var days := ParseField(DayOfMonth, fields[2]);
    var months := ParseField(Month, fields[3]);
    var weekdays := ParseField(DayOfWeek, fields[4]);
    if minutes.Invalid? || hours.Invalid? || days.Invalid? || months.Invalid? || weekdays.Invalid? {
      return Invalid;
    }
    return Values(Schedule(minutes.value, hours.value, days.value, months.value, Folded(weekdays.value),
                           fields[2] == "*", fields[4] == "*"));
  }

  // ---- printing ----

  /** A part of a field as it is meant: the whole field, a range, or one value, stepped. */
  datatype Part = Every(step: nat) | Between(first: nat, last: nat, step: nat) | One(value: nat, step: nat)

  predicate PartOk(kind: Kind, p: Part) {
    && p.step > 0
    && match p
       case Every(_) => true
       case Between(first, last, _) => Low(kind) <= first <= last <= High(kind)
       case One(value, step) => Low(kind) <= value <= if step == 1 then High(kind) else LastStep(kind)
  }

  function Denotes(kind: Kind, p: Part): set<nat>
    requires PartOk(kind, p)
  {
    match p
    case Every(step) => Range(Low(kind), High(kind), step)
    case Between(first, last, step) => Range(first, last, step)
    case One(value, step) => if step == 1 then {value} else Range(value, LastStep(kind), step)
  }

  function Body(p: Part): string {
    match p
    case Every(_) => "*"
    case Between(first, last, _) => Decimal(first) + "-" + Decimal(last)
    case One(value, _) => Decimal(value)
  }

  function PrintPart(p: Part): string {
    if p.step == 1 then Body(p) else Body(p) + "/" + Decimal(p.step)
  }

  function PrintParts(parts: seq<Part>): seq<string> {
    if parts == [] then [] else [PrintPart(parts[0])] + PrintParts(parts[1..])
  }

  function PrintField(parts: seq<Part>): string
    requires parts != []
  {
    JoinOn(PrintParts(parts), ',')
  }

  function DenotesAll(kind: Kind, parts: seq<Part>): set<nat>
    requires forall p :: p in parts ==> PartOk(kind, p)
  {
    if parts == [] then {} else Denotes(kind, parts[0]) + DenotesAll(kind, parts[1..])
  }

  /** Characters a printed part is made of. */
  predicate Printable(c: char) {
    IsDigit(c) || c == '*' || c == '-' || c == '/'
  }

  lemma {:induction false} IndexOfIs(s: string, c: char, i: nat)
    requires i <= |s| && (i < |s| ==> s[i] == c) && forall j :: 0 <= j < i ==> s[j] != c
    ensures IndexOf(s, c) == i
  {
    if i > 0 {
      IndexOfIs(s[1..], c, i - 1);
    }
  }

  lemma {:induction false} SplitNone(s: string, c: char)
    requires forall j :: 0 <= j < |s| ==> s[j] != c
    ensures SplitOn(s, c) == [s]
  {
    if s != [] {
      SplitNone(s[1..], c);
      assert SplitOn(s[1..], c)[1..] == [];
      assert [s[0]] + s[1..] == s;
    }
  }

  lemma {:induction false} SplitFirst(a: string, c: char, rest: string)
    requires forall j :: 0 <= j < |a| ==> a[j] != c
    ensures SplitOn(a + [c] + rest, c) == [a] + SplitOn(rest, c)
  {
    var s := a + [c] + rest;
    if a == [] {
      assert s[0] == c && s[1..] == rest;
    } else {
      assert s[1..] == a[1..] + [c] + rest && s[0] == a[0];
      SplitFirst(a[1..], c, rest);
      var tail := SplitOn(s[1..], c);
      assert tail == [a[1..]] + SplitOn(rest, c);
      assert tail[1..] == SplitOn(rest, c);
      assert [a[0]] + a[1..] == a;
    }
  }

  /** Joining pieces free of the separator and splitting gives the pieces back. */
  lemma {:induction false} SplitJoinedOn(parts: seq<string>, c: char)
    requires parts != [] && forall i, j :: 0 <= i < |parts| && 0 <= j < |parts[i]| ==> parts[i][j] != c
    ensures SplitOn(JoinOn(parts, c), c) == parts
  {
    if |parts| == 1 {
      SplitNone(parts[0], c);
    } else {
      SplitJoinedOn(parts[1..], c);
      SplitFirst(parts[0], c, JoinOn(parts[1..], c));
    }
  }

  // ---- names leave numbers alone ----

  lemma {:induction false} UpperKeeps(s: string)
    ensures |Upper(s)| == |s|
    ensures forall i :: 0 <= i < |s| && !('a' <= s[i] <= 'z') ==> Upper(s)[i] == s[i]
  {
    if s != [] {
      UpperKeeps(s[1..]);
    }
  }

  lemma NamesStartWithLetters(name: string)
    ensures MonthCode(name) < 13 || WeekdayCode(name) < 13 ==> name != [] && 'A' <= name[0] <= 'Z'
  {
  }

  lemma CodedKeeps(kind: Kind, segment: string)
    requires segment == "*" || AllDigits(segment)
    ensures Coded(kind, segment) == segment
  {
    hide MonthCode, WeekdayCode;
    UpperKeeps(segment);
    NamesStartWithLetters(Upper(segment));
    if segment != [] {
      assert segment[0] in segment;
    }
  }

  lemma NoneInDigits(s: string, c: char)
    requires AllDigits(s) && !IsDigit(c)
    ensures forall j :: 0 <= j < |s| ==> s[j] != c
  {
  }

  lemma TranslatedOne(kind: Kind, segment: string)
    requires segment == "*" || AllDigits(segment)
    ensures Translated(kind, segment) == segment
  {
    hide AllDigits, Coded;
    if AllDigits(segment) {
      NoneInDigits(segment, '-');
    }
    SplitNone(segment, '-');
    CodedKeeps(kind, segment);
    assert CodedAll(kind, [segment]) == [Coded(kind, segment)];
  }

  lemma TranslatedTwo(kind: Kind, a: string, b: string)
    requires AllDigits(a) && AllDigits(b)
    ensures Translated(kind, a + "-" + b) == a + "-" + b
  {
    hide AllDigits, Coded;
    NoneInDigits(a, '-');
    NoneInDigits(b, '-');
    SplitFirst(a, '-', b);
    SplitNone(b, '-');
    CodedKeeps(kind, a);
    CodedKeeps(kind, b);
    var two := [a] + [b];
    assert two[1..] == [b] && CodedAll(kind, [b]) == [b];
    assert CodedAll(kind, two) == two;
    assert JoinOn(two, '-') == a + ['-'] + JoinOn([b], '-');
  }

  // ---- a printed field parses to what it means ----

  lemma BodyFacts(p: Part)
    ensures Body(p) != "" && forall j :: 0 <= j < |Body(p)| ==> Body(p)[j] != '/' && Printable(Body(p)[j])
  {
    hide Decimal;
    if p.Between? {
      NoneInDigits(Decimal(p.first), '/');
      NoneInDigits(Decimal(p.last), '/');
    } else if p.One? {
      NoneInDigits(Decimal(p.value), '/');
    }
  }

  lemma SteppedPrinted(p: Part)
    requires p.step > 0
    ensures Stepped(PrintPart(p)) == Values((Body(p), p.step))
  {
    hide Body, Decimal;
    BodyFacts(p);
    var body := Body(p);
    if p.step == 1 {
      IndexOfIs(body, '/', |body|);
    } else {
      var s := body + "/" + Decimal(p.step);
      assert forall j :: 0 <= j < |body| ==> s[j] == body[j];
      IndexOfIs(s, '/', |body|);
      assert s[..|body|] == body && s[|body| + 1..] == Decimal(p.step);
      ParseDecimal(p.step);
    }
  }

  lemma SpanPrinted(kind: Kind, p: Part)
    requires PartOk(kind, p)
    ensures Span(kind, Translated(kind, Body(p)), p.step) == Values(
      match p
      case Every(_) => (Low(kind), High(kind))
      case Between(first, last, _) => (first, last)
      case One(value, step) => (value, if step == 1 then value else LastStep(kind)))
  {
    hide Decimal, Translated, Low, High;
    match p
    case Every(_) => TranslatedOne(kind, "*");
    case Between(first, last, _) =>
      var a, b := Decimal(first), Decimal(last);
      TranslatedTwo(kind, a, b);
      SpanOfRange(kind, a, b, p.step);
      ParseDecimal(first);
      ParseDecimal(last);
    case One(value, _) =>
      TranslatedOne(kind, Decimal(value));
      SpanOfNumber(kind, Decimal(value), p.step);
      ParseDecimal(value);
  }

  lemma {:induction false} SpanOfRange(kind: Kind, a: string, b: string, step: nat)
    requires IsNumber(a) && IsNumber(b)
    ensures Span(kind, a + "-" + b, step) == Values((ParseNat(a), ParseNat(b)))
  {
    var s := a + "-" + b;
    NoneInDigits(a, '-');
    assert forall j :: 0 <= j < |a| ==> s[j] == a[j];
    IndexOfIs(s, '-', |a|);
    assert s[..|a|] == a && s[|a| + 1..] == b;
    assert |s| > 1;
  }

  lemma {:induction false} SpanOfNumber(kind: Kind, a: string, step: nat)
    requires IsNumber(a)
    ensures Span(kind, a, step) == Values((ParseNat(a), if step == 1 then ParseNat(a) else LastStep(kind)))
  {
    NoneInDigits(a, '-');
    NoneInDigits(a, '*');
    IndexOfIs(a, '-', |a|);
  }

  lemma PartPrinted(kind: Kind, p: Part)
    requires PartOk(kind, p)
    ensures PartValues(kind, PrintPart(p)) == Values(Denotes(kind, p))
  {
    hide Stepped, Span, Translated, Body, PrintPart;
    SteppedPrinted(p);
    SpanPrinted(kind, p);
    if p.One? && p.step == 1 {
      assert OnStep(p.value, p.value, 1);
      assert Range(p.value, p.value, 1) == {p.value};
    }
  }

  lemma PrintPartFacts(p: Part)
    ensures PrintPart(p) != "" && forall j :: 0 <= j < |PrintPart(p)| ==> Printable(PrintPart(p)[j])
  {
    hide Body, Decimal;
    BodyFacts(p);
    if p.step != 1 {
      assert forall c :: c in Decimal(p.step) ==> IsDigit(c);
    }
  }

  lemma {:induction false} PartsPrinted(kind: Kind, parts: seq<Part>)
    requires forall p :: p in parts ==> PartOk(kind, p)
    ensures PartsValues(kind, PrintParts(parts)) == Values(DenotesAll(kind, parts))
    ensures |PrintParts(parts)| == |parts| && forall i :: 0 <= i < |parts| ==> PrintParts(parts)[i] == PrintPart(parts[i])
  {
    hide PartValues, Denotes, PrintPart, PartOk;
    if parts != [] {
      PartPrinted(kind, parts[0]);
      PartsPrinted(kind, parts[1..]);
      assert PrintParts(parts)[1..] == PrintParts(parts[1..]);
    }
  }

  /** A printed field parses to exactly the values its parts mean. */
  lemma FieldPrinted(kind: Kind, parts: seq<Part>)
    requires parts != [] && forall p :: p in parts ==> PartOk(kind, p)
    ensures FieldValues(kind, PrintField(parts)) == Values(DenotesAll(kind, parts))
  {
    hide PartsValues, PrintPart, PartOk, DenotesAll, PrintParts;
    PartsPrinted(kind, parts);
    forall i, j | 0 <= i < |parts| && 0 <= j < |PrintParts(parts)[i]| ensures PrintParts(parts)[i][j] != ',' {
      PrintPartFacts(parts[i]);
    }
    SplitJoinedOn(PrintParts(parts), ',');
  }

  // ---- a printed expression ----

  datatype Expression = Expression(minute: seq<Part>, hour: seq<Part>, day: seq<Part>, month: seq<Part>, weekday: seq<Part>)

  ghost predicate FieldOk(kind: Kind, parts: seq<Part>) {
    parts != [] && forall p :: p in parts ==> PartOk(kind, p)
  }

  ghost predicate ExpressionOk(e: Expression) {
    && FieldOk(Minute, e.minute) && FieldOk(Hour, e.hour) && FieldOk(DayOfMonth, e.day)
    && FieldOk(Month, e.month) && FieldOk(DayOfWeek, e.weekday)
  }

  function Print(e: Expression): string
    requires ExpressionOk(e)
  {
    PrintField(e.minute) + " " + (PrintField(e.hour) + " " + (PrintField(e.day) + " " + (PrintField(e.month) + " " + PrintField(e.weekday))))
  }

  predicate Solid(s: string) {
    s != "" && forall i :: 0 <= i < |s| ==> !IsSpace(s[i])
  }

  lemma {:induction false} WordLengthIs(s: string, n: nat)
    requires n <= |s| && (n < |s| ==> IsSpace(s[n])) && forall i :: 0 <= i < n ==> !IsSpace(s[i])
    ensures WordLength(s) == n
  {
    hide IsSpace;
    if n > 0 {
      WordLengthIs(s[1..], n - 1);
    }
  }

  lemma LastWord(w: string)
    requires Solid(w)
    ensures Words(w) == [w]
  {
    hide IsSpace;
    WordLengthIs(w, |w|);
    assert w[..|w|] == w && w[|w|..] == "";
  }

  lemma FirstWord(w: string, rest: string)
    requires Solid(w)
    ensures Words(w + " " + rest) == [w] + Words(rest)
  {
    var s := w + " " + rest;
    WordLengthIs(s, |w|);
    assert s[..|w|] == w && s[|w|..] == " " + rest;
    assert (" " + rest)[1..] == rest;
  }

  lemma {:induction false} JoinSolid(parts: seq<string>, c: char)
    requires parts != [] && !IsSpace(c) && forall i :: 0 <= i < |parts| ==> Solid(parts[i])
    ensures Solid(JoinOn(parts, c))
  {
    hide IsSpace;
    if |parts| > 1 {
      JoinSolid(parts[1..], c);
      var first, rest := parts[0], JoinOn(parts[1..], c);
      assert Solid(first);
    }
  }

  lemma PrintedSolid(kind: Kind, parts: seq<Part>)
    requires FieldOk(kind, parts)
    ensures Solid(PrintField(parts))
  {
    hide PartsValues, PrintPart, PartOk, PrintParts, Denotes;
    PartsPrinted(kind, parts);
    forall i | 0 <= i < |parts| ensures Solid(PrintParts(parts)[i]) {
      PrintPartFacts(parts[i]);
      PrintablesSolid(PrintPart(parts[i]));
    }
    CommaIsNoSpace();
    JoinSolid(PrintParts(parts), ',');
  }

  lemma CommaIsNoSpace()
    ensures !IsSpace(',')
  {
  }

  lemma PrintablesSolid(s: string)
    requires s != "" && forall j :: 0 <= j < |s| ==> Printable(s[j])
    ensures Solid(s)
  {
  }

  /** Only the bare star prints as the star that makes a day field wild. */
  lemma WildPrinted(kind: Kind, parts: seq<Part>)
    requires FieldOk(kind, parts)
    ensures PrintField(parts) == "*" <==> parts == [Every(1)]
  {
    hide PartsValues, PartOk, PrintPart, PrintParts, SplitOn;
    PartsPrinted(kind, parts);
    var printed := PrintParts(parts);
    forall i, j | 0 <= i < |parts| && 0 <= j < |printed[i]| ensures printed[i][j] != ',' {
      PrintPartFacts(parts[i]);
    }
    SplitJoinedOn(printed, ',');
    StarPart(parts[0]);
    if PrintField(parts) == "*" {
      SplitNone("*", ',');
      assert printed == ["*"];
    }
    if parts == [Every(1)] {
      assert printed == ["*"];
    }
  }

  lemma StarPart(p: Part)
    ensures PrintPart(p) == "*" <==> p == Every(1)
  {
    hide Decimal;
    BodyFacts(p);
    match p
    case Every(_) =>
    case Between(first, last, _) => assert |Body(p)| >= 3;
    case One(value, _) => NoneInDigits(Decimal(value), '*');
  }

  /** A printed expression parses to exactly what its fields mean; a day field is wild just
      when it is a bare star. */
  lemma ExpressionPrinted(e: Expression)
    requires ExpressionOk(e)
    ensures Parse(Print(e)) == Values(Schedule(
      DenotesAll(Minute, e.minute), DenotesAll(Hour, e.hour), DenotesAll(DayOfMonth, e.day), DenotesAll(Month, e.month),
      Folded(DenotesAll(DayOfWeek, e.weekday)), e.day == [Every(1)], e.weekday == [Every(1)]))
  {
    hide FieldValues, DenotesAll, PrintField, PartOk, Words, Solid, Folded;
    PrintedFields(e);
    PrintedWords(e);
    WildPrinted(DayOfMonth, e.day);
    WildPrinted(DayOfWeek, e.weekday);
  }

  lemma PrintedFields(e: Expression)
    requires ExpressionOk(e)
    ensures FieldValues(Minute, PrintField(e.minute)) == Values(DenotesAll(Minute, e.minute))
    ensures FieldValues(Hour, PrintField(e.hour)) == Values(DenotesAll(Hour, e.hour))
    ensures FieldValues(DayOfMonth, PrintField(e.day)) == Values(DenotesAll(DayOfMonth, e.day))
    ensures FieldValues(Month, PrintField(e.month)) == Values(DenotesAll(Month, e.month))
    ensures FieldValues(DayOfWeek, PrintField(e.weekday)) == Values(DenotesAll(DayOfWeek, e.weekday))
  {
    hide FieldValues, DenotesAll, PrintField, PartOk;
    FieldPrinted(Minute, e.minute);
    FieldPrinted(Hour, e.hour);
    FieldPrinted(DayOfMonth, e.day);
    FieldPrinted(Month, e.month);
    FieldPrinted(DayOfWeek, e.weekday);
  }

  lemma PrintedWords(e: Expression)
    requires ExpressionOk(e)
    ensures Words(Print(e)) == [PrintField(e.minute), PrintField(e.hour), PrintField(e.day), PrintField(e.month), PrintField(e.weekday)]
  {
    hide PrintField, PartOk, Words, Solid;
    PrintedSolid(Minute, e.minute);
    PrintedSolid(Hour, e.hour);
    PrintedSolid(DayOfMonth, e.day);
    PrintedSolid(Month, e.month);
    PrintedSolid(DayOfWeek, e.weekday);
    var weekday := PrintField(e.weekday);
    var month := PrintField(e.month) + " " + weekday;
    var day := PrintField(e.day) + " " + month;
    var hour := PrintField(e.hour) + " " + day;
    LastWord(weekday);
    FirstWord(PrintField(e.month), weekday);
    FirstWord(PrintField(e.day), month);
    FirstWord(PrintField(e.hour), day);
    FirstWord(PrintField(e.minute), hour);
  }
}
