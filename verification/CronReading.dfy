/** What a cron field says. */
module CronReading {
  // The grammar of one part of a field (src/evomesh/cron.py), told apart from how it is
  // parsed: exactly the texts that say something in range parse, to exactly what they say.

  import opened CronFields
  import opened Text

  // ---- names and numbers ----

  const MONTHS: seq<string> := ["JAN", "FEB", "MAR", "APR", "MAY", "JUN", "JUL", "AUG", "SEP", "OCT", "NOV", "DEC"]
  const WEEKDAYS: seq<string> := ["SUN", "MON", "TUE", "WED", "THU", "FRI", "SAT"]
  const LONGER_WEEKDAYS: seq<seq<string>> := [[], [], ["TUES"], ["WEDS"], ["THUR", "THURS"], [], ["SATU"]]

  predicate IsMonthName(name: string, v: nat) {
    (1 <= v <= 12 && name == MONTHS[v - 1]) || (v == 2 && name == "FAB")
  }

  predicate IsWeekdayName(name: string, v: nat) {
    v < 7 && (name == WEEKDAYS[v] || name in LONGER_WEEKDAYS[v])
  }

  /** The lowest and the highest value of a field. */
  function Bounds(kind: Kind): (nat, nat) {
    match kind
    case Minute => (0, 59)
    case Hour => (0, 23)
    case DayOfMonth => (1, 31)
    case Month => (1, 12)
    case DayOfWeek => (0, 7)
  }

  /** The text is the capitals, in any letter case. */
  predicate Spells(text: string, capitals: string) {
    |text| == |capitals|
    && forall i :: 0 <= i < |text| ==> text[i] == capitals[i] || text[i] as int == capitals[i] as int + 32
  }

  /** The text is this number in digits, or a name of it in a field that has names. */
  ghost predicate Says(kind: Kind, text: string, v: nat) {
    || (IsNumber(text) && ParseNat(text) == v)
    || (kind.Month? && exists name :: IsMonthName(name, v) && Spells(text, name))
    || (kind.DayOfWeek? && exists name :: IsWeekdayName(name, v) && Spells(text, name))
  }

  // ---- parts ----

  /** The text before a step: a star, a range, or a value. */
  ghost predicate SaysBody(kind: Kind, text: string, p: Part) {
    match p
    case Every(_) => text == "*"
    case Between(first, last, _) =>
      exists i :: 0 <= i < |text| && text[i] == '-' && Says(kind, text[..i], first) && Says(kind, text[i + 1..], last)
    case One(value, _) => Says(kind, text, value)
  }

  /** The text says the part: its body, and its step behind a slash; without a slash it is 1. */
  ghost predicate SaysPart(kind: Kind, text: string, p: Part) {
    || (p.step == 1 && SaysBody(kind, text, p))
    || exists i :: 0 <= i < |text| && text[i] == '/' && IsNumber(text[i + 1..]) && ParseNat(text[i + 1..]) == p.step
         && SaysBody(kind, text[..i], p)
  }

  /** Where a part starts and ends: a value with a step runs to the end of the field, which
      for weekdays is Saturday. */
  function First(kind: Kind, p: Part): nat {
    match p
    case Every(_) => Bounds(kind).0
    case Between(first, _, _) => first
    case One(value, _) => value
  }

  function Last(kind: Kind, p: Part): nat {
    match p
    case Every(_) => Bounds(kind).1
    case Between(_, last, _) => last
    case One(value, step) => if step == 1 then value else if kind.DayOfWeek? then 6 else Bounds(kind).1
  }

  predicate InRange(kind: Kind, p: Part) {
    p.step > 0 && Bounds(kind).0 <= First(kind, p) <= Last(kind, p) <= Bounds(kind).1
  }

  predicate Selects(kind: Kind, p: Part, v: nat)
    requires InRange(kind, p)
  {
    First(kind, p) <= v <= Last(kind, p) && (v - First(kind, p)) % p.step == 0
  }

  // ---- names are read ----

  lemma {:induction false} UpperSpells(text: string, capitals: string)
    requires forall i :: 0 <= i < |capitals| ==> 'A' <= capitals[i] <= 'Z'
    ensures Upper(text) == capitals <==> Spells(text, capitals)
  {
    UpperKeeps(text);
    if |text| == |capitals| && text != [] {
      UpperSpells(text[1..], capitals[1..]);
      assert Spells(text, capitals) <==>
        (text[0] == capitals[0] || text[0] as int == capitals[0] as int + 32) && Spells(text[1..], capitals[1..]) by {
        assert Spells(text, capitals) ==> Spells(text[1..], capitals[1..]);
        assert forall i :: 0 < i < |text| ==> text[i] == text[1..][i - 1] && capitals[i] == capitals[1..][i - 1];
      }
      assert Upper(text) == capitals <==> Upper(text)[0] == capitals[0] && Upper(text)[1..] == capitals[1..] by {
        assert Upper(text) == [Upper(text)[0]] + Upper(text)[1..] && capitals == [capitals[0]] + capitals[1..];
      }
    }
  }

  lemma NamesAreCapitals(name: string, v: nat)
    requires IsMonthName(name, v) || IsWeekdayName(name, v)
    ensures forall i :: 0 <= i < |name| ==> 'A' <= name[i] <= 'Z'
  {
  }

  lemma MonthCodeIs(name: string, v: nat)
    requires v < 13
    ensures MonthCode(name) == v <==> IsMonthName(name, v)
  {
  }

  lemma WeekdayCodeIs(name: string, v: nat)
    requires v < 13
    ensures WeekdayCode(name) == v <==> IsWeekdayName(name, v)
  {
  }

  /** A segment's code is the number it says. */
  lemma CodedSays(kind: Kind, segment: string, v: nat)
    requires kind.Month? || kind.DayOfWeek?
    ensures IsNumber(Coded(kind, segment)) && ParseNat(Coded(kind, segment)) == v <==> Says(kind, segment, v)
  {
    hide MonthCode, WeekdayCode, Spells, IsMonthName, IsWeekdayName, Decimal, ParseNat, Upper;
    var name := Upper(segment);
    var code := if kind.Month? then MonthCode(name) else WeekdayCode(name);
    NamesSaid(kind, segment, v);
    if code < 13 {
      ParseDecimal(code);
      UpperKeeps(segment);
      NamesStartWithLetters(name);
      assert segment[0] in segment && !IsDigit(segment[0]);
    }
  }

  /** A name is said exactly when its code is the number. */
  lemma NamesSaid(kind: Kind, segment: string, v: nat)
    ensures v < 13 && MonthCode(Upper(segment)) == v <==> exists name :: IsMonthName(name, v) && Spells(segment, name)
    ensures v < 13 && WeekdayCode(Upper(segment)) == v <==> exists name :: IsWeekdayName(name, v) && Spells(segment, name)
  {
    hide MonthCode, WeekdayCode, Spells;
    var upper := Upper(segment);
    forall name | IsMonthName(name, v) || IsWeekdayName(name, v) ensures upper == name <==> Spells(segment, name) {
      hide IsMonthName, IsWeekdayName;
      NamesAreCapitals(name, v);
      UpperSpells(segment, name);
    }
    if v < 13 {
      MonthCodeIs(upper, v);
      WeekdayCodeIs(upper, v);
    }
  }

  // ---- segments of a range ----

  /** A segment as it stands once names are translated. */
  function Token(kind: Kind, segment: string): string {
    if kind.Month? || kind.DayOfWeek? then Coded(kind, segment) else segment
  }

  lemma TokenSays(kind: Kind, segment: string, v: nat)
    ensures IsNumber(Token(kind, segment)) && ParseNat(Token(kind, segment)) == v <==> Says(kind, segment, v)
  {
    hide Coded;
    if kind.Month? || kind.DayOfWeek? {
      CodedSays(kind, segment, v);
    }
  }

  lemma TokenFacts(kind: Kind, segment: string)
    requires forall j :: 0 <= j < |segment| ==> segment[j] != '-'
    ensures forall j :: 0 <= j < |Token(kind, segment)| ==> Token(kind, segment)[j] != '-'
    ensures Token(kind, segment) == "*" <==> segment == "*"
  {
    hide MonthCode, WeekdayCode, Decimal, Upper;
    var token := Token(kind, segment);
    if token != segment {
      NoneInDigits(token, '-');
      NoneInDigits(token, '*');
    }
    if segment == "*" {
      CodedKeeps(kind, segment);
    }
  }

  lemma SpelledIsPlain(text: string, name: string)
    requires Spells(text, name) && forall i :: 0 <= i < |name| ==> 'A' <= name[i] <= 'Z'
    ensures forall j :: 0 <= j < |text| ==> text[j] != '-' && text[j] != '/' && text[j] != '*'
  {
    forall j | 0 <= j < |text| ensures text[j] != '-' && text[j] != '/' && text[j] != '*' {
      assert 'A' <= name[j] <= 'Z';
    }
  }

  /** What says a number holds no separator. */
  lemma SaysPlain(kind: Kind, text: string, v: nat)
    requires Says(kind, text, v)
    ensures text != "*" && forall j :: 0 <= j < |text| ==> text[j] != '-' && text[j] != '/'
  {
    hide IsMonthName, IsWeekdayName;
    if IsNumber(text) {
      NoneInDigits(text, '-');
      NoneInDigits(text, '/');
      NoneInDigits(text, '*');
    } else {
      var name :| (IsMonthName(name, v) || IsWeekdayName(name, v)) && Spells(text, name);
      NamesAreCapitals(name, v);
      SpelledIsPlain(text, name);
    }
  }

  lemma TranslatedPlain(kind: Kind, text: string)
    requires forall j :: 0 <= j < |text| ==> text[j] != '-'
    ensures Translated(kind, text) == Token(kind, text)
  {
    hide Coded;
    SplitNone(text, '-');
    assert CodedAll(kind, [text]) == [Coded(kind, text)];
  }

  /** A text with a dash is translated on both sides of it. */
  lemma TranslatedDashed(kind: Kind, a: string, b: string) returns (rest: string)
    requires forall j :: 0 <= j < |a| ==> a[j] != '-'
    ensures Translated(kind, a + "-" + b) == Token(kind, a) + "-" + rest
    ensures if '-' in b then '-' in rest else rest == Token(kind, b)
  {
    hide Coded;
    SplitFirst(a, '-', b);
    var parts := SplitOn(b, '-');
    var coded := CodedAll(kind, parts);
    rest := if kind.Month? || kind.DayOfWeek? then JoinOn(coded, '-') else b;
    assert ([a] + parts)[1..] == parts;
    assert CodedAll(kind, [a] + parts) == [Coded(kind, a)] + coded;
    assert ([Coded(kind, a)] + coded)[1..] == coded;
    if '-' in b {
      SplitSome(b, '-');
      JoinSome(coded, '-');
    } else {
      SplitNone(b, '-');
      assert CodedAll(kind, [b]) == [Coded(kind, b)];
    }
  }

  lemma {:induction false} SplitSome(s: string, c: char)
    requires c in s
    ensures |SplitOn(s, c)| > 1
  {
    if s[0] != c {
      assert c in s[1..];
      SplitSome(s[1..], c);
    }
  }

  lemma JoinSome(parts: seq<string>, c: char)
    requires |parts| > 1
    ensures c in JoinOn(parts, c)
  {
    assert JoinOn(parts, c)[|parts[0]|] == c;
  }

  // ---- parts are read ----

  lemma SpanOfToken(kind: Kind, token: string, step: nat)
    requires token != "*" && forall j :: 0 <= j < |token| ==> token[j] != '-'
    ensures Span(kind, token, step) ==
      if IsNumber(token) then Values((ParseNat(token), if step == 1 then ParseNat(token) else LastStep(kind))) else Invalid
  {
    IndexOfIs(token, '-', |token|);
  }

  lemma SpanOfTwo(kind: Kind, a: string, b: string, step: nat)
    requires forall j :: 0 <= j < |a| ==> a[j] != '-'
    ensures Span(kind, a + "-" + b, step) == if IsNumber(a) && IsNumber(b) then Values((ParseNat(a), ParseNat(b))) else Invalid
  {
    var s := a + "-" + b;
    IndexOfIs(s, '-', |a|);
    assert s[..|a|] == a && s[|a| + 1..] == b;
    assert s[|a|] == '-';
  }

  /** A body without a dash is a star or says its one value. */
  lemma PlainSpan(kind: Kind, text: string, step: nat)
    requires step > 0 && forall j :: 0 <= j < |text| ==> text[j] != '-'
    ensures SpanReads(kind, text, step)
  {
    hide Span, Translated, Token, Says;
    TranslatedPlain(kind, text);
    TokenFacts(kind, text);
    var token := Token(kind, text);
    forall p: Part | p.step == step && SaysBody(kind, text, p)
      ensures Span(kind, Translated(kind, text), step) == Values((First(kind, p), Last(kind, p)))
    {
      if p.One? {
        SaysPlain(kind, text, p.value);
        TokenSays(kind, text, p.value);
        SpanOfToken(kind, token, step);
      } else {
        SpanOfStar(kind, step);
      }
    }
    if text != "*" {
      SpanOfToken(kind, token, step);
      if IsNumber(token) {
        TokenSays(kind, text, ParseNat(token));
        assert SaysBody(kind, text, One(ParseNat(token), step));
      }
    } else {
      assert SaysBody(kind, text, Every(step));
    }
  }

  lemma SpanOfStar(kind: Kind, step: nat)
    ensures Span(kind, "*", step) == Values(Bounds(kind))
  {
  }

  /** The text before a step is read for exactly the parts it says. */
  ghost predicate SpanReads(kind: Kind, text: string, step: nat) {
    && (forall p: Part :: p.step == step && SaysBody(kind, text, p) ==>
          Span(kind, Translated(kind, text), step) == Values((First(kind, p), Last(kind, p))))
    && (Span(kind, Translated(kind, text), step).Values? ==> exists p: Part :: p.step == step && SaysBody(kind, text, p))
  }

  /** A body with a dash says a range, if anything. */
  lemma DashedSpan(kind: Kind, a: string, b: string, step: nat)
    requires step > 0 && forall j :: 0 <= j < |a| ==> a[j] != '-'
    ensures SpanReads(kind, a + "-" + b, step)
  {
    hide Span, Translated, Token, Says;
    var text := a + "-" + b;
    assert text[|a|] == '-' && text[..|a|] == a && text[|a| + 1..] == b;
    var rest := TranslatedDashed(kind, a, b);
    TokenFacts(kind, a);
    SpanOfTwo(kind, Token(kind, a), rest, step);
    forall p: Part | p.step == step && SaysBody(kind, text, p)
      ensures Span(kind, Translated(kind, text), step) == Values((First(kind, p), Last(kind, p)))
    {
      DashedSays(kind, a, b, p);
      SaysPlain(kind, b, p.last);
      TokenSays(kind, a, p.first);
      TokenSays(kind, b, p.last);
    }
    if IsNumber(Token(kind, a)) && IsNumber(rest) {
      NoneInDigits(rest, '-');
      TokenSays(kind, a, ParseNat(Token(kind, a)));
      TokenSays(kind, b, ParseNat(rest));
      assert SaysBody(kind, text, Between(ParseNat(Token(kind, a)), ParseNat(rest), step));
    }
  }

  lemma DashedSays(kind: Kind, a: string, b: string, p: Part)
    requires SaysBody(kind, a + "-" + b, p) && forall j :: 0 <= j < |a| ==> a[j] != '-'
    ensures p.Between? && Says(kind, a, p.first) && Says(kind, b, p.last)
  {
    hide Says;
    var text := a + "-" + b;
    assert text[|a|] == '-' && text[..|a|] == a && text[|a| + 1..] == b;
    if p.One? {
      SaysPlain(kind, text, p.value);
    } else if p.Between? {
      var i :| 0 <= i < |text| && text[i] == '-' && Says(kind, text[..i], p.first) && Says(kind, text[i + 1..], p.last);
      SaysPlain(kind, text[..i], p.first);
      DashAt(a, b, i);
    }
  }

  lemma DashAt(a: string, b: string, i: nat)
    requires i <= |a| + |b| && (a + "-" + b)[i] == '-' && forall j :: 0 <= j < i ==> (a + "-" + b)[..i][j] != '-'
    requires forall j :: 0 <= j < |a| ==> a[j] != '-'
    ensures i == |a|
  {
    var text := a + "-" + b;
    assert text[|a|] == '-' && forall j :: 0 <= j < |a| ==> text[j] == a[j];
    assert forall j :: 0 <= j < i ==> text[..i][j] == text[j];
  }

  lemma SpansRead(kind: Kind, text: string, step: nat)
    requires step > 0
    ensures SpanReads(kind, text, step)
  {
    hide SpanReads;
    var i := IndexOf(text, '-');
    if i == |text| {
      PlainSpan(kind, text, step);
    } else {
      DashedSpan(kind, text[..i], text[i + 1..], step);
      assert text == text[..i] + "-" + text[i + 1..];
    }
  }

  /** What a body says holds no slash. */
  lemma BodyPlain(kind: Kind, text: string, p: Part)
    requires SaysBody(kind, text, p)
    ensures forall j :: 0 <= j < |text| ==> text[j] != '/'
  {
    hide Says;
    match p
    case Every(_) =>
    case One(value, _) => SaysPlain(kind, text, value);
    case Between(first, last, _) =>
      var i :| 0 <= i < |text| && text[i] == '-' && Says(kind, text[..i], first) && Says(kind, text[i + 1..], last);
      SaysPlain(kind, text[..i], first);
      SaysPlain(kind, text[i + 1..], last);
      assert text == text[..i] + [text[i]] + text[i + 1..];
  }

  /** A part says its body and its step, and nothing else does. */
  lemma SteppedSays(kind: Kind, text: string, p: Part)
    requires SaysPart(kind, text, p)
    ensures if p.step == 0 then Stepped(text).Invalid?
            else Stepped(text).Values? && Stepped(text).value.1 == p.step && SaysBody(kind, Stepped(text).value.0, p)
  {
    hide SaysBody;
    if p.step == 1 && SaysBody(kind, text, p) {
      BodyPlain(kind, text, p);
      IndexOfIs(text, '/', |text|);
    } else {
      var i :| 0 <= i < |text| && text[i] == '/' && IsNumber(text[i + 1..]) && ParseNat(text[i + 1..]) == p.step
               && SaysBody(kind, text[..i], p);
      BodyPlain(kind, text[..i], p);
      assert forall j :: 0 <= j < i ==> text[j] == text[..i][j];
      IndexOfIs(text, '/', i);
    }
  }

  /** A part of a field parses exactly when it says something in range, and then to exactly
      the values that are meant. */
  lemma PartReads(kind: Kind, text: string, p: Part)
    requires SaysPart(kind, text, p)
    ensures PartValues(kind, text).Values? <==> InRange(kind, p)
    ensures InRange(kind, p) ==> forall v :: v in PartValues(kind, text).value <==> Selects(kind, p, v)
  {
    hide Stepped, Span, Translated, SaysBody, SaysPart;
    SteppedSays(kind, text, p);
    if p.step > 0 {
      SpansRead(kind, Stepped(text).value.0, p.step);
    }
  }

  lemma PartSays(kind: Kind, text: string) returns (p: Part)
    requires PartValues(kind, text).Values?
    ensures SaysPart(kind, text, p) && InRange(kind, p)
  {
    hide Span, Translated, SaysBody, ParseNat;
    var (body, step) := Stepped(text).value;
    SpansRead(kind, body, step);
    p :| p.step == step && SaysBody(kind, body, p);
    assert SaysPart(kind, text, p);
    PartReads(kind, text, p);
  }

  // ---- fields are read ----

  /** The text says something in range. */
  ghost predicate Sound(kind: Kind, text: string) {
    exists p :: SaysPart(kind, text, p) && InRange(kind, p)
  }

  /** The text says something in range that selects the value. */
  ghost predicate Meant(kind: Kind, text: string, v: nat) {
    exists p :: SaysPart(kind, text, p) && InRange(kind, p) && Selects(kind, p, v)
  }

  lemma PartMeans(kind: Kind, text: string)
    ensures PartValues(kind, text).Values? <==> Sound(kind, text)
    ensures PartValues(kind, text).Values? ==> forall v :: v in PartValues(kind, text).value <==> Meant(kind, text, v)
  {
    hide SaysPart, Selects, InRange, PartValues;
    forall p | SaysPart(kind, text, p)
      ensures PartValues(kind, text).Values? <==> InRange(kind, p)
      ensures InRange(kind, p) ==> forall v :: v in PartValues(kind, text).value <==> Selects(kind, p, v)
    {
      PartReads(kind, text, p);
    }
    if PartValues(kind, text).Values? {
      var p := PartSays(kind, text);
    }
  }

  lemma {:induction false} PartsMean(kind: Kind, parts: seq<string>)
    ensures PartsValues(kind, parts).Values? <==> forall text :: text in parts ==> Sound(kind, text)
    ensures PartsValues(kind, parts).Values? ==>
      forall v :: v in PartsValues(kind, parts).value <==> exists text :: text in parts && Meant(kind, text, v)
  {
    hide Sound, Meant, PartValues;
    if parts != [] {
      PartMeans(kind, parts[0]);
      PartsMean(kind, parts[1..]);
      assert forall text :: text in parts <==> text == parts[0] || text in parts[1..];
    }
  }

  /** A field parses exactly when every one of its parts says something in range, and then to
      exactly the values some part means. */
  lemma FieldReads(kind: Kind, parts: seq<string>)
    requires parts != [] && forall i, j :: 0 <= i < |parts| && 0 <= j < |parts[i]| ==> parts[i][j] != ','
    ensures FieldValues(kind, JoinOn(parts, ',')).Values? <==> forall text :: text in parts ==> Sound(kind, text)
    ensures FieldValues(kind, JoinOn(parts, ',')).Values? ==>
      forall v :: v in FieldValues(kind, JoinOn(parts, ',')).value <==> exists text :: text in parts && Meant(kind, text, v)
  {
    hide Sound, Meant, PartsValues, SplitOn, JoinOn;
    SplitJoinedOn(parts, ',');
    PartsMean(kind, parts);
  }

  /** The weekdays selected are those of the field, Sunday under either of its numbers. */
  lemma SundayTwice(expression: string, w: nat)
    requires Parse(expression).Values?
    ensures var field := Words(expression)[4];
      && FieldValues(DayOfWeek, field).Values?
      && (w in Parse(expression).value.weekdays <==>
            w < 7 && (w in FieldValues(DayOfWeek, field).value || (w == 0 && 7 in FieldValues(DayOfWeek, field).value)))
  {
    hide PartsValues, SplitOn, Words;
    var f := Words(expression);
    PartsWithin(DayOfWeek, SplitOn(f[4], ','));
    var values := FieldValues(DayOfWeek, f[4]).value;
    assert forall v :: v in values ==> v % 7 == if v == 7 then 0 else v;
    if w < 7 && (w in values || (w == 0 && 7 in values)) {
      var v := if w in values then w else 7;
      assert v in values && v % 7 == w;
    }
  }
}
