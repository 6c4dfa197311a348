/** How the Control Center writes single values into the settings file and reads them back
    (desktop/EvoMesh.Desktop/EvoMeshYamlSettings.cs). */
module SettingsValues {
  import opened Options
  import opened Text

  // ---- trimming ----

  /** `char.IsWhiteSpace`. */
  predicate IsWhite(c: char) {
    '\t' <= c <= '\r' || c == ' ' || c == '\U{85}' || c == '\U{A0}' || c == '\U{1680}' || '\U{2000}' <= c <= '\U{200A}'
    || c == '\U{2028}' || c == '\U{2029}' || c == '\U{202F}' || c == '\U{205F}' || c == '\U{3000}'
  }

  /** By its code points. */
  lemma WhiteCodePoints(c: char)
    ensures IsWhite(c) <==>
      9 <= c as int <= 13 || c as int in {32, 133, 160, 5760, 8232, 8233, 8239, 8287, 12288} || 8192 <= c as int <= 8202
  {
  }

  function TrimEnd(s: string): (t: string)
    ensures t <= s
  {
    if s != [] && IsWhite(s[|s| - 1]) then TrimEnd(s[..|s| - 1]) else s
  }

  function TrimStart(s: string): string {
    if s != [] && IsWhite(s[0]) then TrimStart(s[1..]) else s
  }

  function Trim(s: string): string {
    TrimStart(TrimEnd(s))
  }

  /** No white space at either end. */
  predicate Tidy(s: string) {
    s != [] ==> !IsWhite(s[0]) && !IsWhite(s[|s| - 1])
  }

  predicate OneLine(s: string) {
    forall i :: 0 <= i < |s| ==> s[i] != '\n' && s[i] != '\r'
  }

  lemma TrimTidy(s: string)
    requires Tidy(s)
    ensures Trim(s) == s
  {
  }

  function Blanks(n: nat): (s: string)
    ensures |s| == n && forall i :: 0 <= i < n ==> s[i] == ' '
  {
    if n == 0 then "" else " " + Blanks(n - 1)
  }

  /** `TakeWhile(char.IsWhiteSpace).Count()`. */
  function Indent(s: string): (n: nat)
    ensures n <= |s|
  {
    if s != [] && IsWhite(s[0]) then 1 + Indent(s[1..]) else 0
  }

  lemma {:induction false} IndentOfBlanks(n: nat, s: string)
    requires s != [] && !IsWhite(s[0])
    ensures Indent(Blanks(n) + s) == n && TrimStart(Blanks(n) + s) == s
  {
    if n > 0 {
      assert (Blanks(n) + s)[1..] == Blanks(n - 1) + s;
      IndentOfBlanks(n - 1, s);
    } else {
      assert Blanks(0) + s == s;
    }
  }

  lemma TrimIndented(n: nat, s: string)
    requires s != [] && Tidy(s)
    ensures Indent(Blanks(n) + s) == n && Trim(Blanks(n) + s) == s
  {
    hide IsWhite;
    var r := Blanks(n) + s;
    assert r[|r| - 1] == s[|s| - 1];
    assert TrimEnd(r) == r;
    IndentOfBlanks(n, s);
  }

  // ---- quoting ----

  /** `Replace("'", "''")`. */
  function Doubled(s: string): string {
    if s == [] then [] else (if s[0] == '\'' then "''" else [s[0]]) + Doubled(s[1..])
  }

  /** `Replace("''", "'")`. */
  function Halved(s: string): string {
    if |s| >= 2 && s[0] == '\'' && s[1] == '\'' then "'" + Halved(s[2..])
    else if s == [] then []
    else [s[0]] + Halved(s[1..])
  }

  function Quote(s: string): string {
    "'" + Doubled(s) + "'"
  }

  predicate Wrapped(s: string) {
    |s| >= 2 && ((s[0] == '\'' && s[|s| - 1] == '\'') || (s[0] == '"' && s[|s| - 1] == '"'))
  }

  function Unquote(s: string): string {
    if Wrapped(s) then Halved(s[1..|s| - 1]) else s
  }

  lemma {:induction false} HalvedDoubled(s: string)
    ensures Halved(Doubled(s)) == s
  {
    if s != [] {
      HalvedDoubled(s[1..]);
      if s[0] == '\'' {
        assert Doubled(s)[2..] == Doubled(s[1..]);
      } else {
        assert Doubled(s)[1..] == Doubled(s[1..]);
      }
      assert [s[0]] + s[1..] == s;
    }
  }

  /** Quoting loses nothing, whatever the text. */
  lemma QuoteRoundTrip(s: string)
    ensures Unquote(Quote(s)) == s && Tidy(Quote(s)) && Quote(s) != []
  {
    var q := Quote(s);
    assert q[1..|q| - 1] == Doubled(s);
    HalvedDoubled(s);
  }

  lemma {:induction false} QuotedOneLine(s: string)
    requires OneLine(s)
    ensures OneLine(Quote(s)) && OneLine(Doubled(s))
  {
    if s != [] {
      QuotedOneLine(s[1..]);
    }
  }

  // ---- numbers and switches ----

  const INT_MAX := 0x7fff_ffff

  predicate IsInt(n: int) {
    -INT_MAX - 1 <= n <= INT_MAX
  }

  function IntText(n: int): (s: string)
    ensures s != [] && (s[0] == '-' <==> n < 0) && forall i :: 0 <= i < |s| ==> IsDigit(s[i]) || s[i] == '-'
  {
    if n < 0 then
      assert forall c :: c in Decimal(-n) ==> IsDigit(c);
      "-" + Decimal(-n)
    else
      assert Decimal(n)[0] in Decimal(n) && forall c :: c in Decimal(n) ==> IsDigit(c);
      Decimal(n)
  }

  function Unsigned(s: string): Option<nat> {
    if s != [] && AllDigits(s) then Some(ParseNat(s)) else None
  }

  /** `int.TryParse` of an integer, white space around it allowed. */
  function TryInt(value: string): (r: Option<int>)
    ensures r.Some? ==> IsInt(r.value)
  {
    var s := Trim(value);
    var minus := s != [] && s[0] == '-';
    var digits := Unsigned(if s != [] && (s[0] == '-' || s[0] == '+') then s[1..] else s);
    if digits.None? then None
    else
      var n: int := if minus then 0 - digits.value as int else digits.value as int;
      if IsInt(n) then Some(n) else None
  }

  function ParseInt(value: string, fallback: int): int {
    if TryInt(value).Some? then TryInt(value).value else fallback
  }

  lemma PlainIsTidy(s: string)
    requires forall i :: 0 <= i < |s| ==> IsDigit(s[i]) || s[i] == '-'
    ensures Tidy(s) && OneLine(s) && !Wrapped(s)
  {
  }

  lemma IntRoundTrip(n: int)
    requires IsInt(n)
    ensures TryInt(IntText(n)) == Some(n) && Tidy(IntText(n)) && OneLine(IntText(n)) && !Wrapped(IntText(n))
  {
    hide IsWhite, Tidy, Decimal, Wrapped;
    var s := IntText(n);
    PlainIsTidy(s);
    TrimTidy(s);
    if n < 0 {
      assert s[1..] == Decimal(-n);
      ParseDecimal(-n);
    } else {
      DigitsUnsigned(Decimal(n));
      ParseDecimal(n);
    }
  }

  lemma DigitsUnsigned(s: string)
    requires s != [] && AllDigits(s)
    ensures s[0] != '-' && s[0] != '+'
  {
    assert s[0] in s;
  }

  /** A number of the floating kind, as its text: printing and parsing are each other's inverse. */
  predicate IsDouble(s: string) {
    s != [] && forall i :: 0 <= i < |s| ==> IsDigit(s[i]) || s[i] == '.' || s[i] == '-' || s[i] == '+' || s[i] == 'E'
  }

  function ParseDouble(value: string, fallback: string): string {
    if IsDouble(Trim(value)) then Trim(value) else fallback
  }

  lemma DoubleRoundTrip(s: string)
    requires IsDouble(s)
    ensures ParseDouble(s, "") == s && Tidy(s) && OneLine(s) && !Wrapped(s)
    ensures forall fallback :: ParseDouble(s, fallback) == s
  {
    TrimTidy(s);
  }

  function Lower(s: string): string {
    if s == [] then [] else [if 'A' <= s[0] <= 'Z' then 'a' + (s[0] - 'A') else s[0]] + Lower(s[1..])
  }

  function ParseBool(value: string, fallback: bool): bool {
    var word := Lower(Trim(value));
    if word == "true" || word == "yes" || word == "on" || word == "1" then true
    else if word == "false" || word == "no" || word == "off" || word == "0" then false
    else fallback
  }

  function BoolText(b: bool): string {
    if b then "true" else "false"
  }

  lemma {:induction false} LowerKeeps(s: string)
    requires forall i :: 0 <= i < |s| ==> 'a' <= s[i] <= 'z'
    ensures Lower(s) == s
  {
    if s != [] {
      LowerKeeps(s[1..]);
    }
  }

  lemma BoolRoundTrip(b: bool, fallback: bool)
    ensures ParseBool(BoolText(b), fallback) == b
    ensures Tidy(BoolText(b)) && OneLine(BoolText(b)) && !Wrapped(BoolText(b))
  {
    LowerKeeps(BoolText(b));
    TrimTidy(BoolText(b));
  }

  // ---- lists ----

  /** `Split(',', RemoveEmptyEntries | TrimEntries)`. */
  function Entries(s: string): seq<string> {
    var n := CommaAt(s);
    var first := Trim(s[..n]);
    (if first == [] then [] else [first]) + if n == |s| then [] else Entries(s[n + 1..])
  }

  function CommaAt(s: string): (n: nat)
    ensures n <= |s| && (n < |s| ==> s[n] == ',') && forall i :: 0 <= i < n ==> s[i] != ','
  {
    if s == [] || s[0] == ',' then 0 else 1 + CommaAt(s[1..])
  }

  /** `string.Join(", ", ...)`. */
  function Listed(entries: seq<string>): string {
    if entries == [] then "" else if |entries| == 1 then entries[0] else entries[0] + ", " + Listed(entries[1..])
  }

  predicate IsBracket(c: char) {
    c == '[' || c == ']'
  }

  function DropBracketsLeft(s: string): string {
    if s != [] && IsBracket(s[0]) then DropBracketsLeft(s[1..]) else s
  }

  function DropBracketsRight(s: string): string {
    if s != [] && IsBracket(s[|s| - 1]) then DropBracketsRight(s[..|s| - 1]) else s
  }

  /** `Trim().Trim('[', ']')`. */
  function Inner(value: string): string {
    DropBracketsLeft(DropBracketsRight(Trim(value)))
  }

  function UnquotedAll(entries: seq<string>): seq<string> {
    if entries == [] then [] else [Unquote(entries[0])] + UnquotedAll(entries[1..])
  }

  function NonEmpty(entries: seq<string>): seq<string> {
    if entries == [] then []
    else if entries[0] == [] then NonEmpty(entries[1..])
    else [entries[0]] + NonEmpty(entries[1..])
  }

  /** `long.TryParse` says whether an entry is an id. */
  predicate IsId(s: string) {
    var digits := Unsigned(if s != [] && (s[0] == '-' || s[0] == '+') then s[1..] else s);
    && digits.Some?
    && (if s[0] == '-' then digits.value <= 0x8000_0000_0000_0000 else digits.value <= 0x7fff_ffff_ffff_ffff)
  }

  function Ids(entries: seq<string>): seq<string> {
    if entries == [] then []
    else if IsId(entries[0]) then [entries[0]] + Ids(entries[1..])
    else Ids(entries[1..])
  }

  function FormatIdList(value: string): string {
    Listed(Ids(Entries(value)))
  }

  function ParseIdList(value: string): string {
    Listed(Ids(UnquotedAll(Entries(Inner(value)))))
  }

  function FormatNameList(value: string): string {
    Listed(Entries(value))
  }

  function ParseNameList(value: string): string {
    Listed(NonEmpty(UnquotedAll(Entries(Inner(value)))))
  }

  // ---- what lists keep ----

  /** An entry as splitting yields it. */
  predicate IsEntry(s: string) {
    s != [] && Tidy(s) && forall i :: 0 <= i < |s| ==> s[i] != ','
  }

  lemma {:induction false} TrimFacts(s: string)
    ensures Tidy(TrimEnd(s)) || (TrimEnd(s) != [] && IsWhite(TrimEnd(s)[0]))
    ensures TrimEnd(s) != [] ==> !IsWhite(TrimEnd(s)[|TrimEnd(s)| - 1])
    ensures forall c :: c in TrimEnd(s) ==> c in s
  {
    hide IsWhite;
    if s != [] && IsWhite(s[|s| - 1]) {
      TrimFacts(s[..|s| - 1]);
    }
  }

  lemma {:induction false} TrimStartFacts(s: string)
    requires s != [] ==> !IsWhite(s[|s| - 1])
    ensures Tidy(TrimStart(s)) && forall c :: c in TrimStart(s) ==> c in s
  {
    hide IsWhite;
    if s != [] && IsWhite(s[0]) {
      if |s| > 1 {
        assert s[1..][|s| - 2] == s[|s| - 1];
      }
      TrimStartFacts(s[1..]);
    }
  }

  lemma TrimIsTidy(s: string)
    ensures Tidy(Trim(s)) && forall c :: c in Trim(s) ==> c in s
  {
    hide IsWhite, Tidy;
    TrimFacts(s);
    TrimStartFacts(TrimEnd(s));
  }

  lemma {:induction false} EntriesFacts(s: string)
    ensures forall e :: e in Entries(s) ==> IsEntry(e) && forall c :: c in e ==> c in s
    decreases |s|
  {
    hide Trim, Tidy, IsEntry;
    var n := CommaAt(s);
    TrimIsEntry(s[..n]);
    assert forall c :: c in s[..n] ==> c in s;
    if n < |s| {
      EntriesFacts(s[n + 1..]);
      assert forall c :: c in s[n + 1..] ==> c in s;
    }
  }

  lemma TrimIsEntry(s: string)
    requires forall i :: 0 <= i < |s| ==> s[i] != ','
    ensures Trim(s) != [] ==> IsEntry(Trim(s))
    ensures forall c :: c in Trim(s) ==> c in s
  {
    hide Trim, Tidy;
    TrimIsTidy(s);
    var t := Trim(s);
    forall i | 0 <= i < |t| ensures t[i] != ',' {
      assert t[i] in t;
    }
  }

  lemma {:induction false} CommaAtIs(s: string, n: nat)
    requires n <= |s| && (n < |s| ==> s[n] == ',') && forall i :: 0 <= i < n ==> s[i] != ','
    ensures CommaAt(s) == n
  {
    if n > 0 {
      CommaAtIs(s[1..], n - 1);
    }
  }

  /** White space before the first entry is trimmed away. */
  lemma {:induction false} EntriesAfterBlank(e: string, rest: string)
    requires IsEntry(e) && (rest == "" || rest[0] == ',')
    ensures Entries(" " + e + rest) == Entries(e + rest)
  {
    hide Tidy, Entries;
    EntriesHead(" " + e, e, rest);
    EntriesHead(e, e, rest);
  }

  lemma EntriesHead(padded: string, e: string, rest: string)
    requires IsEntry(e) && (padded == e || padded == " " + e) && (rest == "" || rest[0] == ',')
    ensures Entries(padded + rest) == [e] + if rest == "" then [] else Entries(rest[1..])
  {
    hide IsWhite, Tidy, Trim, CommaAt, Entries;
    var s := padded + rest;
    EntriesUnfold(s);
    PaddedHasNoComma(padded, e);
    CommaAtIs(s, |padded|);
    assert s[..|padded|] == padded;
    TrimPadded(padded, e);
    if rest != "" {
      assert s[|padded| + 1..] == rest[1..];
    }
  }

  lemma EntriesUnfold(s: string)
    ensures var n := CommaAt(s); var first := Trim(s[..n]);
      Entries(s) == (if first == [] then [] else [first]) + if n == |s| then [] else Entries(s[n + 1..])
  {
    hide Trim, CommaAt;
  }

  lemma PaddedHasNoComma(padded: string, e: string)
    requires IsEntry(e) && (padded == e || padded == " " + e)
    ensures forall i :: 0 <= i < |padded| ==> padded[i] != ','
  {
    hide Tidy;
  }

  lemma TrimPadded(padded: string, e: string)
    requires e != [] && Tidy(e) && (padded == e || padded == " " + e)
    ensures Trim(padded) == e
  {
    hide IsWhite;
    if padded == e {
      TrimTidy(e);
    } else {
      assert Blanks(0) == "" && Blanks(1) == " ";
      TrimIndented(1, e);
    }
  }

  /** Listing entries and splitting the list gives the entries back. */
  lemma {:induction false} EntriesOfListed(entries: seq<string>)
    requires forall e :: e in entries ==> IsEntry(e)
    ensures Entries(Listed(entries)) == entries
  {
    hide Tidy, Entries;
    if entries == [] {
      NoEntries();
    } else if |entries| == 1 {
      EntriesHead(entries[0], entries[0], "");
      assert entries[0] + "" == entries[0];
    } else {
      var rest := Listed(entries[1..]);
      assert Listed(entries) == entries[0] + (", " + rest);
      EntriesHead(entries[0], entries[0], ", " + rest);
      assert (", " + rest)[1..] == " " + rest;
      EntriesOfListed(entries[1..]);
      ListedStarts(entries[1..]);
      var tail := rest[|entries[1]|..];
      assert " " + rest == " " + entries[1] + tail && rest == entries[1] + tail;
      EntriesAfterBlank(entries[1], tail);
    }
  }

  lemma NoEntries()
    ensures Entries("") == []
  {
    assert Trim("") == "";
  }

  lemma ListedStarts(entries: seq<string>)
    requires entries != []
    ensures var l := Listed(entries); var e := entries[0];
      |e| <= |l| && l[..|e|] == e && (|l| > |e| ==> l[|e|] == ',')
    ensures |Listed(entries)| > 0 || entries == [[]]
  {
  }

  /** The first character of the first entry and the last of the last frame the list. */
  lemma {:induction false} ListedEnds(entries: seq<string>)
    requires entries != [] && forall i :: 0 <= i < |entries| ==> entries[i] != []
    ensures var l := Listed(entries); var last := entries[|entries| - 1];
      l != [] && l[0] == entries[0][0] && l[|l| - 1] == last[|last| - 1]
  {
    if |entries| > 1 {
      ListedEnds(entries[1..]);
      var rest := Listed(entries[1..]);
      var l := Listed(entries);
      assert l == entries[0] + ", " + rest && l[|l| - 1] == rest[|rest| - 1];
    }
  }

  /** No bracket at either end, so bracketing it and dropping brackets gives it back. */
  lemma InnerOfBracketed(l: string)
    requires l != [] ==> !IsBracket(l[0]) && !IsBracket(l[|l| - 1])
    ensures Inner("[" + l + "]") == l && Tidy("[" + l + "]") && !Wrapped("[" + l + "]")
  {
    var s := "[" + l + "]";
    TrimTidy(s);
    var open := s[..|s| - 1];
    assert open == "[" + l && open[1..] == l;
    assert DropBracketsRight(s) == DropBracketsRight(open);
    if l == [] {
      assert open == "[" && open[..0] == "";
      assert DropBracketsRight(open) == "";
    } else {
      assert open[|open| - 1] == l[|l| - 1];
      assert DropBracketsLeft(open) == DropBracketsLeft(l);
    }
  }

  lemma {:induction false} IdsFacts(entries: seq<string>)
    ensures forall e :: e in Ids(entries) <==> e in entries && IsId(e)
    ensures (forall e :: e in entries ==> IsId(e)) ==> Ids(entries) == entries
  {
    hide IsId;
    if entries != [] {
      IdsFacts(entries[1..]);
    }
  }

  lemma {:induction false} UnquotedSame(entries: seq<string>)
    requires forall e :: e in entries ==> Unquote(e) == e
    ensures UnquotedAll(entries) == entries
  {
    hide Unquote;
    if entries != [] {
      UnquotedSame(entries[1..]);
    }
  }

  lemma IdIsPlain(s: string)
    requires IsId(s)
    ensures s != [] && Unquote(s) == s && !IsBracket(s[0]) && !IsBracket(s[|s| - 1])
  {
    var digits := if s[0] == '-' || s[0] == '+' then s[1..] else s;
    assert digits[|digits| - 1] in digits && s[|s| - 1] == digits[|digits| - 1];
    assert digits[0] in digits;
  }

  /** A saved id list reads back as the ids of the list, in the form it was saved in. */
  lemma IdListRoundTrip(value: string)
    ensures ParseIdList("[" + FormatIdList(value) + "]") == FormatIdList(value)
    ensures FormatIdList(FormatIdList(value)) == FormatIdList(value)
    ensures Tidy("[" + FormatIdList(value) + "]") && !Wrapped("[" + FormatIdList(value) + "]")
  {
    hide IsId, Entries, Tidy, Wrapped, IsBracket, Inner, Unquote;
    var ids := Ids(Entries(value));
    EntriesFacts(value);
    IdsFacts(Entries(value));
    IdsFacts(ids);
    EntriesOfListed(ids);
    forall e | e in ids ensures Unquote(e) == e && e != [] {
      IdIsPlain(e);
    }
    UnquotedSame(ids);
    assert forall i :: 0 <= i < |ids| ==> ids[i] in ids;
    if ids != [] {
      ListedEnds(ids);
      IdIsPlain(ids[0]);
      IdIsPlain(ids[|ids| - 1]);
    }
    InnerOfBracketed(Listed(ids));
  }

  /** Names that survive: no bracket at the ends of the list, no name in quotes. */
  predicate NamesSurvive(names: seq<string>) {
    && (names != [] && names[0] != [] ==> !IsBracket(names[0][0]))
    && (names != [] && names[|names| - 1] != [] ==> !IsBracket(names[|names| - 1][|names[|names| - 1]| - 1]))
    && forall e :: e in names ==> !Wrapped(e)
  }

  lemma {:induction false} NonEmptySame(entries: seq<string>)
    requires forall i :: 0 <= i < |entries| ==> entries[i] != []
    ensures NonEmpty(entries) == entries
  {
    if entries != [] {
      NonEmptySame(entries[1..]);
    }
  }

  /** A saved name list that survives reads back as the names, trimmed, empty ones dropped. */
  lemma {:induction false} SurvivorsReadBack(value: string)
    requires NamesSurvive(Entries(value))
    ensures ParseNameList("[" + FormatNameList(value) + "]") == FormatNameList(value)
  {
    hide Entries, Tidy, Wrapped, IsBracket, Inner;
    var names := Entries(value);
    EntriesFacts(value);
    EntriesOfListed(names);
    assert forall i :: 0 <= i < |names| ==> names[i] in names;
    UnquotedSame(names);
    NonEmptySame(names);
    if names != [] {
      assert names[0] in names && names[|names| - 1] in names;
      ListedEnds(names);
    }
    InnerOfBracketed(Listed(names));
  }

  lemma FormattedAgain(value: string)
    ensures Entries(FormatNameList(value)) == Entries(value)
    ensures FormatNameList(FormatNameList(value)) == FormatNameList(value)
  {
    hide Entries, Tidy;
    EntriesFacts(value);
    EntriesOfListed(Entries(value));
  }

  lemma BracketedIsText(l: string)
    ensures Tidy("[" + l + "]") && !Wrapped("[" + l + "]")
  {
  }

  // ---- what a list that does not survive loses ----

  /** How many characters are neither comma nor white space: what names are made of. */
  function Weight(s: string): nat {
    if s == [] then 0 else (if s[0] == ',' || IsWhite(s[0]) then 0 else 1) + Weight(s[1..])
  }

  function Weights(entries: seq<string>): nat {
    if entries == [] then 0 else Weight(entries[0]) + Weights(entries[1..])
  }

  lemma {:induction false} WeightAppend(a: string, b: string)
    ensures Weight(a + b) == Weight(a) + Weight(b)
  {
    hide IsWhite;
    if a == [] {
      assert a + b == b;
    } else {
      assert (a + b)[1..] == a[1..] + b;
      WeightAppend(a[1..], b);
    }
  }

  lemma WeightSnoc(s: string)
    requires s != []
    ensures Weight(s) == Weight(s[..|s| - 1]) + Weight([s[|s| - 1]])
  {
    hide IsWhite, Weight;
    assert s == s[..|s| - 1] + [s[|s| - 1]];
    WeightAppend(s[..|s| - 1], [s[|s| - 1]]);
  }

  lemma WeightOne(c: char)
    ensures Weight([c]) == if c == ',' || IsWhite(c) then 0 else 1
  {
    hide IsWhite;
    assert [c][1..] == [] && Weight([]) == 0;
  }

  lemma {:induction false} WeightTrimEnd(s: string)
    ensures Weight(TrimEnd(s)) == Weight(s)
  {
    hide IsWhite, Weight;
    if s != [] && IsWhite(s[|s| - 1]) {
      WeightSnoc(s);
      WeightOne(s[|s| - 1]);
      WeightTrimEnd(s[..|s| - 1]);
    }
  }

  lemma {:induction false} WeightTrimStart(s: string)
    ensures Weight(TrimStart(s)) == Weight(s)
  {
    hide IsWhite;
    if s != [] && IsWhite(s[0]) {
      WeightTrimStart(s[1..]);
    }
  }

  lemma WeightTrim(s: string)
    ensures Weight(Trim(s)) == Weight(s)
  {
    WeightTrimEnd(s);
    WeightTrimStart(TrimEnd(s));
  }

  /** Splitting at commas and trimming keeps what names are made of. */
  lemma {:induction false} WeightsOfEntries(s: string)
    ensures Weights(Entries(s)) == Weight(s)
    decreases |s|
  {
    hide Weight, Trim;
    var n := CommaAt(s);
    WeightTrim(s[..n]);
    assert Weight([]) == 0 by {
      NoWeight();
    }
    if n == |s| {
      assert s[..n] == s;
    } else {
      assert s == s[..n] + ([s[n]] + s[n + 1..]);
      WeightAppend(s[..n], [s[n]] + s[n + 1..]);
      WeightAppend([s[n]], s[n + 1..]);
      WeightOne(s[n]);
      WeightsOfEntries(s[n + 1..]);
    }
    WeightsHead(Trim(s[..n]), if n == |s| then [] else Entries(s[n + 1..]));
  }

  lemma NoWeight()
    ensures Weight([]) == 0
  {
  }

  lemma WeightsHead(first: string, rest: seq<string>)
    ensures Weights((if first == [] then [] else [first]) + rest) == Weight(first) + Weights(rest)
  {
    NoWeight();
    if first == [] {
      assert [] + rest == rest;
    } else {
      assert ([first] + rest)[1..] == rest;
    }
  }

  lemma {:induction false} WeightOfListed(entries: seq<string>)
    ensures Weight(Listed(entries)) == Weights(entries)
  {
    hide Weight, IsWhite;
    if entries == [] {
      NoWeight();
    } else if |entries| == 1 {
      assert Weights(entries[1..]) == 0;
    } else {
      WeightOfListed(entries[1..]);
      var rest := Listed(entries[1..]);
      assert Listed(entries) == entries[0] + (", " + rest);
      WeightAppend(entries[0], ", " + rest);
      WeightAppend(", ", rest);
      Separator();
    }
  }

  lemma Separator()
    ensures Weight(", ") == 0
  {
    assert ", "[1..] == " " && " "[1..] == "";
  }

  lemma {:induction false} WeightOfHalved(s: string)
    ensures Weight(Halved(s)) <= Weight(s)
    decreases |s|
  {
    hide IsWhite, Weight;
    if |s| >= 2 && s[0] == '\'' && s[1] == '\'' {
      WeightOfHalved(s[2..]);
      assert s == "'" + ("'" + s[2..]);
      WeightAppend("'", "'" + s[2..]);
      WeightAppend("'", s[2..]);
      WeightAppend("'", Halved(s[2..]));
    } else if s != [] {
      WeightOfHalved(s[1..]);
      assert s == [s[0]] + s[1..];
      WeightAppend([s[0]], s[1..]);
      WeightAppend([s[0]], Halved(s[1..]));
    }
  }

  /** Dropping the quotes of a name loses weight. */
  lemma WeightOfUnquoted(s: string)
    ensures if Wrapped(s) then Weight(Unquote(s)) < Weight(s) else Weight(Unquote(s)) == Weight(s)
  {
    hide Weight, Halved;
    if Wrapped(s) {
      var inside := s[1..|s| - 1];
      WeightOfHalved(inside);
      assert s == [s[0]] + (inside + [s[|s| - 1]]);
      WeightAppend([s[0]], inside + [s[|s| - 1]]);
      WeightAppend(inside, [s[|s| - 1]]);
      WeightOne(s[0]);
    }
  }

  lemma {:induction false} WeightsOfUnquoted(entries: seq<string>)
    ensures Weights(UnquotedAll(entries)) <= Weights(entries)
    ensures (exists e :: e in entries && Wrapped(e)) ==> Weights(UnquotedAll(entries)) < Weights(entries)
  {
    hide Weight, Unquote, Wrapped;
    if entries != [] {
      WeightOfUnquoted(entries[0]);
      WeightsOfUnquoted(entries[1..]);
      assert UnquotedAll(entries)[1..] == UnquotedAll(entries[1..]);
    }
  }

  lemma {:induction false} WeightsOfNonEmpty(entries: seq<string>)
    ensures Weights(NonEmpty(entries)) == Weights(entries)
  {
    hide Weight;
    if entries != [] {
      NoWeight();
      WeightsOfNonEmpty(entries[1..]);
      if entries[0] != [] {
        assert NonEmpty(entries)[1..] == NonEmpty(entries[1..]);
      }
    }
  }

  lemma BracketWeighs(c: char)
    requires c == '[' || IsBracket(c)
    ensures Weight([c]) == 1
  {
    WeightOne(c);
  }

  lemma {:induction false} WeightDropLeft(s: string)
    ensures Weight(DropBracketsLeft(s)) <= Weight(s)
    ensures s != [] && IsBracket(s[0]) ==> Weight(DropBracketsLeft(s)) < Weight(s)
  {
    hide Weight, IsBracket;
    if s != [] && IsBracket(s[0]) {
      WeightDropLeft(s[1..]);
      assert s == [s[0]] + s[1..];
      WeightAppend([s[0]], s[1..]);
      BracketWeighs(s[0]);
    }
  }

  lemma {:induction false} WeightDropRight(s: string)
    ensures Weight(DropBracketsRight(s)) <= Weight(s) && DropBracketsRight(s) <= s
    ensures s != [] && IsBracket(s[|s| - 1]) ==> Weight(DropBracketsRight(s)) < Weight(s)
  {
    hide Weight, IsBracket;
    if s != [] && IsBracket(s[|s| - 1]) {
      WeightDropRight(s[..|s| - 1]);
      WeightSnoc(s);
      BracketWeighs(s[|s| - 1]);
    }
  }

  /** What is left of a bracketed list, its closing brackets dropped first. */
  lemma InnerIs(l: string)
    ensures var r := DropBracketsRight("[" + l); Inner("[" + l + "]") == if r == [] then [] else DropBracketsLeft(r[1..])
  {
    hide IsWhite;
    var s, open := "[" + l + "]", "[" + l;
    BracketedIsText(l);
    TrimTidy(s);
    assert s[..|s| - 1] == open && DropBracketsRight(s) == DropBracketsRight(open);
    DropRightIsPrefix(open);
  }

  lemma {:induction false} DropRightIsPrefix(s: string)
    ensures DropBracketsRight(s) <= s
    ensures s != [] && !IsBracket(s[|s| - 1]) ==> DropBracketsRight(s) == s
  {
    hide IsBracket;
    if s != [] && IsBracket(s[|s| - 1]) {
      DropRightIsPrefix(s[..|s| - 1]);
    }
  }

  /** Bracketing a list and dropping the brackets loses weight if it had one at its ends. */
  lemma WeightOfInner(l: string)
    ensures Weight(Inner("[" + l + "]")) <= Weight(l)
    ensures l != [] && (IsBracket(l[0]) || IsBracket(l[|l| - 1])) ==> Weight(Inner("[" + l + "]")) < Weight(l)
  {
    hide Weight, DropBracketsRight, DropBracketsLeft, IsBracket, Inner;
    var open := "[" + l;
    var r := DropBracketsRight(open);
    InnerIs(l);
    WeightDropRight(open);
    WeightAppend("[", l);
    NoWeight();
    BracketWeighs('[');
    if r == [] {
      if l != [] && (IsBracket(l[0]) || IsBracket(l[|l| - 1])) {
        WeighsSomething(l, if IsBracket(l[0]) then 0 else |l| - 1);
      }
    } else {
      var tail := r[1..];
      assert r == "[" + tail;
      WeightAppend("[", tail);
      WeightDropLeft(tail);
      if l != [] {
        assert open[|open| - 1] == l[|l| - 1];
        DropRightIsPrefix(open);
        if !IsBracket(l[|l| - 1]) {
          assert r == open && tail == l;
        }
      }
    }
  }

  lemma WeighsSomething(l: string, i: nat)
    requires i < |l| && IsBracket(l[i])
    ensures Weight(l) > 0
  {
    hide Weight, IsBracket;
    assert l == l[..i] + ([l[i]] + l[i + 1..]);
    WeightAppend(l[..i], [l[i]] + l[i + 1..]);
    WeightAppend([l[i]], l[i + 1..]);
    BracketWeighs(l[i]);
  }

  /** What is read back of a saved list weighs less than the list if it does not survive. */
  lemma {:induction false} LostWeight(value: string)
    requires !NamesSurvive(Entries(value))
    ensures Weight(ParseNameList("[" + FormatNameList(value) + "]")) < Weight(FormatNameList(value))
  {
    hide Entries, Tidy, Wrapped, IsBracket, Inner, Weight, Weights, UnquotedAll, NonEmpty, Listed;
    var names := Entries(value);
    var l := Listed(names);
    EntriesFacts(value);
    assert forall i :: 0 <= i < |names| ==> names[i] in names;
    var inner := Inner("[" + l + "]");
    var read := Entries(inner);
    WeightOfInner(l);
    WeightsOfEntries(inner);
    WeightsOfUnquoted(read);
    WeightsOfNonEmpty(UnquotedAll(read));
    WeightOfListed(NonEmpty(UnquotedAll(read)));
    if names != [] {
      ListedEnds(names);
    }
    if !(l != [] && (IsBracket(l[0]) || IsBracket(l[|l| - 1]))) {
      InnerOfBracketed(l);
      EntriesOfListed(names);
    }
  }

  /** A saved name list reads back as the names, trimmed and empty ones dropped, if and only
      if no bracket stands at its ends and no name is in quotes; and only then is it saved
      again as it was. */
  lemma NameListRoundTrip(value: string)
    ensures ParseNameList("[" + FormatNameList(value) + "]") == FormatNameList(value) <==> NamesSurvive(Entries(value))
    ensures FormatNameList(ParseNameList("[" + FormatNameList(value) + "]")) == FormatNameList(value) <==> NamesSurvive(Entries(value))
    ensures FormatNameList(FormatNameList(value)) == FormatNameList(value)
    ensures Tidy("[" + FormatNameList(value) + "]") && !Wrapped("[" + FormatNameList(value) + "]")
  {
    hide Entries, Tidy, Wrapped, NamesSurvive, ParseNameList, Listed, Weight;
    FormattedAgain(value);
    BracketedIsText(FormatNameList(value));
    var read := ParseNameList("[" + FormatNameList(value) + "]");
    if NamesSurvive(Entries(value)) {
      SurvivorsReadBack(value);
    } else {
      LostWeight(value);
      WeightsOfEntries(read);
      WeightOfListed(Entries(read));
    }
  }

  /** A command written in quotes is read back without them. */
  lemma QuotesAreLost()
    ensures !NamesSurvive(Entries("'git'")) && ParseNameList("[" + FormatNameList("'git'") + "]") == "git"
  {
    hide Entries, Inner, Trim;
    var quoted := "'git'";
    EntriesHead(quoted, quoted, "");
    assert quoted + "" == quoted && Entries(quoted) == [quoted];
    InnerOfBracketed(quoted);
    assert quoted[1..4] == "git" && Halved("git") == "git";
    assert UnquotedAll([quoted]) == ["git"] && NonEmpty(["git"]) == ["git"];
  }

  ghost predicate AllOneLine(lines: seq<string>) {
    forall i :: 0 <= i < |lines| ==> OneLine(lines[i])
  }

  lemma {:induction false} ListedOneLine(entries: seq<string>)
    requires AllOneLine(entries)
    ensures OneLine(Listed(entries))
  {
    if |entries| > 1 {
      ListedOneLine(entries[1..]);
    }
  }

  /** What comes out of a one-line text is one line. */
  lemma EntriesOneLine(value: string)
    requires OneLine(value)
    ensures OneLine("[" + FormatNameList(value) + "]") && OneLine("[" + FormatIdList(value) + "]")
  {
    hide Entries, IsId;
    EntriesFacts(value);
    forall e | e in Entries(value) ensures OneLine(e) {
      forall i | 0 <= i < |e| ensures e[i] != '\n' && e[i] != '\r' {
        assert e[i] in e;
        var k :| 0 <= k < |value| && value[k] == e[i];
      }
    }
    var names, ids := Entries(value), Ids(Entries(value));
    IdsFacts(names);
    assert (forall i :: 0 <= i < |names| ==> names[i] in names) && forall i :: 0 <= i < |ids| ==> ids[i] in ids;
    ListedOneLine(names);
    ListedOneLine(ids);
  }

  lemma {:induction false} HalvedOneLine(s: string)
    requires OneLine(s)
    ensures OneLine(Halved(s))
    decreases |s|
  {
    if |s| >= 2 && s[0] == '\'' && s[1] == '\'' {
      HalvedOneLine(s[2..]);
    } else if s != [] {
      HalvedOneLine(s[1..]);
    }
  }

  lemma UnquotedOneLine(s: string)
    requires OneLine(s)
    ensures OneLine(Unquote(s))
  {
    if Wrapped(s) {
      HalvedOneLine(s[1..|s| - 1]);
    }
  }

  lemma {:induction false} AllUnquotedOneLine(entries: seq<string>)
    requires AllOneLine(entries)
    ensures AllOneLine(NonEmpty(UnquotedAll(entries)))
  {
    hide Unquote, OneLine;
    if entries != [] {
      var rest := UnquotedAll(entries[1..]);
      UnquotedOneLine(entries[0]);
      AllUnquotedOneLine(entries[1..]);
      assert UnquotedAll(entries)[1..] == rest;
    }
  }

  lemma {:induction false} InnerOneLine(s: string)
    requires OneLine(s)
    ensures OneLine(DropBracketsLeft(s)) && OneLine(DropBracketsRight(s))
  {
    hide IsBracket;
    if s != [] {
      if IsBracket(s[0]) {
        InnerOneLine(s[1..]);
      }
      if IsBracket(s[|s| - 1]) {
        InnerOneLine(s[..|s| - 1]);
      }
    }
  }

  /** A name list read from one line is one line. */
  lemma ParsedOneLine(value: string)
    requires OneLine(value)
    ensures OneLine(ParseNameList(value))
  {
    hide OneLine, Entries, Trim, Listed, NonEmpty, UnquotedAll, DropBracketsLeft, DropBracketsRight;
    PartOneLine(value, Trim(value));
    InnerOneLine(Trim(value));
    InnerOneLine(DropBracketsRight(Trim(value)));
    var inner := Inner(value);
    EntriesFacts(inner);
    forall i | 0 <= i < |Entries(inner)| ensures OneLine(Entries(inner)[i]) {
      assert Entries(inner)[i] in Entries(inner);
      PartOfOneLine(inner, Entries(inner)[i]);
    }
    AllUnquotedOneLine(Entries(inner));
    ListedOneLine(NonEmpty(UnquotedAll(Entries(inner))));
  }

  lemma PartOneLine(s: string, t: string)
    requires OneLine(s) && t == Trim(s)
    ensures OneLine(t)
  {
    TrimIsTidy(s);
    PartOfOneLine(s, t);
  }

  lemma PartOfOneLine(s: string, t: string)
    requires OneLine(s) && forall c :: c in t ==> c in s
    ensures OneLine(t)
  {
    forall i | 0 <= i < |t| ensures t[i] != '\n' && t[i] != '\r' {
      assert t[i] in s;
      var k :| 0 <= k < |s| && s[k] == t[i];
    }
  }
}
