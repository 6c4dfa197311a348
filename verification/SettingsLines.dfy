/** The Control Center's settings file: what is written and how it is read, line by line
    (desktop/EvoMesh.Desktop/EvoMeshYamlSettings.cs). */
module SettingsLines {
  import opened Options
  import opened SettingsValues

  // ---- scalar settings ----

  datatype Field = Field(section: string, key: string)

  /** A scalar setting with what decides how it is printed and parsed. */
  datatype Value =
    | Str(text: string)
    | Int(n: int)
    | Dbl(number: string)
    | Flag(on: bool, fallback: bool)
    | Objective(text: string)
    | IdList(text: string)
    | NameList(text: string)

  /** `string.IsNullOrWhiteSpace`. */
  predicate Blank(s: string) {
    Trim(s) == ""
  }

  function ValueText(v: Value): string {
    match v
    case Str(s) => Quote(s)
    case Int(n) => IntText(n)
    case Dbl(d) => d
    case Flag(b, _) => BoolText(b)
    case Objective(s) => if Blank(s) then "null" else Quote(s)
    case IdList(s) => "[" + FormatIdList(s) + "]"
    case NameList(s) => "[" + FormatNameList(s) + "]"
  }

  /** The setting after reading `value` over what is there. */
  function Parsed(current: Value, value: string): Value {
    match current
    case Str(_) => Str(value)
    case Int(n) => Int(ParseInt(value, n))
    case Dbl(d) => Dbl(ParseDouble(value, d))
    case Flag(_, fallback) => Flag(ParseBool(value, fallback), fallback)
    case Objective(_) => Objective(if value == "null" || value == "~" then "" else value)
    case IdList(_) => IdList(ParseIdList(value))
    case NameList(_) => NameList(ParseNameList(value))
  }

  /** The setting as a saved file holds it. */
  function Normal(v: Value): Value {
    match v
    case Objective(s) => if Blank(s) then Objective("") else v
    case IdList(s) => IdList(FormatIdList(s))
    case NameList(s) => NameList(FormatNameList(s))
    case _ => v
  }

  /** The setting as it is read back from a saved file. */
  function ReadBack(v: Value): Value {
    match v
    case Objective(s) => if Blank(s) || s == "null" || s == "~" then Objective("") else v
    case NameList(s) => NameList(ParseNameList("[" + FormatNameList(s) + "]"))
    case _ => Normal(v)
  }

  /** What is on one line, in range, and a number where a number belongs. */
  ghost predicate ValueOk(v: Value) {
    match v
    case Str(s) => OneLine(s)
    case Int(n) => IsInt(n)
    case Dbl(d) => IsDouble(d)
    case Flag(_, _) => true
    case Objective(s) => OneLine(s)
    case IdList(s) => OneLine(s)
    case NameList(s) => OneLine(s)
  }

  /** An objective that is no word for none, a name list no quotes or brackets are lost from. */
  predicate Survives(v: Value) {
    match v
    case Objective(s) => s != "null" && s != "~"
    case NameList(s) => NamesSurvive(Entries(s))
    case _ => true
  }

  predicate SameKind(a: Value, b: Value) {
    match a
    case Str(_) => b.Str?
    case Int(_) => b.Int?
    case Dbl(_) => b.Dbl?
    case Flag(_, fallback) => b.Flag? && b.fallback == fallback
    case Objective(_) => b.Objective?
    case IdList(_) => b.IdList?
    case NameList(_) => b.NameList?
  }

  lemma SameKindSelf(v: Value)
    ensures SameKind(v, v)
  {
  }

  /** One setting written and read back. */
  lemma ValueRoundTrip(v: Value, current: Value)
    requires ValueOk(v) && SameKind(v, current)
    ensures Parsed(current, Unquote(ValueText(v))) == ReadBack(v)
    ensures Tidy(ValueText(v)) && OneLine(ValueText(v)) && ValueText(v) != ""
  {
    hide Tidy, Quote, IntText, IsInt, IsDouble, FormatIdList, FormatNameList, ParseIdList, ParseNameList, BoolText, ParseBool,
      TryInt, ParseDouble, NamesSurvive, Trim, Halved, OneLine, Entries;
    match v
    case Str(s) => QuoteRoundTrip(s); QuotedOneLine(s);
    case Int(n) => IntRoundTrip(n);
    case Dbl(d) => DoubleRoundTrip(d); DoubleIsText(d);
    case Flag(b, fallback) => BoolRoundTrip(b, fallback); WordsAreText();
    case Objective(s) =>
      if Blank(s) {
        WordsAreText();
      } else {
        QuoteRoundTrip(s);
        QuotedOneLine(s);
      }
    case IdList(s) => IdListRoundTrip(s); EntriesOneLine(s);
    case NameList(s) => NameListRoundTrip(s); EntriesOneLine(s);
  }

  lemma DoubleIsText(d: string)
    requires IsDouble(d)
    ensures d != ""
  {
  }

  lemma WordsAreText()
    ensures Tidy("null") && OneLine("null") && OneLine("") && !Wrapped("null") && BoolText(true) != "" && BoolText(false) != ""
  {
  }

  /** A setting is read back in its normal form exactly when it survives. */
  lemma ReadBackExactly(v: Value)
    ensures ReadBack(v) == Normal(v) <==> Survives(v)
  {
    hide FormatIdList, FormatNameList, ParseNameList, NamesSurvive, Trim, Entries;
    match v
    case Objective(s) => WordsAreNotBlank();
    case NameList(s) => NameListRoundTrip(s);
    case _ =>
  }

  lemma WordsAreNotBlank()
    ensures !Blank("null") && !Blank("~") && Blank("")
  {
    TrimTidy("null");
    TrimTidy("~");
  }

  /** And only then is it printed again as it was. */
  lemma PrintsAgainExactly(v: Value)
    ensures ValueText(ReadBack(v)) == ValueText(v) <==> Survives(v)
  {
    hide FormatIdList, FormatNameList, ParseNameList, NamesSurvive, Trim, Entries, Doubled;
    match v
    case Objective(s) =>
      WordsAreNotBlank();
      assert Quote(s)[0] == '\'';
    case IdList(s) => IdListRoundTrip(s);
    case NameList(s) =>
      NameListRoundTrip(s);
      BracketsApart(FormatNameList(ParseNameList("[" + FormatNameList(s) + "]")), FormatNameList(s));
    case _ =>
  }

  lemma BracketsApart(a: string, b: string)
    ensures "[" + a + "]" == "[" + b + "]" <==> a == b
  {
    var x, y := "[" + a + "]", "[" + b + "]";
    assert x[1..|x| - 1] == a && y[1..|y| - 1] == b;
  }

  /** What is read back can be saved again. */
  lemma ReadBackOk(v: Value)
    requires ValueOk(v)
    ensures ValueOk(ReadBack(v)) && SameKind(v, ReadBack(v))
  {
    hide FormatIdList, FormatNameList, ParseNameList, IsInt, IsDouble, OneLine, Trim;
    match v
    case Objective(s) => WordsAreText();
    case IdList(s) => EntriesOneLine(s); InsideOneLine(FormatIdList(s));
    case NameList(s) => EntriesOneLine(s); ParsedOneLine("[" + FormatNameList(s) + "]");
    case _ =>
  }

  lemma InsideOneLine(s: string)
    requires OneLine("[" + s + "]")
    ensures OneLine(s)
  {
    var t := "[" + s + "]";
    forall i | 0 <= i < |s| ensures s[i] != '\n' && s[i] != '\r' {
      assert t[i + 1] == s[i];
    }
  }

  lemma BlankIsBlank()
    ensures Blank("")
  {
  }

  /** An objective is read back as written exactly when it is empty, or neither blank nor
      one of the two words that stand for none. */
  lemma ObjectiveExactly(s: string, current: Value)
    requires current.Objective?
    ensures Parsed(current, Unquote(ValueText(Objective(s)))) == Objective(s) <==> (s == "" || (!Blank(s) && s != "null" && s != "~"))
  {
    hide Quote, Trim, Halved;
    BlankIsBlank();
    if Blank(s) {
      WordsAreText();
    } else {
      QuoteRoundTrip(s);
    }
  }

  // ---- providers, agents ----

  datatype Named<V> = Named(name: string, value: V)

  datatype Provider = Provider(baseUrl: string, model: string, apiKey: string, timeout: string, numCtx: int,
                               apiKeyRef: string, tags: seq<Named<int>>)

  datatype Agent = Agent(provider: string, model: string, numCtx: Option<int>)

  datatype Settings = Settings(scalars: map<Field, Value>, defaultProvider: string,
                               providers: seq<Named<Provider>>, agents: seq<Named<Agent>>)

  const BLANK_PROVIDER := Provider("", "", "", "600", 65536, "", [])
  const BLANK_AGENT := Agent("", "", None)

  function Folded(s: string): string {
    if s == [] then [] else [if 'a' <= s[0] <= 'z' then 'A' + (s[0] - 'a') else s[0]] + Folded(s[1..])
  }

  predicate SameLetter(a: char, b: char) {
    a == b || ('a' <= a <= 'z' && a as int == b as int + 32) || ('a' <= b <= 'z' && b as int == a as int + 32)
  }

  /** Names are the same name when they differ in letter case only. */
  lemma {:induction false} SameName(a: string, b: string)
    ensures Folded(a) == Folded(b) <==> |a| == |b| && forall i :: 0 <= i < |a| ==> SameLetter(a[i], b[i])
  {
    if a == [] || b == [] {
    } else {
      SameName(a[1..], b[1..]);
      assert Folded(a) == [Folded(a)[0]] + Folded(a[1..]) && Folded(b) == [Folded(b)[0]] + Folded(b[1..]);
      assert Folded(a)[0] == Folded(b)[0] <==> SameLetter(a[0], b[0]);
      assert Folded(a)[1..] == Folded(a[1..]) && Folded(b)[1..] == Folded(b[1..]);
      assert forall i :: 0 < i < |a| && i < |b| ==> a[i] == a[1..][i - 1] && b[i] == b[1..][i - 1];
      TailsAgree(a, b);
    }
  }

  lemma TailsAgree(a: string, b: string)
    requires a != [] && b != []
    ensures (|a| == |b| && forall i :: 0 <= i < |a| ==> SameLetter(a[i], b[i])) <==>
      SameLetter(a[0], b[0]) && |a[1..]| == |b[1..]| && forall i :: 0 <= i < |a[1..]| ==> SameLetter(a[1..][i], b[1..][i])
  {
    hide SameLetter;
    if |a| == |b| && SameLetter(a[0], b[0]) && forall i :: 0 <= i < |a[1..]| ==> SameLetter(a[1..][i], b[1..][i]) {
      forall i | 0 <= i < |a| ensures SameLetter(a[i], b[i]) {
        if i > 0 {
          assert SameLetter(a[1..][i - 1], b[1..][i - 1]);
        }
      }
    }
  }

  /** Where a dictionary that ignores case holds a name, or its size. */
  function Place<V>(entries: seq<Named<V>>, name: string): (i: nat)
    ensures i <= |entries|
  {
    if entries == [] || Folded(entries[0].name) == Folded(name) then 0 else 1 + Place(entries[1..], name)
  }

  /** `TryAdd`. */
  function TryAdd<V>(entries: seq<Named<V>>, name: string, v: V): seq<Named<V>> {
    if Place(entries, name) < |entries| then entries else entries + [Named(name, v)]
  }

  /** `entries[name] = v`. */
  function Put<V>(entries: seq<Named<V>>, name: string, v: V): seq<Named<V>> {
    var i := Place(entries, name);
    if i < |entries| then entries[i := entries[i].(value := v)] else entries + [Named(name, v)]
  }

  predicate IsNew<V>(entries: seq<Named<V>>, name: string) {
    forall i :: 0 <= i < |entries| ==> Folded(entries[i].name) != Folded(name)
  }

  predicate DistinctNames<V>(entries: seq<Named<V>>) {
    forall i, j :: 0 <= i < j < |entries| ==> Folded(entries[i].name) != Folded(entries[j].name)
  }

  lemma {:induction false} PlaceOfNew<V>(entries: seq<Named<V>>, name: string)
    requires IsNew(entries, name)
    ensures Place(entries, name) == |entries|
  {
    if entries != [] {
      PlaceOfNew(entries[1..], name);
    }
  }

  lemma {:induction false} PlaceOfLast<V>(entries: seq<Named<V>>, last: Named<V>)
    requires IsNew(entries, last.name)
    ensures Place(entries + [last], last.name) == |entries|
  {
    var all := entries + [last];
    if entries != [] {
      assert all[1..] == entries[1..] + [last] && all[0] == entries[0];
      PlaceOfLast(entries[1..], last);
    }
  }

  // ---- reading one line ----

  datatype Line = Skip | Entry(indent: nat, key: string, value: string, line: string)

  function ColonAt(s: string): (n: nat)
    ensures n <= |s| && (n < |s| ==> s[n] == ':') && forall i :: 0 <= i < n ==> s[i] != ':'
  {
    if s == [] || s[0] == ':' then 0 else 1 + ColonAt(s[1..])
  }

  function ReadLine(raw: string): (r: Line)
    ensures r.Entry? ==> ColonAt(r.line) < |r.line|
  {
    var line := Trim(raw);
    var separator := ColonAt(line);
    if line == "" || line[0] == '#' || separator == |line| then Skip
    else Entry(Indent(raw), Trim(line[..separator]), Unquote(Trim(line[separator + 1..])), line)
  }

  /** A name that stands as a key of its own: no colon, no white space around it, no comment. */
  predicate GoodName(name: string) {
    Tidy(name) && (name != [] ==> name[0] != '#') && forall i :: 0 <= i < |name| ==> name[i] != ':'
  }

  function KeyLine(indent: nat, key: string, text: string): string {
    Blanks(indent) + (key + ":" + if text == "" then "" else " " + text)
  }

  lemma {:induction false} ColonAtIs(s: string, n: nat)
    requires n < |s| && s[n] == ':' && forall i :: 0 <= i < n ==> s[i] != ':'
    ensures ColonAt(s) == n
  {
    if n > 0 {
      ColonAtIs(s[1..], n - 1);
    }
  }

  lemma PaddedTrims(text: string)
    requires Tidy(text) && text != ""
    ensures Trim(" " + text) == text
  {
    assert Blanks(0) == "" && Blanks(1) == " ";
    TrimIndented(1, text);
  }

  /** A printed line reads back as its indent, key and text. */
  lemma KeyLineReads(indent: nat, key: string, text: string)
    requires GoodName(key) && Tidy(text)
    ensures var r := ReadLine(KeyLine(indent, key, text));
      r.Entry? && r.indent == indent && r.key == key && r.value == Unquote(text)
    ensures ReadLine(KeyLine(indent, key, text)).line == key + ":" + if text == "" then "" else " " + text
  {
    hide IsWhite, Unquote;
    var line := key + ":" + if text == "" then "" else " " + text;
    assert line[|key|] == ':' && forall i :: 0 <= i < |key| ==> line[i] == key[i];
    LineIsTidy(key, text);
    TrimIndented(indent, line);
    ColonAtIs(line, |key|);
    assert line[..|key|] == key;
    TrimTidy(key);
    var rest := line[|key| + 1..];
    if text == "" {
      assert rest == "";
      TrimTidy("");
    } else {
      assert rest == " " + text;
      PaddedTrims(text);
    }
    Blanks0(indent, line);
  }

  lemma LineIsTidy(key: string, text: string)
    requires GoodName(key) && Tidy(text)
    ensures var line := key + ":" + if text == "" then "" else " " + text; line != "" && Tidy(line) && line[0] != '#'
  {
  }

  lemma Blanks0(indent: nat, line: string)
    requires line != "" && Tidy(line)
    ensures Indent(Blanks(indent) + line) == indent
  {
    hide IsWhite;
    TrimIndented(indent, line);
  }

  /** A header line gives its name back exactly when the name is good: a colon cuts it
      short, white space around it is lost, a leading `#` hides it. */
  lemma HeaderReadsExactly(indent: nat, name: string)
    ensures (ReadLine(KeyLine(indent, name, "")).Entry? && ReadLine(KeyLine(indent, name, "")).key == name) <==> GoodName(name)
  {
    hide IsWhite, Unquote, Indent;
    if GoodName(name) {
      TrimTidy("");
      KeyLineReads(indent, name, "");
    } else {
      var raw := KeyLine(indent, name, "");
      var line := Trim(raw);
      var separator := ColonAt(line);
      if ReadLine(raw).Entry? && ReadLine(raw).key == name {
        TrimIsTidy(line[..separator]);
        forall i | 0 <= i < |name| ensures name[i] != ':' {
          assert name[i] in Trim(line[..separator]);
        }
        HashHides(indent, name);
      }
    }
  }

  lemma HashHides(indent: nat, name: string)
    requires Tidy(name) && name != "" && name[0] == '#'
    ensures ReadLine(KeyLine(indent, name, "")).Skip?
  {
    hide IsWhite, Unquote;
    var line := name + ":" + "";
    assert line == name + ":";
    ColonIsNoSpace();
    TrimIndented(indent, line);
  }

  lemma ColonIsNoSpace()
    ensures !IsWhite(':')
  {
  }
}
