/** The scalar settings survive saving and loading
    (desktop/EvoMesh.Desktop/EvoMeshYamlSettings.cs). */
module SettingsScalars {
  import opened Options
  import opened SettingsValues
  import opened SettingsLines
  import opened SettingsFile

  lemma {:induction false} ReadAppend(r: Reader, a: seq<string>, b: seq<string>)
    ensures ReadFrom(r, a + b) == ReadFrom(ReadFrom(r, a), b)
    decreases |a|
  {
    hide Step;
    if a == [] {
      assert a + b == b;
    } else {
      assert (a + b)[1..] == a[1..] + b && (a + b)[0] == a[0];
      ReadAppend(Step(r, a[0]), a[1..], b);
    }
  }

  lemma ReadOne(r: Reader, line: string, rest: seq<string>)
    ensures ReadFrom(r, [line] + rest) == ReadFrom(Step(r, line), rest)
  {
    hide Step;
    assert ([line] + rest)[1..] == rest;
  }

  /** A printed line is read for its indent, its key and its text. */
  lemma StepKey(r: Reader, indent: nat, key: string, text: string)
    requires GoodName(key) && Tidy(text)
    ensures ReadLine(KeyLine(indent, key, text)).Entry?
    ensures Step(r, KeyLine(indent, key, text)) ==
      StepEntry(r, indent, key, Unquote(text), ReadLine(KeyLine(indent, key, text)).line)
  {
    hide StepEntry, Tidy, GoodName, ReadLine, KeyLine, Unquote;
    KeyLineReads(indent, key, text);
  }

  // ---- keys of the file's own ----

  /** Lower-case letters and underscores. */
  predicate Plain(s: string) {
    s != [] && forall i :: 0 <= i < |s| ==> 'a' <= s[i] <= 'z' || s[i] == '_'
  }

  lemma PlainIsGood(s: string)
    requires Plain(s)
    ensures GoodName(s) && OneLine(s)
  {
  }

  ghost predicate GroupOk(g: Group) {
    && (forall i :: 0 <= i < |g.rows| ==> Plain(g.rows[i].key))
    && (if g.section == "" then forall i :: 0 <= i < |g.rows| ==> IsTopKey(g.rows[i].key)
        else IsFlat(g.section) && Plain(g.section) && !IsTopKey(g.section))
  }

  lemma TopKeys1()
    ensures Plain("environment_name") && Plain("data_path") && Plain("generation_path") && Plain("workspace_path")
  {
  }

  lemma TopKeys2()
    ensures Plain("log_level")
  {
  }

  lemma TopOk()
    ensures GroupOk(Group("", TOP))
  {
    hide Plain, IsTopKey, IsFlat;
    TopKeys1();
    TopKeys2();
    TopKeysOk();
  }

  lemma RuntimeKeys1()
    ensures Plain("cycle_seconds") && Plain("stagger_seconds") && Plain("prompt_chars") && Plain("memory_chars")
  {
  }

  lemma RuntimeKeys2()
    ensures Plain("context_chars") && Plain("inbox_chars") && Plain("beliefs_chars")
  {
  }

  lemma RuntimeOk()
    ensures GroupOk(Group("runtime", RUNTIME))
  {
    hide Plain, IsTopKey, IsFlat;
    RuntimeKeys1();
    RuntimeKeys2();
    SectionsOk();
  }

  lemma EvolutionKeys1()
    ensures Plain("autonomous") && Plain("cycle_seconds") && Plain("auto_validate") && Plain("max_repairs")
  {
  }

  lemma EvolutionKeys2()
    ensures Plain("auto_promote") && Plain("auto_restart") && Plain("restart_delay_seconds") && Plain("objective")
  {
  }

  lemma EvolutionOk()
    ensures GroupOk(Group("evolution", EVOLUTION))
  {
    hide Plain, IsTopKey, IsFlat;
    EvolutionKeys1();
    EvolutionKeys2();
    SectionsOk();
  }

  lemma HarnessKeys1()
    ensures Plain("enabled") && Plain("allow_write") && Plain("max_steps") && Plain("max_seconds")
  {
  }

  lemma HarnessKeys2()
    ensures Plain("transcript_chars") && Plain("shell_allow") && Plain("shell_seconds") && Plain("tool_result_chars")
  {
  }

  lemma HarnessKeys3()
    ensures Plain("tool_result_lines") && Plain("grep_matches") && Plain("session_path") && Plain("workers")
  {
  }

  lemma HarnessKeys4()
    ensures Plain("max_queue")
  {
  }

  lemma HarnessOk()
    ensures GroupOk(Group("harness", HARNESS))
  {
    hide Plain, IsTopKey, IsFlat;
    HarnessKeys1();
    HarnessKeys2();
    HarnessKeys3();
    HarnessKeys4();
    SectionsOk();
  }

  lemma GitKeys1()
    ensures Plain("author_name") && Plain("author_email") && Plain("auto_push") && Plain("remote")
  {
  }

  lemma GitKeys2()
    ensures Plain("branch")
  {
  }

  lemma GitOk()
    ensures GroupOk(Group("git", GIT))
  {
    hide Plain, IsTopKey, IsFlat;
    GitKeys1();
    GitKeys2();
    SectionsOk();
  }

  lemma TelegramKeys1()
    ensures Plain("enabled") && Plain("token") && Plain("allowed_chat_ids") && Plain("adopt_first_chat")
  {
  }

  lemma TelegramKeys2()
    ensures Plain("poll_timeout_seconds") && Plain("announcements")
  {
  }

  lemma TelegramOk()
    ensures GroupOk(Group("telegram", TELEGRAM))
  {
    hide Plain, IsTopKey, IsFlat;
    TelegramKeys1();
    TelegramKeys2();
    SectionsOk();
  }

  lemma TopKeysOk()
    ensures IsTopKey("environment_name") && IsTopKey("data_path") && IsTopKey("generation_path")
    ensures IsTopKey("workspace_path") && IsTopKey("log_level")
  {
  }

  lemma SectionsOk()
    ensures !IsTopKey("runtime") && !IsTopKey("evolution") && !IsTopKey("harness") && !IsTopKey("git") && !IsTopKey("telegram")
    ensures !IsTopKey("system_agents") && !IsTopKey("models")
    ensures !IsFlat("system_agents") && !IsFlat("models")
    ensures IsFlat("runtime") && IsFlat("evolution") && IsFlat("harness") && IsFlat("git") && IsFlat("telegram")
    ensures Plain("runtime") && Plain("evolution") && Plain("harness") && Plain("git") && Plain("telegram")
  {
    hide Plain;
    SectionsPlain();
  }

  lemma SectionsPlain()
    ensures Plain("runtime") && Plain("evolution") && Plain("harness") && Plain("git") && Plain("telegram")
  {
  }

  lemma GroupsOk()
    ensures forall i :: 0 <= i < |GROUPS| ==> GroupOk(GROUPS[i])
  {
    hide GroupOk;
    TopOk();
    RuntimeOk();
    EvolutionOk();
    HarnessOk();
    GitOk();
    TelegramOk();
  }

  // ---- one scalar ----

  /** The same fields of the same kinds. */
  ghost predicate SameShape(a: map<Field, Value>, b: map<Field, Value>) {
    a.Keys == b.Keys && forall f :: f in a ==> SameKind(b[f], a[f])
  }

  function Filled(r: Reader, scalars: map<Field, Value>): Reader {
    r.(settings := r.settings.(scalars := scalars))
  }

  lemma FlatRow(r: Reader, section: string, key: string, v: Value)
    requires r.section == Some(section) && IsFlat(section) && Plain(key)
    requires Field(section, key) in r.settings.scalars && SameKind(v, r.settings.scalars[Field(section, key)]) && ValueOk(v)
    ensures Step(r, KeyLine(2, key, ValueText(v))) == Filled(r, r.settings.scalars[Field(section, key) := ReadBack(v)])
  {
    hide ValueText, Parsed, ReadBack, ValueOk, SameKind, Tidy, GoodName, IsFlat, Step, KeyLine, ReadLine, Plain, Unquote;
    PlainIsGood(key);
    ValueRoundTrip(v, r.settings.scalars[Field(section, key)]);
    StepKey(r, 2, key, ValueText(v));
  }

  lemma TopRow(r: Reader, key: string, v: Value)
    requires IsTopKey(key) && Plain(key)
    requires Field("", key) in r.settings.scalars && SameKind(v, r.settings.scalars[Field("", key)]) && ValueOk(v)
    ensures Step(r, KeyLine(0, key, ValueText(v))).settings ==
      r.settings.(scalars := r.settings.scalars[Field("", key) := ReadBack(v)])
  {
    hide ValueText, Parsed, ReadBack, ValueOk, SameKind, Tidy, GoodName, IsTopKey, Step, KeyLine, ReadLine, Plain, Unquote;
    PlainIsGood(key);
    ValueRoundTrip(v, r.settings.scalars[Field("", key)]);
    StepKey(r, 0, key, ValueText(v));
  }

  /** A section's own line opens it and closes whatever was open. */
  lemma {:induction false} SectionHeader(r: Reader, section: string)
    requires Plain(section) && !IsTopKey(section)
    ensures Step(r, KeyLine(0, section, "")) == Reader(r.settings, Some(section), false, None, None, None)
  {
    hide Tidy, GoodName, IsTopKey, Step, KeyLine, ReadLine, Plain;
    PlainIsGood(section);
    EmptyTidy();
    StepKey(r, 0, section, "");
  }

  lemma EmptyTidy()
    ensures Tidy("") && Unquote("") == "" && OneLine("")
  {
  }

  // ---- a group of scalars ----

  function FillRows(scalars: map<Field, Value>, section: string, rows: seq<Row>, want: map<Field, Value>): map<Field, Value>
    requires forall row :: row in rows ==> Field(section, row.key) in want
    decreases |rows|
  {
    if rows == [] then scalars
    else
      var f := Field(section, rows[0].key);
      FillRows(scalars[f := ReadBack(want[f])], section, rows[1..], want)
  }

  lemma ReadBackKeepsKind(v: Value, current: Value)
    requires SameKind(v, current)
    ensures SameKind(v, ReadBack(v))
  {
    hide Trim, FormatIdList, FormatNameList, ParseNameList;
  }

  lemma FillKeepsShape(scalars: map<Field, Value>, f: Field, want: map<Field, Value>)
    requires SameShape(scalars, want) && f in want
    ensures SameShape(scalars[f := ReadBack(want[f])], want)
  {
    hide SameKind, ReadBack;
    ReadBackKeepsKind(want[f], scalars[f]);
  }

  ghost predicate AllOk(want: map<Field, Value>) {
    forall f :: f in want ==> ValueOk(want[f])
  }

  lemma {:induction false} FlatRows(r: Reader, section: string, rows: seq<Row>, want: map<Field, Value>)
    requires r.section == Some(section) && IsFlat(section) && section != "" && AllOk(want)
    requires SameShape(r.settings.scalars, want) && forall row :: row in rows ==> Field(section, row.key) in want
    requires forall i :: 0 <= i < |rows| ==> Plain(rows[i].key)
    ensures ReadFrom(r, RowLines(section, rows, want)) == Filled(r, FillRows(r.settings.scalars, section, rows, want))
    ensures SameShape(FillRows(r.settings.scalars, section, rows, want), want)
    decreases |rows|
  {
    hide Step, KeyLine, ValueText, ReadBack, ValueOk, SameKind, IsFlat, Plain;
    if rows != [] {
      var f := Field(section, rows[0].key);
      assert rows[0] in rows;
      var line := KeyLine(2, rows[0].key, ValueText(want[f]));
      FlatRow(r, section, rows[0].key, want[f]);
      FillKeepsShape(r.settings.scalars, f, want);
      FlatRows(Step(r, line), section, rows[1..], want);
      ReadOne(r, line, RowLines(section, rows[1..], want));
    }
  }

  lemma {:induction false} TopRows(r: Reader, rows: seq<Row>, want: map<Field, Value>)
    requires AllOk(want)
    requires SameShape(r.settings.scalars, want) && forall row :: row in rows ==> Field("", row.key) in want
    requires forall i :: 0 <= i < |rows| ==> Plain(rows[i].key) && IsTopKey(rows[i].key)
    ensures ReadFrom(r, RowLines("", rows, want)).settings == r.settings.(scalars := FillRows(r.settings.scalars, "", rows, want))
    ensures SameShape(FillRows(r.settings.scalars, "", rows, want), want)
    decreases |rows|
  {
    hide Step, KeyLine, ValueText, ReadBack, ValueOk, SameKind, Plain, IsTopKey;
    if rows != [] {
      var f := Field("", rows[0].key);
      assert rows[0] in rows;
      var line := KeyLine(0, rows[0].key, ValueText(want[f]));
      TopRow(r, rows[0].key, want[f]);
      FillKeepsShape(r.settings.scalars, f, want);
      TopRows(Step(r, line), rows[1..], want);
      ReadOne(r, line, RowLines("", rows[1..], want));
    }
  }

  lemma {:induction false} GroupRead(r: Reader, g: Group, want: map<Field, Value>)
    requires GroupOk(g) && AllOk(want) && SameShape(r.settings.scalars, want)
    requires forall row :: row in g.rows ==> Field(g.section, row.key) in want
    ensures ReadFrom(r, GroupLines(g, want)).settings ==
      r.settings.(scalars := FillRows(r.settings.scalars, g.section, g.rows, want))
    ensures SameShape(FillRows(r.settings.scalars, g.section, g.rows, want), want)
  {
    hide Step, KeyLine, IsFlat, Plain, IsTopKey, RowLines, FillRows, AllOk, SameShape, ReadFrom;
    if g.section == "" {
      TopRows(r, g.rows, want);
      assert [] + RowLines("", g.rows, want) == RowLines("", g.rows, want);
    } else {
      SectionHeader(r, g.section);
      var header := KeyLine(0, g.section, "");
      ReadOne(r, header, RowLines(g.section, g.rows, want));
      FlatRows(Step(r, header), g.section, g.rows, want);
    }
  }

  // ---- all groups ----

  function FillGroups(scalars: map<Field, Value>, groups: seq<Group>, want: map<Field, Value>): map<Field, Value>
    requires forall i :: 0 <= i < |groups| ==> RowsIn(groups[i], want)
    decreases |groups|
  {
    if groups == [] then scalars
    else
      assert RowsIn(groups[0], want);
      FillGroups(FillRows(scalars, groups[0].section, groups[0].rows, want), groups[1..], want)
  }

  predicate RowsIn(g: Group, want: map<Field, Value>) {
    forall row :: row in g.rows ==> Field(g.section, row.key) in want
  }

  lemma {:induction false} GroupsRead(r: Reader, groups: seq<Group>, want: map<Field, Value>)
    requires AllOk(want) && SameShape(r.settings.scalars, want) && Covered(groups, want)
    requires forall i :: 0 <= i < |groups| ==> GroupOk(groups[i]) && RowsIn(groups[i], want)
    ensures ReadFrom(r, GroupsLines(groups, want)).settings == r.settings.(scalars := FillGroups(r.settings.scalars, groups, want))
    decreases |groups|
  {
    hide Step, GroupLines, GroupOk, FillRows, AllOk, SameShape;
    if groups != [] {
      assert groups[0] in groups;
      GroupRead(r, groups[0], want);
      var next := ReadFrom(r, GroupLines(groups[0], want));
      assert Covered(groups[1..], want);
      GroupsRead(next, groups[1..], want);
      ReadAppend(r, GroupLines(groups[0], want), GroupsLines(groups[1..], want));
    }
  }

  /** The fields of the groups. */
  function FieldsOfRows(section: string, rows: seq<Row>): set<Field> {
    if rows == [] then {} else {Field(section, rows[0].key)} + FieldsOfRows(section, rows[1..])
  }

  function FieldsOf(groups: seq<Group>): set<Field> {
    if groups == [] then {} else FieldsOfRows(groups[0].section, groups[0].rows) + FieldsOf(groups[1..])
  }

  lemma {:induction false} RowsKeys(scalars: map<Field, Value>, section: string, rows: seq<Row>)
    ensures WithRows(scalars, section, rows).Keys == scalars.Keys + FieldsOfRows(section, rows)
    ensures forall row :: row in rows ==> Field(section, row.key) in FieldsOfRows(section, rows)
    decreases |rows|
  {
    if rows != [] {
      RowsKeys(scalars[Field(section, rows[0].key) := rows[0].default_], section, rows[1..]);
    }
  }

  lemma {:induction false} GroupsKeys(scalars: map<Field, Value>, groups: seq<Group>)
    ensures WithGroups(scalars, groups).Keys == scalars.Keys + FieldsOf(groups)
    ensures forall g, row :: g in groups && row in g.rows ==> Field(g.section, row.key) in FieldsOf(groups)
    decreases |groups|
  {
    hide WithRows, FieldsOfRows;
    if groups != [] {
      var g := groups[0];
      RowsKeys(scalars, g.section, g.rows);
      GroupsKeys(WithRows(scalars, g.section, g.rows), groups[1..]);
    }
  }

  lemma {:induction false} FillRowsFacts(scalars: map<Field, Value>, section: string, rows: seq<Row>, want: map<Field, Value>)
    requires scalars.Keys == want.Keys && forall row :: row in rows ==> Field(section, row.key) in want
    ensures var filled := FillRows(scalars, section, rows, want);
      && filled.Keys == want.Keys
      && forall f :: f in want ==> filled[f] == if f in FieldsOfRows(section, rows) then ReadBack(want[f]) else scalars[f]
    decreases |rows|
  {
    hide ReadBack;
    if rows != [] {
      assert rows[0] in rows;
      var f := Field(section, rows[0].key);
      FillRowsFacts(scalars[f := ReadBack(want[f])], section, rows[1..], want);
    }
  }

  lemma {:induction false} FillGroupsFacts(scalars: map<Field, Value>, groups: seq<Group>, want: map<Field, Value>)
    requires scalars.Keys == want.Keys && forall i :: 0 <= i < |groups| ==> RowsIn(groups[i], want)
    ensures var filled := FillGroups(scalars, groups, want);
      && filled.Keys == want.Keys
      && forall f :: f in want ==> filled[f] == if f in FieldsOf(groups) then ReadBack(want[f]) else scalars[f]
    decreases |groups|
  {
    hide ReadBack, FillRows, FieldsOfRows;
    if groups != [] {
      var g := groups[0];
      assert RowsIn(g, want);
      FillRowsFacts(scalars, g.section, g.rows, want);
      FillGroupsFacts(FillRows(scalars, g.section, g.rows, want), groups[1..], want);
    }
  }

  /** The fields a settings object has are the ones the groups write. */
  lemma SettingsCovered(s: Settings)
    requires IsSettings(s)
    ensures Covered(GROUPS, s.scalars) && FieldsOf(GROUPS) == s.scalars.Keys
    ensures forall i :: 0 <= i < |GROUPS| ==> RowsIn(GROUPS[i], s.scalars)
  {
    hide GROUPS, WithGroups, FieldsOf;
    GroupsKeys(map[], GROUPS);
    var none: map<Field, Value> := map[];
    assert none.Keys == {};
    forall i | 0 <= i < |GROUPS| ensures RowsIn(GROUPS[i], s.scalars) {
      assert GROUPS[i] in GROUPS;
    }
  }

  lemma {:induction false} SavedIsCovered(s: Settings)
    requires SaveOk(s)
    ensures Covered(GROUPS, s.scalars)
  {
    hide GROUPS;
    SettingsCovered(s);
  }

  /** Every scalar setting comes back, as reading gives it, and nothing else is touched. */
  lemma {:induction false} ScalarsRoundTrip(r: Reader, s: Settings)
    requires SaveOk(s) && r.settings == New() && Covered(GROUPS, s.scalars)
    ensures ReadFrom(r, GroupsLines(GROUPS, s.scalars)).settings ==
      New().(scalars := map f | f in s.scalars :: ReadBack(s.scalars[f]))
  {
    hide GROUPS, WithGroups, FieldsOf, FillGroups, GroupOk, GroupsLines, ReadFrom, ReadBack, ValueOk, SameKind;
    SettingsCovered(s);
    GroupsOk();
    GroupsRead(r, GROUPS, s.scalars);
    FillGroupsFacts(r.settings.scalars, GROUPS, s.scalars);
    assert FillGroups(r.settings.scalars, GROUPS, s.scalars) == map f | f in s.scalars :: ReadBack(s.scalars[f]);
  }
}
