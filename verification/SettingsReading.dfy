/** What the lines of a hand-edited settings file make of a setting
    (desktop/EvoMesh.Desktop/EvoMeshYamlSettings.cs): the last line about it decides. */
module SettingsReading {
  import opened Options
  import opened Text
  import opened SettingsValues
  import opened SettingsLines
  import opened SettingsFile
  import opened SettingsScalars

  // ---- which lines are about a setting ----

  /** The section a line belongs to: the last key without an indent before it. */
  function SectionAt(lines: seq<string>): Option<string> {
    if lines == [] then None
    else
      var e := ReadLine(lines[|lines| - 1]);
      if e.Entry? && e.indent == 0 then Some(e.key) else SectionAt(lines[..|lines| - 1])
  }

  /** The line under this section sets the field: a top key stands without an indent, any
      other two columns or more under its section. */
  ghost predicate Concerns(section: Option<string>, raw: string, f: Field) {
    var e := ReadLine(raw);
    e.Entry? && e.key == f.key && if f.section == "" then e.indent == 0 else e.indent >= 2 && section == Some(f.section)
  }

  // ---- the fields there are ----

  lemma {:induction false} RowsHold(section: string, rows: seq<Row>, f: Field) returns (i: nat)
    requires f in FieldsOfRows(section, rows)
    ensures i < |rows| && f == Field(section, rows[i].key)
  {
    i := 0;
    if f != Field(section, rows[0].key) {
      var j := RowsHold(section, rows[1..], f);
      i := j + 1;
    }
  }

  lemma {:induction false} GroupsHold(groups: seq<Group>, f: Field) returns (g: nat, i: nat)
    requires f in FieldsOf(groups)
    ensures g < |groups| && i < |groups[g].rows| && f == Field(groups[g].section, groups[g].rows[i].key)
  {
    if f in FieldsOfRows(groups[0].section, groups[0].rows) {
      g := 0;
      i := RowsHold(groups[0].section, groups[0].rows, f);
    } else {
      var h, j := GroupsHold(groups[1..], f);
      g, i := h + 1, j;
    }
  }

  /** Every scalar setting is a top key or in one of the flat sections. */
  lemma FieldsPlaced(f: Field)
    requires f in Defaults()
    ensures if f.section == "" then IsTopKey(f.key) else IsFlat(f.section) && Plain(f.section)
    ensures Plain(f.key)
  {
    hide GROUPS, WithGroups, FieldsOf, IsTopKey, IsFlat, Plain;
    var none: map<Field, Value> := map[];
    GroupsKeys(none, GROUPS);
    assert none.Keys == {};
    var g, i := GroupsHold(GROUPS, f);
    GroupsOk();
    assert GroupOk(GROUPS[g]);
  }

  // ---- one line ----

  /** One line changes a field exactly when it is about it, and then as its kind reads the text. */
  lemma OneLineSets(r: Reader, raw: string, f: Field)
    requires f in Defaults() && f in r.settings.scalars
    ensures f in Step(r, raw).settings.scalars
    ensures Step(r, raw).settings.scalars[f] ==
      if Concerns(r.section, raw, f) then Parsed(r.settings.scalars[f], ReadLine(raw).value) else r.settings.scalars[f]
    ensures Step(r, raw).section == if ReadLine(raw).Entry? && ReadLine(raw).indent == 0 then Some(ReadLine(raw).key) else r.section
  {
    hide Defaults, IsTopKey, Parsed, ReadLine;
    FieldsPlaced(f);
    SectionNames();
    var e := ReadLine(raw);
    if e.Entry? && e.indent > 0 && r.section.Some? {
      if r.section.value == "models" {
        ModelsKeepScalars(r, e.indent, e.key, e.value, e.line);
      } else if r.section.value == "system_agents" {
        AgentsKeepScalars(r, e.indent, e.key, e.value);
      }
    }
  }

  lemma SectionNames()
    ensures !IsFlat("") && !IsFlat("models") && !IsFlat("system_agents") && !IsTopKey("")
  {
  }

  lemma ModelsKeepScalars(r: Reader, indent: nat, key: string, value: string, line: string)
    requires ColonAt(line) < |line|
    ensures StepModels(r, indent, key, value, line).settings.scalars == r.settings.scalars
    ensures StepModels(r, indent, key, value, line).section == r.section
  {
    hide OnProvider, TryAdd, WithTag, WithKey;
    if indent == 2 && (key == "default_provider" || key == "providers") {
    } else if !r.inProviders || (indent == 4 && value == "") {
    } else if indent >= 8 && r.tagsOf.Some? {
      ProvidersKeepScalars(r, r.tagsOf.value, WithTag(line));
    } else if r.provider.Some? {
      ProvidersKeepScalars(r.(tagsOf := None), r.provider.value, WithKey(key, value));
    }
  }

  lemma ProvidersKeepScalars(r: Reader, name: string, change: Provider -> Provider)
    ensures OnProvider(r, name, change).settings.scalars == r.settings.scalars
    ensures OnProvider(r, name, change).section == r.section
  {
    hide Put, Place;
  }

  lemma AgentsKeepScalars(r: Reader, indent: nat, key: string, value: string)
    ensures StepAgents(r, indent, key, value).settings.scalars == r.settings.scalars
    ensures StepAgents(r, indent, key, value).section == r.section
  {
    hide Put, TryAdd, Place, AgentWith;
  }

  // ---- whole files ----

  lemma ReadLast(r: Reader, lines: seq<string>, last: string)
    ensures ReadFrom(r, lines + [last]) == Step(ReadFrom(r, lines), last)
  {
    hide Step;
    ReadAppend(r, lines, [last]);
    assert [last] == [last] + [];
    ReadOne(ReadFrom(r, lines), last, []);
  }

  /** However long the file: the setting is there, and the section is the one last opened. */
  lemma {:induction false} FileRead(lines: seq<string>, f: Field)
    requires f in Defaults()
    ensures f in Loaded(lines).scalars && ReadFrom(Start(), lines).section == SectionAt(lines)
  {
    hide Step, Defaults, ReadLine;
    if lines != [] {
      var n := |lines| - 1;
      assert lines == lines[..n] + [lines[n]];
      FileRead(lines[..n], f);
      ReadLast(Start(), lines[..n], lines[n]);
      OneLineSets(ReadFrom(Start(), lines[..n]), lines[n], f);
    }
  }

  /** A line about a setting decides it over everything before. */
  lemma LineDecides(lines: seq<string>, raw: string, f: Field)
    requires f in Defaults()
    ensures f in Loaded(lines).scalars && f in Loaded(lines + [raw]).scalars
    ensures Loaded(lines + [raw]).scalars[f] ==
      if Concerns(SectionAt(lines), raw, f) then Parsed(Loaded(lines).scalars[f], ReadLine(raw).value) else Loaded(lines).scalars[f]
  {
    hide Step, Defaults, ReadLine, Parsed, Concerns;
    FileRead(lines, f);
    ReadLast(Start(), lines, raw);
    OneLineSets(ReadFrom(Start(), lines), raw, f);
  }

  /** From line `k` on no line is about the setting. */
  ghost predicate SilentFrom(lines: seq<string>, k: nat, f: Field) {
    forall j :: k <= j < |lines| ==> !Concerns(SectionAt(lines[..j]), lines[j], f)
  }

  /** Line `k` is the last one about the setting. */
  ghost predicate Decides(lines: seq<string>, k: nat, f: Field) {
    k < |lines| && Concerns(SectionAt(lines[..k]), lines[k], f) && SilentFrom(lines, k + 1, f)
  }

  /** Lines about other things leave the setting as it is. */
  lemma {:induction false} SilentKeeps(lines: seq<string>, k: nat, f: Field)
    requires f in Defaults() && k <= |lines| && SilentFrom(lines, k, f)
    ensures f in Loaded(lines[..k]).scalars && f in Loaded(lines).scalars
    ensures Loaded(lines).scalars[f] == Loaded(lines[..k]).scalars[f]
  {
    hide Loaded, Defaults, ReadLine, Concerns, SectionAt;
    if k == |lines| {
      assert lines[..k] == lines;
      LineDecides(lines, "", f);
    } else {
      var n := |lines| - 1;
      var less := lines[..n];
      assert lines == less + [lines[n]] && less[..k] == lines[..k];
      assert forall j :: 0 <= j < n ==> less[..j] == lines[..j];
      SilentKeeps(less, k, f);
      LineDecides(less, lines[n], f);
    }
  }

  /** A setting is what the last line about it says, read over what was there. */
  lemma LastLineDecides(lines: seq<string>, k: nat, f: Field)
    requires f in Defaults() && Decides(lines, k, f)
    ensures k < |lines| && ReadLine(lines[k]).Entry? && f in Loaded(lines[..k]).scalars && f in Loaded(lines).scalars
    ensures Loaded(lines).scalars[f] == Parsed(Loaded(lines[..k]).scalars[f], ReadLine(lines[k]).value)
  {
    hide Loaded, Defaults, ReadLine, SectionAt, SilentFrom, Parsed;
    assert lines[..k + 1] == lines[..k] + [lines[k]];
    LineDecides(lines[..k], lines[k], f);
    SilentKeeps(lines, k + 1, f);
  }

  /** A setting no line is about is as it starts out. */
  lemma NoLineKeeps(lines: seq<string>, f: Field)
    requires f in Defaults() && SilentFrom(lines, 0, f)
    ensures f in Loaded(lines).scalars && Loaded(lines).scalars[f] == Defaults()[f]
  {
    hide Defaults, ReadLine, Concerns, SectionAt, SilentFrom;
    SilentKeeps(lines, 0, f);
    assert lines[..0] == [];
  }

  /** Whatever the lines say, a setting stays of its kind. */
  lemma {:induction false} FieldKeepsKind(lines: seq<string>, f: Field)
    requires f in Defaults()
    ensures f in Loaded(lines).scalars && SameKind(Defaults()[f], Loaded(lines).scalars[f])
  {
    hide Loaded, Defaults, ReadLine, SectionAt, Parsed, SameKind;
    if lines == [] {
      NoLineKeeps(lines, f);
      SameKindSelf(Defaults()[f]);
    } else {
      var n := |lines| - 1;
      FieldKeepsKind(lines[..n], f);
      LineDecides(lines[..n], lines[n], f);
      assert lines == lines[..n] + [lines[n]];
      if Concerns(SectionAt(lines[..n]), lines[n], f) {
        ParsedKeepsKind(Defaults()[f], Loaded(lines[..n]).scalars[f], ReadLine(lines[n]).value);
      }
    }
  }

  lemma ParsedKeepsKind(v: Value, current: Value, text: string)
    requires SameKind(v, current)
    ensures SameKind(v, Parsed(current, text))
  {
    hide ParseInt, ParseDouble, ParseBool, ParseIdList, ParseNameList;
  }

  // ---- switches ----

  /** The switches, and what any word but a known one makes of them; they start out so, too. */
  const SWITCHES: map<Field, bool> := map[
    Field("evolution", "autonomous") := true, Field("evolution", "auto_validate") := true,
    Field("evolution", "auto_promote") := false, Field("evolution", "auto_restart") := true,
    Field("harness", "enabled") := false, Field("harness", "allow_write") := false, Field("git", "auto_push") := true,
    Field("telegram", "enabled") := false, Field("telegram", "adopt_first_chat") := true,
    Field("telegram", "announcements") := true]

  lemma {:induction false} OtherRows(scalars: map<Field, Value>, section: string, rows: seq<Row>, f: Field)
    requires f in scalars && forall i :: 0 <= i < |rows| ==> f != Field(section, rows[i].key)
    ensures f in WithRows(scalars, section, rows) && WithRows(scalars, section, rows)[f] == scalars[f]
    decreases |rows|
  {
    if rows != [] {
      OtherRows(scalars[Field(section, rows[0].key) := rows[0].default_], section, rows[1..], f);
    }
  }

  /** A row sets its field to its default. */
  lemma {:induction false} RowSets(scalars: map<Field, Value>, section: string, rows: seq<Row>, i: nat)
    requires i < |rows| && forall j :: i < j < |rows| ==> rows[j].key != rows[i].key
    ensures var f := Field(section, rows[i].key);
      f in WithRows(scalars, section, rows) && WithRows(scalars, section, rows)[f] == rows[i].default_
    decreases |rows|
  {
    var scalars' := scalars[Field(section, rows[0].key) := rows[0].default_];
    if i == 0 {
      OtherRows(scalars', section, rows[1..], Field(section, rows[0].key));
    } else {
      RowSets(scalars', section, rows[1..], i - 1);
    }
  }

  lemma {:induction false} OtherGroups(scalars: map<Field, Value>, groups: seq<Group>, f: Field)
    requires f in scalars && forall i :: 0 <= i < |groups| ==> groups[i].section != f.section
    ensures f in WithGroups(scalars, groups) && WithGroups(scalars, groups)[f] == scalars[f]
    decreases |groups|
  {
    if groups != [] {
      OtherRows(scalars, groups[0].section, groups[0].rows, f);
      OtherGroups(WithRows(scalars, groups[0].section, groups[0].rows), groups[1..], f);
    }
  }

  lemma {:induction false} GroupSets(scalars: map<Field, Value>, groups: seq<Group>, g: nat, i: nat)
    requires g < |groups| && i < |groups[g].rows|
    requires forall j :: i < j < |groups[g].rows| ==> groups[g].rows[j].key != groups[g].rows[i].key
    requires forall j :: g < j < |groups| ==> groups[j].section != groups[g].section
    ensures var f := Field(groups[g].section, groups[g].rows[i].key);
      f in WithGroups(scalars, groups) && WithGroups(scalars, groups)[f] == groups[g].rows[i].default_
    decreases |groups|
  {
    hide WithRows;
    var scalars' := WithRows(scalars, groups[0].section, groups[0].rows);
    if g == 0 {
      RowSets(scalars, groups[0].section, groups[0].rows, i);
      OtherGroups(scalars', groups[1..], Field(groups[0].section, groups[0].rows[i].key));
    } else {
      GroupSets(scalars', groups[1..], g - 1, i);
    }
  }

  lemma SectionsDiffer(g: nat)
    requires g < |GROUPS|
    ensures forall j :: g < j < |GROUPS| ==> GROUPS[j].section != GROUPS[g].section
  {
  }

  /** A switch stands in its row. */
  lemma SwitchSet(g: nat, i: nat, f: Field, on: bool)
    requires g < |GROUPS| && i < |GROUPS[g].rows| && f.section == GROUPS[g].section && GROUPS[g].rows[i] == Row(f.key, Flag(on, on))
    requires forall j :: i < j < |GROUPS[g].rows| ==> GROUPS[g].rows[j].key != f.key
    ensures f in Defaults() && Defaults()[f] == Flag(on, on)
  {
    hide GROUPS, WithGroups;
    SectionsDiffer(g);
    GroupSets(map[], GROUPS, g, i);
  }

  lemma EvolutionSwitches()
    ensures forall key :: key in ["autonomous", "auto_validate", "auto_promote", "auto_restart"] ==>
      var f := Field("evolution", key); f in Defaults() && f in SWITCHES && Defaults()[f] == Flag(SWITCHES[f], SWITCHES[f])
  {
    hide Defaults;
    SwitchSet(2, 0, Field("evolution", "autonomous"), true);
    SwitchSet(2, 2, Field("evolution", "auto_validate"), true);
    SwitchSet(2, 4, Field("evolution", "auto_promote"), false);
    SwitchSet(2, 5, Field("evolution", "auto_restart"), true);
  }

  lemma HarnessSwitches()
    ensures forall key :: key in ["enabled", "allow_write"] ==>
      var f := Field("harness", key); f in Defaults() && f in SWITCHES && Defaults()[f] == Flag(SWITCHES[f], SWITCHES[f])
  {
    hide Defaults;
    SwitchSet(3, 0, Field("harness", "enabled"), false);
    SwitchSet(3, 1, Field("harness", "allow_write"), false);
  }

  lemma GitSwitch()
    ensures var f := Field("git", "auto_push"); f in Defaults() && f in SWITCHES && Defaults()[f] == Flag(SWITCHES[f], SWITCHES[f])
  {
    hide Defaults;
    SwitchSet(4, 2, Field("git", "auto_push"), true);
  }

  lemma TelegramSwitches()
    ensures forall key :: key in ["enabled", "adopt_first_chat", "announcements"] ==>
      var f := Field("telegram", key); f in Defaults() && f in SWITCHES && Defaults()[f] == Flag(SWITCHES[f], SWITCHES[f])
  {
    hide Defaults;
    SwitchSet(5, 0, Field("telegram", "enabled"), false);
    SwitchSet(5, 3, Field("telegram", "adopt_first_chat"), true);
    SwitchSet(5, 5, Field("telegram", "announcements"), true);
  }

  lemma SwitchSections(f: Field)
    requires f in SWITCHES
    ensures f.section == "evolution" || f.section == "harness" || f.section == "git" || f.section == "telegram"
    ensures f.section == "evolution" ==> f.key in ["autonomous", "auto_validate", "auto_promote", "auto_restart"]
    ensures f.section == "harness" ==> f.key in ["enabled", "allow_write"]
    ensures f.section == "git" ==> f.key == "auto_push"
    ensures f.section == "telegram" ==> f.key in ["enabled", "adopt_first_chat", "announcements"]
  {
  }

  lemma SwitchesStart(f: Field)
    requires f in SWITCHES
    ensures f in Defaults() && Defaults()[f] == Flag(SWITCHES[f], SWITCHES[f])
  {
    hide Defaults, SWITCHES;
    SwitchSections(f);
    EvolutionSwitches();
    HarnessSwitches();
    GitSwitch();
    TelegramSwitches();
    assert f == Field(f.section, f.key);
  }

  // ---- the words a switch knows ----

  const ON_WORDS: seq<string> := ["true", "yes", "on", "1"]
  const OFF_WORDS: seq<string> := ["false", "no", "off", "0"]

  /** The text is the word, in any letter case. */
  predicate Spelled(text: string, word: string) {
    |text| == |word|
    && forall i :: 0 <= i < |word| ==> text[i] == word[i] || ('a' <= word[i] <= 'z' && text[i] as int + 32 == word[i] as int)
  }

  predicate IsOn(text: string) {
    exists word :: word in ON_WORDS && Spelled(text, word)
  }

  predicate IsOff(text: string) {
    exists word :: word in OFF_WORDS && Spelled(text, word)
  }

  lemma {:induction false} LowerSpells(text: string, word: string)
    requires forall i :: 0 <= i < |word| ==> !('A' <= word[i] <= 'Z')
    ensures |Lower(text)| == |text| && (Lower(text) == word <==> Spelled(text, word))
  {
    if text != [] {
      LowerSpells(text[1..], if word == [] then [] else word[1..]);
      if |text| == |word| {
        assert Spelled(text, word) <==>
          (text[0] == word[0] || ('a' <= word[0] <= 'z' && text[0] as int + 32 == word[0] as int)) && Spelled(text[1..], word[1..]) by {
          assert Spelled(text, word) ==> Spelled(text[1..], word[1..]);
          assert forall i :: 0 < i < |text| ==> text[i] == text[1..][i - 1] && word[i] == word[1..][i - 1];
        }
        assert Lower(text) == word <==> Lower(text)[0] == word[0] && Lower(text)[1..] == word[1..] by {
          assert Lower(text) == [Lower(text)[0]] + Lower(text)[1..] && word == [word[0]] + word[1..];
        }
      }
    }
  }

  lemma WordsInLower(word: string)
    requires word in ON_WORDS || word in OFF_WORDS
    ensures forall i :: 0 <= i < |word| ==> !('A' <= word[i] <= 'Z')
  {
  }

  /** A switch is on at a word for on, off at a word for off, in any letter case, and at
      any other word its own fallback. */
  lemma SwitchReads(text: string, fallback: bool)
    ensures IsOn(Trim(text)) ==> ParseBool(text, fallback)
    ensures IsOff(Trim(text)) ==> !ParseBool(text, fallback)
    ensures !IsOn(Trim(text)) && !IsOff(Trim(text)) ==> ParseBool(text, fallback) == fallback
  {
    hide Trim, Lower, Spelled;
    var lower := Lower(Trim(text));
    forall word | word in ON_WORDS || word in OFF_WORDS ensures lower == word <==> Spelled(Trim(text), word) {
      WordsInLower(word);
      LowerSpells(Trim(text), word);
    }
    assert IsOn(Trim(text)) <==> lower in ON_WORDS;
    assert IsOff(Trim(text)) <==> lower in OFF_WORDS;
  }

  /** The switch is on at a word for on, off at a word for off, and else as any other word has it. */
  ghost predicate SwitchIs(settings: Settings, f: Field, word: string)
    requires f in SWITCHES
  {
    && f in settings.scalars && settings.scalars[f].Flag?
    && (IsOn(word) ==> settings.scalars[f].on)
    && (IsOff(word) ==> !settings.scalars[f].on)
    && (!IsOn(word) && !IsOff(word) ==> settings.scalars[f].on == SWITCHES[f])
  }

  /** What a file makes of a switch: the last line about it decides by its word, and without
      one it is as it starts out. */
  lemma SwitchLoaded(lines: seq<string>, k: nat, f: Field)
    requires f in SWITCHES && Decides(lines, k, f)
    ensures SwitchIs(Loaded(lines), f, Trim(ReadLine(lines[k]).value))
  {
    hide Loaded, Defaults, ReadLine, Decides, SectionAt, ParseBool, Trim, IsOn, IsOff, SWITCHES;
    SwitchesStart(f);
    LastLineDecides(lines, k, f);
    FieldKeepsKind(lines[..k], f);
    SwitchReads(ReadLine(lines[k]).value, SWITCHES[f]);
  }

  /** Every switch some line is about is as the last one says. */
  ghost predicate SwitchesRead(settings: Settings, lines: seq<string>) {
    forall k: nat, f: Field :: f in SWITCHES && Decides(lines, k, f) ==> SwitchIs(settings, f, Trim(ReadLine(lines[k]).value))
  }

  lemma SwitchesLoaded(lines: seq<string>)
    ensures SwitchesRead(Loaded(lines), lines)
  {
    hide Loaded, ReadLine, Trim, SWITCHES, SwitchIs;
    forall k: nat, f: Field | f in SWITCHES && Decides(lines, k, f)
      ensures SwitchIs(Loaded(lines), f, Trim(ReadLine(lines[k]).value))
    {
      SwitchLoaded(lines, k, f);
    }
  }

  lemma LoadedIs(lines: seq<string>)
    ensures Loaded(lines) == ReadFrom(Start(), lines).settings
  {
  }

  // ---- lines as they are written by hand ----

  predicate AllWhite(s: string) {
    forall i :: 0 <= i < |s| ==> IsWhite(s[i])
  }

  lemma {:induction false} TrimEndPads(s: string, pad: string)
    requires AllWhite(pad)
    ensures TrimEnd(s + pad) == TrimEnd(s)
  {
    hide IsWhite;
    if pad == [] {
      assert s + pad == s;
    } else {
      assert (s + pad)[..|s + pad| - 1] == s + pad[..|pad| - 1];
      TrimEndPads(s, pad[..|pad| - 1]);
    }
  }

  lemma {:induction false} TrimStartPads(pad: string, s: string)
    requires AllWhite(pad)
    ensures TrimStart(pad + s) == TrimStart(s)
    ensures s == [] || !IsWhite(s[0]) ==> Indent(pad + s) == |pad|
  {
    hide IsWhite;
    if pad == [] {
      assert pad + s == s;
    } else {
      assert (pad + s)[1..] == pad[1..] + s;
      TrimStartPads(pad[1..], s);
    }
  }

  /** White space of any kind around a text is trimmed away. */
  lemma Padded(a: string, core: string, b: string)
    requires AllWhite(a) && AllWhite(b) && Tidy(core)
    ensures Trim(a + core + b) == core
    ensures core != [] ==> Indent(a + core + b) == |a|
  {
    hide IsWhite, AllWhite;
    TrimEndPads(a + core, b);
    if core == [] {
      assert a + core == [] + a;
      TrimEndPads([], a);
    } else {
      assert (a + core)[|a + core| - 1] == core[|core| - 1];
      TrimStartPads(a, core);
      assert a + core + b == a + (core + b);
      TrimStartPads(a, core + b);
    }
  }

  /** What is trimmed to a key, a colon and a text is read for these. */
  lemma CoreReads(raw: string, key: string, gap: string, tail: string, text: string)
    requires Trim(raw) == key + gap + ":" + tail && AllWhite(gap) && GoodName(key) && key != "" && Trim(tail) == text
    ensures ReadLine(raw).Entry? && ReadLine(raw).indent == Indent(raw) && ReadLine(raw).key == key
    ensures ReadLine(raw).value == Unquote(text)
  {
    hide IsWhite, Trim, AllWhite, Indent;
    var core := key + gap + ":" + tail;
    NoColonInWhite(gap);
    assert core[|key + gap|] == ':' && core[0] == key[0];
    ColonAtIs(core, |key + gap|);
    assert core[..|key + gap|] == key + gap && core[|key + gap| + 1..] == tail;
    KeyTrims(key, gap);
  }

  lemma KeyTrims(key: string, gap: string)
    requires AllWhite(gap) && Tidy(key)
    ensures Trim(key + gap) == key
  {
    NothingIsWhite();
    Padded([], key, gap);
    assert [] + key + gap == key + gap;
  }

  lemma TextTrims(lead: string, text: string)
    requires AllWhite(lead) && Tidy(text)
    ensures Trim(if text == "" then "" else lead + text) == text
  {
    NothingIsWhite();
    if text == "" {
      TrimTidy("");
    } else {
      Padded(lead, text, []);
      assert lead + text + [] == lead + text;
    }
  }

  /** A line with an indent, a key, a colon and a text is read for just these, whatever white
      space stands around them. */
  lemma EntryReads(pad: string, key: string, gap: string, lead: string, text: string, end: string)
    requires AllWhite(pad) && AllWhite(gap) && AllWhite(lead) && AllWhite(end) && GoodName(key) && key != "" && Tidy(text)
    ensures var raw := pad + (key + gap + ":" + lead + text) + end;
      ReadLine(raw).Entry? && ReadLine(raw).indent == |pad| && ReadLine(raw).key == key && ReadLine(raw).value == Unquote(text)
  {
    hide IsWhite, Trim, AllWhite, Indent, ReadLine, Tidy, GoodName, Unquote;
    var tail := if text == "" then "" else lead + text;
    var spare := if text == "" then lead + end else end;
    var core := key + gap + ":" + tail;
    var raw := pad + (key + gap + ":" + lead + text) + end;
    SameLine(pad, key + gap + ":", lead, text, end);
    BothWhite(lead, end);
    CoreTidy(key, gap, lead, text);
    Padded(pad, core, spare);
    TextTrims(lead, text);
    GoodIsTidy(key);
    CoreReads(raw, key, gap, tail, text);
  }

  lemma GoodIsTidy(key: string)
    requires GoodName(key)
    ensures Tidy(key)
  {
  }

  lemma SameLine(pad: string, head: string, lead: string, text: string, end: string)
    ensures pad + (head + lead + text) + end ==
      pad + (head + if text == "" then "" else lead + text) + if text == "" then lead + end else end
  {
    if text == "" {
      assert head + lead + text == head + lead;
      assert head + "" == head;
    } else {
      assert head + lead + text == head + (lead + text);
    }
  }

  lemma BothWhite(a: string, b: string)
    requires AllWhite(a) && AllWhite(b)
    ensures AllWhite(a + b)
  {
    hide IsWhite;
  }

  lemma NothingIsWhite()
    ensures AllWhite([])
  {
  }

  lemma NoColonInWhite(s: string)
    requires AllWhite(s)
    ensures forall i :: 0 <= i < |s| ==> s[i] != ':'
  {
  }

  lemma CoreTidy(key: string, gap: string, lead: string, text: string)
    requires GoodName(key) && key != "" && Tidy(text)
    ensures var core := key + gap + ":" + if text == "" then "" else lead + text;
      Tidy(core) && core != "" && core[0] == key[0] != '#'
  {
    var core := key + gap + ":" + if text == "" then "" else lead + text;
    if text == "" {
      assert core[|core| - 1] == ':';
    } else {
      assert core[|core| - 1] == text[|text| - 1];
    }
  }

  /** Blank lines, comments and lines without a colon are about nothing. */
  lemma Ignored(raw: string, section: Option<string>, f: Field)
    requires Trim(raw) == "" || Trim(raw)[0] == '#' || forall i :: 0 <= i < |raw| ==> raw[i] != ':'
    ensures ReadLine(raw).Skip? && !Concerns(section, raw, f)
  {
    hide IsWhite, Trim;
    var line := Trim(raw);
    TrimIsTidy(raw);
    assert ColonAt(line) < |line| ==> line[ColonAt(line)] in line;
  }

  /** A file of a section's line and one switch under it. */
  lemma SwitchFile(f: Field, pad: string, word: string)
    requires f in SWITCHES && AllWhite(pad) && |pad| >= 2 && Tidy(word) && !Wrapped(word)
    ensures SwitchIs(Loaded([f.section + ":", pad + (f.key + ": " + word)]), f, word)
  {
    hide Loaded, ReadLine, Trim, IsOn, IsOff, Wrapped, Tidy, GoodName, IsWhite;
    var lines := [f.section + ":", pad + (f.key + ": " + word)];
    SwitchNames(f);
    SpacesAreWhite();
    EntryReads("", f.section, "", "", "", "");
    assert "" + (f.section + "" + ":" + "" + "") + "" == lines[0];
    EntryReads(pad, f.key, "", " ", word, "");
    assert pad + (f.key + "" + ":" + " " + word) + "" == lines[1];
    assert lines[..1] == [lines[0]] && lines[..1][0] == lines[0];
    assert Decides(lines, 1, f);
    SwitchLoaded(lines, 1, f);
    TrimTidy(word);
  }

  lemma SpacesAreWhite()
    ensures AllWhite("") && AllWhite(" ") && Tidy("")
  {
  }

  lemma SwitchNames(f: Field)
    requires f in SWITCHES
    ensures GoodName(f.key) && f.key != "" && GoodName(f.section) && f.section != ""
  {
    hide Defaults, Plain, GoodName, SWITCHES;
    SwitchesStart(f);
    FieldsPlaced(f);
    SwitchSections(f);
    PlainIsGood(f.key);
    PlainIsGood(f.section);
    PlainIsSome(f.key);
  }

  lemma PlainIsSome(s: string)
    requires Plain(s)
    ensures s != ""
  {
  }

  // ---- numbers, texts and lists ----

  /** The text is the number in digits, with or without a sign. */
  ghost predicate WritesInt(text: string, n: int) {
    exists digits :: digits != "" && AllDigits(digits)
      && ((text == digits && n == ParseNat(digits)) || (text == "+" + digits && n == ParseNat(digits))
          || (text == "-" + digits && n == 0 - ParseNat(digits)))
  }

  /** A number is read exactly when one is written that 32 bits hold. */
  lemma IntReads(text: string, n: int)
    ensures TryInt(text) == Some(n) <==> -0x8000_0000 <= n < 0x8000_0000 && WritesInt(Trim(text), n)
  {
    hide Trim, ParseNat;
    var s := Trim(text);
    if WritesInt(s, n) {
      var digits :| digits != "" && AllDigits(digits)
        && ((s == digits && n == ParseNat(digits)) || (s == "+" + digits && n == ParseNat(digits))
            || (s == "-" + digits && n == 0 - ParseNat(digits)));
      DigitsUnsigned(digits);
      assert s == digits || s[1..] == digits;
    }
    if TryInt(text) == Some(n) {
      var signed := s[0] == '-' || s[0] == '+';
      var digits := if signed then s[1..] else s;
      assert AllDigits(digits) && digits != "";
      assert signed ==> s == [s[0]] + digits;
    }
  }

  /** An id is a number that 64 bits hold. */
  lemma IdReads(s: string)
    ensures IsId(s) <==> exists n: int :: -0x8000_0000_0000_0000 <= n < 0x8000_0000_0000_0000 && WritesInt(s, n)
  {
    hide WritesInt, IsId;
    forall n: int | -0x8000_0000_0000_0000 <= n < 0x8000_0000_0000_0000 && WritesInt(s, n) ensures IsId(s) {
      WrittenIsId(s, n);
    }
    if IsId(s) {
      var n := IdIsWritten(s);
    }
  }

  lemma WrittenIsId(s: string, n: int)
    requires -0x8000_0000_0000_0000 <= n < 0x8000_0000_0000_0000 && WritesInt(s, n)
    ensures IsId(s)
  {
    hide ParseNat;
    var digits :| digits != "" && AllDigits(digits)
      && ((s == digits && n == ParseNat(digits)) || (s == "+" + digits && n == ParseNat(digits))
          || (s == "-" + digits && n == 0 - ParseNat(digits)));
    DigitsUnsigned(digits);
    assert s == digits || s[1..] == digits;
  }

  lemma IdIsWritten(s: string) returns (n: int)
    requires IsId(s)
    ensures -0x8000_0000_0000_0000 <= n < 0x8000_0000_0000_0000 && WritesInt(s, n)
  {
    hide ParseNat;
    var signed := s[0] == '-' || s[0] == '+';
    var digits := if signed then s[1..] else s;
    assert AllDigits(digits) && digits != "";
    assert signed ==> s == [s[0]] + digits;
    n := if s[0] == '-' then 0 - ParseNat(digits) else ParseNat(digits);
  }

  /** What a file makes of a number: the last line about it decides if it holds a number, and
      leaves it as the lines before made it if not. */
  lemma NumberLoaded(lines: seq<string>, k: nat, f: Field, n: int)
    requires f in Defaults() && Defaults()[f].Int? && Decides(lines, k, f) && -0x8000_0000 <= n < 0x8000_0000
    ensures var text := Trim(ReadLine(lines[k]).value);
      && f in Loaded(lines).scalars && f in Loaded(lines[..k]).scalars
      && (Loaded(lines).scalars[f] == Int(n) <==>
            if exists m: int :: -0x8000_0000 <= m < 0x8000_0000 && WritesInt(text, m) then WritesInt(text, n)
            else Loaded(lines[..k]).scalars[f] == Int(n))
  {
    hide Loaded, Defaults, ReadLine, Decides, SectionAt, Trim, WritesInt, TryInt;
    LastLineDecides(lines, k, f);
    FieldKeepsKind(lines[..k], f);
    var value := ReadLine(lines[k]).value;
    forall m: int ensures TryInt(value) == Some(m) <==> -0x8000_0000 <= m < 0x8000_0000 && WritesInt(Trim(value), m) {
      IntReads(value, m);
    }
  }

  /** What a file makes of a text: what the last line about it says, and of the objective
      nothing at the two words for none. */
  lemma TextLoaded(lines: seq<string>, k: nat, f: Field)
    requires f in Defaults() && Decides(lines, k, f)
    ensures f in Loaded(lines).scalars
    ensures Defaults()[f].Str? ==> Loaded(lines).scalars[f] == Str(ReadLine(lines[k]).value)
    ensures Defaults()[f].Objective? ==>
      Loaded(lines).scalars[f] == Objective(if ReadLine(lines[k]).value in ["null", "~"] then "" else ReadLine(lines[k]).value)
    ensures Defaults()[f].IdList? ==> Loaded(lines).scalars[f] == IdList(ParseIdList(ReadLine(lines[k]).value))
    ensures Defaults()[f].NameList? ==> Loaded(lines).scalars[f] == NameList(ParseNameList(ReadLine(lines[k]).value))
  {
    hide Loaded, Defaults, ReadLine, Decides, SectionAt;
    LastLineDecides(lines, k, f);
    FieldKeepsKind(lines[..k], f);
  }

  /** Entries with a comma and white space between them. */
  function Spaced(entries: seq<string>, gap: string): string {
    if entries == [] then "" else if |entries| == 1 then entries[0] else entries[0] + "," + gap + Spaced(entries[1..], gap)
  }

  lemma NoCommaIn(pad: string, e: string)
    requires AllWhite(pad) && IsEntry(e)
    ensures forall i :: 0 <= i < |pad + e| ==> (pad + e)[i] != ','
  {
  }

  lemma HeadRead(pad: string, e: string, rest: string)
    requires AllWhite(pad) && IsEntry(e) && (rest == "" || rest[0] == ',')
    ensures Entries(pad + e + rest) == [e] + if rest == "" then [] else Entries(rest[1..])
  {
    hide IsWhite, Tidy, Trim, CommaAt, Entries;
    var s := pad + e + rest;
    EntriesUnfold(s);
    NoCommaIn(pad, e);
    CommaAtIs(s, |pad + e|);
    assert s[..|pad + e|] == pad + e + [];
    NothingIsWhite();
    Padded(pad, e, []);
    if rest != "" {
      assert s[|pad + e| + 1..] == rest[1..];
    }
  }

  /** Splitting finds the entries, however they are spaced. */
  lemma {:induction false} SpacedSplits(pad: string, entries: seq<string>, gap: string)
    requires AllWhite(pad) && AllWhite(gap) && (entries == [] ==> pad == "") && forall e :: e in entries ==> IsEntry(e)
    ensures Entries(pad + Spaced(entries, gap)) == entries
    decreases |entries|
  {
    hide AllWhite, Entries, IsEntry;
    if entries == [] {
      assert pad + Spaced(entries, gap) == "";
      NoEntries();
    } else {
      var e := entries[0];
      if |entries| == 1 {
        HeadRead(pad, e, "");
        assert pad + e + "" == pad + Spaced(entries, gap);
      } else {
        var rest := "," + (gap + Spaced(entries[1..], gap));
        HeadRead(pad, e, rest);
        assert pad + e + rest == pad + Spaced(entries, gap);
        assert rest[1..] == gap + Spaced(entries[1..], gap);
        SpacedSplits(gap, entries[1..], gap);
      }
    }
  }

  /** An id list reads the same with any spacing, in brackets and without: the ids among its
      entries, out of their quotes. */
  lemma IdListReads(entries: seq<string>, gap: string, bracketed: bool)
    requires AllWhite(gap) && forall e :: e in entries ==> IsEntry(e) && !IsBracket(e[0]) && !IsBracket(e[|e| - 1])
    ensures var text := Spaced(entries, gap);
      ParseIdList(if bracketed then "[" + text + "]" else text) == Listed(Ids(UnquotedAll(entries)))
  {
    hide AllWhite, Entries, IsEntry, Inner, IsId, Unquote, IsBracket;
    var text := Spaced(entries, gap);
    NothingIsWhite();
    SpacedSplits("", entries, gap);
    assert "" + text == text;
    SpacedEnds(entries, gap);
    InnerOfBracketed(text);
    InnerOfPlain(text);
  }

  lemma InnerOfPlain(l: string)
    requires Tidy(l) && (l != [] ==> !IsBracket(l[0]) && !IsBracket(l[|l| - 1]))
    ensures Inner(l) == l
  {
    hide IsWhite;
    TrimTidy(l);
  }

  lemma {:induction false} SpacedEnds(entries: seq<string>, gap: string)
    requires forall e :: e in entries ==> IsEntry(e) && !IsBracket(e[0]) && !IsBracket(e[|e| - 1])
    ensures var l := Spaced(entries, gap);
      l != [] ==> !IsBracket(l[0]) && !IsBracket(l[|l| - 1]) && !IsWhite(l[0]) && !IsWhite(l[|l| - 1])
    ensures entries != [] ==> Spaced(entries, gap) != []
  {
    hide IsBracket, IsWhite;
    if |entries| == 1 {
      assert entries[0] in entries;
    } else if entries != [] {
      assert entries[0] in entries;
      SpacedEnds(entries[1..], gap);
      var rest := Spaced(entries[1..], gap);
      var l := Spaced(entries, gap);
      assert l == entries[0] + "," + gap + rest && l[|l| - 1] == rest[|rest| - 1] && l[0] == entries[0][0];
    }
  }
}
