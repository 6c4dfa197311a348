/** Saving and loading the settings file undo each other
    (desktop/EvoMesh.Desktop/EvoMeshYamlSettings.cs). */
module SettingsRoundTrip {
  import opened Options
  import opened SettingsValues
  import opened SettingsLines
  import opened SettingsFile
  import opened SettingsScalars
  import opened SettingsAgents
  import opened SettingsProviders

  // ---- lines ----

  lemma ModelKeys()
    ensures Plain("models") && Plain("default_provider") && Plain("providers")
  {
  }

  lemma SystemAgentsHeader(r: Reader)
    ensures Step(r, KeyLine(0, "system_agents", "")) == Reader(r.settings, Some("system_agents"), false, None, None, None)
  {
    hide Step, KeyLine, Plain, IsTopKey;
    AgentKeys();
    AgentSections();
    SectionHeader(r, "system_agents");
  }

  function ModelsHead(defaultProvider: string): seq<string> {
    [KeyLine(0, "models", ""), KeyLine(2, "default_provider", Quote(defaultProvider)), KeyLine(2, "providers", "")]
  }

  lemma ModelsHeader(r: Reader, defaultProvider: string)
    ensures ReadFrom(r, ModelsHead(defaultProvider)) ==
      Reader(r.settings.(defaultProvider := defaultProvider), Some("models"), true, None, None, None)
  {
    hide Step, KeyLine, Plain, IsTopKey, Quote, StepModels, ReadLine, Tidy, GoodName, Unquote;
    ModelKeys();
    AgentSections();
    SectionHeader(r, "models");
    var r1 := Reader(r.settings, Some("models"), false, None, None, None);
    var r2 := r1.(settings := r.settings.(defaultProvider := defaultProvider));
    DefaultLine(r1, defaultProvider);
    ProvidersLine(r2);
    ReadThree(r, KeyLine(0, "models", ""), KeyLine(2, "default_provider", Quote(defaultProvider)), KeyLine(2, "providers", ""));
  }

  lemma DefaultLine(r: Reader, defaultProvider: string)
    requires r.section == Some("models")
    ensures Step(r, KeyLine(2, "default_provider", Quote(defaultProvider))) ==
      r.(settings := r.settings.(defaultProvider := defaultProvider))
  {
    hide Step, KeyLine, Plain, Quote, ReadLine, Tidy, GoodName, Unquote, IsFlat;
    ModelKeys();
    AgentSections();
    PlainIsGood("default_provider");
    QuoteRoundTrip(defaultProvider);
    StepKey(r, 2, "default_provider", Quote(defaultProvider));
  }

  lemma ProvidersLine(r: Reader)
    requires r.section == Some("models")
    ensures Step(r, KeyLine(2, "providers", "")) == r.(inProviders := true)
  {
    hide Step, KeyLine, Plain, ReadLine, Tidy, GoodName, Unquote, IsFlat;
    ModelKeys();
    AgentSections();
    PlainIsGood("providers");
    EmptyTidy();
    StepKey(r, 2, "providers", "");
    assert |"default_provider"| == 16;
  }

  lemma EachAgentOk(s: Settings)
    requires SaveOk(s)
    ensures forall i :: 0 <= i < |s.agents| ==> AgentOk(s.agents[i])
    ensures forall i :: 0 <= i < |s.providers| ==> ProviderOk(s.providers[i])
  {
    hide AgentOk, ProviderOk, ValueOk;
    assert (forall i :: 0 <= i < |s.agents| ==> s.agents[i] in s.agents) && forall i :: 0 <= i < |s.providers| ==> s.providers[i] in s.providers;
  }

  /** The lines before the models, read. */
  lemma HeadRead(s: Settings)
    requires SaveOk(s) && Covered(GROUPS, s.scalars)
    ensures ReadFrom(Start(), GroupsLines(GROUPS, s.scalars) + ([KeyLine(0, "system_agents", "")] + AgentsLines(s.agents))).settings ==
      New().(scalars := map f | f in s.scalars :: ReadBack(s.scalars[f]), agents := s.agents)
  {
    hide GROUPS, GroupsLines, AgentsLines, ReadFrom, Step, KeyLine, AgentOk, ProviderOk, ValueOk, ReadBack, Defaults, DistinctNames;
    var groups, header := GroupsLines(GROUPS, s.scalars), KeyLine(0, "system_agents", "");
    ScalarsRoundTrip(Start(), s);
    var r1 := ReadFrom(Start(), groups);
    SystemAgentsHeader(r1);
    EachAgentOk(s);
    assert [] + s.agents == s.agents;
    AgentsBlock(Step(r1, header), s.agents);
    ReadOne(r1, header, AgentsLines(s.agents));
    ReadAppend(Start(), groups, [header] + AgentsLines(s.agents));
  }

  /** Loading the saved lines gives the settings as they are read back, one by one, a literal
      key dropped where a key ref is given. */
  lemma LoadSaved(s: Settings)
    requires SaveOk(s)
    ensures Covered(GROUPS, s.scalars) && Loaded(Saved(s)) == ReadBackSettings(s)
  {
    hide GROUPS, GroupsLines, AgentsLines, ProvidersLines, ReadFrom, Step, KeyLine, AgentOk, ProviderOk, ValueOk, ReadBack, NormalProvider, Defaults, DistinctNames;
    SavedIsCovered(s);
    var head := GroupsLines(GROUPS, s.scalars) + ([KeyLine(0, "system_agents", "")] + AgentsLines(s.agents));
    HeadRead(s);
    var r := ReadFrom(Start(), head);
    ModelsHeader(r, s.defaultProvider);
    var r2 := ReadFrom(r, ModelsHead(s.defaultProvider));
    EachAgentOk(s);
    assert [] + s.providers == s.providers && [] + NormalProviders(s.providers) == NormalProviders(s.providers);
    ProvidersBlock(r2, s.providers);
    ReadAppend(r, ModelsHead(s.defaultProvider), ProvidersLines(s.providers));
    ReadAppend(Start(), head, ModelsHead(s.defaultProvider) + ProvidersLines(s.providers));
    SavedRegroups(GroupsLines(GROUPS, s.scalars), [KeyLine(0, "system_agents", "")], AgentsLines(s.agents), ModelsHead(s.defaultProvider),
                  ProvidersLines(s.providers));
  }

  lemma SavedRegroups(a: seq<string>, b: seq<string>, c: seq<string>, d: seq<string>, e: seq<string>)
    ensures a + b + c + d + e == (a + (b + c)) + (d + e)
  {
  }

  // ---- saving again ----

  lemma KeyLineText(indent: nat, key: string, a: string, b: string)
    ensures KeyLine(indent, key, a) == KeyLine(indent, key, b) <==> a == b
  {
    var n := |Blanks(indent)| + |key|;
    var x, y := KeyLine(indent, key, a), KeyLine(indent, key, b);
    assert a != "" ==> x[n + 2..] == a;
    assert b != "" ==> y[n + 2..] == b;
  }

  /** Two sets of rows print alike exactly when they do so value by value. */
  lemma {:induction false} RowsSame(section: string, rows: seq<Row>, a: map<Field, Value>, b: map<Field, Value>)
    requires forall row :: row in rows ==> Field(section, row.key) in a && Field(section, row.key) in b
    ensures |RowLines(section, rows, a)| == |rows| == |RowLines(section, rows, b)|
    ensures RowLines(section, rows, a) == RowLines(section, rows, b) <==>
      forall row :: row in rows ==> ValueText(a[Field(section, row.key)]) == ValueText(b[Field(section, row.key)])
  {
    hide ValueText, KeyLine;
    if rows != [] {
      var indent, f := if section == "" then 0 else 2, Field(section, rows[0].key);
      assert rows[0] in rows && forall row :: row in rows <==> row == rows[0] || row in rows[1..];
      RowsSame(section, rows[1..], a, b);
      KeyLineText(indent, rows[0].key, ValueText(a[f]), ValueText(b[f]));
      SameHead(KeyLine(indent, rows[0].key, ValueText(a[f])), KeyLine(indent, rows[0].key, ValueText(b[f])),
               RowLines(section, rows[1..], a), RowLines(section, rows[1..], b));
    }
  }

  lemma SameHead<T>(x: T, y: T, a: seq<T>, b: seq<T>)
    ensures [x] + a == [y] + b <==> x == y && a == b
  {
    assert ([x] + a)[1..] == a && ([y] + b)[1..] == b && ([x] + a)[0] == x && ([y] + b)[0] == y;
  }

  lemma SameParts<T>(h: seq<T>, a: seq<T>, b: seq<T>, c: seq<T>, d: seq<T>)
    requires |a| == |b|
    ensures h + a + c == h + b + d <==> a == b && c == d
  {
    var x, y := h + a + c, h + b + d;
    assert x[|h|..|h| + |a|] == a && y[|h|..|h| + |b|] == b;
    assert x[|h| + |a|..] == c && y[|h| + |b|..] == d;
  }

  ghost predicate PrintAlike(groups: seq<Group>, a: map<Field, Value>, b: map<Field, Value>)
    requires Covered(groups, a) && Covered(groups, b)
  {
    forall g, row :: g in groups && row in g.rows ==> ValueText(a[Field(g.section, row.key)]) == ValueText(b[Field(g.section, row.key)])
  }

  lemma {:induction false} GroupsSame(groups: seq<Group>, a: map<Field, Value>, b: map<Field, Value>)
    requires Covered(groups, a) && Covered(groups, b)
    ensures |GroupsLines(groups, a)| == |GroupsLines(groups, b)|
    ensures GroupsLines(groups, a) == GroupsLines(groups, b) <==> PrintAlike(groups, a, b)
  {
    hide ValueText, KeyLine, RowLines;
    if groups != [] {
      var g := groups[0];
      assert g in groups && forall x :: x in groups <==> x == g || x in groups[1..];
      GroupsSame(groups[1..], a, b);
      RowsSame(g.section, g.rows, a, b);
      SameParts(if g.section == "" then [] else [KeyLine(0, g.section, "")], RowLines(g.section, g.rows, a), RowLines(g.section, g.rows, b),
                GroupsLines(groups[1..], a), GroupsLines(groups[1..], b));
      assert PrintAlike(groups, a, b) <==> PrintAlike(groups[1..], a, b) && RowLines(g.section, g.rows, a) == RowLines(g.section, g.rows, b);
    }
  }

  /** A field of the groups is one of their rows. */
  lemma {:induction false} PrintedAt(groups: seq<Group>, f: Field) returns (g: Group, row: Row)
    requires f in FieldsOf(groups)
    ensures g in groups && row in g.rows && f == Field(g.section, row.key)
  {
    if f in FieldsOfRows(groups[0].section, groups[0].rows) {
      g := groups[0];
      row := RowAt(g.section, g.rows, f);
    } else {
      g, row := PrintedAt(groups[1..], f);
    }
  }

  lemma {:induction false} RowAt(section: string, rows: seq<Row>, f: Field) returns (row: Row)
    requires f in FieldsOfRows(section, rows)
    ensures row in rows && f == Field(section, row.key)
  {
    if f == Field(section, rows[0].key) {
      row := rows[0];
    } else {
      row := RowAt(section, rows[1..], f);
    }
  }

  /** Read back settings print as the ones they come from exactly when all survive. */
  lemma AlikeExactly(s: Settings)
    requires IsSettings(s) && Covered(GROUPS, s.scalars) && Covered(GROUPS, ReadBackSettings(s).scalars)
    ensures PrintAlike(GROUPS, ReadBackSettings(s).scalars, s.scalars) <==> AllSurvive(s)
  {
    hide GROUPS, ValueText, ReadBack, Survives, IsSettings, FieldsOf;
    SettingsCovered(s);
    forall f | f in s.scalars ensures ValueText(ReadBack(s.scalars[f])) == ValueText(s.scalars[f]) <==> Survives(s.scalars[f]) {
      PrintsAgainExactly(s.scalars[f]);
    }
    if PrintAlike(GROUPS, ReadBackSettings(s).scalars, s.scalars) {
      forall f | f in s.scalars ensures Survives(s.scalars[f]) {
        var g, row := PrintedAt(GROUPS, f);
        assert ValueText(ReadBackSettings(s).scalars[Field(g.section, row.key)]) == ValueText(s.scalars[f]);
      }
    }
  }

  lemma {:induction false} ProvidersAgain(providers: seq<Named<Provider>>)
    ensures ProvidersLines(NormalProviders(providers)) == ProvidersLines(providers)
  {
    hide ProviderLines, NormalProvider;
    if providers != [] {
      ProvidersAgain(providers[1..]);
      ProviderAgain(providers[0]);
      var rest := NormalProviders(providers[1..]);
      assert NormalProviders(providers)[1..] == rest;
    }
  }

  lemma ProviderAgain(p: Named<Provider>)
    ensures ProviderLines(NormalProvider(p)) == ProviderLines(p)
  {
    hide TagLines, KeyLine, Quote, IntText;
  }

  lemma ReadBackCovered(s: Settings)
    requires Covered(GROUPS, s.scalars)
    ensures Covered(GROUPS, ReadBackSettings(s).scalars)
  {
    hide GROUPS, ReadBack;
  }

  /** Saving what was loaded writes the same lines again if and only if all settings survive. */
  lemma SavedAgain(s: Settings)
    requires SaveOk(s)
    ensures Covered(GROUPS, s.scalars) && Covered(GROUPS, ReadBackSettings(s).scalars)
    ensures Saved(ReadBackSettings(s)) == Saved(s) <==> AllSurvive(s)
  {
    hide GROUPS, GroupsLines, AgentsLines, ProvidersLines, AgentOk, ProviderOk, ValueOk, ReadBack, Defaults, DistinctNames, KeyLine, Quote, PrintAlike, Survives;
    SavedIsCovered(s);
    ReadBackCovered(s);
    var back := ReadBackSettings(s);
    ProvidersAgain(s.providers);
    GroupsSame(GROUPS, back.scalars, s.scalars);
    AlikeExactly(s);
    var rest := [KeyLine(0, "system_agents", "")] + AgentsLines(s.agents) + ModelsHead(s.defaultProvider) + ProvidersLines(s.providers);
    SavedSplits(back, rest);
    SavedSplits(s, rest);
    SameParts([], GroupsLines(GROUPS, back.scalars), GroupsLines(GROUPS, s.scalars), rest, rest);
  }

  lemma SavedSplits(s: Settings, rest: seq<string>)
    requires Covered(GROUPS, s.scalars)
    requires rest == [KeyLine(0, "system_agents", "")] + AgentsLines(s.agents) + ModelsHead(s.defaultProvider) + ProvidersLines(s.providers)
    ensures Saved(s) == [] + GroupsLines(GROUPS, s.scalars) + rest
  {
    hide GROUPS, GroupsLines, AgentsLines, ProvidersLines, KeyLine, Quote;
  }

  // ---- what is read back can be saved ----

  lemma {:induction false} NormalProvidersFacts(providers: seq<Named<Provider>>)
    ensures |NormalProviders(providers)| == |providers|
    ensures forall i :: 0 <= i < |providers| ==> NormalProviders(providers)[i] == NormalProvider(providers[i])
  {
    hide NormalProvider;
    if providers != [] {
      NormalProvidersFacts(providers[1..]);
    }
  }

  lemma NormalProviderOk(p: Named<Provider>)
    requires ProviderOk(p)
    ensures ProviderOk(NormalProvider(p)) && NormalProvider(p).name == p.name
  {
    hide IsDouble, IsInt, GoodTag, GoodName, DistinctNames;
  }

  lemma ReadBackSaves(s: Settings)
    requires SaveOk(s)
    ensures SaveOk(ReadBackSettings(s))
  {
    hide ValueOk, ReadBack, ProviderOk, AgentOk, NormalProvider, Defaults, SameKind, Folded, NormalProviders;
    var back := ReadBackSettings(s);
    forall f | f in s.scalars ensures ValueOk(back.scalars[f]) && SameKind(back.scalars[f], Defaults()[f]) {
      ReadBackOk(s.scalars[f]);
      KindStays(s.scalars[f], back.scalars[f], Defaults()[f]);
    }
    NormalProvidersFacts(s.providers);
    forall i | 0 <= i < |s.providers| ensures ProviderOk(back.providers[i]) && back.providers[i].name == s.providers[i].name {
      assert s.providers[i] in s.providers;
      NormalProviderOk(s.providers[i]);
    }
    assert forall p :: p in back.providers ==> ProviderOk(p);
  }

  lemma KindStays(v: Value, w: Value, default_: Value)
    requires SameKind(v, default_) && SameKind(v, w)
    ensures SameKind(w, default_)
  {
  }

  // ---- the text of the file ----

  const NEWLINE := "\r\n"

  function Written(lines: seq<string>): string {
    if lines == [] then "" else lines[0] + NEWLINE + Written(lines[1..])
  }

  predicate Ends(c: char) {
    c == '\r' || c == '\n'
  }

  function EndAt(s: string): (n: nat)
    ensures n <= |s| && (n < |s| ==> Ends(s[n])) && forall i :: 0 <= i < n ==> !Ends(s[i])
  {
    if s == [] || Ends(s[0]) then 0 else 1 + EndAt(s[1..])
  }

  /** `File.ReadAllLines`: a carriage return, a line feed, or the two together end a line. */
  function ReadLines(s: string): seq<string>
    decreases |s|
  {
    if s == [] then []
    else
      var n := EndAt(s);
      if n == |s| then [s]
      else [s[..n]] + ReadLines(s[n + (if s[n] == '\r' && n + 1 < |s| && s[n + 1] == '\n' then 2 else 1)..])
  }

  lemma {:induction false} EndAtIs(s: string, n: nat)
    requires n < |s| && Ends(s[n]) && forall i :: 0 <= i < n ==> !Ends(s[i])
    ensures EndAt(s) == n
  {
    if n > 0 {
      EndAtIs(s[1..], n - 1);
    }
  }

  /** One-line lines, written, are read back one by one. */
  lemma {:induction false} ReadWritten(lines: seq<string>)
    requires forall i :: 0 <= i < |lines| ==> OneLine(lines[i])
    ensures ReadLines(Written(lines)) == lines
  {
    if lines != [] {
      ReadWritten(lines[1..]);
      FirstRead(lines[0], NEWLINE, Written(lines[1..]));
    }
  }

  /** A line ends at a carriage return, a line feed, or the two together. */
  lemma {:induction false} FirstRead(line: string, end: string, rest: string)
    requires OneLine(line) && (end == NEWLINE || end == "\n" || (end == "\r" && (rest != "" ==> rest[0] != '\n')))
    ensures ReadLines(line + end + rest) == [line] + ReadLines(rest)
  {
    var s := line + end + rest;
    assert s[|line|] == end[0] && (|end| > 1 ==> s[|line| + 1] == '\n');
    EndAtIs(s, |line|);
    assert s[..|line|] == line && s[|line + end|..] == rest;
  }

  // ---- every line written is one line ----

  lemma BlanksOneLine(n: nat)
    ensures OneLine(Blanks(n))
  {
  }

  lemma KeyLineOneLine(indent: nat, key: string, text: string)
    requires OneLine(key) && OneLine(text)
    ensures OneLine(KeyLine(indent, key, text))
  {
    BlanksOneLine(indent);
  }

  lemma {:induction false} RowsOneLine(section: string, rows: seq<Row>, scalars: map<Field, Value>)
    requires AllOk(scalars) && forall row :: row in rows ==> Field(section, row.key) in scalars
    requires forall i :: 0 <= i < |rows| ==> Plain(rows[i].key)
    ensures AllOneLine(RowLines(section, rows, scalars))
  {
    hide ValueOk, ValueText, KeyLine, Plain, OneLine, SameKind, Parsed, ReadBack, Tidy, Unquote;
    if rows != [] {
      assert rows[0] in rows;
      var v := scalars[Field(section, rows[0].key)];
      PlainIsGood(rows[0].key);
      SameKindSelf(v);
      ValueRoundTrip(v, v);
      KeyLineOneLine(if section == "" then 0 else 2, rows[0].key, ValueText(v));
      RowsOneLine(section, rows[1..], scalars);
    }
  }

  lemma {:induction false} GroupsOneLine(groups: seq<Group>, scalars: map<Field, Value>)
    requires AllOk(scalars) && Covered(groups, scalars) && forall i :: 0 <= i < |groups| ==> GroupOk(groups[i])
    ensures AllOneLine(GroupsLines(groups, scalars))
  {
    hide ValueOk, KeyLine, Plain, OneLine, RowLines, IsFlat, IsTopKey;
    if groups != [] {
      var g := groups[0];
      assert g in groups;
      RowsOneLine(g.section, g.rows, scalars);
      if g.section != "" {
        PlainIsGood(g.section);
        EmptyTidy();
        KeyLineOneLine(0, g.section, "");
      }
      GroupsOneLine(groups[1..], scalars);
    }
  }

  lemma TextsOneLine(s: string, n: int)
    ensures OneLine(s) ==> OneLine(Quote(s))
    ensures IsInt(n) ==> OneLine(IntText(n))
    ensures OneLine("")
  {
    hide IntText, Quote, OneLine;
    if OneLine(s) {
      QuotedOneLine(s);
    }
    if IsInt(n) {
      IntRoundTrip(n);
    }
    EmptyTidy();
  }

  lemma PlainOneLine(key: string)
    requires Plain(key)
    ensures OneLine(key)
  {
    PlainIsGood(key);
  }

  lemma AgentOneLine(a: Named<Agent>)
    requires AgentOk(a)
    ensures AllOneLine(AgentLines(a))
  {
    hide KeyLine, OneLine, Plain, GoodName, IsInt, Quote, IntText;
    AgentKeys();
    PlainOneLine("provider");
    PlainOneLine("model");
    PlainOneLine("num_ctx");
    var n := if a.value.numCtx.Some? then a.value.numCtx.value else 0;
    TextsOneLine(a.value.provider, n);
    TextsOneLine(a.value.model, n);
    KeyLineOneLine(2, a.name, "");
    KeyLineOneLine(4, "provider", Quote(a.value.provider));
    KeyLineOneLine(4, "model", Quote(a.value.model));
    if a.value.numCtx.Some? {
      KeyLineOneLine(4, "num_ctx", IntText(n));
    }
  }

  lemma {:induction false} AgentsOneLine(agents: seq<Named<Agent>>)
    requires forall i :: 0 <= i < |agents| ==> AgentOk(agents[i])
    ensures AllOneLine(AgentsLines(agents))
  {
    hide AgentOk, AgentLines, OneLine;
    if agents != [] {
      AgentOneLine(agents[0]);
      AgentsOneLine(agents[1..]);
    }
  }

  lemma TagOneLine(tag: Named<int>)
    requires GoodTag(tag.name) && IsInt(tag.value)
    ensures OneLine(TagLine(tag))
  {
    hide IsInt, Quote, IntText;
    TextsOneLine(tag.name, tag.value);
    BlanksOneLine(8);
  }

  lemma {:induction false} TagsOneLine(tags: seq<Named<int>>)
    requires forall i :: 0 <= i < |tags| ==> GoodTag(tags[i].name) && IsInt(tags[i].value)
    ensures AllOneLine(TagLines(tags))
  {
    hide GoodTag, IsInt, TagLine, OneLine;
    if tags != [] {
      TagOneLine(tags[0]);
      TagsOneLine(tags[1..]);
    }
  }

  lemma FieldsOneLine(p: Named<Provider>)
    requires ProviderOk(p)
    ensures AllOneLine(FieldLines(p))
  {
    hide KeyLine, OneLine, Plain, GoodName, IsInt, IsDouble, Quote, IntText, GoodTag, DistinctNames;
    var v := p.value;
    ProviderKeys();
    MoreProviderKeys();
    PlainOneLine("base_url");
    PlainOneLine("model");
    PlainOneLine("timeout_seconds");
    PlainOneLine("num_ctx");
    TextsOneLine(v.baseUrl, v.numCtx);
    TextsOneLine(v.model, v.numCtx);
    DoubleRoundTrip(v.timeout);
    KeyLineOneLine(4, p.name, "");
    KeyLineOneLine(6, "base_url", Quote(v.baseUrl));
    KeyLineOneLine(6, "model", Quote(v.model));
    KeyLineOneLine(6, "timeout_seconds", v.timeout);
    KeyLineOneLine(6, "num_ctx", IntText(v.numCtx));
  }

  lemma KeysOneLine(p: Named<Provider>)
    requires ProviderOk(p)
    ensures AllOneLine(TagSection(p.value)) && AllOneLine(KeySection(p.value))
  {
    hide KeyLine, OneLine, Plain, GoodName, IsInt, IsDouble, Quote, IntText, GoodTag, DistinctNames, TagLines;
    var v := p.value;
    ProviderKeys();
    MoreProviderKeys();
    PlainOneLine("model_num_ctx");
    PlainOneLine("api_key");
    PlainOneLine("api_key_ref");
    TextsOneLine(v.apiKey, v.numCtx);
    TextsOneLine(v.apiKeyRef, v.numCtx);
    KeyLineOneLine(6, "model_num_ctx", "");
    KeyLineOneLine(6, "api_key", Quote(v.apiKey));
    KeyLineOneLine(6, "api_key_ref", Quote(v.apiKeyRef));
    assert forall i :: 0 <= i < |v.tags| ==> v.tags[i] in v.tags;
    TagsOneLine(v.tags);
  }

  lemma {:induction false} ProvidersOneLine(providers: seq<Named<Provider>>)
    requires forall i :: 0 <= i < |providers| ==> ProviderOk(providers[i])
    ensures AllOneLine(ProvidersLines(providers))
  {
    hide ProviderOk, OneLine, KeyLine, Quote, TagLines, IntText;
    if providers != [] {
      var p := providers[0];
      FieldsOneLine(p);
      KeysOneLine(p);
      ProvidersOneLine(providers[1..]);
      assert ProviderLines(p) == FieldLines(p) + TagSection(p.value) + KeySection(p.value);
    }
  }

  lemma ModelsOneLine(defaultProvider: string)
    requires OneLine(defaultProvider)
    ensures AllOneLine(ModelsHead(defaultProvider)) && OneLine(KeyLine(0, "system_agents", ""))
  {
    hide KeyLine, OneLine, Plain, Quote;
    AgentKeys();
    ModelKeys();
    PlainOneLine("system_agents");
    PlainOneLine("models");
    PlainOneLine("default_provider");
    PlainOneLine("providers");
    TextsOneLine(defaultProvider, 0);
    KeyLineOneLine(0, "system_agents", "");
    KeyLineOneLine(0, "models", "");
    KeyLineOneLine(2, "default_provider", Quote(defaultProvider));
    KeyLineOneLine(2, "providers", "");
  }

  lemma SavedOneLine(s: Settings)
    requires SaveOk(s) && Covered(GROUPS, s.scalars)
    ensures AllOneLine(Saved(s))
  {
    hide GROUPS, GroupsLines, AgentsLines, ProvidersLines, AgentOk, ProviderOk, ValueOk, Defaults, DistinctNames, KeyLine, OneLine, GroupOk;
    GroupsOk();
    EachAgentOk(s);
    GroupsOneLine(GROUPS, s.scalars);
    AgentsOneLine(s.agents);
    ProvidersOneLine(s.providers);
    ModelsOneLine(s.defaultProvider);
    assert Saved(s) == GroupsLines(GROUPS, s.scalars) + [KeyLine(0, "system_agents", "")] + AgentsLines(s.agents) +
      ModelsHead(s.defaultProvider) + ProvidersLines(s.providers);
  }

  /** Read back, the settings are in their normal form exactly when all survive. */
  lemma NormalExactly(s: Settings)
    ensures ReadBackSettings(s) == NormalSettings(s) <==> AllSurvive(s)
  {
    hide ReadBack, Normal, Survives;
    var back, normal := ReadBackSettings(s).scalars, NormalSettings(s).scalars;
    forall f | f in s.scalars ensures ReadBack(s.scalars[f]) == Normal(s.scalars[f]) <==> Survives(s.scalars[f]) {
      ReadBackExactly(s.scalars[f]);
    }
    if back == normal {
      forall f | f in s.scalars ensures Survives(s.scalars[f]) {
        assert back[f] == normal[f];
      }
    }
  }

  /** The round trip of the file. Loading the saved text gives every setting as it is read
      back. That is the settings in their normal form, and saving it writes the same text
      again, if and only if all survive: the objective is no word for none, and the list of
      allowed commands has no name in quotes and no bracket at its ends. */
  lemma FileRoundTrip(s: Settings)
    requires SaveOk(s)
    ensures Covered(GROUPS, s.scalars) && Covered(GROUPS, ReadBackSettings(s).scalars) && SaveOk(ReadBackSettings(s))
    ensures Loaded(ReadLines(Written(Saved(s)))) == ReadBackSettings(s)
    ensures ReadBackSettings(s) == NormalSettings(s) <==> AllSurvive(s)
    ensures Written(Saved(ReadBackSettings(s))) == Written(Saved(s)) <==> AllSurvive(s)
  {
    hide GROUPS, Saved, Loaded, NormalSettings, ReadBackSettings, AllSurvive, SaveOk, Written, ReadLines, OneLine;
    LoadSaved(s);
    SavedOneLine(s);
    ReadWritten(Saved(s));
    SavedAgain(s);
    NormalExactly(s);
    ReadBackSaves(s);
    SavedOneLine(ReadBackSettings(s));
    ReadWritten(Saved(ReadBackSettings(s)));
  }
}
