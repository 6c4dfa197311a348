/** `Load` and `Save` as they go through the file, line by line
    (desktop/EvoMesh.Desktop/EvoMeshYamlSettings.cs). */
module SettingsEditor {
  import opened Options
  import opened SettingsValues
  import opened SettingsLines
  import opened SettingsFile
  import opened SettingsScalars
  import opened SettingsProviders
  import opened SettingsReading
  import opened SettingsRoundTrip

  lemma ReadSnoc(r: Reader, lines: seq<string>, k: nat)
    requires k < |lines|
    ensures ReadFrom(r, lines[..k + 1]) == Step(ReadFrom(r, lines[..k]), lines[k])
  {
    hide Step;
    assert lines[..k + 1] == lines[..k] + [lines[k]];
    ReadAppend(r, lines[..k], [lines[k]]);
    ReadSingle(ReadFrom(r, lines[..k]), lines[k]);
  }

  /** A line in the models section, as the variables of the loop see it. */
  method ReadModelsLine(r: Reader, indent: nat, key: string, value: string, line: string) returns (next: Reader)
    requires ColonAt(line) < |line|
    ensures next == StepModels(r, indent, key, value, line)
  {
    hide SplitPair, ProviderWith, TryInt, Put, TryAdd, Place;
    var settings, modelSection, provider, modelNumCtxProvider := r.settings, r.inProviders, r.provider, r.tagsOf;
    if indent == 2 && key == "default_provider" {
      settings := settings.(defaultProvider := value);
    } else if indent == 2 && key == "providers" {
      modelSection := true;
    } else if modelSection && indent == 4 && value == "" {
      provider := Some(key);
      modelNumCtxProvider := None;
      settings := settings.(providers := TryAdd(settings.providers, key, BLANK_PROVIDER));
    } else if modelSection && indent >= 8 && modelNumCtxProvider.Some? {
      var pair := SplitPair(line);
      var n := TryInt(pair.1);
      var name := modelNumCtxProvider.value;
      var i := Place(settings.providers, name);
      if i < |settings.providers| {
        var current := settings.providers[i].value;
        if n.Some? {
          current := current.(tags := Put(current.tags, pair.0, n.value));
        }
        settings := settings.(providers := Put(settings.providers, name, current));
      }
    } else if modelSection && indent == 6 && key == "model_num_ctx" && value == "" && provider.Some? {
      modelNumCtxProvider := provider;
    } else if modelSection && indent >= 6 && provider.Some? {
      modelNumCtxProvider := None;
      var i := Place(settings.providers, provider.value);
      if i < |settings.providers| {
        var current := settings.providers[i].value;
        settings := settings.(providers := Put(settings.providers, provider.value, ProviderWith(current, key, value)));
      }
    }
    next := r.(settings := settings, inProviders := modelSection, provider := provider, tagsOf := modelNumCtxProvider);
  }

  /** `Load`. A switch is as the last line about it says, by the words it knows. */
  method Load(text: Option<string>) returns (settings: Settings)
    ensures text.None? ==> settings == New()
    ensures text.Some? ==> settings == Loaded(ReadLines(text.value))
    ensures text.Some? ==> SwitchesRead(settings, ReadLines(text.value))
  {
    hide SwitchesRead, Loaded, GROUPS, Defaults, ReadLine, StepModels, StepAgents, StepTop, WithScalar, ReadLines, IsFlat;
    settings := New();
    if text.None? {
      return;
    }
    var lines := ReadLines(text.value);
    var section: Option<string>, modelSection := None, false;
    var provider: Option<string>, modelNumCtxProvider: Option<string>, systemAgent: Option<string> := None, None, None;
    var k := 0;
    assert lines[..0] == [];
    while k < |lines|
      invariant k <= |lines|
      invariant Reader(settings, section, modelSection, provider, modelNumCtxProvider, systemAgent) == ReadFrom(Start(), lines[..k])
    {
      ReadSnoc(Start(), lines, k);
      var entry := ReadLine(lines[k]);
      k := k + 1;
      if entry.Entry? {
        var r := Reader(settings, section, modelSection, provider, modelNumCtxProvider, systemAgent);
        if entry.indent == 0 {
          r := StepTop(r, entry.key, entry.value);
        } else if section.Some? {
          if IsFlat(section.value) && entry.indent >= 2 {
            r := WithScalar(r, Field(section.value, entry.key), entry.value);
          } else if section.value == "models" {
            r := ReadModelsLine(r, entry.indent, entry.key, entry.value, entry.line);
          } else if section.value == "system_agents" {
            r := StepAgents(r, entry.indent, entry.key, entry.value);
          }
        }
        settings, section, modelSection := r.settings, r.section, r.inProviders;
        provider, modelNumCtxProvider, systemAgent := r.provider, r.tagsOf, r.agent;
      }
    }
    assert lines[..k] == lines;
    LoadedIs(lines);
    SwitchesLoaded(lines);
  }

  // ---- saving ----

  /** What `StreamWriter.WriteLine` has written so far. */
  class Writer {
    var text: string

    constructor ()
      ensures text == ""
    {
      text := "";
    }

    method WriteLine(line: string)
      modifies this
      ensures text == old(text) + line + NEWLINE
    {
      text := text + line + NEWLINE;
    }

    method WriteRows(section: string, rows: seq<Row>, scalars: map<Field, Value>)
      requires forall row :: row in rows ==> Field(section, row.key) in scalars
      modifies this
      ensures text == old(text) + Written(RowLines(section, rows, scalars))
    {
      hide KeyLine, ValueText;
      var k := 0;
      StartOf(text, RowLines(section, rows, scalars));
      while k < |rows|
        invariant k <= |rows|
        invariant text + Written(RowLines(section, rows[k..], scalars)) == old(text) + Written(RowLines(section, rows, scalars))
      {
        var rest := rows[k..];
        assert rest[0] == rows[k] && rest[1..] == rows[k + 1..] && rows[k] in rows;
        ghost var before, lines := text, RowLines(section, rest[1..], scalars);
        var line := KeyLine(if section == "" then 0 else 2, rows[k].key, ValueText(scalars[Field(section, rows[k].key)]));
        WriteLine(line);
        OneWritten(before, line, lines);
        k := k + 1;
      }
      NoneWritten(text);
    }

    method WriteGroups(groups: seq<Group>, scalars: map<Field, Value>)
      requires Covered(groups, scalars)
      modifies this
      ensures text == old(text) + Written(GroupsLines(groups, scalars))
    {
      hide KeyLine, ValueText, RowLines;
      var k := 0;
      StartOf(text, GroupsLines(groups, scalars));
      while k < |groups|
        invariant k <= |groups|
        invariant text + Written(GroupsLines(groups[k..], scalars)) == old(text) + Written(GroupsLines(groups, scalars))
      {
        var rest, g := groups[k..], groups[k];
        assert rest[0] == g && rest[1..] == groups[k + 1..] && g in groups;
        ghost var before, later := text, GroupsLines(rest[1..], scalars);
        if g.section != "" {
          WriteLine(KeyLine(0, g.section, ""));
          OneWritten(before, KeyLine(0, g.section, ""), []);
          NoneWritten(text);
        }
        ghost var header := if g.section == "" then [] else [KeyLine(0, g.section, "")];
        NoneWritten(before);
        assert text == before + Written(header);
        WriteRows(g.section, g.rows, scalars);
        TwoWritten(before, header, RowLines(g.section, g.rows, scalars));
        TwoWritten(before, GroupLines(g, scalars), later);
        k := k + 1;
      }
      NoneWritten(text);
    }

    method WriteAgents(agents: seq<Named<Agent>>)
      modifies this
      ensures text == old(text) + Written(AgentsLines(agents))
    {
      hide KeyLine, Quote, IntText;
      var k := 0;
      StartOf(text, AgentsLines(agents));
      while k < |agents|
        invariant k <= |agents|
        invariant text + Written(AgentsLines(agents[k..])) == old(text) + Written(AgentsLines(agents))
      {
        var rest, agent := agents[k..], agents[k];
        assert rest[0] == agent && rest[1..] == agents[k + 1..];
        ghost var before := text;
        WriteAgent(agent);
        TwoWritten(before, AgentLines(agent), AgentsLines(rest[1..]));
        k := k + 1;
      }
      NoneWritten(text);
    }

    method WriteAgent(agent: Named<Agent>)
      modifies this
      ensures text == old(text) + Written(AgentLines(agent))
    {
      hide KeyLine, Quote, IntText;
      var lines: seq<string> := [KeyLine(2, agent.name, ""), KeyLine(4, "provider", Quote(agent.value.provider)), KeyLine(4, "model", Quote(agent.value.model))];
      WriteAll(lines);
      if agent.value.numCtx.Some? {
        ghost var before := old(text);
        WriteAll([KeyLine(4, "num_ctx", IntText(agent.value.numCtx.value))]);
        TwoWritten(before, lines, [KeyLine(4, "num_ctx", IntText(agent.value.numCtx.value))]);
      } else {
        assert lines + [] == lines;
      }
    }

    /** Several lines, one after the other. */
    method WriteAll(lines: seq<string>)
      modifies this
      ensures text == old(text) + Written(lines)
    {
      var k := 0;
      StartOf(text, lines);
      while k < |lines|
        invariant k <= |lines|
        invariant text + Written(lines[k..]) == old(text) + Written(lines)
      {
        assert lines[k..] == [lines[k]] + lines[k + 1..];
        ghost var before := text;
        WriteLine(lines[k]);
        OneWritten(before, lines[k], lines[k + 1..]);
        k := k + 1;
      }
      NoneWritten(text);
    }

    method WriteProviders(providers: seq<Named<Provider>>)
      modifies this
      ensures text == old(text) + Written(ProvidersLines(providers))
    {
      hide ProviderLines;
      var k := 0;
      StartOf(text, ProvidersLines(providers));
      while k < |providers|
        invariant k <= |providers|
        invariant text + Written(ProvidersLines(providers[k..])) == old(text) + Written(ProvidersLines(providers))
      {
        var rest, provider := providers[k..], providers[k];
        assert rest[0] == provider && rest[1..] == providers[k + 1..];
        ghost var before := text;
        WriteProvider(provider);
        TwoWritten(before, ProviderLines(provider), ProvidersLines(rest[1..]));
        k := k + 1;
      }
      NoneWritten(text);
    }

    method WriteProvider(provider: Named<Provider>)
      modifies this
      ensures text == old(text) + Written(ProviderLines(provider))
    {
      hide KeyLine, Quote, IntText, TagLine;
      var v := provider.value;
      ghost var before := text;
      WriteAll([KeyLine(4, provider.name, ""), KeyLine(6, "base_url", Quote(v.baseUrl)), KeyLine(6, "model", Quote(v.model)),
                KeyLine(6, "timeout_seconds", v.timeout), KeyLine(6, "num_ctx", IntText(v.numCtx))]);
      NoneWritten(text);
      if |v.tags| > 0 {
        WriteLine(KeyLine(6, "model_num_ctx", ""));
        OneWritten(before + Written(FieldLines(provider)), KeyLine(6, "model_num_ctx", ""), TagLines(v.tags));
        WriteTags(v.tags);
      }
      assert text == before + Written(FieldLines(provider)) + Written(TagSection(v));
      TwoWritten(before, FieldLines(provider), TagSection(v));
      NoneWritten(text);
      ghost var middle := text;
      if v.apiKeyRef != "" {
        WriteAll([KeyLine(6, "api_key_ref", Quote(v.apiKeyRef))]);
      } else if v.apiKey != "" {
        WriteAll([KeyLine(6, "api_key", Quote(v.apiKey))]);
      }
      assert text == middle + Written(KeySection(v));
      TwoWritten(before, FieldLines(provider) + TagSection(v), KeySection(v));
      assert ProviderLines(provider) == FieldLines(provider) + TagSection(v) + KeySection(v);
    }

    method WriteTags(tags: seq<Named<int>>)
      modifies this
      ensures text == old(text) + Written(TagLines(tags))
    {
      hide TagLine;
      var k := 0;
      StartOf(text, TagLines(tags));
      while k < |tags|
        invariant k <= |tags|
        invariant text + Written(TagLines(tags[k..])) == old(text) + Written(TagLines(tags))
      {
        var rest := tags[k..];
        assert rest[0] == tags[k] && rest[1..] == tags[k + 1..];
        ghost var before := text;
        WriteLine(TagLine(tags[k]));
        OneWritten(before, TagLine(tags[k]), TagLines(rest[1..]));
        k := k + 1;
      }
      NoneWritten(text);
    }
  }

  lemma StartOf(text: string, lines: seq<string>)
    ensures text + Written(lines) == text + Written(lines[0..])
  {
    assert lines[0..] == lines;
  }

  lemma NoneWritten(text: string)
    ensures text + Written([]) == text
  {
  }

  lemma OneWritten(text: string, line: string, rest: seq<string>)
    ensures text + line + NEWLINE + Written(rest) == text + Written([line] + rest)
  {
    assert ([line] + rest)[1..] == rest;
  }

  lemma {:induction false} WrittenAppend(a: seq<string>, b: seq<string>)
    ensures Written(a + b) == Written(a) + Written(b)
  {
    if a == [] {
      assert a + b == b;
    } else {
      assert (a + b)[1..] == a[1..] + b && (a + b)[0] == a[0];
      WrittenAppend(a[1..], b);
    }
  }

  lemma TwoWritten(text: string, a: seq<string>, b: seq<string>)
    ensures text + Written(a) + Written(b) == text + Written(a + b)
  {
    WrittenAppend(a, b);
  }

  /** `Save`. */
  method Save(s: Settings) returns (text: string)
    requires Covered(GROUPS, s.scalars)
    ensures text == Written(Saved(s))
  {
    hide GROUPS, GroupsLines, AgentsLines, ProvidersLines, KeyLine, Quote, Written;
    var writer := new Writer();
    writer.WriteGroups(GROUPS, s.scalars);
    writer.WriteAll([KeyLine(0, "system_agents", "")]);
    writer.WriteAgents(s.agents);
    writer.WriteAll([KeyLine(0, "models", ""), KeyLine(2, "default_provider", Quote(s.defaultProvider)), KeyLine(2, "providers", "")]);
    writer.WriteProviders(s.providers);
    text := writer.text;
    FiveWritten(GroupsLines(GROUPS, s.scalars), [KeyLine(0, "system_agents", "")], AgentsLines(s.agents), ModelsHead(s.defaultProvider), ProvidersLines(s.providers));
  }

  lemma FiveWritten(a: seq<string>, b: seq<string>, c: seq<string>, d: seq<string>, e: seq<string>)
    ensures "" + Written(a) + Written(b) + Written(c) + Written(d) + Written(e) == Written(a + b + c + d + e)
  {
    hide Written;
    WrittenAppend(a, b);
    WrittenAppend(a + b, c);
    WrittenAppend(a + b + c, d);
    WrittenAppend(a + b + c + d, e);
    assert "" + Written(a) == Written(a);
  }

  /** Saving and loading again gives the settings back, normalised if and only if all survive. */
  method SaveThenLoad(s: Settings) returns (again: Settings)
    requires SaveOk(s)
    ensures again == ReadBackSettings(s) && (again == NormalSettings(s) <==> AllSurvive(s))
  {
    hide GROUPS, Saved, Loaded, NormalSettings, ReadBackSettings, AllSurvive, SaveOk, Written, ReadLines;
    FileRoundTrip(s);
    var text := Save(s);
    again := Load(Some(text));
  }
}
