/** The agents of a settings file survive saving and loading
    (desktop/EvoMesh.Desktop/EvoMeshYamlSettings.cs). */
module SettingsAgents {
  import opened Options
  import opened SettingsValues
  import opened SettingsLines
  import opened SettingsFile
  import opened SettingsScalars

  // ---- agents ----

  lemma AgentKeys()
    ensures Plain("provider") && Plain("model") && Plain("num_ctx") && Plain("system_agents")
  {
  }

  lemma AgentSections()
    ensures !IsTopKey("system_agents") && !IsTopKey("models") && !IsFlat("system_agents") && !IsFlat("models")
  {
    hide Plain;
    SectionsOk();
  }

  /** A reader inside the block of the last agent. */
  function InAgent(r: Reader, before: seq<Named<Agent>>, name: string, a: Agent): Reader {
    WithAgents(r, before + [Named(name, a)]).(agent := Some(name))
  }

  lemma AgentHeader(r: Reader, name: string)
    requires r.section == Some("system_agents") && GoodName(name) && IsNew(r.settings.agents, name)
    ensures Step(r, KeyLine(2, name, "")) == InAgent(r, r.settings.agents, name, BLANK_AGENT)
  {
    hide Tidy, GoodName, Step, KeyLine, ReadLine, IsFlat;
    EmptyTidy();
    AgentSections();
    StepKey(r, 2, name, "");
    PlaceOfNew(r.settings.agents, name);
  }

  lemma AgentField(r: Reader, before: seq<Named<Agent>>, name: string, a: Agent, key: string, text: string)
    requires r.section == Some("system_agents") && IsNew(before, name) && Plain(key) && Tidy(text)
    ensures Step(InAgent(r, before, name, a), KeyLine(4, key, text)) == InAgent(r, before, name, AgentWith(a, key, Unquote(text)))
  {
    hide Tidy, GoodName, Step, KeyLine, ReadLine, Plain, Unquote, AgentWith, IsFlat;
    PlainIsGood(key);
    AgentSections();
    StepKey(InAgent(r, before, name, a), 4, key, text);
    PlaceOfLast(before, Named(name, a));
    var agents := before + [Named(name, a)];
    assert agents[|before| := Named(name, AgentWith(a, key, Unquote(text)))] == before + [Named(name, AgentWith(a, key, Unquote(text)))];
  }

  lemma AgentBlock(r: Reader, a: Named<Agent>)
    requires r.section == Some("system_agents") && AgentOk(a) && IsNew(r.settings.agents, a.name)
    ensures ReadFrom(r, AgentLines(a)) == InAgent(r, r.settings.agents, a.name, a.value)
  {
    hide Tidy, GoodName, Step, KeyLine, Plain, Unquote, Quote, IntText, IsNew, OneLine, TryInt, InAgent;
    var before, name, v := r.settings.agents, a.name, a.value;
    AgentKeys();
    AgentHeader(r, name);
    QuoteRoundTrip(v.provider);
    AgentField(r, before, name, BLANK_AGENT, "provider", Quote(v.provider));
    AgentAfter(v, BLANK_AGENT);
    QuoteRoundTrip(v.model);
    AgentField(r, before, name, BLANK_AGENT.(provider := v.provider), "model", Quote(v.model));
    var l0, l1, l2 := KeyLine(2, name, ""), KeyLine(4, "provider", Quote(v.provider)), KeyLine(4, "model", Quote(v.model));
    if v.numCtx.Some? {
      IntRoundTrip(v.numCtx.value);
      UnwrappedSame(IntText(v.numCtx.value));
      AgentField(r, before, name, BLANK_AGENT.(provider := v.provider, model := v.model), "num_ctx", IntText(v.numCtx.value));
      ReadFour(r, l0, l1, l2, KeyLine(4, "num_ctx", IntText(v.numCtx.value)));
      assert AgentLines(a) == [l0, l1, l2, KeyLine(4, "num_ctx", IntText(v.numCtx.value))];
    } else {
      ReadThree(r, l0, l1, l2);
      assert AgentLines(a) == [l0, l1, l2];
    }
  }

  lemma AgentAfter(v: Agent, a: Agent)
    ensures AgentWith(a, "provider", v.provider) == a.(provider := v.provider)
    ensures forall b: Agent :: AgentWith(b, "model", v.model) == b.(model := v.model)
    ensures forall b: Agent, value: string :: TryInt(value).Some? ==> AgentWith(b, "num_ctx", value) == b.(numCtx := TryInt(value))
  {
    hide TryInt;
  }

  lemma UnwrappedSame(s: string)
    requires !Wrapped(s)
    ensures Unquote(s) == s
  {
  }

  lemma ReadThree(r: Reader, a: string, b: string, c: string)
    ensures ReadFrom(r, [a, b, c]) == Step(Step(Step(r, a), b), c)
  {
    hide Step;
    ReadOne(r, a, [b, c]);
    ReadOne(Step(r, a), b, [c]);
    ReadOne(Step(Step(r, a), b), c, []);
    assert [a] + [b, c] == [a, b, c] && [b] + [c] == [b, c] && [c] + [] == [c];
  }

  lemma ReadFour(r: Reader, a: string, b: string, c: string, d: string)
    ensures ReadFrom(r, [a, b, c, d]) == Step(Step(Step(Step(r, a), b), c), d)
  {
    hide Step;
    ReadOne(r, a, [b, c, d]);
    ReadThree(Step(r, a), b, c, d);
    assert [a] + [b, c, d] == [a, b, c, d];
  }

  lemma NewAfter<V>(before: seq<Named<V>>, head: Named<V>, rest: seq<Named<V>>)
    requires DistinctNames(before + ([head] + rest))
    ensures IsNew(before, head.name) && DistinctNames(before + [head] + rest)
  {
    hide Folded;
    var all := before + ([head] + rest);
    assert all[|before|] == head;
    assert before + [head] + rest == all;
    forall i | 0 <= i < |before| ensures Folded(before[i].name) != Folded(head.name) {
      assert all[i] == before[i];
    }
  }

  lemma {:induction false} AgentsBlock(r: Reader, agents: seq<Named<Agent>>)
    requires r.section == Some("system_agents") && DistinctNames(r.settings.agents + agents)
    requires forall i :: 0 <= i < |agents| ==> AgentOk(agents[i])
    ensures ReadFrom(r, AgentsLines(agents)).settings == r.settings.(agents := r.settings.agents + agents)
    decreases |agents|
  {
    hide Step, AgentLines, AgentOk, DistinctNames, IsNew;
    if agents == [] {
      assert r.settings.agents + [] == r.settings.agents;
    } else {
      var head, rest := agents[0], agents[1..];
      assert agents == [head] + rest;
      NewAfter(r.settings.agents, head, rest);
      AgentBlock(r, head);
      AgentsBlock(ReadFrom(r, AgentLines(head)), rest);
      ReadAppend(r, AgentLines(head), AgentsLines(rest));
      assert r.settings.agents + [head] + rest == r.settings.agents + agents;
    }
  }
}
