/** Loading and saving the settings file, and that each undoes the other
    (desktop/EvoMesh.Desktop/EvoMeshYamlSettings.cs). */
module SettingsFile {
  import opened Options
  import opened SettingsValues
  import opened SettingsLines

  // ---- the scalar settings and their defaults ----

  datatype Row = Row(key: string, default_: Value)

  datatype Group = Group(section: string, rows: seq<Row>)

  const TOP := [
    Row("environment_name", Str("local")), Row("data_path", Str("data/evomesh.db")),
    Row("generation_path", Str("generations")), Row("workspace_path", Str("workspace")), Row("log_level", Str("INFO"))]

  const RUNTIME := [
    Row("cycle_seconds", Int(60)), Row("stagger_seconds", Dbl("1.5")), Row("prompt_chars", Int(6000)),
    Row("memory_chars", Int(3000)), Row("context_chars", Int(1500)), Row("inbox_chars", Int(1000)),
    Row("beliefs_chars", Int(700))]

  const EVOLUTION := [
    Row("autonomous", Flag(true, true)), Row("cycle_seconds", Int(300)), Row("auto_validate", Flag(true, true)),
    Row("max_repairs", Int(2)), Row("auto_promote", Flag(false, false)), Row("auto_restart", Flag(true, true)),
    Row("restart_delay_seconds", Dbl("5")), Row("objective", Objective(""))]

  const HARNESS := [
    Row("enabled", Flag(false, false)), Row("allow_write", Flag(false, false)), Row("max_steps", Int(24)),
    Row("max_seconds", Dbl("300")), Row("transcript_chars", Int(12000)), Row("shell_allow", NameList("")),
    Row("shell_seconds", Dbl("60")), Row("tool_result_chars", Int(4000)), Row("tool_result_lines", Int(200)),
    Row("grep_matches", Int(40)), Row("session_path", Str(".runtime/harness")), Row("workers", Int(1)),
    Row("max_queue", Int(8))]

  const GIT := [
    Row("author_name", Str("Mesh Evo Agent")), Row("author_email", Str("mesh-evo-agent@evomesh.local")),
    Row("auto_push", Flag(true, true)), Row("remote", Str("origin")), Row("branch", Str(""))]

  const TELEGRAM := [
    Row("enabled", Flag(false, false)), Row("token", Str("")), Row("allowed_chat_ids", IdList("")),
    Row("adopt_first_chat", Flag(true, true)), Row("poll_timeout_seconds", Int(30)), Row("announcements", Flag(true, true))]

  /** The groups in the order they are written. */
  const GROUPS := [Group("", TOP), Group("runtime", RUNTIME), Group("evolution", EVOLUTION), Group("harness", HARNESS),
                   Group("git", GIT), Group("telegram", TELEGRAM)]

  function WithRows(scalars: map<Field, Value>, section: string, rows: seq<Row>): map<Field, Value>
    decreases |rows|
  {
    if rows == [] then scalars else WithRows(scalars[Field(section, rows[0].key) := rows[0].default_], section, rows[1..])
  }

  function WithGroups(scalars: map<Field, Value>, groups: seq<Group>): map<Field, Value>
    decreases |groups|
  {
    if groups == [] then scalars else WithGroups(WithRows(scalars, groups[0].section, groups[0].rows), groups[1..])
  }

  function Defaults(): map<Field, Value> {
    WithGroups(map[], GROUPS)
  }

  function New(): Settings {
    Settings(Defaults(), "ollama", [], [])
  }

  predicate IsFlat(section: string) {
    section == "runtime" || section == "evolution" || section == "git" || section == "harness" || section == "telegram"
  }

  predicate IsTopKey(key: string) {
    key == "environment_name" || key == "data_path" || key == "generation_path" || key == "workspace_path" || key == "log_level"
  }

  // ---- loading ----

  /** What the loop of `Load` carries from line to line. */
  datatype Reader = Reader(settings: Settings, section: Option<string>, inProviders: bool, provider: Option<string>,
                           tagsOf: Option<string>, agent: Option<string>)

  function WithScalar(r: Reader, field: Field, value: string): Reader {
    if field in r.settings.scalars then
      r.(settings := r.settings.(scalars := r.settings.scalars[field := Parsed(r.settings.scalars[field], value)]))
    else r
  }

  function StepTop(r: Reader, key: string, value: string): Reader {
    var opened_ := r.(section := Some(key), inProviders := false, provider := None, tagsOf := None, agent := None);
    if IsTopKey(key) then WithScalar(opened_, Field("", key), value) else opened_
  }

  /** `SplitQuotedKeyPair`: a key that may hold a colon of its own, if it is quoted. */
  function SplitPair(line: string): (string, string)
    requires ColonAt(line) < |line|
  {
    var plain := (Trim(line[..ColonAt(line)]), Unquote(Trim(line[ColonAt(line) + 1..])));
    if line[0] == '\'' || line[0] == '"' then
      var closing := 1 + QuoteAt(line[1..], line[0]);
      if closing >= |line| then plain
      else
        var after := line[closing + 1..];
        var separator := ColonAt(after);
        if separator >= |after| then plain
        else (Unquote(line[..closing + 1]), Unquote(Trim(after[separator + 1..])))
    else plain
  }

  function QuoteAt(s: string, quote: char): (n: nat)
    ensures n <= |s| && (n < |s| ==> s[n] == quote) && forall i :: 0 <= i < n ==> s[i] != quote
  {
    if s == [] || s[0] == quote then 0 else 1 + QuoteAt(s[1..], quote)
  }

  function ProviderWith(p: Provider, key: string, value: string): Provider {
    if key == "base_url" then p.(baseUrl := value)
    else if key == "model" then p.(model := value)
    else if key == "api_key" then p.(apiKey := value)
    else if key == "api_key_ref" then p.(apiKeyRef := value)
    else if key == "timeout_seconds" then p.(timeout := ParseDouble(value, p.timeout))
    else if key == "num_ctx" then p.(numCtx := ParseInt(value, p.numCtx))
    else p
  }

  function WithProviders(r: Reader, providers: seq<Named<Provider>>): Reader {
    r.(settings := r.settings.(providers := providers))
  }

  /** `Providers[name] = ...` on a provider that is there. */
  function OnProvider(r: Reader, name: string, change: Provider -> Provider): Reader {
    var i := Place(r.settings.providers, name);
    if i < |r.settings.providers| then
      WithProviders(r, Put(r.settings.providers, name, change(r.settings.providers[i].value)))
    else r
  }

  function WithTag(line: string): Provider -> Provider
    requires ColonAt(line) < |line|
  {
    var (tag, value) := SplitPair(line);
    var n := TryInt(value);
    (p: Provider) => if n.Some? then p.(tags := Put(p.tags, tag, n.value)) else p
  }

  function WithKey(key: string, value: string): Provider -> Provider {
    (p: Provider) => ProviderWith(p, key, value)
  }

  function StepModels(r: Reader, indent: nat, key: string, value: string, line: string): Reader
    requires ColonAt(line) < |line|
  {
    if indent == 2 && key == "default_provider" then r.(settings := r.settings.(defaultProvider := value))
    else if indent == 2 && key == "providers" then r.(inProviders := true)
    else if !r.inProviders then r
    else if indent == 4 && value == "" then
      WithProviders(r, TryAdd(r.settings.providers, key, BLANK_PROVIDER)).(provider := Some(key), tagsOf := None)
    else if indent >= 8 && r.tagsOf.Some? then OnProvider(r, r.tagsOf.value, WithTag(line))
    else if indent == 6 && key == "model_num_ctx" && value == "" && r.provider.Some? then r.(tagsOf := r.provider)
    else if indent >= 6 && r.provider.Some? then OnProvider(r.(tagsOf := None), r.provider.value, WithKey(key, value))
    else r
  }

  function AgentWith(a: Agent, key: string, value: string): Agent {
    if key == "provider" then a.(provider := value)
    else if key == "model" then a.(model := value)
    else if key == "num_ctx" then a.(numCtx := if TryInt(value).Some? then TryInt(value) else a.numCtx)
    else a
  }

  function WithAgents(r: Reader, agents: seq<Named<Agent>>): Reader {
    r.(settings := r.settings.(agents := agents))
  }

  function StepAgents(r: Reader, indent: nat, key: string, value: string): Reader {
    if indent == 2 && value == "" then
      WithAgents(r, TryAdd(r.settings.agents, key, BLANK_AGENT)).(agent := Some(key))
    else if indent >= 4 && r.agent.Some? then
      var i := Place(r.settings.agents, r.agent.value);
      if i < |r.settings.agents| then
        WithAgents(r, Put(r.settings.agents, r.agent.value, AgentWith(r.settings.agents[i].value, key, value)))
      else r
    else r
  }

  function StepEntry(r: Reader, indent: nat, key: string, value: string, line: string): Reader
    requires ColonAt(line) < |line|
  {
    if indent == 0 then StepTop(r, key, value)
    else if r.section.None? then r
    else if IsFlat(r.section.value) && indent >= 2 then WithScalar(r, Field(r.section.value, key), value)
    else if r.section.value == "models" then StepModels(r, indent, key, value, line)
    else if r.section.value == "system_agents" then StepAgents(r, indent, key, value)
    else r
  }

  /** One turn of the loop of `Load`. */
  function Step(r: Reader, raw: string): Reader {
    var e := ReadLine(raw);
    if e.Skip? then r else StepEntry(r, e.indent, e.key, e.value, e.line)
  }

  function ReadFrom(r: Reader, lines: seq<string>): Reader
    decreases |lines|
  {
    if lines == [] then r else ReadFrom(Step(r, lines[0]), lines[1..])
  }

  function Start(): Reader {
    Reader(New(), None, false, None, None, None)
  }

  /** The settings `Load` makes of the lines of a file. */
  function Loaded(lines: seq<string>): Settings {
    ReadFrom(Start(), lines).settings
  }

  // ---- saving ----

  function RowLines(section: string, rows: seq<Row>, scalars: map<Field, Value>): seq<string>
    requires forall row :: row in rows ==> Field(section, row.key) in scalars
  {
    if rows == [] then []
    else
      [KeyLine(if section == "" then 0 else 2, rows[0].key, ValueText(scalars[Field(section, rows[0].key)]))] +
      RowLines(section, rows[1..], scalars)
  }

  function GroupLines(g: Group, scalars: map<Field, Value>): seq<string>
    requires forall row :: row in g.rows ==> Field(g.section, row.key) in scalars
  {
    (if g.section == "" then [] else [KeyLine(0, g.section, "")]) + RowLines(g.section, g.rows, scalars)
  }

  ghost predicate Covered(groups: seq<Group>, scalars: map<Field, Value>) {
    forall g, row :: g in groups && row in g.rows ==> Field(g.section, row.key) in scalars
  }

  function GroupsLines(groups: seq<Group>, scalars: map<Field, Value>): seq<string>
    requires Covered(groups, scalars)
  {
    if groups == [] then [] else GroupLines(groups[0], scalars) + GroupsLines(groups[1..], scalars)
  }

  function AgentLines(a: Named<Agent>): seq<string> {
    [KeyLine(2, a.name, ""), KeyLine(4, "provider", Quote(a.value.provider)), KeyLine(4, "model", Quote(a.value.model))] +
    if a.value.numCtx.Some? then [KeyLine(4, "num_ctx", IntText(a.value.numCtx.value))] else []
  }

  function AgentsLines(agents: seq<Named<Agent>>): seq<string> {
    if agents == [] then [] else AgentLines(agents[0]) + AgentsLines(agents[1..])
  }

  function TagLine(tag: Named<int>): string {
    Blanks(8) + (Quote(tag.name) + ": " + IntText(tag.value))
  }

  function TagLines(tags: seq<Named<int>>): seq<string> {
    if tags == [] then [] else [TagLine(tags[0])] + TagLines(tags[1..])
  }

  function ProviderLines(p: Named<Provider>): seq<string> {
    var v := p.value;
    [KeyLine(4, p.name, ""), KeyLine(6, "base_url", Quote(v.baseUrl)), KeyLine(6, "model", Quote(v.model)),
     KeyLine(6, "timeout_seconds", v.timeout), KeyLine(6, "num_ctx", IntText(v.numCtx))] +
    (if v.tags == [] then [] else [KeyLine(6, "model_num_ctx", "")] + TagLines(v.tags)) +
    (if v.apiKeyRef != "" then [KeyLine(6, "api_key_ref", Quote(v.apiKeyRef))]
     else if v.apiKey != "" then [KeyLine(6, "api_key", Quote(v.apiKey))]
     else [])
  }

  function ProvidersLines(providers: seq<Named<Provider>>): seq<string> {
    if providers == [] then [] else ProviderLines(providers[0]) + ProvidersLines(providers[1..])
  }

  ghost predicate IsSettings(s: Settings) {
    && s.scalars.Keys == Defaults().Keys
    && (forall f :: f in s.scalars ==> SameKind(s.scalars[f], Defaults()[f]))
  }

  /** The lines `Save` writes. */
  function Saved(s: Settings): seq<string>
    requires Covered(GROUPS, s.scalars)
  {
    GroupsLines(GROUPS, s.scalars) + [KeyLine(0, "system_agents", "")] + AgentsLines(s.agents) +
    [KeyLine(0, "models", ""), KeyLine(2, "default_provider", Quote(s.defaultProvider)), KeyLine(2, "providers", "")] +
    ProvidersLines(s.providers)
  }

  // ---- what can be saved, and what a saved file gives back ----

  predicate GoodTag(tag: string) {
    OneLine(tag) && forall i :: 0 <= i < |tag| ==> tag[i] != '\''
  }

  ghost predicate ProviderOk(p: Named<Provider>) {
    && GoodName(p.name) && OneLine(p.name)
    && OneLine(p.value.baseUrl) && OneLine(p.value.model) && OneLine(p.value.apiKey) && OneLine(p.value.apiKeyRef)
    && IsDouble(p.value.timeout) && IsInt(p.value.numCtx)
    && DistinctNames(p.value.tags) && (forall t :: t in p.value.tags ==> GoodTag(t.name) && IsInt(t.value))
  }

  ghost predicate AgentOk(a: Named<Agent>) {
    && GoodName(a.name) && OneLine(a.name) && OneLine(a.value.provider) && OneLine(a.value.model)
    && (a.value.numCtx.Some? ==> IsInt(a.value.numCtx.value))
  }

  ghost predicate SaveOk(s: Settings) {
    && IsSettings(s)
    && (forall f :: f in s.scalars ==> ValueOk(s.scalars[f]))
    && OneLine(s.defaultProvider)
    && DistinctNames(s.providers) && (forall p :: p in s.providers ==> ProviderOk(p))
    && DistinctNames(s.agents) && (forall a :: a in s.agents ==> AgentOk(a))
  }

  /** A key ref drops the literal key. */
  function NormalProvider(p: Named<Provider>): Named<Provider> {
    if p.value.apiKeyRef != "" then p.(value := p.value.(apiKey := "")) else p
  }

  function NormalProviders(providers: seq<Named<Provider>>): seq<Named<Provider>> {
    if providers == [] then [] else [NormalProvider(providers[0])] + NormalProviders(providers[1..])
  }

  /** The settings in their normal form: lists filtered, a blank objective emptied. */
  function NormalSettings(s: Settings): Settings {
    s.(scalars := map f | f in s.scalars :: Normal(s.scalars[f]), providers := NormalProviders(s.providers))
  }

  /** The settings as they are read back from a saved file. */
  function ReadBackSettings(s: Settings): Settings {
    s.(scalars := map f | f in s.scalars :: ReadBack(s.scalars[f]), providers := NormalProviders(s.providers))
  }

  ghost predicate AllSurvive(s: Settings) {
    forall f :: f in s.scalars ==> Survives(s.scalars[f])
  }
}
