/** The providers of a settings file, with their model tags, survive saving and loading
    (desktop/EvoMesh.Desktop/EvoMeshYamlSettings.cs). */
module SettingsProviders {
  import opened Options
  import opened SettingsValues
  import opened SettingsLines
  import opened SettingsFile
  import opened SettingsScalars
  import opened SettingsAgents

  // ---- tags ----

  lemma {:induction false} QuoteAtIs(s: string, quote: char, n: nat)
    requires n < |s| && s[n] == quote && forall i :: 0 <= i < n ==> s[i] != quote
    ensures QuoteAt(s, quote) == n
  {
    if n > 0 {
      QuoteAtIs(s[1..], quote, n - 1);
    }
  }

  lemma {:induction false} DoubledSame(s: string)
    requires forall i :: 0 <= i < |s| ==> s[i] != '\''
    ensures Doubled(s) == s && Halved(s) == s
  {
    if s != [] {
      DoubledSame(s[1..]);
    }
  }

  lemma {:induction false} DoubledStarts(s: string, n: nat)
    requires n <= |s| && forall i :: 0 <= i < n ==> s[i] != '\''
    ensures n <= |Doubled(s)| && Doubled(s)[..n] == s[..n]
    ensures n < |s| && s[n] == '\'' ==> n < |Doubled(s)| && Doubled(s)[n] == '\''
  {
    if n > 0 {
      DoubledStarts(s[1..], n - 1);
      assert Doubled(s) == [s[0]] + Doubled(s[1..]);
      assert s[..n] == [s[0]] + s[1..][..n - 1];
      assert Doubled(s)[..n] == [s[0]] + Doubled(s[1..])[..n - 1];
    }
  }

  lemma WrappedUnquotes(s: string)
    requires forall i :: 0 <= i < |s| ==> s[i] != '\''
    ensures Unquote("'" + s + "'") == s
  {
    var q := "'" + s + "'";
    assert q[1..|q| - 1] == s;
    DoubledSame(s);
  }

  function TagText(tag: string, text: string): string {
    Quote(tag) + ": " + text
  }

  /** The text of a tag line between its two first quotes is all that is read of the tag. */
  lemma {:induction false} TagReadsTo(tag: string, text: string)
    requires Tidy(text) && text != "" && !Wrapped(text)
    ensures var line := TagText(tag, text); ColonAt(line) < |line| && SplitPair(line).0 == tag[..QuoteAt(tag, '\'')]
    ensures QuoteAt(tag, '\'') == |tag| ==> SplitPair(TagText(tag, text)).1 == text
  {
    hide Tidy, Wrapped, Unquote, Trim;
    var line, q := TagText(tag, text), QuoteAt(tag, '\'');
    HasColon(line, |Quote(tag)|);
    DoubledStarts(tag, q);
    var inside := line[1..];
    assert inside == Doubled(tag) + "'" + (": " + text);
    if q == |tag| {
      DoubledSame(tag);
      WholeTag(tag, text, line);
    } else {
      CutTag(tag, text, line, q);
    }
  }

  lemma HasColon(s: string, n: nat)
    requires n < |s| && s[n] == ':'
    ensures ColonAt(s) < |s|
  {
  }

  /** How a quoted key splits off, once its closing quote and the colon after it are known. */
  lemma SplitsAt(line: string, closing: nat, key: string, after: string)
    requires |line| > 0 && line[0] == '\'' && 0 < closing < |line| && ColonAt(line) < |line|
    requires QuoteAt(line[1..], '\'') == closing - 1
    requires line[..closing + 1] == key && line[closing + 1..] == after && ColonAt(after) < |after|
    ensures SplitPair(line) == (Unquote(key), Unquote(Trim(after[ColonAt(after) + 1..])))
  {
    hide Unquote, Trim, QuoteAt, ColonAt;
  }

  lemma {:induction false} WholeTag(tag: string, text: string, line: string)
    requires QuoteAt(tag, '\'') == |tag| && Doubled(tag) == tag && line == TagText(tag, text) && ColonAt(line) < |line|
    requires Tidy(text) && text != "" && !Wrapped(text)
    ensures SplitPair(line) == (tag, text)
  {
    hide Tidy, Wrapped, Unquote, Trim, SplitPair, ColonAt, QuoteAt;
    assert forall i :: 0 <= i < |tag| ==> tag[i] != '\'';
    var key, after := "'" + tag + "'", ": " + text;
    assert line == key + after;
    ClosesAt(tag, after, line);
    AfterColon(text);
    SplitsAt(line, 1 + |tag|, key, after);
    WrappedUnquotes(tag);
    PaddedTrims(text);
    UnwrappedSame(text);
  }

  lemma AfterColon(text: string)
    ensures ColonAt(": " + text) == 0 && (": " + text)[1..] == " " + text
  {
  }

  /** Where the quote that closes a text without quotes stands. */
  lemma ClosesAt(inside: string, after: string, line: string)
    requires line == "'" + inside + "'" + after && forall i :: 0 <= i < |inside| ==> inside[i] != '\''
    ensures QuoteAt(line[1..], '\'') == |inside| && line[..|inside| + 2] == "'" + inside + "'" && line[|inside| + 2..] == after
  {
    var s := line[1..];
    assert s == inside + ("'" + after);
    assert s[|inside|] == '\'' && forall i :: 0 <= i < |inside| ==> s[i] == inside[i];
    QuoteAtIs(s, '\'', |inside|);
  }

  lemma {:induction false} CutTag(tag: string, text: string, line: string, q: nat)
    requires q == QuoteAt(tag, '\'') < |tag| && line == TagText(tag, text) && ColonAt(line) < |line|
    requires q < |Doubled(tag)| && Doubled(tag)[..q] == tag[..q] && Doubled(tag)[q] == '\''
    ensures SplitPair(line).0 == tag[..q]
  {
    hide Unquote, Trim, Doubled, SplitPair, ColonAt, QuoteAt;
    var rest := Doubled(tag)[q + 1..];
    assert Doubled(tag) == tag[..q] + "'" + rest;
    var after := rest + "'" + ": " + text;
    assert line == "'" + tag[..q] + "'" + after;
    ClosesAt(tag[..q], after, line);
    HasColon(after, |rest| + 1);
    SplitsAt(line, 1 + q, "'" + tag[..q] + "'", after);
    WrappedUnquotes(tag[..q]);
  }

  /** A tag comes back exactly when it holds no single quote. */
  lemma TagReadsExactly(tag: string, text: string)
    requires Tidy(text) && text != "" && !Wrapped(text)
    ensures ColonAt(TagText(tag, text)) < |TagText(tag, text)|
    ensures SplitPair(TagText(tag, text)).0 == tag <==> forall i :: 0 <= i < |tag| ==> tag[i] != '\''
  {
    hide SplitPair, Tidy, Wrapped, TagText;
    TagReadsTo(tag, text);
    if forall i :: 0 <= i < |tag| ==> tag[i] != '\'' {
      assert tag[..|tag|] == tag;
    }
  }

  /** Written by hand in double quotes, a tag is read up to the quote that closes it, colons
      and all. */
  lemma DoubleQuotedReads(tag: string, text: string)
    requires Tidy(text) && text != "" && !Wrapped(text) && forall i :: 0 <= i < |tag| ==> tag[i] != '"'
    ensures var line := "\"" + tag + "\"" + (": " + text); ColonAt(line) < |line| && SplitPair(line) == (Halved(tag), text)
  {
    hide Tidy, Wrapped, Halved, Trim;
    var key, after := "\"" + tag + "\"", ": " + text;
    var line := key + after;
    HasColon(line, |key|);
    var s := line[1..];
    assert s == tag + ("\"" + after);
    assert s[|tag|] == '"' && forall i :: 0 <= i < |tag| ==> s[i] == tag[i];
    QuoteAtIs(s, '"', |tag|);
    assert line[..|key|] == key && line[|key|..] == after;
    AfterColon(text);
    assert key[1..|key| - 1] == tag;
    assert Wrapped(key) by {
      KeyWrapped(key);
    }
    PaddedTrims(text);
    UnwrappedSame(text);
  }

  lemma KeyWrapped(key: string)
    requires |key| >= 2 && key[0] == '"' && key[|key| - 1] == '"'
    ensures Wrapped(key)
  {
  }

  /** Without quotes it is read up to its first colon. */
  lemma BareReads(tag: string, text: string)
    requires Tidy(text) && text != "" && !Wrapped(text) && GoodName(tag) && tag != "" && tag[0] != '\'' && tag[0] != '"'
    ensures var line := tag + (": " + text); ColonAt(line) < |line| && SplitPair(line) == (tag, text)
  {
    hide Tidy, Wrapped, Halved, Trim;
    var line := tag + (": " + text);
    assert line[|tag|] == ':' && forall i :: 0 <= i < |tag| ==> line[i] == tag[i];
    ColonAtIs(line, |tag|);
    assert line[..|tag|] == tag && line[|tag| + 1..] == " " + text;
    TrimTidy(tag);
    PaddedTrims(text);
    UnwrappedSame(text);
  }

  // ---- the lines of one provider ----

  /** A reader inside the block of the last provider. */
  function InProvider(r: Reader, before: seq<Named<Provider>>, name: string, p: Provider, tagsOf: Option<string>): Reader {
    WithProviders(r, before + [Named(name, p)]).(provider := Some(name), tagsOf := tagsOf)
  }

  ghost predicate AtProviders(r: Reader) {
    r.section == Some("models") && r.inProviders
  }

  lemma ProviderHeader(r: Reader, name: string)
    requires AtProviders(r) && GoodName(name) && IsNew(r.settings.providers, name)
    ensures Step(r, KeyLine(4, name, "")) == InProvider(r, r.settings.providers, name, BLANK_PROVIDER, None)
  {
    hide Tidy, GoodName, Step, KeyLine, ReadLine, IsFlat;
    EmptyTidy();
    AgentSections();
    StepKey(r, 4, name, "");
    PlaceOfNew(r.settings.providers, name);
  }

  lemma {:induction false} ReplaceLast<V>(before: seq<Named<V>>, name: string, v: V, w: V)
    requires IsNew(before, name)
    ensures Place(before + [Named(name, v)], name) == |before|
    ensures Put(before + [Named(name, v)], name, w) == before + [Named(name, w)]
  {
    hide Folded;
    PlaceOfLast(before, Named(name, v));
    assert (before + [Named(name, v)])[|before| := Named(name, w)] == before + [Named(name, w)];
  }

  lemma ProviderField(r: Reader, before: seq<Named<Provider>>, name: string, p: Provider, tagsOf: Option<string>, key: string, text: string)
    requires AtProviders(r) && IsNew(before, name) && Plain(key) && Tidy(text) && key != "model_num_ctx"
    ensures Step(InProvider(r, before, name, p, tagsOf), KeyLine(6, key, text)) ==
      InProvider(r, before, name, ProviderWith(p, key, Unquote(text)), None)
  {
    hide Tidy, GoodName, Step, KeyLine, ReadLine, Plain, Unquote, ProviderWith, IsFlat, Put, Place, IsNew;
    PlainIsGood(key);
    AgentSections();
    StepKey(InProvider(r, before, name, p, tagsOf), 6, key, text);
    ReplaceLast(before, name, p, ProviderWith(p, key, Unquote(text)));
  }

  lemma TagsHeader(r: Reader, before: seq<Named<Provider>>, name: string, p: Provider)
    requires AtProviders(r)
    ensures Step(InProvider(r, before, name, p, None), KeyLine(6, "model_num_ctx", "")) ==
      InProvider(r, before, name, p, Some(name))
  {
    hide Tidy, GoodName, Step, KeyLine, ReadLine, Plain, IsFlat;
    EmptyTidy();
    ProviderKeys();
    PlainIsGood("model_num_ctx");
    AgentSections();
    StepKey(InProvider(r, before, name, p, None), 6, "model_num_ctx", "");
  }

  lemma ProviderKeys()
    ensures Plain("base_url") && Plain("model") && Plain("num_ctx") && Plain("model_num_ctx")
  {
  }

  lemma MoreProviderKeys()
    ensures Plain("timeout_seconds") && Plain("api_key") && Plain("api_key_ref")
  {
  }

  /** What a tag line is read as. */
  lemma TagLineReads(tag: Named<int>)
    requires GoodTag(tag.name) && IsInt(tag.value)
    ensures var e := ReadLine(TagLine(tag));
      e.Entry? && e.indent == 8 && SplitPair(e.line) == (tag.name, IntText(tag.value))
  {
    hide Tidy, Wrapped, SplitPair, Trim, Unquote, IntText, Quote, IsInt;
    var text := IntText(tag.value);
    IntRoundTrip(tag.value);
    QuoteAtEnd(tag.name);
    TagReadsTo(tag.name, text);
    var line := TagText(tag.name, text);
    TagTidy(tag.name, text);
    TrimIndented(8, line);
    assert tag.name[..|tag.name|] == tag.name;
  }

  lemma QuoteAtEnd(tag: string)
    requires GoodTag(tag)
    ensures QuoteAt(tag, '\'') == |tag|
  {
  }

  lemma TagTidy(tag: string, text: string)
    requires Tidy(text) && text != ""
    ensures var line := TagText(tag, text); line != "" && Tidy(line) && line[0] != '#'
  {
    var line := TagText(tag, text);
    assert line[|line| - 1] == text[|text| - 1];
  }

  lemma TagStep(r: Reader, before: seq<Named<Provider>>, name: string, p: Provider, tag: Named<int>)
    requires AtProviders(r) && IsNew(before, name) && GoodTag(tag.name) && IsInt(tag.value) && IsNew(p.tags, tag.name)
    ensures Step(InProvider(r, before, name, p, Some(name)), TagLine(tag)) ==
      InProvider(r, before, name, p.(tags := p.tags + [tag]), Some(name))
  {
    hide Tidy, ReadLine, IsFlat, Place, IsNew, IntText, SplitPair, GoodTag, TagLine, IsInt;
    TagLineReads(tag);
    IntRoundTrip(tag.value);
    AgentSections();
    NewTag(p.tags, tag);
    ReplaceLast(before, name, p, p.(tags := p.tags + [tag]));
  }

  lemma NewTag(tags: seq<Named<int>>, tag: Named<int>)
    requires IsNew(tags, tag.name)
    ensures Put(tags, tag.name, tag.value) == tags + [tag]
  {
    hide Folded;
    PlaceOfNew(tags, tag.name);
  }

  lemma {:induction false} TagsBlock(r: Reader, before: seq<Named<Provider>>, name: string, p: Provider, tags: seq<Named<int>>)
    requires AtProviders(r) && IsNew(before, name) && DistinctNames(p.tags + tags)
    requires forall i :: 0 <= i < |tags| ==> GoodTag(tags[i].name) && IsInt(tags[i].value)
    ensures ReadFrom(InProvider(r, before, name, p, Some(name)), TagLines(tags)) ==
      InProvider(r, before, name, p.(tags := p.tags + tags), Some(name))
    decreases |tags|
  {
    hide Step, TagLine, DistinctNames, IsNew, GoodTag, InProvider, IsInt;
    if tags == [] {
      assert p.tags + [] == p.tags;
    } else {
      var head, rest := tags[0], tags[1..];
      assert tags == [head] + rest;
      NewAfter(p.tags, head, rest);
      TagStep(r, before, name, p, head);
      TagsBlock(r, before, name, p.(tags := p.tags + [head]), rest);
      ReadOne(InProvider(r, before, name, p, Some(name)), TagLine(head), TagLines(rest));
      assert p.tags + [head] + rest == p.tags + tags;
    }
  }

  // ---- one provider ----

  /** The provider without its key. */
  function Keyless(v: Provider): Provider {
    v.(apiKey := "", apiKeyRef := "")
  }

  function FieldLines(p: Named<Provider>): seq<string> {
    var v := p.value;
    [KeyLine(4, p.name, ""), KeyLine(6, "base_url", Quote(v.baseUrl)), KeyLine(6, "model", Quote(v.model)),
     KeyLine(6, "timeout_seconds", v.timeout), KeyLine(6, "num_ctx", IntText(v.numCtx))]
  }

  function TagSection(v: Provider): seq<string> {
    if v.tags == [] then [] else [KeyLine(6, "model_num_ctx", "")] + TagLines(v.tags)
  }

  function KeySection(v: Provider): seq<string> {
    if v.apiKeyRef != "" then [KeyLine(6, "api_key_ref", Quote(v.apiKeyRef))]
    else if v.apiKey != "" then [KeyLine(6, "api_key", Quote(v.apiKey))]
    else []
  }

  lemma FieldsSet(p: Provider, v: Provider)
    ensures ProviderWith(p, "base_url", v.baseUrl) == p.(baseUrl := v.baseUrl)
    ensures forall q: Provider :: ProviderWith(q, "model", v.model) == q.(model := v.model)
    ensures forall q: Provider, s: string :: ProviderWith(q, "timeout_seconds", s) == q.(timeout := ParseDouble(s, q.timeout))
    ensures forall q: Provider, s: string :: ProviderWith(q, "num_ctx", s) == q.(numCtx := ParseInt(s, q.numCtx))
  {
    hide ParseDouble, ParseInt;
  }

  lemma KeysSet(p: Provider, s: string)
    ensures ProviderWith(p, "api_key_ref", s) == p.(apiKeyRef := s) && ProviderWith(p, "api_key", s) == p.(apiKey := s)
  {
    hide ParseDouble, ParseInt;
  }

  lemma NotTagsKey()
    ensures "base_url" != "model_num_ctx" && "model" != "model_num_ctx" && "timeout_seconds" != "model_num_ctx"
    ensures "num_ctx" != "model_num_ctx" && "api_key" != "model_num_ctx" && "api_key_ref" != "model_num_ctx"
  {
    assert |"model_num_ctx"| == 13;
  }

  lemma FieldsBlock(r: Reader, p: Named<Provider>)
    requires AtProviders(r) && ProviderOk(p) && IsNew(r.settings.providers, p.name)
    ensures ReadFrom(r, FieldLines(p)) ==
      InProvider(r, r.settings.providers, p.name, Keyless(p.value).(tags := []), None)
  {
    hide Tidy, GoodName, Step, KeyLine, Plain, Unquote, Quote, IntText, IsNew, OneLine, TryInt, InProvider, ProviderWith,
      IsDouble, IsInt, DistinctNames, GoodTag, ParseDouble, AtProviders, Wrapped;
    var before, name, v := r.settings.providers, p.name, p.value;
    ProviderKeys();
    MoreProviderKeys();
    NotTagsKey();
    FieldsSet(BLANK_PROVIDER, v);
    ProviderHeader(r, name);
    QuoteRoundTrip(v.baseUrl);
    QuoteRoundTrip(v.model);
    DoubleRoundTrip(v.timeout);
    UnwrappedSame(v.timeout);
    IntRoundTrip(v.numCtx);
    UnwrappedSame(IntText(v.numCtx));
    var p1 := BLANK_PROVIDER.(baseUrl := v.baseUrl);
    var p2 := p1.(model := v.model);
    var p3 := p2.(timeout := v.timeout);
    ProviderField(r, before, name, BLANK_PROVIDER, None, "base_url", Quote(v.baseUrl));
    ProviderField(r, before, name, p1, None, "model", Quote(v.model));
    ProviderField(r, before, name, p2, None, "timeout_seconds", v.timeout);
    ProviderField(r, before, name, p3, None, "num_ctx", IntText(v.numCtx));
    ReadFive(r, FieldLines(p));
  }

  lemma {:induction false} ReadFive(r: Reader, lines: seq<string>)
    requires |lines| == 5
    ensures ReadFrom(r, lines) == Step(Step(Step(Step(Step(r, lines[0]), lines[1]), lines[2]), lines[3]), lines[4])
  {
    hide Step;
    assert lines == [lines[0]] + [lines[1], lines[2], lines[3], lines[4]];
    ReadOne(r, lines[0], [lines[1], lines[2], lines[3], lines[4]]);
    ReadFour(Step(r, lines[0]), lines[1], lines[2], lines[3], lines[4]);
  }

  /** The tags leave the reader inside the block, perhaps still among tags. */
  lemma TagSectionBlock(r: Reader, p: Named<Provider>)
    requires AtProviders(r) && ProviderOk(p) && IsNew(r.settings.providers, p.name)
    ensures ReadFrom(InProvider(r, r.settings.providers, p.name, Keyless(p.value).(tags := []), None), TagSection(p.value)) ==
      InProvider(r, r.settings.providers, p.name, Keyless(p.value), if p.value.tags == [] then None else Some(p.name))
  {
    hide Tidy, GoodName, Step, KeyLine, IsNew, OneLine, InProvider, IsDouble, IsInt, DistinctNames, GoodTag, AtProviders, TagLine;
    var before, name, v := r.settings.providers, p.name, p.value;
    if v.tags != [] {
      var bare := Keyless(v).(tags := []);
      TagsHeader(r, before, name, bare);
      ReadOne(InProvider(r, before, name, bare, None), KeyLine(6, "model_num_ctx", ""), TagLines(v.tags));
      assert [] + v.tags == v.tags;
      assert forall i :: 0 <= i < |v.tags| ==> v.tags[i] in v.tags;
      TagsBlock(r, before, name, bare, v.tags);
    }
  }

  lemma KeySectionBlock(r: Reader, p: Named<Provider>, tagsOf: Option<string>)
    requires AtProviders(r) && IsNew(r.settings.providers, p.name)
    ensures ReadFrom(InProvider(r, r.settings.providers, p.name, Keyless(p.value), tagsOf), KeySection(p.value)) ==
      InProvider(r, r.settings.providers, p.name, NormalProvider(p).value, if KeySection(p.value) == [] then tagsOf else None)
  {
    hide Tidy, GoodName, Step, KeyLine, IsNew, InProvider, AtProviders, Quote, Plain, Unquote, ProviderWith;
    var before, name, v := r.settings.providers, p.name, p.value;
    MoreProviderKeys();
    NotTagsKey();
    var start := InProvider(r, before, name, Keyless(v), tagsOf);
    if v.apiKeyRef != "" {
      QuoteRoundTrip(v.apiKeyRef);
      KeysSet(Keyless(v), v.apiKeyRef);
      ProviderField(r, before, name, Keyless(v), tagsOf, "api_key_ref", Quote(v.apiKeyRef));
      ReadSingle(start, KeyLine(6, "api_key_ref", Quote(v.apiKeyRef)));
    } else if v.apiKey != "" {
      QuoteRoundTrip(v.apiKey);
      KeysSet(Keyless(v), v.apiKey);
      ProviderField(r, before, name, Keyless(v), tagsOf, "api_key", Quote(v.apiKey));
      ReadSingle(start, KeyLine(6, "api_key", Quote(v.apiKey)));
    } else {
      assert ReadFrom(start, []) == start;
    }
  }

  lemma ReadSingle(r: Reader, line: string)
    ensures ReadFrom(r, [line]) == Step(r, line)
  {
    hide Step;
    assert [line] == [line] + [];
    ReadOne(r, line, []);
  }

  lemma ProviderBlock(r: Reader, p: Named<Provider>)
    requires AtProviders(r) && ProviderOk(p) && IsNew(r.settings.providers, p.name)
    ensures ReadFrom(r, ProviderLines(p)) ==
      InProvider(r, r.settings.providers, p.name, NormalProvider(p).value,
                 if KeySection(p.value) == [] && p.value.tags != [] then Some(p.name) else None)
  {
    hide ProviderOk, Step, KeyLine, IsNew, InProvider, AtProviders, Quote, IntText, TagLines, NormalProvider, Keyless, ReadFrom;
    var v := p.value;
    FieldsBlock(r, p);
    TagSectionBlock(r, p);
    KeySectionBlock(r, p, if v.tags == [] then None else Some(p.name));
    ReadAppend(r, FieldLines(p), TagSection(v));
    ReadAppend(r, FieldLines(p) + TagSection(v), KeySection(v));
    assert ProviderLines(p) == FieldLines(p) + TagSection(v) + KeySection(v);
  }

  // ---- all providers ----

  lemma {:induction false} ProvidersBlock(r: Reader, providers: seq<Named<Provider>>)
    requires AtProviders(r) && DistinctNames(r.settings.providers + providers)
    requires forall i :: 0 <= i < |providers| ==> ProviderOk(providers[i])
    ensures ReadFrom(r, ProvidersLines(providers)).settings ==
      r.settings.(providers := r.settings.providers + NormalProviders(providers))
    decreases |providers|
  {
    hide Step, ProviderLines, ProviderOk, DistinctNames, IsNew, NormalProvider;
    if providers == [] {
      assert r.settings.providers + [] == r.settings.providers;
    } else {
      var head, rest, before := providers[0], providers[1..], r.settings.providers;
      assert providers == [head] + rest;
      NewAfter(before, head, rest);
      ProviderBlock(r, head);
      var next := ReadFrom(r, ProviderLines(head));
      NormalName(head);
      SameNames(before, head, NormalProvider(head), rest);
      assert next.settings.providers == before + [NormalProvider(head)];
      ProvidersBlock(next, rest);
      ReadAppend(r, ProviderLines(head), ProvidersLines(rest));
      assert before + [NormalProvider(head)] + NormalProviders(rest) == before + NormalProviders(providers);
    }
  }

  lemma NormalName(p: Named<Provider>)
    ensures NormalProvider(p).name == p.name
    ensures Named(p.name, NormalProvider(p).value) == NormalProvider(p)
  {
  }

  lemma SameNames(before: seq<Named<Provider>>, head: Named<Provider>, other: Named<Provider>, rest: seq<Named<Provider>>)
    requires DistinctNames(before + [head] + rest) && other.name == head.name
    ensures DistinctNames(before + [other] + rest)
  {
    hide Folded;
    var a, b := before + [head] + rest, before + [other] + rest;
    assert forall i :: 0 <= i < |a| ==> a[i].name == b[i].name;
  }
}
