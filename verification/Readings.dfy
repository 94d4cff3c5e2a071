/** What a stored document reads as: in both directions, key by key, with what an absent key stands for. */
module Readings {
  import opened Bytes
  import opened Json
  import opened Domain
  import opened Entries
  import opened EntryPatch
  import opened Files
  import opened Meanings
  import Strings

  // ----- entries of `config.yaml` -----

  /** The key is there and stands for `now`. */
  ghost predicate Needs<T(!new)>(f: YamlFields, k: string, stands: (Yaml, T) -> bool, now: T) {
    k in f && stands(f[k], now)
  }

  ghost predicate IsStoredTemperature(v: Yaml, t: Option<Temperature>) {
    match t
    case None => v == Null
    case Some(Finite(r)) => v.Num? && v.n.Plain? && IsFloat(v.n.n, r)
    case Some(NotFinite) => v == Num(NonFinite)
  }

  ghost predicate IsStoredMaxTokens(v: Yaml, t: Option<U64>) {
    match t case None => v == Null case Some(n) => v == Num(Plain(Int(n)))
  }

  ghost predicate IsStoredOptions(v: Yaml, options: Fields) { v.Obj? && ToJson(v) == Obj(options) }

  /** Every value is a string, and there is no other header. */
  ghost predicate IsStoredHeaders(v: Yaml, headers: map<string, string>) {
    v.Obj? && v.fields.Keys == headers.Keys && forall k | k in headers :: v.fields[k] == Str(headers[k])
  }

  ghost predicate EntryStandsFor(f: YamlFields, e: Entity) {
    match e
    case Provider(_, t, endpoint, apiKey) =>
      && Needs(f, "type", IsProviderType, t) && Needs(f, "endpoint", IsText, endpoint)
      && Decides(f, "api_key", IsOptText, None, apiKey)
    case ModelProfile(_, provider, model, temperature, maxTokens, options) =>
      && Needs(f, "provider", IsText, provider) && Needs(f, "model", IsText, model)
      && Decides(f, "temperature", IsStoredTemperature, None, temperature)
      && Decides(f, "max_tokens", IsStoredMaxTokens, None, maxTokens)
      && Decides(f, "options", IsStoredOptions, map[], options)
    case McpServer(_, t, url, headers) =>
      && Needs(f, "type", IsTransport, t) && Needs(f, "url", IsText, url)
      && Decides(f, "headers", IsStoredHeaders, map[], headers)
    case _ => false
  }

  lemma TextReads(f: YamlFields, k: string, s: string, t: Option<string>)
    ensures ReqStr(Lookup(f, k)) == Some(s) <==> Needs(f, k, IsText, s)
    ensures OptStr(Lookup(f, k)) == Some(t) <==> Decides(f, k, IsOptText, None, t)
  {
  }

  lemma NumbersRead(f: YamlFields, t: Option<Temperature>, m: Option<U64>)
    ensures ReadTemperature(Lookup(f, "temperature")) == Some(t)
       <==> Decides(f, "temperature", IsStoredTemperature, None, t)
    ensures ReadMaxTokens(Lookup(f, "max_tokens")) == Some(m)
       <==> Decides(f, "max_tokens", IsStoredMaxTokens, None, m)
  {
    if "temperature" in f && f["temperature"].Num? && f["temperature"].n.Plain? && t.Some? && t.value.Finite? {
      FloatIff(f["temperature"].n.n, t.value.r);
    }
  }

  lemma OptionsRead(f: YamlFields, options: Fields)
    ensures ReadOptions(Lookup(f, "options")) == Some(options)
       <==> Decides(f, "options", IsStoredOptions, map[], options)
  {
    if "options" in f && f["options"].Obj? {
      assert ToJson(f["options"]) == Obj(JsonFields(f["options"].fields));
    }
  }

  lemma HeadersRead(f: YamlFields, headers: map<string, string>)
    ensures ReadHeaders(Lookup(f, "headers")) == Some(headers)
       <==> Decides(f, "headers", IsStoredHeaders, map[], headers)
  {
    if "headers" in f && IsStoredHeaders(f["headers"], headers) {
      var read := ReadHeaders(Lookup(f, "headers")).value;
      assert read.Keys == headers.Keys;
      assert read == headers;
    }
  }

  /** A mapping reads as an entry exactly when it stands for it, key by key. */
  lemma EntryReadsIff(kind: Kind, name: string, y: Yaml, e: Entity)
    requires IsSection(kind)
    ensures FromEntry(kind, name, y) == Some(e)
       <==> y.Obj? && e.Kind() == kind && e.name == name && EntryStandsFor(y.fields, e)
  {
    if y.Obj? && e.Kind() == kind {
      match e
      case Provider(_, _, endpoint, apiKey) =>
        TextReads(y.fields, "endpoint", endpoint, None);
        TextReads(y.fields, "api_key", "", apiKey);
      case ModelProfile(_, provider, model, temperature, maxTokens, options) =>
        TextReads(y.fields, "provider", provider, None);
        TextReads(y.fields, "model", model, None);
        NumbersRead(y.fields, temperature, maxTokens);
        OptionsRead(y.fields, options);
      case McpServer(_, _, url, headers) =>
        TextReads(y.fields, "url", url, None);
        HeadersRead(y.fields, headers);
    }
  }

  // ----- files -----

  ghost predicate AgentStandsFor(f: YamlFields, a: Entity)
    requires a.Agent?
  {
    && Decides(f, "description", IsOptText, None, a.description)
    && Decides(f, "mode", IsMode, Primary, a.mode)
    && Needs(f, "model", IsText, a.model)
    && Decides(f, "toolsets", IsNames, [], a.toolsets)
    && Decides(f, "skills", IsSkills, Auto, a.skills)
  }

  lemma ListReads(f: YamlFields, k: string, names: seq<string>)
    ensures ReadList(Lookup(f, k)) == Some(names) <==> Decides(f, k, IsNames, [], names)
  {
    if k in f {
      NamesIff(f[k], names);
    }
  }

  lemma SkillsRead(f: YamlFields, s: SkillSelection)
    ensures ReadSkills(Lookup(f, "skills")) == Some(s) <==> Decides(f, "skills", IsSkills, Auto, s)
  {
    if "skills" in f && s.Named? {
      NamesIff(f["skills"], s.names);
    }
  }

  /**
   The frontmatter of an agent: without a mode it is a primary one, without skills it has all, and
   without toolsets none; only the model has to be there.
   */
  lemma AgentReadsIff(name: string, y: Yaml, prompt: string, a: Entity)
    ensures AgentFrom(name, y, prompt) == Some(a)
       <==> y.Obj? && a.Agent? && a.name == name && a.systemPrompt == prompt && AgentStandsFor(y.fields, a)
  {
    if y.Obj? && a.Agent? {
      TextReads(y.fields, "description", "", a.description);
      TextReads(y.fields, "model", a.model, None);
      ListReads(y.fields, "toolsets", a.toolsets);
      SkillsRead(y.fields, a.skills);
    }
  }

  /** The servers of a map with their tools, in the order of their names. */
  ghost predicate IsServerMap(v: Yaml, mcp: seq<McpSelection>) {
    && v.Obj? && StrictlySorted(mcp)
    && (forall i | 0 <= i < |mcp| :: mcp[i].server in v.fields && IsNames(v.fields[mcp[i].server], mcp[i].tools))
    && (forall k | k in v.fields :: k in Servers(mcp))
  }

  ghost predicate ToolsetStandsFor(f: YamlFields, t: Entity)
    requires t.Toolset?
  {
    && Decides(f, "description", IsOptText, None, t.description)
    && Decides(f, "prompt", IsOptText, None, t.prompt)
    && (if "tools" in f then
          && f["tools"].Obj?
          && Decides(f["tools"].fields, "local", IsNames, [], t.localTools)
          && Decides(f["tools"].fields, "mcp", IsServerMap, [], t.mcp)
        else t.localTools == [] && t.mcp == [])
  }

  lemma ServerMapReads(v: Yaml, mcp: seq<McpSelection>)
    ensures ReadMcpMap(Some(v)).Some? && McpList(ReadMcpMap(Some(v)).value) == mcp <==> IsServerMap(v, mcp)
  {
    if ReadMcpMap(Some(v)).Some? {
      var m := ReadMcpMap(Some(v)).value;
      assert m.Keys == v.fields.Keys;
      ListOfMap(m, McpList(m));
      if IsServerMap(v, mcp) {
        forall i | 0 <= i < |mcp| ensures m[mcp[i].server] == mcp[i].tools {
          NamesIff(v.fields[mcp[i].server], mcp[i].tools);
        }
        ListOfMap(m, mcp);
      }
      if McpList(m) == mcp {
        forall i | 0 <= i < |mcp| ensures IsNames(v.fields[mcp[i].server], mcp[i].tools) {
          NamesIff(v.fields[mcp[i].server], mcp[i].tools);
        }
      }
    } else if IsServerMap(v, mcp) {
      forall k | k in v.fields ensures NamesOf(v.fields[k]).Some? {
        var i :| 0 <= i < |mcp| && Servers(mcp)[i] == k;
        NamesIff(v.fields[k], mcp[i].tools);
      }
    }
  }

  /** The list of a map is the sorted one that holds its pairs. */
  lemma ListOfMap(m: map<string, seq<string>>, mcp: seq<McpSelection>)
    ensures McpList(m) == mcp
       <==> && StrictlySorted(mcp) && (forall k | k in m :: k in Servers(mcp))
            && forall i | 0 <= i < |mcp| :: mcp[i].server in m && m[mcp[i].server] == mcp[i].tools
  {
    var keys := Strings.InOrder(m.Keys);
    var list := McpList(m);
    Strings.InOrderIsSorted(m.Keys);
    assert Servers(list) == keys;
    assert forall k | k in m :: k in m.Keys && k in keys;
    if StrictlySorted(mcp) && (forall k | k in m :: k in Servers(mcp))
       && forall i | 0 <= i < |mcp| :: mcp[i].server in m && m[mcp[i].server] == mcp[i].tools {
      Strings.InOrderIsUnique(m.Keys, Servers(mcp));
      assert list == mcp;
    }
  }

  /** A toolset file: every part may be absent, and the servers come in the order of their names. */
  lemma ToolsetReadsIff(name: string, y: Yaml, t: Entity)
    ensures ToolsetFrom(name, y) == Some(t)
       <==> y.Obj? && t.Toolset? && t.name == name && ToolsetStandsFor(y.fields, t)
  {
    if y.Obj? && t.Toolset? {
      TextReads(y.fields, "description", "", t.description);
      TextReads(y.fields, "prompt", "", t.prompt);
      ListOfMap(map[], []);
      if "tools" in y.fields && y.fields["tools"].Obj? {
        var tools := y.fields["tools"].fields;
        ListReads(tools, "local", t.localTools);
        if "mcp" in tools {
          ServerMapReads(tools["mcp"], t.mcp);
        }
      }
    }
  }

  /** A skill file: the description has to be there, and the name in it does not matter. */
  lemma SkillReadsIff(name: string, y: Yaml, s: Entity)
    ensures SkillFrom(name, y) == Some(s)
       <==> y.Obj? && s.SkillMeta? && s.name == name && Needs(y.fields, "description", IsText, s.summary)
  {
    if y.Obj? && s.SkillMeta? {
      TextReads(y.fields, "description", s.summary, None);
    }
  }

  // ----- what is written, key by key -----

  /** What a written entry has under a key; a key that is not among these is not there. */
  ghost predicate EntryHolds(e: Entity, k: string, v: Json) {
    match e
    case Provider(_, t, endpoint, apiKey) =>
      || (k == "type" && IsProviderType(v, t)) || (k == "endpoint" && IsText(v, endpoint))
      || (k == "api_key" && apiKey.Some? && IsText(v, apiKey.value))
    case ModelProfile(_, provider, model, temperature, maxTokens, options) =>
      || (k == "provider" && IsText(v, provider)) || (k == "model" && IsText(v, model))
      || (k == "temperature" && temperature.Some?
          && if temperature.value.Finite? then v == Num(Float(temperature.value.r)) else v == Null)
      || (k == "max_tokens" && maxTokens.Some? && v == Num(Int(maxTokens.value)))
      || (k == "options" && options != map[] && v == Obj(options))
    case McpServer(_, t, url, headers) =>
      || (k == "type" && IsTransport(v, t)) || (k == "url" && IsText(v, url))
      || (k == "headers" && v.Obj? && v.fields.Keys == headers.Keys
          && forall h | h in headers :: v.fields[h] == Str(headers[h]))
    case _ => false
  }

  lemma HeadersPrint(v: Json, headers: map<string, string>)
    ensures v == HeadersJson(headers)
       <==> v.Obj? && v.fields.Keys == headers.Keys && forall h | h in headers :: v.fields[h] == Str(headers[h])
  {
    if v.Obj? && v.fields.Keys == headers.Keys && forall h | h in headers :: v.fields[h] == Str(headers[h]) {
      assert v.fields == HeadersJson(headers).fields;
    }
  }

  lemma ModelPrintsIff(e: Entity, k: string, v: Json)
    requires e.ModelProfile?
    ensures Lookup(ToEntry(e), k) == Some(v) <==> EntryHolds(e, k, v)
  {
  }

  lemma ServerPrintsIff(e: Entity, k: string, v: Json)
    requires e.McpServer?
    ensures Lookup(ToEntry(e), k) == Some(v) <==> EntryHolds(e, k, v)
  {
    HeadersPrint(v, e.headers);
  }

  /** A written entry holds the fields of the item under these keys, and nothing else: its name is not among them. */
  lemma EntryPrintsIff(e: Entity, k: string, v: Json)
    requires IsSection(e.Kind())
    ensures Lookup(ToEntry(e), k) == Some(v) <==> EntryHolds(e, k, v)
  {
    match e
    case Provider(_, _, _, _) =>
    case ModelProfile(_, _, _, _, _, _) => ModelPrintsIff(e, k, v);
    case McpServer(_, _, _, _) => ServerPrintsIff(e, k, v);
  }

  ghost predicate AgentHolds(a: Entity, k: string, v: Json)
    requires a.Agent?
  {
    || (k == "description" && a.description.Some? && IsText(v, a.description.value))
    || (k == "mode" && IsMode(v, a.mode)) || (k == "model" && IsText(v, a.model))
    || (k == "skills" && IsSkills(v, a.skills))
    || (k == "toolsets" && a.toolsets != [] && IsNames(v, a.toolsets))
  }

  lemma NamesPrint(v: Json, names: seq<string>)
    ensures v == StrArray(names) <==> IsNames(v, names)
  {
    if IsNames(v, names) {
      assert v.items == StrArray(names).items;
    }
  }

  /** The frontmatter of an agent always has mode, model and skills, and never an empty list of toolsets. */
  lemma AgentPrintsIff(a: Entity, k: string, v: Json)
    requires a.Agent?
    ensures Lookup(AgentFront(a), k) == Some(v) <==> AgentHolds(a, k, v)
  {
    NamesPrint(v, a.toolsets);
    if a.skills.Named? {
      NamesPrint(v, a.skills.names);
    }
  }

  ghost predicate ToolsHold(t: Entity, k: string, v: Json)
    requires t.Toolset?
  {
    || (k == "local" && t.localTools != [] && IsNames(v, t.localTools))
    || (k == "mcp" && t.mcp != [] && IsLastSelections(t.mcp, v))
  }

  /** Under each server the tools of its last selection. */
  ghost predicate IsLastSelections(mcp: seq<McpSelection>, v: Json) {
    && v.Obj?
    && (forall server | server in v.fields :: server in Servers(mcp))
    && forall sel | IsLastOf(mcp, sel) :: sel.server in v.fields && IsNames(v.fields[sel.server], sel.tools)
  }

  ghost predicate ToolsetHolds(t: Entity, k: string, v: Json)
    requires t.Toolset?
  {
    || (k == "description" && t.description.Some? && IsText(v, t.description.value))
    || (k == "prompt" && t.prompt.Some? && IsText(v, t.prompt.value))
    || (k == "tools" && v.Obj? && forall key, part :: Lookup(v.fields, key) == Some(part) <==> ToolsHold(t, key, part))
  }

  lemma {:induction false} ServersOfMap(mcp: seq<McpSelection>, server: string)
    ensures server in McpMap(mcp) <==> server in Servers(mcp)
  {
    if mcp != [] {
      var front, last := mcp[..|mcp| - 1], mcp[|mcp| - 1];
      ServersOfMap(front, server);
      assert Servers(mcp) == Servers(front) + [last.server];
    }
  }

  lemma LastSelectionsIff(mcp: seq<McpSelection>, v: Json)
    ensures v == McpJson(McpMap(mcp)) <==> IsLastSelections(mcp, v)
  {
    var m := McpMap(mcp);
    forall server ensures server in m <==> server in Servers(mcp) {
      ServersOfMap(mcp, server);
    }
    forall sel | IsLastOf(mcp, sel) ensures sel.server in m && m[sel.server] == sel.tools {
      McpMapHoldsLast(mcp, sel);
    }
    forall server | server in m ensures IsLastOf(mcp, McpSelection(server, m[server])) {
      McpMapHoldsLast(mcp, McpSelection(server, m[server]));
    }
    if v.Obj? {
      forall server | server in m && server in v.fields
        ensures v.fields[server] == StrArray(m[server]) <==> IsNames(v.fields[server], m[server])
      {
        NamesPrint(v.fields[server], m[server]);
      }
      if IsLastSelections(mcp, v) {
        SameMaps(mcp, m, v.fields);
      }
    }
  }

  lemma SameMaps(mcp: seq<McpSelection>, m: map<string, seq<string>>, f: Fields)
    requires IsLastSelections(mcp, Obj(f))
    requires forall server :: server in m <==> server in Servers(mcp)
    requires forall server | server in m :: IsLastOf(mcp, McpSelection(server, m[server]))
    ensures f == McpJson(m).fields
  {
    forall server | server in m ensures server in f && f[server] == StrArray(m[server]) {
      assert IsLastOf(mcp, McpSelection(server, m[server]));
      NamesPrint(f[server], m[server]);
    }
    assert f.Keys == m.Keys;
  }

  lemma ToolsPrint(t: Entity, key: string, part: Json)
    requires t.Toolset?
    ensures Lookup(ToolsSection(t), key) == Some(part) <==> ToolsHold(t, key, part)
  {
    NamesPrint(part, t.localTools);
    LastSelectionsIff(t.mcp, part);
  }

  /** A toolset file always has its `tools`, with `local` and `mcp` in it unless they are empty. */
  lemma ToolsetPrintsIff(t: Entity, k: string, v: Json)
    requires t.Toolset?
    ensures Lookup(ToolsetJson(t).fields, k) == Some(v) <==> ToolsetHolds(t, k, v)
  {
    forall key, part ensures Lookup(ToolsSection(t), key) == Some(part) <==> ToolsHold(t, key, part) {
      ToolsPrint(t, key, part);
    }
    if k == "tools" && ToolsetHolds(t, k, v) {
      SameParts(v.fields, ToolsSection(t));
    }
  }

  lemma SameParts(a: Fields, b: Fields)
    requires forall key, part :: Lookup(a, key) == Some(part) <==> Lookup(b, key) == Some(part)
    ensures a == b
  {
    forall key ensures Lookup(a, key) == Lookup(b, key) {
      if key in a {
        assert Lookup(a, key) == Some(a[key]);
      }
      if key in b {
        assert Lookup(b, key) == Some(b[key]);
      }
    }
    SameLookups(a, b);
  }

  /** A skill file has name and description. */
  lemma SkillPrintsIff(s: Entity, k: string, v: Json)
    requires s.SkillMeta?
    ensures Lookup(SkillFront(s), k) == Some(v)
       <==> (k == "name" && v == Str(s.name)) || (k == "description" && v == Str(s.summary))
  {
  }
}
