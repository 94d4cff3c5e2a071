/** The entities that are one file each: toolsets, agents and skills, printed and parsed. */
module Files {
  import opened Bytes
  import opened Json
  import opened Domain
  import opened Entries
  import Frontmatter
  import Strings

  // ----- the server selections of a toolset -----

  /** The map that the printer fills: a later selection of a server replaces an earlier one. */
  function McpMap(mcp: seq<McpSelection>): map<string, seq<string>> {
    if mcp == [] then map[]
    else
      var last := mcp[|mcp| - 1];
      McpMap(mcp[..|mcp| - 1])[last.server := last.tools]
  }

  /** The selections that the parser takes out of a map, in its order. */
  function McpList(m: map<string, seq<string>>): (r: seq<McpSelection>)
    ensures |r| == |Strings.InOrder(m.Keys)|
  {
    var keys := Strings.InOrder(m.Keys);
    seq(|keys|, i requires 0 <= i < |keys| =>
      assert keys[i] in keys;
      McpSelection(keys[i], m[keys[i]]))
  }

  function NormalMcp(mcp: seq<McpSelection>): seq<McpSelection> {
    McpList(McpMap(mcp))
  }

  function Servers(mcp: seq<McpSelection>): (r: seq<string>)
    ensures |r| == |mcp| && forall i | 0 <= i < |mcp| :: r[i] == mcp[i].server
  {
    seq(|mcp|, i requires 0 <= i < |mcp| => mcp[i].server)
  }

  ghost predicate StrictlySorted(mcp: seq<McpSelection>) {
    Strings.StrictlySorted(Servers(mcp))
  }

  /** `sel` is in the list and no later selection is of its server. */
  ghost predicate IsLastOf(mcp: seq<McpSelection>, sel: McpSelection) {
    exists i | 0 <= i < |mcp| :: mcp[i] == sel && forall j | i < j < |mcp| :: mcp[j].server != sel.server
  }

  lemma LastOfByLast(mcp: seq<McpSelection>, sel: McpSelection)
    requires mcp != []
    ensures var front, last := mcp[..|mcp| - 1], mcp[|mcp| - 1];
            IsLastOf(mcp, sel) <==> last == sel || (last.server != sel.server && IsLastOf(front, sel))
  {
    var front, last := mcp[..|mcp| - 1], mcp[|mcp| - 1];
    if last.server != sel.server {
      if IsLastOf(front, sel) {
        var i :| 0 <= i < |front| && front[i] == sel && forall j | i < j < |front| :: front[j].server != sel.server;
        assert mcp[i] == sel;
      }
      if IsLastOf(mcp, sel) {
        var i :| 0 <= i < |mcp| && mcp[i] == sel && forall j | i < j < |mcp| :: mcp[j].server != sel.server;
        assert front[i] == sel;
      }
    } else if last == sel {
      assert mcp[|mcp| - 1] == sel;
    }
  }

  lemma {:induction false} McpMapHoldsLast(mcp: seq<McpSelection>, sel: McpSelection)
    ensures sel.server in McpMap(mcp) && McpMap(mcp)[sel.server] == sel.tools <==> IsLastOf(mcp, sel)
  {
    if mcp != [] {
      McpMapHoldsLast(mcp[..|mcp| - 1], sel);
      LastOfByLast(mcp, sel);
    }
  }

  lemma McpListHolds(m: map<string, seq<string>>, sel: McpSelection)
    ensures sel in McpList(m) <==> sel.server in m && m[sel.server] == sel.tools
  {
    var keys := Strings.InOrder(m.Keys);
    if sel.server in m {
      assert sel.server in keys;
      var i :| 0 <= i < |keys| && keys[i] == sel.server;
      assert McpList(m)[i] == McpSelection(sel.server, m[sel.server]);
    }
  }

  /** The normal form: strictly sorted by server, holding exactly the last selection of each. */
  lemma NormalMcpMeaning(mcp: seq<McpSelection>)
    ensures StrictlySorted(NormalMcp(mcp))
    ensures forall sel :: sel in NormalMcp(mcp) <==> IsLastOf(mcp, sel)
  {
    var keys := Strings.InOrder(McpMap(mcp).Keys);
    Strings.InOrderIsSorted(McpMap(mcp).Keys);
    assert Servers(NormalMcp(mcp)) == keys;
    forall sel ensures sel in NormalMcp(mcp) <==> IsLastOf(mcp, sel) {
      McpListHolds(McpMap(mcp), sel);
      McpMapHoldsLast(mcp, sel);
    }
  }

  lemma McpMapOfSorted(mcp: seq<McpSelection>)
    requires StrictlySorted(mcp)
    ensures forall x :: x in Servers(mcp) <==> x in McpMap(mcp)
    ensures forall i | 0 <= i < |mcp| :: mcp[i].server in McpMap(mcp) && McpMap(mcp)[mcp[i].server] == mcp[i].tools
  {
    forall i | 0 <= i < |mcp|
      ensures mcp[i].server in McpMap(mcp) && McpMap(mcp)[mcp[i].server] == mcp[i].tools
    {
      assert forall j | i < j < |mcp| :: Strings.Less(Servers(mcp)[i], Servers(mcp)[j]);
      assert IsLastOf(mcp, mcp[i]);
      McpMapHoldsLast(mcp, mcp[i]);
    }
    forall x ensures x in Servers(mcp) <==> x in McpMap(mcp) {
      if x in McpMap(mcp) {
        McpMapHoldsLast(mcp, McpSelection(x, McpMap(mcp)[x]));
        var i :| 0 <= i < |mcp| && mcp[i] == McpSelection(x, McpMap(mcp)[x]);
        assert Servers(mcp)[i] == x;
      }
    }
  }

  /** Exactly the strictly sorted lists are left as they are. */
  lemma NormalMcpIdentity(mcp: seq<McpSelection>)
    ensures NormalMcp(mcp) == mcp <==> StrictlySorted(mcp)
  {
    NormalMcpMeaning(mcp);
    if StrictlySorted(mcp) {
      McpMapOfSorted(mcp);
      Strings.InOrderIsUnique(McpMap(mcp).Keys, Servers(mcp));
      assert NormalMcp(mcp) == mcp;
    }
  }

  /** Normalising changes neither the map nor, the second time, the list. */
  lemma NormalMcpIsStable(mcp: seq<McpSelection>)
    ensures McpMap(NormalMcp(mcp)) == McpMap(mcp)
    ensures NormalMcp(NormalMcp(mcp)) == NormalMcp(mcp)
    ensures NormalMcp(mcp) == [] <==> mcp == []
  {
    var m, n := McpMap(mcp), NormalMcp(mcp);
    NormalMcpMeaning(mcp);
    McpMapOfSorted(n);
    assert Servers(n) == Strings.InOrder(m.Keys);
    assert McpMap(n).Keys == m.Keys;
    forall x | x in m ensures McpMap(n)[x] == m[x] {
      var i :| 0 <= i < |n| && Servers(n)[i] == x;
      assert n[i].tools == m[x];
    }
    assert McpMap(n) == m;
    if mcp != [] {
      assert mcp[|mcp| - 1].server in m;
      assert mcp[|mcp| - 1].server in Strings.InOrder(m.Keys);
    }
  }

  // ----- toolset files -----

  function McpJson(m: map<string, seq<string>>): Json {
    Obj(map k | k in m :: StrArray(m[k]))
  }

  function ToolsSection(t: Entity): Fields
    requires t.Toolset?
  {
    OptField("local", if t.localTools == [] then None else Some(StrArray(t.localTools)))
    + OptField("mcp", if t.mcp == [] then None else Some(McpJson(McpMap(t.mcp))))
  }

  function StrField(key: string, v: Option<string>): Fields {
    OptField(key, if v.Some? then Some(Str(v.value)) else None)
  }

  /** `toolset_to_yaml_json`. */
  function ToolsetJson(t: Entity): (j: Json)
    requires t.Toolset?
    ensures j.Obj?
  {
    Obj(StrField("description", t.description) + StrField("prompt", t.prompt)
        + map["tools" := Obj(ToolsSection(t))])
  }

  lemma OneServerMore(m: map<string, seq<string>>, server: string, tools: seq<string>)
    ensures McpJson(m[server := tools]) == Obj(McpJson(m).fields[server := StrArray(tools)])
  {
  }

  /** The loop that fills the map of servers. */
  method McpToJson(mcp: seq<McpSelection>) returns (j: Json)
    ensures j == McpJson(McpMap(mcp))
  {
    var m: Fields := map[];
    for i := 0 to |mcp|
      invariant Obj(m) == McpJson(McpMap(mcp[..i]))
    {
      assert mcp[..i + 1][..i] == mcp[..i];
      OneServerMore(McpMap(mcp[..i]), mcp[i].server, mcp[i].tools);
      m := m[mcp[i].server := StrArray(mcp[i].tools)];
    }
    assert mcp[..|mcp|] == mcp;
    j := Obj(m);
  }

  /** The printer, field after field. */
  method ToolsetToJson(t: Entity) returns (j: Json)
    requires t.Toolset?
    ensures j == ToolsetJson(t)
  {
    var tools: Fields := map[];
    if t.localTools != [] {
      tools := tools["local" := StrArray(t.localTools)];
    }
    if t.mcp != [] {
      var mcp := McpToJson(t.mcp);
      tools := tools["mcp" := mcp];
    }
    assert tools == ToolsSection(t);
    var obj: Fields := map[];
    PutField(obj, "description", t.description);
    if t.description.Some? {
      obj := obj["description" := Str(t.description.value)];
    }
    PutField(obj, "prompt", t.prompt);
    if t.prompt.Some? {
      obj := obj["prompt" := Str(t.prompt.value)];
    }
    PutSection(obj, "tools", Obj(tools));
    j := Obj(obj["tools" := Obj(tools)]);
  }

  lemma PutField(f: Fields, key: string, v: Option<string>)
    ensures f + StrField(key, v) == if v.Some? then f[key := Str(v.value)] else f
    ensures map[] + StrField(key, v) == StrField(key, v)
  {
  }

  lemma PutSection(f: Fields, key: string, v: Json)
    ensures f + map[key := v] == f[key := v]
  {
  }

  function ReadList(v: Option<Yaml>): Option<seq<string>> {
    if v.None? then Some([]) else NamesOf(v.value)
  }

  predicate AllLists(f: YamlFields) { forall k | k in f :: NamesOf(f[k]).Some? }

  function ReadMcpMap(v: Option<Yaml>): Option<map<string, seq<string>>> {
    if v.None? then Some(map[])
    else if v.value.Obj? && AllLists(v.value.fields) then
      Some(map k | k in v.value.fields :: NamesOf(v.value.fields[k]).value)
    else None
  }

  function ToolsOf(v: Option<Yaml>): Option<YamlFields> {
    if v.None? then Some(map[]) else if v.value.Obj? then Some(v.value.fields) else None
  }

  /** The reading half of `parse_toolset_file`. */
  function ToolsetFrom(name: string, y: Yaml): (r: Option<Entity>)
    ensures r.Some? ==> r.value.Toolset? && r.value.name == name
  {
    if !y.Obj? then None
    else
      var description, prompt := OptStr(Lookup(y.fields, "description")), OptStr(Lookup(y.fields, "prompt"));
      var tools := ToolsOf(Lookup(y.fields, "tools"));
      if description.None? || prompt.None? || tools.None? then None
      else
        var local, mcp := ReadList(Lookup(tools.value, "local")), ReadMcpMap(Lookup(tools.value, "mcp"));
        if local.None? || mcp.None? then None
        else Some(Toolset(name, description.value, prompt.value, local.value, McpList(mcp.value)))
  }

  lemma McpJsonRoundTrip(m: map<string, seq<string>>)
    ensures ReadMcpMap(Some(ToYaml(McpJson(m)))) == Some(m)
  {
    var f := ToYaml(McpJson(m)).fields;
    forall k | k in f ensures NamesOf(f[k]) == Some(m[k]) {
      assert f[k] == ToYaml(McpJson(m).fields[k]);
      NamesOfStrArray(m[k]);
    }
    var back := ReadMcpMap(Some(ToYaml(McpJson(m)))).value;
    assert back.Keys == m.Keys;
    assert back == m;
  }

  lemma ToolsetFields(t: Entity)
    requires t.Toolset?
    ensures var f := YamlOf(ToolsetJson(t).fields);
            && OptStr(Lookup(f, "description")) == Some(t.description)
            && OptStr(Lookup(f, "prompt")) == Some(t.prompt)
            && Lookup(f, "tools") == Some(ToYaml(Obj(ToolsSection(t))))
  {
    var f := ToolsetJson(t).fields;
    ReadsStringsAlike(f, "description");
    ReadsStringsAlike(f, "prompt");
    LookupYaml(f, "tools");
    assert Lookup(f, "description") == if t.description.Some? then Some(Str(t.description.value)) else None;
    assert Lookup(f, "prompt") == if t.prompt.Some? then Some(Str(t.prompt.value)) else None;
  }

  lemma ToolsSectionFields(t: Entity)
    requires t.Toolset?
    ensures ReadList(Lookup(YamlOf(ToolsSection(t)), "local")) == Some(t.localTools)
    ensures ReadMcpMap(Lookup(YamlOf(ToolsSection(t)), "mcp")) == Some(McpMap(t.mcp))
  {
    var tools := ToolsSection(t);
    LookupYaml(tools, "local");
    LookupYaml(tools, "mcp");
    assert Lookup(tools, "local") == if t.localTools == [] then None else Some(StrArray(t.localTools));
    assert Lookup(tools, "mcp") == if t.mcp == [] then None else Some(McpJson(McpMap(t.mcp)));
    NamesOfStrArray(t.localTools);
    McpJsonRoundTrip(McpMap(t.mcp));
  }

  /** Parsing a printed toolset gives it back with its selections in normal form. */
  lemma ToolsetRoundTrip(t: Entity)
    requires t.Toolset?
    ensures ToolsetFrom(t.name, ToYaml(ToolsetJson(t))) == Some(t.(mcp := NormalMcp(t.mcp)))
  {
    ToolsetFields(t);
    ToolsSectionFields(t);
  }

  /** Printing what was parsed gives the same document again. */
  lemma ToolsetPrintIsStable(t: Entity)
    requires t.Toolset?
    ensures ToolsetJson(t.(mcp := NormalMcp(t.mcp))) == ToolsetJson(t)
  {
    NormalMcpIsStable(t.mcp);
  }

  function ToolsetText(yaml: YamlCodec, t: Entity): string
    requires t.Toolset?
  {
    yaml.print_(ToolsetJson(t))
  }

  function ParseToolset(yaml: YamlCodec, name: string, text: string): (r: Option<Entity>)
    ensures r.Some? ==> r.value.Toolset? && r.value.name == name
  {
    match yaml.parse(text)
    case None => None
    case Some(y) => ToolsetFrom(name, y)
  }

  // ----- agent files -----

  function SkillsJson(s: SkillSelection): Json {
    match s
    case Auto => Str("auto")
    case NoSkills => Str("none")
    case Named(names) => StrArray(names)
  }

  function AgentFront(a: Entity): Fields
    requires a.Agent?
  {
    StrField("description", a.description)
    + map["mode" := Str(ModeName(a.mode)), "model" := Str(a.model), "skills" := SkillsJson(a.skills)]
    + OptField("toolsets", if a.toolsets == [] then None else Some(StrArray(a.toolsets)))
  }

  /** `agent_to_md`. */
  function AgentText(yaml: YamlCodec, a: Entity): string
    requires a.Agent?
  {
    Frontmatter.Print(yaml.print_(Obj(AgentFront(a))), a.systemPrompt)
  }

  function ReadMode(v: Option<Yaml>): Option<AgentMode> {
    if v.None? then Some(Primary) else if v.value.Str? then ParseMode(v.value.s) else None
  }

  function ReadSkills(v: Option<Yaml>): Option<SkillSelection> {
    if v.None? then Some(Auto)
    else if v.value == Str("auto") then Some(Auto)
    else if v.value == Str("none") then Some(NoSkills)
    else
      match NamesOf(v.value)
      case None => None
      case Some(names) => Some(Named(names))
  }

  function AgentFrom(name: string, y: Yaml, prompt: string): (r: Option<Entity>)
    ensures r.Some? ==> r.value.Agent? && r.value.name == name
  {
    if !y.Obj? then None
    else
      var description, model := OptStr(Lookup(y.fields, "description")), ReqStr(Lookup(y.fields, "model"));
      var mode, skills := ReadMode(Lookup(y.fields, "mode")), ReadSkills(Lookup(y.fields, "skills"));
      var toolsets := ReadList(Lookup(y.fields, "toolsets"));
      if description.None? || model.None? || mode.None? || skills.None? || toolsets.None? then None
      else Some(Agent(name, description.value, mode.value, model.value, toolsets.value, skills.value, prompt))
  }

  /** `parse_agent_file` on the text of the file. */
  function ParseAgent(yaml: YamlCodec, name: string, text: string): (r: Option<Entity>)
    ensures r.Some? ==> r.value.Agent? && r.value.name == name
  {
    var split := Frontmatter.SplitOf(text);
    if !split.Parts? then None
    else
      match yaml.parse(split.front)
      case None => None
      case Some(y) => AgentFrom(name, y, Frontmatter.Trim(split.body))
  }

  lemma AgentStrings(a: Entity)
    requires a.Agent?
    ensures var f := YamlOf(AgentFront(a));
            && OptStr(Lookup(f, "description")) == Some(a.description) && ReqStr(Lookup(f, "model")) == Some(a.model)
            && ReadMode(Lookup(f, "mode")) == Some(a.mode)
  {
    var f := AgentFront(a);
    ReadsStringsAlike(f, "description");
    ReadsStringsAlike(f, "model");
    LookupYaml(f, "mode");
    assert Lookup(f, "description") == if a.description.Some? then Some(Str(a.description.value)) else None;
    assert Lookup(f, "mode") == Some(Str(ModeName(a.mode))) && Lookup(f, "model") == Some(Str(a.model));
  }

  lemma AgentToolsets(a: Entity)
    requires a.Agent?
    ensures ReadList(Lookup(YamlOf(AgentFront(a)), "toolsets")) == Some(a.toolsets)
  {
    LookupYaml(AgentFront(a), "toolsets");
    assert Lookup(AgentFront(a), "toolsets") == if a.toolsets == [] then None else Some(StrArray(a.toolsets));
    NamesOfStrArray(a.toolsets);
  }

  lemma AgentSkills(a: Entity)
    requires a.Agent?
    ensures ReadSkills(Lookup(YamlOf(AgentFront(a)), "skills")) == Some(a.skills)
  {
    LookupYaml(AgentFront(a), "skills");
    assert Lookup(AgentFront(a), "skills") == Some(SkillsJson(a.skills));
    if a.skills.Named? {
      NamesOfStrArray(a.skills.names);
    }
  }

  lemma AgentFrontRoundTrip(a: Entity, prompt: string)
    requires a.Agent?
    ensures AgentFrom(a.name, ToYaml(Obj(AgentFront(a))), prompt) == Some(a.(systemPrompt := prompt))
  {
    AgentStrings(a);
    AgentToolsets(a);
    AgentSkills(a);
  }

  // ----- the last string of an agent's frontmatter -----

  /** The list with one line feed off its last name. */
  function ChompLast(names: seq<string>): seq<string> {
    if names == [] then [] else names[..|names| - 1] + [Chomp(names[|names| - 1])]
  }

  predicate LastEndsInLineFeed(names: seq<string>) {
    names != [] && EndsInLineFeed(names[|names| - 1])
  }

  /** The name that an agent's frontmatter prints last ends in a line feed. */
  predicate TailEndsInLineFeed(a: Entity)
    requires a.Agent?
  {
    if a.toolsets != [] then LastEndsInLineFeed(a.toolsets)
    else a.skills.Named? && LastEndsInLineFeed(a.skills.names)
  }

  /** The agent without that line feed. */
  function ChompedAgent(a: Entity): (r: Entity)
    requires a.Agent?
    ensures r.Agent? && r.name == a.name && r.systemPrompt == a.systemPrompt
  {
    if a.toolsets != [] then a.(toolsets := ChompLast(a.toolsets))
    else if a.skills.Named? then a.(skills := Named(ChompLast(a.skills.names)))
    else a
  }

  lemma ChompedAgentIsSame(a: Entity)
    requires a.Agent?
    ensures ChompedAgent(a) == a <==> !TailEndsInLineFeed(a)
  {
    if a.toolsets != [] {
      ChompLastIsSame(a.toolsets);
    } else if a.skills.Named? {
      ChompLastIsSame(a.skills.names);
    }
  }

  lemma ChompLastIsSame(names: seq<string>)
    ensures ChompLast(names) == names <==> !LastEndsInLineFeed(names)
  {
    if names != [] {
      var last := names[|names| - 1];
      assert ChompLast(names)[|names| - 1] == Chomp(last);
      assert EndsInLineFeed(last) ==> |Chomp(last)| < |last|;
    }
  }

  lemma ChompedArray(names: seq<string>)
    ensures Chomped(StrArray(names)) == StrArray(ChompLast(names))
  {
    if names != [] {
      var items, last := StrArray(names).items, |names| - 1;
      assert items[last] == Str(names[last]);
      assert Chomped(StrArray(names)) == Arr(items[..last] + [Str(Chomp(names[last]))]);
      var a, b := items[..last] + [Str(Chomp(names[last]))], StrArray(ChompLast(names)).items;
      assert |a| == |b| == |names|;
      forall i | 0 <= i < |names| ensures a[i] == b[i] {
        assert b[i] == Str(ChompLast(names)[i]);
      }
      assert a == b;
    }
  }

  /** The greatest key is the last. */
  lemma ChompedAt(f: Fields, k: string)
    requires k in f && forall x | x in f :: Strings.Leq(x, k)
    ensures Chomped(Obj(f)) == Obj(f[k := Chomped(f[k])])
  {
    assert k in f.Keys;
    LastKeyIs(f, k);
  }

  lemma LastKeyIs(f: Fields, k: string)
    requires f.Keys != {} && k in f && forall x | x in f :: Strings.Leq(x, k)
    ensures LastKey(f) == k
  {
    var keys := Strings.InOrder(f.Keys);
    Strings.InOrderIsSorted(f.Keys);
    assert k in keys;
    var i :| 0 <= i < |keys| && keys[i] == k;
    if i < |keys| - 1 {
      var last := keys[|keys| - 1];
      assert Strings.Less(k, last) && last in f && Strings.Leq(last, k);
      Strings.LeqAntisymmetric(k, last);
    }
  }

  lemma LastOfAgent(a: Entity, last: string)
    requires a.Agent? && last == if a.toolsets != [] then "toolsets" else "skills"
    ensures last in AgentFront(a)
    ensures Chomped(Obj(AgentFront(a))) == Obj(AgentFront(a)[last := Chomped(AgentFront(a)[last])])
  {
    var f := AgentFront(a);
    forall x | x in f ensures Strings.Leq(x, last) {
      Strings.LeqTotal(x, x);
      assert x == "toolsets" || x == "skills" || x == "model" || x == "mode" || x == "description";
    }
    ChompedAt(f, last);
  }

  /** A document that has lost the line feed reads as the agent without it. */
  lemma ChompedFront(a: Entity)
    requires a.Agent?
    ensures Chomped(Obj(AgentFront(a))) == Obj(AgentFront(ChompedAgent(a)))
  {
    if a.toolsets != [] {
      LastOfAgent(a, "toolsets");
      ChompedArray(a.toolsets);
      OtherToolsets(a, ChompLast(a.toolsets));
    } else {
      LastOfAgent(a, "skills");
      if a.skills.Named? {
        ChompedArray(a.skills.names);
        OtherSkills(a, Named(ChompLast(a.skills.names)));
      } else {
        OtherSkills(a, a.skills);
      }
    }
  }

  lemma OtherToolsets(a: Entity, toolsets: seq<string>)
    requires a.Agent? && a.toolsets != [] && toolsets != []
    ensures "toolsets" in AgentFront(a) && AgentFront(a)["toolsets"] == StrArray(a.toolsets)
    ensures AgentFront(a)["toolsets" := StrArray(toolsets)] == AgentFront(a.(toolsets := toolsets))
  {
  }

  lemma OtherSkills(a: Entity, skills: SkillSelection)
    requires a.Agent?
    ensures "skills" in AgentFront(a) && AgentFront(a)["skills"] == SkillsJson(a.skills)
    ensures AgentFront(a)["skills" := SkillsJson(skills)] == AgentFront(a.(skills := skills))
  {
  }

  /** The splitter takes a printed file apart into the document and the lines of the body. */
  lemma PrintedSplit(yaml: YamlCodec, j: Json, body: string)
    requires yaml.Lawful() && j.Obj?
    ensures var split := Frontmatter.SplitOf(Frontmatter.Print(yaml.print_(j), body));
            && split.Parts?
            && (yaml.parse(split.front) == Some(ToYaml(j)) || yaml.parse(split.front) == Some(ToYaml(Chomped(j))))
            && Frontmatter.Trim(split.body) == Frontmatter.ReadBack(body)
  {
    var front := yaml.print_(j);
    assert yaml.LawfulAt(j);
    Frontmatter.SplitOfPrinted(front, body);
  }

  /** What a printed agent can parse to: itself or, if the codec drops it, without the last line feed. */
  ghost predicate ReadsAsAgent(r: Option<Entity>, a: Entity) {
    a.Agent? && (r == Some(a) || r == Some(ChompedAgent(a)))
  }

  /** A printed agent parses, with the prompt that its lines give back. */
  lemma AgentReadsBack(yaml: YamlCodec, a: Entity)
    requires yaml.Lawful() && a.Agent?
    ensures ReadsAsAgent(ParseAgent(yaml, a.name, AgentText(yaml, a)),
                         a.(systemPrompt := Frontmatter.ReadBack(a.systemPrompt)))
  {
    var prompt := Frontmatter.ReadBack(a.systemPrompt);
    PrintedSplit(yaml, Obj(AgentFront(a)), a.systemPrompt);
    AgentFrontRoundTrip(a, prompt);
    ChompedFront(a);
    AgentFrontRoundTrip(ChompedAgent(a), prompt);
  }

  /**
   When its last name ends in no line feed, printing then parsing an agent gives every field back
   with the prompt trimmed, and printing the result gives the same file, exactly when the trimmed
   prompt holds no CR LF.
   */
  lemma AgentRoundTrip(yaml: YamlCodec, a: Entity)
    requires yaml.Lawful() && a.Agent?
    ensures ParseAgent(yaml, a.name, AgentText(yaml, a)).Some?
    ensures var back := ParseAgent(yaml, a.name, AgentText(yaml, a)).value;
            var clean := !Frontmatter.HasCrLf(Frontmatter.Trim(a.systemPrompt));
            && (back == a.(systemPrompt := Frontmatter.Trim(a.systemPrompt)) ==> clean)
            && (!TailEndsInLineFeed(a) ==>
                  && (back == a.(systemPrompt := Frontmatter.Trim(a.systemPrompt)) <==> clean)
                  && (AgentText(yaml, back) == AgentText(yaml, a) <==> clean))
  {
    AgentReadsBack(yaml, a);
    ChompedAgentIsSame(a);
    Frontmatter.BodyRoundTrip(a.systemPrompt);
    var back := a.(systemPrompt := Frontmatter.ReadBack(a.systemPrompt));
    ChompedAgentIsSame(back);
    SameAgentTexts(yaml, a, back.systemPrompt);
  }

  lemma SameAgentTexts(yaml: YamlCodec, a: Entity, prompt: string)
    requires a.Agent?
    ensures AgentText(yaml, a.(systemPrompt := prompt)) == AgentText(yaml, a)
       <==> Frontmatter.Trim(prompt) == Frontmatter.Trim(a.systemPrompt)
  {
    assert AgentFront(a.(systemPrompt := prompt)) == AgentFront(a);
    SamePrints(yaml.print_(Obj(AgentFront(a))), prompt, a.systemPrompt);
  }

  lemma SamePrints(front: string, b: string, c: string)
    ensures Frontmatter.Print(front, b) == Frontmatter.Print(front, c) <==> Frontmatter.Trim(b) == Frontmatter.Trim(c)
  {
    var head := "---\n" + front + "---\n";
    var x, y := Frontmatter.Trim(b), Frontmatter.Trim(c);
    assert (head + x)[|head|..] == x && (head + y)[|head|..] == y;
  }

  // ----- skill files -----

  function SkillFront(meta: Entity): Fields
    requires meta.SkillMeta?
  {
    map["name" := Str(meta.name), "description" := Str(meta.summary)]
  }

  /** `skill_to_md`. */
  function SkillText(yaml: YamlCodec, meta: Entity, body: string): string
    requires meta.SkillMeta?
  {
    Frontmatter.Print(yaml.print_(Obj(SkillFront(meta))), body)
  }

  /** The `name` of the frontmatter is not read: the directory names the skill. */
  function SkillFrom(name: string, y: Yaml): (r: Option<Entity>)
    ensures r.Some? ==> r.value.SkillMeta? && r.value.name == name
  {
    if !y.Obj? then None
    else
      match ReqStr(Lookup(y.fields, "description"))
      case None => None
      case Some(d) => Some(SkillMeta(name, d))
  }

  function ParseSkill(yaml: YamlCodec, name: string, text: string): (r: Option<Entity>)
    ensures r.Some? ==> r.value.SkillMeta? && r.value.name == name
  {
    var split := Frontmatter.SplitOf(text);
    if !split.Parts? then None
    else
      match yaml.parse(split.front)
      case None => None
      case Some(y) => SkillFrom(name, y)
  }

  /** The body that `load_skill` returns; the frontmatter is split off and not parsed. */
  function SkillBody(text: string): Option<string> {
    var split := Frontmatter.SplitOf(text);
    if split.Parts? then Some(Frontmatter.Trim(split.body)) else None
  }

  lemma SkillReadsBack(yaml: YamlCodec, meta: Entity, body: string)
    requires yaml.Lawful() && meta.SkillMeta?
    ensures ParseSkill(yaml, meta.name, SkillText(yaml, meta, body)) == Some(meta)
    ensures SkillBody(SkillText(yaml, meta, body)) == Some(Frontmatter.ReadBack(body))
  {
    PrintedSplit(yaml, Obj(SkillFront(meta)), body);
    SkillFrontRoundTrip(meta);
    ChompedSkillFront(meta);
  }

  lemma SkillFrontRoundTrip(meta: Entity)
    requires meta.SkillMeta?
    ensures SkillFrom(meta.name, ToYaml(Obj(SkillFront(meta)))) == Some(meta)
  {
    ReadsStringsAlike(SkillFront(meta), "description");
    assert Lookup(SkillFront(meta), "description") == Some(Str(meta.summary));
  }

  /** The last string of a skill's frontmatter is its name, which is not read. */
  lemma ChompedSkillFront(meta: Entity)
    requires meta.SkillMeta?
    ensures SkillFrom(meta.name, ToYaml(Chomped(Obj(SkillFront(meta))))) == Some(meta)
  {
    var f := SkillFront(meta);
    Strings.LeqTotal("name", "name");
    assert "name"[0] == 'n' && "description"[0] == 'd';
    ChompedAt(f, "name");
    var g := f["name" := Chomped(f["name"])];
    ReadsStringsAlike(g, "description");
    assert Lookup(g, "description") == Some(Str(meta.summary));
  }

  /** The description always comes back; the body comes back trimmed exactly without CR LF. */
  lemma SkillRoundTrip(yaml: YamlCodec, meta: Entity, body: string)
    requires yaml.Lawful() && meta.SkillMeta?
    ensures ParseSkill(yaml, meta.name, SkillText(yaml, meta, body)) == Some(meta)
    ensures SkillBody(SkillText(yaml, meta, body)).Some?
    ensures var back := SkillBody(SkillText(yaml, meta, body)).value;
            var clean := !Frontmatter.HasCrLf(Frontmatter.Trim(body));
            && (back == Frontmatter.Trim(body) <==> clean)
            && (SkillText(yaml, meta, back) == SkillText(yaml, meta, body) <==> clean)
  {
    SkillReadsBack(yaml, meta, body);
    Frontmatter.BodyRoundTrip(body);
    SamePrints(yaml.print_(Obj(SkillFront(meta))), Frontmatter.ReadBack(body), body);
  }
}
