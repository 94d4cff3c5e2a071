/**
 The `for (k, v) in patch` loops of the update methods: both stores run the same match on the
 key, member by member, and stop at the first value they refuse.
 */
module Patches {
  import opened Bytes
  import opened Json
  import opened Domain

  /** The entity under update, and the skill body that the patch has brought so far. */
  datatype Draft = Draft(e: Entity, body: Option<string>)

  datatype Progress = Progress(draft: Draft, ok: bool)

  /** The server selections of a toolset patch. */
  function Selection(j: Json): (r: Option<McpSelection>) {
    if !j.Obj? || "server" !in j.fields || !j.fields["server"].Str? then None
    else if "tools" !in j.fields || j.fields["tools"].Null? then Some(McpSelection(j.fields["server"].s, []))
    else
      match NamesOf(j.fields["tools"])
      case None => None
      case Some(tools) => Some(McpSelection(j.fields["server"].s, tools))
  }

  function Selections(items: seq<Json>): (r: Option<seq<McpSelection>>) {
    if items == [] then Some([])
    else
      var first, rest := Selection(items[0]), Selections(items[1..]);
      if first.None? || rest.None? then None else Some([first.value] + rest.value)
  }

  // The value that a member stands for, when the match accepts it.

  function StrValue(v: Json): Option<string> {
    if v.Str? then Some(v.s) else None
  }

  function OptStrValue(v: Json): Option<Option<string>> {
    if v.Null? then Some(None) else if v.Str? then Some(Some(v.s)) else None
  }

  function ListValue(v: Json): Option<seq<string>> {
    if v.Null? then Some([]) else NamesOf(v)
  }

  function ProviderTypeValue(v: Json): Option<ProviderType> {
    if v.Str? then ParseProviderType(v.s) else None
  }

  function TransportValue(v: Json): Option<McpTransport> {
    if v.Str? then ParseTransport(v.s) else None
  }

  function ModeValue(v: Json): Option<AgentMode> {
    if v.Str? then ParseMode(v.s) else None
  }

  function TemperatureValue(v: Json): Option<Option<Temperature>> {
    if v.Null? then Some(None) else if v.Num? then Some(Some(Finite(AsFloat(v.n)))) else None
  }

  function MaxTokensValue(v: Json): Option<Option<U64>> {
    if v.Null? then Some(None)
    else if v.Num? && AsU64(v.n).Some? then Some(AsU64(v.n))
    else None
  }

  function OptionsValue(v: Json): Option<Fields> {
    if v.Null? then Some(map[]) else if v.Obj? then Some(v.fields) else None
  }

  /** Header values that are not strings are dropped without an error. */
  function HeadersValue(v: Json): Option<map<string, string>> {
    if v.Null? then Some(map[])
    else if v.Obj? then Some(map k | k in v.fields && v.fields[k].Str? :: v.fields[k].s)
    else None
  }

  function McpValue(v: Json): Option<seq<McpSelection>> {
    if v.Null? then Some([]) else if v.Arr? then Selections(v.items) else None
  }

  function SkillsValue(v: Json): Option<SkillSelection> {
    if v.Null? then Some(Auto)
    else if v.Str? then (if v.s == "auto" then Some(Auto) else if v.s == "none" then Some(NoSkills) else None)
    else
      match NamesOf(v)
      case None => None
      case Some(names) => Some(Named(names))
  }

  /** One round of the loop: unknown keys are ignored, `None` is a validation error. */
  function SetField(d: Draft, k: string, v: Json): (r: Option<Draft>)
    ensures r.Some? ==> r.value.e.name == d.e.name && r.value.e.Kind() == d.e.Kind()
  {
    match d.e
    case Provider(name, t, endpoint, apiKey) =>
      if k == "type" then
        var x := ProviderTypeValue(v);
        if x.None? then None else Some(d.(e := d.e.(providerType := x.value)))
      else if k == "endpoint" then
        var x := StrValue(v);
        if x.None? then None else Some(d.(e := d.e.(endpoint := x.value)))
      else if k == "api_key" then
        var x := OptStrValue(v);
        if x.None? then None else Some(d.(e := d.e.(apiKey := x.value)))
      else Some(d)
    case ModelProfile(name, provider, model, temperature, maxTokens, options) =>
      if k == "provider" then
        var x := StrValue(v);
        if x.None? then None else Some(d.(e := d.e.(provider := x.value)))
      else if k == "model" then
        var x := StrValue(v);
        if x.None? then None else Some(d.(e := ModelProfile(name, provider, x.value, temperature, maxTokens, options)))
      else if k == "temperature" then
        var x := TemperatureValue(v);
        if x.None? then None else Some(d.(e := d.e.(temperature := x.value)))
      else if k == "max_tokens" then
        var x := MaxTokensValue(v);
        if x.None? then None else Some(d.(e := d.e.(maxTokens := x.value)))
      else if k == "options" then
        var x := OptionsValue(v);
        if x.None? then None else Some(d.(e := d.e.(options := x.value)))
      else Some(d)
    case McpServer(name, t, url, headers) =>
      if k == "type" then
        var x := TransportValue(v);
        if x.None? then None else Some(d.(e := d.e.(transport := x.value)))
      else if k == "url" then
        var x := StrValue(v);
        if x.None? then None else Some(d.(e := d.e.(url := x.value)))
      else if k == "headers" then
        var x := HeadersValue(v);
        if x.None? then None else Some(d.(e := d.e.(headers := x.value)))
      else Some(d)
    case Toolset(name, description, prompt, localTools, mcp) =>
      if k == "description" then
        var x := OptStrValue(v);
        if x.None? then None else Some(d.(e := Toolset(name, x.value, prompt, localTools, mcp)))
      else if k == "prompt" then
        var x := OptStrValue(v);
        if x.None? then None else Some(d.(e := d.e.(prompt := x.value)))
      else if k == "local_tools" then
        var x := ListValue(v);
        if x.None? then None else Some(d.(e := d.e.(localTools := x.value)))
      else if k == "mcp" then
        var x := McpValue(v);
        if x.None? then None else Some(d.(e := d.e.(mcp := x.value)))
      else Some(d)
    case Agent(name, description, mode, model, toolsets, skills, systemPrompt) =>
      if k == "description" then
        var x := OptStrValue(v);
        if x.None? then None else Some(d.(e := Agent(name, x.value, mode, model, toolsets, skills, systemPrompt)))
      else if k == "mode" then
        var x := ModeValue(v);
        if x.None? then None else Some(d.(e := d.e.(mode := x.value)))
      else if k == "model" then
        var x := StrValue(v);
        if x.None? then None else Some(d.(e := Agent(name, description, mode, x.value, toolsets, skills, systemPrompt)))
      else if k == "toolsets" then
        var x := ListValue(v);
        if x.None? then None else Some(d.(e := d.e.(toolsets := x.value)))
      else if k == "skills" then
        var x := SkillsValue(v);
        if x.None? then None else Some(d.(e := d.e.(skills := x.value)))
      else if k == "system_prompt" then
        var x := StrValue(v);
        if x.None? then None else Some(d.(e := d.e.(systemPrompt := x.value)))
      else Some(d)
    case SkillMeta(name, summary) =>
      if k == "description" then
        var x := StrValue(v);
        if x.None? then None else Some(d.(e := d.e.(summary := x.value)))
      else if k == "body" then
        var x := StrValue(v);
        if x.None? then None else Some(d.(body := x))
      else Some(d)
  }

  /** The state of the loop behind `entries`: it stays where it first failed. */
  function PatchAll(d: Draft, entries: seq<(string, Json)>): (p: Progress)
    ensures p.draft.e.name == d.e.name && p.draft.e.Kind() == d.e.Kind()
  {
    if entries == [] then Progress(d, true)
    else
      var last := entries[|entries| - 1];
      var p := PatchAll(d, entries[..|entries| - 1]);
      if !p.ok then p
      else
        match SetField(p.draft, last.0, last.1)
        case None => Progress(p.draft, false)
        case Some(next) => Progress(next, true)
  }

  method ApplyPatch(d: Draft, entries: seq<(string, Json)>) returns (p: Progress)
    ensures p == PatchAll(d, entries)
  {
    var draft := d;
    for i := 0 to |entries|
      invariant PatchAll(d, entries[..i]) == Progress(draft, true)
    {
      assert entries[..i + 1][..i] == entries[..i];
      var next := SetField(draft, entries[i].0, entries[i].1);
      if next.None? {
        StopsAtFirstError(d, entries, i + 1);
        return Progress(draft, false);
      }
      draft := next.value;
    }
    assert entries[..|entries|] == entries;
    p := Progress(draft, true);
  }

  lemma {:induction false} StopsAtFirstError(d: Draft, entries: seq<(string, Json)>, i: nat)
    requires i <= |entries| && !PatchAll(d, entries[..i]).ok
    ensures PatchAll(d, entries) == PatchAll(d, entries[..i])
  {
    if i == |entries| {
      assert entries[..i] == entries;
    } else {
      var front := entries[..|entries| - 1];
      assert front[..i] == entries[..i];
      StopsAtFirstError(d, front, i);
    }
  }

  // ----- the same, field by field and without an order -----

  /** Whether the match of `kind` accepts the value `v` under the key `k`. */
  predicate Accepts(kind: Kind, k: string, v: Json) {
    match kind
    case ProviderKind =>
      (k == "type" ==> ProviderTypeValue(v).Some?) && (k == "endpoint" ==> v.Str?)
      && (k == "api_key" ==> OptStrValue(v).Some?)
    case ModelKind =>
      (k == "provider" ==> v.Str?) && (k == "model" ==> v.Str?)
      && (k == "temperature" ==> TemperatureValue(v).Some?) && (k == "max_tokens" ==> MaxTokensValue(v).Some?)
      && (k == "options" ==> OptionsValue(v).Some?)
    case McpKind =>
      (k == "type" ==> TransportValue(v).Some?) && (k == "url" ==> v.Str?)
      && (k == "headers" ==> HeadersValue(v).Some?)
    case ToolsetKind =>
      (k == "description" ==> OptStrValue(v).Some?) && (k == "prompt" ==> OptStrValue(v).Some?)
      && (k == "local_tools" ==> ListValue(v).Some?) && (k == "mcp" ==> McpValue(v).Some?)
    case AgentKind =>
      (k == "description" ==> OptStrValue(v).Some?) && (k == "mode" ==> ModeValue(v).Some?)
      && (k == "model" ==> v.Str?) && (k == "toolsets" ==> ListValue(v).Some?)
      && (k == "skills" ==> SkillsValue(v).Some?) && (k == "system_prompt" ==> v.Str?)
    case SkillKind =>
      (k == "description" ==> v.Str?) && (k == "body" ==> v.Str?)
  }

  ghost predicate AcceptsAll(kind: Kind, m: Fields) {
    forall k | k in m :: Accepts(kind, k, m[k])
  }

  ghost function Pick<T>(m: Fields, k: string, read: Json -> Option<T>, old_: T): T {
    if k in m && read(m[k]).Some? then read(m[k]).value else old_
  }

  /** The entity with every recognised member of `m` in place of the field it names. */
  ghost function Overwrite(d: Draft, m: Fields): Draft {
    match d.e
    case Provider(name, t, endpoint, apiKey) =>
      d.(e := Provider(name, Pick(m, "type", ProviderTypeValue, t), Pick(m, "endpoint", StrValue, endpoint),
                       Pick(m, "api_key", OptStrValue, apiKey)))
    case ModelProfile(name, provider, model, temperature, maxTokens, options) =>
      d.(e := ModelProfile(name, Pick(m, "provider", StrValue, provider), Pick(m, "model", StrValue, model),
                           Pick(m, "temperature", TemperatureValue, temperature),
                           Pick(m, "max_tokens", MaxTokensValue, maxTokens),
                           Pick(m, "options", OptionsValue, options)))
    case McpServer(name, t, url, headers) =>
      d.(e := McpServer(name, Pick(m, "type", TransportValue, t), Pick(m, "url", StrValue, url),
                        Pick(m, "headers", HeadersValue, headers)))
    case Toolset(name, description, prompt, localTools, mcp) =>
      d.(e := Toolset(name, Pick(m, "description", OptStrValue, description), Pick(m, "prompt", OptStrValue, prompt),
                      Pick(m, "local_tools", ListValue, localTools), Pick(m, "mcp", McpValue, mcp)))
    case Agent(name, description, mode, model, toolsets, skills, systemPrompt) =>
      d.(e := Agent(name, Pick(m, "description", OptStrValue, description), Pick(m, "mode", ModeValue, mode),
                    Pick(m, "model", StrValue, model), Pick(m, "toolsets", ListValue, toolsets),
                    Pick(m, "skills", SkillsValue, skills), Pick(m, "system_prompt", StrValue, systemPrompt)))
    case SkillMeta(name, summary) =>
      Draft(SkillMeta(name, Pick(m, "description", StrValue, summary)),
            if "body" in m && m["body"].Str? then Some(m["body"].s) else d.body)
  }

  lemma AcceptsIff(d: Draft, k: string, v: Json)
    ensures Accepts(d.e.Kind(), k, v) <==> SetField(d, k, v).Some?
  {
  }

  lemma ProviderStep(d: Draft, m: Fields, k: string, v: Json)
    requires d.e.Provider? && k !in m && Accepts(d.e.Kind(), k, v)
    ensures SetField(Overwrite(d, m), k, v) == Some(Overwrite(d, m[k := v]))
  {
  }

  lemma ModelProfileStep(d: Draft, m: Fields, k: string, v: Json)
    requires d.e.ModelProfile? && k !in m && Accepts(d.e.Kind(), k, v)
    ensures SetField(Overwrite(d, m), k, v) == Some(Overwrite(d, m[k := v]))
  {
  }

  lemma McpServerStep(d: Draft, m: Fields, k: string, v: Json)
    requires d.e.McpServer? && k !in m && Accepts(d.e.Kind(), k, v)
    ensures SetField(Overwrite(d, m), k, v) == Some(Overwrite(d, m[k := v]))
  {
  }

  lemma ToolsetStep(d: Draft, m: Fields, k: string, v: Json)
    requires d.e.Toolset? && k !in m && Accepts(d.e.Kind(), k, v)
    ensures SetField(Overwrite(d, m), k, v) == Some(Overwrite(d, m[k := v]))
  {
  }

  lemma AgentStep(d: Draft, m: Fields, k: string, v: Json)
    requires d.e.Agent? && k !in m && Accepts(d.e.Kind(), k, v)
    ensures SetField(Overwrite(d, m), k, v) == Some(Overwrite(d, m[k := v]))
  {
  }

  lemma SkillMetaStep(d: Draft, m: Fields, k: string, v: Json)
    requires d.e.SkillMeta? && k !in m && Accepts(d.e.Kind(), k, v)
    ensures SetField(Overwrite(d, m), k, v) == Some(Overwrite(d, m[k := v]))
  {
  }

  /** One more member, under a key that `m` has not. */
  lemma OverwriteStep(d: Draft, m: Fields, k: string, v: Json)
    requires k !in m && Accepts(d.e.Kind(), k, v)
    ensures SetField(Overwrite(d, m), k, v) == Some(Overwrite(d, m[k := v]))
  {
    match d.e
    case Provider(_, _, _, _) => ProviderStep(d, m, k, v);
    case ModelProfile(_, _, _, _, _, _) => ModelProfileStep(d, m, k, v);
    case McpServer(_, _, _, _) => McpServerStep(d, m, k, v);
    case Toolset(_, _, _, _, _) => ToolsetStep(d, m, k, v);
    case Agent(_, _, _, _, _, _, _) => AgentStep(d, m, k, v);
    case SkillMeta(_, _) => SkillMetaStep(d, m, k, v);
  }

  /**
   The loop accepts a patch exactly when the match accepts each of its members, and then it has
   overwritten each named field and nothing else.
   */
  lemma {:induction false} PatchAllIsOverwrite(d: Draft, entries: seq<(string, Json)>)
    requires DistinctKeys(entries)
    ensures PatchAll(d, entries).ok <==> AcceptsAll(d.e.Kind(), ToMap(entries))
    ensures PatchAll(d, entries).ok ==> PatchAll(d, entries).draft == Overwrite(d, ToMap(entries))
  {
    if entries != [] {
      var front, last := entries[..|entries| - 1], entries[|entries| - 1];
      var m := ToMap(front);
      PatchAllIsOverwrite(d, front);
      var p := PatchAll(d, front);
      AcceptsIff(p.draft, last.0, last.1);
      assert last.0 !in m;
      assert AcceptsAll(d.e.Kind(), ToMap(entries))
        <==> AcceptsAll(d.e.Kind(), m) && Accepts(d.e.Kind(), last.0, last.1) by {
        assert forall k | k in m :: ToMap(entries)[k] == m[k];
        assert ToMap(entries)[last.0] == last.1;
      }
      if p.ok && Accepts(d.e.Kind(), last.0, last.1) {
        OverwriteStep(d, m, last.0, last.1);
      }
    }
  }

  /** The member under `k`, taken alone, leaves the draft as it is. */
  ghost predicate Idle(d: Draft, m: Fields, k: string) {
    k in m ==> Overwrite(d, map[k := m[k]]) == d
  }

  lemma IdleByAll(d: Draft, m: Fields, k: string)
    requires Overwrite(d, m) == d
    ensures Idle(d, m, k)
  {
  }

  lemma ProviderIdle(d: Draft, m: Fields)
    requires d.e.Provider?
    requires Idle(d, m, "type") && Idle(d, m, "endpoint") && Idle(d, m, "api_key")
    ensures Overwrite(d, m) == d
  {
  }

  lemma ModelProfileIdle(d: Draft, m: Fields)
    requires d.e.ModelProfile?
    requires Idle(d, m, "provider") && Idle(d, m, "model") && Idle(d, m, "temperature")
    requires Idle(d, m, "max_tokens") && Idle(d, m, "options")
    ensures Overwrite(d, m) == d
  {
  }

  lemma McpServerIdle(d: Draft, m: Fields)
    requires d.e.McpServer?
    requires Idle(d, m, "type") && Idle(d, m, "url") && Idle(d, m, "headers")
    ensures Overwrite(d, m) == d
  {
  }

  lemma ToolsetIdle(d: Draft, m: Fields)
    requires d.e.Toolset?
    requires Idle(d, m, "description") && Idle(d, m, "prompt") && Idle(d, m, "local_tools") && Idle(d, m, "mcp")
    ensures Overwrite(d, m) == d
  {
  }

  lemma AgentIdle(d: Draft, m: Fields)
    requires d.e.Agent?
    requires Idle(d, m, "description") && Idle(d, m, "mode") && Idle(d, m, "model")
    requires Idle(d, m, "toolsets") && Idle(d, m, "skills") && Idle(d, m, "system_prompt")
    ensures Overwrite(d, m) == d
  {
  }

  lemma SkillMetaIdle(d: Draft, m: Fields)
    requires d.e.SkillMeta?
    requires Idle(d, m, "description") && Idle(d, m, "body")
    ensures Overwrite(d, m) == d
  {
  }

  /** Members together leave the draft as it is exactly when each of them does. */
  lemma OverwriteIsSameByMember(d: Draft, m: Fields)
    ensures Overwrite(d, m) == d <==> forall k :: Idle(d, m, k)
  {
    if Overwrite(d, m) == d {
      forall k ensures Idle(d, m, k) {
        IdleByAll(d, m, k);
      }
    } else if forall k :: Idle(d, m, k) {
      match d.e
      case Provider(_, _, _, _) => ProviderIdle(d, m);
      case ModelProfile(_, _, _, _, _, _) => ModelProfileIdle(d, m);
      case McpServer(_, _, _, _) => McpServerIdle(d, m);
      case Toolset(_, _, _, _, _) => ToolsetIdle(d, m);
      case Agent(_, _, _, _, _, _, _) => AgentIdle(d, m);
      case SkillMeta(_, _) => SkillMetaIdle(d, m);
    }
  }

  lemma OneMember(d: Draft, k: string, v: Json)
    requires Accepts(d.e.Kind(), k, v)
    ensures SetField(d, k, v) == Some(Overwrite(d, map[k := v]))
  {
    assert Overwrite(d, map[]) == d;
    OverwriteStep(d, map[], k, v);
  }

  /** The same, member by member of a patch that the match accepts. */
  lemma OverwriteIsSameIff(d: Draft, entries: seq<(string, Json)>)
    requires DistinctKeys(entries) && AcceptsAll(d.e.Kind(), ToMap(entries))
    ensures Overwrite(d, ToMap(entries)) == d
       <==> forall i | 0 <= i < |entries| :: SetField(d, entries[i].0, entries[i].1) == Some(d)
  {
    var m := ToMap(entries);
    OverwriteIsSameByMember(d, m);
    forall i | 0 <= i < |entries|
      ensures entries[i].0 in m && m[entries[i].0] == entries[i].1
      ensures SetField(d, entries[i].0, entries[i].1) == Some(Overwrite(d, map[entries[i].0 := entries[i].1]))
    {
      ToMapAt(entries, i);
      OneMember(d, entries[i].0, entries[i].1);
    }
    if forall i | 0 <= i < |entries| :: SetField(d, entries[i].0, entries[i].1) == Some(d) {
      forall k ensures Idle(d, m, k) {
        if k in m {
          var i :| 0 <= i < |entries| && entries[i].0 == k;
        }
      }
    } else {
      var i :| 0 <= i < |entries| && SetField(d, entries[i].0, entries[i].1) != Some(d);
      assert !Idle(d, m, entries[i].0);
    }
  }

  /** Neither the verdict nor the result depends on the order of the members. */
  lemma PatchIgnoresOrder(d: Draft, p: seq<(string, Json)>, q: seq<(string, Json)>)
    requires DistinctKeys(p) && DistinctKeys(q) && forall x :: x in p <==> x in q
    ensures PatchAll(d, p).ok <==> PatchAll(d, q).ok
    ensures PatchAll(d, p).ok ==> PatchAll(d, p) == PatchAll(d, q)
  {
    ToMapIgnoresOrder(p, q);
    PatchAllIsOverwrite(d, p);
    PatchAllIsOverwrite(d, q);
  }
}
