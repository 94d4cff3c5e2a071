/**
 What the members of a patch or of a stored document stand for, said on the values themselves: in
 both directions for every single field, and then for whole items.
 */
module Meanings {
  import opened Bytes
  import opened Json
  import opened Domain
  import opened Patches

  // ----- what one value stands for -----

  ghost predicate IsText<N>(v: Value<N>, s: string) { v == Str(s) }

  ghost predicate IsOptText<N>(v: Value<N>, t: Option<string>) {
    match t case None => v == Null case Some(s) => v == Str(s)
  }

  /** An array of exactly these strings, in this order. */
  ghost predicate IsNames<N>(v: Value<N>, names: seq<string>) {
    v.Arr? && |v.items| == |names| && forall i | 0 <= i < |names| :: v.items[i] == Str(names[i])
  }

  /** The same, with null for the empty list. */
  ghost predicate IsList(v: Json, names: seq<string>) {
    (v == Null && names == []) || IsNames(v, names)
  }

  ghost predicate IsProviderType<N>(v: Value<N>, t: ProviderType) {
    match t case Ollama => v == Str("ollama") case OpenaiCompatible => v == Str("openai-compatible")
  }

  ghost predicate IsTransport<N>(v: Value<N>, t: McpTransport) {
    match t case HttpStreamable => v == Str("http-streamable") case Sse => v == Str("sse")
  }

  ghost predicate IsMode<N>(v: Value<N>, m: AgentMode) {
    match m case Primary => v == Str("primary") case Subagent => v == Str("subagent") case All => v == Str("all")
  }

  ghost predicate IsSkills<N>(v: Value<N>, s: SkillSelection) {
    match s case Auto => v == Str("auto") case NoSkills => v == Str("none") case Named(names) => IsNames(v, names)
  }

  ghost function Pow2(n: nat): nat { if n == 0 then 1 else 2 * Pow2(n - 1) }

  /** The float that a number stands for. */
  ghost predicate IsFloat(n: Number, r: Float64) {
    match n
    case Int(i) => r.exponent >= 0 && r.mantissa * Pow2(r.exponent) == i
    case Float(x) => x == r
  }

  ghost predicate IsTemperature(v: Json, t: Option<Temperature>) {
    match t
    case None => v == Null
    case Some(Finite(r)) => v.Num? && IsFloat(v.n, r)
    case Some(NotFinite) => false
  }

  ghost predicate IsMaxTokens(v: Json, t: Option<U64>) {
    match t case None => v == Null case Some(n) => v == Num(Int(n))
  }

  ghost predicate IsOptions(v: Json, options: Fields) {
    (v == Null && options == map[]) || v == Obj(options)
  }

  /** The headers whose values are strings; a null is none. */
  ghost predicate IsHeaders(v: Json, headers: map<string, string>) {
    || (v == Null && headers == map[])
    || (&& v.Obj?
        && (forall k | k in headers :: k in v.fields && v.fields[k] == Str(headers[k]))
        && (forall k | k in v.fields && v.fields[k].Str? :: k in headers))
  }

  /** A server and its tools, none when the member is absent or null. */
  ghost predicate IsSelection(v: Json, sel: McpSelection) {
    && v.Obj? && "server" in v.fields && v.fields["server"] == Str(sel.server)
    && (if "tools" in v.fields && v.fields["tools"] != Null then IsNames(v.fields["tools"], sel.tools)
        else sel.tools == [])
  }

  ghost predicate IsMcp(v: Json, mcp: seq<McpSelection>) {
    || (v == Null && mcp == [])
    || (v.Arr? && |v.items| == |mcp| && forall i | 0 <= i < |mcp| :: IsSelection(v.items[i], mcp[i]))
  }

  // ----- each member of a patch is read as what it stands for, and refused when that is nothing -----

  lemma NamesIff<N>(v: Value<N>, names: seq<string>)
    ensures NamesOf(v) == Some(names) <==> IsNames(v, names)
  {
    if NamesOf(v).Some? && IsNames(v, names) {
      var read := NamesOf(v).value;
      assert forall i | 0 <= i < |names| :: v.items[i] == Str(read[i]);
      assert read == names;
    }
  }

  lemma TextValueIff(v: Json, s: string, t: Option<string>)
    ensures StrValue(v) == Some(s) <==> IsText(v, s)
    ensures OptStrValue(v) == Some(t) <==> IsOptText(v, t)
  {
  }

  lemma ListValueIff(v: Json, names: seq<string>)
    ensures ListValue(v) == Some(names) <==> IsList(v, names)
  {
    NamesIff(v, names);
  }

  lemma EnumValueIff(v: Json, t: ProviderType, m: McpTransport, a: AgentMode)
    ensures ProviderTypeValue(v) == Some(t) <==> IsProviderType(v, t)
    ensures TransportValue(v) == Some(m) <==> IsTransport(v, m)
    ensures ModeValue(v) == Some(a) <==> IsMode(v, a)
  {
  }

  /** A null or `"auto"` is all skills, `"none"` none, and an array of strings those; no other value is accepted. */
  lemma SkillsValueIff(v: Json, s: SkillSelection)
    ensures SkillsValue(v) == Some(s) <==> (v == Null && s == Auto) || IsSkills(v, s)
  {
    if s.Named? {
      NamesIff(v, s.names);
    }
  }

  lemma {:induction false} FloatOfIs(i: int)
    ensures FloatOf(i).exponent >= 0 && FloatOf(i).mantissa * Pow2(FloatOf(i).exponent) == i
    decreases if i < 0 then -i else i
  {
    if i != 0 && i % 2 == 0 {
      FloatOfIs(i / 2);
      var half := FloatOf(i / 2);
      assert half.mantissa * Pow2(half.exponent + 1) == 2 * (half.mantissa * Pow2(half.exponent));
    }
  }

  /** An integer has one float. */
  lemma {:induction false} FloatIsUnique(a: Float64, b: Float64)
    requires a.exponent >= 0 && b.exponent >= 0
    requires a.mantissa * Pow2(a.exponent) == b.mantissa * Pow2(b.exponent)
    ensures a == b
    decreases a.exponent
  {
    ZeroFloat(a);
    ZeroFloat(b);
    Halved(a.mantissa, a.exponent);
    Halved(b.mantissa, b.exponent);
    if a.exponent > 0 && b.exponent > 0 {
      FloatIsUnique(Dyadic(a.mantissa, a.exponent - 1), Dyadic(b.mantissa, b.exponent - 1));
    }
  }

  lemma Halved(m: int, e: nat)
    ensures if e == 0 then m * Pow2(e) == m else m * Pow2(e) == 2 * (m * Pow2(e - 1))
  {
  }

  lemma {:induction false} Pow2IsPositive(e: nat)
    ensures Pow2(e) > 0
  {
    if e > 0 {
      Pow2IsPositive(e - 1);
    }
  }

  lemma ZeroFloat(a: Float64)
    requires a.exponent >= 0
    ensures a.mantissa * Pow2(a.exponent) == 0 <==> a.mantissa == 0
  {
    Pow2IsPositive(a.exponent);
    if a.mantissa > 0 {
      assert a.mantissa * Pow2(a.exponent) > 0;
    } else if a.mantissa < 0 {
      assert a.mantissa * Pow2(a.exponent) < 0;
    }
  }

  lemma FloatIff(n: Number, r: Float64)
    ensures AsFloat(n) == r <==> IsFloat(n, r)
  {
    if n.Int? {
      FloatOfIs(n.i);
      if IsFloat(n, r) {
        FloatIsUnique(FloatOf(n.i), r);
      }
    }
  }

  lemma NumberValueIff(v: Json, t: Option<Temperature>, m: Option<U64>)
    ensures TemperatureValue(v) == Some(t) <==> IsTemperature(v, t)
    ensures MaxTokensValue(v) == Some(m) <==> IsMaxTokens(v, m)
  {
    if v.Num? && t.Some? && t.value.Finite? {
      FloatIff(v.n, t.value.r);
    }
  }

  lemma OptionsValueIff(v: Json, options: Fields)
    ensures OptionsValue(v) == Some(options) <==> IsOptions(v, options)
  {
  }

  lemma HeadersValueIff(v: Json, headers: map<string, string>)
    ensures HeadersValue(v) == Some(headers) <==> IsHeaders(v, headers)
  {
    if v.Obj? && IsHeaders(v, headers) {
      var read := HeadersValue(v).value;
      assert read.Keys == headers.Keys;
      assert read == headers;
    }
  }

  lemma SelectionIff(v: Json, sel: McpSelection)
    ensures Selection(v) == Some(sel) <==> IsSelection(v, sel)
  {
    if v.Obj? && "tools" in v.fields {
      NamesIff(v.fields["tools"], sel.tools);
    }
  }

  lemma {:induction false} SelectionsIff(items: seq<Json>, mcp: seq<McpSelection>)
    ensures Selections(items) == Some(mcp)
       <==> |items| == |mcp| && forall i | 0 <= i < |mcp| :: IsSelection(items[i], mcp[i])
  {
    if items != [] && mcp != [] {
      SelectionIff(items[0], mcp[0]);
      SelectionsIff(items[1..], mcp[1..]);
      assert mcp == [mcp[0]] + mcp[1..];
      if |items| == |mcp| && forall i | 0 <= i < |mcp[1..]| :: IsSelection(items[1..][i], mcp[1..][i]) {
        forall i | 0 < i < |mcp| ensures IsSelection(items[i], mcp[i]) {
          assert items[1..][i - 1] == items[i] && mcp[1..][i - 1] == mcp[i];
        }
      }
    }
  }

  lemma McpValueIff(v: Json, mcp: seq<McpSelection>)
    ensures McpValue(v) == Some(mcp) <==> IsMcp(v, mcp)
  {
    if v.Arr? {
      SelectionsIff(v.items, mcp);
    }
  }

  // ----- what a patch makes of an item -----

  /** The member `k` decides the field; without it the field is `before`. */
  ghost predicate Decides<N, T(!new)>(m: map<string, Value<N>>, k: string, stands: (Value<N>, T) -> bool,
                                      before: T, now: T) {
    if k in m then stands(m[k], now) else now == before
  }

  ghost predicate IsSkillsPatch(v: Json, s: SkillSelection) { (v == Null && s == Auto) || IsSkills(v, s) }

  ghost predicate ProviderFollows(m: Fields, was: Entity, now: Entity)
    requires was.Provider?
  {
    && now.Provider? && now.name == was.name
    && Decides(m, "type", IsProviderType, was.providerType, now.providerType)
    && Decides(m, "endpoint", IsText, was.endpoint, now.endpoint)
    && Decides(m, "api_key", IsOptText, was.apiKey, now.apiKey)
  }

  ghost predicate ModelFollows(m: Fields, was: Entity, now: Entity)
    requires was.ModelProfile?
  {
    && now.ModelProfile? && now.name == was.name
    && Decides(m, "provider", IsText, was.provider, now.provider)
    && Decides(m, "model", IsText, was.model, now.model)
    && Decides(m, "temperature", IsTemperature, was.temperature, now.temperature)
    && Decides(m, "max_tokens", IsMaxTokens, was.maxTokens, now.maxTokens)
    && Decides(m, "options", IsOptions, was.options, now.options)
  }

  ghost predicate McpServerFollows(m: Fields, was: Entity, now: Entity)
    requires was.McpServer?
  {
    && now.McpServer? && now.name == was.name
    && Decides(m, "type", IsTransport, was.transport, now.transport)
    && Decides(m, "url", IsText, was.url, now.url)
    && Decides(m, "headers", IsHeaders, was.headers, now.headers)
  }

  ghost predicate ToolsetFollows(m: Fields, was: Entity, now: Entity)
    requires was.Toolset?
  {
    && now.Toolset? && now.name == was.name
    && Decides(m, "description", IsOptText, was.description, now.description)
    && Decides(m, "prompt", IsOptText, was.prompt, now.prompt)
    && Decides(m, "local_tools", IsList, was.localTools, now.localTools)
    && Decides(m, "mcp", IsMcp, was.mcp, now.mcp)
  }

  ghost predicate AgentFollows(m: Fields, was: Entity, now: Entity)
    requires was.Agent?
  {
    && now.Agent? && now.name == was.name
    && Decides(m, "description", IsOptText, was.description, now.description)
    && Decides(m, "mode", IsMode, was.mode, now.mode)
    && Decides(m, "model", IsText, was.model, now.model)
    && Decides(m, "toolsets", IsList, was.toolsets, now.toolsets)
    && Decides(m, "skills", IsSkillsPatch, was.skills, now.skills)
    && Decides(m, "system_prompt", IsText, was.systemPrompt, now.systemPrompt)
  }

  /** A skill with the body it has, or that the patch brings it. */
  ghost predicate SkillFollows(m: Fields, was: Draft, now: Draft)
    requires was.e.SkillMeta?
  {
    && now.e.SkillMeta? && now.e.name == was.e.name
    && Decides(m, "description", IsText, was.e.summary, now.e.summary)
    && (if "body" in m then now.body.Some? && IsText(m["body"], now.body.value) else now.body == was.body)
  }

  /** `now` is `was` with every field that a member of the patch names as that member says, and no other changed. */
  ghost predicate Follows(m: Fields, was: Draft, now: Draft) {
    match was.e
    case SkillMeta(_, _) => SkillFollows(m, was, now)
    case Provider(_, _, _, _) => now.body == was.body && ProviderFollows(m, was.e, now.e)
    case ModelProfile(_, _, _, _, _, _) => now.body == was.body && ModelFollows(m, was.e, now.e)
    case McpServer(_, _, _, _) => now.body == was.body && McpServerFollows(m, was.e, now.e)
    case Toolset(_, _, _, _, _) => now.body == was.body && ToolsetFollows(m, was.e, now.e)
    case Agent(_, _, _, _, _, _, _) => now.body == was.body && AgentFollows(m, was.e, now.e)
  }

  /** One field: the match reads the member as what it stands for, so it decides the field alike. */
  lemma PickDecides<T(!new)>(m: Fields, k: string, read: Json -> Option<T>, stands: (Json, T) -> bool, was: T, now: T)
    requires k in m ==> forall x :: read(m[k]) == Some(x) <==> stands(m[k], x)
    ensures Decides(m, k, stands, was, now)
       <==> (k in m ==> read(m[k]).Some?) && now == Pick(m, k, read, was)
  {
    if k in m && read(m[k]).Some? {
      assert stands(m[k], read(m[k]).value);
    }
  }

  lemma TextDecides(m: Fields, k: string, was: string, now: string)
    ensures Decides(m, k, IsText, was, now) <==> (k in m ==> m[k].Str?) && now == Pick(m, k, StrValue, was)
  {
  }

  lemma OptTextDecides(m: Fields, k: string, was: Option<string>, now: Option<string>)
    ensures Decides(m, k, IsOptText, was, now)
       <==> (k in m ==> OptStrValue(m[k]).Some?) && now == Pick(m, k, OptStrValue, was)
  {
    PickDecides(m, k, OptStrValue, IsOptText, was, now);
  }

  lemma ListDecides(m: Fields, k: string, was: seq<string>, now: seq<string>)
    ensures Decides(m, k, IsList, was, now)
       <==> (k in m ==> ListValue(m[k]).Some?) && now == Pick(m, k, ListValue, was)
  {
    if k in m {
      forall x ensures ListValue(m[k]) == Some(x) <==> IsList(m[k], x) {
        ListValueIff(m[k], x);
      }
    }
    PickDecides(m, k, ListValue, IsList, was, now);
  }

  lemma ProviderFollowsIff(m: Fields, was: Entity, now: Entity)
    requires was.Provider? && now.Provider?
    ensures ProviderFollows(m, was, now) <==> AcceptsAll(ProviderKind, m) && now == Overwrite(Draft(was, None), m).e
  {
    PickDecides(m, "type", ProviderTypeValue, IsProviderType, was.providerType, now.providerType);
    TextDecides(m, "endpoint", was.endpoint, now.endpoint);
    OptTextDecides(m, "api_key", was.apiKey, now.apiKey);
  }

  lemma NumbersDecide(m: Fields, was: Entity, now: Entity)
    requires was.ModelProfile? && now.ModelProfile?
    ensures Decides(m, "temperature", IsTemperature, was.temperature, now.temperature)
       <==> && ("temperature" in m ==> TemperatureValue(m["temperature"]).Some?)
            && now.temperature == Pick(m, "temperature", TemperatureValue, was.temperature)
    ensures Decides(m, "max_tokens", IsMaxTokens, was.maxTokens, now.maxTokens)
       <==> && ("max_tokens" in m ==> MaxTokensValue(m["max_tokens"]).Some?)
            && now.maxTokens == Pick(m, "max_tokens", MaxTokensValue, was.maxTokens)
  {
    if "temperature" in m {
      forall t ensures TemperatureValue(m["temperature"]) == Some(t) <==> IsTemperature(m["temperature"], t) {
        NumberValueIff(m["temperature"], t, None);
      }
    }
    PickDecides(m, "temperature", TemperatureValue, IsTemperature, was.temperature, now.temperature);
    PickDecides(m, "max_tokens", MaxTokensValue, IsMaxTokens, was.maxTokens, now.maxTokens);
  }

  lemma ModelFollowsIff(m: Fields, was: Entity, now: Entity)
    requires was.ModelProfile? && now.ModelProfile?
    ensures ModelFollows(m, was, now) <==> AcceptsAll(ModelKind, m) && now == Overwrite(Draft(was, None), m).e
  {
    TextDecides(m, "provider", was.provider, now.provider);
    TextDecides(m, "model", was.model, now.model);
    NumbersDecide(m, was, now);
    PickDecides(m, "options", OptionsValue, IsOptions, was.options, now.options);
  }

  lemma McpServerFollowsIff(m: Fields, was: Entity, now: Entity)
    requires was.McpServer? && now.McpServer?
    ensures McpServerFollows(m, was, now) <==> AcceptsAll(McpKind, m) && now == Overwrite(Draft(was, None), m).e
  {
    PickDecides(m, "type", TransportValue, IsTransport, was.transport, now.transport);
    TextDecides(m, "url", was.url, now.url);
    if "headers" in m {
      forall h ensures HeadersValue(m["headers"]) == Some(h) <==> IsHeaders(m["headers"], h) {
        HeadersValueIff(m["headers"], h);
      }
    }
    PickDecides(m, "headers", HeadersValue, IsHeaders, was.headers, now.headers);
  }

  lemma ToolsetFollowsIff(m: Fields, was: Entity, now: Entity)
    requires was.Toolset? && now.Toolset?
    ensures ToolsetFollows(m, was, now) <==> AcceptsAll(ToolsetKind, m) && now == Overwrite(Draft(was, None), m).e
  {
    OptTextDecides(m, "description", was.description, now.description);
    OptTextDecides(m, "prompt", was.prompt, now.prompt);
    ListDecides(m, "local_tools", was.localTools, now.localTools);
    if "mcp" in m {
      forall mcp ensures McpValue(m["mcp"]) == Some(mcp) <==> IsMcp(m["mcp"], mcp) {
        McpValueIff(m["mcp"], mcp);
      }
    }
    PickDecides(m, "mcp", McpValue, IsMcp, was.mcp, now.mcp);
  }

  lemma AgentFollowsIff(m: Fields, was: Entity, now: Entity)
    requires was.Agent? && now.Agent?
    ensures AgentFollows(m, was, now) <==> AcceptsAll(AgentKind, m) && now == Overwrite(Draft(was, None), m).e
  {
    OptTextDecides(m, "description", was.description, now.description);
    PickDecides(m, "mode", ModeValue, IsMode, was.mode, now.mode);
    TextDecides(m, "model", was.model, now.model);
    ListDecides(m, "toolsets", was.toolsets, now.toolsets);
    if "skills" in m {
      forall s ensures SkillsValue(m["skills"]) == Some(s) <==> IsSkillsPatch(m["skills"], s) {
        SkillsValueIff(m["skills"], s);
      }
    }
    PickDecides(m, "skills", SkillsValue, IsSkillsPatch, was.skills, now.skills);
    TextDecides(m, "system_prompt", was.systemPrompt, now.systemPrompt);
  }

  lemma SkillFollowsIff(m: Fields, was: Draft, now: Draft)
    requires was.e.SkillMeta? && now.e.SkillMeta?
    ensures SkillFollows(m, was, now) <==> AcceptsAll(SkillKind, m) && now == Overwrite(was, m)
  {
    TextDecides(m, "description", was.e.summary, now.e.summary);
  }

  /** Only skills have their body touched. */
  lemma OverwriteOfEntity(was: Draft, m: Fields)
    requires !was.e.SkillMeta?
    ensures Overwrite(was, m) == Draft(Overwrite(Draft(was.e, None), m).e, was.body)
  {
  }

  /**
   What the loop makes of an item, said without it: a patch that names something unacceptable makes
   nothing of it, and any other makes exactly the item that follows the patch.
   */
  lemma FollowsIff(m: Fields, was: Draft, now: Draft)
    ensures Follows(m, was, now) <==> AcceptsAll(was.e.Kind(), m) && now == Overwrite(was, m)
  {
    if !was.e.SkillMeta? {
      OverwriteOfEntity(was, m);
    }
    match (was.e, now.e)
    case (Provider(_, _, _, _), Provider(_, _, _, _)) => ProviderFollowsIff(m, was.e, now.e);
    case (ModelProfile(_, _, _, _, _, _), ModelProfile(_, _, _, _, _, _)) => ModelFollowsIff(m, was.e, now.e);
    case (McpServer(_, _, _, _), McpServer(_, _, _, _)) => McpServerFollowsIff(m, was.e, now.e);
    case (Toolset(_, _, _, _, _), Toolset(_, _, _, _, _)) => ToolsetFollowsIff(m, was.e, now.e);
    case (Agent(_, _, _, _, _, _, _), Agent(_, _, _, _, _, _, _)) => AgentFollowsIff(m, was.e, now.e);
    case (SkillMeta(_, _), SkillMeta(_, _)) => SkillFollowsIff(m, was, now);
    case _ => assert Overwrite(was, m).e.Kind() == was.e.Kind();
  }

  ghost predicate SomeFollows(m: Fields, was: Draft) {
    exists now :: Follows(m, was, now)
  }

  /** Some item follows a patch exactly when the match accepts each of its members. */
  lemma AcceptedIff(m: Fields, was: Draft)
    ensures AcceptsAll(was.e.Kind(), m) <==> SomeFollows(m, was)
  {
    FollowsIff(m, was, Overwrite(was, m));
    if SomeFollows(m, was) {
      var now :| Follows(m, was, now);
      FollowsIff(m, was, now);
    }
  }

  /** The loop over the members, from whatever item it starts. */
  lemma LoopFollows(was: Draft, entries: seq<(string, Json)>)
    requires DistinctKeys(entries)
    ensures PatchAll(was, entries).ok <==> SomeFollows(ToMap(entries), was)
    ensures PatchAll(was, entries).ok ==> Follows(ToMap(entries), was, PatchAll(was, entries).draft)
  {
    PatchAllIsOverwrite(was, entries);
    AcceptedIff(ToMap(entries), was);
    FollowsIff(ToMap(entries), was, Overwrite(was, ToMap(entries)));
  }
}
