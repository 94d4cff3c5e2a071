/** The entries of `config.yaml`: how they are written, read back and patched. */
module Entries {
  import opened Bytes
  import opened Json
  import opened Domain

  predicate IsSection(kind: Kind) {
    kind == ProviderKind || kind == ModelKind || kind == McpKind
  }

  // ----- writing: `to_value(item)` without its name -----

  function OptField(key: string, v: Option<Json>): Fields {
    if v.Some? then map[key := v.value] else map[]
  }

  function TemperatureJson(t: Option<Temperature>): Option<Json> {
    match t
    case None => None
    case Some(Finite(r)) => Some(Num(Float(r)))
    case Some(NotFinite) => Some(Null)
  }

  function HeadersJson(headers: map<string, string>): Json {
    Obj(map k | k in headers :: Str(headers[k]))
  }

  function ToEntry(e: Entity): (f: Fields)
    requires IsSection(e.Kind())
  {
    match e
    case Provider(_, t, endpoint, apiKey) =>
      map["type" := Str(ProviderTypeName(t)), "endpoint" := Str(endpoint)]
      + OptField("api_key", if apiKey.Some? then Some(Str(apiKey.value)) else None)
    case ModelProfile(_, provider, model, temperature, maxTokens, options) =>
      map["provider" := Str(provider), "model" := Str(model)]
      + OptField("temperature", TemperatureJson(temperature))
      + OptField("max_tokens", if maxTokens.Some? then Some(Num(Int(maxTokens.value))) else None)
      + OptField("options", if options == map[] then None else Some(Obj(options)))
    case McpServer(_, t, url, headers) =>
      map["type" := Str(TransportName(t)), "url" := Str(url), "headers" := HeadersJson(headers)]
  }

  // ----- reading: the `Raw*Entry` structures -----

  function Lookup<N>(f: map<string, Value<N>>, key: string): Option<Value<N>> {
    if key in f then Some(f[key]) else None
  }

  function ReqStr<N>(v: Option<Value<N>>): Option<string> {
    if v.Some? && v.value.Str? then Some(v.value.s) else None
  }

  /** An optional string: absent and null are both nothing. */
  function OptStr<N>(v: Option<Value<N>>): Option<Option<string>> {
    if v.None? || v.value.Null? then Some(None)
    else if v.value.Str? then Some(Some(v.value.s))
    else None
  }

  function ReadTemperature(v: Option<Yaml>): Option<Option<Temperature>> {
    if v.None? || v.value.Null? then Some(None)
    else if v.value.Num? then Some(Some(if v.value.n.Plain? then Finite(AsFloat(v.value.n.n)) else NotFinite))
    else None
  }

  function ReadMaxTokens(v: Option<Yaml>): Option<Option<U64>> {
    if v.None? || v.value.Null? then Some(None)
    else if v.value.Num? && v.value.n.Plain? && AsU64(v.value.n.n).Some? then Some(AsU64(v.value.n.n))
    else None
  }

  /** A map of JSON values. `serde(default)` covers absence only: a null is refused. */
  function ReadOptions(v: Option<Yaml>): Option<Fields> {
    if v.None? then Some(map[])
    else if v.value.Obj? then Some(JsonFields(v.value.fields))
    else None
  }

  predicate AllStrings<N>(f: map<string, Value<N>>) { forall k | k in f :: f[k].Str? }

  function ReadHeaders(v: Option<Yaml>): Option<map<string, string>> {
    if v.None? then Some(map[])
    else if v.value.Obj? && AllStrings(v.value.fields) then Some(map k | k in v.value.fields :: v.value.fields[k].s)
    else None
  }

  function ReadProvider(name: string, f: YamlFields): Option<Entity> {
    var t, endpoint, apiKey := ReqStr(Lookup(f, "type")), ReqStr(Lookup(f, "endpoint")), OptStr(Lookup(f, "api_key"));
    if t.Some? && ParseProviderType(t.value).Some? && endpoint.Some? && apiKey.Some? then
      Some(Provider(name, ParseProviderType(t.value).value, endpoint.value, apiKey.value))
    else None
  }

  function ReadModel(name: string, f: YamlFields): Option<Entity> {
    var provider, model := ReqStr(Lookup(f, "provider")), ReqStr(Lookup(f, "model"));
    var temperature, maxTokens := ReadTemperature(Lookup(f, "temperature")), ReadMaxTokens(Lookup(f, "max_tokens"));
    var options := ReadOptions(Lookup(f, "options"));
    if provider.Some? && model.Some? && temperature.Some? && maxTokens.Some? && options.Some? then
      Some(ModelProfile(name, provider.value, model.value, temperature.value, maxTokens.value, options.value))
    else None
  }

  function ReadMcp(name: string, f: YamlFields): Option<Entity> {
    var t, url, headers := ReqStr(Lookup(f, "type")), ReqStr(Lookup(f, "url")), ReadHeaders(Lookup(f, "headers"));
    if t.Some? && ParseTransport(t.value).Some? && url.Some? && headers.Some? then
      Some(McpServer(name, ParseTransport(t.value).value, url.value, headers.value))
    else None
  }

  /** `from_value::<Raw*Entry>` with the name of the key. */
  function FromEntry(kind: Kind, name: string, y: Yaml): (r: Option<Entity>)
    requires IsSection(kind)
    ensures r.Some? ==> r.value.name == name && r.value.Kind() == kind
  {
    if !y.Obj? then None
    else match kind
      case ProviderKind => ReadProvider(name, y.fields)
      case ModelKind => ReadModel(name, y.fields)
      case McpKind => ReadMcp(name, y.fields)
  }

  /** What is under a key of a JSON object that was turned into YAML. */
  lemma LookupYaml(f: Fields, key: string)
    ensures Lookup(YamlOf(f), key) == if key in f then Some(ToYaml(f[key])) else None
  {
  }

  /** A string or null is the same in JSON and YAML, so both read it alike. */
  lemma ReadsStringsAlike(f: Fields, key: string)
    ensures ReqStr(Lookup(YamlOf(f), key)) == ReqStr(Lookup(f, key))
    ensures OptStr(Lookup(YamlOf(f), key)) == OptStr(Lookup(f, key))
  {
    LookupYaml(f, key);
  }

  // ----- what survives being written -----

  /** A temperature that is not finite is written as null and read back as none. */
  function FiniteTemperature(t: Option<Temperature>): Option<Temperature> {
    if t == Some(NotFinite) then None else t
  }

  /** What a file store keeps of an item of `config.yaml`. */
  function KeptEntry(e: Entity): Entity {
    if e.ModelProfile? then e.(temperature := FiniteTemperature(e.temperature)) else e
  }

  lemma ProviderRoundTrip(e: Entity)
    requires e.Provider?
    ensures ReadProvider(e.name, YamlOf(ToEntry(e))) == Some(e)
  {
    var f := ToEntry(e);
    ReadsStringsAlike(f, "type");
    ReadsStringsAlike(f, "endpoint");
    ReadsStringsAlike(f, "api_key");
    assert Lookup(f, "type") == Some(Str(ProviderTypeName(e.providerType)));
    assert Lookup(f, "endpoint") == Some(Str(e.endpoint));
    assert Lookup(f, "api_key") == if e.apiKey.Some? then Some(Str(e.apiKey.value)) else None;
  }

  lemma ModelRoundTrip(e: Entity)
    requires e.ModelProfile?
    ensures ReadModel(e.name, YamlOf(ToEntry(e))) == Some(KeptEntry(e))
  {
    var f := ToEntry(e);
    ReadsStringsAlike(f, "provider");
    ReadsStringsAlike(f, "model");
    assert Lookup(f, "provider") == Some(Str(e.provider)) && Lookup(f, "model") == Some(Str(e.model));
    NumbersRoundTrip(e);
    OptionsRoundTrip(e);
  }

  lemma NumbersRoundTrip(e: Entity)
    requires e.ModelProfile?
    ensures ReadTemperature(Lookup(YamlOf(ToEntry(e)), "temperature")) == Some(FiniteTemperature(e.temperature))
    ensures ReadMaxTokens(Lookup(YamlOf(ToEntry(e)), "max_tokens")) == Some(e.maxTokens)
  {
    var f := ToEntry(e);
    LookupYaml(f, "temperature");
    LookupYaml(f, "max_tokens");
    assert Lookup(f, "temperature") == TemperatureJson(e.temperature);
    assert Lookup(f, "max_tokens") == if e.maxTokens.Some? then Some(Num(Int(e.maxTokens.value))) else None;
  }

  lemma OptionsRoundTrip(e: Entity)
    requires e.ModelProfile?
    ensures ReadOptions(Lookup(YamlOf(ToEntry(e)), "options")) == Some(e.options)
  {
    var f := ToEntry(e);
    LookupYaml(f, "options");
    assert Lookup(f, "options") == if e.options == map[] then None else Some(Obj(e.options));
    JsonComesBack(Obj(e.options));
  }

  lemma McpRoundTrip(e: Entity)
    requires e.McpServer?
    ensures ReadMcp(e.name, YamlOf(ToEntry(e))) == Some(e)
  {
    var f := ToEntry(e);
    ReadsStringsAlike(f, "type");
    ReadsStringsAlike(f, "url");
    LookupYaml(f, "headers");
    assert Lookup(f, "type") == Some(Str(TransportName(e.transport)));
    assert Lookup(f, "url") == Some(Str(e.url));
    assert Lookup(f, "headers") == Some(HeadersJson(e.headers));
    HeadersRoundTrip(e.headers);
  }

  lemma HeadersRoundTrip(headers: map<string, string>)
    ensures ReadHeaders(Some(ToYaml(HeadersJson(headers)))) == Some(headers)
  {
    var y := ToYaml(HeadersJson(headers));
    forall k | k in headers ensures y.fields[k] == Str(headers[k]) {
      assert y.fields[k] == ToYaml(HeadersJson(headers).fields[k]);
    }
    var back := ReadHeaders(Some(y)).value;
    assert back.Keys == headers.Keys;
    assert back == headers;
  }

  /** A created entry reads back as the item, but for a temperature that is not finite. */
  lemma EntryRoundTrip(e: Entity)
    requires IsSection(e.Kind())
    ensures FromEntry(e.Kind(), e.name, ToYaml(Obj(ToEntry(e)))) == Some(KeptEntry(e))
  {
    match e
    case Provider(_, _, _, _) => ProviderRoundTrip(e);
    case ModelProfile(_, _, _, _, _, _) => ModelRoundTrip(e);
    case McpServer(_, _, _, _) => McpRoundTrip(e);
  }

  // ----- the way through JSON -----

  /** A readable entry that went through JSON reads as what is kept of it. */
  lemma ThroughJsonReads(kind: Kind, name: string, f: YamlFields)
    requires IsSection(kind) && FromEntry(kind, name, Obj(f)).Some?
    ensures FromEntry(kind, name, ToYaml(Obj(JsonFields(f)))) == Some(KeptEntry(FromEntry(kind, name, Obj(f)).value))
  {
    match kind
    case ProviderKind =>
      ThroughJsonAt(f, "type");
      ThroughJsonAt(f, "endpoint");
      ThroughJsonAt(f, "api_key");
    case ModelKind =>
      ThroughJsonAt(f, "provider");
      ThroughJsonAt(f, "model");
      ThroughJsonAt(f, "temperature");
      ThroughJsonAt(f, "max_tokens");
      ThroughJsonAt(f, "options");
      if "options" in f {
        JsonComesBack(ToJson(f["options"]));
      }
    case McpKind =>
      ThroughJsonAt(f, "type");
      ThroughJsonAt(f, "url");
      ThroughJsonAt(f, "headers");
      if "headers" in f {
        StringsGoThroughJson(f["headers"].fields);
      }
  }

  lemma ThroughJsonAt(f: YamlFields, key: string)
    ensures Lookup(YamlOf(JsonFields(f)), key) == if key in f then Some(ToYaml(ToJson(f[key]))) else None
  {
    LookupYaml(JsonFields(f), key);
  }

  lemma StringsGoThroughJson(f: YamlFields)
    requires AllStrings(f)
    ensures ToYaml(ToJson(Obj(f))) == Obj(f)
  {
    YamlComesBackIff(Obj(f));
  }
}
