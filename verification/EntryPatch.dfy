/**
 The update of a `config.yaml` entry by the file store: turn the stored mapping into JSON, patch
 it, turn it back and reread it.
 */
module EntryPatch {
  import opened Bytes
  import opened Json
  import opened Domain
  import opened Entries
  import opened Patches

  predicate Recognised(kind: Kind, k: string)
    requires IsSection(kind)
  {
    match kind
    case ProviderKind => k == "type" || k == "endpoint" || k == "api_key"
    case ModelKind => k == "provider" || k == "model" || k == "temperature" || k == "max_tokens" || k == "options"
    case McpKind => k == "type" || k == "url" || k == "headers"
  }

  /** Keys that a patch may not clear. */
  predicate Required(kind: Kind, k: string)
    requires IsSection(kind)
  {
    match kind
    case ProviderKind => k == "type" || k == "endpoint"
    case ModelKind => k == "provider" || k == "model"
    case McpKind => k == "type" || k == "url"
  }

  /** The explicit check of the enumerated `type`, which models do not have. */
  predicate TypeAllowed(kind: Kind, f: Fields)
    requires IsSection(kind)
  {
    match kind
    case ProviderKind => "type" in f ==> f["type"].Str? && ParseProviderType(f["type"].s).Some?
    case ModelKind => true
    case McpKind => "type" in f ==> f["type"].Str? && ParseTransport(f["type"].s).Some?
  }

  /** Whether `m` decides what is under the key `k`. */
  predicate Touches(kind: Kind, m: Fields, k: string)
    requires IsSection(kind)
  {
    k in m && Recognised(kind, k)
  }

  /** The JSON mapping after the patch, key by key: whatever `m` does not decide stays. */
  function Patched(kind: Kind, f: Fields, m: Fields): Fields
    requires IsSection(kind)
  {
    map k | k in f.Keys + m.Keys && (if Touches(kind, m, k) then !m[k].Null? else k in f)
      :: if Touches(kind, m, k) then m[k] else f[k]
  }

  /** The patched mapping, when it reads as an entry again; its YAML is what an update writes. */
  function UpdatedEntry(kind: Kind, name: string, f: Fields, m: Fields): Option<Fields>
    requires IsSection(kind)
  {
    if FromEntry(kind, name, ToYaml(Obj(Patched(kind, f, m)))).Some? then Some(Patched(kind, f, m)) else None
  }

  /**
   The checks and the loop of the source in their order: no required key nulled, members set or
   removed one by one, the enumerated type, and the entry reread as a listing would read it.
   The last check decides alone; the earlier ones only choose the message.
   */
  method PatchEntry(kind: Kind, name: string, f: Fields, entries: seq<(string, Json)>) returns (r: Option<Fields>)
    requires IsSection(kind) && DistinctKeys(entries)
    ensures r == UpdatedEntry(kind, name, f, ToMap(entries))
  {
    ghost var m := ToMap(entries);
    for i := 0 to |entries|
      invariant forall j | 0 <= j < i :: !(Required(kind, entries[j].0) && entries[j].1.Null?)
    {
      if Required(kind, entries[i].0) && entries[i].1.Null? {
        ToMapAt(entries, i);
        NulledKeyIsRefused(kind, name, f, m, entries[i].0);
        return None;
      }
    }
    var obj := PatchMembers(kind, f, entries);
    if !TypeAllowed(kind, obj) {
      DisallowedTypeIsRefused(kind, name, obj);
      return None;
    }
    if FromEntry(kind, name, ToYaml(Obj(obj))).None? {
      return None;
    }
    r := Some(obj);
  }

  lemma DisallowedTypeIsRefused(kind: Kind, name: string, f: Fields)
    requires IsSection(kind) && !TypeAllowed(kind, f)
    ensures FromEntry(kind, name, ToYaml(Obj(f))) == None
  {
    ReadsStringsAlike(f, "type");
  }

  /** The loop that sets or removes the recognised members. */
  method PatchMembers(kind: Kind, f: Fields, entries: seq<(string, Json)>) returns (obj: Fields)
    requires IsSection(kind)
    ensures obj == Patched(kind, f, ToMap(entries))
  {
    obj := f;
    assert obj == Patched(kind, f, ToMap(entries[..0]));
    for i := 0 to |entries|
      invariant obj == Patched(kind, f, ToMap(entries[..i]))
    {
      var (k, v) := entries[i];
      assert entries[..i + 1][..i] == entries[..i];
      PatchedStep(kind, f, ToMap(entries[..i]), k, v);
      if Recognised(kind, k) {
        if v.Null? {
          obj := obj - {k};
        } else {
          obj := obj[k := v];
        }
      }
    }
    assert entries[..|entries|] == entries;
  }

  lemma PatchedStep(kind: Kind, f: Fields, m: Fields, k: string, v: Json)
    requires IsSection(kind)
    ensures Patched(kind, f, m[k := v])
         == if !Recognised(kind, k) then Patched(kind, f, m)
            else if v.Null? then Patched(kind, f, m) - {k}
            else Patched(kind, f, m)[k := v]
  {
    var before, after := Patched(kind, f, m), Patched(kind, f, m[k := v]);
    var expected := if !Recognised(kind, k) then before else if v.Null? then before - {k} else before[k := v];
    forall x ensures Lookup(after, x) == Lookup(expected, x) {
      LookupPatched(kind, f, m, x);
      LookupPatched(kind, f, m[k := v], x);
    }
    SameLookups(after, expected);
  }

  lemma SameLookups(a: Fields, b: Fields)
    requires forall x :: Lookup(a, x) == Lookup(b, x)
    ensures a == b
  {
    assert forall x | x in a :: Lookup(a, x) == Some(a[x]) == Lookup(b, x);
    assert forall x | x in b :: Lookup(b, x) == Some(b[x]) == Lookup(a, x);
  }

  lemma LookupPatched(kind: Kind, f: Fields, m: Fields, k: string)
    requires IsSection(kind)
    ensures Lookup(Patched(kind, f, m), k)
         == if Touches(kind, m, k) then (if m[k].Null? then None else Some(m[k])) else Lookup(f, k)
  {
  }

  /** The same, as it is written back. */
  lemma LookupWritten(kind: Kind, f: Fields, m: Fields, k: string)
    requires IsSection(kind)
    ensures Lookup(YamlOf(Patched(kind, f, m)), k)
         == if Touches(kind, m, k) then (if m[k].Null? then None else Some(ToYaml(m[k]))) else Lookup(YamlOf(f), k)
  {
    LookupPatched(kind, f, m, k);
    LookupYaml(Patched(kind, f, m), k);
    LookupYaml(f, k);
  }

  lemma NulledKeyIsRefused(kind: Kind, name: string, f: Fields, m: Fields, k: string)
    requires IsSection(kind) && Required(kind, k) && k in m && m[k].Null?
    ensures UpdatedEntry(kind, name, f, m) == None
  {
    LookupWritten(kind, f, m, k);
  }

  // ----- what an update does to a stored mapping -----

  /**
   A key that the patch does not decide keeps its stored value if and only if that value holds no
   float that is not finite: on the way through JSON such a float becomes null.
   */
  lemma UntouchedKeyStaysIff(kind: Kind, stored: YamlFields, m: Fields, k: string)
    requires IsSection(kind) && !Touches(kind, m, k) && k in stored
    ensures Lookup(YamlOf(Patched(kind, JsonFields(stored), m)), k) == Some(ToYaml(ToJson(stored[k])))
    ensures Lookup(YamlOf(Patched(kind, JsonFields(stored), m)), k) == Some(stored[k]) <==> !HoldsNonFinite(stored[k])
  {
    LookupWritten(kind, JsonFields(stored), m, k);
    LookupYaml(JsonFields(stored), k);
    YamlComesBackIff(stored[k]);
  }

  /** A stored `.inf` under a key that no patch names becomes null with the first update. */
  lemma InfinityBecomesNull(kind: Kind, m: Fields)
    requires IsSection(kind)
    ensures Lookup(YamlOf(Patched(kind, JsonFields(map["note" := Num(NonFinite)]), m)), "note") == Some(Null)
  {
    UntouchedKeyStaysIff(kind, map["note" := Num(NonFinite)], m, "note");
  }

  // ----- the file store against the field-by-field match of the in-memory store -----

  /** The one thing that the file store refuses and the in-memory store drops. */
  predicate HeadersAreStrings(kind: Kind, m: Fields) {
    kind == McpKind && "headers" in m && m["headers"].Obj? ==> AllStrings(m["headers"].fields)
  }

  lemma ProviderAccepts(m: Fields)
    ensures AcceptsAll(ProviderKind, m) <==>
      && ("type" in m ==> ProviderTypeValue(m["type"]).Some?)
      && ("endpoint" in m ==> m["endpoint"].Str?)
      && ("api_key" in m ==> OptStrValue(m["api_key"]).Some?)
  {
    if AcceptsAll(ProviderKind, m) {
      assert "type" in m ==> Accepts(ProviderKind, "type", m["type"]);
      assert "endpoint" in m ==> Accepts(ProviderKind, "endpoint", m["endpoint"]);
      assert "api_key" in m ==> Accepts(ProviderKind, "api_key", m["api_key"]);
    }
  }

  lemma ProviderUpdate(e: Entity, f: Fields, m: Fields)
    requires ReadProvider(e.name, YamlOf(f)) == Some(e)
    ensures ReadProvider(e.name, YamlOf(Patched(ProviderKind, f, m)))
         == if AcceptsAll(ProviderKind, m) then Some(Overwrite(Draft(e, None), m).e) else None
  {
    LookupWritten(ProviderKind, f, m, "type");
    LookupWritten(ProviderKind, f, m, "endpoint");
    LookupWritten(ProviderKind, f, m, "api_key");
    ProviderAccepts(m);
  }

  lemma ModelAccepts(m: Fields)
    ensures AcceptsAll(ModelKind, m) <==>
      && ("provider" in m ==> m["provider"].Str?)
      && ("model" in m ==> m["model"].Str?)
      && ("temperature" in m ==> TemperatureValue(m["temperature"]).Some?)
      && ("max_tokens" in m ==> MaxTokensValue(m["max_tokens"]).Some?)
      && ("options" in m ==> OptionsValue(m["options"]).Some?)
  {
    if AcceptsAll(ModelKind, m) {
      assert "provider" in m ==> Accepts(ModelKind, "provider", m["provider"]);
      assert "model" in m ==> Accepts(ModelKind, "model", m["model"]);
      assert "temperature" in m ==> Accepts(ModelKind, "temperature", m["temperature"]);
      assert "max_tokens" in m ==> Accepts(ModelKind, "max_tokens", m["max_tokens"]);
      assert "options" in m ==> Accepts(ModelKind, "options", m["options"]);
    }
  }

  lemma OptionsGoThrough(v: Json)
    requires !v.Null?
    ensures ReadOptions(Some(ToYaml(v))) == OptionsValue(v)
  {
    JsonComesBack(v);
  }

  // Each field of a patched model reads as the member that names it, or as before.

  lemma ModelStrings(f: Fields, m: Fields, k: string)
    requires k == "provider" || k == "model"
    ensures ReqStr(Lookup(YamlOf(Patched(ModelKind, f, m)), k))
         == if k in m then StrValue(m[k]) else ReqStr(Lookup(YamlOf(f), k))
  {
    LookupWritten(ModelKind, f, m, k);
  }

  lemma ModelTemperature(f: Fields, m: Fields)
    ensures ReadTemperature(Lookup(YamlOf(Patched(ModelKind, f, m)), "temperature"))
         == if "temperature" in m then TemperatureValue(m["temperature"])
            else ReadTemperature(Lookup(YamlOf(f), "temperature"))
  {
    LookupWritten(ModelKind, f, m, "temperature");
  }

  lemma ModelMaxTokens(f: Fields, m: Fields)
    ensures ReadMaxTokens(Lookup(YamlOf(Patched(ModelKind, f, m)), "max_tokens"))
         == if "max_tokens" in m then MaxTokensValue(m["max_tokens"])
            else ReadMaxTokens(Lookup(YamlOf(f), "max_tokens"))
  {
    LookupWritten(ModelKind, f, m, "max_tokens");
  }

  lemma ModelOptions(f: Fields, m: Fields)
    ensures ReadOptions(Lookup(YamlOf(Patched(ModelKind, f, m)), "options"))
         == if "options" in m then OptionsValue(m["options"]) else ReadOptions(Lookup(YamlOf(f), "options"))
  {
    LookupWritten(ModelKind, f, m, "options");
    if "options" in m && !m["options"].Null? {
      OptionsGoThrough(m["options"]);
    }
  }

  lemma ModelUpdate(e: Entity, f: Fields, m: Fields)
    requires ReadModel(e.name, YamlOf(f)) == Some(e)
    ensures ReadModel(e.name, YamlOf(Patched(ModelKind, f, m)))
         == if AcceptsAll(ModelKind, m) then Some(Overwrite(Draft(e, None), m).e) else None
  {
    ModelStrings(f, m, "provider");
    ModelStrings(f, m, "model");
    ModelTemperature(f, m);
    ModelMaxTokens(f, m);
    ModelOptions(f, m);
    ModelAccepts(m);
  }

  lemma StringHeaders(h: Fields)
    ensures AllStrings(ToYaml(Obj(h)).fields) <==> AllStrings(h)
    ensures AllStrings(h) ==> HeadersValue(Obj(h)) == ReadHeaders(Some(ToYaml(Obj(h))))
  {
    var y := ToYaml(Obj(h)).fields;
    assert forall k | k in h :: y[k] == ToYaml(h[k]);
    if AllStrings(h) {
      var a, b := HeadersValue(Obj(h)).value, ReadHeaders(Some(Obj(y))).value;
      assert a.Keys == h.Keys && b.Keys == h.Keys;
      assert a == b;
    } else {
      var k :| k in h && !h[k].Str?;
      assert !y[k].Str?;
    }
  }

  lemma McpAccepts(m: Fields)
    ensures AcceptsAll(McpKind, m) <==>
      && ("type" in m ==> TransportValue(m["type"]).Some?)
      && ("url" in m ==> m["url"].Str?)
      && ("headers" in m ==> HeadersValue(m["headers"]).Some?)
  {
    if AcceptsAll(McpKind, m) {
      assert "type" in m ==> Accepts(McpKind, "type", m["type"]);
      assert "url" in m ==> Accepts(McpKind, "url", m["url"]);
      assert "headers" in m ==> Accepts(McpKind, "headers", m["headers"]);
    }
  }

  lemma McpUpdate(e: Entity, f: Fields, m: Fields)
    requires ReadMcp(e.name, YamlOf(f)) == Some(e)
    ensures ReadMcp(e.name, YamlOf(Patched(McpKind, f, m)))
         == if AcceptsAll(McpKind, m) && HeadersAreStrings(McpKind, m)
            then Some(Overwrite(Draft(e, None), m).e) else None
  {
    LookupWritten(McpKind, f, m, "type");
    LookupWritten(McpKind, f, m, "url");
    LookupWritten(McpKind, f, m, "headers");
    McpAccepts(m);
    if "headers" in m && m["headers"].Obj? {
      StringHeaders(m["headers"].fields);
    }
  }

  /** The update of a mapping that is already JSON. */
  lemma JsonUpdateReads(kind: Kind, e: Entity, f: Fields, m: Fields)
    requires IsSection(kind) && FromEntry(kind, e.name, ToYaml(Obj(f))) == Some(e)
    ensures FromEntry(kind, e.name, ToYaml(Obj(Patched(kind, f, m))))
         == if AcceptsAll(kind, m) && HeadersAreStrings(kind, m) then Some(Overwrite(Draft(e, None), m).e) else None
  {
    match kind
    case ProviderKind => ProviderUpdate(e, f, m);
    case ModelKind => ModelUpdate(e, f, m);
    case McpKind => McpUpdate(e, f, m);
  }

  /**
   On a readable entry the file store accepts exactly the patches that the match of the
   in-memory store accepts, headers that are not strings excepted. It then reads back the patched
   entity, but for a stored temperature that is not finite.
   */
  lemma UpdateReads(kind: Kind, e: Entity, stored: YamlFields, m: Fields)
    requires IsSection(kind) && FromEntry(kind, e.name, Obj(stored)) == Some(e)
    ensures var next := UpdatedEntry(kind, e.name, JsonFields(stored), m);
            && (next.Some? <==> AcceptsAll(kind, m) && HeadersAreStrings(kind, m))
            && (next.Some? ==> FromEntry(kind, e.name, ToYaml(Obj(next.value)))
                               == Some(KeptEntry(Overwrite(Draft(e, None), m).e)))
  {
    ThroughJsonReads(kind, e.name, stored);
    JsonUpdateReads(kind, KeptEntry(e), JsonFields(stored), m);
    KeptThenOverwritten(e, m);
  }

  lemma KeptThenOverwritten(e: Entity, m: Fields)
    requires IsSection(e.Kind())
    ensures Overwrite(Draft(KeptEntry(e), None), m).e == KeptEntry(Overwrite(Draft(e, None), m).e)
  {
  }
}
