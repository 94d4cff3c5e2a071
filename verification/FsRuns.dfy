/** Whole runs of the file store: readability, patches that apply whole or not at all, two layers. */
module FsRuns {
  import opened Bytes
  import opened Json
  import opened Domain
  import opened Entries
  import opened EntryPatch
  import opened FsStore
  import opened FsSteps

  // ----- runs -----

  ghost predicate WellFormedCall(call: Call) {
    call.Update? ==> WellFormed(call.patch)
  }

  ghost function RunStore(yaml: YamlCodec, s: Store, calls: seq<(Layer, Call)>): Store {
    if calls == [] then s
    else
      var last := calls[|calls| - 1];
      StoreStep(yaml, RunStore(yaml, s, calls[..|calls| - 1]), last.0, last.1).1
  }

  ghost predicate ReadableStore(yaml: YamlCodec, s: Store) {
    Readable(yaml, s.globalDir) && (s.workspaceDir.Some? ==> Readable(yaml, s.workspaceDir.value))
  }

  // ----- every reachable state stays readable -----

  ghost predicate ReadableAt(yaml: YamlCodec, dir: LayerDir, kind: Kind, name: string) {
    SlotAt(dir, kind, name).Some? ==> Decode(yaml, kind, name, SlotAt(dir, kind, name).value).Some?
  }

  /** Readability slot by slot. */
  lemma ReadableBySlots(yaml: YamlCodec, dir: LayerDir)
    ensures Readable(yaml, dir) <==>
              && !dir.config.Malformed?
              && (forall kind, name :: ReadableAt(yaml, dir, kind, name))
              && ("agent" in Defaults(dir) ==> Defaults(dir)["agent"].Str?)
  {
    if forall kind, name :: ReadableAt(yaml, dir, kind, name) {
      forall kind, name | name in Slots(dir, kind)
        ensures Decode(yaml, kind, name, Slots(dir, kind)[name]).Some?
      {
        assert ReadableAt(yaml, dir, kind, name);
      }
    }
  }

  lemma ReadableButOne(yaml: YamlCodec, before: LayerDir, after: LayerDir, kind: Kind, name: string)
    requires Readable(yaml, before) && SameBut(before, after, kind, name)
    requires ReadableAt(yaml, after, kind, name)
    ensures Readable(yaml, after)
  {
    ReadableBySlots(yaml, before);
    ReadableBySlots(yaml, after);
    forall k, n ensures ReadableAt(yaml, after, k, n) {
      assert ReadableAt(yaml, before, k, n);
      if k != kind || n != name {
        assert SlotAt(after, k, n) == SlotAt(before, k, n);
      }
    }
  }

  /** One call, accepted or refused, on a readable layer leaves it readable. */
  lemma StepKeepsReadable(yaml: YamlCodec, layer: Layer, dir: LayerDir, call: Call)
    requires yaml.Lawful() && Readable(yaml, dir)
    ensures Readable(yaml, Step(yaml, layer, dir, call).dir)
  {
    var out := Step(yaml, layer, dir, call);
    match call
    case Create(item, body) =>
      CreateEffect(yaml, layer, dir, item, body);
      CreatedReads(yaml, item, body);
      if out.result.Ok? {
        ReadableButOne(yaml, dir, out.dir, item.Kind(), item.name);
      }
    case Update(kind, name, patch) =>
      UpdateEffect(yaml, layer, dir, kind, name, patch);
      if out.result.Ok? {
        var d := DecodeDraft(yaml, kind, name, SlotAt(dir, kind, name).value);
        assert d.Some?;
        UpdateReadsBack(yaml, layer, dir, kind, name, patch, d.value);
        ReadableButOne(yaml, dir, out.dir, kind, name);
      }
    case Delete(kind, name) =>
      DeleteEffect(yaml, layer, dir, kind, name);
      if out.dir != dir {
        ReadableButOne(yaml, dir, out.dir, kind, name);
      }
    case SetDefaultAgent(name) =>
      SetDefaultEffect(yaml, layer, dir, name);
      ReadableBySlots(yaml, dir);
      ReadableBySlots(yaml, out.dir);
      forall k, n ensures ReadableAt(yaml, out.dir, k, n) {
        assert ReadableAt(yaml, dir, k, n);
      }
  }

  /** Any sequence of calls on either layer, accepted or refused, leaves the store readable. */
  lemma {:induction false} RunKeepsReadable(yaml: YamlCodec, s: Store, calls: seq<(Layer, Call)>)
    requires yaml.Lawful() && ReadableStore(yaml, s)
    ensures ReadableStore(yaml, RunStore(yaml, s, calls))
  {
    if calls != [] {
      var front, last := calls[..|calls| - 1], calls[|calls| - 1];
      RunKeepsReadable(yaml, s, front);
      var t := RunStore(yaml, s, front);
      if DirOf(t, last.0).Some? {
        StepKeepsReadable(yaml, last.0, DirOf(t, last.0).value, last.1);
      }
    }
  }

  /** On a readable store no read fails with a configuration error. */
  lemma ReadsSucceed(yaml: YamlCodec, s: Store)
    requires ReadableStore(yaml, s)
    ensures forall kind :: Listing(yaml, s, kind).Ok?
    ensures DefaultAgentOf(s).Ok?
    ensures forall name :: LoadSkillOf(s, name).Ok? <==> Overlay(s, SkillKind, name).Some?
    ensures forall name :: LoadSkillOf(s, name).Err? ==> LoadSkillOf(s, name).error == UnknownReference(SkillKind, name)
  {
    forall kind ensures Listing(yaml, s, kind).Ok? {
      MergedIsOverlay(s, kind);
      var slots := MergedSlots(s, kind).value;
      forall n | n in slots ensures Decode(yaml, kind, n, slots[n]).Some? {
        OverlayReads(yaml, s, kind, n);
      }
    }
    forall name ensures LoadSkillOf(s, name).Ok? <==> Overlay(s, SkillKind, name).Some?
      ensures LoadSkillOf(s, name).Err? ==> LoadSkillOf(s, name).error == UnknownReference(SkillKind, name)
    {
      OverlayReads(yaml, s, SkillKind, name);
    }
  }

  lemma OverlayReads(yaml: YamlCodec, s: Store, kind: Kind, name: string)
    requires ReadableStore(yaml, s)
    ensures Overlay(s, kind, name).Some? ==> Decode(yaml, kind, name, Overlay(s, kind, name).value).Some?
  {
    ReadableBySlots(yaml, s.globalDir);
    assert ReadableAt(yaml, s.globalDir, kind, name);
    if s.workspaceDir.Some? {
      ReadableBySlots(yaml, s.workspaceDir.value);
      assert ReadableAt(yaml, s.workspaceDir.value, kind, name);
    }
  }

  // ----- updates apply whole or not at all -----

  /**
   A refused call changes its layer exactly when it deletes a skill, present under a valid name,
   whose directory holds more than its `SKILL.md`: then the skill is gone all the same.
   */
  lemma RefusedChangesIff(yaml: YamlCodec, layer: Layer, dir: LayerDir, call: Call)
    requires Step(yaml, layer, dir, call).result.Err?
    ensures var out := Step(yaml, layer, dir, call);
            && (out.dir != dir <==> && call.Delete? && call.kind == SkillKind && ValidName(call.name)
                                    && SlotAt(dir, SkillKind, call.name).Some? && call.name in dir.cluttered)
            && (out.dir != dir ==> out.result == Err(IoError) && SlotAt(out.dir, SkillKind, call.name).None?)
  {
    match call
    case Create(item, body) => CreateEffect(yaml, layer, dir, item, body);
    case Update(kind, name, patch) => UpdateEffect(yaml, layer, dir, kind, name, patch);
    case Delete(kind, name) => DeleteEffect(yaml, layer, dir, kind, name);
    case SetDefaultAgent(name) => SetDefaultEffect(yaml, layer, dir, name);
  }

  lemma EntryUpdateIgnoresOrder(layer: Layer, dir: LayerDir, kind: Kind, name: string,
                                p: seq<(string, Json)>, q: seq<(string, Json)>)
    requires IsSection(kind) && ToMap(p) == ToMap(q)
    ensures UpdateEntryOn(layer, dir, kind, name, Members(p)) == UpdateEntryOn(layer, dir, kind, name, Members(q))
  {
  }

  lemma FileUpdateIgnoresOrder(yaml: YamlCodec, layer: Layer, dir: LayerDir, kind: Kind, name: string,
                               p: seq<(string, Json)>, q: seq<(string, Json)>)
    requires !IsSection(kind) && ToMap(p) == ToMap(q)
    ensures UpdateFileOn(yaml, layer, dir, kind, name, Members(p))
         == UpdateFileOn(yaml, layer, dir, kind, name, Members(q))
  {
  }

  /** Patches with the same members have the same outcome, in whatever order they list them. */
  lemma UpdateIgnoresOrder(yaml: YamlCodec, layer: Layer, dir: LayerDir, kind: Kind, name: string,
                           p: seq<(string, Json)>, q: seq<(string, Json)>)
    requires DistinctKeys(p) && DistinctKeys(q) && forall x :: x in p <==> x in q
    ensures Step(yaml, layer, dir, Update(kind, name, Members(p)))
         == Step(yaml, layer, dir, Update(kind, name, Members(q)))
  {
    ToMapIgnoresOrder(p, q);
    if IsSection(kind) {
      EntryUpdateIgnoresOrder(layer, dir, kind, name, p, q);
    } else {
      FileUpdateIgnoresOrder(yaml, layer, dir, kind, name, p, q);
    }
  }

  /** The mapping that a layer stores under a name of `config.yaml`, when it is one. */
  function MappingAt(dir: LayerDir, kind: Kind, name: string): Option<YamlFields> {
    match SlotAt(dir, kind, name)
    case Some(Entry(Obj(f))) => Some(f)
    case _ => None
  }

  /**
   The stored mapping after an accepted update of an entry, key by key: the members that the patch
   decides are set or removed; every other key is there as before, with its value gone through
   JSON, which is the stored value if and only if all floats in it are finite.
   */
  lemma UpdatedMapping(yaml: YamlCodec, layer: Layer, dir: LayerDir, kind: Kind, name: string, patch: Patch, k: string)
    requires IsSection(kind) && patch.Members?
    requires Step(yaml, layer, dir, Update(kind, name, patch)).result.Ok?
    ensures var out := Step(yaml, layer, dir, Update(kind, name, patch));
            var m := ToMap(patch.entries);
            var before, after := MappingAt(dir, kind, name), MappingAt(out.dir, kind, name);
            && before.Some? && after.Some?
            && (Touches(kind, m, k) ==> Lookup(after.value, k) == if m[k].Null? then None else Some(ToYaml(m[k])))
            && (!Touches(kind, m, k) && k !in before.value ==> k !in after.value)
            && (!Touches(kind, m, k) && k in before.value ==>
                  && Lookup(after.value, k) == Some(ToYaml(ToJson(before.value[k])))
                  && (Lookup(after.value, k) == Some(before.value[k]) <==> !HoldsNonFinite(before.value[k])))
  {
    MappingIsPatched(yaml, layer, dir, kind, name, patch);
    WrittenMapping(kind, MappingAt(dir, kind, name).value, ToMap(patch.entries), k);
  }

  lemma MappingIsPatched(yaml: YamlCodec, layer: Layer, dir: LayerDir, kind: Kind, name: string, patch: Patch)
    requires IsSection(kind) && patch.Members?
    requires Step(yaml, layer, dir, Update(kind, name, patch)).result.Ok?
    ensures MappingAt(dir, kind, name).Some?
    ensures MappingAt(Step(yaml, layer, dir, Update(kind, name, patch)).dir, kind, name)
         == Some(YamlOf(Patched(kind, JsonFields(MappingAt(dir, kind, name).value), ToMap(patch.entries))))
  {
    EntryUpdated(layer, dir, kind, name, patch);
  }

  lemma WrittenMapping(kind: Kind, stored: YamlFields, m: Fields, k: string)
    requires IsSection(kind)
    ensures var after := YamlOf(Patched(kind, JsonFields(stored), m));
            && (Touches(kind, m, k) ==> Lookup(after, k) == if m[k].Null? then None else Some(ToYaml(m[k])))
            && (!Touches(kind, m, k) && k !in stored ==> k !in after)
            && (!Touches(kind, m, k) && k in stored ==>
                  && Lookup(after, k) == Some(ToYaml(ToJson(stored[k])))
                  && (Lookup(after, k) == Some(stored[k]) <==> !HoldsNonFinite(stored[k])))
  {
    LookupWritten(kind, JsonFields(stored), m, k);
    if !Touches(kind, m, k) && k in stored {
      UntouchedKeyStaysIff(kind, stored, m, k);
    }
  }

  /** A call writes at the name and kind it is about, and nowhere else. */
  lemma CallWritesInPlace(yaml: YamlCodec, layer: Layer, dir: LayerDir, call: Call,
                                             kind: Kind, name: string)
    requires match call
             case Create(item, _) => kind != item.Kind() || name != item.name
             case Update(k, n, _) => kind != k || name != n
             case Delete(k, n) => kind != k || name != n
             case SetDefaultAgent(_) => true
    ensures SlotAt(Step(yaml, layer, dir, call).dir, kind, name) == SlotAt(dir, kind, name)
    ensures !call.SetDefaultAgent? ==> Defaults(Step(yaml, layer, dir, call).dir) == Defaults(dir)
    ensures forall k | k != "agent" ::
              Lookup(Defaults(Step(yaml, layer, dir, call).dir), k) == Lookup(Defaults(dir), k)
  {
    match call
    case Create(item, body) => CreateEffect(yaml, layer, dir, item, body);
    case Update(k, n, patch) => UpdateEffect(yaml, layer, dir, k, n, patch);
    case Delete(k, n) => DeleteEffect(yaml, layer, dir, k, n);
    case SetDefaultAgent(n) => SetDefaultEffect(yaml, layer, dir, n);
  }

  // ----- two layers -----

  /** Stores with the same overlay list the same. */
  lemma SameOverlaySameListing(yaml: YamlCodec, s: Store, t: Store, kind: Kind)
    requires Loads(s) <==> Loads(t)
    requires forall name :: Overlay(s, kind, name) == Overlay(t, kind, name)
    ensures Listing(yaml, s, kind) == Listing(yaml, t, kind)
  {
    MergedIsOverlay(t, kind);
    OverlayDecides(s, kind, MergedSlots(t, kind));
  }

  /** The calls of a run that are on `layer`, in their order. */
  ghost function Project(calls: seq<(Layer, Call)>, layer: Layer): seq<Call> {
    if calls == [] then []
    else
      var front, last := calls[..|calls| - 1], calls[|calls| - 1];
      if last.0 == layer then Project(front, layer) + [last.1] else Project(front, layer)
  }

  ghost function RunDir(yaml: YamlCodec, layer: Layer, dir: LayerDir, calls: seq<Call>): LayerDir {
    if calls == [] then dir
    else Step(yaml, layer, RunDir(yaml, layer, dir, calls[..|calls| - 1]), calls[|calls| - 1]).dir
  }

  /** However the calls on the two layers interleave, each layer runs its own. */
  lemma {:induction false} LayersRunApart(yaml: YamlCodec, s: Store, calls: seq<(Layer, Call)>)
    ensures RunStore(yaml, s, calls)
         == Store(RunDir(yaml, Global, s.globalDir, Project(calls, Global)),
                  if s.workspaceDir.None? then None
                  else Some(RunDir(yaml, Workspace, s.workspaceDir.value, Project(calls, Workspace))))
  {
    if calls != [] {
      LayersRunApart(yaml, s, calls[..|calls| - 1]);
      ProjectedByLast(yaml, s.globalDir, calls, Global);
      if s.workspaceDir.Some? {
        ProjectedByLast(yaml, s.workspaceDir.value, calls, Workspace);
      }
    }
  }

  /** The result of each call is that of its place in the one-layer run. */
  lemma ResultsRunApart(yaml: YamlCodec, s: Store, calls: seq<(Layer, Call)>, i: nat)
    requires i < |calls|
    ensures var (layer, call) := calls[i];
            var result := StoreStep(yaml, RunStore(yaml, s, calls[..i]), layer, call).0;
            match DirOf(s, layer)
            case Some(dir) =>
              result == Step(yaml, layer, RunDir(yaml, layer, dir, Project(calls[..i], layer)), call).result
            case None => result == StoreStep(yaml, s, layer, call).0
  {
    LayersRunApart(yaml, s, calls[..i]);
  }

  lemma ProjectedByLast(yaml: YamlCodec, dir: LayerDir, calls: seq<(Layer, Call)>, layer: Layer)
    requires calls != []
    ensures var before := RunDir(yaml, layer, dir, Project(calls[..|calls| - 1], layer));
            RunDir(yaml, layer, dir, Project(calls, layer))
            == if calls[|calls| - 1].0 == layer then Step(yaml, layer, before, calls[|calls| - 1].1).dir else before
  {
    var mine, last := Project(calls[..|calls| - 1], layer), calls[|calls| - 1];
    assert (mine + [last.1])[..|mine|] == mine;
  }

  /** So any two interleavings of the same one-layer runs show the same merged view. */
  lemma InterleavingDoesNotShow(yaml: YamlCodec, s: Store, a: seq<(Layer, Call)>, b: seq<(Layer, Call)>)
    requires Project(a, Global) == Project(b, Global)
    requires Project(a, Workspace) == Project(b, Workspace)
    ensures RunStore(yaml, s, a) == RunStore(yaml, s, b)
    ensures forall kind :: Listing(yaml, RunStore(yaml, s, a), kind) == Listing(yaml, RunStore(yaml, s, b), kind)
  {
    LayersRunApart(yaml, s, a);
    LayersRunApart(yaml, s, b);
  }

  /**
   On one layer, deleting what was just created leaves every slot and default as it was, and the
   very same layer if and only if the item is a file or there was a `config.yaml`.
   */
  lemma CreateThenDelete(yaml: YamlCodec, layer: Layer, w: LayerDir, item: Entity, body: string)
    requires Step(yaml, layer, w, Create(item, body)).result.Ok?
    ensures var v := Step(yaml, layer, w, Create(item, body)).dir;
            var u := Step(yaml, layer, v, Delete(item.Kind(), item.name)).dir;
            && (forall k, n :: SlotAt(u, k, n) == SlotAt(w, k, n))
            && Defaults(u) == Defaults(w) && u.cluttered == w.cluttered
            && (u.config.Malformed? <==> w.config.Malformed?)
            && (u == w <==> !IsSection(item.Kind()) || !w.config.Absent?)
            && SlotAt(v, item.Kind(), item.name) == Some(SlotOf(yaml, item, body))
            && SlotAt(w, item.Kind(), item.name).None?
  {
    var kind, name := item.Kind(), item.name;
    var v := Step(yaml, layer, w, Create(item, body)).dir;
    var u := Step(yaml, layer, v, Delete(kind, name)).dir;
    CreateEffect(yaml, layer, w, item, body);
    DeleteEffect(yaml, layer, v, kind, name);
    forall k, n ensures SlotAt(u, k, n) == SlotAt(w, k, n) {
      if k != kind || n != name {
        assert SlotAt(v, k, n) == SlotAt(w, k, n);
      }
    }
    if IsSection(kind) {
      EntryComesAndGoes(layer, w, item);
    } else {
      FileComesAndGoes(yaml, layer, w, item, body);
    }
  }

  lemma EntryComesAndGoes(layer: Layer, w: LayerDir, item: Entity)
    requires IsSection(item.Kind()) && CreateEntryOn(layer, w, item).result.Ok?
    ensures DeleteEntryOn(layer, CreateEntryOn(layer, w, item).dir, item.Kind(), item.name).dir
         == w.(config := Parsed(LoadConfig(w).value))
  {
    var section := Section(LoadConfig(w).value, item.Kind());
    assert section[item.name := ToYaml(Obj(ToEntry(item)))] - {item.name} == section;
  }

  lemma FileComesAndGoes(yaml: YamlCodec, layer: Layer, w: LayerDir, item: Entity, body: string)
    requires !IsSection(item.Kind()) && CreateFileOn(yaml, layer, w, item, body).result.Ok?
    ensures DeleteFileOn(layer, CreateFileOn(yaml, layer, w, item, body).dir, item.Kind(), item.name).dir == w
  {
    var texts := Texts(w, item.Kind());
    var text := Texts(CreateFileOn(yaml, layer, w, item, body).dir, item.Kind())[item.name];
    assert texts[item.name := text] - {item.name} == texts;
  }

  /** Every read of the two stores comes out the same. */
  ghost predicate SameView(yaml: YamlCodec, s: Store, t: Store) {
    && (forall kind, name :: Overlay(s, kind, name) == Overlay(t, kind, name))
    && (forall kind :: Listing(yaml, s, kind) == Listing(yaml, t, kind))
    && (forall name :: LoadSkillOf(s, name) == LoadSkillOf(t, name))
    && DefaultAgentOf(s) == DefaultAgentOf(t)
  }

  lemma SameWorkspaceSlots(yaml: YamlCodec, s: Store, w: LayerDir)
    requires s.workspaceDir.Some?
    requires forall k, n :: SlotAt(w, k, n) == SlotAt(s.workspaceDir.value, k, n)
    requires Defaults(w) == Defaults(s.workspaceDir.value)
    requires w.config.Malformed? <==> s.workspaceDir.value.config.Malformed?
    ensures SameView(yaml, WithDir(s, Workspace, w), s)
  {
    var t := WithDir(s, Workspace, w);
    forall kind, name ensures Overlay(t, kind, name) == Overlay(s, kind, name) {
      assert SlotAt(w, kind, name) == SlotAt(s.workspaceDir.value, kind, name);
    }
    forall kind ensures Listing(yaml, t, kind) == Listing(yaml, s, kind) {
      SameOverlaySameListing(yaml, t, s, kind);
    }
    forall name ensures LoadSkillOf(t, name) == LoadSkillOf(s, name) {
      assert Overlay(t, SkillKind, name) == Overlay(s, SkillKind, name);
    }
  }

  /**
   Shadowing: while the workspace entry is there it shows, and deleting it shows the global one
   again, as every other read does what it did before.
   */
  lemma ShadowThenRestore(yaml: YamlCodec, s: Store, item: Entity, body: string)
    requires s.workspaceDir.Some? && StoreStep(yaml, s, Workspace, Create(item, body)).0.Ok?
    ensures var t := StoreStep(yaml, s, Workspace, Create(item, body)).1;
            var u := StoreStep(yaml, t, Workspace, Delete(item.Kind(), item.name)).1;
            && Overlay(t, item.Kind(), item.name) == Some(SlotOf(yaml, item, body))
            && Overlay(u, item.Kind(), item.name) == SlotAt(s.globalDir, item.Kind(), item.name)
            && SameView(yaml, u, s)
  {
    var w := s.workspaceDir.value;
    var v := Step(yaml, Workspace, w, Create(item, body)).dir;
    var u := Step(yaml, Workspace, v, Delete(item.Kind(), item.name)).dir;
    CreateThenDelete(yaml, Workspace, w, item, body);
    SameWorkspaceSlots(yaml, s, u);
    assert StoreStep(yaml, StoreStep(yaml, s, Workspace, Create(item, body)).1, Workspace,
                     Delete(item.Kind(), item.name)).1 == WithDir(s, Workspace, u);
    assert Overlay(WithDir(s, Workspace, u), item.Kind(), item.name) == Overlay(s, item.Kind(), item.name);
  }

  // ----- provenance -----

  /** `config_entry_source`: a workspace `config.yaml` that does not load counts as not naming it. */
  function ConfigEntrySource(s: Store, kind: Kind, name: string): Layer
    requires IsSection(kind)
  {
    if s.workspaceDir.None? then Global
    else
      match LoadConfig(s.workspaceDir.value)
      case Ok(raw) => if name in Section(raw, kind) then Workspace else Global
      case Err(_) => Global
  }

  /** `file_entry_source` and `skill_entry_source`. */
  function FileEntrySource(s: Store, kind: Kind, name: string): Layer
    requires !IsSection(kind)
  {
    if s.workspaceDir.Some? && name in Texts(s.workspaceDir.value, kind) then Workspace else Global
  }

  function EntrySource(s: Store, kind: Kind, name: string): Layer {
    if IsSection(kind) then ConfigEntrySource(s, kind, name) else FileEntrySource(s, kind, name)
  }

  /** The source is the workspace exactly when it has the entry, also where a layer does not load. */
  lemma SourceIff(s: Store, kind: Kind, name: string)
    ensures EntrySource(s, kind, name) == Workspace
       <==> s.workspaceDir.Some? && SlotAt(s.workspaceDir.value, kind, name).Some?
  {
  }

  /** The layer named as the source of a merged entry holds exactly the value of the merged view. */
  lemma SourceHoldsTheEntry(s: Store, kind: Kind, name: string)
    requires MergedSlots(s, kind).Ok? && name in MergedSlots(s, kind).value
    ensures DirOf(s, EntrySource(s, kind, name)).Some?
    ensures SlotAt(DirOf(s, EntrySource(s, kind, name)).value, kind, name) == Some(MergedSlots(s, kind).value[name])
  {
    MergedIsOverlay(s, kind);
    assert Overlay(s, kind, name) == Some(MergedSlots(s, kind).value[name]);
  }
}
