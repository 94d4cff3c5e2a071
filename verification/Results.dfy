/** What each call answers, said on what the layer holds, and where the two stores answer alike. */
module Results {
  import opened Bytes
  import opened Json
  import opened Domain
  import opened Entries
  import opened EntryPatch
  import opened FsStore
  import opened FsSteps
  import opened Meanings
  import M = MemStore
  import FsRuns
  import Patches
  import Refinement

  lemma CreateAnswers(yaml: YamlCodec, layer: Layer, dir: LayerDir, item: Entity, body: string)
    ensures Step(yaml, layer, dir, Create(item, body)).result
         == if !ValidName(item.name) then Err(InvalidName(item.name))
            else if IsSection(item.Kind()) && dir.config.Malformed? then Err(ConfigError)
            else if SlotAt(dir, item.Kind(), item.name).Some? then Err(NameConflict(item.Kind(), item.name, layer))
            else Ok(Unit)
  {
  }

  lemma DeleteAnswers(yaml: YamlCodec, layer: Layer, dir: LayerDir, kind: Kind, name: string)
    ensures Step(yaml, layer, dir, Delete(kind, name)).result
         == if !ValidName(name) then Err(InvalidName(name))
            else if IsSection(kind) && dir.config.Malformed? then Err(ConfigError)
            else if SlotAt(dir, kind, name).None? then Err(NotFound(kind, name, layer))
            else if kind == SkillKind && name in dir.cluttered then Err(IoError)
            else Ok(Unit)
  {
  }

  /** Some item follows the patch, and no header in it is anything but a string. */
  ghost predicate CanFollow(kind: Kind, members: seq<(string, Json)>, was: Patches.Draft) {
    SomeFollows(ToMap(members), was) && HeadersAreStrings(kind, ToMap(members))
  }

  /** On a name that is free, or whose slot reads. */
  lemma UpdateAnswers(yaml: YamlCodec, layer: Layer, dir: LayerDir, kind: Kind, name: string, patch: Patch)
    requires yaml.Lawful()
    requires SlotAt(dir, kind, name).Some? ==> DecodeDraft(yaml, kind, name, SlotAt(dir, kind, name).value).Some?
    ensures Step(yaml, layer, dir, Update(kind, name, patch)).result
         == if !ValidName(name) then Err(InvalidName(name))
            else if IsSection(kind) && dir.config.Malformed? then Err(ConfigError)
            else if SlotAt(dir, kind, name).None? then Err(NotFound(kind, name, layer))
            else if patch.NotAnObject? then Err(ConfigError)
            else if CanFollow(kind, patch.entries, DecodeDraft(yaml, kind, name, SlotAt(dir, kind, name).value).value)
              then Ok(Unit)
            else Err(Validation)
  {
    if SlotAt(dir, kind, name).Some? {
      var was := DecodeDraft(yaml, kind, name, SlotAt(dir, kind, name).value).value;
      UpdateReadsBack(yaml, layer, dir, kind, name, patch, was);
      if patch.Members? {
        AcceptedIff(ToMap(patch.entries), was);
      }
    }
  }

  /** A call answers as its layer does and leaves the other alone; on a workspace that is not there it is refused. */
  lemma StoreAnswers(yaml: YamlCodec, s: Store, layer: Layer, call: Call)
    ensures layer == Global ==>
              var out := Step(yaml, Global, s.globalDir, call);
              StoreStep(yaml, s, layer, call) == (out.result, Store(out.dir, s.workspaceDir))
    ensures layer == Workspace && s.workspaceDir.Some? ==>
              var out := Step(yaml, Workspace, s.workspaceDir.value, call);
              StoreStep(yaml, s, layer, call) == (out.result, Store(s.globalDir, Some(out.dir)))
    ensures layer == Workspace && s.workspaceDir.None? ==>
              && StoreStep(yaml, s, layer, call).1 == s
              && StoreStep(yaml, s, layer, call).0 == match call
                 case Create(item, _) => if ValidName(item.name) then Err(ConfigError) else Err(InvalidName(item.name))
                 case Update(_, name, _) => if ValidName(name) then Err(ConfigError) else Err(InvalidName(name))
                 case Delete(_, name) => if ValidName(name) then Err(ConfigError) else Err(InvalidName(name))
                 case SetDefaultAgent(_) => Err(ConfigError)
  {
  }

  // ----- the same call on both stores -----

  /** The in-memory store accepts a header that the file store refuses. */
  ghost predicate DropsHeaders(layer: Layer, m: M.Mem, call: Call) {
    Refinement.HasOddHeaders(call) && M.Step(layer, m, call).0.Ok?
  }

  /** The in-memory store looks at the shape of a skill patch before it looks for the skill. */
  ghost predicate ShapeComesFirst(m: M.Mem, call: Call) {
    && call.Update? && call.kind == SkillKind && call.patch.NotAnObject? && ValidName(call.name)
    && M.DraftAt(m, SkillKind, call.name).None?
  }

  lemma MemAnswers(layer: Layer, m: M.Mem, call: Call)
    requires M.Invariant(m) && FsRuns.WellFormedCall(call)
    ensures M.Step(layer, m, call).0
         == match call
            case Create(item, _) =>
              if !ValidName(item.name) then Err(InvalidName(item.name))
              else if M.DraftAt(m, item.Kind(), item.name).Some? then Err(NameConflict(item.Kind(), item.name, layer))
              else Ok(Unit)
            case Update(kind, name, patch) =>
              if !ValidName(name) then Err(InvalidName(name))
              else if ShapeComesFirst(m, call) then Err(ConfigError)
              else if M.DraftAt(m, kind, name).None? then Err(NotFound(kind, name, layer))
              else if patch.NotAnObject? then Err(ConfigError)
              else if SomeFollows(ToMap(patch.entries), M.DraftAt(m, kind, name).value) then Ok(Unit)
              else Err(Validation)
            case Delete(kind, name) =>
              if !ValidName(name) then Err(InvalidName(name))
              else if M.DraftAt(m, kind, name).None? then Err(NotFound(kind, name, layer))
              else Ok(Unit)
            case SetDefaultAgent(_) => Ok(Unit)
  {
    match call
    case Create(item, _) => M.FoundIffPositioned(M.Items(m, item.Kind()), item.name);
    case Update(kind, name, patch) =>
      M.FoundIffPositioned(M.Items(m, kind), name);
      if M.DraftAt(m, kind, name).Some? {
        MemUpdateAnswers(layer, m, kind, name, patch);
      }
    case Delete(kind, name) => M.FoundIffPositioned(M.Items(m, kind), name);
    case SetDefaultAgent(_) =>
  }

  lemma MemUpdateAnswers(layer: Layer, m: M.Mem, kind: Kind, name: string, patch: Patch)
    requires M.Invariant(m) && WellFormed(patch) && M.DraftAt(m, kind, name).Some?
    ensures M.Step(layer, m, Update(kind, name, patch)).0
         == if !ValidName(name) then Err(InvalidName(name))
            else if patch.NotAnObject? then Err(ConfigError)
            else if SomeFollows(ToMap(patch.entries), M.DraftAt(m, kind, name).value) then Ok(Unit)
            else Err(Validation)
  {
    M.GoodItemsOf(m, kind);
    M.FoundIffPositioned(M.Items(m, kind), name);
    Refinement.MemUpdate(layer, m, kind, name, patch);
    if patch.Members? {
      AcceptedIff(ToMap(patch.entries), M.DraftAt(m, kind, name).value);
      assert M.DraftAt(m, kind, name).value.e.Kind() == kind;
    }
  }

  /** An item and what is kept of it can follow the same patches. */
  lemma KeptCanFollow(m: Fields, d: Patches.Draft)
    ensures SomeFollows(m, d) <==> SomeFollows(m, KeptDraft(d))
  {
    AcceptedIff(m, d);
    AcceptedIff(m, KeptDraft(d));
    assert KeptDraft(d).e.Kind() == d.e.Kind();
  }

  /** The file that holds what is kept of an item, under a patch that is an object. */
  lemma KeptAnswers(yaml: YamlCodec, layer: Layer, dir: LayerDir, kind: Kind, name: string,
                    members: seq<(string, Json)>, was: Patches.Draft)
    requires yaml.Lawful() && ValidName(name) && !dir.config.Malformed? && SlotAt(dir, kind, name).Some?
    requires DecodeDraft(yaml, kind, name, SlotAt(dir, kind, name).value) == Some(KeptDraft(was))
    ensures Step(yaml, layer, dir, Update(kind, name, Members(members))).result
         == if SomeFollows(ToMap(members), was) && HeadersAreStrings(kind, ToMap(members)) then Ok(Unit)
            else Err(Validation)
  {
    UpdateAnswers(yaml, layer, dir, kind, name, Members(members));
    KeptCanFollow(ToMap(members), was);
  }

  lemma PatchAgreesIff(yaml: YamlCodec, layer: Layer, dir: LayerDir, m: M.Mem, kind: Kind, name: string,
                       members: seq<(string, Json)>)
    requires yaml.Lawful() && M.Invariant(m) && DistinctKeys(members) && Refinement.AgreeAt(yaml, dir, m, kind, name)
    requires !dir.config.Malformed? && M.DraftAt(m, kind, name).Some? && ValidName(name)
    ensures Step(yaml, layer, dir, Update(kind, name, Members(members))).result
            == M.Step(layer, m, Update(kind, name, Members(members))).0
       <==> !DropsHeaders(layer, m, Update(kind, name, Members(members)))
  {
    var was := M.DraftAt(m, kind, name).value;
    MemUpdateAnswers(layer, m, kind, name, Members(members));
    KeptAnswers(yaml, layer, dir, kind, name, members, was);
  }

  lemma UpdateAgreesIff(yaml: YamlCodec, layer: Layer, dir: LayerDir, m: M.Mem, kind: Kind, name: string, patch: Patch)
    requires yaml.Lawful() && M.Invariant(m) && WellFormed(patch) && Refinement.AgreeAt(yaml, dir, m, kind, name)
    requires !dir.config.Malformed?
    ensures Step(yaml, layer, dir, Update(kind, name, patch)).result == M.Step(layer, m, Update(kind, name, patch)).0
       <==> && !DropsHeaders(layer, m, Update(kind, name, patch))
            && !ShapeComesFirst(m, Update(kind, name, patch))
  {
    if M.DraftAt(m, kind, name).Some? && ValidName(name) && patch.Members? {
      PatchAgreesIff(yaml, layer, dir, m, kind, name, patch.entries);
    } else {
      MemAnswers(layer, m, Update(kind, name, patch));
      UpdateAnswers(yaml, layer, dir, kind, name, patch);
    }
  }

  lemma OtherAnswersAgree(yaml: YamlCodec, layer: Layer, dir: LayerDir, m: M.Mem, call: Call, kind: Kind, name: string)
    requires M.Invariant(m) && Refinement.AgreeAt(yaml, dir, m, kind, name)
    requires !dir.config.Malformed? && dir.cluttered == {}
    requires call == Delete(kind, name) || (call.Create? && call.item.Kind() == kind && call.item.name == name)
    ensures Step(yaml, layer, dir, call).result == M.Step(layer, m, call).0
  {
    MemAnswers(layer, m, call);
    if call.Create? {
      CreateAnswers(yaml, layer, dir, call.item, call.body);
    } else {
      DeleteAnswers(yaml, layer, dir, kind, name);
    }
  }

  /**
   On related stores both answer a call alike, errors included, if and only if it neither brings a
   header that memory would drop, nor updates a skill that is not there with something that is no object.
   */
  lemma AnswersAgreeIff(yaml: YamlCodec, layer: Layer, dir: LayerDir, m: M.Mem, call: Call)
    requires yaml.Lawful() && Refinement.Related(yaml, dir, m) && FsRuns.WellFormedCall(call)
    ensures Step(yaml, layer, dir, call).result == M.Step(layer, m, call).0
       <==> !DropsHeaders(layer, m, call) && !ShapeComesFirst(m, call)
  {
    match call
    case Create(item, _) =>
      assert Refinement.AgreeAt(yaml, dir, m, item.Kind(), item.name);
      OtherAnswersAgree(yaml, layer, dir, m, call, item.Kind(), item.name);
    case Update(kind, name, patch) =>
      assert Refinement.AgreeAt(yaml, dir, m, kind, name);
      UpdateAgreesIff(yaml, layer, dir, m, kind, name, patch);
    case Delete(kind, name) =>
      assert Refinement.AgreeAt(yaml, dir, m, kind, name);
      OtherAnswersAgree(yaml, layer, dir, m, call, kind, name);
    case SetDefaultAgent(name) =>
      MemAnswers(layer, m, call);
  }
}
