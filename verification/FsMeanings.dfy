/** What a created or updated item reads back as, said on the item and the patch that were given. */
module FsMeanings {
  import opened Bytes
  import opened Json
  import opened Domain
  import opened Patches
  import opened Files
  import opened FsStore
  import opened FsSteps
  import opened Meanings
  import Entries
  import EntryPatch
  import FsRuns
  import Frontmatter
  import M = MemStore
  import Refinement
  import Strings

  // ----- what comes back of an item -----

  /** The names, but for one line feed that a codec may drop at the very end. */
  ghost predicate NamesComeBack(given: seq<string>, now: seq<string>) {
    || now == given
    || (&& |now| == |given| > 0 && now[..|now| - 1] == given[..|now| - 1]
        && now[|now| - 1] + "\n" == given[|now| - 1])
  }

  ghost predicate SkillsComeBack(given: SkillSelection, now: SkillSelection) {
    now == given || (given.Named? && now.Named? && NamesComeBack(given.names, now.names))
  }

  ghost predicate AgentComesBack(given: Entity, now: Entity)
    requires given.Agent?
  {
    && now.Agent? && now.name == given.name && now.description == given.description
    && now.mode == given.mode && now.model == given.model
    && NamesComeBack(given.toolsets, now.toolsets) && SkillsComeBack(given.skills, now.skills)
    && Frontmatter.ComesBackAs(given.systemPrompt, now.systemPrompt)
  }

  /** The last selection of each server, in the order of the servers. */
  ghost predicate ToolsetComesBack(given: Entity, now: Entity)
    requires given.Toolset?
  {
    && now.Toolset? && now.name == given.name && now.description == given.description
    && now.prompt == given.prompt && now.localTools == given.localTools
    && StrictlySorted(now.mcp) && forall sel :: sel in now.mcp <==> IsLastOf(given.mcp, sel)
  }

  ghost predicate ModelComesBack(given: Entity, now: Entity)
    requires given.ModelProfile?
  {
    && now.ModelProfile? && now.name == given.name && now.provider == given.provider && now.model == given.model
    && now.maxTokens == given.maxTokens && now.options == given.options
    && now.temperature == if given.temperature == Some(NotFinite) then None else given.temperature
  }

  ghost predicate EntityComesBack(given: Entity, now: Entity) {
    match given
    case Provider(_, _, _, _) => now == given
    case McpServer(_, _, _, _) => now == given
    case ModelProfile(_, _, _, _, _, _) => ModelComesBack(given, now)
    case Toolset(_, _, _, _, _) => ToolsetComesBack(given, now)
    case Agent(_, _, _, _, _, _, _) => AgentComesBack(given, now)
    case SkillMeta(_, _) => now == given
  }

  /** The body of a skill comes back as texts do. */
  ghost predicate ComesBack(given: Draft, now: Draft) {
    && EntityComesBack(given.e, now.e)
    && (if given.e.SkillMeta? && given.body.Some? then
          now.body.Some? && Frontmatter.ComesBackAs(given.body.value, now.body.value)
        else now.body == given.body)
  }

  lemma ChompedNames(names: seq<string>)
    ensures NamesComeBack(names, ChompLast(names))
  {
    if names != [] {
      var last := names[|names| - 1];
      assert ChompLast(names)[..|names| - 1] == names[..|names| - 1];
      assert EndsInLineFeed(last) ==> Chomp(last) + "\n" == last;
    }
  }

  lemma KeptComesBack(d: Draft)
    ensures ComesBack(d, KeptDraft(d)) && ComesBack(d, KeptDraft(ChompedDraft(d)))
  {
    match d.e
    case Toolset(_, _, _, _, _) => NormalMcpMeaning(d.e.mcp);
    case Agent(_, _, _, _, toolsets, skills, prompt) =>
      Frontmatter.ReadBackIff(prompt, Frontmatter.ReadBack(prompt));
      ChompedNames(toolsets);
      if skills.Named? {
        ChompedNames(skills.names);
      }
    case SkillMeta(_, _) =>
      if d.body.Some? {
        Frontmatter.ReadBackIff(d.body.value, Frontmatter.ReadBack(d.body.value));
      }
    case _ =>
  }

  // ----- one layer -----

  /** What a create wrote reads, and comes back field by field. */
  lemma CreatedComesBack(yaml: YamlCodec, item: Entity, body: string)
    requires yaml.Lawful()
    ensures var read := DecodeDraft(yaml, item.Kind(), item.name, SlotOf(yaml, item, body));
            && read.Some?
            && ComesBack(Draft(item, if item.SkillMeta? then Some(body) else None), read.value)
  {
    CreatedReads(yaml, item, body);
    KeptComesBack(NewDraft(item, body));
  }

  /**
   An update of what reads as `was` is accepted exactly when some item follows the patch and no
   header is anything but a string; then that item comes back, field by field.
   */
  lemma UpdatedComesBack(yaml: YamlCodec, layer: Layer, dir: LayerDir, kind: Kind, name: string, patch: Patch,
                         was: Draft)
    requires yaml.Lawful() && SlotAt(dir, kind, name).Some?
    requires DecodeDraft(yaml, kind, name, SlotAt(dir, kind, name).value) == Some(was)
    ensures var out := Step(yaml, layer, dir, Update(kind, name, patch));
            && (out.result.Ok? <==>
                  && ValidName(name) && patch.Members?
                  && SomeFollows(ToMap(patch.entries), was)
                  && EntryPatch.HeadersAreStrings(kind, ToMap(patch.entries)))
            && (out.result.Ok? ==>
                  && SlotAt(out.dir, kind, name).Some?
                  && var read := DecodeDraft(yaml, kind, name, SlotAt(out.dir, kind, name).value);
                  && read.Some?
                  && exists next :: Follows(ToMap(patch.entries), was, next) && ComesBack(next, read.value))
  {
    UpdateReadsBack(yaml, layer, dir, kind, name, patch, was);
    if patch.Members? {
      var m := ToMap(patch.entries);
      AcceptedIff(m, was);
      FollowsIff(m, was, Overwrite(was, m));
      KeptComesBack(Overwrite(was, m));
    }
  }

  /** All skills for null or `"auto"`, none exactly for `"none"`, and for an array just its names. */
  ghost predicate SkillsFollow(v: Json, skills: SkillSelection) {
    && (skills == Auto <==> v == Null || v == Str("auto"))
    && (skills == NoSkills <==> v == Str("none"))
    && (skills.Named? <==> v.Arr?)
    && (skills.Named? ==> exists names :: IsNames(v, names) && NamesComeBack(names, skills.names))
  }

  lemma SkillsOfNext(m: Fields, was: Draft, next: Draft, read: Draft)
    requires was.e.Agent? && "skills" in m && Follows(m, was, next) && ComesBack(next, read)
    ensures read.e.Agent? && SkillsFollow(m["skills"], read.e.skills)
  {
    if next.e.skills.Named? {
      assert IsNames(m["skills"], next.e.skills.names) && NamesComeBack(next.e.skills.names, read.e.skills.names);
    }
  }

  /** The skills of an agent that reads back after an accepted patch with such a member. */
  lemma UpdatedSkills(yaml: YamlCodec, layer: Layer, dir: LayerDir, name: string, entries: seq<(string, Json)>,
                      was: Draft, i: nat)
    requires yaml.Lawful() && SlotAt(dir, AgentKind, name).Some? && DistinctKeys(entries)
    requires DecodeDraft(yaml, AgentKind, name, SlotAt(dir, AgentKind, name).value) == Some(was)
    requires i < |entries| && entries[i].0 == "skills"
    requires Step(yaml, layer, dir, Update(AgentKind, name, Members(entries))).result.Ok?
    ensures var out := Step(yaml, layer, dir, Update(AgentKind, name, Members(entries)));
            && SlotAt(out.dir, AgentKind, name).Some?
            && var read := Decode(yaml, AgentKind, name, SlotAt(out.dir, AgentKind, name).value);
            && read.Some? && read.value.Agent? && SkillsFollow(entries[i].1, read.value.skills)
  {
    UpdatedComesBack(yaml, layer, dir, AgentKind, name, Members(entries), was);
    ToMapAt(entries, i);
    var m := ToMap(entries);
    var slot := SlotAt(Step(yaml, layer, dir, Update(AgentKind, name, Members(entries))).dir, AgentKind, name).value;
    var read := DecodeDraft(yaml, AgentKind, name, slot).value;
    var next :| Follows(m, was, next) && ComesBack(next, read);
    SkillsOfNext(m, was, next, read);
  }

  // ----- what the readers of the store get -----

  /** The file at `layer` is the one that a read of the merged view takes. */
  ghost predicate Shows(s: Store, layer: Layer, kind: Kind, name: string) {
    layer == Workspace || s.workspaceDir.None? || SlotAt(s.workspaceDir.value, kind, name).None?
  }

  lemma CreatedIsOverlay(yaml: YamlCodec, s: Store, layer: Layer, item: Entity, body: string)
    requires StoreStep(yaml, s, layer, Create(item, body)).0.Ok? && Shows(s, layer, item.Kind(), item.name)
    ensures var t := StoreStep(yaml, s, layer, Create(item, body)).1;
            Overlay(t, item.Kind(), item.name) == Some(SlotOf(yaml, item, body))
  {
    CreateEffect(yaml, layer, DirOf(s, layer).value, item, body);
  }

  /** The body that `load_skill` gives of a skill that was just created. */
  lemma CreatedSkillLoads(yaml: YamlCodec, s: Store, layer: Layer, item: Entity, body: string)
    requires yaml.Lawful() && item.SkillMeta?
    requires StoreStep(yaml, s, layer, Create(item, body)).0.Ok? && Shows(s, layer, SkillKind, item.name)
    ensures var loaded := LoadSkillOf(StoreStep(yaml, s, layer, Create(item, body)).1, item.name);
            loaded.Ok? && Frontmatter.ComesBackAs(body, loaded.value)
  {
    CreatedIsOverlay(yaml, s, layer, item, body);
    SkillReadsBack(yaml, item, body);
    Frontmatter.ReadBackIff(body, Frontmatter.ReadBack(body));
  }

  /** What `get_*` finds of an item that was just created on a readable store. */
  lemma CreatedItemIsFound(yaml: YamlCodec, s: Store, layer: Layer, item: Entity, body: string)
    requires yaml.Lawful() && FsRuns.ReadableStore(yaml, s)
    requires StoreStep(yaml, s, layer, Create(item, body)).0.Ok? && Shows(s, layer, item.Kind(), item.name)
    ensures var t := StoreStep(yaml, s, layer, Create(item, body)).1;
            && Listing(yaml, t, item.Kind()).Ok?
            && var found := M.ResolveByName(Listing(yaml, t, item.Kind()).value, item.Kind(), item.name);
            && found.Ok? && EntityComesBack(item, found.value)
  {
    var t := StoreStep(yaml, s, layer, Create(item, body)).1;
    FsRuns.StepKeepsReadable(yaml, layer, DirOf(s, layer).value, Create(item, body));
    CreatedIsOverlay(yaml, s, layer, item, body);
    CreatedComesBack(yaml, item, body);
    Refinement.ResolvedIsOverlay(yaml, t, item.Kind(), item.name);
  }

  /** The text of a skill splits, and `body` is the middle of what stands behind the second fence. */
  ghost predicate HasBody(text: string, body: string) {
    && Frontmatter.SplitOf(text).Parts?
    && exists i: nat, j: nat ::
         Frontmatter.IsMiddle(Frontmatter.SplitOf(text).body, i, j) && body == Frontmatter.SplitOf(text).body[i..j]
  }

  /** What `load_skill` answers of any text, whether its frontmatter parses or not. */
  lemma LoadSkillIff(s: Store, name: string)
    ensures LoadSkillOf(s, name) == Err(UnknownReference(SkillKind, name)) <==> Overlay(s, SkillKind, name).None?
    ensures forall text | Overlay(s, SkillKind, name) == Some(Text(text)) ::
              && (forall body :: LoadSkillOf(s, name) == Ok(body) <==> HasBody(text, body))
              && (LoadSkillOf(s, name) == Err(ConfigError) <==> !Frontmatter.SplitOf(text).Parts?)
  {
    match Overlay(s, SkillKind, name)
    case Some(Text(text)) =>
      if Frontmatter.SplitOf(text).Parts? {
        Frontmatter.TrimIsMiddle(Frontmatter.SplitOf(text).body);
      }
    case _ =>
  }

  /** A listing fails exactly when a `config.yaml` it needs does not parse or a value it shows does not read. */
  lemma ListingIff(yaml: YamlCodec, s: Store, kind: Kind)
    ensures Listing(yaml, s, kind).Ok? <==>
              && (!Entries.IsSection(kind) || Loads(s))
              && forall name | Overlay(s, kind, name).Some? ::
                   Decode(yaml, kind, name, Overlay(s, kind, name).value).Some?
    ensures Listing(yaml, s, kind).Err? ==> Listing(yaml, s, kind) == Err(ConfigError)
  {
    MergedIsOverlay(s, kind);
    if MergedSlots(s, kind).Ok? {
      var slots := MergedSlots(s, kind).value;
      assert forall name :: Overlay(s, kind, name) == if name in slots then Some(slots[name]) else None;
    }
  }

  /** It is in the order of the names. */
  lemma ListingIsSorted(yaml: YamlCodec, s: Store, kind: Kind, i: nat, j: nat)
    requires Listing(yaml, s, kind).Ok? && i < j < |Listing(yaml, s, kind).value|
    ensures Strings.Less(Listing(yaml, s, kind).value[i].name, Listing(yaml, s, kind).value[j].name)
  {
    Refinement.ListedInOrder(yaml, s, kind);
    Strings.InOrderIsSorted(MergedSlots(s, kind).value.Keys);
  }

  /** The layer that names a default agent in front of the other: the workspace, when it does. */
  ghost predicate NamesDefault(s: Store, v: Yaml) {
    if s.workspaceDir.Some? && "agent" in Defaults(s.workspaceDir.value)
    then v == Defaults(s.workspaceDir.value)["agent"]
    else "agent" in Defaults(s.globalDir) && v == Defaults(s.globalDir)["agent"]
  }

  lemma DefaultAgentIff(s: Store)
    ensures forall n :: DefaultAgentOf(s) == Ok(Some(n)) <==> Loads(s) && NamesDefault(s, Str(n))
    ensures DefaultAgentOf(s) == Ok(None) <==> Loads(s) && forall v :: !NamesDefault(s, v)
    ensures DefaultAgentOf(s).Err? ==> DefaultAgentOf(s) == Err(ConfigError)
  {
    var v := OverlayDefault(s, "agent");
    assert v.Some? ==> NamesDefault(s, v.value);
  }

  // ----- the in-memory store -----

  /** An update in memory is accepted exactly when some item follows the patch; that item is then there. */
  lemma MemFollows(layer: Layer, m: M.Mem, kind: Kind, name: string, patch: Patch)
    requires M.Invariant(m) && WellFormed(patch) && M.DraftAt(m, kind, name).Some?
    ensures var was := M.DraftAt(m, kind, name).value;
            var (r, n) := M.Step(layer, m, Update(kind, name, patch));
            && (r.Ok? <==> ValidName(name) && patch.Members? && SomeFollows(ToMap(patch.entries), was))
            && (r.Ok? ==>
                  && M.DraftAt(n, kind, name).Some?
                  && Follows(ToMap(patch.entries), was, M.DraftAt(n, kind, name).value))
  {
    var was := M.DraftAt(m, kind, name).value;
    M.GoodItemsOf(m, kind);
    assert was.e.Kind() == kind;
    Refinement.MemUpdate(layer, m, kind, name, patch);
    if patch.Members? {
      AcceptedIff(ToMap(patch.entries), was);
      FollowsIff(ToMap(patch.entries), was, Overwrite(was, ToMap(patch.entries)));
    }
  }

  /** After runs from empty, each item of the in-memory store is what comes back from the files. */
  lemma RunsComeBack(yaml: YamlCodec, layer: Layer, calls: seq<Call>, kind: Kind, name: string)
    requires yaml.Lawful()
    requires forall c | c in calls :: FsRuns.WellFormedCall(c) && Refinement.CleanCall(c)
    ensures var dir := FsRuns.RunDir(yaml, layer, EMPTY_DIR, calls);
            var m := M.Run(layer, M.EMPTY, Refinement.Accepted(yaml, layer, EMPTY_DIR, calls));
            match M.DraftAt(m, kind, name)
            case None => SlotAt(dir, kind, name).None?
            case Some(d) =>
              && SlotAt(dir, kind, name).Some?
              && var read := DecodeDraft(yaml, kind, name, SlotAt(dir, kind, name).value);
              && read.Some? && ComesBack(d, read.value)
  {
    Refinement.RunRefines(yaml, layer, calls);
    var dir := FsRuns.RunDir(yaml, layer, EMPTY_DIR, calls);
    var m := M.Run(layer, M.EMPTY, Refinement.Accepted(yaml, layer, EMPTY_DIR, calls));
    assert Refinement.AgreeAt(yaml, dir, m, kind, name);
    if M.DraftAt(m, kind, name).Some? {
      KeptComesBack(M.DraftAt(m, kind, name).value);
    }
  }
}
