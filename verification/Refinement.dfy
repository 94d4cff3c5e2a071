/**
 The file store refines the in-memory store: fed the calls that a one-layer file store accepts,
 the in-memory store accepts them too, and both hold the same drafts, up to what the file store
 keeps of a draft. Texts hold no CR LF, and lists of toolset or skill names do not end in a name
 that ends in a line feed.
 */
module Refinement {
  import opened Bytes
  import opened Json
  import opened Domain
  import opened EntryPatch
  import opened Patches
  import opened Files
  import opened FsStore
  import opened FsSteps
  import M = MemStore
  import FsRuns
  import Frontmatter
  import Entries
  import Strings

  // ----- the relation -----

  /** Whichever of the two lists is printed last, it ends in no line feed. */
  predicate ListsClean(a: Entity)
    requires a.Agent?
  {
    !LastEndsInLineFeed(a.toolsets) && (a.skills.Named? ==> !LastEndsInLineFeed(a.skills.names))
  }

  ghost predicate Clean(d: Draft) {
    && (d.e.Agent? ==> !Frontmatter.HasCrLf(d.e.systemPrompt) && ListsClean(d.e))
    && (d.body.Some? ==> !Frontmatter.HasCrLf(d.body.value))
  }

  /** A call whose prompts and bodies hold no CR LF, and whose name lists end in no line feed. */
  ghost predicate CleanCall(call: Call) {
    match call
    case Create(item, body) => Clean(NewDraft(item, body))
    case Update(kind, _, patch) => patch.Members? ==> CleanMembers(kind, ToMap(patch.entries))
    case _ => true
  }

  ghost predicate CleanLists(m: Fields) {
    && ("toolsets" in m && ListValue(m["toolsets"]).Some? ==> !LastEndsInLineFeed(ListValue(m["toolsets"]).value))
    && ("skills" in m && NamesOf(m["skills"]).Some? ==> !LastEndsInLineFeed(NamesOf(m["skills"]).value))
  }

  ghost predicate CleanMembers(kind: Kind, m: Fields) {
    && (kind == AgentKind ==> CleanLists(m))
    && (kind == AgentKind && "system_prompt" in m && m["system_prompt"].Str? ==>
          !Frontmatter.HasCrLf(m["system_prompt"].s))
    && (kind == SkillKind && "body" in m && m["body"].Str? ==> !Frontmatter.HasCrLf(m["body"].s))
  }

  /** Both stores know the name or neither does, and the file reads as what is kept of the item. */
  ghost predicate AgreeAt(yaml: YamlCodec, dir: LayerDir, m: M.Mem, kind: Kind, name: string) {
    match M.DraftAt(m, kind, name)
    case None => SlotAt(dir, kind, name).None?
    case Some(d) =>
      && Clean(d)
      && (kind == SkillKind <==> d.body.Some?)
      && SlotAt(dir, kind, name).Some?
      && DecodeDraft(yaml, kind, name, SlotAt(dir, kind, name).value) == Some(KeptDraft(d))
  }

  ghost predicate DefaultsAgree(dir: LayerDir, m: M.Mem) {
    Entries.Lookup(Defaults(dir), "agent") == match m.defaultAgent case None => None case Some(n) => Some(Str(n))
  }

  ghost predicate Related(yaml: YamlCodec, dir: LayerDir, m: M.Mem) {
    && M.Invariant(m)
    && !dir.config.Malformed? && dir.cluttered == {}
    && DefaultsAgree(dir, m)
    && forall kind, name :: AgreeAt(yaml, dir, m, kind, name)
  }

  // ----- overwriting and keeping commute -----

  lemma ReadBackIsStable(s: string)
    requires !Frontmatter.HasCrLf(s)
    ensures Frontmatter.ReadBack(Frontmatter.ReadBack(s)) == Frontmatter.ReadBack(s)
  {
    Frontmatter.BodyRoundTrip(s);
    Frontmatter.TrimKeepsCrLfFree(s);
    Frontmatter.TrimTrims(s);
    Frontmatter.BodyRoundTrip(Frontmatter.Trim(s));
  }

  lemma ToolsetCommutes(d: Draft, m: Fields)
    requires d.e.Toolset?
    ensures KeptDraft(Overwrite(KeptDraft(d), m)) == KeptDraft(Overwrite(d, m))
  {
    NormalMcpIsStable(d.e.mcp);
  }

  lemma AgentPrompt(d: Draft, prompt: string, m: Fields)
    requires d.e.Agent?
    ensures Overwrite(d.(e := d.e.(systemPrompt := prompt)), m)
         == var o := Overwrite(d, m); o.(e := o.e.(systemPrompt := Pick(m, "system_prompt", StrValue, prompt)))
  {
  }

  lemma ListsStayClean(d: Draft, m: Fields)
    requires d.e.Agent? && ListsClean(d.e) && CleanLists(m)
    ensures ListsClean(Overwrite(d, m).e)
  {
  }

  /** What a clean item with a clean patch reads back as: nothing is dropped. */
  lemma CleanReadsAsKept(d: Draft, m: Fields, r: Option<Draft>)
    requires Clean(d) && CleanMembers(d.e.Kind(), m) && ReadsAs(r, Overwrite(KeptDraft(d), m))
    ensures r == Some(KeptDraft(Overwrite(KeptDraft(d), m)))
  {
    if d.e.Agent? {
      ListsStayClean(KeptDraft(d), m);
    }
    ReadsAsKept(r, Overwrite(KeptDraft(d), m));
  }

  lemma AgentCommutes(d: Draft, m: Fields)
    requires d.e.Agent? && Clean(d) && CleanMembers(AgentKind, m)
    ensures KeptDraft(Overwrite(KeptDraft(d), m)) == KeptDraft(Overwrite(d, m))
    ensures Clean(Overwrite(d, m))
  {
    var kept := Frontmatter.ReadBack(d.e.systemPrompt);
    ListsStayClean(d, m);
    AgentPrompt(d, d.e.systemPrompt, m);
    AgentPrompt(d, kept, m);
    ReadBackIsStable(d.e.systemPrompt);
    assert d.(e := d.e.(systemPrompt := d.e.systemPrompt)) == d;
  }

  lemma SkillBodyOf(d: Draft, body: string, m: Fields)
    requires d.e.SkillMeta?
    ensures Overwrite(d.(body := Some(body)), m)
         == Overwrite(d, m).(body := Some(Pick(m, "body", StrValue, body)))
  {
  }

  lemma SkillCommutes(d: Draft, m: Fields)
    requires d.e.SkillMeta? && d.body.Some? && Clean(d) && CleanMembers(SkillKind, m)
    ensures KeptDraft(Overwrite(KeptDraft(d), m)) == KeptDraft(Overwrite(d, m))
    ensures Clean(Overwrite(d, m))
  {
    var body, kept := d.body.value, Frontmatter.ReadBack(d.body.value);
    SkillBodyOf(d, body, m);
    SkillBodyOf(d, kept, m);
    ReadBackIsStable(body);
    assert d.(body := Some(body)) == d && d.(body := Some(kept)) == KeptDraft(d);
    SkillKept(Overwrite(d, m), Pick(m, "body", StrValue, kept), Pick(m, "body", StrValue, body));
  }

  lemma SkillKept(d: Draft, a: string, b: string)
    requires d.e.SkillMeta? && Frontmatter.ReadBack(a) == Frontmatter.ReadBack(b)
    ensures KeptDraft(d.(body := Some(a))) == KeptDraft(d.(body := Some(b)))
  {
  }

  lemma EntryCommutes(d: Draft, m: Fields)
    requires d.e.Provider? || d.e.ModelProfile? || d.e.McpServer?
    ensures KeptDraft(Overwrite(KeptDraft(d), m)) == KeptDraft(Overwrite(d, m))
  {
  }

  lemma KeptCommutes(d: Draft, m: Fields)
    requires Clean(d) && CleanMembers(d.e.Kind(), m)
    requires d.e.SkillMeta? <==> d.body.Some?
    ensures KeptDraft(Overwrite(KeptDraft(d), m)) == KeptDraft(Overwrite(d, m))
    ensures Clean(Overwrite(d, m))
  {
    match d.e
    case Toolset(_, _, _, _, _) => ToolsetCommutes(d, m);
    case Agent(_, _, _, _, _, _, _) => AgentCommutes(d, m);
    case SkillMeta(_, _) => SkillCommutes(d, m);
    case _ => EntryCommutes(d, m);
  }

  // ----- the in-memory step, name by name -----

  lemma PushedDraft(items: seq<Entity>, bodies: map<string, string>, item: Entity, body: string, x: string)
    requires UniqueNames(items) && M.Position(items, item.name).None?
    ensures var after := if item.SkillMeta? then bodies[item.name := body] else bodies;
            M.DraftIn(items + [item], after, item.Kind(), x)
            == if x == item.name then Some(NewDraft(item, body)) else M.DraftIn(items, bodies, item.Kind(), x)
  {
    M.FindAfterPush(items, item, x);
  }

  lemma MemCreate(layer: Layer, m: M.Mem, item: Entity, body: string)
    requires M.Invariant(m)
    requires ValidName(item.name) && M.DraftAt(m, item.Kind(), item.name).None?
    ensures var (r, n) := M.Step(layer, m, Create(item, body));
            && r.Ok? && n.defaultAgent == m.defaultAgent
            && forall k, x ::
                 M.DraftAt(n, k, x)
                 == if k == item.Kind() && x == item.name then Some(NewDraft(item, body)) else M.DraftAt(m, k, x)
  {
    var kind := item.Kind();
    var items := M.Items(m, kind);
    var (r, n) := M.Step(layer, m, Create(item, body));
    M.GoodItemsOf(m, kind);
    M.FoundIffPositioned(items, item.name);
    forall k, x
      ensures M.DraftAt(n, k, x)
           == if k == kind && x == item.name then Some(NewDraft(item, body)) else M.DraftAt(m, k, x)
    {
      M.OtherItems(m, kind, items + [item], k);
      assert M.Items(n, k) == M.Items(M.WithItems(m, kind, items + [item]), k);
      PushedDraft(items, m.skillBodies, item, body, x);
    }
  }

  lemma MemUpdate(layer: Layer, m: M.Mem, kind: Kind, name: string, patch: Patch)
    requires M.Invariant(m) && WellFormed(patch) && M.DraftAt(m, kind, name).Some?
    ensures var (r, n) := M.Step(layer, m, Update(kind, name, patch));
            && (r.Ok? <==> ValidName(name) && patch.Members? && AcceptsAll(kind, ToMap(patch.entries)))
            && n.defaultAgent == m.defaultAgent
            && (r.Ok? ==>
                  forall k, x :: M.DraftAt(n, k, x)
                                 == if k == kind && x == name
                                    then Some(Overwrite(M.DraftAt(m, kind, name).value, ToMap(patch.entries)))
                                    else M.DraftAt(m, k, x))
  {
    var (r, n) := M.Step(layer, m, Update(kind, name, patch));
    M.GoodItemsOf(m, kind);
    if ValidName(name) && patch.Members? {
      var items, i := M.Items(m, kind), M.Position(M.Items(m, kind), name).value;
      var start := Draft(items[i], None);
      assert start.e.Kind() == kind;
      var p := PatchAll(start, patch.entries);
      PatchAllIsOverwrite(start, patch.entries);
      if p.ok {
        M.OnlySkillsGetBodies(start, patch.entries);
        M.OverwriteKeepsBody(items[i], M.DraftAt(m, kind, name).value.body, ToMap(patch.entries));
        MemReplaced(m, kind, name, i, p);
      }
    }
  }

  lemma ReplacedDraft(items: seq<Entity>, bodies: map<string, string>, kind: Kind, i: nat, d: Draft, x: string)
    requires UniqueNames(items) && i < |items| && items[i].name == d.e.name
    requires d.body.Some? ==> kind == SkillKind
    ensures var after := if d.body.Some? then bodies[d.e.name := d.body.value] else bodies;
            M.DraftIn(items[i := d.e], after, kind, x)
            == if x != d.e.name then M.DraftIn(items, bodies, kind, x)
               else Some(Draft(d.e, if d.body.Some? then d.body
                                    else if kind == SkillKind && x in bodies then Some(bodies[x]) else None))
  {
    M.FindAfterReplace(items, i, d.e, x);
  }

  lemma MemReplaced(m: M.Mem, kind: Kind, name: string, i: nat, p: Progress)
    requires M.Invariant(m) && M.Position(M.Items(m, kind), name) == Some(i)
    requires p.draft.e.name == name && (p.draft.body.Some? ==> kind == SkillKind)
    ensures var n := M.Patched(m, kind, i, p);
            forall k, x :: M.DraftAt(n, k, x)
                           == if k == kind && x == name
                              then Some(Draft(p.draft.e, if p.draft.body.Some? then p.draft.body
                                                         else M.DraftAt(m, kind, name).value.body))
                              else M.DraftAt(m, k, x)
  {
    var n := M.Patched(m, kind, i, p);
    var was := M.DraftAt(m, kind, name);
    forall k, x
      ensures M.DraftAt(n, k, x)
           == if k == kind && x == name
              then Some(Draft(p.draft.e, if p.draft.body.Some? then p.draft.body else was.value.body))
              else M.DraftAt(m, k, x)
    {
      if k == kind {
        ReplacedHere(m, kind, name, i, p, x);
      } else {
        ReplacedElsewhere(m, kind, i, p, k, x);
      }
    }
  }

  lemma ReplacedHere(m: M.Mem, kind: Kind, name: string, i: nat, p: Progress, x: string)
    requires M.Invariant(m) && M.Position(M.Items(m, kind), name) == Some(i)
    requires p.draft.e.name == name && (p.draft.body.Some? ==> kind == SkillKind)
    ensures M.DraftAt(m, kind, name).Some?
    ensures M.DraftAt(M.Patched(m, kind, i, p), kind, x)
         == if x == name
            then Some(Draft(p.draft.e, if p.draft.body.Some? then p.draft.body
                                       else M.DraftAt(m, kind, name).value.body))
            else M.DraftAt(m, kind, x)
  {
    var items := M.Items(m, kind);
    M.GoodItemsOf(m, kind);
    M.OtherItems(m, kind, items[i := p.draft.e], kind);
    ReplacedDraft(items, m.skillBodies, kind, i, p.draft, x);
  }

  lemma ReplacedElsewhere(m: M.Mem, kind: Kind, i: nat, p: Progress, k: Kind, x: string)
    requires i < |M.Items(m, kind)| && k != kind && (p.draft.body.Some? ==> kind == SkillKind)
    ensures M.DraftAt(M.Patched(m, kind, i, p), k, x) == M.DraftAt(m, k, x)
  {
    M.OtherItems(m, kind, M.Items(m, kind)[i := p.draft.e], k);
  }

  lemma RemovedDraft(items: seq<Entity>, bodies: map<string, string>, kind: Kind, i: nat, x: string)
    requires UniqueNames(items) && i < |items|
    ensures var after := if kind == SkillKind then bodies - {items[i].name} else bodies;
            M.DraftIn(M.Without(items, i), after, kind, x)
            == if x == items[i].name then None else M.DraftIn(items, bodies, kind, x)
  {
    M.FindAfterRemove(items, i, x);
  }

  lemma RemovedAt(layer: Layer, m: M.Mem, kind: Kind, name: string, k: Kind, x: string)
    requires M.Invariant(m) && ValidName(name) && M.Position(M.Items(m, kind), name).Some?
    ensures M.DraftAt(M.Step(layer, m, Delete(kind, name)).1, k, x)
         == if k == kind && x == name then None else M.DraftAt(m, k, x)
  {
    var n := M.Step(layer, m, Delete(kind, name)).1;
    var items := M.Items(m, kind);
    var i := M.Position(items, name).value;
    M.GoodItemsOf(m, kind);
    M.OtherItems(m, kind, M.Without(items, i), k);
    assert M.Items(n, k) == M.Items(M.WithItems(m, kind, M.Without(items, i)), k);
    RemovedDraft(items, m.skillBodies, kind, i, x);
  }

  lemma MemDelete(layer: Layer, m: M.Mem, kind: Kind, name: string)
    requires M.Invariant(m) && ValidName(name) && M.DraftAt(m, kind, name).Some?
    ensures var (r, n) := M.Step(layer, m, Delete(kind, name));
            && r.Ok? && n.defaultAgent == m.defaultAgent
            && forall k, x :: M.DraftAt(n, k, x) == if k == kind && x == name then None else M.DraftAt(m, k, x)
  {
    var n := M.Step(layer, m, Delete(kind, name)).1;
    M.FoundIffPositioned(M.Items(m, kind), name);
    forall k, x ensures M.DraftAt(n, k, x) == if k == kind && x == name then None else M.DraftAt(m, k, x) {
      RemovedAt(layer, m, kind, name, k, x);
    }
  }

  lemma MemSetDefault(layer: Layer, m: M.Mem, name: string)
    ensures var (r, n) := M.Step(layer, m, SetDefaultAgent(name));
            && r.Ok? && n.defaultAgent == Some(name)
            && forall k, x :: M.DraftAt(n, k, x) == M.DraftAt(m, k, x)
  {
    var n := M.Step(layer, m, SetDefaultAgent(name)).1;
    forall k, x ensures M.DraftAt(n, k, x) == M.DraftAt(m, k, x) {
      assert M.Items(n, k) == M.Items(m, k);
    }
  }

  // ----- one call on both stores -----

  /** The calls that the in-memory store accepts and the file store refuses. */
  ghost predicate HasOddHeaders(call: Call) {
    call.Update? && call.patch.Members? && !HeadersAreStrings(call.kind, ToMap(call.patch.entries))
  }

  lemma AgreeButOne(yaml: YamlCodec, dir: LayerDir, m: M.Mem, dir': LayerDir, m': M.Mem, kind: Kind, name: string)
    requires Related(yaml, dir, m) && M.Invariant(m')
    requires SameBut(dir, dir', kind, name) && m'.defaultAgent == m.defaultAgent
    requires forall k, x | k != kind || x != name :: M.DraftAt(m', k, x) == M.DraftAt(m, k, x)
    requires AgreeAt(yaml, dir', m', kind, name)
    ensures Related(yaml, dir', m')
  {
    forall k, x ensures AgreeAt(yaml, dir', m', k, x) {
      if k != kind || x != name {
        assert AgreeAt(yaml, dir, m, k, x);
        assert SlotAt(dir', k, x) == SlotAt(dir, k, x);
        assert M.DraftAt(m', k, x) == M.DraftAt(m, k, x);
      }
    }
  }

  lemma CreateRefines(yaml: YamlCodec, layer: Layer, dir: LayerDir, m: M.Mem, item: Entity, body: string)
    requires yaml.Lawful() && Related(yaml, dir, m) && Clean(NewDraft(item, body))
    ensures var out := Step(yaml, layer, dir, Create(item, body));
            var (r, n) := M.Step(layer, m, Create(item, body));
            && (out.result.Ok? <==> r.Ok?)
            && (out.result.Ok? ==> Related(yaml, out.dir, n))
  {
    var out := Step(yaml, layer, dir, Create(item, body));
    CreateEffect(yaml, layer, dir, item, body);
    assert AgreeAt(yaml, dir, m, item.Kind(), item.name);
    M.FoundIffPositioned(M.Items(m, item.Kind()), item.name);
    if out.result.Ok? {
      var n := M.Step(layer, m, Create(item, body)).1;
      MemCreate(layer, m, item, body);
      M.StepKeepsInvariant(layer, m, Create(item, body));
      CreatedReads(yaml, item, body);
      ReadsAsKept(DecodeDraft(yaml, item.Kind(), item.name, SlotOf(yaml, item, body)), NewDraft(item, body));
      AgreeButOne(yaml, dir, m, out.dir, n, item.Kind(), item.name);
    }
  }

  lemma UpdateRefines(yaml: YamlCodec, layer: Layer, dir: LayerDir, m: M.Mem, kind: Kind, name: string, patch: Patch)
    requires yaml.Lawful() && Related(yaml, dir, m) && WellFormed(patch)
    requires patch.Members? ==> CleanMembers(kind, ToMap(patch.entries))
    ensures var out := Step(yaml, layer, dir, Update(kind, name, patch));
            var (r, n) := M.Step(layer, m, Update(kind, name, patch));
            && (out.result.Ok? <==> r.Ok? && !HasOddHeaders(Update(kind, name, patch)))
            && (out.result.Ok? ==> Related(yaml, out.dir, n))
  {
    var out := Step(yaml, layer, dir, Update(kind, name, patch));
    var n := M.Step(layer, m, Update(kind, name, patch)).1;
    UpdateEffect(yaml, layer, dir, kind, name, patch);
    assert AgreeAt(yaml, dir, m, kind, name);
    M.FoundIffPositioned(M.Items(m, kind), name);
    if M.DraftAt(m, kind, name).Some? {
      var d := M.DraftAt(m, kind, name).value;
      MemUpdate(layer, m, kind, name, patch);
      UpdateReadsBack(yaml, layer, dir, kind, name, patch, KeptDraft(d));
      if out.result.Ok? {
        var members := ToMap(patch.entries);
        M.GoodItemsOf(m, kind);
        assert d.e.Kind() == kind;
        CleanReadsAsKept(d, members, DecodeDraft(yaml, kind, name, SlotAt(out.dir, kind, name).value));
        KeptCommutes(d, members);
        M.StepKeepsInvariant(layer, m, Update(kind, name, patch));
        assert AgreeAt(yaml, out.dir, n, kind, name);
        AgreeButOne(yaml, dir, m, out.dir, n, kind, name);
      }
    }
  }

  lemma DeleteRefines(yaml: YamlCodec, layer: Layer, dir: LayerDir, m: M.Mem, kind: Kind, name: string)
    requires yaml.Lawful() && Related(yaml, dir, m)
    ensures var out := Step(yaml, layer, dir, Delete(kind, name));
            var (r, n) := M.Step(layer, m, Delete(kind, name));
            && (out.result.Ok? <==> r.Ok?)
            && (out.result.Ok? ==> Related(yaml, out.dir, n))
  {
    var out := Step(yaml, layer, dir, Delete(kind, name));
    DeleteEffect(yaml, layer, dir, kind, name);
    assert AgreeAt(yaml, dir, m, kind, name);
    M.FoundIffPositioned(M.Items(m, kind), name);
    if out.result.Ok? {
      MemDelete(layer, m, kind, name);
      M.StepKeepsInvariant(layer, m, Delete(kind, name));
      AgreeButOne(yaml, dir, m, out.dir, M.Step(layer, m, Delete(kind, name)).1, kind, name);
    }
  }

  lemma SetDefaultRefines(yaml: YamlCodec, layer: Layer, dir: LayerDir, m: M.Mem, name: string)
    requires Related(yaml, dir, m)
    ensures var out := Step(yaml, layer, dir, SetDefaultAgent(name));
            var (r, n) := M.Step(layer, m, SetDefaultAgent(name));
            out.result.Ok? && r.Ok? && Related(yaml, out.dir, n)
  {
    var out := Step(yaml, layer, dir, SetDefaultAgent(name));
    var n := M.Step(layer, m, SetDefaultAgent(name)).1;
    SetDefaultEffect(yaml, layer, dir, name);
    MemSetDefault(layer, m, name);
    M.StepKeepsInvariant(layer, m, SetDefaultAgent(name));
    forall k, x ensures AgreeAt(yaml, out.dir, n, k, x) {
      assert AgreeAt(yaml, dir, m, k, x);
    }
  }

  /**
   On related stores the file store accepts exactly the calls that the in-memory store accepts
   and that bring no header value but strings; an accepted call keeps the stores related, a
   refused one does not touch the files.
   */
  lemma StepRefines(yaml: YamlCodec, layer: Layer, dir: LayerDir, m: M.Mem, call: Call)
    requires yaml.Lawful() && Related(yaml, dir, m)
    requires FsRuns.WellFormedCall(call) && CleanCall(call)
    ensures var out := Step(yaml, layer, dir, call);
            var (r, n) := M.Step(layer, m, call);
            && (out.result.Ok? <==> r.Ok? && !HasOddHeaders(call))
            && (out.result.Ok? ==> Related(yaml, out.dir, n))
            && (out.result.Err? ==> out.dir == dir)
  {
    if Step(yaml, layer, dir, call).result.Err? {
      FsRuns.RefusedChangesIff(yaml, layer, dir, call);
    }
    match call
    case Create(item, body) => CreateRefines(yaml, layer, dir, m, item, body);
    case Update(kind, name, patch) => UpdateRefines(yaml, layer, dir, m, kind, name, patch);
    case Delete(kind, name) => DeleteRefines(yaml, layer, dir, m, kind, name);
    case SetDefaultAgent(name) => SetDefaultRefines(yaml, layer, dir, m, name);
  }

  // ----- runs from empty -----

  /** The calls of a run that the file store accepted, in their order. */
  ghost function Accepted(yaml: YamlCodec, layer: Layer, dir: LayerDir, calls: seq<Call>): seq<Call> {
    if calls == [] then []
    else
      var front, last := calls[..|calls| - 1], calls[|calls| - 1];
      var before := FsRuns.RunDir(yaml, layer, dir, front);
      Accepted(yaml, layer, dir, front)
      + if Step(yaml, layer, before, last).result.Ok? then [last] else []
  }

  ghost predicate AllSucceed(layer: Layer, m: M.Mem, calls: seq<Call>) {
    forall i | 0 <= i < |calls| :: M.Step(layer, M.Run(layer, m, calls[..i]), calls[i]).0.Ok?
  }

  lemma EmptyIsRelated(yaml: YamlCodec)
    ensures Related(yaml, EMPTY_DIR, M.EMPTY)
  {
    forall kind, name ensures AgreeAt(yaml, EMPTY_DIR, M.EMPTY, kind, name) {
      assert M.Items(M.EMPTY, kind) == [];
    }
  }

  /** Fed the accepted calls, the in-memory store accepts each and ends up related. */
  lemma {:induction false} RunRefines(yaml: YamlCodec, layer: Layer, calls: seq<Call>)
    requires yaml.Lawful()
    requires forall c | c in calls :: FsRuns.WellFormedCall(c) && CleanCall(c)
    ensures var accepted := Accepted(yaml, layer, EMPTY_DIR, calls);
            && AllSucceed(layer, M.EMPTY, accepted)
            && Related(yaml, FsRuns.RunDir(yaml, layer, EMPTY_DIR, calls), M.Run(layer, M.EMPTY, accepted))
  {
    if calls == [] {
      EmptyIsRelated(yaml);
    } else {
      var front, last := calls[..|calls| - 1], calls[|calls| - 1];
      assert calls == front + [last];
      RunRefines(yaml, layer, front);
      var before := FsRuns.RunDir(yaml, layer, EMPTY_DIR, front);
      var fed := Accepted(yaml, layer, EMPTY_DIR, front);
      var m := M.Run(layer, M.EMPTY, fed);
      StepRefines(yaml, layer, before, m, last);
      if Step(yaml, layer, before, last).result.Ok? {
        FeedOne(layer, fed, last);
      } else {
        assert fed + [] == fed;
      }
    }
  }

  lemma FeedOne(layer: Layer, fed: seq<Call>, last: Call)
    requires AllSucceed(layer, M.EMPTY, fed)
    requires M.Step(layer, M.Run(layer, M.EMPTY, fed), last).0.Ok?
    ensures AllSucceed(layer, M.EMPTY, fed + [last])
    ensures M.Run(layer, M.EMPTY, fed + [last]) == M.Step(layer, M.Run(layer, M.EMPTY, fed), last).1
  {
    var all := fed + [last];
    assert all[..|fed|] == fed;
    forall i | 0 <= i < |all| ensures M.Step(layer, M.Run(layer, M.EMPTY, all[..i]), all[i]).0.Ok? {
      if i < |fed| {
        assert all[..i] == fed[..i];
      }
    }
  }

  /** What the file store shows of a clean item: trimmed prompts, normal servers, finite temperatures. */
  function ShownEntity(e: Entity): Entity {
    match e
    case ModelProfile(_, _, _, _, _, _) => Entries.KeptEntry(e)
    case Toolset(_, _, _, _, _) => e.(mcp := NormalMcp(e.mcp))
    case Agent(_, _, _, _, _, _, _) => e.(systemPrompt := Frontmatter.Trim(e.systemPrompt))
    case _ => e
  }

  /** A successful listing goes through the slots in the order of their names. */
  lemma ListedInOrder(yaml: YamlCodec, s: Store, kind: Kind)
    requires Listing(yaml, s, kind).Ok?
    ensures MergedSlots(s, kind).Ok?
    ensures var slots := MergedSlots(s, kind).value;
            var names := Strings.InOrder(slots.Keys);
            var listed := Listing(yaml, s, kind).value;
            && |listed| == |names| && UniqueNames(listed)
            && (forall i | 0 <= i < |names| ::
                  names[i] in slots && Decode(yaml, kind, names[i], slots[names[i]]) == Some(listed[i])
                  && listed[i].name == names[i])
  {
    var slots := MergedSlots(s, kind).value;
    var names := Strings.InOrder(slots.Keys);
    var listed := Listing(yaml, s, kind).value;
    Strings.InOrderIsSorted(slots.Keys);
    forall i | 0 <= i < |names|
      ensures names[i] in slots && Decode(yaml, kind, names[i], slots[names[i]]) == Some(listed[i])
      ensures listed[i].name == names[i]
    {
      assert names[i] in names;
    }
    SortedNamesAreUnique(listed, names);
  }

  lemma SortedNamesAreUnique(items: seq<Entity>, names: seq<string>)
    requires |items| == |names| && Strings.StrictlySorted(names)
    requires forall i | 0 <= i < |names| :: items[i].name == names[i]
    ensures UniqueNames(items)
  {
    forall i, j | 0 <= i < j < |items| ensures items[i].name != items[j].name {
      assert Strings.Less(names[i], names[j]);
    }
  }

  /** A successful listing finds under each name what the overlay holds there, once. */
  lemma ListingFinds(yaml: YamlCodec, s: Store, kind: Kind, name: string)
    requires Listing(yaml, s, kind).Ok?
    ensures UniqueNames(Listing(yaml, s, kind).value)
    ensures M.Find(Listing(yaml, s, kind).value, name)
         == match Overlay(s, kind, name) case None => None case Some(slot) => Decode(yaml, kind, name, slot)
  {
    MergedIsOverlay(s, kind);
    var slots := MergedSlots(s, kind).value;
    var names := Strings.InOrder(slots.Keys);
    var listed := Listing(yaml, s, kind).value;
    ListedInOrder(yaml, s, kind);
    if name in slots {
      assert name in names;
      var i :| 0 <= i < |names| && names[i] == name;
      M.PositionIs(listed, i);
    } else {
      M.FoundIffPositioned(listed, name);
    }
  }

  /**
   `get_*` on a readable store: the entity that the overlay holds under the name, or that it is
   unknown, and never that it is there twice.
   */
  lemma ResolvedIsOverlay(yaml: YamlCodec, s: Store, kind: Kind, name: string)
    requires FsRuns.ReadableStore(yaml, s)
    ensures Listing(yaml, s, kind).Ok?
    ensures M.ResolveByName(Listing(yaml, s, kind).value, kind, name)
         == match Overlay(s, kind, name)
            case None => Err(UnknownReference(kind, name))
            case Some(slot) =>
              (match Decode(yaml, kind, name, slot) case Some(e) => Ok(e) case None => Err(ConfigError))
    ensures Overlay(s, kind, name).Some? ==> Decode(yaml, kind, name, Overlay(s, kind, name).value).Some?
  {
    FsRuns.ReadsSucceed(yaml, s);
    FsRuns.OverlayReads(yaml, s, kind, name);
    ListingFinds(yaml, s, kind, name);
    M.ResolvesUnique(Listing(yaml, s, kind).value, kind, name);
  }

  /**
   The reads of related stores: as maps from names the file store lists what it shows of the
   items, skill bodies come trimmed, and the default agent is the same.
   */
  lemma RelatedReads(yaml: YamlCodec, dir: LayerDir, m: M.Mem, kind: Kind, name: string)
    requires Related(yaml, dir, m)
    ensures SameReads(yaml, Store(dir, None), m, kind, name)
  {
    RelatedLists(yaml, dir, m, kind);
    RelatedFinds(yaml, dir, m, kind, name);
    SkillBodiesAgree(yaml, dir, m, name);
    RelatedDefaults(dir, m);
    ListingFinds(yaml, Store(dir, None), kind, name);
  }

  lemma RelatedDefaults(dir: LayerDir, m: M.Mem)
    requires !dir.config.Malformed? && DefaultsAgree(dir, m)
    ensures DefaultAgentOf(Store(dir, None)) == Ok(m.defaultAgent)
  {
    assert OverlayDefault(Store(dir, None), "agent") == Entries.Lookup(Defaults(dir), "agent");
  }

  lemma KeptIsShown(d: Draft)
    requires Clean(d)
    ensures KeptDraft(d).e == ShownEntity(d.e)
  {
    if d.e.Agent? {
      Frontmatter.BodyRoundTrip(d.e.systemPrompt);
    }
  }

  lemma RelatedFinds(yaml: YamlCodec, dir: LayerDir, m: M.Mem, kind: Kind, name: string)
    requires Related(yaml, dir, m) && Listing(yaml, Store(dir, None), kind).Ok?
    ensures M.Find(Listing(yaml, Store(dir, None), kind).value, name)
         == match M.Find(M.Items(m, kind), name) case None => None case Some(e) => Some(ShownEntity(e))
  {
    ListingFinds(yaml, Store(dir, None), kind, name);
    assert Overlay(Store(dir, None), kind, name) == SlotAt(dir, kind, name);
    assert AgreeAt(yaml, dir, m, kind, name);
    if M.DraftAt(m, kind, name).Some? {
      KeptIsShown(M.DraftAt(m, kind, name).value);
    }
  }

  ghost predicate SameReads(yaml: YamlCodec, s: Store, m: M.Mem, kind: Kind, name: string) {
    && Listing(yaml, s, kind).Ok?
    && UniqueNames(Listing(yaml, s, kind).value)
    && M.Find(Listing(yaml, s, kind).value, name)
       == (match M.Find(M.Items(m, kind), name) case None => None case Some(e) => Some(ShownEntity(e)))
    && (match M.LoadSkillOf(m, name)
        case Ok(body) => LoadSkillOf(s, name) == Ok(Frontmatter.Trim(body))
        case Err(e) => LoadSkillOf(s, name) == Err(e))
    && DefaultAgentOf(s) == Ok(m.defaultAgent)
  }

  lemma RelatedLists(yaml: YamlCodec, dir: LayerDir, m: M.Mem, kind: Kind)
    requires Related(yaml, dir, m)
    ensures Listing(yaml, Store(dir, None), kind).Ok?
  {
    var s := Store(dir, None);
    MergedIsOverlay(s, kind);
    var slots := MergedSlots(s, kind).value;
    forall n | n in slots ensures Decode(yaml, kind, n, slots[n]).Some? {
      assert Overlay(s, kind, n) == Some(slots[n]);
      assert AgreeAt(yaml, dir, m, kind, n);
    }
  }

  lemma SkillBodiesAgree(yaml: YamlCodec, dir: LayerDir, m: M.Mem, name: string)
    requires Related(yaml, dir, m)
    ensures match M.LoadSkillOf(m, name)
            case Ok(body) => LoadSkillOf(Store(dir, None), name) == Ok(Frontmatter.Trim(body))
            case Err(e) => LoadSkillOf(Store(dir, None), name) == Err(e)
  {
    assert AgreeAt(yaml, dir, m, SkillKind, name);
    M.FoundIffPositioned(m.skills, name);
    assert M.Items(m, SkillKind) == m.skills;
    if name in m.skillBodies {
      Frontmatter.BodyRoundTrip(m.skillBodies[name]);
    }
  }

  /**
   Start both stores empty, give the file store any calls and the in-memory store those that the
   file store accepted: it accepts each of them, and then both stores read the same.
   */
  lemma RunsAgree(yaml: YamlCodec, layer: Layer, calls: seq<Call>, kind: Kind, name: string)
    requires yaml.Lawful()
    requires forall c | c in calls :: FsRuns.WellFormedCall(c) && CleanCall(c)
    ensures var accepted := Accepted(yaml, layer, EMPTY_DIR, calls);
            && AllSucceed(layer, M.EMPTY, accepted)
            && SameReads(yaml, Store(FsRuns.RunDir(yaml, layer, EMPTY_DIR, calls), None),
                         M.Run(layer, M.EMPTY, accepted), kind, name)
  {
    RunRefines(yaml, layer, calls);
    RelatedReads(yaml, FsRuns.RunDir(yaml, layer, EMPTY_DIR, calls),
                 M.Run(layer, M.EMPTY, Accepted(yaml, layer, EMPTY_DIR, calls)), kind, name);
  }

  /** A patch of one header whose value is a number. */
  ghost function OddPatch(): Patch { Members([("headers", Obj(map["K" := Num(Int(5))]))]) }

  lemma OddPatchFacts()
    ensures WellFormed(OddPatch()) && OddPatch().Members?
    ensures AcceptsAll(McpKind, ToMap(OddPatch().entries)) && !HeadersAreStrings(McpKind, ToMap(OddPatch().entries))
  {
    var v := Obj(map["K" := Num(Int(5))]);
    assert [("headers", v)][..0] == [];
    assert ToMap([("headers", v)]) == map["headers" := v];
    assert "K" in v.fields && !v.fields["K"].Str?;
  }

  /** The converse fails: a header that is not a string is dropped in memory and refused on file. */
  lemma OddHeadersPart(yaml: YamlCodec, layer: Layer, dir: LayerDir, m: M.Mem, name: string)
    requires yaml.Lawful() && Related(yaml, dir, m)
    requires ValidName(name) && M.DraftAt(m, McpKind, name).Some?
    ensures var call := Update(McpKind, name, OddPatch());
            && M.Step(layer, m, call).0.Ok?
            && Step(yaml, layer, dir, call).result.Err?
            && Step(yaml, layer, dir, call).dir == dir
  {
    OddPatchFacts();
    var patch := OddPatch();
    MemUpdate(layer, m, McpKind, name, patch);
    StepRefines(yaml, layer, dir, m, Update(McpKind, name, patch));
  }
}
