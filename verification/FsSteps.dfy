/** What one call does to one layer of the file store: where it writes, and how the result reads. */
module FsSteps {
  import opened Bytes
  import opened Json
  import opened Domain
  import opened Entries
  import opened EntryPatch
  import opened Patches
  import opened Files
  import opened FsStore
  import Frontmatter

  /** `before` and `after` hold the same everywhere but at one name of one kind. */
  ghost predicate SameBut(before: LayerDir, after: LayerDir, kind: Kind, name: string) {
    && (forall k, n | k != kind || n != name :: SlotAt(after, k, n) == SlotAt(before, k, n))
    && Defaults(after) == Defaults(before)
    && after.cluttered == before.cluttered
    && (after.config.Malformed? <==> before.config.Malformed?)
  }

  lemma WriteEntry(dir: LayerDir, raw: RawConfig, kind: Kind, f: YamlFields, name: string)
    requires IsSection(kind) && LoadConfig(dir) == Ok(raw)
    requires forall n | n != name :: Lookup(f, n) == Lookup(Section(raw, kind), n)
    ensures SameBut(dir, WithEntry(dir, raw, kind, f), kind, name)
    ensures SlotAt(WithEntry(dir, raw, kind, f), kind, name) == if name in f then Some(Entry(f[name])) else None
  {
    var after := WithEntry(dir, raw, kind, f);
    assert LoadConfig(after) == Ok(WithSection(raw, kind, f));
    forall k, n | k != kind || n != name
      ensures SlotAt(after, k, n) == SlotAt(dir, k, n)
    {
      if k == kind {
        assert Lookup(f, n) == Lookup(Section(raw, kind), n);
      }
    }
  }

  lemma WriteText(dir: LayerDir, kind: Kind, t: map<string, string>, name: string)
    requires !IsSection(kind)
    requires forall n | n != name :: n in t <==> n in Texts(dir, kind)
    requires forall n | n != name && n in t :: t[n] == Texts(dir, kind)[n]
    ensures SameBut(dir, WithTexts(dir, kind, t), kind, name)
    ensures SlotAt(WithTexts(dir, kind, t), kind, name) == if name in t then Some(Text(t[name])) else None
  {
    var after := WithTexts(dir, kind, t);
    forall k, n | k != kind || n != name
      ensures SlotAt(after, k, n) == SlotAt(dir, k, n)
    {
    }
  }

  // ----- how a written slot reads -----

  /** The draft that a slot reads as; `Decode` is its entity. */
  function DecodeDraft(yaml: YamlCodec, kind: Kind, name: string, slot: Slot): (r: Option<Draft>)
    ensures r.Some? <==> Decode(yaml, kind, name, slot).Some?
    ensures r.Some? ==> r.value.e == Decode(yaml, kind, name, slot).value
  {
    match slot
    case Entry(y) =>
      if IsSection(kind) then (match FromEntry(kind, name, y) case None => None case Some(e) => Some(Draft(e, None)))
      else None
    case Text(text) => if IsSection(kind) then None else ParseFile(yaml, kind, name, text)
  }

  /** What the store keeps of a draft: finite temperatures, normal `mcp` lists, texts as reread. */
  function KeptDraft(d: Draft): Draft {
    match d.e
    case ModelProfile(_, _, _, _, _, _) => d.(e := KeptEntry(d.e))
    case Toolset(_, _, _, _, _) => d.(e := d.e.(mcp := NormalMcp(d.e.mcp)))
    case Agent(_, _, _, _, _, _, _) => d.(e := d.e.(systemPrompt := Frontmatter.ReadBack(d.e.systemPrompt)))
    case SkillMeta(_, _) => if d.body.None? then d else d.(body := Some(Frontmatter.ReadBack(d.body.value)))
    case _ => d
  }

  /** The draft of a created item; only skills have a body. */
  function NewDraft(item: Entity, body: string): Draft {
    Draft(item, if item.SkillMeta? then Some(body) else None)
  }

  /** The draft without the line feed that a codec may drop behind the last name of an agent. */
  function ChompedDraft(d: Draft): Draft {
    if d.e.Agent? then d.(e := ChompedAgent(d.e)) else d
  }

  /** How a written slot may read: as what is kept of the draft, or without that line feed. */
  ghost predicate ReadsAs(r: Option<Draft>, d: Draft) {
    r == Some(KeptDraft(d)) || r == Some(KeptDraft(ChompedDraft(d)))
  }

  /** No line feed to drop: the name that is printed last, if any, does not end in one. */
  predicate Whole(d: Draft) { d.e.Agent? ==> !TailEndsInLineFeed(d.e) }

  lemma ReadsAsKept(r: Option<Draft>, d: Draft)
    requires ReadsAs(r, d) && Whole(d)
    ensures r == Some(KeptDraft(d))
  {
    if d.e.Agent? {
      ChompedAgentIsSame(d.e);
    }
  }

  /** A printed file reads back as what the store keeps of its draft. */
  lemma PrintedFileReads(yaml: YamlCodec, d: Draft)
    requires yaml.Lawful() && !IsSection(d.e.Kind())
    requires d.e.SkillMeta? <==> d.body.Some?
    requires d.e.Agent? ==> d.body.None?
    ensures ReadsAs(ParseFile(yaml, d.e.Kind(), d.e.name, PrintFile(yaml, d)), d)
  {
    match d.e
    case Toolset(_, _, _, _, _) =>
      ToolsetRoundTrip(d.e);
      assert yaml.LawfulAt(ToolsetJson(d.e));
    case Agent(_, _, _, _, _, _, _) =>
      AgentReadsBack(yaml, d.e);
    case SkillMeta(_, _) =>
      SkillReadsBack(yaml, d.e, d.body.value);
  }

  // ----- creation -----

  ghost function SlotOf(yaml: YamlCodec, item: Entity, body: string): Slot {
    if IsSection(item.Kind()) then Entry(ToYaml(Obj(ToEntry(item)))) else Text(PrintFile(yaml, Draft(item, Some(body))))
  }

  lemma CreatedEntry(layer: Layer, dir: LayerDir, item: Entity)
    requires IsSection(item.Kind()) && CreateEntryOn(layer, dir, item).result.Ok?
    ensures var after := CreateEntryOn(layer, dir, item).dir;
            && SameBut(dir, after, item.Kind(), item.name)
            && SlotAt(after, item.Kind(), item.name) == Some(Entry(ToYaml(Obj(ToEntry(item)))))
  {
    var kind, raw := item.Kind(), LoadConfig(dir).value;
    WriteEntry(dir, raw, kind, Section(raw, kind)[item.name := ToYaml(Obj(ToEntry(item)))], item.name);
  }

  lemma CreatedFile(yaml: YamlCodec, layer: Layer, dir: LayerDir, item: Entity, body: string)
    requires !IsSection(item.Kind()) && CreateFileOn(yaml, layer, dir, item, body).result.Ok?
    ensures var after := CreateFileOn(yaml, layer, dir, item, body).dir;
            && SameBut(dir, after, item.Kind(), item.name)
            && SlotAt(after, item.Kind(), item.name) == Some(Text(PrintFile(yaml, Draft(item, Some(body)))))
  {
    var kind, text := item.Kind(), PrintFile(yaml, Draft(item, Some(body)));
    WriteText(dir, kind, Texts(dir, kind)[item.name := text], item.name);
  }

  lemma CreateEffect(yaml: YamlCodec, layer: Layer, dir: LayerDir, item: Entity, body: string)
    ensures var out := Step(yaml, layer, dir, Create(item, body));
            && (out.result.Ok? <==> && ValidName(item.name)
                                    && (IsSection(item.Kind()) ==> !dir.config.Malformed?)
                                    && SlotAt(dir, item.Kind(), item.name).None?)
            && SameBut(dir, out.dir, item.Kind(), item.name)
            && (out.result.Err? ==> out.dir == dir)
            && (out.result.Ok? ==> SlotAt(out.dir, item.Kind(), item.name) == Some(SlotOf(yaml, item, body)))
  {
    var kind, out := item.Kind(), Step(yaml, layer, dir, Create(item, body));
    if out.result.Ok? {
      if IsSection(kind) {
        CreatedEntry(layer, dir, item);
      } else {
        CreatedFile(yaml, layer, dir, item, body);
      }
    }
  }

  lemma CreatedReads(yaml: YamlCodec, item: Entity, body: string)
    requires yaml.Lawful()
    ensures var read := DecodeDraft(yaml, item.Kind(), item.name, SlotOf(yaml, item, body));
            var d := NewDraft(item, body);
            ReadsAs(read, d) && (Whole(d) ==> read == Some(KeptDraft(d)))
  {
    if IsSection(item.Kind()) {
      EntryRoundTrip(item);
    } else {
      assert PrintFile(yaml, Draft(item, Some(body))) == PrintFile(yaml, NewDraft(item, body));
      PrintedFileReads(yaml, NewDraft(item, body));
    }
    if Whole(NewDraft(item, body)) {
      ReadsAsKept(DecodeDraft(yaml, item.Kind(), item.name, SlotOf(yaml, item, body)), NewDraft(item, body));
    }
  }

  // ----- update -----

  lemma EntryUpdated(layer: Layer, dir: LayerDir, kind: Kind, name: string, patch: Patch)
    requires IsSection(kind) && UpdateEntryOn(layer, dir, kind, name, patch).result.Ok?
    ensures var after := UpdateEntryOn(layer, dir, kind, name, patch).dir;
            && ValidName(name) && SameBut(dir, after, kind, name)
            && SlotAt(dir, kind, name).Some? && SlotAt(dir, kind, name).value.Entry?
            && PatchedValue(kind, name, SlotAt(dir, kind, name).value.y, patch).Ok?
            && SlotAt(after, kind, name)
               == Some(Entry(PatchedValue(kind, name, SlotAt(dir, kind, name).value.y, patch).value))
  {
    var raw := LoadConfig(dir).value;
    var section := Section(raw, kind);
    WriteEntry(dir, raw, kind, section[name := PatchedValue(kind, name, section[name], patch).value], name);
  }

  lemma FileUpdated(yaml: YamlCodec, layer: Layer, dir: LayerDir, kind: Kind, name: string, patch: Patch)
    requires !IsSection(kind) && UpdateFileOn(yaml, layer, dir, kind, name, patch).result.Ok?
    ensures var after := UpdateFileOn(yaml, layer, dir, kind, name, patch).dir;
            && ValidName(name) && SameBut(dir, after, kind, name)
            && SlotAt(dir, kind, name).Some? && SlotAt(after, kind, name).Some?
  {
    var text := PatchedText(yaml, kind, name, Texts(dir, kind)[name], patch).value;
    WriteText(dir, kind, Texts(dir, kind)[name := text], name);
  }

  lemma UpdateEffect(yaml: YamlCodec, layer: Layer, dir: LayerDir, kind: Kind, name: string, patch: Patch)
    ensures var out := Step(yaml, layer, dir, Update(kind, name, patch));
            && SameBut(dir, out.dir, kind, name)
            && (out.result.Err? ==> out.dir == dir)
            && (out.result.Ok? ==>
                  ValidName(name) && SlotAt(dir, kind, name).Some? && SlotAt(out.dir, kind, name).Some?)
  {
    if Step(yaml, layer, dir, Update(kind, name, patch)).result.Ok? {
      if IsSection(kind) {
        EntryUpdated(layer, dir, kind, name, patch);
      } else {
        FileUpdated(yaml, layer, dir, kind, name, patch);
      }
    }
  }

  /** What makes the file store accept an update of an entry that reads. */
  ghost predicate AcceptsUpdate(kind: Kind, name: string, patch: Patch) {
    && ValidName(name) && patch.Members?
    && AcceptsAll(kind, ToMap(patch.entries)) && HeadersAreStrings(kind, ToMap(patch.entries))
  }

  lemma UpdatedEntryReads(yaml: YamlCodec, layer: Layer, dir: LayerDir,
                          kind: Kind, name: string, patch: Patch, d: Draft)
    requires IsSection(kind) && SlotAt(dir, kind, name).Some?
    requires DecodeDraft(yaml, kind, name, SlotAt(dir, kind, name).value) == Some(d)
    ensures var out := Step(yaml, layer, dir, Update(kind, name, patch));
            && (out.result.Ok? <==> AcceptsUpdate(kind, name, patch))
            && (out.result.Ok? ==>
                  && SlotAt(out.dir, kind, name).Some?
                  && DecodeDraft(yaml, kind, name, SlotAt(out.dir, kind, name).value)
                     == Some(KeptDraft(Overwrite(d, ToMap(patch.entries)))))
  {
    var out := Step(yaml, layer, dir, Update(kind, name, patch));
    var raw := LoadConfig(dir).value;
    var section := Section(raw, kind);
    var stored := section[name].fields;
    if patch.Members? {
      var m := ToMap(patch.entries);
      UpdateReads(kind, d.e, stored, m);
      if out.result.Ok? {
        WriteEntry(dir, raw, kind, section[name := PatchedValue(kind, name, section[name], patch).value], name);
        KeptEntryDraft(Overwrite(d, m));
      }
    }
  }

  lemma KeptEntryDraft(d: Draft)
    requires IsSection(d.e.Kind())
    ensures KeptDraft(d) == d.(e := KeptEntry(d.e))
  {
  }

  lemma PatchedTextReads(yaml: YamlCodec, kind: Kind, name: string, text: string, patch: Patch, d: Draft)
    requires yaml.Lawful() && !IsSection(kind) && ParseFile(yaml, kind, name, text) == Some(d)
    ensures d.e.Kind() == kind && d.e.name == name
    ensures PatchedText(yaml, kind, name, text, patch).Ok? <==> patch.Members? && AcceptsAll(kind, ToMap(patch.entries))
    ensures patch.Members? && AcceptsAll(kind, ToMap(patch.entries)) ==>
              var next := Overwrite(d, ToMap(patch.entries));
              && PatchedText(yaml, kind, name, text, patch) == Ok(PrintFile(yaml, next))
              && ReadsAs(ParseFile(yaml, kind, name, PrintFile(yaml, next)), next)
  {
    if patch.Members? && AcceptsAll(kind, ToMap(patch.entries)) {
      PrintedFileReads(yaml, Overwrite(d, ToMap(patch.entries)));
    }
  }

  lemma UpdatedFileReads(yaml: YamlCodec, layer: Layer, dir: LayerDir, kind: Kind, name: string, patch: Patch, d: Draft)
    requires yaml.Lawful() && !IsSection(kind) && SlotAt(dir, kind, name).Some?
    requires DecodeDraft(yaml, kind, name, SlotAt(dir, kind, name).value) == Some(d)
    ensures var out := Step(yaml, layer, dir, Update(kind, name, patch));
            && (out.result.Ok? <==> AcceptsUpdate(kind, name, patch))
            && (out.result.Ok? ==>
                  && SlotAt(out.dir, kind, name).Some?
                  && ReadsAs(DecodeDraft(yaml, kind, name, SlotAt(out.dir, kind, name).value),
                             Overwrite(d, ToMap(patch.entries))))
  {
    PatchedTextReads(yaml, kind, name, Texts(dir, kind)[name], patch, d);
    var out := Step(yaml, layer, dir, Update(kind, name, patch));
    if out.result.Ok? {
      WriteText(dir, kind, Texts(dir, kind)[name := PrintFile(yaml, Overwrite(d, ToMap(patch.entries)))], name);
    }
  }

  /**
   An update of something that reads is accepted by a condition on the call alone, and then what
   reads back is the old draft with every recognised member in place.
   */
  lemma UpdateReadsBack(yaml: YamlCodec, layer: Layer, dir: LayerDir, kind: Kind, name: string, patch: Patch, d: Draft)
    requires yaml.Lawful() && SlotAt(dir, kind, name).Some?
    requires DecodeDraft(yaml, kind, name, SlotAt(dir, kind, name).value) == Some(d)
    ensures var out := Step(yaml, layer, dir, Update(kind, name, patch));
            && (out.result.Ok? <==> AcceptsUpdate(kind, name, patch))
            && (out.result.Ok? ==>
                  && SlotAt(out.dir, kind, name).Some?
                  && (var (read, next) := (DecodeDraft(yaml, kind, name, SlotAt(out.dir, kind, name).value),
                                           Overwrite(d, ToMap(patch.entries)));
                      ReadsAs(read, next) && (Whole(next) ==> read == Some(KeptDraft(next)))))
  {
    if IsSection(kind) {
      UpdatedEntryReads(yaml, layer, dir, kind, name, patch, d);
    } else {
      UpdatedFileReads(yaml, layer, dir, kind, name, patch, d);
    }
    var out := Step(yaml, layer, dir, Update(kind, name, patch));
    if out.result.Ok? && Whole(Overwrite(d, ToMap(patch.entries))) {
      ReadsAsKept(DecodeDraft(yaml, kind, name, SlotAt(out.dir, kind, name).value), Overwrite(d, ToMap(patch.entries)));
    }
  }

  // ----- deletion and the default agent -----

  lemma DeleteEffect(yaml: YamlCodec, layer: Layer, dir: LayerDir, kind: Kind, name: string)
    ensures var out := Step(yaml, layer, dir, Delete(kind, name));
            var found := ValidName(name) && SlotAt(dir, kind, name).Some?;
            && SameBut(dir, out.dir, kind, name)
            && (out.result.Ok? <==> found && !(kind == SkillKind && name in dir.cluttered))
            && (if found then SlotAt(out.dir, kind, name).None? else out.dir == dir)
  {
    var out := Step(yaml, layer, dir, Delete(kind, name));
    if ValidName(name) && SlotAt(dir, kind, name).Some? {
      if IsSection(kind) {
        var raw := LoadConfig(dir).value;
        WriteEntry(dir, raw, kind, Section(raw, kind) - {name}, name);
      } else {
        WriteText(dir, kind, Texts(dir, kind) - {name}, name);
      }
    }
  }

  lemma SetDefaultEffect(yaml: YamlCodec, layer: Layer, dir: LayerDir, name: string)
    ensures var out := Step(yaml, layer, dir, SetDefaultAgent(name));
            && (out.result.Ok? <==> !dir.config.Malformed?)
            && (forall k, n :: SlotAt(out.dir, k, n) == SlotAt(dir, k, n))
            && out.dir.cluttered == dir.cluttered
            && (out.dir.config.Malformed? <==> dir.config.Malformed?)
            && (if out.result.Ok? then Defaults(out.dir) == Defaults(dir)["agent" := Str(name)] else out.dir == dir)
  {
  }
}
