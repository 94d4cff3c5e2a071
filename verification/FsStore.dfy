/**
 The file store. A layer is a directory: its `config.yaml`, and one text per toolset, agent and
 skill. Every write loads, checks, patches, checks again and rewrites one layer; every read
 overlays the workspace layer on the global one.
 */
module FsStore {
  import opened Bytes
  import opened Json
  import opened Domain
  import opened Entries
  import opened EntryPatch
  import opened Patches
  import opened Files
  import Frontmatter
  import Strings

  // ----- the state -----

  datatype RawConfig = RawConfig(providers: YamlFields, models: YamlFields, mcp: YamlFields, defaults: YamlFields)

  /** `config.yaml`: missing, not YAML of the expected shape, or its four maps. */
  datatype ConfigFile = Absent | Malformed | Parsed(raw: RawConfig)

  /** `cluttered` names the skill directories that hold more than their `SKILL.md`. */
  datatype LayerDir = LayerDir(config: ConfigFile, toolsets: map<string, string>, agents: map<string, string>,
                               skills: map<string, string>, cluttered: set<string>)

  datatype Store = Store(globalDir: LayerDir, workspaceDir: Option<LayerDir>)

  const EMPTY_CONFIG := RawConfig(map[], map[], map[], map[])
  const EMPTY_DIR := LayerDir(Absent, map[], map[], map[], {})

  /** `load_config_layer`. */
  function LoadConfig(dir: LayerDir): Result<RawConfig> {
    match dir.config
    case Absent => Ok(EMPTY_CONFIG)
    case Malformed => Err(ConfigError)
    case Parsed(raw) => Ok(raw)
  }

  function Section(raw: RawConfig, kind: Kind): YamlFields
    requires IsSection(kind)
  {
    match kind case ProviderKind => raw.providers case ModelKind => raw.models case McpKind => raw.mcp
  }

  function WithSection(raw: RawConfig, kind: Kind, f: YamlFields): RawConfig
    requires IsSection(kind)
  {
    match kind
    case ProviderKind => raw.(providers := f)
    case ModelKind => raw.(models := f)
    case McpKind => raw.(mcp := f)
  }

  function Texts(dir: LayerDir, kind: Kind): map<string, string>
    requires !IsSection(kind)
  {
    match kind case ToolsetKind => dir.toolsets case AgentKind => dir.agents case SkillKind => dir.skills
  }

  function WithTexts(dir: LayerDir, kind: Kind, t: map<string, string>): LayerDir
    requires !IsSection(kind)
  {
    match kind
    case ToolsetKind => dir.(toolsets := t)
    case AgentKind => dir.(agents := t)
    case SkillKind => dir.(skills := t)
  }

  /** The file that a draft is written to. */
  function PrintFile(yaml: YamlCodec, d: Draft): string
    requires !IsSection(d.e.Kind()) && (d.e.SkillMeta? ==> d.body.Some?)
  {
    match d.e
    case Toolset(_, _, _, _, _) => ToolsetText(yaml, d.e)
    case Agent(_, _, _, _, _, _, _) => AgentText(yaml, d.e)
    case SkillMeta(_, _) => SkillText(yaml, d.e, d.body.value)
  }

  /** The draft that an update of a file starts from. */
  function ParseFile(yaml: YamlCodec, kind: Kind, name: string, text: string): (r: Option<Draft>)
    requires !IsSection(kind)
    ensures r.Some? ==> r.value.e.Kind() == kind && r.value.e.name == name
    ensures r.Some? && kind == SkillKind ==> r.value.body.Some?
  {
    match kind
    case ToolsetKind =>
      (match ParseToolset(yaml, name, text) case None => None case Some(e) => Some(Draft(e, None)))
    case AgentKind =>
      (match ParseAgent(yaml, name, text) case None => None case Some(e) => Some(Draft(e, None)))
    case SkillKind =>
      (match ParseSkill(yaml, name, text) case None => None case Some(e) => Some(Draft(e, SkillBody(text))))
  }

  // ----- what each write does to one layer -----

  datatype Outcome = Outcome(result: Result<Unit>, dir: LayerDir)

  ghost function Refused(e: Error, dir: LayerDir): Outcome { Outcome(Err(e), dir) }

  ghost function Written(dir: LayerDir): Outcome { Outcome(Ok(Unit), dir) }

  ghost function WithEntry(dir: LayerDir, raw: RawConfig, kind: Kind, f: YamlFields): LayerDir
    requires IsSection(kind)
  {
    dir.(config := Parsed(WithSection(raw, kind, f)))
  }

  ghost function CreateEntryOn(layer: Layer, dir: LayerDir, item: Entity): Outcome
    requires IsSection(item.Kind())
  {
    var kind := item.Kind();
    if !ValidName(item.name) then Refused(InvalidName(item.name), dir)
    else
      match LoadConfig(dir)
      case Err(e) => Refused(e, dir)
      case Ok(raw) =>
        if item.name in Section(raw, kind) then Refused(NameConflict(kind, item.name, layer), dir)
        else Written(WithEntry(dir, raw, kind, Section(raw, kind)[item.name := ToYaml(Obj(ToEntry(item)))]))
  }

  /** The value that an update leaves under a name of `config.yaml`. */
  function PatchedValue(kind: Kind, name: string, stored: Yaml, patch: Patch): Result<Yaml>
    requires IsSection(kind)
  {
    if !stored.Obj? || patch.NotAnObject? then Err(ConfigError)
    else
      match UpdatedEntry(kind, name, JsonFields(stored.fields), ToMap(patch.entries))
      case None => Err(Validation)
      case Some(f) => Ok(ToYaml(Obj(f)))
  }

  ghost function UpdateEntryOn(layer: Layer, dir: LayerDir, kind: Kind, name: string, patch: Patch): Outcome
    requires IsSection(kind)
  {
    if !ValidName(name) then Refused(InvalidName(name), dir)
    else
      match LoadConfig(dir)
      case Err(e) => Refused(e, dir)
      case Ok(raw) =>
        var section := Section(raw, kind);
        if name !in section then Refused(NotFound(kind, name, layer), dir)
        else
          match PatchedValue(kind, name, section[name], patch)
          case Err(e) => Refused(e, dir)
          case Ok(y) => Written(WithEntry(dir, raw, kind, section[name := y]))
  }

  ghost function DeleteEntryOn(layer: Layer, dir: LayerDir, kind: Kind, name: string): Outcome
    requires IsSection(kind)
  {
    if !ValidName(name) then Refused(InvalidName(name), dir)
    else
      match LoadConfig(dir)
      case Err(e) => Refused(e, dir)
      case Ok(raw) =>
        if name !in Section(raw, kind) then Refused(NotFound(kind, name, layer), dir)
        else Written(WithEntry(dir, raw, kind, Section(raw, kind) - {name}))
  }

  ghost function SetDefaultOn(dir: LayerDir, name: string): Outcome {
    match LoadConfig(dir)
    case Err(e) => Refused(e, dir)
    case Ok(raw) => Written(dir.(config := Parsed(raw.(defaults := raw.defaults["agent" := Str(name)]))))
  }

  ghost function CreateFileOn(yaml: YamlCodec, layer: Layer, dir: LayerDir, item: Entity, body: string): Outcome
    requires !IsSection(item.Kind())
  {
    var kind := item.Kind();
    if !ValidName(item.name) then Refused(InvalidName(item.name), dir)
    else if item.name in Texts(dir, kind) then Refused(NameConflict(kind, item.name, layer), dir)
    else Written(WithTexts(dir, kind, Texts(dir, kind)[item.name := PrintFile(yaml, Draft(item, Some(body)))]))
  }

  /** The text that an update leaves in a file. */
  ghost function PatchedText(yaml: YamlCodec, kind: Kind, name: string, text: string, patch: Patch): Result<string>
    requires !IsSection(kind)
  {
    match ParseFile(yaml, kind, name, text)
    case None => Err(ConfigError)
    case Some(d) =>
      if patch.NotAnObject? then Err(ConfigError)
      else if !AcceptsAll(kind, ToMap(patch.entries)) then Err(Validation)
      else Ok(PrintFile(yaml, Overwrite(d, ToMap(patch.entries))))
  }

  ghost function UpdateFileOn(yaml: YamlCodec, layer: Layer, dir: LayerDir,
                              kind: Kind, name: string, patch: Patch): Outcome
    requires !IsSection(kind)
  {
    if !ValidName(name) then Refused(InvalidName(name), dir)
    else if name !in Texts(dir, kind) then Refused(NotFound(kind, name, layer), dir)
    else
      match PatchedText(yaml, kind, name, Texts(dir, kind)[name], patch)
      case Err(e) => Refused(e, dir)
      case Ok(text) => Written(WithTexts(dir, kind, Texts(dir, kind)[name := text]))
  }

  /** A skill directory that holds more cannot be removed: the call fails, its `SKILL.md` is gone. */
  ghost function DeleteFileOn(layer: Layer, dir: LayerDir, kind: Kind, name: string): Outcome
    requires !IsSection(kind)
  {
    if !ValidName(name) then Refused(InvalidName(name), dir)
    else if name !in Texts(dir, kind) then Refused(NotFound(kind, name, layer), dir)
    else
      var gone := WithTexts(dir, kind, Texts(dir, kind) - {name});
      if kind == SkillKind && name in dir.cluttered then Outcome(Err(IoError), gone) else Written(gone)
  }

  ghost function Step(yaml: YamlCodec, layer: Layer, dir: LayerDir, call: Call): Outcome {
    match call
    case Create(item, body) =>
      if IsSection(item.Kind()) then CreateEntryOn(layer, dir, item) else CreateFileOn(yaml, layer, dir, item, body)
    case Update(kind, name, patch) =>
      if IsSection(kind) then UpdateEntryOn(layer, dir, kind, name, patch)
      else UpdateFileOn(yaml, layer, dir, kind, name, patch)
    case Delete(kind, name) =>
      if IsSection(kind) then DeleteEntryOn(layer, dir, kind, name) else DeleteFileOn(layer, dir, kind, name)
    case SetDefaultAgent(name) => SetDefaultOn(dir, name)
  }

  // ----- what is stored, and how it reads -----

  /** A raw value of `config.yaml`, or the text of a file. */
  datatype Slot = Entry(y: Yaml) | Text(text: string)

  function EntrySlots(f: YamlFields): map<string, Slot> { map k | k in f :: Entry(f[k]) }

  function TextSlots(t: map<string, string>): map<string, Slot> { map k | k in t :: Text(t[k]) }

  /** Everything of one kind that a layer holds; a malformed `config.yaml` holds nothing. */
  function Slots(dir: LayerDir, kind: Kind): map<string, Slot> {
    if IsSection(kind) then
      (match LoadConfig(dir) case Err(_) => map[] case Ok(raw) => EntrySlots(Section(raw, kind)))
    else TextSlots(Texts(dir, kind))
  }

  function SlotAt(dir: LayerDir, kind: Kind, name: string): Option<Slot> {
    if name in Slots(dir, kind) then Some(Slots(dir, kind)[name]) else None
  }

  function Defaults(dir: LayerDir): YamlFields {
    match LoadConfig(dir) case Err(_) => map[] case Ok(raw) => raw.defaults
  }

  /** How a listing reads one slot. */
  function Decode(yaml: YamlCodec, kind: Kind, name: string, slot: Slot): (r: Option<Entity>)
    ensures r.Some? ==> r.value.name == name && r.value.Kind() == kind
  {
    match slot
    case Entry(y) => if IsSection(kind) then FromEntry(kind, name, y) else None
    case Text(text) =>
      if IsSection(kind) then None
      else (match ParseFile(yaml, kind, name, text) case None => None case Some(d) => Some(d.e))
  }

  /** No read of the layer can fail with a configuration error. */
  ghost predicate Readable(yaml: YamlCodec, dir: LayerDir) {
    && !dir.config.Malformed?
    && (forall kind, name | name in Slots(dir, kind) :: Decode(yaml, kind, name, Slots(dir, kind)[name]).Some?)
    && ("agent" in Defaults(dir) ==> Defaults(dir)["agent"].Str?)
  }

  // ----- the two layers together -----

  ghost function DirOf(s: Store, layer: Layer): Option<LayerDir> {
    if layer == Global then Some(s.globalDir) else s.workspaceDir
  }

  ghost function WithDir(s: Store, layer: Layer, dir: LayerDir): Store {
    if layer == Global then s.(globalDir := dir) else s.(workspaceDir := Some(dir))
  }

  /** The name that a call validates; the default agent is not validated. */
  function NameOf(call: Call): string {
    match call
    case Create(item, _) => item.name
    case Update(_, name, _) => name
    case Delete(_, name) => name
    case SetDefaultAgent(name) => name
  }

  /** A call on a store: without a workspace, a call on it is refused. */
  ghost function StoreStep(yaml: YamlCodec, s: Store, layer: Layer, call: Call): (Result<Unit>, Store) {
    match DirOf(s, layer)
    case None =>
      (if call.SetDefaultAgent? || ValidName(NameOf(call)) then Err(ConfigError) else Err(InvalidName(NameOf(call))), s)
    case Some(dir) =>
      var out := Step(yaml, layer, dir, call);
      (out.result, WithDir(s, layer, out.dir))
  }

  /** The workspace value where there is one, else the global value. */
  function Overlay(s: Store, kind: Kind, name: string): Option<Slot> {
    if s.workspaceDir.Some? && SlotAt(s.workspaceDir.value, kind, name).Some?
    then SlotAt(s.workspaceDir.value, kind, name)
    else SlotAt(s.globalDir, kind, name)
  }

  /** The workspace default where there is one, else the global default. */
  function OverlayDefault(s: Store, key: string): Option<Yaml> {
    if s.workspaceDir.Some? && key in Defaults(s.workspaceDir.value)
    then Lookup(Defaults(s.workspaceDir.value), key)
    else Lookup(Defaults(s.globalDir), key)
  }

  predicate Loads(s: Store) {
    !s.globalDir.config.Malformed? && (s.workspaceDir.Some? ==> !s.workspaceDir.value.config.Malformed?)
  }

  /** `merge_config_layers`: whole values replace whole values, map by map. */
  function MergeConfig(g: RawConfig, w: Option<RawConfig>): RawConfig {
    if w.None? then g
    else RawConfig(g.providers + w.value.providers, g.models + w.value.models, g.mcp + w.value.mcp,
                   g.defaults + w.value.defaults)
  }

  /** `load_merged_config`. */
  function LoadMerged(s: Store): Result<RawConfig> {
    match LoadConfig(s.globalDir)
    case Err(e) => Err(e)
    case Ok(g) =>
      match s.workspaceDir
      case None => Ok(MergeConfig(g, None))
      case Some(dir) =>
        match LoadConfig(dir)
        case Err(e) => Err(e)
        case Ok(w) => Ok(MergeConfig(g, Some(w)))
  }

  /** `merge_layer_files`. */
  function MergeTexts(g: map<string, string>, w: Option<map<string, string>>): map<string, string> {
    if w.None? then g else g + w.value
  }

  function MergedTexts(s: Store, kind: Kind): map<string, string>
    requires !IsSection(kind)
  {
    MergeTexts(Texts(s.globalDir, kind), if s.workspaceDir.None? then None else Some(Texts(s.workspaceDir.value, kind)))
  }

  /** The merged raw values of a kind, as a listing sees them. */
  function MergedSlots(s: Store, kind: Kind): Result<map<string, Slot>> {
    if IsSection(kind) then
      match LoadMerged(s)
      case Err(e) => Err(e)
      case Ok(raw) => Ok(EntrySlots(Section(raw, kind)))
    else Ok(TextSlots(MergedTexts(s, kind)))
  }

  /** The entities of `names`, or nothing when one of them does not read. */
  function ReadAll(yaml: YamlCodec, kind: Kind, slots: map<string, Slot>, names: seq<string>): (r: Option<seq<Entity>>)
    requires forall n | n in names :: n in slots
    ensures r.Some? <==> forall n | n in names :: Decode(yaml, kind, n, slots[n]).Some?
    ensures r.Some? ==> |r.value| == |names|
    ensures r.Some? ==> forall i | 0 <= i < |names| :: Decode(yaml, kind, names[i], slots[names[i]]) == Some(r.value[i])
  {
    if names == [] then Some([])
    else
      var front, last := names[..|names| - 1], names[|names| - 1];
      assert names == front + [last];
      var rest, e := ReadAll(yaml, kind, slots, front), Decode(yaml, kind, last, slots[last]);
      if rest.None? || e.None? then None else Some(rest.value + [e.value])
  }

  lemma ReadAllStep(yaml: YamlCodec, kind: Kind, slots: map<string, Slot>, names: seq<string>, i: nat)
    requires i < |names| && forall n | n in names :: n in slots
    ensures var e := Decode(yaml, kind, names[i], slots[names[i]]);
            var front := ReadAll(yaml, kind, slots, names[..i]);
            && (e.None? ==> ReadAll(yaml, kind, slots, names) == None)
            && (e.Some? && front.Some? ==> ReadAll(yaml, kind, slots, names[..i + 1]) == Some(front.value + [e.value]))
  {
    assert names[i] in names;
    assert names[..i + 1][..i] == names[..i];
  }

  /** The merge is the overlay, name by name; for `config.yaml` it fails when either layer does. */
  lemma MergedIsOverlay(s: Store, kind: Kind)
    ensures MergedSlots(s, kind).Ok? <==> !IsSection(kind) || Loads(s)
    ensures MergedSlots(s, kind).Err? ==> MergedSlots(s, kind) == Err(ConfigError)
    ensures MergedSlots(s, kind).Ok? ==>
              var merged := MergedSlots(s, kind).value;
              forall name :: Overlay(s, kind, name) == if name in merged then Some(merged[name]) else None
  {
  }

  /** What a `list_*` call returns: every entity of the merged view, in the order of the names. */
  function Listing(yaml: YamlCodec, s: Store, kind: Kind): Result<seq<Entity>> {
    match MergedSlots(s, kind)
    case Err(e) => Err(e)
    case Ok(slots) =>
      match ReadAll(yaml, kind, slots, Strings.InOrder(slots.Keys))
      case None => Err(ConfigError)
      case Some(items) => Ok(items)
  }

  /** The default of the workspace, else that of the global layer; anything but a string is an error. */
  function DefaultAgentOf(s: Store): Result<Option<string>> {
    if !Loads(s) then Err(ConfigError)
    else
      match OverlayDefault(s, "agent")
      case None => Ok(None)
      case Some(v) => if v.Str? then Ok(Some(v.s)) else Err(ConfigError)
  }

  /** The body of the skill file that the overlay holds: split off, trimmed, never parsed as YAML. */
  function LoadSkillOf(s: Store, name: string): Result<string> {
    match Overlay(s, SkillKind, name)
    case Some(Text(text)) => (match SkillBody(text) case None => Err(ConfigError) case Some(body) => Ok(body))
    case _ => Err(UnknownReference(SkillKind, name))
  }

  // ----- the store itself -----

  class FsConfigStore {
    const yaml: YamlCodec
    var globalDir: LayerDir
    var workspaceDir: Option<LayerDir>

    ghost function State(): Store
      reads this
    {
      Store(globalDir, workspaceDir)
    }

    constructor (yaml: YamlCodec, globalDir: LayerDir, workspaceDir: Option<LayerDir>)
      ensures this.yaml == yaml && State() == Store(globalDir, workspaceDir)
    {
      this.yaml := yaml;
      this.globalDir := globalDir;
      this.workspaceDir := workspaceDir;
    }

    /** `layer_dir`. */
    method LayerOf(layer: Layer) returns (r: Result<LayerDir>)
      ensures r == match DirOf(State(), layer) case None => Err(ConfigError) case Some(dir) => Ok(dir)
    {
      match layer {
        case Global => r := Ok(globalDir);
        case Workspace =>
          if workspaceDir.None? {
            r := Err(ConfigError);
          } else {
            r := Ok(workspaceDir.value);
          }
      }
    }

    method Write(layer: Layer, dir: LayerDir)
      modifies this
      ensures State() == WithDir(old(State()), layer, dir)
    {
      match layer {
        case Global => globalDir := dir;
        case Workspace => workspaceDir := Some(dir);
      }
    }

    /** `write_config_layer`, with one of the maps replaced. */
    method WriteSection(layer: Layer, dir: LayerDir, raw: RawConfig, kind: Kind, section: YamlFields)
      requires IsSection(kind)
      modifies this
      ensures State() == WithDir(old(State()), layer, WithEntry(dir, raw, kind, section))
    {
      Write(layer, dir.(config := Parsed(WithSection(raw, kind, section))));
    }

    method CreateEntry(layer: Layer, item: Entity) returns (r: Result<Unit>)
      requires IsSection(item.Kind())
      modifies this
      ensures (r, State()) == StoreStep(yaml, old(State()), layer, Create(item, ""))
    {
      if !ValidName(item.name) {
        return Err(InvalidName(item.name));
      }
      var dir := LayerOf(layer);
      if dir.Err? {
        return Err(dir.error);
      }
      var raw := LoadConfig(dir.value);
      if raw.Err? {
        return Err(raw.error);
      }
      var kind := item.Kind();
      if item.name in Section(raw.value, kind) {
        return Err(NameConflict(kind, item.name, layer));
      }
      var section := Section(raw.value, kind)[item.name := ToYaml(Obj(ToEntry(item)))];
      WriteSection(layer, dir.value, raw.value, kind, section);
      r := Ok(Unit);
    }

    /** The new value of an entry: to JSON, through the patch, back to YAML and reread. */
    method PatchValue(kind: Kind, name: string, stored: Yaml, patch: Patch) returns (r: Result<Yaml>)
      requires IsSection(kind) && WellFormed(patch)
      ensures r == PatchedValue(kind, name, stored, patch)
    {
      if !stored.Obj? || patch.NotAnObject? {
        return Err(ConfigError);
      }
      var f := PatchEntry(kind, name, JsonFields(stored.fields), patch.entries);
      r := if f.None? then Err(Validation) else Ok(ToYaml(Obj(f.value)));
    }

    method UpdateEntry(layer: Layer, kind: Kind, name: string, patch: Patch) returns (r: Result<Unit>)
      requires IsSection(kind) && WellFormed(patch)
      modifies this
      ensures (r, State()) == StoreStep(yaml, old(State()), layer, Update(kind, name, patch))
    {
      if !ValidName(name) {
        return Err(InvalidName(name));
      }
      var dir := LayerOf(layer);
      if dir.Err? {
        return Err(dir.error);
      }
      var raw := LoadConfig(dir.value);
      if raw.Err? {
        return Err(raw.error);
      }
      var section := Section(raw.value, kind);
      if name !in section {
        return Err(NotFound(kind, name, layer));
      }
      var y := PatchValue(kind, name, section[name], patch);
      if y.Err? {
        return Err(y.error);
      }
      WriteSection(layer, dir.value, raw.value, kind, section[name := y.value]);
      r := Ok(Unit);
    }

    method DeleteEntry(layer: Layer, kind: Kind, name: string) returns (r: Result<Unit>)
      requires IsSection(kind)
      modifies this
      ensures (r, State()) == StoreStep(yaml, old(State()), layer, Delete(kind, name))
    {
      if !ValidName(name) {
        return Err(InvalidName(name));
      }
      var dir := LayerOf(layer);
      if dir.Err? {
        return Err(dir.error);
      }
      var raw := LoadConfig(dir.value);
      if raw.Err? {
        return Err(raw.error);
      }
      if name !in Section(raw.value, kind) {
        return Err(NotFound(kind, name, layer));
      }
      WriteSection(layer, dir.value, raw.value, kind, Section(raw.value, kind) - {name});
      r := Ok(Unit);
    }

    /** The name is neither validated nor looked up. */
    method SetDefaultAgent(layer: Layer, name: string) returns (r: Result<Unit>)
      modifies this
      ensures (r, State()) == StoreStep(yaml, old(State()), layer, Call.SetDefaultAgent(name))
    {
      var dir := LayerOf(layer);
      if dir.Err? {
        return Err(dir.error);
      }
      var raw := LoadConfig(dir.value);
      if raw.Err? {
        return Err(raw.error);
      }
      var defaults := raw.value.defaults["agent" := Str(name)];
      Write(layer, dir.value.(config := Parsed(raw.value.(defaults := defaults))));
      r := Ok(Unit);
    }

    method CreateFile(layer: Layer, item: Entity, body: string) returns (r: Result<Unit>)
      requires !IsSection(item.Kind())
      modifies this
      ensures (r, State()) == StoreStep(yaml, old(State()), layer, Create(item, body))
    {
      if !ValidName(item.name) {
        return Err(InvalidName(item.name));
      }
      var dir := LayerOf(layer);
      if dir.Err? {
        return Err(dir.error);
      }
      var kind := item.Kind();
      var files := Texts(dir.value, kind);
      if item.name in files {
        return Err(NameConflict(kind, item.name, layer));
      }
      Write(layer, WithTexts(dir.value, kind, files[item.name := PrintFile(yaml, Draft(item, Some(body)))]));
      r := Ok(Unit);
    }

    /** The new text of a file: parse it, run the patch over the draft, print it when all went well. */
    method PatchFile(kind: Kind, name: string, text: string, patch: Patch) returns (r: Result<string>)
      requires !IsSection(kind) && WellFormed(patch)
      ensures r == PatchedText(yaml, kind, name, text, patch)
    {
      var d := ParseFile(yaml, kind, name, text);
      if d.None? || patch.NotAnObject? {
        return Err(ConfigError);
      }
      var p := ApplyPatch(d.value, patch.entries);
      PatchAllIsOverwrite(d.value, patch.entries);
      if !p.ok {
        return Err(Validation);
      }
      r := Ok(PrintFile(yaml, p.draft));
    }

    method UpdateFile(layer: Layer, kind: Kind, name: string, patch: Patch) returns (r: Result<Unit>)
      requires !IsSection(kind) && WellFormed(patch)
      modifies this
      ensures (r, State()) == StoreStep(yaml, old(State()), layer, Update(kind, name, patch))
    {
      if !ValidName(name) {
        return Err(InvalidName(name));
      }
      var dir := LayerOf(layer);
      if dir.Err? {
        return Err(dir.error);
      }
      var files := Texts(dir.value, kind);
      if name !in files {
        return Err(NotFound(kind, name, layer));
      }
      var text := PatchFile(kind, name, files[name], patch);
      if text.Err? {
        return Err(text.error);
      }
      Write(layer, WithTexts(dir.value, kind, files[name := text.value]));
      r := Ok(Unit);
    }

    method DeleteFile(layer: Layer, kind: Kind, name: string) returns (r: Result<Unit>)
      requires !IsSection(kind)
      modifies this
      ensures (r, State()) == StoreStep(yaml, old(State()), layer, Delete(kind, name))
    {
      if !ValidName(name) {
        return Err(InvalidName(name));
      }
      var dir := LayerOf(layer);
      if dir.Err? {
        return Err(dir.error);
      }
      var files := Texts(dir.value, kind);
      if name !in files {
        return Err(NotFound(kind, name, layer));
      }
      Write(layer, WithTexts(dir.value, kind, files - {name}));
      if kind == SkillKind && name in dir.value.cluttered {
        return Err(IoError);
      }
      r := Ok(Unit);
    }

    /** `load_merged_config` with `merge_config_layers`. */
    method MergedConfig() returns (r: Result<RawConfig>)
      ensures r == LoadMerged(State())
    {
      var g := LoadConfig(globalDir);
      if g.Err? {
        return Err(g.error);
      }
      if workspaceDir.None? {
        return Ok(g.value);
      }
      var w := LoadConfig(workspaceDir.value);
      if w.Err? {
        return Err(w.error);
      }
      var providers := Extend(g.value.providers, w.value.providers);
      var models := Extend(g.value.models, w.value.models);
      var mcp := Extend(g.value.mcp, w.value.mcp);
      var defaults := Extend(g.value.defaults, w.value.defaults);
      r := Ok(RawConfig(providers, models, mcp, defaults));
    }

    /** `resolve_named_files` and `resolve_skill_files`: the files of both layers. */
    method MergedFiles(kind: Kind) returns (texts: map<string, string>)
      requires !IsSection(kind)
      ensures texts == MergedTexts(State(), kind)
    {
      texts := Texts(globalDir, kind);
      if workspaceDir.Some? {
        texts := Extend(texts, Texts(workspaceDir.value, kind));
      }
    }

    /** What both layers hold of a kind: under each name what the overlay has, and nothing else. */
    method Merged(kind: Kind) returns (r: Result<map<string, Slot>>)
      ensures r.Ok? <==> !IsSection(kind) || Loads(State())
      ensures r.Err? ==> r.error == ConfigError
      ensures r.Ok? ==>
                forall name :: Overlay(State(), kind, name) == if name in r.value then Some(r.value[name]) else None
    {
      MergedIsOverlay(State(), kind);
      if IsSection(kind) {
        var raw := MergedConfig();
        if raw.Err? {
          return Err(raw.error);
        }
        return Ok(EntrySlots(Section(raw.value, kind)));
      }
      var texts := MergedFiles(kind);
      r := Ok(TextSlots(texts));
    }

    /** The `list_*` methods: one value that does not read fails the whole listing. */
    method List(kind: Kind) returns (r: Result<seq<Entity>>)
      ensures r == Listing(yaml, State(), kind)
    {
      var slots := Merged(kind);
      OverlayDecides(State(), kind, slots);
      if slots.Err? {
        return Err(slots.error);
      }
      var items := ReadNames(kind, slots.value, Strings.InOrder(slots.value.Keys));
      r := if items.None? then Err(ConfigError) else Ok(items.value);
    }

    method ReadNames(kind: Kind, slots: map<string, Slot>, names: seq<string>) returns (r: Option<seq<Entity>>)
      requires forall n | n in names :: n in slots
      ensures r == ReadAll(yaml, kind, slots, names)
    {
      var items: seq<Entity> := [];
      for i := 0 to |names|
        invariant ReadAll(yaml, kind, slots, names[..i]) == Some(items)
      {
        var e := Decode(yaml, kind, names[i], slots[names[i]]);
        ReadAllStep(yaml, kind, slots, names, i);
        if e.None? {
          return None;
        }
        items := items + [e.value];
      }
      assert names[..|names|] == names;
      r := Some(items);
    }

    method DefaultAgent() returns (r: Result<Option<string>>)
      ensures r == DefaultAgentOf(State())
    {
      var merged := MergedConfig();
      if merged.Err? {
        return Err(merged.error);
      }
      if "agent" !in merged.value.defaults {
        return Ok(None);
      }
      var value := merged.value.defaults["agent"];
      if !value.Str? {
        return Err(ConfigError);
      }
      r := Ok(Some(value.s));
    }

    method LoadSkill(name: string) returns (r: Result<string>)
      ensures r == LoadSkillOf(State(), name)
    {
      var files := MergedFiles(SkillKind);
      if name !in files {
        return Err(UnknownReference(SkillKind, name));
      }
      var split := Frontmatter.SplitFrontmatter(files[name]);
      if !split.Parts? {
        return Err(ConfigError);
      }
      r := Ok(Frontmatter.Trim(split.body));
    }
  }

  /** `BTreeMap::extend`: the pairs of `w` one by one, each replacing what has its key. */
  method Extend<V>(g: map<string, V>, w: map<string, V>) returns (m: map<string, V>)
    ensures m == g + w
  {
    m := g;
    var keys := Strings.InOrder(w.Keys);
    for i := 0 to |keys|
      invariant forall k :: k in m <==> k in g || k in keys[..i]
      invariant forall k | k in m :: if k in keys[..i] then k in w && m[k] == w[k] else k in g && m[k] == g[k]
    {
      assert keys[i] in keys;
      m := m[keys[i] := w[keys[i]]];
    }
    assert keys[..|keys|] == keys;
  }

  /** A result that agrees with the overlay is the merge. */
  lemma OverlayDecides(s: Store, kind: Kind, r: Result<map<string, Slot>>)
    requires r.Ok? <==> !IsSection(kind) || Loads(s)
    requires r.Err? ==> r.error == ConfigError
    requires r.Ok? ==> forall name :: Overlay(s, kind, name) == if name in r.value then Some(r.value[name]) else None
    ensures r == MergedSlots(s, kind)
  {
    MergedIsOverlay(s, kind);
    if r.Ok? {
      var a, b := r.value, MergedSlots(s, kind).value;
      forall n ensures n in a <==> n in b
        ensures n in a && n in b ==> a[n] == b[n]
      {
        assert Overlay(s, kind, n) == if n in a then Some(a[n]) else None;
      }
      assert a == b;
    }
  }
}
