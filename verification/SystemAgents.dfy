/**
 The bootstrap of the four system agents: a sequence of finds, inserts and partial updates over
 shared tables, without a transaction. One call is a small machine; each of its steps is one
 statement on the database.
 */
module SystemAgents {
  import opened Bytes
  import opened Json
  import Minimum

  // ----- keys and embedded contents -----

  datatype SystemKey = ConfigKey | HomeKey | ProjectKey | SandboxKey

  const KEYS: seq<SystemKey> := [ConfigKey, HomeKey, ProjectKey, SandboxKey]

  function KeyName(k: SystemKey): string {
    match k
    case ConfigKey => "config"
    case HomeKey => "home"
    case ProjectKey => "project"
    case SandboxKey => "sandbox"
  }

  function ContextKind(k: SystemKey): string {
    match k case ConfigKey => "settings" case _ => KeyName(k)
  }

  function RowName(k: SystemKey): string { "system-" + KeyName(k) }

  /** What the code embeds: its version, and a description and a prompt per key. */
  datatype Build = Build(version: int, description: SystemKey -> string, prompt: SystemKey -> string)

  datatype Content = Content(description: Option<string>, mode: string, toolsets: Json, skills: Json, prompt: string)

  function Embedded(b: Build, k: SystemKey): Content {
    Content(Some(b.description(k)), "primary", Arr([]), Arr([]), b.prompt(k))
  }

  /** `system_agent_for`. */
  function SystemAgentFor(kind: string): (r: Option<SystemKey>)
    ensures forall k :: r == Some(k) <==> ContextKind(k) == kind
  {
    if kind == "settings" then Some(ConfigKey)
    else if kind == "home" then Some(HomeKey)
    else if kind == "project" then Some(ProjectKey)
    else if kind == "sandbox" then Some(SandboxKey)
    else None
  }

  // ----- the tables -----

  datatype Row = Row(owner: int, name: string, content: Content, profile: int,
                     key: Option<string>, version: Option<int>)

  datatype Profile = Profile(owner: int, name: string, provider: int, model: string, options: Json)

  datatype Db = Db(agents: map<int, Row>, nextAgent: int, profiles: map<int, Profile>, nextProfile: int,
                   setting: Option<Json>, providers: set<int>, owners: set<int>)

  function ProfilesOf(db: Db, owner: int): set<int> {
    set id | id in db.profiles && db.profiles[id].owner == owner
  }

  /** The first profile of the owner, by increasing id. */
  function FindProfile(db: Db, owner: int): Option<int> {
    if Minimum.Inhabited(ProfilesOf(db, owner)) then Some(Minimum.Least(ProfilesOf(db, owner))) else None
  }

  ghost predicate OwnProfile(db: Db, owner: int, id: int) {
    id in db.profiles && db.profiles[id].owner == owner
  }

  /** The profile of the owner that no other profile of the owner comes before. */
  ghost predicate IsFirstProfile(db: Db, owner: int, id: int) {
    OwnProfile(db, owner, id) && forall other | OwnProfile(db, owner, other) :: id <= other
  }

  lemma FoundProfile(db: Db, owner: int)
    ensures forall id :: FindProfile(db, owner) == Some(id) <==> IsFirstProfile(db, owner, id)
    ensures FindProfile(db, owner).None? <==> forall id :: !OwnProfile(db, owner, id)
  {
    var ids := ProfilesOf(db, owner);
    assert forall id :: id in ids <==> OwnProfile(db, owner, id);
    if FindProfile(db, owner).Some? {
      assert IsFirstProfile(db, owner, Minimum.Least(ids));
    }
  }

  function RowsOf(db: Db, owner: int, k: SystemKey): set<int> {
    set id | id in db.agents && db.agents[id].owner == owner && db.agents[id].key == Some(KeyName(k))
  }

  /** The row of a key; under the unique index there is at most one. */
  function FindRow(db: Db, owner: int, k: SystemKey): Option<int> {
    if Minimum.Inhabited(RowsOf(db, owner, k)) then Some(Minimum.Least(RowsOf(db, owner, k))) else None
  }

  predicate NameTaken(db: Db, owner: int, name: string) {
    exists id :: id in db.agents && db.agents[id].owner == owner && db.agents[id].name == name
  }

  predicate KeyTaken(db: Db, owner: int, key: Option<string>) {
    key.Some? && exists id :: id in db.agents && db.agents[id].owner == owner && db.agents[id].key == key
  }

  /** The constraints of the agents table: both unique indices, and the foreign keys. */
  predicate CanInsertAgent(db: Db, row: Row) {
    && !NameTaken(db, row.owner, row.name) && !KeyTaken(db, row.owner, row.key)
    && row.profile in db.profiles && row.owner in db.owners
  }

  function InsertAgent(db: Db, row: Row): Db {
    db.(agents := db.agents[db.nextAgent := row], nextAgent := db.nextAgent + 1)
  }

  predicate CanInsertProfile(db: Db, p: Profile) {
    && p.provider in db.providers && p.owner in db.owners
    && !exists id :: id in db.profiles && db.profiles[id].owner == p.owner && db.profiles[id].name == p.name
  }

  function InsertProfile(db: Db, p: Profile): Db {
    db.(profiles := db.profiles[db.nextProfile := p], nextProfile := db.nextProfile + 1)
  }

  /** What the database itself keeps true. */
  ghost predicate DbInv(db: Db) {
    && (forall i, j | i in db.agents && j in db.agents && db.agents[i].owner == db.agents[j].owner ::
          && (db.agents[i].name == db.agents[j].name ==> i == j)
          && (db.agents[i].key.Some? && db.agents[i].key == db.agents[j].key ==> i == j))
    && (forall i | i in db.agents ::
          i < db.nextAgent && db.agents[i].profile in db.profiles && db.agents[i].owner in db.owners)
    && (forall i | i in db.profiles :: i < db.nextProfile && db.profiles[i].owner in db.owners)
  }

  // ----- one call -----

  datatype DefaultModel = DefaultModel(provider: int, model: string, options: Json)

  datatype CallError = NoModelProfile | DbError | Vanished | Aborted

  datatype Pc =
    | Start
    | NoProfile
    | HasDefault(d: DefaultModel)
    | ProviderSeen(d: DefaultModel)
    | AtKey(i: nat, profile: int, rows: seq<(int, Row)>)
    | Missing(i: nat, profile: int, rows: seq<(int, Row)>)
    | Stale(i: nat, profile: int, rows: seq<(int, Row)>, id: int)
    | Reread(i: nat, profile: int, rows: seq<(int, Row)>, id: int)
    | Done(rows: seq<(int, Row)>)
    | Failed(error: CallError)

  predicate PcOk(pc: Pc) {
    match pc
    case AtKey(i, _, _) => i < 4
    case Missing(i, _, _) => i < 4
    case Stale(i, _, _, _) => i < 4
    case Reread(i, _, _, _) => i < 4
    case _ => true
  }

  function Member(j: Json, key: string): Option<Json> {
    if j.Obj? && key in j.fields then Some(j.fields[key]) else None
  }

  /** The setting `default_model`, when it has an `i32` provider and a string model. */
  function ParseDefault(setting: Option<Json>): Option<DefaultModel> {
    if setting.None? then None
    else
      var provider, model := Member(setting.value, "provider_id"), Member(setting.value, "model");
      var options := Member(setting.value, "options");
      if provider.Some? && provider.value.Num? && provider.value.n.Int?
         && -0x8000_0000 <= provider.value.n.i < 0x8000_0000
         && model.Some? && model.value.Str? then
        Some(DefaultModel(provider.value.n.i, model.value.s, if options.Some? then options.value else Obj(map[])))
      else None
  }

  /** The setting is an object that names this default: a provider that fits 32 bits, a model, and options or none. */
  ghost predicate IsDefault(setting: Option<Json>, d: DefaultModel) {
    && setting.Some? && setting.value.Obj?
    && var f := setting.value.fields;
    && "provider_id" in f && f["provider_id"] == Num(Int(d.provider)) && -0x8000_0000 <= d.provider <= 0x7FFF_FFFF
    && "model" in f && f["model"] == Str(d.model)
    && d.options == if "options" in f then f["options"] else Obj(map[])
  }

  lemma ParsedIff(setting: Option<Json>, d: DefaultModel)
    ensures ParseDefault(setting) == Some(d) <==> IsDefault(setting, d)
  {
  }

  function DefaultProfile(owner: int, d: DefaultModel): Profile {
    Profile(owner, "default", d.provider, d.model, d.options)
  }

  function NewRow(b: Build, owner: int, k: SystemKey, profile: int): Row {
    Row(owner, RowName(k), Embedded(b, k), profile, Some(KeyName(k)), Some(b.version))
  }

  /** The `UPDATE` writes the six columns that are set, and no other. */
  function Rewritten(b: Build, k: SystemKey, row: Row): Row {
    row.(content := Embedded(b, k), version := Some(b.version))
  }

  function Pushed(i: nat, profile: int, rows: seq<(int, Row)>, id: int, row: Row): Pc {
    if i + 1 < 4 then AtKey(i + 1, profile, rows + [(id, row)]) else Done(rows + [(id, row)])
  }

  /** The next statement of a call. */
  function CallStep(b: Build, owner: int, db: Db, pc: Pc): (r: (Db, Pc))
    requires PcOk(pc)
    ensures PcOk(r.1)
  {
    match pc
    case Start =>
      (match FindProfile(db, owner) case Some(p) => (db, AtKey(0, p, [])) case None => (db, NoProfile))
    case NoProfile =>
      (match ParseDefault(db.setting) case Some(d) => (db, HasDefault(d)) case None => (db, Failed(NoModelProfile)))
    case HasDefault(d) =>
      (db, if d.provider in db.providers then ProviderSeen(d) else Failed(NoModelProfile))
    case ProviderSeen(d) =>
      if CanInsertProfile(db, DefaultProfile(owner, d)) then
        (InsertProfile(db, DefaultProfile(owner, d)), AtKey(0, db.nextProfile, []))
      else (db, Failed(DbError))
    case AtKey(i, profile, rows) =>
      (match FindRow(db, owner, KEYS[i])
       case None => (db, Missing(i, profile, rows))
       case Some(id) =>
         if id in db.agents && db.agents[id].version == Some(b.version) then
           (db, Pushed(i, profile, rows, id, db.agents[id]))
         else (db, Stale(i, profile, rows, id)))
    case Missing(i, profile, rows) =>
      var row := NewRow(b, owner, KEYS[i], profile);
      if CanInsertAgent(db, row) then (InsertAgent(db, row), Reread(i, profile, rows, db.nextAgent))
      else (db, Failed(DbError))
    case Stale(i, profile, rows, id) =>
      if id in db.agents then
        (db.(agents := db.agents[id := Rewritten(b, KEYS[i], db.agents[id])]), Reread(i, profile, rows, id))
      else (db, Failed(DbError))
    case Reread(i, profile, rows, id) =>
      if id in db.agents then (db, Pushed(i, profile, rows, id, db.agents[id])) else (db, Failed(Vanished))
    case Done(_) => (db, pc)
    case Failed(_) => (db, pc)
  }

  /**
   The insertion of the default profile, whatever others have done since the provider was looked up:
   it succeeds exactly when provider and owner are there and the owner has no profile of that name.
   */
  lemma DefaultIsInserted(b: Build, owner: int, db: Db, d: DefaultModel)
    ensures var (after, pc) := CallStep(b, owner, db, ProviderSeen(d));
            if && d.provider in db.providers && owner in db.owners
               && forall id | OwnProfile(db, owner, id) :: db.profiles[id].name != "default"
            then && pc == AtKey(0, db.nextProfile, [])
                 && after.profiles
                    == db.profiles[db.nextProfile := Profile(owner, "default", d.provider, d.model, d.options)]
            else after == db && pc == Failed(DbError)
  {
    assert forall id | id in db.profiles && db.profiles[id].owner == owner :: OwnProfile(db, owner, id);
  }

  // ----- several calls, users and administrators -----

  datatype Call = Call(owner: int, pc: Pc)

  /** A user's edit of a system row between its read, which the hook compares with, and its write. */
  datatype Edit = Edit(id: int, read: Row)

  datatype World = World(db: Db, calls: map<int, Call>, edits: map<int, Edit>)

  datatype Event =
    | Spawn(call: int, owner: int)
    | Advance(call: int)
    | Abort(call: int)
    | ReadForEdit(edit: int, id: int)
    | WriteModel(edit: int, profile: int)
    | CreateAgent(row: Row)
    | EditOrdinary(id: int, row: Row)
    | DeleteAgent(id: int)
    | CreateProfile(profile_: Profile)
    | EditProfile(id: int, profile_: Profile)
    | DeleteProfile(id: int)
    | ChangeSetting(setting: Option<Json>)
    | ChangeProviders(providers: set<int>)
    | DeleteOwner(owner: int)

  /** The row with only its model changed: all that the hook lets a user do to a system row. */
  function WithModel(row: Row, profile: int): Row { row.(profile := profile) }

  /** A replacement of one row that the constraints of the table allow. */
  predicate CanReplace(db: Db, id: int, row: Row) {
    && id in db.agents && db.agents[id].owner == row.owner && row.profile in db.profiles
    && (forall j | j in db.agents && j != id && db.agents[j].owner == row.owner ::
          db.agents[j].name != row.name && (row.key.Some? ==> db.agents[j].key != row.key))
  }

  /** One event; one that the hooks or the constraints refuse changes nothing. */
  function Happen(b: Build, w: World, e: Event): (r: World)
    requires forall c | c in w.calls :: PcOk(w.calls[c].pc)
    ensures forall c | c in r.calls :: PcOk(r.calls[c].pc)
  {
    var db := w.db;
    match e
    case Spawn(c, owner) => if c in w.calls then w else w.(calls := w.calls[c := Call(owner, Start)])
    case Advance(c) =>
      if c !in w.calls then w
      else
        var call := w.calls[c];
        var (after, pc) := CallStep(b, call.owner, db, call.pc);
        w.(db := after, calls := w.calls[c := call.(pc := pc)])
    case Abort(c) =>
      if c in w.calls && !w.calls[c].pc.Done? then w.(calls := w.calls[c := w.calls[c].(pc := Failed(Aborted))]) else w
    case ReadForEdit(e, id) =>
      if e !in w.edits && id in db.agents && db.agents[id].key.Some? then
        w.(edits := w.edits[e := Edit(id, db.agents[id])])
      else w
    case WriteModel(e, profile) =>
      if e !in w.edits then w
      else
        var edit, done := w.edits[e], w.(edits := w.edits - {e});
        var row := WithModel(edit.read, profile);
        if CanReplace(db, edit.id, row) then done.(db := db.(agents := db.agents[edit.id := row])) else done
    case CreateAgent(row) =>
      if row.key.None? && row.version.None? && CanInsertAgent(db, row) then w.(db := InsertAgent(db, row)) else w
    case EditOrdinary(id, row) =>
      if CanReplace(db, id, row) && db.agents[id].key.None? then w.(db := db.(agents := db.agents[id := row])) else w
    case DeleteAgent(id) =>
      if id in db.agents && db.agents[id].key.None? then w.(db := db.(agents := db.agents - {id})) else w
    case CreateProfile(p) => if CanInsertProfile(db, p) then w.(db := InsertProfile(db, p)) else w
    case EditProfile(id, p) =>
      if id in db.profiles && p.owner in db.owners then w.(db := db.(profiles := db.profiles[id := p])) else w
    case DeleteProfile(id) =>
      if forall i | i in db.agents :: db.agents[i].profile != id then
        w.(db := db.(profiles := db.profiles - {id}))
      else w
    case ChangeSetting(s) => w.(db := db.(setting := s))
    case ChangeProviders(p) => w.(db := db.(providers := p))
    case DeleteOwner(owner) =>
      if forall i | i in db.agents && db.agents[i].owner != owner ::
           db.agents[i].profile in db.profiles && db.profiles[db.agents[i].profile].owner != owner
      then w.(db := WithoutOwner(db, owner)) else w
  }

  /** The owner deleted, and with it all its agents and profiles. */
  function WithoutOwner(db: Db, owner: int): Db {
    db.(agents := map i | i in db.agents && db.agents[i].owner != owner :: db.agents[i],
        profiles := map i | i in db.profiles && db.profiles[i].owner != owner :: db.profiles[i],
        owners := db.owners - {owner})
  }

  function History(b: Build, w: World, events: seq<Event>): (r: World)
    requires forall c | c in w.calls :: PcOk(w.calls[c].pc)
    ensures forall c | c in r.calls :: PcOk(r.calls[c].pc)
  {
    if events == [] then w
    else Happen(b, History(b, w, events[..|events| - 1]), events[|events| - 1])
  }

  // ----- safety of every interleaving -----

  /** The row of the key that the answer `row` is a copy of, with its owner, its key and its name. */
  ghost predicate Holds(owner: int, db: Db, k: SystemKey, id: int, row: Row) {
    && OwnRow(owner, db, k, id) && row.owner == owner && row.key == Some(KeyName(k))
    && db.agents[id].name == row.name
  }

  ghost predicate HoldsAll(owner: int, db: Db, n: nat, rows: seq<(int, Row)>) {
    |rows| == n <= 4 && forall j | 0 <= j < n :: Holds(owner, db, KEYS[j], rows[j].0, rows[j].1)
  }

  ghost predicate OwnRow(owner: int, db: Db, k: SystemKey, id: int) {
    id in db.agents && db.agents[id].owner == owner && db.agents[id].key == Some(KeyName(k))
  }

  /** What a call may rely on at each point, whatever others do in between, while its owner is there. */
  ghost predicate LiveInv(db: Db, c: Call) {
    && PcOk(c.pc)
    && match c.pc
       case AtKey(i, _, rows) => HoldsAll(c.owner, db, i, rows)
       case Missing(i, _, rows) => HoldsAll(c.owner, db, i, rows)
       case Stale(i, _, rows, id) => HoldsAll(c.owner, db, i, rows) && OwnRow(c.owner, db, KEYS[i], id)
       case Reread(i, _, rows, id) => HoldsAll(c.owner, db, i, rows) && OwnRow(c.owner, db, KEYS[i], id)
       case Done(rows) => HoldsAll(c.owner, db, 4, rows)
       case Failed(e) => e != Vanished
       case _ => true
  }

  /** A call whose owner is gone has no row in its hands: identifiers are not used twice. */
  ghost predicate OrphanInv(db: Db, c: Call) {
    && PcOk(c.pc)
    && match c.pc
       case Stale(_, _, _, id) => id !in db.agents && id < db.nextAgent
       case Reread(_, _, _, id) => id !in db.agents && id < db.nextAgent
       case Done(rows) => |rows| == 4
       case _ => true
  }

  ghost predicate CallInv(db: Db, c: Call) {
    if c.owner in db.owners then LiveInv(db, c) else OrphanInv(db, c)
  }

  /** What an edit has read of the row besides its contents and model is still so. */
  ghost predicate EditInv(db: Db, e: Edit) {
    && e.id < db.nextAgent && e.read.key.Some?
    && (e.id in db.agents ==>
          && db.agents[e.id].owner == e.read.owner && db.agents[e.id].key == e.read.key
          && db.agents[e.id].name == e.read.name)
  }

  ghost predicate Inv(w: World) {
    && DbInv(w.db)
    && (forall c | c in w.calls :: CallInv(w.db, w.calls[c]))
    && (forall e | e in w.edits :: EditInv(w.db, w.edits[e]))
  }

  /**
   What every event leaves of a system row whose owner stays: it stays too, with its owner, name
   and key. Owners and identifiers are not brought back.
   */
  ghost predicate SystemRowsKept(before: Db, after: Db) {
    && after.owners <= before.owners && before.nextAgent <= after.nextAgent
    && (forall id | id in after.agents ::
          if id in before.agents then after.agents[id].owner == before.agents[id].owner else id >= before.nextAgent)
    && forall id | id in before.agents && before.agents[id].key.Some? && before.agents[id].owner in after.owners ::
      && id in after.agents
      && after.agents[id].owner == before.agents[id].owner
      && after.agents[id].name == before.agents[id].name
      && after.agents[id].key == before.agents[id].key
  }

  /** The columns of the contents, one by one. */
  ghost predicate HasContents(b: Build, k: SystemKey, row: Row) {
    && row.content.description == Some(b.description(k)) && row.content.prompt == b.prompt(k)
    && row.content.mode == "primary" && row.content.toolsets == Arr([]) && row.content.skills == Arr([])
  }

  ghost predicate IsEmbedded(b: Build, row: Row) {
    forall k | row.key == Some(KeyName(k)) :: HasContents(b, k, row)
  }

  /** The event writes the copy that an edit read of the row `id`, with another model. */
  predicate WritesBack(w: World, e: Event, id: int) {
    && e.WriteModel? && e.edit in w.edits && w.edits[e.edit].id == id
    && CanReplace(w.db, id, WithModel(w.edits[e.edit].read, e.profile))
  }

  /** The event is the statement of a call that rewrites the row `id`. */
  predicate Rewrites(w: World, e: Event, id: int) {
    && e.Advance? && e.call in w.calls && w.calls[e.call].pc.Stale? && w.calls[e.call].pc.id == id
    && id in w.db.agents
  }

  /** Contents and version of a system row after an event: only those two kinds of writes change them. */
  ghost predicate ContentFollows(b: Build, w: World, e: Event, after: Db, id: int) {
    && id in w.db.agents && id in after.agents
    && (if WritesBack(w, e, id) then
          var read := w.edits[e.edit].read;
          after.agents[id].version == read.version && after.agents[id].content == read.content
        else if Rewrites(w, e, id) then
          after.agents[id].version == Some(b.version) && IsEmbedded(b, after.agents[id])
        else
          after.agents[id].version == w.db.agents[id].version && after.agents[id].content == w.db.agents[id].content)
  }

  /** The model of a system row after an event: only an edit of its model changes it. */
  ghost function ModelAfter(w: World, e: Event, id: int, model: int): int {
    if WritesBack(w, e, id) then e.profile else model
  }

  ghost predicate SystemRow(w: World, id: int, after: Db) {
    id in w.db.agents && w.db.agents[id].key.Some? && w.db.agents[id].owner in after.owners
  }

  ghost predicate RowsFollow(b: Build, w: World, e: Event, after: Db) {
    forall id | SystemRow(w, id, after) ::
      && ContentFollows(b, w, e, after, id)
      && after.agents[id].profile == ModelAfter(w, e, id, w.db.agents[id].profile)
  }

  lemma KeptCallInv(before: Db, after: Db, c: Call)
    requires DbInv(before) && DbInv(after) && CallInv(before, c) && SystemRowsKept(before, after)
    ensures CallInv(after, c)
  {
  }

  lemma KeptEditInv(before: Db, after: Db, e: Edit)
    requires DbInv(before) && DbInv(after) && EditInv(before, e) && SystemRowsKept(before, after)
    ensures EditInv(after, e)
  {
  }

  lemma InsertIsSafe(db: Db, row: Row)
    requires DbInv(db) && CanInsertAgent(db, row)
    ensures DbInv(InsertAgent(db, row)) && SystemRowsKept(db, InsertAgent(db, row))
  {
  }

  lemma RewriteIsSafe(b: Build, db: Db, k: SystemKey, id: int)
    requires DbInv(db) && id in db.agents && db.agents[id].key == Some(KeyName(k))
    ensures var after := db.(agents := db.agents[id := Rewritten(b, k, db.agents[id])]);
            DbInv(after) && SystemRowsKept(db, after)
  {
  }

  /** A row may be replaced by one with its owner, name and key, whatever else it holds. */
  lemma ReplaceIsSafe(db: Db, id: int, row: Row)
    requires DbInv(db) && id in db.agents
    requires row.owner == db.agents[id].owner && row.name == db.agents[id].name && row.key == db.agents[id].key
    ensures CanReplace(db, id, row) <==> row.profile in db.profiles
    ensures row.profile in db.profiles ==>
              var after := db.(agents := db.agents[id := row]); DbInv(after) && SystemRowsKept(db, after)
  {
  }

  lemma FoundRow(db: Db, owner: int, k: SystemKey)
    ensures FindRow(db, owner, k).Some? ==> OwnRow(owner, db, k, FindRow(db, owner, k).value)
    ensures FindRow(db, owner, k).None? ==> forall id :: !OwnRow(owner, db, k, id)
  {
    if FindRow(db, owner, k).None? {
      forall id ensures !OwnRow(owner, db, k, id) {
        assert id !in RowsOf(db, owner, k);
      }
    }
  }

  lemma PushedInv(owner: int, db: Db, i: nat, profile: int, rows: seq<(int, Row)>, id: int)
    requires i < 4 && HoldsAll(owner, db, i, rows) && OwnRow(owner, db, KEYS[i], id) && owner in db.owners
    ensures CallInv(db, Call(owner, Pushed(i, profile, rows, id, db.agents[id])))
  {
    var all := rows + [(id, db.agents[id])];
    forall j | 0 <= j < i + 1 ensures Holds(owner, db, KEYS[j], all[j].0, all[j].1) {
      if j < i {
        assert all[j] == rows[j];
      }
    }
  }

  /** What one statement of a call guarantees to itself and to everybody else. */
  ghost predicate SafeStep(owner: int, db: Db, after: Db, pc: Pc) {
    DbInv(after) && SystemRowsKept(db, after) && CallInv(after, Call(owner, pc))
  }

  lemma LookIsSafe(b: Build, owner: int, db: Db, pc: Pc)
    requires DbInv(db) && LiveInv(db, Call(owner, pc)) && owner in db.owners && pc.AtKey?
    ensures SafeStep(owner, db, CallStep(b, owner, db, pc).0, CallStep(b, owner, db, pc).1)
  {
    FoundRow(db, owner, KEYS[pc.i]);
    if FindRow(db, owner, KEYS[pc.i]).Some? {
      PushedInv(owner, db, pc.i, pc.profile, pc.rows, FindRow(db, owner, KEYS[pc.i]).value);
    }
  }

  lemma WriteIsSafe(b: Build, owner: int, db: Db, pc: Pc)
    requires DbInv(db) && LiveInv(db, Call(owner, pc)) && owner in db.owners && (pc.Missing? || pc.Stale?)
    ensures SafeStep(owner, db, CallStep(b, owner, db, pc).0, CallStep(b, owner, db, pc).1)
  {
    var after := CallStep(b, owner, db, pc).0;
    if pc.Stale? {
      RewriteIsSafe(b, db, KEYS[pc.i], pc.id);
      KeptCallInv(db, after, Call(owner, pc));
    } else if CanInsertAgent(db, NewRow(b, owner, KEYS[pc.i], pc.profile)) {
      InsertIsSafe(db, NewRow(b, owner, KEYS[pc.i], pc.profile));
      KeptCallInv(db, after, Call(owner, pc));
    }
  }

  /** A call whose owner is gone only reads, and comes to an error. */
  lemma OrphanIsSafe(b: Build, owner: int, db: Db, pc: Pc)
    requires DbInv(db) && OrphanInv(db, Call(owner, pc)) && owner !in db.owners
    ensures CallStep(b, owner, db, pc).0 == db
    ensures OrphanInv(db, Call(owner, CallStep(b, owner, db, pc).1))
  {
    if pc.AtKey? {
      FoundRow(db, owner, KEYS[pc.i]);
    }
  }

  /** One statement of a call, from a state in which another statement may just have run. */
  lemma CallStepIsSafe(b: Build, owner: int, db: Db, pc: Pc)
    requires DbInv(db) && CallInv(db, Call(owner, pc))
    ensures SafeStep(owner, db, CallStep(b, owner, db, pc).0, CallStep(b, owner, db, pc).1)
  {
    if owner !in db.owners {
      OrphanIsSafe(b, owner, db, pc);
    } else {
      match pc
      case AtKey(i, profile, rows) => LookIsSafe(b, owner, db, pc);
      case Missing(i, profile, rows) => WriteIsSafe(b, owner, db, pc);
      case Stale(i, profile, rows, id) => WriteIsSafe(b, owner, db, pc);
      case Reread(i, profile, rows, id) => PushedInv(owner, db, i, profile, rows, id);
      case _ =>
    }
  }

  /** A statement of a call writes the contents of a system row only where it rewrites it, and never its model. */
  lemma CallStepFollows(b: Build, w: World, e: Event)
    requires Inv(w) && e.Advance? && e.call in w.calls
    ensures RowsFollow(b, w, e, Happen(b, w, e).db)
  {
    var call := w.calls[e.call];
    if call.pc.Stale? && call.owner in w.db.owners {
      assert OwnRow(call.owner, w.db, KEYS[call.pc.i], call.pc.id);
      RewrittenIsEmbedded(b, KEYS[call.pc.i], w.db.agents[call.pc.id]);
    }
  }

  lemma RewrittenIsEmbedded(b: Build, k: SystemKey, row: Row)
    requires row.key == Some(KeyName(k))
    ensures IsEmbedded(b, Rewritten(b, k, row))
  {
    forall l | KeyName(l) == KeyName(k) ensures l == k {
      KeyNameIsInjective(k, l);
    }
  }

  lemma KeyNameIsInjective(k: SystemKey, l: SystemKey)
    ensures KeyName(k) == KeyName(l) ==> k == l
  {
    assert KeyName(ConfigKey)[0] == 'c' && KeyName(HomeKey)[0] == 'h';
    assert KeyName(ProjectKey)[0] == 'p' && KeyName(SandboxKey)[0] == 's';
  }

  lemma WriteBackIsSafe(b: Build, w: World, e: Event)
    requires Inv(w) && e.WriteModel?
    ensures var after := Happen(b, w, e);
            DbInv(after.db) && SystemRowsKept(w.db, after.db) && RowsFollow(b, w, e, after.db)
  {
    if e.edit in w.edits {
      var edit := w.edits[e.edit];
      if edit.id in w.db.agents {
        ReplaceIsSafe(w.db, edit.id, WithModel(edit.read, e.profile));
      }
    }
  }

  /** Where the system rows are as they were, nothing has to follow. */
  lemma UntouchedFollow(b: Build, w: World, e: Event, after: Db)
    requires !e.Advance? && !e.WriteModel?
    requires forall id | SystemRow(w, id, after) :: id in after.agents && after.agents[id] == w.db.agents[id]
    ensures RowsFollow(b, w, e, after)
  {
  }

  lemma CreationIsSafe(b: Build, w: World, row: Row)
    requires Inv(w)
    ensures var (e, after) := (CreateAgent(row), Happen(b, w, CreateAgent(row)));
            DbInv(after.db) && SystemRowsKept(w.db, after.db) && RowsFollow(b, w, e, after.db)
  {
    if CanInsertAgent(w.db, row) {
      InsertIsSafe(w.db, row);
    }
    UntouchedFollow(b, w, CreateAgent(row), Happen(b, w, CreateAgent(row)).db);
  }

  lemma OrdinaryEditIsSafe(b: Build, w: World, id: int, row: Row)
    requires Inv(w)
    ensures var (e, after) := (EditOrdinary(id, row), Happen(b, w, EditOrdinary(id, row)));
            DbInv(after.db) && SystemRowsKept(w.db, after.db) && RowsFollow(b, w, e, after.db)
  {
    UntouchedFollow(b, w, EditOrdinary(id, row), Happen(b, w, EditOrdinary(id, row)).db);
  }

  lemma DeletionIsSafe(b: Build, w: World, id: int)
    requires Inv(w)
    ensures var (e, after) := (DeleteAgent(id), Happen(b, w, DeleteAgent(id)));
            DbInv(after.db) && SystemRowsKept(w.db, after.db) && RowsFollow(b, w, e, after.db)
  {
    UntouchedFollow(b, w, DeleteAgent(id), Happen(b, w, DeleteAgent(id)).db);
  }

  lemma OwnerDeletionIsSafe(b: Build, w: World, owner: int)
    requires Inv(w)
    ensures var (e, after) := (DeleteOwner(owner), Happen(b, w, DeleteOwner(owner)));
            DbInv(after.db) && SystemRowsKept(w.db, after.db) && RowsFollow(b, w, e, after.db)
  {
  }

  /** Events that leave the agents alone. */
  lemma ProfilesAreSafe(b: Build, w: World, e: Event)
    requires Inv(w)
    requires e.Spawn? || e.Abort? || e.ReadForEdit? || e.CreateProfile? || e.EditProfile? || e.DeleteProfile?
             || e.ChangeSetting? || e.ChangeProviders?
    ensures var after := Happen(b, w, e);
            DbInv(after.db) && SystemRowsKept(w.db, after.db) && RowsFollow(b, w, e, after.db)
  {
    assert Happen(b, w, e).db.agents == w.db.agents;
  }

  /** Events that are not a statement of a call. */
  lemma OtherEventIsSafe(b: Build, w: World, e: Event)
    requires Inv(w) && !e.Advance?
    ensures var after := Happen(b, w, e);
            DbInv(after.db) && SystemRowsKept(w.db, after.db) && RowsFollow(b, w, e, after.db)
  {
    match e
    case WriteModel(_, _) => WriteBackIsSafe(b, w, e);
    case CreateAgent(row) => CreationIsSafe(b, w, row);
    case EditOrdinary(id, row) => OrdinaryEditIsSafe(b, w, id, row);
    case DeleteAgent(id) => DeletionIsSafe(b, w, id);
    case DeleteOwner(owner) => OwnerDeletionIsSafe(b, w, owner);
    case _ => ProfilesAreSafe(b, w, e);
  }

  lemma OthersAreKept(b: Build, w: World, e: Event)
    requires Inv(w) && DbInv(Happen(b, w, e).db) && SystemRowsKept(w.db, Happen(b, w, e).db)
    ensures var after := Happen(b, w, e);
            && (forall c | c in after.calls && !(e.Advance? && e.call == c) :: CallInv(after.db, after.calls[c]))
            && (forall x | x in after.edits :: EditInv(after.db, after.edits[x]))
  {
    var after := Happen(b, w, e);
    forall c | c in after.calls && !(e.Advance? && e.call == c) ensures CallInv(after.db, after.calls[c]) {
      if c in w.calls {
        KeptCallInv(w.db, after.db, w.calls[c]);
      }
    }
    forall x | x in after.edits ensures EditInv(after.db, after.edits[x]) {
      if x in w.edits {
        KeptEditInv(w.db, after.db, w.edits[x]);
      }
    }
  }

  /**
   Any event in any reachable state keeps the invariant and the system rows of the owners that
   stay, and changes their contents and models only as the event says.
   */
  lemma EventIsSafe(b: Build, w: World, e: Event)
    requires Inv(w)
    ensures var after := Happen(b, w, e);
            Inv(after) && SystemRowsKept(w.db, after.db) && RowsFollow(b, w, e, after.db)
  {
    if e.Advance? {
      if e.call in w.calls {
        CallStepIsSafe(b, w.calls[e.call].owner, w.db, w.calls[e.call].pc);
        CallStepFollows(b, w, e);
        OthersAreKept(b, w, e);
      }
    } else {
      OtherEventIsSafe(b, w, e);
      OthersAreKept(b, w, e);
    }
  }

  lemma {:induction false} HistoryIsSafe(b: Build, w: World, events: seq<Event>)
    requires Inv(w)
    ensures Inv(History(b, w, events))
  {
    if events != [] {
      HistoryIsSafe(b, w, events[..|events| - 1]);
      EventIsSafe(b, History(b, w, events[..|events| - 1]), events[|events| - 1]);
    }
  }

  /** However calls and edits interleave, an owner never has two rows of one system key. */
  lemma OneRowPerKey(b: Build, w: World, events: seq<Event>, i: int, j: int)
    requires Inv(w)
    requires var db := History(b, w, events).db;
             && i in db.agents && j in db.agents && db.agents[i].owner == db.agents[j].owner
             && db.agents[i].key.Some? && db.agents[i].key == db.agents[j].key
    ensures i == j
  {
    HistoryIsSafe(b, w, events);
  }

  /** The model that a row has after `events`: its own, or what it was last set to. */
  ghost function LastModel(b: Build, w: World, events: seq<Event>, id: int, model: int): int
    requires forall c | c in w.calls :: PcOk(w.calls[c].pc)
  {
    if events == [] then model
    else
      var front, last := events[..|events| - 1], events[|events| - 1];
      ModelAfter(History(b, w, front), last, id, LastModel(b, w, front, id, model))
  }

  /**
   A system row is there as long as its owner is, and its model is always what a user last set,
   wherever the read and the write of that edit landed between the statements of however many calls.
   */
  lemma {:induction false} ModelEditsAreNeverLost(b: Build, w: World, events: seq<Event>, id: int)
    requires Inv(w) && id in w.db.agents && w.db.agents[id].key.Some?
    ensures var (was, db) := (w.db.agents[id], History(b, w, events).db);
            && w.db.nextAgent <= db.nextAgent
            && (id in db.agents <==> was.owner in db.owners)
            && (id in db.agents ==>
                  && db.agents[id].owner == was.owner && db.agents[id].key == was.key && db.agents[id].name == was.name
                  && db.agents[id].profile == LastModel(b, w, events, id, was.profile))
  {
    if events != [] {
      var front, last := events[..|events| - 1], events[|events| - 1];
      HistoryIsSafe(b, w, front);
      ModelEditsAreNeverLost(b, w, front, id);
      EventIsSafe(b, History(b, w, front), last);
      HistoryIsSafe(b, w, events);
      assert History(b, w, events) == Happen(b, History(b, w, front), last);
    }
  }

  // ----- how long a row stays current -----

  /** A return is final: no later event takes it back. */
  lemma {:induction false} ReturnIsFinal(b: Build, w: World, events: seq<Event>, c: int)
    requires c in w.calls && w.calls[c].pc.Done?
    requires forall x | x in w.calls :: PcOk(w.calls[x].pc)
    ensures c in History(b, w, events).calls && History(b, w, events).calls[c] == w.calls[c]
  {
    if events != [] {
      ReturnIsFinal(b, w, events[..|events| - 1], c);
    }
  }

  ghost predicate Current(b: Build, db: Db, id: int) {
    id in db.agents && db.agents[id].version == Some(b.version)
  }

  /** The row is current, and so is every copy of it that an edit has read and not yet written. */
  ghost predicate Fresh(b: Build, w: World, id: int) {
    && Current(b, w.db, id)
    && forall e | e in w.edits && w.edits[e].id == id :: w.edits[e].read.version == Some(b.version)
  }

  /** A version that says current says so of embedded contents, in the row and in every such copy. */
  ghost predicate Truthful(b: Build, w: World, id: int) {
    && id in w.db.agents && TruthfulRow(b, w.db.agents[id])
    && forall e | e in w.edits && w.edits[e].id == id :: TruthfulRow(b, w.edits[e].read)
  }

  ghost predicate TruthfulRow(b: Build, row: Row) {
    row.version == Some(b.version) ==> IsEmbedded(b, row)
  }

  /** Copies that edits hold of a row are old ones, or the row as it is. */
  lemma CopiesAreOld(b: Build, w: World, e: Event, x: int)
    requires Inv(w) && x in Happen(b, w, e).edits
    ensures (x in w.edits && Happen(b, w, e).edits[x] == w.edits[x])
         || (Happen(b, w, e).edits[x].id in w.db.agents && Happen(b, w, e).db == w.db
             && Happen(b, w, e).edits[x].read == w.db.agents[Happen(b, w, e).edits[x].id])
  {
  }

  lemma FreshByEvent(b: Build, w: World, e: Event, id: int)
    requires Inv(w) && SystemRow(w, id, Happen(b, w, e).db) && Fresh(b, w, id)
    ensures Fresh(b, Happen(b, w, e), id)
  {
    EventIsSafe(b, w, e);
    var after := Happen(b, w, e);
    assert ContentFollows(b, w, e, after.db, id);
    forall x | x in after.edits && after.edits[x].id == id ensures after.edits[x].read.version == Some(b.version) {
      CopiesAreOld(b, w, e, x);
    }
  }

  lemma TruthfulByEvent(b: Build, w: World, e: Event, id: int)
    requires Inv(w) && SystemRow(w, id, Happen(b, w, e).db) && Truthful(b, w, id)
    ensures Truthful(b, Happen(b, w, e), id)
  {
    EventIsSafe(b, w, e);
    var after := Happen(b, w, e);
    assert ContentFollows(b, w, e, after.db, id);
    TruthfulAfter(b, w, e, after.db, id);
    forall x | x in after.edits && after.edits[x].id == id ensures TruthfulRow(b, after.edits[x].read) {
      CopiesAreOld(b, w, e, x);
    }
  }

  lemma TruthfulAfter(b: Build, w: World, e: Event, after: Db, id: int)
    requires Inv(w) && Truthful(b, w, id) && ContentFollows(b, w, e, after, id)
    requires after.agents[id].key == w.db.agents[id].key
    ensures TruthfulRow(b, after.agents[id])
  {
    if WritesBack(w, e, id) {
      assert TruthfulRow(b, w.edits[e.edit].read) && w.edits[e.edit].read.key == after.agents[id].key;
    }
  }

  lemma OwnersOnlyLeave(b: Build, w: World, events: seq<Event>)
    requires Inv(w) && events != []
    ensures History(b, w, events).db.owners <= History(b, w, events[..|events| - 1]).db.owners
  {
    HistoryIsSafe(b, w, events[..|events| - 1]);
    EventIsSafe(b, History(b, w, events[..|events| - 1]), events[|events| - 1]);
  }

  lemma {:induction false} FreshStays(b: Build, w: World, events: seq<Event>, id: int)
    requires Inv(w) && id in w.db.agents && w.db.agents[id].key.Some? && Fresh(b, w, id)
    requires w.db.agents[id].owner in History(b, w, events).db.owners
    ensures Fresh(b, History(b, w, events), id)
  {
    if events != [] {
      var front := events[..|events| - 1];
      OwnersOnlyLeave(b, w, events);
      HistoryIsSafe(b, w, front);
      FreshStays(b, w, front, id);
      ModelEditsAreNeverLost(b, w, front, id);
      FreshByEvent(b, History(b, w, front), events[|events| - 1], id);
    }
  }

  /** Current contents stay true: a row that says it is current has the embedded contents, for ever. */
  lemma {:induction false} TruthfulStays(b: Build, w: World, events: seq<Event>, id: int)
    requires Inv(w) && id in w.db.agents && w.db.agents[id].key.Some? && Truthful(b, w, id)
    requires w.db.agents[id].owner in History(b, w, events).db.owners
    ensures Truthful(b, History(b, w, events), id)
  {
    if events != [] {
      var front := events[..|events| - 1];
      OwnersOnlyLeave(b, w, events);
      HistoryIsSafe(b, w, front);
      TruthfulStays(b, w, front, id);
      ModelEditsAreNeverLost(b, w, front, id);
      TruthfulByEvent(b, History(b, w, front), events[|events| - 1], id);
    }
  }

  ghost predicate StaysCurrent(b: Build, w: World, id: int)
    requires Inv(w) && id in w.db.agents
  {
    forall events: seq<Event> ::
      w.db.agents[id].owner in History(b, w, events).db.owners ==> Current(b, History(b, w, events).db, id)
  }

  /**
   A system row stays current through everything that can follow, as long as its owner is there, if
   and only if it is current and no edit under way has read a copy of it that is not.
   */
  lemma StaysCurrentIff(b: Build, w: World, id: int)
    requires Inv(w) && id in w.db.agents && w.db.agents[id].key.Some?
    ensures StaysCurrent(b, w, id) <==> Fresh(b, w, id)
  {
    if Fresh(b, w, id) {
      forall events: seq<Event> | w.db.agents[id].owner in History(b, w, events).db.owners
        ensures Current(b, History(b, w, events).db, id)
      {
        FreshStays(b, w, events, id);
      }
    } else if Current(b, w.db, id) {
      var e :| e in w.edits && w.edits[e].id == id && w.edits[e].read.version != Some(b.version);
      var write := WriteModel(e, w.db.agents[id].profile);
      ReplaceIsSafe(w.db, id, WithModel(w.edits[e].read, w.db.agents[id].profile));
      OneEvent(b, w, write);
      assert !Current(b, History(b, w, [write]).db, id);
    } else {
      assert History(b, w, []) == w;
      assert !Current(b, History(b, w, []).db, id);
    }
  }

  /**
   A call that returned, returned a copy of one row per key in key order; and from then on, whatever
   happens while its owner is there, these rows are there, with the owner, key and name it saw. One
   of them stays current if and only if it is, and no edit under way has read a copy that is not.
   */
  lemma ReturnedRowsStay(b: Build, w: World, events: seq<Event>, c: int, rows: seq<(int, Row)>)
    requires Inv(w)
    requires c in History(b, w, events).calls && History(b, w, events).calls[c].pc == Done(rows)
    ensures Inv(History(b, w, events)) && |rows| == 4
    ensures var after := History(b, w, events);
            after.calls[c].owner in after.db.owners ==>
              forall j | 0 <= j < 4 ::
                && Holds(after.calls[c].owner, after.db, KEYS[j], rows[j].0, rows[j].1)
                && (StaysCurrent(b, after, rows[j].0) <==> Fresh(b, after, rows[j].0))
  {
    HistoryIsSafe(b, w, events);
    var after := History(b, w, events);
    if after.calls[c].owner in after.db.owners {
      forall j | 0 <= j < 4 ensures Holds(after.calls[c].owner, after.db, KEYS[j], rows[j].0, rows[j].1)
        ensures StaysCurrent(b, after, rows[j].0) <==> Fresh(b, after, rows[j].0)
      {
        StaysCurrentIff(b, after, rows[j].0);
      }
    }
  }

  lemma OneEvent(b: Build, w: World, e: Event)
    requires forall c | c in w.calls :: PcOk(w.calls[c].pc)
    ensures History(b, w, [e]) == Happen(b, w, e)
  {
    assert [e][..0] == [];
    assert History(b, w, []) == w;
  }

  // ----- an edit around a rewrite -----

  /**
   An edit that read an outdated row before a call rewrote it, and writes after that, brings the old
   version and contents back, with the new model. When the call has not yet read the row again, it
   returns the outdated row.
   */
  lemma EditUndoesRewrite(b: Build, w: World, c: int, e: int, profile: int)
    requires Inv(w) && c in w.calls && w.calls[c].pc.Stale? && w.calls[c].owner in w.db.owners
    requires e !in w.edits && profile in w.db.profiles
    requires w.db.agents[w.calls[c].pc.id].version != Some(b.version)
    ensures var (pc, was) := (w.calls[c].pc, w.db.agents[w.calls[c].pc.id]);
            var rewritten := Happen(b, Happen(b, w, ReadForEdit(e, pc.id)), Advance(c));
            var written := Happen(b, rewritten, WriteModel(e, profile));
            && Current(b, rewritten.db, pc.id)
            && written.db.agents[pc.id] == WithModel(was, profile) && !Current(b, written.db, pc.id)
            && Happen(b, written, Advance(c)).calls[c].pc
               == Pushed(pc.i, pc.profile, pc.rows, pc.id, WithModel(was, profile))
  {
    var pc := w.calls[c].pc;
    var was := w.db.agents[pc.id];
    var read := Happen(b, w, ReadForEdit(e, pc.id));
    EventIsSafe(b, w, ReadForEdit(e, pc.id));
    var rewritten := Happen(b, read, Advance(c));
    EventIsSafe(b, read, Advance(c));
    ReplaceIsSafe(rewritten.db, pc.id, WithModel(was, profile));
    var written := Happen(b, rewritten, WriteModel(e, profile));
    assert written.db.agents[pc.id] == WithModel(was, profile);
  }
}
