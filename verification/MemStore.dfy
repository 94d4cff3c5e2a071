/** The in-memory store: six vectors, a side table of skill bodies, and the default agent. */
module MemStore {
  import opened Bytes
  import opened Json
  import opened Domain
  import opened Patches

  datatype Mem = Mem(providers: seq<Entity>, models: seq<Entity>, mcpServers: seq<Entity>, toolsets: seq<Entity>,
                     agents: seq<Entity>, skills: seq<Entity>, skillBodies: map<string, string>,
                     defaultAgent: Option<string>)

  const EMPTY := Mem([], [], [], [], [], [], map[], None)

  function Items(m: Mem, kind: Kind): seq<Entity> {
    match kind
    case ProviderKind => m.providers
    case ModelKind => m.models
    case McpKind => m.mcpServers
    case ToolsetKind => m.toolsets
    case AgentKind => m.agents
    case SkillKind => m.skills
  }

  function WithItems(m: Mem, kind: Kind, items: seq<Entity>): Mem {
    match kind
    case ProviderKind => m.(providers := items)
    case ModelKind => m.(models := items)
    case McpKind => m.(mcpServers := items)
    case ToolsetKind => m.(toolsets := items)
    case AgentKind => m.(agents := items)
    case SkillKind => m.(skills := items)
  }

  lemma OtherItems(m: Mem, kind: Kind, items: seq<Entity>, k: Kind)
    ensures Items(WithItems(m, kind, items), k) == if k == kind then items else Items(m, k)
  {
  }

  /** `position(|x| x.name == name)`. */
  function Position(items: seq<Entity>, name: string): (r: Option<nat>)
    ensures r.Some? ==> r.value < |items| && items[r.value].name == name
    ensures r.Some? ==> forall i | 0 <= i < r.value :: items[i].name != name
    ensures r.None? ==> forall i | 0 <= i < |items| :: items[i].name != name
  {
    if items == [] then None
    else if items[0].name == name then Some(0)
    else match Position(items[1..], name) case None => None case Some(i) => Some(i + 1)
  }

  function Find(items: seq<Entity>, name: string): Option<Entity> {
    match Position(items, name) case None => None case Some(i) => Some(items[i])
  }

  function Without(items: seq<Entity>, i: nat): seq<Entity>
    requires i < |items|
  {
    items[..i] + items[i + 1..]
  }

  /** What an update leaves: every member up to the first refused one is already in place. */
  function Patched(m: Mem, kind: Kind, i: nat, p: Progress): Mem
    requires i < |Items(m, kind)|
  {
    var n := WithItems(m, kind, Items(m, kind)[i := p.draft.e]);
    if p.draft.body.Some? then n.(skillBodies := n.skillBodies[p.draft.e.name := p.draft.body.value]) else n
  }

  /** One write call; the layer only shows in the errors. */
  function Step(layer: Layer, m: Mem, call: Call): (Result<Unit>, Mem) {
    match call
    case Create(item, body) =>
      var kind := item.Kind();
      if !ValidName(item.name) then (Err(InvalidName(item.name)), m)
      else if Position(Items(m, kind), item.name).Some? then (Err(NameConflict(kind, item.name, layer)), m)
      else
        var n := WithItems(m, kind, Items(m, kind) + [item]);
        (Ok(Unit), if kind == SkillKind then n.(skillBodies := n.skillBodies[item.name := body]) else n)
    case Update(kind, name, patch) =>
      var at := Position(Items(m, kind), name);
      if !ValidName(name) then (Err(InvalidName(name)), m)
      else if kind == SkillKind && patch.NotAnObject? then (Err(ConfigError), m)
      else if at.None? then (Err(NotFound(kind, name, layer)), m)
      else if patch.NotAnObject? then (Err(ConfigError), m)
      else
        var p := PatchAll(Draft(Items(m, kind)[at.value], None), patch.entries);
        (if p.ok then Ok(Unit) else Err(Validation), Patched(m, kind, at.value, p))
    case Delete(kind, name) =>
      var at := Position(Items(m, kind), name);
      if !ValidName(name) then (Err(InvalidName(name)), m)
      else if at.None? then (Err(NotFound(kind, name, layer)), m)
      else
        var n := WithItems(m, kind, Without(Items(m, kind), at.value));
        (Ok(Unit), if kind == SkillKind then n.(skillBodies := n.skillBodies - {name}) else n)
    case SetDefaultAgent(name) => (Ok(Unit), m.(defaultAgent := Some(name)))
  }

  /** `resolve_by_name`: the first match, unless there is a second one. */
  function ResolveByName(items: seq<Entity>, kind: Kind, name: string): Result<Entity> {
    match Position(items, name)
    case None => Err(UnknownReference(kind, name))
    case Some(i) =>
      if Position(items[i + 1..], name).Some? then Err(DuplicateName(kind, name)) else Ok(items[i])
  }

  /** `items[i]` has the name and no other item has. */
  ghost predicate NamedAlone(items: seq<Entity>, name: string, i: nat) {
    i < |items| && items[i].name == name && forall j | 0 <= j < |items| && j != i :: items[j].name != name
  }

  /** The two searches of `resolve_by_name`, said with positions. */
  lemma ResolvedBySearch(items: seq<Entity>, kind: Kind, name: string)
    ensures ResolveByName(items, kind, name).Err? ==>
              || ResolveByName(items, kind, name) == Err(UnknownReference(kind, name))
              || ResolveByName(items, kind, name) == Err(DuplicateName(kind, name))
    ensures ResolveByName(items, kind, name) == Err(UnknownReference(kind, name))
       <==> forall i | 0 <= i < |items| :: items[i].name != name
    ensures ResolveByName(items, kind, name) == Err(DuplicateName(kind, name))
       <==> exists i, j | 0 <= i < j < |items| :: items[i].name == name && items[j].name == name
    ensures forall i: nat | NamedAlone(items, name, i) :: ResolveByName(items, kind, name) == Ok(items[i])
  {
    var at := Position(items, name);
    if at.Some? {
      var rest := items[at.value + 1..];
      assert forall j | at.value < j < |items| :: items[j] == rest[j - at.value - 1];
      var again := Position(rest, name);
      if again.Some? {
        assert items[at.value + 1 + again.value].name == name;
      }
    }
  }

  class InMemoryConfigStore {
    var providers: seq<Entity>
    var models: seq<Entity>
    var mcpServers: seq<Entity>
    var toolsets: seq<Entity>
    var agents: seq<Entity>
    var skills: seq<Entity>
    var skillBodies: map<string, string>
    var defaultAgent: Option<string>

    function State(): Mem
      reads this
    {
      Mem(providers, models, mcpServers, toolsets, agents, skills, skillBodies, defaultAgent)
    }

    constructor ()
      ensures State() == EMPTY
    {
      providers, models, mcpServers, toolsets, agents, skills := [], [], [], [], [], [];
      skillBodies := map[];
      defaultAgent := None;
    }

    method List(kind: Kind) returns (items: seq<Entity>)
      ensures items == Items(State(), kind)
    {
      items := Items(State(), kind);
    }

    method Put(kind: Kind, items: seq<Entity>)
      modifies this
      ensures State() == WithItems(old(State()), kind, items)
    {
      match kind {
        case ProviderKind => providers := items;
        case ModelKind => models := items;
        case McpKind => mcpServers := items;
        case ToolsetKind => toolsets := items;
        case AgentKind => agents := items;
        case SkillKind => skills := items;
      }
    }

    method Create(layer: Layer, item: Entity, body: string) returns (r: Result<Unit>)
      modifies this
      ensures (r, State()) == Step(layer, old(State()), Call.Create(item, body))
    {
      if !ValidName(item.name) {
        return Err(InvalidName(item.name));
      }
      var items := List(item.Kind());
      if Position(items, item.name).Some? {
        return Err(NameConflict(item.Kind(), item.name, layer));
      }
      Put(item.Kind(), items + [item]);
      if item.SkillMeta? {
        skillBodies := skillBodies[item.name := body];
      }
      r := Ok(Unit);
    }

    /** Skills check the shape of the patch before they look the name up; the others after. */
    method Update(layer: Layer, kind: Kind, name: string, patch: Patch) returns (r: Result<Unit>)
      modifies this
      ensures (r, State()) == Step(layer, old(State()), Call.Update(kind, name, patch))
    {
      if !ValidName(name) {
        return Err(InvalidName(name));
      }
      if kind == SkillKind && patch.NotAnObject? {
        return Err(ConfigError);
      }
      var items := List(kind);
      var at := Position(items, name);
      if at.None? {
        return Err(NotFound(kind, name, layer));
      }
      if patch.NotAnObject? {
        return Err(ConfigError);
      }
      var p := ApplyPatch(Draft(items[at.value], None), patch.entries);
      Put(kind, items[at.value := p.draft.e]);
      if p.draft.body.Some? {
        skillBodies := skillBodies[p.draft.e.name := p.draft.body.value];
      }
      r := if p.ok then Ok(Unit) else Err(Validation);
    }

    method Delete(layer: Layer, kind: Kind, name: string) returns (r: Result<Unit>)
      modifies this
      ensures (r, State()) == Step(layer, old(State()), Call.Delete(kind, name))
    {
      if !ValidName(name) {
        return Err(InvalidName(name));
      }
      var items := List(kind);
      var at := Position(items, name);
      if at.None? {
        return Err(NotFound(kind, name, layer));
      }
      Put(kind, items[..at.value] + items[at.value + 1..]);
      if kind == SkillKind {
        skillBodies := skillBodies - {name};
      }
      r := Ok(Unit);
    }

    method SetDefaultAgent(layer: Layer, name: string) returns (r: Result<Unit>)
      modifies this
      ensures (r, State()) == Step(layer, old(State()), Call.SetDefaultAgent(name))
    {
      defaultAgent := Some(name);
      r := Ok(Unit);
    }

    /** `get_*`: the one item of the name; none or several are errors. */
    method Get(kind: Kind, name: string) returns (r: Result<Entity>)
      ensures var items := Items(State(), kind);
              && (r.Ok? <==> exists i: nat :: NamedAlone(items, name, i) && r == Ok(items[i]))
              && (r == Err(UnknownReference(kind, name)) <==> forall i | 0 <= i < |items| :: items[i].name != name)
              && (r == Err(DuplicateName(kind, name))
                  <==> exists i, j | 0 <= i < j < |items| :: items[i].name == name && items[j].name == name)
      ensures r == ResolveByName(Items(State(), kind), kind, name)
    {
      var items := List(kind);
      var first := Next(items, name, 0);
      ResolvedBySearch(items, kind, name);
      if first == |items| {
        return Err(UnknownReference(kind, name));
      }
      var second := Next(items, name, first + 1);
      if second < |items| {
        return Err(DuplicateName(kind, name));
      }
      assert NamedAlone(items, name, first);
      r := Ok(items[first]);
    }

    /** The filtered iterator: the next item of the name at `from` or behind it. */
    method Next(items: seq<Entity>, name: string, from: nat) returns (i: nat)
      requires from <= |items|
      ensures from <= i <= |items| && (i < |items| ==> items[i].name == name)
      ensures forall j | from <= j < i :: items[j].name != name
    {
      i := from;
      while i < |items| && items[i].name != name
        invariant from <= i <= |items|
        invariant forall j | from <= j < i :: items[j].name != name
      {
        i := i + 1;
      }
    }

    method LoadSkill(name: string) returns (r: Result<string>)
      ensures r == LoadSkillOf(State(), name)
    {
      r := if name in skillBodies then Ok(skillBodies[name]) else Err(UnknownReference(SkillKind, name));
    }
  }

  function LoadSkillOf(m: Mem, name: string): Result<string> {
    if name in m.skillBodies then Ok(m.skillBodies[name]) else Err(UnknownReference(SkillKind, name))
  }

  // ----- the invariant of every run -----

  ghost predicate GoodItems(items: seq<Entity>, kind: Kind) {
    UniqueNames(items) && forall i | 0 <= i < |items| :: items[i].Kind() == kind
  }

  /** Unique names, items in the vector of their kind, and a body for exactly the listed skills. */
  ghost predicate Invariant(m: Mem) {
    && (forall kind :: GoodItems(Items(m, kind), kind))
    && (forall name :: name in m.skillBodies <==> Position(m.skills, name).Some?)
  }

  ghost function Run(layer: Layer, m: Mem, calls: seq<Call>): Mem {
    if calls == [] then m
    else Step(layer, Run(layer, m, calls[..|calls| - 1]), calls[|calls| - 1]).1
  }

  lemma GoodItemsOf(m: Mem, kind: Kind)
    requires Invariant(m)
    ensures GoodItems(Items(m, kind), kind)
  {
  }

  lemma PositionIs(items: seq<Entity>, i: nat)
    requires UniqueNames(items) && i < |items|
    ensures Position(items, items[i].name) == Some(i)
  {
    var p := Position(items, items[i].name);
    assert p.Some?;
  }

  /** Lookups behind the three ways a vector changes. */
  lemma FindAfterPush(items: seq<Entity>, item: Entity, name: string)
    requires UniqueNames(items) && Position(items, item.name).None?
    ensures UniqueNames(items + [item])
    ensures Find(items + [item], name) == if name == item.name then Some(item) else Find(items, name)
  {
    var after := items + [item];
    if name == item.name {
      PositionIs(after, |items|);
    } else if Position(items, name).Some? {
      PositionIs(after, Position(items, name).value);
    }
  }

  lemma FindAfterReplace(items: seq<Entity>, i: nat, item: Entity, name: string)
    requires UniqueNames(items) && i < |items| && item.name == items[i].name
    ensures UniqueNames(items[i := item])
    ensures Find(items[i := item], name) == if name == item.name then Some(item) else Find(items, name)
  {
    var after := items[i := item];
    if name == item.name {
      PositionIs(after, i);
    } else if Position(items, name).Some? {
      PositionIs(after, Position(items, name).value);
    } else {
      assert forall j | 0 <= j < |after| :: after[j].name != name;
    }
  }

  lemma UniqueAfterRemove(items: seq<Entity>, i: nat)
    requires UniqueNames(items) && i < |items|
    ensures UniqueNames(Without(items, i))
    ensures forall j | 0 <= j < |items| - 1 :: Without(items, i)[j] == items[if j < i then j else j + 1]
    ensures forall x :: x in Without(items, i) ==> x in items
  {
    var after := Without(items, i);
    assert forall j | 0 <= j < |after| :: after[j] == items[if j < i then j else j + 1];
  }

  lemma FindAfterRemove(items: seq<Entity>, i: nat, name: string)
    requires UniqueNames(items) && i < |items|
    ensures UniqueNames(Without(items, i))
    ensures forall x :: x in Without(items, i) ==> x in items
    ensures Find(Without(items, i), name) == if name == items[i].name then None else Find(items, name)
  {
    var after := Without(items, i);
    UniqueAfterRemove(items, i);
    if name != items[i].name && Position(items, name).Some? {
      var k := Position(items, name).value;
      PositionIs(after, if k < i then k else k - 1);
    }
  }

  lemma FoundIffPositioned(items: seq<Entity>, name: string)
    ensures Find(items, name).Some? <==> Position(items, name).Some?
    ensures Find(items, name).Some? ==> Find(items, name).value in items && Find(items, name).value.name == name
  {
  }

  /** Every call keeps the invariant, also an update that fails half-way. */
  lemma StepKeepsInvariant(layer: Layer, m: Mem, call: Call)
    requires Invariant(m)
    ensures Invariant(Step(layer, m, call).1)
  {
    var n := Step(layer, m, call).1;
    match call
    case Create(item, body) =>
      if ValidName(item.name) && Position(Items(m, item.Kind()), item.name).None? {
        PushKeepsInvariant(m, item, body, n);
      }
    case Update(kind, name, patch) =>
      var at := Position(Items(m, kind), name);
      if ValidName(name) && at.Some? && patch.Members? {
        var p := PatchAll(Draft(Items(m, kind)[at.value], None), patch.entries);
        OnlySkillsGetBodies(Draft(Items(m, kind)[at.value], None), patch.entries);
        ReplaceKeepsInvariant(m, kind, at.value, p);
      }
    case Delete(kind, name) =>
      var at := Position(Items(m, kind), name);
      if ValidName(name) && at.Some? {
        RemoveKeepsInvariant(m, kind, at.value, name, n);
      }
    case SetDefaultAgent(_) =>
      forall k ensures GoodItems(Items(n, k), k) {
        assert GoodItems(Items(m, k), k);
      }
  }

  /** Replacing the vector of one kind by a good one leaves all of them good. */
  lemma GoodButOne(m: Mem, kind: Kind, items: seq<Entity>, bodies: map<string, string>)
    requires Invariant(m) && GoodItems(items, kind)
    ensures forall k :: GoodItems(Items(WithItems(m, kind, items).(skillBodies := bodies), k), k)
  {
    var n := WithItems(m, kind, items).(skillBodies := bodies);
    forall k ensures GoodItems(Items(n, k), k) {
      assert GoodItems(Items(m, k), k);
    }
  }

  lemma PushKeepsInvariant(m: Mem, item: Entity, body: string, n: Mem)
    requires Invariant(m) && Position(Items(m, item.Kind()), item.name).None?
    requires var w := WithItems(m, item.Kind(), Items(m, item.Kind()) + [item]);
             n == if item.SkillMeta? then w.(skillBodies := w.skillBodies[item.name := body]) else w
    ensures Invariant(n)
  {
    var kind := item.Kind();
    var items := Items(m, kind);
    GoodItemsOf(m, kind);
    FindAfterPush(items, item, item.name);
    assert GoodItems(items + [item], kind);
    GoodButOne(m, kind, items + [item], n.skillBodies);
    forall name ensures name in n.skillBodies <==> Position(n.skills, name).Some? {
      FindAfterPush(items, item, name);
      FoundIffPositioned(items, name);
      FoundIffPositioned(items + [item], name);
    }
  }

  lemma ReplaceKeepsInvariant(m: Mem, kind: Kind, i: nat, p: Progress)
    requires Invariant(m) && i < |Items(m, kind)|
    requires p.draft.e.Kind() == kind && p.draft.e.name == Items(m, kind)[i].name
    requires p.draft.body.Some? ==> kind == SkillKind
    ensures Invariant(Patched(m, kind, i, p))
  {
    var n := Patched(m, kind, i, p);
    var items := Items(m, kind);
    GoodItemsOf(m, kind);
    FindAfterReplace(items, i, p.draft.e, p.draft.e.name);
    assert GoodItems(items[i := p.draft.e], kind);
    GoodButOne(m, kind, items[i := p.draft.e], n.skillBodies);
    PositionIs(items, i);
    forall name ensures name in n.skillBodies <==> Position(n.skills, name).Some? {
      FindAfterReplace(items, i, p.draft.e, name);
      FoundIffPositioned(items, name);
      FoundIffPositioned(items[i := p.draft.e], name);
    }
  }

  lemma RemoveKeepsInvariant(m: Mem, kind: Kind, i: nat, name: string, n: Mem)
    requires Invariant(m) && i < |Items(m, kind)| && Items(m, kind)[i].name == name
    requires var w := WithItems(m, kind, Without(Items(m, kind), i));
             n == if kind == SkillKind then w.(skillBodies := w.skillBodies - {name}) else w
    ensures Invariant(n)
  {
    var items := Items(m, kind);
    GoodItemsOf(m, kind);
    FindAfterRemove(items, i, name);
    assert GoodItems(Without(items, i), kind) by {
      assert forall j | 0 <= j < |Without(items, i)| :: Without(items, i)[j] in Without(items, i);
    }
    GoodButOne(m, kind, Without(items, i), n.skillBodies);
    forall x ensures x in n.skillBodies <==> Position(n.skills, x).Some? {
      FindAfterRemove(items, i, x);
      FoundIffPositioned(items, x);
      FoundIffPositioned(Without(items, i), x);
    }
  }

  lemma {:induction false} OnlySkillsGetBodies(d: Draft, entries: seq<(string, Json)>)
    requires d.body.None?
    ensures PatchAll(d, entries).draft.body.Some? ==> d.e.SkillMeta?
  {
    if entries != [] {
      OnlySkillsGetBodies(d, entries[..|entries| - 1]);
    }
  }

  lemma {:induction false} RunKeepsInvariant(layer: Layer, m: Mem, calls: seq<Call>)
    requires Invariant(m)
    ensures Invariant(Run(layer, m, calls))
  {
    if calls != [] {
      RunKeepsInvariant(layer, m, calls[..|calls| - 1]);
      StepKeepsInvariant(layer, Run(layer, m, calls[..|calls| - 1]), calls[|calls| - 1]);
    }
  }

  /**
   After any run from empty: a lookup by name finds the item or says it is unknown, never that
   it is there twice, and a skill loads exactly when it is listed.
   */
  lemma RunsFromEmpty(layer: Layer, calls: seq<Call>, kind: Kind, name: string)
    ensures var m := Run(layer, EMPTY, calls);
            && ResolveByName(Items(m, kind), kind, name)
               == (match Find(Items(m, kind), name)
                   case Some(e) => Ok(e)
                   case None => Err(UnknownReference(kind, name)))
            && (LoadSkillOf(m, name).Ok? <==> exists i | 0 <= i < |m.skills| :: m.skills[i].name == name)
  {
    RunKeepsInvariant(layer, EMPTY, calls);
    GoodItemsOf(Run(layer, EMPTY, calls), kind);
    ResolvesUnique(Items(Run(layer, EMPTY, calls), kind), kind, name);
  }

  /** Without duplicate names, resolving a name is finding it. */
  lemma ResolvesUnique(items: seq<Entity>, kind: Kind, name: string)
    requires UniqueNames(items)
    ensures ResolveByName(items, kind, name)
         == match Find(items, name) case Some(e) => Ok(e) case None => Err(UnknownReference(kind, name))
  {
    var at := Position(items, name);
    if at.Some? {
      var rest := items[at.value + 1..];
      assert forall j | 0 <= j < |rest| :: rest[j] == items[at.value + 1 + j];
    }
  }

  // ----- the order of a listing -----

  function ItemNames(items: seq<Entity>): (r: seq<string>)
    ensures |r| == |items| && forall i | 0 <= i < |items| :: r[i] == items[i].name
  {
    seq(|items|, i requires 0 <= i < |items| => items[i].name)
  }

  /** `now` is `was` without the element at `i`. */
  ghost predicate IsGone(was: seq<string>, now: seq<string>, i: nat) {
    i < |was| && |now| == |was| - 1 && forall j | 0 <= j < |now| :: now[j] == was[if j < i then j else j + 1]
  }

  lemma NamesAfterUpdate(layer: Layer, m: Mem, kind: Kind, name: string, patch: Patch, k: Kind)
    ensures ItemNames(Items(Step(layer, m, Update(kind, name, patch)).1, k)) == ItemNames(Items(m, k))
  {
    var items, n := Items(m, kind), Step(layer, m, Update(kind, name, patch)).1;
    var at := Position(items, name);
    if ValidName(name) && at.Some? && patch.Members? {
      var p := PatchAll(Draft(items[at.value], None), patch.entries);
      var after := items[at.value := p.draft.e];
      OtherItems(m, kind, after, k);
      assert Items(n, k) == Items(WithItems(m, kind, after), k);
      assert ItemNames(after) == ItemNames(items);
    }
  }

  lemma NamesAfterDelete(layer: Layer, m: Mem, kind: Kind, name: string, k: Kind)
    requires Invariant(m)
    ensures var (r, n) := Step(layer, m, Delete(kind, name));
            var was, now := ItemNames(Items(m, k)), ItemNames(Items(n, k));
            if r.Ok? && k == kind then exists i: nat :: IsGone(was, now, i) && was[i] == name else now == was
  {
    var items, n := Items(m, kind), Step(layer, m, Delete(kind, name)).1;
    var at := Position(items, name);
    if ValidName(name) && at.Some? {
      var after := Without(items, at.value);
      GoodItemsOf(m, kind);
      UniqueAfterRemove(items, at.value);
      OtherItems(m, kind, after, k);
      assert Items(n, k) == Items(WithItems(m, kind, after), k);
      assert IsGone(ItemNames(items), ItemNames(after), at.value);
    }
  }

  lemma NamesAfterCreate(layer: Layer, m: Mem, item: Entity, body: string, k: Kind)
    ensures var (r, n) := Step(layer, m, Create(item, body));
            ItemNames(Items(n, k)) == ItemNames(Items(m, k)) + if r.Ok? && item.Kind() == k then [item.name] else []
  {
    var kind, n := item.Kind(), Step(layer, m, Create(item, body)).1;
    if Step(layer, m, Create(item, body)).0.Ok? {
      OtherItems(m, kind, Items(m, kind) + [item], k);
      assert Items(n, k) == Items(WithItems(m, kind, Items(m, kind) + [item]), k);
    }
  }

  /**
   A listing is in the order of creation: a created name comes last, an updated one keeps its place,
   a deleted one leaves its, and all other listings stay as they are.
   */
  lemma ListsInOrderOfCreation(layer: Layer, m: Mem, call: Call, kind: Kind)
    requires Invariant(m)
    ensures var (r, n) := Step(layer, m, call);
            var was, now := ItemNames(Items(m, kind)), ItemNames(Items(n, kind));
            match call
            case Create(item, _) => now == was + if r.Ok? && item.Kind() == kind then [item.name] else []
            case Delete(k, name) =>
              if r.Ok? && kind == k then exists i: nat :: IsGone(was, now, i) && was[i] == name else now == was
            case _ => now == was
  {
    match call
    case Create(item, body) => NamesAfterCreate(layer, m, item, body, kind);
    case Update(k, name, patch) => NamesAfterUpdate(layer, m, k, name, patch, kind);
    case Delete(k, name) => NamesAfterDelete(layer, m, k, name, kind);
    case SetDefaultAgent(_) =>
  }

  // ----- what a refused update leaves -----

  /** An item of a vector with its side-table body. */
  function DraftIn(items: seq<Entity>, bodies: map<string, string>, kind: Kind, name: string): Option<Draft> {
    match Find(items, name)
    case None => None
    case Some(e) => Some(Draft(e, if kind == SkillKind && name in bodies then Some(bodies[name]) else None))
  }

  function DraftAt(m: Mem, kind: Kind, name: string): Option<Draft> {
    DraftIn(Items(m, kind), m.skillBodies, kind, name)
  }

  lemma OverwriteKeepsBody(e: Entity, b: Option<string>, m: Fields)
    ensures Overwrite(Draft(e, b), m).e == Overwrite(Draft(e, None), m).e
    ensures Overwrite(Draft(e, b), m).body
         == if Overwrite(Draft(e, None), m).body.Some? then Overwrite(Draft(e, None), m).body else b
  {
  }

  /** The first member that the match refuses, or the length. */
  function FirstRefused(kind: Kind, entries: seq<(string, Json)>): (j: nat)
    ensures j <= |entries| && (j < |entries| ==> !Accepts(kind, entries[j].0, entries[j].1))
    ensures forall i | 0 <= i < j :: Accepts(kind, entries[i].0, entries[i].1)
  {
    if entries == [] then 0
    else
      var j := FirstRefused(kind, entries[..|entries| - 1]);
      if j == |entries| - 1 && Accepts(kind, entries[j].0, entries[j].1) then |entries| else j
  }

  lemma FrontIsAccepted(kind: Kind, entries: seq<(string, Json)>, j: nat)
    requires DistinctKeys(entries) && j <= FirstRefused(kind, entries)
    ensures AcceptsAll(kind, ToMap(entries[..j]))
  {
    var front := entries[..j];
    forall k | k in ToMap(front) ensures Accepts(kind, k, ToMap(front)[k]) {
      var i :| 0 <= i < |front| && front[i].0 == k;
      ToMapAt(front, i);
      assert front[i] == entries[i];
    }
  }

  /** The loop has overwritten the members in front of the first refused one. */
  lemma StopsAtFirstRefused(d: Draft, entries: seq<(string, Json)>, j: nat)
    requires DistinctKeys(entries) && j == FirstRefused(d.e.Kind(), entries) < |entries|
    ensures AcceptsAll(d.e.Kind(), ToMap(entries[..j]))
    ensures PatchAll(d, entries) == Progress(Overwrite(d, ToMap(entries[..j])), false)
  {
    var front := entries[..j];
    FrontIsAccepted(d.e.Kind(), entries, j);
    PatchAllIsOverwrite(d, front);
    AcceptsIff(PatchAll(d, front).draft, entries[j].0, entries[j].1);
    assert entries[..j + 1][..j] == front;
    StopsAtFirstError(d, entries, j + 1);
  }

  /** The side table and the vector stay as they are exactly when the item with its body does. */
  lemma PatchedIsSameIff(m: Mem, kind: Kind, name: string, i: nat, members: Fields)
    requires Invariant(m) && Position(Items(m, kind), name) == Some(i)
    requires Overwrite(Draft(Items(m, kind)[i], None), members).body.Some? ==> kind == SkillKind
    ensures DraftAt(m, kind, name).Some?
    ensures var d := DraftAt(m, kind, name).value;
            Patched(m, kind, i, Progress(Overwrite(Draft(Items(m, kind)[i], None), members), false)) == m
            <==> Overwrite(d, members) == d
  {
    var items, d := Items(m, kind), DraftAt(m, kind, name).value;
    GoodItemsOf(m, kind);
    var next := Overwrite(Draft(items[i], None), members);
    OverwriteKeepsBody(items[i], d.body, members);
    var n := WithItems(m, kind, items[i := next.e]);
    assert Items(n, kind) == items[i := next.e] && items[i := next.e][i] == next.e;
    assert items[i := items[i]] == items;
    assert kind == SkillKind ==> name in m.skillBodies;
    if next.body.Some? {
      assert next.e.name == name;
      assert n.skillBodies[name := next.body.value][name] == next.body.value;
      if m.skillBodies[name] == next.body.value {
        assert m.skillBodies[name := next.body.value] == m.skillBodies;
      }
    }
  }

  /**
   A refused update leaves the in-memory store as it was if and only if it was refused before the
   loop, or every member in front of the first refused one, taken alone, leaves the item as it is.
   */
  lemma RefusedUpdateKeepsIff(layer: Layer, m: Mem, kind: Kind, name: string, patch: Patch)
    requires Invariant(m) && WellFormed(patch)
    requires Step(layer, m, Update(kind, name, patch)).0.Err?
    ensures Step(layer, m, Update(kind, name, patch)).1 == m
       <==> (ValidName(name) && DraftAt(m, kind, name).Some? && patch.Members? ==>
               var d := DraftAt(m, kind, name).value;
               forall i | 0 <= i < FirstRefused(kind, patch.entries) ::
                 SetField(d, patch.entries[i].0, patch.entries[i].1) == Some(d))
  {
    FoundIffPositioned(Items(m, kind), name);
    if ValidName(name) && DraftAt(m, kind, name).Some? && patch.Members? {
      var at := Position(Items(m, kind), name).value;
      var start, d := Draft(Items(m, kind)[at], None), DraftAt(m, kind, name).value;
      var j := FirstRefused(kind, patch.entries);
      GoodItemsOf(m, kind);
      assert start.e.Kind() == d.e.Kind() == kind;
      RefusedHasFirst(start, patch.entries);
      StopsAtFirstRefused(start, patch.entries, j);
      OnlySkillsGetBodies(start, patch.entries);
      PatchedIsSameIff(m, kind, name, at, ToMap(patch.entries[..j]));
      OverwriteIsSameIff(d, patch.entries[..j]);
      assert forall i | 0 <= i < j :: patch.entries[..j][i] == patch.entries[i];
    }
  }

  lemma RefusedHasFirst(d: Draft, entries: seq<(string, Json)>)
    requires DistinctKeys(entries) && !PatchAll(d, entries).ok
    ensures FirstRefused(d.e.Kind(), entries) < |entries|
  {
    PatchAllIsOverwrite(d, entries);
    var k :| k in ToMap(entries) && !Accepts(d.e.Kind(), k, ToMap(entries)[k]);
    var i :| 0 <= i < |entries| && entries[i].0 == k;
    ToMapAt(entries, i);
  }

  /** A failed update is not undone: members before the refused one stay. */
  lemma FailedUpdateStays()
    ensures var m := EMPTY.(providers := [Provider("p", Ollama, "a", None)]);
            var patch := Members([("endpoint", Str("b")), ("type", Null)]);
            Step(Global, m, Update(ProviderKind, "p", patch))
            == (Err(Validation), EMPTY.(providers := [Provider("p", Ollama, "b", None)]))
  {
    var before, after := Provider("p", Ollama, "a", None), Provider("p", Ollama, "b", None);
    var d := Draft(before, None);
    var first: (string, Json), second: (string, Json) := ("endpoint", Str("b")), ("type", Null);
    assert [first, second][..1] == [first] && [first][..0] == [];
    assert PatchAll(d, []) == Progress(d, true);
    assert PatchAll(d, [first]) == Progress(Draft(after, None), true);
    assert PatchAll(d, [first, second]) == Progress(Draft(after, None), false);
    assert |"p"| == 1 && ValidName("p");
    assert Position([before], "p") == Some(0) && [before][0 := after] == [after];
  }
}
