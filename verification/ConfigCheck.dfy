/** The cross-reference checker of `config check`. */
module ConfigCheck {
  import opened Bytes
  import opened Domain

  /** What the seven reads of a store returned. */
  datatype Reads = Reads(providers: Result<seq<Entity>>, models: Result<seq<Entity>>, mcpServers: Result<seq<Entity>>,
                         toolsets: Result<seq<Entity>>, agents: Result<seq<Entity>>, skills: Result<seq<Entity>>,
                         defaultAgent: Result<Option<string>>)

  datatype Referrer = ByModel(name: string) | ByToolset(name: string) | ByAgent(name: string) | ByDefault

  datatype Problem =
    | ReadFailed(error: Error)
    | Duplicate(kind: Kind, name: string)
    | Unknown(ref: Reference)

  /** `name` of `kind`, and who names it. */
  datatype Reference = Reference(kind: Kind, name: string, referrer: Referrer)

  /** The lists that the checks run over: a failed read counts as empty. */
  datatype Config = Config(providers: seq<Entity>, models: seq<Entity>, mcpServers: seq<Entity>, toolsets: seq<Entity>,
                           agents: seq<Entity>, skills: seq<Entity>, defaultAgent: Option<string>)

  ghost predicate AllOf(items: seq<Entity>, kind: Kind) {
    forall i | 0 <= i < |items| :: items[i].Kind() == kind
  }

  ghost predicate WellKinded(c: Config) {
    && AllOf(c.providers, ProviderKind) && AllOf(c.models, ModelKind) && AllOf(c.mcpServers, McpKind)
    && AllOf(c.toolsets, ToolsetKind) && AllOf(c.agents, AgentKind) && AllOf(c.skills, SkillKind)
  }

  function OrEmpty(r: Result<seq<Entity>>): seq<Entity> {
    if r.Ok? then r.value else []
  }

  function ConfigOf(r: Reads): Config {
    Config(OrEmpty(r.providers), OrEmpty(r.models), OrEmpty(r.mcpServers), OrEmpty(r.toolsets), OrEmpty(r.agents),
           OrEmpty(r.skills), if r.defaultAgent.Ok? then r.defaultAgent.value else None)
  }

  function ItemsOf(c: Config, kind: Kind): seq<Entity> {
    match kind
    case ProviderKind => c.providers
    case ModelKind => c.models
    case McpKind => c.mcpServers
    case ToolsetKind => c.toolsets
    case AgentKind => c.agents
    case SkillKind => c.skills
  }

  /** `items.iter().any(|x| x.name == name)`. */
  predicate Names(items: seq<Entity>, name: string) {
    exists i | 0 <= i < |items| :: items[i].name == name
  }

  // ----- the report, without loops -----

  function Failure<T>(r: Result<T>): seq<Problem> {
    if r.Err? then [ReadFailed(r.error)] else []
  }

  function ReadProblems(r: Reads): seq<Problem> {
    Failure(r.providers) + Failure(r.models) + Failure(r.mcpServers) + Failure(r.toolsets) + Failure(r.agents)
    + Failure(r.skills) + Failure(r.defaultAgent)
  }

  /** One report for each item whose name an earlier item has. */
  function Duplicates(items: seq<Entity>, kind: Kind): seq<Problem> {
    if items == [] then []
    else
      var front, last := items[..|items| - 1], items[|items| - 1];
      Duplicates(front, kind) + if Names(front, last.name) then [Duplicate(kind, last.name)] else []
  }

  function DuplicateProblems(c: Config): seq<Problem> {
    Duplicates(c.providers, ProviderKind) + Duplicates(c.models, ModelKind) + Duplicates(c.mcpServers, McpKind)
    + Duplicates(c.toolsets, ToolsetKind) + Duplicates(c.agents, AgentKind) + Duplicates(c.skills, SkillKind)
  }

  /** The references of one entity, in the order the checker looks at them. */
  function RefsOf(e: Entity): seq<Reference> {
    match e
    case ModelProfile(name, provider, _, _, _, _) => [Reference(ProviderKind, provider, ByModel(name))]
    case Toolset(name, _, _, _, mcp) =>
      seq(|mcp|, i requires 0 <= i < |mcp| => Reference(McpKind, mcp[i].server, ByToolset(name)))
    case Agent(name, _, _, model, toolsets, skills, _) =>
      [Reference(ModelKind, model, ByAgent(name))]
      + NameRefs(ToolsetKind, toolsets, ByAgent(name))
      + (if skills.Named? then NameRefs(SkillKind, skills.names, ByAgent(name)) else [])
    case _ => []
  }

  function NameRefs(kind: Kind, names: seq<string>, referrer: Referrer): seq<Reference> {
    seq(|names|, i requires 0 <= i < |names| => Reference(kind, names[i], referrer))
  }

  function AllRefs(items: seq<Entity>): seq<Reference> {
    if items == [] then [] else AllRefs(items[..|items| - 1]) + RefsOf(items[|items| - 1])
  }

  /** Every reference of a configuration in traversal order. */
  function References(c: Config): seq<Reference> {
    AllRefs(c.models) + AllRefs(c.toolsets) + AllRefs(c.agents)
    + if c.defaultAgent.Some? then [Reference(AgentKind, c.defaultAgent.value, ByDefault)] else []
  }

  predicate Resolves(c: Config, r: Reference) {
    Names(ItemsOf(c, r.kind), r.name)
  }

  /** The references that resolve to nothing, as reports and in their order. */
  function Dangling(c: Config, refs: seq<Reference>): seq<Problem> {
    if refs == [] then []
    else
      Dangling(c, refs[..|refs| - 1])
      + if Resolves(c, refs[|refs| - 1]) then [] else [Unknown(refs[|refs| - 1])]
  }

  function Report(r: Reads): seq<Problem> {
    ReadProblems(r) + DuplicateProblems(ConfigOf(r)) + Dangling(ConfigOf(r), References(ConfigOf(r)))
  }

  lemma {:induction false} DanglingOfConcat(c: Config, a: seq<Reference>, b: seq<Reference>)
    ensures Dangling(c, a + b) == Dangling(c, a) + Dangling(c, b)
  {
    if b == [] {
      assert a + b == a;
    } else {
      assert (a + b)[..|a + b| - 1] == a + b[..|b| - 1];
      DanglingOfConcat(c, a, b[..|b| - 1]);
    }
  }

  // ----- the checker, loop by loop -----

  /** `check_duplicate_names`: a set of the names seen so far. */
  method CheckDuplicateNames(items: seq<Entity>, kind: Kind, problems: seq<Problem>) returns (r: seq<Problem>)
    ensures r == problems + Duplicates(items, kind)
  {
    var seen: set<string> := {};
    var found: seq<Problem> := [];
    for i := 0 to |items|
      invariant forall n :: n in seen <==> Names(items[..i], n)
      invariant found == Duplicates(items[..i], kind)
    {
      assert items[..i + 1][..i] == items[..i];
      var name := items[i].name;
      if name in seen {
        found := found + [Duplicate(kind, name)];
      }
      forall n ensures n in seen + {name} <==> Names(items[..i + 1], n) {
        NamesOfPush(items, i, n);
      }
      seen := seen + {name};
    }
    assert items[..|items|] == items;
    r := problems + found;
  }

  lemma NamesOfPush(items: seq<Entity>, i: nat, n: string)
    requires i < |items|
    ensures Names(items[..i + 1], n) <==> Names(items[..i], n) || items[i].name == n
  {
    if Names(items[..i], n) {
      var j :| 0 <= j < i && items[..i][j].name == n;
      assert items[..i + 1][j].name == n;
    }
    assert items[..i + 1][i] == items[i];
  }

  lemma DanglingStep(c: Config, refs: seq<Reference>, i: nat)
    requires i < |refs|
    ensures Dangling(c, refs[..i + 1])
         == Dangling(c, refs[..i]) + if Resolves(c, refs[i]) then [] else [Unknown(refs[i])]
  {
    assert refs[..i + 1][..i] == refs[..i];
  }

  /** The loop over a list of names. */
  method CheckNames(c: Config, kind: Kind, names: seq<string>, referrer: Referrer, problems: seq<Problem>)
    returns (r: seq<Problem>)
    ensures r == problems + Dangling(c, NameRefs(kind, names, referrer))
  {
    ghost var refs := NameRefs(kind, names, referrer);
    var found: seq<Problem> := [];
    for i := 0 to |names|
      invariant found == Dangling(c, refs[..i])
    {
      DanglingStep(c, refs, i);
      if !Names(ItemsOf(c, kind), names[i]) {
        found := found + [Unknown(Reference(kind, names[i], referrer))];
      }
    }
    assert refs[..|names|] == refs;
    r := problems + found;
  }

  /** The loop over the servers of a toolset. */
  method CheckServers(c: Config, t: Entity, problems: seq<Problem>) returns (r: seq<Problem>)
    requires t.Toolset?
    ensures r == problems + Dangling(c, RefsOf(t))
  {
    ghost var refs := RefsOf(t);
    var found: seq<Problem> := [];
    for i := 0 to |t.mcp|
      invariant found == Dangling(c, refs[..i])
    {
      DanglingStep(c, refs, i);
      if !Names(c.mcpServers, t.mcp[i].server) {
        found := found + [Unknown(Reference(McpKind, t.mcp[i].server, ByToolset(t.name)))];
      }
    }
    assert refs[..|t.mcp|] == refs;
    r := problems + found;
  }

  lemma DanglingOfOne(c: Config, ref: Reference)
    ensures Dangling(c, [ref]) == if Resolves(c, ref) then [] else [Unknown(ref)]
  {
    assert [ref][..0] == [];
  }

  /** What one round of the three loops over models, toolsets and agents adds. */
  method CheckEntity(c: Config, e: Entity, problems: seq<Problem>) returns (r: seq<Problem>)
    ensures r == problems + Dangling(c, RefsOf(e))
  {
    r := problems;
    match e {
      case ModelProfile(name, provider, _, _, _, _) =>
        DanglingOfOne(c, Reference(ProviderKind, provider, ByModel(name)));
        if !Names(c.providers, provider) {
          r := r + [Unknown(Reference(ProviderKind, provider, ByModel(name)))];
        }
      case Toolset(_, _, _, _, _) =>
        r := CheckServers(c, e, r);
      case Agent(_, _, _, _, _, _, _) =>
        r := CheckAgent(c, e, r);
      case _ =>
    }
  }

  method CheckAgent(c: Config, a: Entity, problems: seq<Problem>) returns (r: seq<Problem>)
    requires a.Agent?
    ensures r == problems + Dangling(c, RefsOf(a))
  {
    var found: seq<Problem> := [];
    if !Names(c.models, a.model) {
      found := [Unknown(Reference(ModelKind, a.model, ByAgent(a.name)))];
    }
    found := CheckNames(c, ToolsetKind, a.toolsets, ByAgent(a.name), found);
    if a.skills.Named? {
      found := CheckNames(c, SkillKind, a.skills.names, ByAgent(a.name), found);
    }
    AgentInParts(c, a);
    assert found == Dangling(c, RefsOf(a));
    r := problems + found;
  }

  lemma AgentInParts(c: Config, a: Entity)
    requires a.Agent?
    ensures Dangling(c, RefsOf(a))
         == (if Names(c.models, a.model) then [] else [Unknown(Reference(ModelKind, a.model, ByAgent(a.name)))])
            + Dangling(c, NameRefs(ToolsetKind, a.toolsets, ByAgent(a.name)))
            + (if a.skills.Named? then Dangling(c, NameRefs(SkillKind, a.skills.names, ByAgent(a.name))) else [])
  {
    var model := [Reference(ModelKind, a.model, ByAgent(a.name))];
    var toolsets := NameRefs(ToolsetKind, a.toolsets, ByAgent(a.name));
    var skills := if a.skills.Named? then NameRefs(SkillKind, a.skills.names, ByAgent(a.name)) else [];
    DanglingOfOne(c, model[0]);
    DanglingOfConcat(c, model, toolsets);
    DanglingOfConcat(c, model + toolsets, skills);
  }

  /** The loop over the entities of one kind. */
  method CheckEntities(c: Config, items: seq<Entity>, problems: seq<Problem>) returns (r: seq<Problem>)
    ensures r == problems + Dangling(c, AllRefs(items))
  {
    var found: seq<Problem> := [];
    for i := 0 to |items|
      invariant found == Dangling(c, AllRefs(items[..i]))
    {
      AllRefsStep(c, items, i);
      found := CheckEntity(c, items[i], found);
    }
    assert items[..|items|] == items;
    r := problems + found;
  }

  lemma AllRefsStep(c: Config, items: seq<Entity>, i: nat)
    requires i < |items|
    ensures Dangling(c, AllRefs(items[..i + 1])) == Dangling(c, AllRefs(items[..i])) + Dangling(c, RefsOf(items[i]))
  {
    assert items[..i + 1][..i] == items[..i];
    DanglingOfConcat(c, AllRefs(items[..i]), RefsOf(items[i]));
  }

  method CheckConfig(all: Reads) returns (problems: seq<Problem>)
    ensures problems == Report(all)
  {
    var c := ConfigOf(all);
    problems := ReadProblems(all);
    problems := CheckAllNames(c, problems);
    problems := CheckAllReferences(c, problems);
  }

  method CheckAllNames(c: Config, problems: seq<Problem>) returns (r: seq<Problem>)
    ensures r == problems + DuplicateProblems(c)
  {
    r := CheckDuplicateNames(c.providers, ProviderKind, problems);
    r := CheckDuplicateNames(c.models, ModelKind, r);
    r := CheckDuplicateNames(c.mcpServers, McpKind, r);
    r := CheckDuplicateNames(c.toolsets, ToolsetKind, r);
    r := CheckDuplicateNames(c.agents, AgentKind, r);
    r := CheckDuplicateNames(c.skills, SkillKind, r);
    AppendSix(problems, Duplicates(c.providers, ProviderKind), Duplicates(c.models, ModelKind),
              Duplicates(c.mcpServers, McpKind), Duplicates(c.toolsets, ToolsetKind),
              Duplicates(c.agents, AgentKind), Duplicates(c.skills, SkillKind));
  }

  lemma AppendSix<T>(p: seq<T>, a: seq<T>, b: seq<T>, c: seq<T>, d: seq<T>, e: seq<T>, f: seq<T>)
    ensures p + a + b + c + d + e + f == p + (a + b + c + d + e + f)
  {
  }

  method CheckAllReferences(c: Config, problems: seq<Problem>) returns (r: seq<Problem>)
    ensures r == problems + Dangling(c, References(c))
  {
    r := CheckEntities(c, c.models, problems);
    r := CheckEntities(c, c.toolsets, r);
    r := CheckEntities(c, c.agents, r);
    r := CheckDefault(c, r);
    DanglingInParts(c);
    AppendFour(problems, Dangling(c, AllRefs(c.models)), Dangling(c, AllRefs(c.toolsets)),
               Dangling(c, AllRefs(c.agents)), DefaultProblem(c));
  }

  lemma AppendFour<T>(p: seq<T>, a: seq<T>, b: seq<T>, c: seq<T>, d: seq<T>)
    ensures p + a + b + c + d == p + (a + b + c + d)
  {
  }

  method CheckDefault(c: Config, problems: seq<Problem>) returns (r: seq<Problem>)
    ensures r == problems + DefaultProblem(c)
  {
    r := problems;
    if c.defaultAgent.Some? && !Names(c.agents, c.defaultAgent.value) {
      r := r + [Unknown(Reference(AgentKind, c.defaultAgent.value, ByDefault))];
    }
  }

  function DefaultProblem(c: Config): seq<Problem> {
    if c.defaultAgent.Some? && !Names(c.agents, c.defaultAgent.value)
    then [Unknown(Reference(AgentKind, c.defaultAgent.value, ByDefault))] else []
  }

  lemma DanglingInParts(c: Config)
    ensures Dangling(c, References(c))
         == Dangling(c, AllRefs(c.models)) + Dangling(c, AllRefs(c.toolsets)) + Dangling(c, AllRefs(c.agents))
            + DefaultProblem(c)
  {
    var m, t, a := AllRefs(c.models), AllRefs(c.toolsets), AllRefs(c.agents);
    var d := if c.defaultAgent.Some? then [Reference(AgentKind, c.defaultAgent.value, ByDefault)] else [];
    DanglingOfConcat(c, m, t);
    DanglingOfConcat(c, m + t, a);
    DanglingOfConcat(c, m + t + a, d);
    assert Dangling(c, d) == DefaultProblem(c) by {
      if d != [] {
        assert d[..0] == [];
      }
    }
  }

  // ----- what the report means -----

  ghost predicate ModelsFindProviders(c: Config) {
    forall i | 0 <= i < |c.models| :: c.models[i].ModelProfile? && Names(c.providers, c.models[i].provider)
  }

  ghost predicate ToolsetsFindServers(c: Config) {
    forall i | 0 <= i < |c.toolsets| :: c.toolsets[i].Toolset? && McpResolve(c, c.toolsets[i])
  }

  ghost predicate AgentsFindAll(c: Config) {
    forall i | 0 <= i < |c.agents| :: c.agents[i].Agent? && AgentResolves(c, c.agents[i])
  }

  /** Every reference of every entity resolves, said without the traversal. */
  ghost predicate AllResolve(c: Config) {
    && ModelsFindProviders(c) && ToolsetsFindServers(c) && AgentsFindAll(c)
    && (c.defaultAgent.Some? ==> Names(c.agents, c.defaultAgent.value))
  }

  ghost predicate AllRead(r: Reads) {
    && r.providers.Ok? && r.models.Ok? && r.mcpServers.Ok? && r.toolsets.Ok? && r.agents.Ok? && r.skills.Ok?
    && r.defaultAgent.Ok?
  }

  function NameSet(items: seq<Entity>): set<string> {
    set i | 0 <= i < |items| :: items[i].name
  }

  lemma NameSetOfPush(front: seq<Entity>, last: Entity)
    ensures NameSet(front + [last]) == NameSet(front) + {last.name}
    ensures last.name in NameSet(front) <==> Names(front, last.name)
  {
    var items := front + [last];
    forall n ensures n in NameSet(items) <==> n in NameSet(front) + {last.name} {
      if n in NameSet(front) {
        var i :| 0 <= i < |front| && front[i].name == n;
        assert items[i].name == n;
      }
      assert items[|front|] == last;
    }
  }

  /** As many duplicate reports as items exceed distinct names. */
  lemma {:induction false} DuplicateCount(items: seq<Entity>, kind: Kind)
    ensures |Duplicates(items, kind)| == |items| - |NameSet(items)|
  {
    if items != [] {
      var front, last := items[..|items| - 1], items[|items| - 1];
      DuplicateCount(front, kind);
      assert items == front + [last];
      NameSetOfPush(front, last);
    }
  }

  lemma {:induction false} NoDuplicatesIff(items: seq<Entity>, kind: Kind)
    ensures Duplicates(items, kind) == [] <==> UniqueNames(items)
  {
    if items != [] {
      var front, last := items[..|items| - 1], items[|items| - 1];
      NoDuplicatesIff(front, kind);
      assert UniqueNames(items) <==> UniqueNames(front) && !Names(front, last.name) by {
        assert forall i | 0 <= i < |front| :: front[i] == items[i];
      }
    }
  }

  /** An earlier item has the name of the item at `i`. */
  ghost predicate IsRepeat(items: seq<Entity>, i: nat) {
    i < |items| && exists j | 0 <= j < i :: items[j].name == items[i].name
  }

  /** `at` lists the positions of the repeats, each once and in increasing order. */
  ghost predicate AreRepeats(items: seq<Entity>, at: seq<nat>) {
    && (forall k, l | 0 <= k < l < |at| :: at[k] < at[l])
    && forall i: nat :: i in at <==> IsRepeat(items, i)
  }

  /** The reports are those of the items at `at`, in that order. */
  ghost predicate ReportsAt(items: seq<Entity>, kind: Kind, at: seq<nat>, reports: seq<Problem>) {
    |reports| == |at| && forall k | 0 <= k < |at| :: at[k] < |items| && reports[k] == Duplicate(kind, items[at[k]].name)
  }

  lemma RepeatsOfPush(front: seq<Entity>, last: Entity, at: seq<nat>)
    requires AreRepeats(front, at)
    ensures AreRepeats(front + [last], if Names(front, last.name) then at + [|front|] else at)
  {
    var items := front + [last];
    var now := if Names(front, last.name) then at + [|front|] else at;
    assert forall k | 0 <= k < |at| :: at[k] in at && IsRepeat(front, at[k]);
    forall i: nat ensures i in now <==> IsRepeat(items, i) {
      if i < |front| {
        assert forall j | 0 <= j <= i :: items[j] == front[j];
        assert IsRepeat(items, i) <==> IsRepeat(front, i);
      } else if i == |front| {
        assert forall j | 0 <= j < i :: items[j] == front[j];
        assert IsRepeat(items, i) <==> Names(front, last.name);
      }
    }
  }

  ghost predicate AreRepeatReports(items: seq<Entity>, kind: Kind, reports: seq<Problem>) {
    exists at :: AreRepeats(items, at) && ReportsAt(items, kind, at, reports)
  }

  /** The reports are the repeats one to one, in their order, and each names the item that it is about. */
  lemma {:induction false} DuplicatesOneToOne(items: seq<Entity>, kind: Kind)
    ensures AreRepeatReports(items, kind, Duplicates(items, kind))
  {
    if items == [] {
      assert AreRepeats(items, []) && ReportsAt(items, kind, [], []);
    } else {
      var front, last := items[..|items| - 1], items[|items| - 1];
      DuplicatesOneToOne(front, kind);
      RepeatReportsOfPush(front, last, kind);
      assert front + [last] == items;
    }
  }

  lemma RepeatReportsOfPush(front: seq<Entity>, last: Entity, kind: Kind)
    requires AreRepeatReports(front, kind, Duplicates(front, kind))
    ensures AreRepeatReports(front + [last], kind, Duplicates(front + [last], kind))
  {
    var at :| AreRepeats(front, at) && ReportsAt(front, kind, at, Duplicates(front, kind));
    RepeatsOfPush(front, last, at);
    ReportsOfPush(front, last, kind, at);
  }

  lemma ReportsOfPush(front: seq<Entity>, last: Entity, kind: Kind, at: seq<nat>)
    requires ReportsAt(front, kind, at, Duplicates(front, kind))
    ensures ReportsAt(front + [last], kind, if Names(front, last.name) then at + [|front|] else at,
                      Duplicates(front + [last], kind))
  {
    var items := front + [last];
    assert items[..|items| - 1] == front;
  }

  /** The positions of the dangling references, in increasing order. */
  ghost function DanglingAt(c: Config, refs: seq<Reference>): (r: seq<nat>)
    ensures forall k | 0 <= k < |r| :: r[k] < |refs|
  {
    if refs == [] then []
    else
      DanglingAt(c, refs[..|refs| - 1]) + if Resolves(c, refs[|refs| - 1]) then [] else [|refs| - 1]
  }

  lemma {:induction false} DanglingIncreases(c: Config, refs: seq<Reference>)
    ensures forall k, l | 0 <= k < l < |DanglingAt(c, refs)| :: DanglingAt(c, refs)[k] < DanglingAt(c, refs)[l]
  {
    if refs != [] {
      var last := |refs| - 1;
      var before, now := DanglingAt(c, refs[..last]), DanglingAt(c, refs);
      DanglingIncreases(c, refs[..last]);
      forall k, l | 0 <= k < l < |now| ensures now[k] < now[l] {
        assert now[k] == before[k] < last;
        assert l < |before| ==> now[l] == before[l];
      }
    }
  }

  lemma DanglingByLast(c: Config, refs: seq<Reference>, i: nat)
    requires i < |refs|
    ensures i in DanglingAt(c, refs)
       <==> if i == |refs| - 1 then !Resolves(c, refs[i]) else i in DanglingAt(c, refs[..|refs| - 1])
  {
    var before := DanglingAt(c, refs[..|refs| - 1]);
    assert forall k | 0 <= k < |before| :: before[k] < |refs| - 1;
  }

  lemma {:induction false} DanglingIsComplete(c: Config, refs: seq<Reference>, i: nat)
    requires i < |refs|
    ensures i in DanglingAt(c, refs) <==> !Resolves(c, refs[i])
  {
    DanglingByLast(c, refs, i);
    if i < |refs| - 1 {
      DanglingIsComplete(c, refs[..|refs| - 1], i);
      assert refs[..|refs| - 1][i] == refs[i];
    }
  }

  lemma {:induction false} DanglingByPosition(c: Config, refs: seq<Reference>)
    ensures var at := DanglingAt(c, refs);
            && |Dangling(c, refs)| == |at|
            && (forall k | 0 <= k < |at| :: Dangling(c, refs)[k] == Unknown(refs[at[k]]))
  {
    if refs != [] {
      DanglingByPosition(c, refs[..|refs| - 1]);
    }
  }

  /** The reports are the dangling references one to one, in traversal order. */
  lemma DanglingOneToOne(c: Config, refs: seq<Reference>)
    ensures var at := DanglingAt(c, refs);
            && (forall k, l | 0 <= k < l < |at| :: at[k] < at[l])
            && (forall i | 0 <= i < |refs| :: i in at <==> !Resolves(c, refs[i]))
            && |Dangling(c, refs)| == |at|
            && (forall k | 0 <= k < |at| :: Dangling(c, refs)[k] == Unknown(refs[at[k]]))
  {
    DanglingIncreases(c, refs);
    forall i | 0 <= i < |refs| ensures i in DanglingAt(c, refs) <==> !Resolves(c, refs[i]) {
      DanglingIsComplete(c, refs, i);
    }
    DanglingByPosition(c, refs);
  }

  lemma NoDanglingIff(c: Config, refs: seq<Reference>)
    ensures Dangling(c, refs) == [] <==> AllFound(c, refs)
  {
    DanglingOneToOne(c, refs);
    var at := DanglingAt(c, refs);
    if at == [] {
      assert forall i | 0 <= i < |refs| :: i !in at;
    } else {
      assert at[0] in at && refs[at[0]] in refs;
    }
  }

  ghost predicate AllFound(c: Config, refs: seq<Reference>) {
    forall r | r in refs :: Resolves(c, r)
  }

  ghost predicate EntityResolves(c: Config, e: Entity) {
    AllFound(c, RefsOf(e))
  }

  ghost predicate Clean(c: Config, e: Entity) {
    Dangling(c, RefsOf(e)) == []
  }

  /** A running sum of naturals is zero exactly when every term is. */
  lemma {:induction false} ZeroSum(sums: seq<nat>, terms: seq<nat>, n: nat)
    requires |sums| == |terms| + 1 && sums[0] == 0 && n <= |terms|
    requires forall i | 0 <= i < |terms| :: sums[i + 1] == sums[i] + terms[i]
    ensures sums[n] == 0 <==> forall i | 0 <= i < n :: terms[i] == 0
  {
    if n > 0 {
      ZeroSum(sums, terms, n - 1);
      assert sums[n - 1 + 1] == sums[n - 1] + terms[n - 1];
    }
  }

  ghost function ReportsOf(c: Config, e: Entity): nat { |Dangling(c, RefsOf(e))| }

  ghost function ReportsUpTo(c: Config, items: seq<Entity>, n: nat): nat
    requires n <= |items|
  {
    |Dangling(c, AllRefs(items[..n]))|
  }

  lemma ReportsStep(c: Config, items: seq<Entity>, n: nat)
    requires n < |items|
    ensures ReportsUpTo(c, items, n + 1) == ReportsUpTo(c, items, n) + ReportsOf(c, items[n])
  {
    AllRefsStep(c, items, n);
  }

  lemma DanglingByEntity(c: Config, items: seq<Entity>)
    ensures Dangling(c, AllRefs(items)) == [] <==> forall i | 0 <= i < |items| :: Clean(c, items[i])
  {
    var sums := seq(|items| + 1, n requires 0 <= n <= |items| => ReportsUpTo(c, items, n));
    var terms := seq(|items|, n requires 0 <= n < |items| => ReportsOf(c, items[n]));
    forall n | 0 <= n < |items| ensures sums[n + 1] == sums[n] + terms[n] {
      ReportsStep(c, items, n);
    }
    ZeroSum(sums, terms, |items|);
    assert items[..|items|] == items;
    assert forall i | 0 <= i < |items| :: terms[i] == 0 <==> Clean(c, items[i]);
  }

  lemma ItemsResolve(c: Config, items: seq<Entity>)
    ensures Dangling(c, AllRefs(items)) == [] <==> forall i | 0 <= i < |items| :: EntityResolves(c, items[i])
  {
    DanglingByEntity(c, items);
    forall i | 0 <= i < |items| ensures Clean(c, items[i]) <==> EntityResolves(c, items[i]) {
      NoDanglingIff(c, RefsOf(items[i]));
    }
  }

  lemma ModelsResolve(c: Config)
    requires AllOf(c.models, ModelKind)
    ensures Dangling(c, AllRefs(c.models)) == [] <==> ModelsFindProviders(c)
  {
    ItemsResolve(c, c.models);
    forall i | 0 <= i < |c.models|
      ensures c.models[i].ModelProfile?
      ensures EntityResolves(c, c.models[i]) <==> Names(c.providers, c.models[i].provider)
    {
      ModelResolves(c, c.models[i]);
    }
  }

  lemma ModelResolves(c: Config, m: Entity)
    requires m.Kind() == ModelKind
    ensures m.ModelProfile? && (EntityResolves(c, m) <==> Names(c.providers, m.provider))
  {
    var r := Reference(ProviderKind, m.provider, ByModel(m.name));
    assert RefsOf(m) == [r] && r in RefsOf(m);
  }

  lemma ToolsetsResolve(c: Config)
    requires AllOf(c.toolsets, ToolsetKind)
    ensures Dangling(c, AllRefs(c.toolsets)) == [] <==> ToolsetsFindServers(c)
  {
    ItemsResolve(c, c.toolsets);
    forall i | 0 <= i < |c.toolsets|
      ensures c.toolsets[i].Toolset? && (EntityResolves(c, c.toolsets[i]) <==> McpResolve(c, c.toolsets[i]))
    {
      assert c.toolsets[i].Kind() == ToolsetKind;
      McpRefsResolve(c, c.toolsets[i]);
    }
  }

  ghost predicate McpResolve(c: Config, t: Entity)
    requires t.Toolset?
  {
    forall j | 0 <= j < |t.mcp| :: Names(c.mcpServers, t.mcp[j].server)
  }

  lemma McpRefsResolve(c: Config, t: Entity)
    requires t.Toolset?
    ensures EntityResolves(c, t) <==> McpResolve(c, t)
  {
    var refs := RefsOf(t);
    assert forall j | 0 <= j < |t.mcp| ::
             refs[j] == Reference(McpKind, t.mcp[j].server, ByToolset(t.name)) && refs[j] in refs;
  }

  ghost predicate NamesResolve(items: seq<Entity>, names: seq<string>) {
    forall j | 0 <= j < |names| :: Names(items, names[j])
  }

  lemma NameRefsResolve(c: Config, kind: Kind, names: seq<string>, referrer: Referrer)
    ensures AllFound(c, NameRefs(kind, names, referrer)) <==> NamesResolve(ItemsOf(c, kind), names)
  {
    var refs := NameRefs(kind, names, referrer);
    assert forall j | 0 <= j < |names| :: refs[j] == Reference(kind, names[j], referrer) && refs[j] in refs;
  }

  ghost predicate AgentResolves(c: Config, a: Entity)
    requires a.Agent?
  {
    && Names(c.models, a.model) && NamesResolve(c.toolsets, a.toolsets)
    && (a.skills.Named? ==> NamesResolve(c.skills, a.skills.names))
  }

  lemma AgentRefsResolve(c: Config, a: Entity)
    requires a.Agent?
    ensures EntityResolves(c, a) <==> AgentResolves(c, a)
  {
    var r := Reference(ModelKind, a.model, ByAgent(a.name));
    var toolsets := NameRefs(ToolsetKind, a.toolsets, ByAgent(a.name));
    var skills := if a.skills.Named? then NameRefs(SkillKind, a.skills.names, ByAgent(a.name)) else [];
    NameRefsResolve(c, ToolsetKind, a.toolsets, ByAgent(a.name));
    if a.skills.Named? {
      NameRefsResolve(c, SkillKind, a.skills.names, ByAgent(a.name));
    }
    AllFoundInThree(c, r, toolsets, skills);
    assert RefsOf(a) == [r] + toolsets + skills;
  }

  lemma AllFoundInThree(c: Config, first: Reference, s: seq<Reference>, t: seq<Reference>)
    ensures AllFound(c, [first] + s + t) <==> Resolves(c, first) && AllFound(c, s) && AllFound(c, t)
  {
    var all := [first] + s + t;
    assert forall x :: x in all <==> x == first || x in s || x in t;
  }

  lemma AllAgentsResolve(c: Config)
    requires AllOf(c.agents, AgentKind)
    ensures (forall i | 0 <= i < |c.agents| :: EntityResolves(c, c.agents[i])) <==> AgentsFindAll(c)
  {
    forall i | 0 <= i < |c.agents|
      ensures c.agents[i].Agent? && (EntityResolves(c, c.agents[i]) <==> AgentResolves(c, c.agents[i]))
    {
      assert c.agents[i].Kind() == AgentKind;
      AgentRefsResolve(c, c.agents[i]);
    }
  }

  lemma AgentsResolve(c: Config)
    requires AllOf(c.agents, AgentKind)
    ensures Dangling(c, AllRefs(c.agents)) == [] <==> AgentsFindAll(c)
  {
    ItemsResolve(c, c.agents);
    AllAgentsResolve(c);
  }

  lemma ReferencesResolveIff(c: Config)
    requires WellKinded(c)
    ensures Dangling(c, References(c)) == [] <==> AllResolve(c)
  {
    DanglingInParts(c);
    ModelsResolve(c);
    ToolsetsResolve(c);
    AgentsResolve(c);
  }

  ghost predicate AllDistinct(c: Config) {
    forall kind :: UniqueNames(ItemsOf(c, kind))
  }

  lemma AllDistinctIff(c: Config)
    ensures DuplicateProblems(c) == [] <==> AllDistinct(c)
  {
    forall kind ensures Duplicates(ItemsOf(c, kind), kind) == [] <==> UniqueNames(ItemsOf(c, kind)) {
      NoDuplicatesIff(ItemsOf(c, kind), kind);
    }
    assert DuplicateProblems(c)
        == Duplicates(ItemsOf(c, ProviderKind), ProviderKind) + Duplicates(ItemsOf(c, ModelKind), ModelKind)
           + Duplicates(ItemsOf(c, McpKind), McpKind) + Duplicates(ItemsOf(c, ToolsetKind), ToolsetKind)
           + Duplicates(ItemsOf(c, AgentKind), AgentKind) + Duplicates(ItemsOf(c, SkillKind), SkillKind);
    if DuplicateProblems(c) == [] {
      forall kind ensures UniqueNames(ItemsOf(c, kind)) {
        match kind
        case ProviderKind =>
        case ModelKind =>
        case McpKind =>
        case ToolsetKind =>
        case AgentKind =>
        case SkillKind =>
      }
    }
  }

  lemma AllReadIff(r: Reads)
    ensures ReadProblems(r) == [] <==> AllRead(r)
  {
  }

  ghost predicate IsRead(r: Result<seq<Entity>>, items: seq<Entity>) {
    match r case Ok(value) => items == value case Err(_) => items == []
  }

  /** The lists that the checks run over: what was read, and nothing where a read failed. */
  ghost predicate IsConfigOf(r: Reads, c: Config) {
    && IsRead(r.providers, c.providers) && IsRead(r.models, c.models) && IsRead(r.mcpServers, c.mcpServers)
    && IsRead(r.toolsets, c.toolsets) && IsRead(r.agents, c.agents) && IsRead(r.skills, c.skills)
    && c.defaultAgent == match r.defaultAgent case Ok(name) => name case Err(_) => None
  }

  lemma ConfigIs(r: Reads, c: Config)
    ensures IsConfigOf(r, c) <==> c == ConfigOf(r)
  {
  }

  /** Nothing is reported exactly when all reads succeed, names are distinct and references resolve. */
  lemma EmptyReportIff(r: Reads, c: Config)
    requires IsConfigOf(r, c) && WellKinded(c)
    ensures Report(r) == [] <==> AllRead(r) && AllDistinct(c) && AllResolve(c)
  {
    ConfigIs(r, c);
    AllReadIff(r);
    AllDistinctIff(c);
    ReferencesResolveIff(c);
    assert |Report(r)| == |ReadProblems(r)| + |DuplicateProblems(c)| + |Dangling(c, References(c))|;
  }

  /** When the reads succeed and names are distinct, the report is the dangling references. */
  lemma ReportOfSoundReads(r: Reads)
    requires AllRead(r) && AllDistinct(ConfigOf(r)) && WellKinded(ConfigOf(r))
    ensures Report(r) == Dangling(ConfigOf(r), References(ConfigOf(r)))
    ensures Report(r) == [] <==> AllResolve(ConfigOf(r))
  {
    AllReadIff(r);
    AllDistinctIff(ConfigOf(r));
    EmptyReportIff(r, ConfigOf(r));
  }

  // ----- the report, block by block -----

  /** The failed reads among the seven, in the order in which they are made. */
  ghost predicate AreFailures(errors: seq<Option<Error>>, reports: seq<Problem>) {
    if errors == [] then reports == []
    else if errors[0].None? then AreFailures(errors[1..], reports)
    else reports != [] && reports[0] == ReadFailed(errors[0].value) && AreFailures(errors[1..], reports[1..])
  }

  ghost function ErrorOf<T>(r: Result<T>): Option<Error> { if r.Err? then Some(r.error) else None }

  ghost function ErrorsOf(r: Reads): seq<Option<Error>> {
    [ErrorOf(r.providers), ErrorOf(r.models), ErrorOf(r.mcpServers), ErrorOf(r.toolsets), ErrorOf(r.agents),
     ErrorOf(r.skills), ErrorOf(r.defaultAgent)]
  }

  lemma {:induction false} FailuresOfConcat(a: seq<Option<Error>>, p: seq<Problem>,
                                            b: seq<Option<Error>>, q: seq<Problem>)
    requires AreFailures(a, p) && AreFailures(b, q)
    ensures AreFailures(a + b, p + q)
  {
    if a == [] {
      assert a + b == b && p + q == q;
    } else {
      assert (a + b)[1..] == a[1..] + b;
      if a[0].Some? {
        FailuresOfConcat(a[1..], p[1..], b, q);
        assert (p + q)[1..] == p[1..] + q;
      } else {
        FailuresOfConcat(a[1..], p, b, q);
      }
    }
  }

  lemma OneFailureMore<T>(errors: seq<Option<Error>>, reports: seq<Problem>, r: Result<T>)
    requires AreFailures(errors, reports)
    ensures AreFailures(errors + [ErrorOf(r)], reports + Failure(r))
  {
    assert [ErrorOf(r)][1..] == [];
    assert Failure(r) != [] ==> Failure(r)[1..] == [];
    FailuresOfConcat(errors, reports, [ErrorOf(r)], Failure(r));
  }

  /**
   The blocks of a report and their order: the failed reads, the repeated names of each kind, and
   the references that dangle.
   */
  lemma ReportInBlocks(r: Reads, c: Config) returns (failures: seq<Problem>, d: seq<seq<Problem>>)
    requires IsConfigOf(r, c)
    ensures |d| == 6
    ensures Report(r) == failures + d[0] + d[1] + d[2] + d[3] + d[4] + d[5] + Dangling(c, References(c))
    ensures AreFailures(ErrorsOf(r), failures)
    ensures AreRepeatReports(c.providers, ProviderKind, d[0])
    ensures AreRepeatReports(c.models, ModelKind, d[1])
    ensures AreRepeatReports(c.mcpServers, McpKind, d[2])
    ensures AreRepeatReports(c.toolsets, ToolsetKind, d[3])
    ensures AreRepeatReports(c.agents, AgentKind, d[4])
    ensures AreRepeatReports(c.skills, SkillKind, d[5])
  {
    ConfigIs(r, c);
    failures := ReadProblems(r);
    ReadFailures(r);
    d := [Duplicates(c.providers, ProviderKind), Duplicates(c.models, ModelKind), Duplicates(c.mcpServers, McpKind),
          Duplicates(c.toolsets, ToolsetKind), Duplicates(c.agents, AgentKind), Duplicates(c.skills, SkillKind)];
    AppendSix(failures, d[0], d[1], d[2], d[3], d[4], d[5]);
    DuplicatesOneToOne(c.providers, ProviderKind);
    DuplicatesOneToOne(c.models, ModelKind);
    DuplicatesOneToOne(c.mcpServers, McpKind);
    DuplicatesOneToOne(c.toolsets, ToolsetKind);
    DuplicatesOneToOne(c.agents, AgentKind);
    DuplicatesOneToOne(c.skills, SkillKind);
  }

  lemma EntryFailures(r: Reads)
    ensures AreFailures([ErrorOf(r.providers), ErrorOf(r.models), ErrorOf(r.mcpServers)],
                        Failure(r.providers) + Failure(r.models) + Failure(r.mcpServers))
  {
    var e0, e1 := [ErrorOf(r.providers)], [ErrorOf(r.providers), ErrorOf(r.models)];
    assert [] + Failure(r.providers) == Failure(r.providers) && [] + e0 == e0;
    OneFailureMore([], [], r.providers);
    OneFailureMore(e0, Failure(r.providers), r.models);
    assert e0 + [ErrorOf(r.models)] == e1;
    OneFailureMore(e1, Failure(r.providers) + Failure(r.models), r.mcpServers);
    assert e1 + [ErrorOf(r.mcpServers)] == [ErrorOf(r.providers), ErrorOf(r.models), ErrorOf(r.mcpServers)];
  }

  lemma ReadFailures(r: Reads)
    ensures AreFailures(ErrorsOf(r), ReadProblems(r))
  {
    var e := [ErrorOf(r.providers), ErrorOf(r.models), ErrorOf(r.mcpServers)];
    var p := Failure(r.providers) + Failure(r.models) + Failure(r.mcpServers);
    EntryFailures(r);
    OneFailureMore(e, p, r.toolsets);
    var e1, p1 := e + [ErrorOf(r.toolsets)], p + Failure(r.toolsets);
    OneFailureMore(e1, p1, r.agents);
    OneFailureMore(e1 + [ErrorOf(r.agents)], p1 + Failure(r.agents), r.skills);
    OneFailureMore(e1 + [ErrorOf(r.agents)] + [ErrorOf(r.skills)], p1 + Failure(r.agents) + Failure(r.skills),
                   r.defaultAgent);
    assert e1 + [ErrorOf(r.agents)] + [ErrorOf(r.skills)] + [ErrorOf(r.defaultAgent)] == ErrorsOf(r);
  }

  // ----- the references, said on the items -----

  /** Somebody in the configuration names the entity of the reference. */
  ghost predicate Mentioned(c: Config, ref: Reference) {
    match ref.referrer
    case ByModel(n) =>
      ref.kind == ProviderKind && exists e :: e in c.models && e.ModelProfile? && e.name == n && e.provider == ref.name
    case ByToolset(n) =>
      ref.kind == McpKind && exists e, sel ::
        e in c.toolsets && e.Toolset? && e.name == n && sel in e.mcp && sel.server == ref.name
    case ByAgent(n) => exists e :: e in c.agents && e.Agent? && e.name == n && AgentNames(e, ref.kind, ref.name)
    case ByDefault => ref.kind == AgentKind && c.defaultAgent == Some(ref.name)
  }

  ghost predicate AgentNames(a: Entity, kind: Kind, name: string)
    requires a.Agent?
  {
    || (kind == ModelKind && a.model == name)
    || (kind == ToolsetKind && name in a.toolsets)
    || (kind == SkillKind && a.skills.Named? && name in a.skills.names)
  }

  lemma {:induction false} InAllRefs(items: seq<Entity>, ref: Reference)
    ensures ref in AllRefs(items) <==> exists e :: e in items && ref in RefsOf(e)
  {
    if items != [] {
      var front, last := items[..|items| - 1], items[|items| - 1];
      InAllRefs(front, ref);
      InPush(front, last);
      AllRefsByLast(front, last);
      assert front + [last] == items;
      assert ref in AllRefs(front) + RefsOf(last) <==> ref in AllRefs(front) || ref in RefsOf(last);
    }
  }

  lemma InPush<T>(front: seq<T>, last: T)
    ensures forall e :: e in front + [last] <==> e in front || e == last
  {
  }

  lemma InNameRefs(kind: Kind, names: seq<string>, referrer: Referrer, ref: Reference)
    ensures ref in NameRefs(kind, names, referrer)
       <==> ref.kind == kind && ref.referrer == referrer && ref.name in names
  {
    var refs := NameRefs(kind, names, referrer);
    if ref.kind == kind && ref.referrer == referrer && ref.name in names {
      var j :| 0 <= j < |names| && names[j] == ref.name;
      assert refs[j] == ref;
    }
  }

  ghost predicate NamedBy(e: Entity, ref: Reference) {
    match e
    case ModelProfile(n, provider, _, _, _, _) => ref == Reference(ProviderKind, provider, ByModel(n))
    case Toolset(n, _, _, _, mcp) =>
      ref.kind == McpKind && ref.referrer == ByToolset(n) && exists sel :: sel in mcp && sel.server == ref.name
    case Agent(n, _, _, _, _, _, _) => ref.referrer == ByAgent(n) && AgentNames(e, ref.kind, ref.name)
    case _ => false
  }

  lemma InRefsOf(e: Entity, ref: Reference)
    ensures ref in RefsOf(e) <==> NamedBy(e, ref)
  {
    match e
    case Toolset(n, _, _, _, mcp) =>
      if sel :| sel in mcp && ref == Reference(McpKind, sel.server, ByToolset(n)) {
        var j :| 0 <= j < |mcp| && mcp[j] == sel;
        assert RefsOf(e)[j] == ref;
      }
    case Agent(n, _, _, _, toolsets, skills, _) =>
      InNameRefs(ToolsetKind, toolsets, ByAgent(n), ref);
      if skills.Named? {
        InNameRefs(SkillKind, skills.names, ByAgent(n), ref);
      }
    case _ =>
  }

  lemma NamedInAll(items: seq<Entity>, ref: Reference)
    ensures ref in AllRefs(items) <==> exists e :: e in items && NamedBy(e, ref)
  {
    InAllRefs(items, ref);
    forall e | e in items ensures ref in RefsOf(e) <==> NamedBy(e, ref) {
      InRefsOf(e, ref);
    }
  }

  lemma ModelMentions(c: Config, ref: Reference)
    requires AllOf(c.models, ModelKind)
    ensures ref in AllRefs(c.models) <==> ref.referrer.ByModel? && Mentioned(c, ref)
  {
    NamedInAll(c.models, ref);
    assert forall e | e in c.models :: e.ModelProfile?;
  }

  lemma ToolsetMentions(c: Config, ref: Reference)
    requires AllOf(c.toolsets, ToolsetKind)
    ensures ref in AllRefs(c.toolsets) <==> ref.referrer.ByToolset? && Mentioned(c, ref)
  {
    NamedInAll(c.toolsets, ref);
    assert forall e | e in c.toolsets :: e.Toolset?;
  }

  lemma AgentMentions(c: Config, ref: Reference)
    requires AllOf(c.agents, AgentKind)
    ensures ref in AllRefs(c.agents) <==> ref.referrer.ByAgent? && Mentioned(c, ref)
  {
    NamedInAll(c.agents, ref);
    assert forall e | e in c.agents :: e.Agent?;
  }

  /** The traversal finds the references of every item, and no others. */
  lemma ReferencesIff(c: Config, ref: Reference)
    requires WellKinded(c)
    ensures ref in References(c) <==> Mentioned(c, ref)
  {
    ModelMentions(c, ref);
    ToolsetMentions(c, ref);
    AgentMentions(c, ref);
    var default := if c.defaultAgent.Some? then [Reference(AgentKind, c.defaultAgent.value, ByDefault)] else [];
    InFour(AllRefs(c.models), AllRefs(c.toolsets), AllRefs(c.agents), default, ref);
    assert ref in default <==> ref.referrer.ByDefault? && Mentioned(c, ref);
  }

  lemma InFour<T>(a: seq<T>, b: seq<T>, c: seq<T>, d: seq<T>, x: T)
    ensures x in a + b + c + d <==> x in a || x in b || x in c || x in d
  {
  }

  /** A reference is reported exactly when an item makes it and nothing of its kind has the name. */
  lemma UnknownReportedIff(r: Reads, c: Config, ref: Reference)
    requires IsConfigOf(r, c) && WellKinded(c)
    ensures Unknown(ref) in Report(r)
       <==> Mentioned(c, ref) && forall e | e in ItemsOf(c, ref.kind) :: e.name != ref.name
  {
    ConfigIs(r, c);
    ReferencesIff(c, ref);
    OnlyUnknownsDangle(c, References(c), ref);
    NoUnknownAmongFailures(r, ref);
    NoUnknownAmongRepeats(c, ref);
  }

  lemma {:induction false} OnlyUnknownsDangle(c: Config, refs: seq<Reference>, ref: Reference)
    ensures Unknown(ref) in Dangling(c, refs) <==> ref in refs && !Resolves(c, ref)
  {
    if refs != [] {
      OnlyUnknownsDangle(c, refs[..|refs| - 1], ref);
      assert refs == refs[..|refs| - 1] + [refs[|refs| - 1]];
    }
  }

  lemma NoUnknownAmongRepeats(c: Config, ref: Reference)
    ensures Unknown(ref) !in DuplicateProblems(c)
  {
    NoUnknownRepeats(c.providers, ProviderKind, ref);
    NoUnknownRepeats(c.models, ModelKind, ref);
    NoUnknownRepeats(c.mcpServers, McpKind, ref);
    NoUnknownRepeats(c.toolsets, ToolsetKind, ref);
    NoUnknownRepeats(c.agents, AgentKind, ref);
    NoUnknownRepeats(c.skills, SkillKind, ref);
    NotInSix(Duplicates(c.providers, ProviderKind), Duplicates(c.models, ModelKind), Duplicates(c.mcpServers, McpKind),
             Duplicates(c.toolsets, ToolsetKind), Duplicates(c.agents, AgentKind), Duplicates(c.skills, SkillKind),
             Unknown(ref));
  }

  lemma NoUnknownAmongFailures(r: Reads, ref: Reference)
    ensures Unknown(ref) !in ReadProblems(r)
  {
    NotInSix(Failure(r.providers), Failure(r.models), Failure(r.mcpServers), Failure(r.toolsets), Failure(r.agents),
             Failure(r.skills), Unknown(ref));
  }

  lemma NotInSix<T>(a: seq<T>, b: seq<T>, c: seq<T>, d: seq<T>, e: seq<T>, f: seq<T>, x: T)
    requires x !in a && x !in b && x !in c && x !in d && x !in e && x !in f
    ensures x !in a + b + c + d + e + f
  {
  }

  lemma NoUnknownRepeats(items: seq<Entity>, kind: Kind, ref: Reference)
    ensures Unknown(ref) !in Duplicates(items, kind)
  {
    DuplicatesOneToOne(items, kind);
  }

  // ----- the order of the traversal -----

  lemma AllRefsByLast(front: seq<Entity>, last: Entity)
    ensures AllRefs(front + [last]) == AllRefs(front) + RefsOf(last)
  {
    assert (front + [last])[..|front|] == front;
  }

  lemma ConcatThree<T>(a: seq<T>, b: seq<T>, c: seq<T>)
    ensures a + b + c == a + (b + c)
  {
  }

  /** Item after item. */
  lemma {:induction false} AllRefsOfConcat(a: seq<Entity>, b: seq<Entity>)
    ensures AllRefs(a + b) == AllRefs(a) + AllRefs(b)
  {
    if b == [] {
      assert a + b == a;
    } else {
      var front, last := b[..|b| - 1], b[|b| - 1];
      assert b == front + [last];
      ConcatThree(a, front, [last]);
      AllRefsByLast(a + front, last);
      AllRefsByLast(front, last);
      AllRefsOfConcat(a, front);
      ConcatThree(AllRefs(a), AllRefs(front), RefsOf(last));
    }
  }

  /** Of an agent the model, then its toolsets, then the skills it names. */
  lemma AgentRefsInOrder(a: Entity)
    requires a.Agent?
    ensures var refs, n := RefsOf(a), |a.toolsets|;
            && |refs| == 1 + n + (if a.skills.Named? then |a.skills.names| else 0)
            && refs[0] == Reference(ModelKind, a.model, ByAgent(a.name))
            && (forall j | 0 <= j < n :: refs[1 + j] == Reference(ToolsetKind, a.toolsets[j], ByAgent(a.name)))
            && (a.skills.Named? ==> forall j | 0 <= j < |a.skills.names| ::
                  refs[1 + n + j] == Reference(SkillKind, a.skills.names[j], ByAgent(a.name)))
  {
  }

  function Turn(r: Referrer): nat {
    match r case ByModel(_) => 0 case ByToolset(_) => 1 case ByAgent(_) => 2 case ByDefault => 3
  }

  ghost predicate AllTurn(refs: seq<Reference>, turn: nat) {
    forall k | 0 <= k < |refs| :: Turn(refs[k].referrer) == turn
  }

  lemma TurnOfRef(e: Entity, ref: Reference)
    requires ref in RefsOf(e)
    ensures Turn(ref.referrer) == if e.Kind() == ModelKind then 0 else if e.Kind() == ToolsetKind then 1 else 2
  {
    InRefsOf(e, ref);
  }

  /** The items of one kind make references of one sort. */
  lemma {:induction false} TurnOfKind(items: seq<Entity>, kind: Kind)
    requires AllOf(items, kind)
    ensures AllTurn(AllRefs(items), if kind == ModelKind then 0 else if kind == ToolsetKind then 1 else 2)
  {
    if items != [] {
      var front, last := items[..|items| - 1], items[|items| - 1];
      TurnOfKind(front, kind);
      forall k | 0 <= k < |RefsOf(last)| ensures Turn(RefsOf(last)[k].referrer)
        == if kind == ModelKind then 0 else if kind == ToolsetKind then 1 else 2
      {
        TurnOfRef(last, RefsOf(last)[k]);
      }
    }
  }

  lemma TurnAt(m: seq<Reference>, t: seq<Reference>, a: seq<Reference>, d: seq<Reference>, k: nat)
    requires AllTurn(m, 0) && AllTurn(t, 1) && AllTurn(a, 2) && AllTurn(d, 3) && k < |m + t + a + d|
    ensures Turn((m + t + a + d)[k].referrer)
         == if k < |m| then 0 else if k < |m| + |t| then 1 else if k < |m| + |t| + |a| then 2 else 3
  {
  }

  /** Models before toolsets before agents before the default agent. */
  lemma ReferencesTakeTurns(c: Config, i: nat, j: nat)
    requires WellKinded(c) && i < j < |References(c)|
    ensures Turn(References(c)[i].referrer) <= Turn(References(c)[j].referrer)
  {
    var d := if c.defaultAgent.Some? then [Reference(AgentKind, c.defaultAgent.value, ByDefault)] else [];
    TurnOfKind(c.models, ModelKind);
    TurnOfKind(c.toolsets, ToolsetKind);
    TurnOfKind(c.agents, AgentKind);
    TurnAt(AllRefs(c.models), AllRefs(c.toolsets), AllRefs(c.agents), d, i);
    TurnAt(AllRefs(c.models), AllRefs(c.toolsets), AllRefs(c.agents), d, j);
  }
}
