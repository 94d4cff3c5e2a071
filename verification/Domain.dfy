/** The entities of the configuration store, and the calls that change it. */
module Domain {
  import opened Bytes
  import opened Json

  datatype Kind = ProviderKind | ModelKind | McpKind | ToolsetKind | AgentKind | SkillKind

  datatype ProviderType = Ollama | OpenaiCompatible

  datatype McpTransport = HttpStreamable | Sse

  datatype AgentMode = Primary | Subagent | All

  datatype SkillSelection = Auto | NoSkills | Named(names: seq<string>)

  /** An `f64`; rounding is not modelled. */
  datatype Temperature = Finite(r: Float64) | NotFinite

  const U64_MAX := 0xFFFF_FFFF_FFFF_FFFF
  type U64 = n: int | 0 <= n <= U64_MAX

  datatype McpSelection = McpSelection(server: string, tools: seq<string>)

  datatype Entity =
    | Provider(name: string, providerType: ProviderType, endpoint: string, apiKey: Option<string>)
    | ModelProfile(name: string, provider: string, model: string, temperature: Option<Temperature>,
                   maxTokens: Option<U64>, options: Fields)
    | McpServer(name: string, transport: McpTransport, url: string, headers: map<string, string>)
    | Toolset(name: string, description: Option<string>, prompt: Option<string>,
              localTools: seq<string>, mcp: seq<McpSelection>)
    | Agent(name: string, description: Option<string>, mode: AgentMode, model: string,
            toolsets: seq<string>, skills: SkillSelection, systemPrompt: string)
    | SkillMeta(name: string, summary: string)
  {
    function Kind(): Kind {
      match this
      case Provider(_, _, _, _) => ProviderKind
      case ModelProfile(_, _, _, _, _, _) => ModelKind
      case McpServer(_, _, _, _) => McpKind
      case Toolset(_, _, _, _, _) => ToolsetKind
      case Agent(_, _, _, _, _, _, _) => AgentKind
      case SkillMeta(_, _) => SkillKind
    }
  }

  ghost predicate UniqueNames(items: seq<Entity>) {
    forall i, j | 0 <= i < j < |items| :: items[i].name != items[j].name
  }

  datatype Layer = Global | Workspace

  datatype Error =
    | ConfigError
    | Validation
    | IoError
    | InvalidName(badName: string)
    | NameConflict(kind: Kind, name: string, layer: Layer)
    | NotFound(kind: Kind, name: string, layer: Layer)
    | UnknownReference(kind: Kind, name: string)
    | DuplicateName(kind: Kind, name: string)

  datatype Result<+T> = Ok(value: T) | Err(error: Error)

  datatype Unit = Unit

  /** The write calls of the store; `body` is used when the item is a skill. */
  datatype Call =
    | Create(item: Entity, body: string)
    | Update(kind: Kind, name: string, patch: Patch)
    | Delete(kind: Kind, name: string)
    | SetDefaultAgent(name: string)

  predicate IsAlphanumeric(c: char) {
    'a' <= c <= 'z' || 'A' <= c <= 'Z' || '0' <= c <= '9'
  }

  predicate IsNameChar(c: char) {
    IsAlphanumeric(c) || c == '.' || c == '_' || c == '-'
  }

  /** `validate_name`. */
  predicate ValidName(name: string) {
    && 0 < |name| <= 64
    && IsAlphanumeric(name[0])
    && (forall i | 0 <= i < |name| :: IsNameChar(name[i]))
    && (forall i | 0 <= i < |name| - 1 :: !(name[i] == '.' && name[i + 1] == '.'))
  }

  /** The octet of a letter or digit in ASCII. */
  predicate IsLetterOrDigit(c: int) {
    0x30 <= c <= 0x39 || 0x41 <= c <= 0x5A || 0x61 <= c <= 0x7A
  }

  /** `name` holds `..` at `i`. */
  predicate HasDotsAt(name: string, i: int) { 0 <= i < |name| - 1 && name[i] == '.' && name[i + 1] == '.' }

  /**
   A valid name is one to 64 letters, digits, dots, underscores and hyphens, starts with a letter or
   digit and has no two dots in a row. So it is one component of a path and no reference to a directory.
   */
  lemma ValidNameIff(name: string)
    ensures ValidName(name) <==>
              && 1 <= |name| <= 64 && IsLetterOrDigit(name[0] as int)
              && (forall c | c in name :: IsLetterOrDigit(c as int) || c == '.' || c == '_' || c == '-')
              && !exists i :: HasDotsAt(name, i)
    ensures ValidName(name) ==> '/' !in name && '\\' !in name && name != "." && name != ".."
  {
    assert forall i | 0 <= i < |name| :: name[i] in name;
    if i :| 0 <= i < |name| - 1 && name[i] == '.' && name[i + 1] == '.' {
      assert HasDotsAt(name, i);
    }
  }

  function ProviderTypeName(t: ProviderType): string {
    match t case Ollama => "ollama" case OpenaiCompatible => "openai-compatible"
  }

  function ParseProviderType(s: string): (r: Option<ProviderType>) {
    if s == "ollama" then Some(Ollama)
    else if s == "openai-compatible" then Some(OpenaiCompatible)
    else None
  }

  function TransportName(t: McpTransport): string {
    match t case HttpStreamable => "http-streamable" case Sse => "sse"
  }

  function ParseTransport(s: string): (r: Option<McpTransport>) {
    if s == "http-streamable" then Some(HttpStreamable)
    else if s == "sse" then Some(Sse)
    else None
  }

  function ModeName(m: AgentMode): string {
    match m case Primary => "primary" case Subagent => "subagent" case All => "all"
  }

  function ParseMode(s: string): (r: Option<AgentMode>) {
    if s == "primary" then Some(Primary)
    else if s == "subagent" then Some(Subagent)
    else if s == "all" then Some(All)
    else None
  }

  function AsFloat(n: Number): Float64 {
    match n case Int(i) => FloatOf(i) case Float(r) => r
  }

  /** `as_u64`. */
  function AsU64(n: Number): Option<U64> {
    if n.Int? && 0 <= n.i <= U64_MAX then Some(n.i) else None
  }
}
