/** What `config check` can report on a store of files. */
module FsChecks {
  import opened Domain
  import opened Json
  import opened FsStore
  import FsRuns
  import Refinement
  import C = ConfigCheck

  /** The seven reads of the checker, on the merged view of both layers. */
  function ReadsOf(yaml: YamlCodec, s: Store): C.Reads {
    C.Reads(Listing(yaml, s, ProviderKind), Listing(yaml, s, ModelKind), Listing(yaml, s, McpKind),
            Listing(yaml, s, ToolsetKind), Listing(yaml, s, AgentKind), Listing(yaml, s, SkillKind), DefaultAgentOf(s))
  }

  lemma ListingIsSound(yaml: YamlCodec, s: Store, kind: Kind)
    requires Listing(yaml, s, kind).Ok?
    ensures UniqueNames(Listing(yaml, s, kind).value) && C.AllOf(Listing(yaml, s, kind).value, kind)
  {
    Refinement.ListedInOrder(yaml, s, kind);
  }

  ghost predicate Sound(yaml: YamlCodec, s: Store, kind: Kind) {
    && Listing(yaml, s, kind).Ok? && UniqueNames(Listing(yaml, s, kind).value)
    && C.AllOf(Listing(yaml, s, kind).value, kind)
  }

  lemma ReadsAreSound(yaml: YamlCodec, s: Store)
    requires DefaultAgentOf(s).Ok? && forall kind :: Sound(yaml, s, kind)
    ensures var r := ReadsOf(yaml, s);
            C.AllRead(r) && C.AllDistinct(C.ConfigOf(r)) && C.WellKinded(C.ConfigOf(r))
  {
    var c := C.ConfigOf(ReadsOf(yaml, s));
    forall kind ensures UniqueNames(C.ItemsOf(c, kind)) && C.AllOf(C.ItemsOf(c, kind), kind) {
      ItemsAreListed(yaml, s, kind);
    }
    assert forall kind :: Sound(yaml, s, kind) ==> Listing(yaml, s, kind).Ok?;
    WellKindedByKind(c);
  }

  lemma ItemsAreListed(yaml: YamlCodec, s: Store, kind: Kind)
    requires Sound(yaml, s, kind)
    ensures C.ItemsOf(C.ConfigOf(ReadsOf(yaml, s)), kind) == Listing(yaml, s, kind).value
  {
  }

  lemma WellKindedByKind(c: C.Config)
    requires forall kind :: C.AllOf(C.ItemsOf(c, kind), kind)
    ensures C.WellKinded(c)
  {
    assert C.AllOf(C.ItemsOf(c, ProviderKind), ProviderKind) && C.AllOf(C.ItemsOf(c, ModelKind), ModelKind);
    assert C.AllOf(C.ItemsOf(c, McpKind), McpKind) && C.AllOf(C.ItemsOf(c, ToolsetKind), ToolsetKind);
    assert C.AllOf(C.ItemsOf(c, AgentKind), AgentKind) && C.AllOf(C.ItemsOf(c, SkillKind), SkillKind);
  }

  /** A readable store can only be reported for references that dangle: reads succeed and names are distinct. */
  lemma OnlyDanglingIsReported(yaml: YamlCodec, s: Store)
    requires FsRuns.ReadableStore(yaml, s)
    ensures var r := ReadsOf(yaml, s);
            var c := C.ConfigOf(r);
            && C.AllRead(r) && C.AllDistinct(c)
            && C.Report(r) == C.Dangling(c, C.References(c))
            && (C.Report(r) == [] <==> C.AllResolve(c))
  {
    FsRuns.ReadsSucceed(yaml, s);
    forall kind ensures Sound(yaml, s, kind) {
      ListingIsSound(yaml, s, kind);
    }
    ReadsAreSound(yaml, s);
    C.ReportOfSoundReads(ReadsOf(yaml, s));
  }
}
