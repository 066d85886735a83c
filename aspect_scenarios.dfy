/**
 * The propagation and merging scenarios of the aspect analysis tests, each a lemma over a
 * concrete target graph. Each scenario is proved from resolution facts, the successors of
 * each planned target, the exact plan, the requesting rule's applications and, last, the
 * merged data or the reported events.
 */
module AspectScenarios {
  import opened Wrappers
  import opened AspectValues
  import opened Targets
  import opened Resolver
  import opened Planner
  import opened TestAspects

  const A := Label("//a:a")
  const B := Label("//a:b")
  const C := Label("//a:c")
  const D := Label("//a:d")
  const E := Label("//a:e")
  const S := Label("//a:s")
  const X := Label("//a:x")
  const BAlias := Label("//a:b_alias")
  const ExternalB := Label("//external:b")

  /** The entries the scenarios' rules and tagged aspects contribute, spelled out. */
  lemma EntryStrings()
    ensures RuleData(A) == {"rule //a:a"} && RuleData(X) == {"rule //a:x"}
    ensures "aspect " + A.ToString() == "aspect //a:a"
    ensures "aspect " + B.ToString() == "aspect //a:b"
    ensures "aspect " + C.ToString() == "aspect //a:c"
    ensures "aspect " + D.ToString() == "aspect //a:d"
    ensures "aspect " + E.ToString() == "aspect //a:e"
    ensures "aspect " + ExtraLabel.ToString() == "aspect //extra:extra"
    ensures "aspect " + ToolLabel.ToString() == "aspect //a:tool"
  {
    assert "rule " + A.ToString() == "rule //a:a";
    assert "rule " + X.ToString() == "rule //a:x";
  }

  // ---------------------------------------------------------------------------------------
  // Where an aspect goes from a rule of each class
  // ---------------------------------------------------------------------------------------

  /** The aspect's own implicit attributes are not followed (always so under an all-attributes policy). */
  predicate ImplicitNotFollowed(a: AspectDefinition) {
    forall i :: 0 <= i < |a.implicitAttributes| ==> !Follows(a.policy, ImplicitNames(a), a.implicitAttributes[i].name)
  }

  /** When the aspect's implicit attributes are not followed, it goes where the rule's own followed attributes point. */
  lemma OwnAttributesSuccessors(g: Graph, config: BuildConfiguration, a: AspectDefinition, l: Label)
    requires l in g && g[l].Rule? && ImplicitNotFollowed(a)
    requires forall t :: t in RawDeps(g[l].attributes, a.policy, ImplicitNames(a), config) ==> IsTerminal(g, t)
    ensures AspectSuccessors(g, config, a, l) == RawDeps(g[l].attributes, a.policy, ImplicitNames(a), config)
  {
    var own := RawDeps(g[l].attributes, a.policy, ImplicitNames(a), config);
    RawDepsAppend(g[l].attributes, a.implicitAttributes, a.policy, ImplicitNames(a), config);
    NoneFollowedNoDeps(a.implicitAttributes, a.policy, ImplicitNames(a), config);
    assert own + [] == own;
    assert forall i :: 0 <= i < |own| ==> own[i] in own;
    ResolveAllTerminals(g, config, own);
  }

  /** Where an aspect goes from a `simple` rule: the followed ones of `foo` and `foo1`. */
  lemma SimpleSuccessors(
    g: Graph, config: BuildConfiguration, a: AspectDefinition, l: Label, foo: seq<Label>, foo1: seq<Label>, txt: string)
    requires l in g && g[l] == Simple(l, foo, foo1, txt) && ImplicitNotFollowed(a)
    requires forall t :: t in foo + foo1 ==> IsTerminal(g, t)
    ensures AspectSuccessors(g, config, a, l) ==
      (if Follows(a.policy, ImplicitNames(a), "foo") then foo else [])
      + (if Follows(a.policy, ImplicitNames(a), "foo1") then foo1 else [])
  {
    var x, y, z := Attribute("foo", LabelList(foo), []), Attribute("foo1", LabelList(foo1), []), Attribute("txt", NonLabel(txt), []);
    assert g[l].attributes == [x, y, z];
    assert [x, y, z][1..] == [y, z] && [y, z][1..] == [z] && [z][1..] == [];
    var n := ImplicitNames(a);
    assert RawDeps([z], a.policy, n, config) == [] + RawDeps([], a.policy, n, config) == [];
    assert RawDeps([y, z], a.policy, n, config) == (if Follows(a.policy, n, "foo1") then foo1 else []) + [];
    assert RawDeps([x, y, z], a.policy, n, config) ==
      (if Follows(a.policy, n, "foo") then foo else []) + RawDeps([y, z], a.policy, n, config);
    OwnAttributesSuccessors(g, config, a, l);
  }

  /** Where an aspect goes from a rule with one attribute of labels. */
  lemma OneAttributeSuccessors(g: Graph, config: BuildConfiguration, a: AspectDefinition, l: Label, x: Attribute)
    requires l in g && g[l].Rule? && g[l].attributes == [x] && ImplicitNotFollowed(a)
    requires forall t :: t in AttrLabels(x.value, config) ==> IsTerminal(g, t)
    ensures AspectSuccessors(g, config, a, l) ==
      if Follows(a.policy, ImplicitNames(a), x.name) then AttrLabels(x.value, config) else []
  {
    assert [x][1..] == [];
    OwnAttributesSuccessors(g, config, a, l);
  }

  /** Where an aspect goes from a rule with two attributes of labels. */
  lemma TwoAttributeSuccessors(g: Graph, config: BuildConfiguration, a: AspectDefinition, l: Label, x: Attribute, y: Attribute)
    requires l in g && g[l].Rule? && g[l].attributes == [x, y] && ImplicitNotFollowed(a)
    requires forall t :: t in AttrLabels(x.value, config) + AttrLabels(y.value, config) ==> IsTerminal(g, t)
    ensures AspectSuccessors(g, config, a, l) ==
      (if Follows(a.policy, ImplicitNames(a), x.name) then AttrLabels(x.value, config) else [])
      + (if Follows(a.policy, ImplicitNames(a), y.name) then AttrLabels(y.value, config) else [])
  {
    assert [x, y][1..] == [y] && [y][1..] == [];
    var n := ImplicitNames(a);
    var fy := if Follows(a.policy, n, y.name) then AttrLabels(y.value, config) else [];
    assert RawDeps([y], a.policy, n, config) == fy + RawDeps([], a.policy, n, config) == fy + [];
    assert RawDeps([x, y], a.policy, n, config) ==
      (if Follows(a.policy, n, x.name) then AttrLabels(x.value, config) else []) + RawDeps([y], a.policy, n, config);
    OwnAttributesSuccessors(g, config, a, l);
  }

  // ---------------------------------------------------------------------------------------
  // Plans of the small shapes the scenarios have
  // ---------------------------------------------------------------------------------------

  /** The only dependency resolves to an eligible target the aspect goes nowhere from. */
  lemma PlanOfLeaf(g: Graph, a: AspectDefinition, config: BuildConfiguration, raws: seq<Label>, t: Label)
    requires ResolveAll(g, config, raws) == [t] && t in Eligible(g, a) && AspectSuccessors(g, config, a, t) == []
    ensures forall u :: u in Plan(g, config, a, raws) <==> u in [t]
  {
    PlanWithin(g, config, a, raws, {t});
    RootPlanned(g, config, a, raws, t);
  }

  /** The only dependency resolves to a target the gate rejects. */
  lemma PlanOfRejected(g: Graph, a: AspectDefinition, config: BuildConfiguration, raws: seq<Label>, t: Label)
    requires ResolveAll(g, config, raws) == [t] && t !in Eligible(g, a)
    ensures forall u :: u in Plan(g, config, a, raws) <==> u in []
  {
    PlanWithin(g, config, a, raws, {});
  }

  /** Two dependencies resolve to eligible targets the aspect goes nowhere from. */
  lemma PlanOfTwoLeaves(g: Graph, a: AspectDefinition, config: BuildConfiguration, raws: seq<Label>, b: Label, c: Label)
    requires ResolveAll(g, config, raws) == [b, c] && b in Eligible(g, a) && c in Eligible(g, a)
    requires AspectSuccessors(g, config, a, b) == [] && AspectSuccessors(g, config, a, c) == []
    ensures forall u :: u in Plan(g, config, a, raws) <==> u in [b, c]
  {
    PlanWithin(g, config, a, raws, {b, c});
    RootPlanned(g, config, a, raws, b);
    RootPlanned(g, config, a, raws, c);
  }

  /** The only dependency leads on to one more eligible target, where the aspect stops. */
  lemma PlanOfChain(g: Graph, a: AspectDefinition, config: BuildConfiguration, raws: seq<Label>, b: Label, c: Label)
    requires ResolveAll(g, config, raws) == [b] && b in Eligible(g, a) && c in Eligible(g, a)
    requires AspectSuccessors(g, config, a, b) == [c] && AspectSuccessors(g, config, a, c) == []
    ensures forall u :: u in Plan(g, config, a, raws) <==> u in [b, c]
  {
    PlanWithin(g, config, a, raws, {b, c});
    RootPlanned(g, config, a, raws, b);
    PropagationTransitive(g, config, a, raws, b, c);
  }

  /** Where the aspect goes from a dependency that fans out to `b` and `c`, and from `c` on to `tail`. */
  lemma FanWithin(
    g: Graph, a: AspectDefinition, config: BuildConfiguration, raws: seq<Label>, r: Label, b: Label, c: Label, tail: seq<Label>)
    requires ResolveAll(g, config, raws) == [r] && |tail| <= 1
    requires AspectSuccessors(g, config, a, r) == [b, c] && AspectSuccessors(g, config, a, b) == []
    requires AspectSuccessors(g, config, a, c) == tail
    requires forall x :: x in tail ==> AspectSuccessors(g, config, a, x) == []
    ensures forall u :: u in Plan(g, config, a, raws) ==> u in [r, b, c] + tail
  {
    var s := set u | u in [r, b, c] + tail;
    forall v, w | v in s && w in AspectSuccessors(g, config, a, v) ensures w in s {
      if v == r { assert w in [b, c]; } else if v == c { assert w in tail; }
    }
    PlanWithin(g, config, a, raws, s);
  }

  /** Everything on the fan is planned when it is eligible. */
  lemma FanPlanned(
    g: Graph, a: AspectDefinition, config: BuildConfiguration, raws: seq<Label>, r: Label, b: Label, c: Label, tail: seq<Label>)
    requires ResolveAll(g, config, raws) == [r] && r in Eligible(g, a) && b in Eligible(g, a) && c in Eligible(g, a)
    requires AspectSuccessors(g, config, a, r) == [b, c] && AspectSuccessors(g, config, a, c) == tail
    requires forall x :: x in tail ==> x in Eligible(g, a)
    ensures forall u :: u in [r, b, c] + tail ==> u in Plan(g, config, a, raws)
  {
    RootPlanned(g, config, a, raws, r);
    PropagationTransitive(g, config, a, raws, r, b);
    PropagationTransitive(g, config, a, raws, r, c);
    forall x | x in tail ensures x in Plan(g, config, a, raws) {
      PropagationTransitive(g, config, a, raws, c, x);
    }
  }

  /**
   * The only dependency leads on to two eligible targets; the aspect stops at the first and
   * goes on from the second to `tail` (nothing, or one more target), where it stops.
   */
  lemma PlanOfFan(
    g: Graph, a: AspectDefinition, config: BuildConfiguration, raws: seq<Label>, r: Label, b: Label, c: Label, tail: seq<Label>)
    requires ResolveAll(g, config, raws) == [r] && r in Eligible(g, a) && b in Eligible(g, a) && c in Eligible(g, a)
    requires AspectSuccessors(g, config, a, r) == [b, c] && AspectSuccessors(g, config, a, b) == []
    requires AspectSuccessors(g, config, a, c) == tail && |tail| <= 1
    requires forall x :: x in tail ==> x in Eligible(g, a) && AspectSuccessors(g, config, a, x) == []
    ensures forall u :: u in Plan(g, config, a, raws) <==> u in [r, b, c] + tail
  {
    FanWithin(g, a, config, raws, r, b, c, tail);
    FanPlanned(g, a, config, raws, r, b, c, tail);
  }

  /** A plan of three targets applies the aspect to each of them. */
  lemma ThreeApplications(g: Graph, a: AspectDefinition, config: BuildConfiguration, raws: seq<Label>, r: Label, b: Label, c: Label)
    requires forall u :: u in Plan(g, config, a, raws) <==> u in [r, b, c]
    ensures PlanApplications(g, config, a, raws) == {Application(a, r), Application(a, b), Application(a, c)}
  {
    PlanApplicationsExactly(g, config, a, raws, [r, b, c], {Application(a, r), Application(a, b), Application(a, c)});
  }

  /** The plan of a fan that stops at `b` and goes on from `c` to `x`. */
  lemma FanTailPlan(
    g: Graph, a: AspectDefinition, config: BuildConfiguration, raws: seq<Label>, r: Label, b: Label, c: Label, x: Label)
    requires ResolveAll(g, config, raws) == [r] && r in Eligible(g, a) && b in Eligible(g, a) && c in Eligible(g, a)
    requires x in Eligible(g, a)
    requires AspectSuccessors(g, config, a, r) == [b, c] && AspectSuccessors(g, config, a, b) == []
    requires AspectSuccessors(g, config, a, c) == [x] && AspectSuccessors(g, config, a, x) == []
    ensures forall u :: u in Plan(g, config, a, raws) <==> u in [r, b, c, x]
  {
    PlanOfFan(g, a, config, raws, r, b, c, [x]);
    assert [r, b, c] + [x] == [r, b, c, x];
  }

  /** A plan of four targets applies the aspect to each of them. */
  lemma FourApplications(
    g: Graph, a: AspectDefinition, config: BuildConfiguration, raws: seq<Label>, r: Label, b: Label, c: Label, x: Label)
    requires forall u :: u in Plan(g, config, a, raws) <==> u in [r, b, c, x]
    ensures PlanApplications(g, config, a, raws)
      == {Application(a, r), Application(a, b), Application(a, c), Application(a, x)}
  {
    PlanApplicationsExactly(g, config, a, raws, [r, b, c, x],
      {Application(a, r), Application(a, b), Application(a, c), Application(a, x)});
  }

  // ---------------------------------------------------------------------------------------
  // An aspect is applied to the target of an alias whose actual is a select
  // ---------------------------------------------------------------------------------------

  function AliasWithSelect(): Graph {
    map[A := AspectRule(A, [B], []),
        B := Alias(Select([Branch(DefaultCondition, C)])),
        C := Base(C)]
  }

  lemma AliasWithSelectPlan()
    ensures PlanApplications(AliasWithSelect(), Cfg, SimpleAspect, [B]) == {Application(SimpleAspect, C)}
  {
    var g := AliasWithSelect();
    DefaultOnlySelect(C, Cfg, B);
    assert AspectSuccessors(g, Cfg, SimpleAspect, C) == [];
    ResolveAllOne(g, Cfg, B, C);
    PlanOfLeaf(g, SimpleAspect, Cfg, [B], C);
    PlanApplicationsExactly(g, Cfg, SimpleAspect, [B], [C], {Application(SimpleAspect, C)});
  }

  lemma AliasWithSelectApplications()
    ensures Applications(AliasWithSelect(), Cfg, A) == {Application(SimpleAspect, C)}
  {
    var g := AliasWithSelect();
    var foo := Attribute("foo", LabelList([B]), [SimpleAspect]);
    var bar := Attribute("bar", LabelList([]), [SimpleAspect]);
    assert g[A].attributes == [foo, bar];
    TwoAttributesApplications(g, Cfg, foo, bar);
    AliasWithSelectPlan();
    OneAspectApplications(g, Cfg, SimpleAspect, [B]);
    NoDependenciesNoApplications(g, Cfg, [SimpleAspect]);
  }

  /** The data of //a:a merges the aspect's contribution for //a:c, the alias's target. */
  lemma AspectAppliedToAliasWithSelect()
    ensures Analyze(AliasWithSelect(), Cfg, A).data == {"aspect //a:c", "rule //a:a"}
  {
    var g := AliasWithSelect();
    AliasWithSelectApplications();
    DataOfOne(g, Cfg, A, Application(SimpleAspect, C));
    EntryStrings();
    assert g[A].data == RuleData(A);
  }

  // ---------------------------------------------------------------------------------------
  // An aspect is applied to the end of a chain of aliases
  // ---------------------------------------------------------------------------------------

  function ChainedAliases(): Graph {
    map[A := AspectRule(A, [B], []),
        B := Alias(Direct(C)),
        C := Alias(Direct(D)),
        D := Alias(Direct(E)),
        E := Base(E)]
  }

  lemma ChainedAliasesPlan()
    ensures PlanApplications(ChainedAliases(), Cfg, SimpleAspect, [B]) == {Application(SimpleAspect, E)}
  {
    var g := ChainedAliases();
    AliasChainResolves(g, Cfg, [B, C, D, E]);
    assert AspectSuccessors(g, Cfg, SimpleAspect, E) == [];
    ResolveAllOne(g, Cfg, B, E);
    PlanOfLeaf(g, SimpleAspect, Cfg, [B], E);
    PlanApplicationsExactly(g, Cfg, SimpleAspect, [B], [E], {Application(SimpleAspect, E)});
  }

  lemma ChainedAliasesApplications()
    ensures Applications(ChainedAliases(), Cfg, A) == {Application(SimpleAspect, E)}
  {
    var g := ChainedAliases();
    var foo := Attribute("foo", LabelList([B]), [SimpleAspect]);
    var bar := Attribute("bar", LabelList([]), [SimpleAspect]);
    assert g[A].attributes == [foo, bar];
    TwoAttributesApplications(g, Cfg, foo, bar);
    ChainedAliasesPlan();
    OneAspectApplications(g, Cfg, SimpleAspect, [B]);
    NoDependenciesNoApplications(g, Cfg, [SimpleAspect]);
  }

  /** The data of //a:a merges the aspect's contribution for //a:e, where the chain ends. */
  lemma AspectAppliedToChainedAliases()
    ensures Analyze(ChainedAliases(), Cfg, A).data == {"aspect //a:e", "rule //a:a"}
  {
    var g := ChainedAliases();
    ChainedAliasesApplications();
    DataOfOne(g, Cfg, A, Application(SimpleAspect, E));
    EntryStrings();
    assert g[A].data == RuleData(A);
  }

  // ---------------------------------------------------------------------------------------
  // An aspect is applied through chained aliases whose actuals are selects
  // ---------------------------------------------------------------------------------------

  function ChainedAliasesAndSelect(): Graph {
    map[A := AspectRule(A, [B], []),
        B := Alias(Select([Branch(DefaultCondition, C)])),
        C := Alias(Select([Branch(DefaultCondition, D)])),
        D := Base(D)]
  }

  lemma ChainedAliasesAndSelectPlan()
    ensures PlanApplications(ChainedAliasesAndSelect(), Cfg, SimpleAspect, [B]) == {Application(SimpleAspect, D)}
  {
    var g := ChainedAliasesAndSelect();
    DefaultOnlySelect(C, Cfg, B);
    DefaultOnlySelect(D, Cfg, C);
    AliasChainResolves(g, Cfg, [B, C, D]);
    assert AspectSuccessors(g, Cfg, SimpleAspect, D) == [];
    ResolveAllOne(g, Cfg, B, D);
    PlanOfLeaf(g, SimpleAspect, Cfg, [B], D);
    PlanApplicationsExactly(g, Cfg, SimpleAspect, [B], [D], {Application(SimpleAspect, D)});
  }

  lemma ChainedAliasesAndSelectApplications()
    ensures Applications(ChainedAliasesAndSelect(), Cfg, A) == {Application(SimpleAspect, D)}
  {
    var g := ChainedAliasesAndSelect();
    var foo := Attribute("foo", LabelList([B]), [SimpleAspect]);
    var bar := Attribute("bar", LabelList([]), [SimpleAspect]);
    assert g[A].attributes == [foo, bar];
    TwoAttributesApplications(g, Cfg, foo, bar);
    ChainedAliasesAndSelectPlan();
    OneAspectApplications(g, Cfg, SimpleAspect, [B]);
    NoDependenciesNoApplications(g, Cfg, [SimpleAspect]);
  }

  /** The data of //a:a merges the aspect's contribution for //a:d. */
  lemma AspectAppliedToChainedAliasesAndSelect()
    ensures Analyze(ChainedAliasesAndSelect(), Cfg, A).data == {"aspect //a:d", "rule //a:a"}
  {
    var g := ChainedAliasesAndSelect();
    ChainedAliasesAndSelectApplications();
    DataOfOne(g, Cfg, A, Application(SimpleAspect, D));
    EntryStrings();
    assert g[A].data == RuleData(A);
  }

  // ---------------------------------------------------------------------------------------
  // What an aspect provides on a dependency is merged into the rule that requested it
  // ---------------------------------------------------------------------------------------

  function MergedIntoDependency(): Graph {
    map[A := AspectRule(A, [B], []),
        B := AspectRule(B, [], [])]
  }

  lemma MergedIntoDependencyPlan()
    ensures PlanApplications(MergedIntoDependency(), Cfg, SimpleAspect, [B]) == {Application(SimpleAspect, B)}
  {
    var g := MergedIntoDependency();
    var foo := Attribute("foo", LabelList([]), [SimpleAspect]);
    var bar := Attribute("bar", LabelList([]), [SimpleAspect]);
    TwoAttributeSuccessors(g, Cfg, SimpleAspect, B, foo, bar);
    ResolveAllTerminals(g, Cfg, [B]);
    PlanOfLeaf(g, SimpleAspect, Cfg, [B], B);
    PlanApplicationsExactly(g, Cfg, SimpleAspect, [B], [B], {Application(SimpleAspect, B)});
  }

  lemma MergedIntoDependencyApplications()
    ensures Applications(MergedIntoDependency(), Cfg, A) == {Application(SimpleAspect, B)}
  {
    var g := MergedIntoDependency();
    var foo := Attribute("foo", LabelList([B]), [SimpleAspect]);
    var bar := Attribute("bar", LabelList([]), [SimpleAspect]);
    assert g[A].attributes == [foo, bar];
    TwoAttributesApplications(g, Cfg, foo, bar);
    MergedIntoDependencyPlan();
    OneAspectApplications(g, Cfg, SimpleAspect, [B]);
    NoDependenciesNoApplications(g, Cfg, [SimpleAspect]);
  }

  /** The data of //a:a holds its own entry and the aspect's on //a:b, but not //a:b's own. */
  lemma ProvidersOfAspectAreMergedIntoDependency()
    ensures Analyze(MergedIntoDependency(), Cfg, A).data == {"aspect //a:b", "rule //a:a"}
  {
    var g := MergedIntoDependency();
    MergedIntoDependencyApplications();
    DataOfOne(g, Cfg, A, Application(SimpleAspect, B));
    EntryStrings();
    assert g[A].data == RuleData(A);
  }

  // ---------------------------------------------------------------------------------------
  // The provider gate
  // ---------------------------------------------------------------------------------------

  /** A rule requiring RequiredProvider on `foo`, whose dependency `b` advertises nothing. */
  function AdvertisedProviderAbsent(): Graph {
    map[A := AspectRequiringProviderRule(A, [B]),
        B := Liar(B, [])]
  }

  /** As above, with an alias to `b` that nothing uses. */
  function AdvertisedProviderAbsentWithAlias(): Graph {
    map[A := AspectRequiringProviderRule(A, [B]),
        BAlias := Alias(Direct(B)),
        B := Liar(B, [])]
  }

  lemma AdvertisedProviderAbsentApplications()
    ensures Applications(AdvertisedProviderAbsent(), Cfg, A) == {}
  {
    var g := AdvertisedProviderAbsent();
    ResolveAllTerminals(g, Cfg, [B]);
    PlanOfRejected(g, AspectRequiringProvider, Cfg, [B], B);
    PlanApplicationsExactly(g, Cfg, AspectRequiringProvider, [B], [], {});
    OneAttributeApplications(g, Cfg, Attribute("foo", LabelList([B]), [AspectRequiringProvider]));
    OneAspectApplications(g, Cfg, AspectRequiringProvider, [B]);
  }

  /** The liar gets no application, so //a:a's data is its own. */
  lemma AspectIsNotCreatedIfAdvertisedProviderIsNotPresent()
    ensures Analyze(AdvertisedProviderAbsent(), Cfg, A).data == {"rule //a:a"}
  {
    var g := AdvertisedProviderAbsent();
    AdvertisedProviderAbsentApplications();
    DataOfNone(g, Cfg, A);
    EntryStrings();
    assert g[A].data == RuleData(A);
  }

  lemma AdvertisedProviderAbsentWithAliasApplications()
    ensures Applications(AdvertisedProviderAbsentWithAlias(), Cfg, A) == {}
  {
    var g := AdvertisedProviderAbsentWithAlias();
    ResolveAllTerminals(g, Cfg, [B]);
    PlanOfRejected(g, AspectRequiringProvider, Cfg, [B], B);
    PlanApplicationsExactly(g, Cfg, AspectRequiringProvider, [B], [], {});
    OneAttributeApplications(g, Cfg, Attribute("foo", LabelList([B]), [AspectRequiringProvider]));
    OneAspectApplications(g, Cfg, AspectRequiringProvider, [B]);
  }

  /** An unused alias to the liar changes nothing: //a:a's data is its own. */
  lemma AspectIsNotCreatedIfAdvertisedProviderIsNotPresentWithAlias()
    ensures Analyze(AdvertisedProviderAbsentWithAlias(), Cfg, A).data == {"rule //a:a"}
  {
    var g := AdvertisedProviderAbsentWithAlias();
    AdvertisedProviderAbsentWithAliasApplications();
    DataOfNone(g, Cfg, A);
    EntryStrings();
    assert g[A].data == RuleData(A);
  }

  /** The dependency is reached through an alias to a liar, which depends on an honest rule. */
  function ThroughLiars(): Graph {
    map[A := AspectRequiringProviderRule(A, [BAlias]),
        BAlias := Alias(Direct(B)),
        B := Liar(B, [C]),
        C := Honest(C, [])]
  }

  lemma ThroughLiarsPlan()
    ensures forall t :: t !in Plan(ThroughLiars(), Cfg, AspectRequiringProvider, [BAlias])
  {
    var g := ThroughLiars();
    AliasChainResolves(g, Cfg, [BAlias, B]);
    ResolveAllOne(g, Cfg, BAlias, B);
    PlanOfRejected(g, AspectRequiringProvider, Cfg, [BAlias], B);
  }

  lemma ThroughLiarsApplications()
    ensures Applications(ThroughLiars(), Cfg, A) == {}
  {
    var g := ThroughLiars();
    ThroughLiarsPlan();
    PlanApplicationsExactly(g, Cfg, AspectRequiringProvider, [BAlias], [], {});
    OneAttributeApplications(g, Cfg, Attribute("foo", LabelList([BAlias]), [AspectRequiringProvider]));
    OneAspectApplications(g, Cfg, AspectRequiringProvider, [BAlias]);
  }

  /** The aspect stops at the liar: the honest rule behind it gets no application either. */
  lemma AspectIsNotPropagatedThroughLiars()
    ensures C !in Plan(ThroughLiars(), Cfg, AspectRequiringProvider, [BAlias])
    ensures Analyze(ThroughLiars(), Cfg, A).data == {"rule //a:a"}
  {
    var g := ThroughLiars();
    ThroughLiarsPlan();
    ThroughLiarsApplications();
    DataOfNone(g, Cfg, A);
    EntryStrings();
    assert g[A].data == RuleData(A);
  }

  /** The dependency is an alias to an honest rule. */
  function ThroughAliasRule(): Graph {
    map[A := AspectRequiringProviderRule(A, [BAlias]),
        BAlias := Alias(Direct(B)),
        B := Honest(B, [])]
  }

  lemma ThroughAliasRulePlan()
    ensures PlanApplications(ThroughAliasRule(), Cfg, AspectRequiringProvider, [BAlias])
      == {Application(AspectRequiringProvider, B)}
  {
    var g := ThroughAliasRule();
    AliasChainResolves(g, Cfg, [BAlias, B]);
    ResolveAllOne(g, Cfg, BAlias, B);
    OneAttributeSuccessors(g, Cfg, AspectRequiringProvider, B, Attribute("foo", LabelList([]), []));
    PlanOfLeaf(g, AspectRequiringProvider, Cfg, [BAlias], B);
    PlanApplicationsExactly(g, Cfg, AspectRequiringProvider, [BAlias], [B], {Application(AspectRequiringProvider, B)});
  }

  /** The aspect reaches the honest rule behind the alias. */
  lemma AspectPropagatedThroughAliasRule()
    ensures Analyze(ThroughAliasRule(), Cfg, A).data == {"rule //a:a", "aspect //a:b"}
  {
    var g := ThroughAliasRule();
    ThroughAliasRulePlan();
    OneAttributeApplications(g, Cfg, Attribute("foo", LabelList([BAlias]), [AspectRequiringProvider]));
    OneAspectApplications(g, Cfg, AspectRequiringProvider, [BAlias]);
    DataOfOne(g, Cfg, A, Application(AspectRequiringProvider, B));
    EntryStrings();
    assert g[A].data == RuleData(A);
  }

  /** An honest rule depending on another honest rule, with an unused alias to the first. */
  function ThroughHonestRules(): Graph {
    map[A := AspectRequiringProviderRule(A, [B]),
        BAlias := Alias(Direct(B)),
        B := Honest(B, [C]),
        C := Honest(C, [])]
  }

  lemma ThroughHonestRulesSuccessors()
    ensures AspectSuccessors(ThroughHonestRules(), Cfg, AspectRequiringProvider, B) == [C]
    ensures AspectSuccessors(ThroughHonestRules(), Cfg, AspectRequiringProvider, C) == []
  {
    var g := ThroughHonestRules();
    OneAttributeSuccessors(g, Cfg, AspectRequiringProvider, B, Attribute("foo", LabelList([C]), []));
    OneAttributeSuccessors(g, Cfg, AspectRequiringProvider, C, Attribute("foo", LabelList([]), []));
  }

  lemma ThroughHonestRulesEligible()
    ensures Eligible(ThroughHonestRules(), AspectRequiringProvider) == {B, C}
  {
  }

  lemma ThroughHonestRulesPlan()
    ensures PlanApplications(ThroughHonestRules(), Cfg, AspectRequiringProvider, [B])
      == {Application(AspectRequiringProvider, B), Application(AspectRequiringProvider, C)}
  {
    var g := ThroughHonestRules();
    ResolveAllTerminals(g, Cfg, [B]);
    ThroughHonestRulesSuccessors();
    ThroughHonestRulesEligible();
    PlanOfChain(g, AspectRequiringProvider, Cfg, [B], B, C);
    PlanApplicationsExactly(g, Cfg, AspectRequiringProvider, [B], [B, C],
      {Application(AspectRequiringProvider, B), Application(AspectRequiringProvider, C)});
  }

  /** The aspect propagates from one honest rule to the next. */
  lemma AspectPropagatedThroughAliasRuleAndHonestRules()
    ensures Analyze(ThroughHonestRules(), Cfg, A).data == {"rule //a:a", "aspect //a:b", "aspect //a:c"}
  {
    var g := ThroughHonestRules();
    ThroughHonestRulesPlan();
    OneAttributeApplications(g, Cfg, Attribute("foo", LabelList([B]), [AspectRequiringProvider]));
    OneAspectApplications(g, Cfg, AspectRequiringProvider, [B]);
    DataOfTwo(g, Cfg, A, Application(AspectRequiringProvider, B), Application(AspectRequiringProvider, C));
    EntryStrings();
    assert g[A].data == RuleData(A);
  }

  // ---------------------------------------------------------------------------------------
  // A bind in the workspace behaves as an alias
  // ---------------------------------------------------------------------------------------

  function ThroughBind(): Graph {
    map[A := AspectRequiringProviderRule(A, [ExternalB]),
        ExternalB := Alias(Direct(B)),
        B := Honest(B, [])]
  }

  lemma ThroughBindPlan()
    ensures PlanApplications(ThroughBind(), Cfg, AspectRequiringProvider, [ExternalB])
      == {Application(AspectRequiringProvider, B)}
  {
    var g := ThroughBind();
    AliasChainResolves(g, Cfg, [ExternalB, B]);
    ResolveAllOne(g, Cfg, ExternalB, B);
    OneAttributeSuccessors(g, Cfg, AspectRequiringProvider, B, Attribute("foo", LabelList([]), []));
    assert Eligible(g, AspectRequiringProvider) == {B};
    PlanOfLeaf(g, AspectRequiringProvider, Cfg, [ExternalB], B);
    PlanApplicationsExactly(g, Cfg, AspectRequiringProvider, [ExternalB], [B], {Application(AspectRequiringProvider, B)});
  }

  /** The aspect reaches //a:b through //external:b. */
  lemma AspectCreationWorksThroughBind()
    ensures Analyze(ThroughBind(), Cfg, A).data == {"rule //a:a", "aspect //a:b"}
  {
    var g := ThroughBind();
    ThroughBindPlan();
    OneAttributeApplications(g, Cfg, Attribute("foo", LabelList([ExternalB]), [AspectRequiringProvider]));
    OneAspectApplications(g, Cfg, AspectRequiringProvider, [ExternalB]);
    DataOfOne(g, Cfg, A, Application(AspectRequiringProvider, B));
    EntryStrings();
    assert g[A].data == RuleData(A);
  }

  // ---------------------------------------------------------------------------------------
  // An aspect is applied to a rule that advertises a required provider set
  // ---------------------------------------------------------------------------------------

  function AdvertisedProviderPresent(): Graph {
    map[A := AspectRequiringProviderRule(A, [B]),
        B := Honest(B, [])]
  }

  lemma AdvertisedProviderPresentPlan()
    ensures PlanApplications(AdvertisedProviderPresent(), Cfg, AspectRequiringProvider, [B])
      == {Application(AspectRequiringProvider, B)}
  {
    var g := AdvertisedProviderPresent();
    ResolveAllTerminals(g, Cfg, [B]);
    OneAttributeSuccessors(g, Cfg, AspectRequiringProvider, B, Attribute("foo", LabelList([]), []));
    assert Eligible(g, AspectRequiringProvider) == {B};
    PlanOfLeaf(g, AspectRequiringProvider, Cfg, [B], B);
    PlanApplicationsExactly(g, Cfg, AspectRequiringProvider, [B], [B], {Application(AspectRequiringProvider, B)});
  }

  /** The honest rule receives the aspect. */
  lemma AspectCreatedIfAdvertisedProviderIsPresent()
    ensures Analyze(AdvertisedProviderPresent(), Cfg, A).data == {"rule //a:a", "aspect //a:b"}
  {
    var g := AdvertisedProviderPresent();
    AdvertisedProviderPresentPlan();
    OneAttributeApplications(g, Cfg, Attribute("foo", LabelList([B]), [AspectRequiringProvider]));
    OneAspectApplications(g, Cfg, AspectRequiringProvider, [B]);
    DataOfOne(g, Cfg, A, Application(AspectRequiringProvider, B));
    EntryStrings();
    assert g[A].data == RuleData(A);
  }

  /** Two dependencies, each advertising a different one of the aspect's required sets. */
  function ProviderSets(): Graph {
    map[A := AspectRequiringProviderSetsRule(A, [B, C]),
        B := Honest(B, []),
        C := Honest2(C, [])]
  }

  lemma ProviderSetsSuccessors()
    ensures AspectSuccessors(ProviderSets(), Cfg, AspectRequiringProviderSets, B) == []
    ensures AspectSuccessors(ProviderSets(), Cfg, AspectRequiringProviderSets, C) == []
  {
    var g := ProviderSets();
    OneAttributeSuccessors(g, Cfg, AspectRequiringProviderSets, B, Attribute("foo", LabelList([]), []));
    OneAttributeSuccessors(g, Cfg, AspectRequiringProviderSets, C, Attribute("foo", LabelList([]), []));
  }

  lemma ProviderSetsEligible()
    ensures Eligible(ProviderSets(), AspectRequiringProviderSets) == {B, C}
  {
    var g := ProviderSets();
    assert {"RequiredProvider"} in AspectRequiringProviderSets.requiredProviders;
    assert {"RequiredProvider2"} in AspectRequiringProviderSets.requiredProviders;
  }

  lemma ProviderSetsPlanTargets()
    ensures forall t :: t in Plan(ProviderSets(), Cfg, AspectRequiringProviderSets, [B, C]) <==> t in [B, C]
  {
    var g := ProviderSets();
    ResolveAllTerminals(g, Cfg, [B, C]);
    ProviderSetsSuccessors();
    ProviderSetsEligible();
    PlanOfTwoLeaves(g, AspectRequiringProviderSets, Cfg, [B, C], B, C);
  }

  lemma ProviderSetsPlan()
    ensures PlanApplications(ProviderSets(), Cfg, AspectRequiringProviderSets, [B, C])
      == {Application(AspectRequiringProviderSets, B), Application(AspectRequiringProviderSets, C)}
  {
    ProviderSetsPlanTargets();
    PlanApplicationsExactly(ProviderSets(), Cfg, AspectRequiringProviderSets, [B, C], [B, C],
      {Application(AspectRequiringProviderSets, B), Application(AspectRequiringProviderSets, C)});
  }

  /** Each dependency satisfies one required set, and both receive the aspect. */
  lemma AspectCreatedIfAtLeastOneSetOfAdvertisedProvidersArePresent()
    ensures Analyze(ProviderSets(), Cfg, A).data == {"rule //a:a", "aspect //a:b", "aspect //a:c"}
  {
    var g := ProviderSets();
    ProviderSetsPlan();
    OneAttributeApplications(g, Cfg, Attribute("foo", LabelList([B, C]), [AspectRequiringProviderSets]));
    OneAspectApplications(g, Cfg, AspectRequiringProviderSets, [B, C]);
    DataOfTwo(g, Cfg, A, Application(AspectRequiringProviderSets, B), Application(AspectRequiringProviderSets, C));
    EntryStrings();
    assert g[A].data == RuleData(A);
  }

  // ---------------------------------------------------------------------------------------
  // A failing aspect fails the request
  // ---------------------------------------------------------------------------------------

  /** //a:a depends on //a:b, which attaches the failing aspect to //a:c. */
  function AspectInErrorGraph(): Graph {
    map[A := Simple(A, [B], [], ""),
        B := ErrorAspectRule(B, [C], []),
        C := Simple(C, [], [], "")]
  }

  lemma AspectInErrorAnalysesB()
    ensures B in AnalysedRules(AspectInErrorGraph(), Cfg, A)
  {
    var g := AspectInErrorGraph();
    RequestAnalysesItsRule(g, Cfg, A);
    TerminalResolvesToItself(g, Cfg, B, {});
    assert B in RawDeps(g[A].attributes, AllAttributes, {}, Cfg) by {
      assert g[A].attributes[0] == Attribute("foo", LabelList([B]), []);
    }
    AnalysisTransitive(g, Cfg, A, A, B);
  }

  lemma AspectInErrorApplication()
    ensures Application(ErrorAspect, C) in Applications(AspectInErrorGraph(), Cfg, B)
  {
    var g := AspectInErrorGraph();
    TerminalResolvesToItself(g, Cfg, C, {});
    DirectDependencyAttachesIffGate(g, Cfg, ErrorAspect, [C], C, C);
    ApplicationsMembers(g, Cfg, B, Application(ErrorAspect, C));
    assert g[B].attributes[0] == Attribute("foo", LabelList([C]), [ErrorAspect]);
  }

  /** Analysing //a:a fails, and the aspect's error is among the events. */
  lemma AspectInError()
    ensures Analyze(AspectInErrorGraph(), Cfg, A).Failed()
    ensures AspectFailure(ErrorAspect.aspectClass, C, "Aspect error") in Analyze(AspectInErrorGraph(), Cfg, A).events
    ensures Message(AspectFailure(ErrorAspect.aspectClass, C, "Aspect error")) == "Aspect error"
  {
    var g := AspectInErrorGraph();
    AspectInErrorAnalysesB();
    AspectInErrorApplication();
    TerminalResolvesToItself(g, Cfg, A, {});
    ApplicationEventFailsRequest(g, Cfg, A, B, Application(ErrorAspect, C), AspectFailure(ErrorAspect.aspectClass, C, "Aspect error"));
  }

  /** A chain of failing-aspect rules: the aspect goes from //a:b along `bar` to //a:c and //a:d. */
  function TransitiveErrorGraph(): Graph {
    map[A := ErrorAspectRule(A, [B], []),
        B := ErrorAspectRule(B, [], [C]),
        C := ErrorAspectRule(C, [], [D]),
        D := ErrorAspectRule(D, [], [])]
  }

  lemma TransitiveErrorSuccessors()
    ensures C in AspectSuccessors(TransitiveErrorGraph(), Cfg, ErrorAspect, B)
    ensures D in AspectSuccessors(TransitiveErrorGraph(), Cfg, ErrorAspect, C)
  {
    var g := TransitiveErrorGraph();
    TwoAttributeSuccessors(g, Cfg, ErrorAspect, B,
      Attribute("foo", LabelList([]), [ErrorAspect]), Attribute("bar", LabelList([C]), []));
    TwoAttributeSuccessors(g, Cfg, ErrorAspect, C,
      Attribute("foo", LabelList([]), [ErrorAspect]), Attribute("bar", LabelList([D]), []));
  }

  lemma TransitiveErrorPlan()
    ensures B in Plan(TransitiveErrorGraph(), Cfg, ErrorAspect, [B])
    ensures C in Plan(TransitiveErrorGraph(), Cfg, ErrorAspect, [B])
    ensures D in Plan(TransitiveErrorGraph(), Cfg, ErrorAspect, [B])
  {
    var g := TransitiveErrorGraph();
    TerminalResolvesToItself(g, Cfg, B, {});
    DirectDependencyAttachesIffGate(g, Cfg, ErrorAspect, [B], B, B);
    TransitiveErrorSuccessors();
    PropagationTransitive(g, Cfg, ErrorAspect, [B], B, C);
    PropagationTransitive(g, Cfg, ErrorAspect, [B], C, D);
  }

  lemma TransitiveErrorApplication(t: Label)
    requires t in Plan(TransitiveErrorGraph(), Cfg, ErrorAspect, [B])
    ensures Application(ErrorAspect, t) in Applications(TransitiveErrorGraph(), Cfg, A)
  {
    var g := TransitiveErrorGraph();
    ApplicationsMembers(g, Cfg, A, Application(ErrorAspect, t));
    assert g[A].attributes[0] == Attribute("foo", LabelList([B]), [ErrorAspect]);
  }

  lemma TransitiveErrorEvent(t: Label)
    requires t in Plan(TransitiveErrorGraph(), Cfg, ErrorAspect, [B])
    ensures AspectFailure(ErrorAspect.aspectClass, t, "Aspect error") in Analyze(TransitiveErrorGraph(), Cfg, A).events
  {
    var g := TransitiveErrorGraph();
    TerminalResolvesToItself(g, Cfg, A, {});
    RequestAnalysesItsRule(g, Cfg, A);
    TransitiveErrorApplication(t);
    ApplicationEventFailsRequest(g, Cfg, A, A, Application(ErrorAspect, t), AspectFailure(ErrorAspect.aspectClass, t, "Aspect error"));
  }

  /** Analysing //a:a fails with the aspect's error on each of //a:b, //a:c and //a:d. */
  lemma TransitiveAspectInError()
    ensures Analyze(TransitiveErrorGraph(), Cfg, A).Failed()
    ensures AspectFailure(ErrorAspect.aspectClass, B, "Aspect error") in Analyze(TransitiveErrorGraph(), Cfg, A).events
    ensures AspectFailure(ErrorAspect.aspectClass, C, "Aspect error") in Analyze(TransitiveErrorGraph(), Cfg, A).events
    ensures AspectFailure(ErrorAspect.aspectClass, D, "Aspect error") in Analyze(TransitiveErrorGraph(), Cfg, A).events
  {
    TransitiveErrorPlan();
    TransitiveErrorEvent(B);
    TransitiveErrorEvent(C);
    TransitiveErrorEvent(D);
  }

  // ---------------------------------------------------------------------------------------
  // The same target in different attributes
  // ---------------------------------------------------------------------------------------

  function SameTargetGraph(): Graph {
    map[A := AspectRule(A, [B], [B]),
        B := AspectRule(B, [], [])]
  }

  lemma SameTargetPlan()
    ensures PlanApplications(SameTargetGraph(), Cfg, SimpleAspect, [B]) == {Application(SimpleAspect, B)}
  {
    var g := SameTargetGraph();
    TwoAttributeSuccessors(g, Cfg, SimpleAspect, B,
      Attribute("foo", LabelList([]), [SimpleAspect]), Attribute("bar", LabelList([]), [SimpleAspect]));
    ResolveAllTerminals(g, Cfg, [B]);
    assert Eligible(g, SimpleAspect) == {A, B};
    PlanOfLeaf(g, SimpleAspect, Cfg, [B], B);
    PlanApplicationsExactly(g, Cfg, SimpleAspect, [B], [B], {Application(SimpleAspect, B)});
  }

  lemma SameTargetApplications()
    ensures Applications(SameTargetGraph(), Cfg, A) == {Application(SimpleAspect, B)}
  {
    var g := SameTargetGraph();
    var foo := Attribute("foo", LabelList([B]), [SimpleAspect]);
    var bar := Attribute("bar", LabelList([B]), [SimpleAspect]);
    assert g[A].attributes == [foo, bar];
    TwoAttributesApplications(g, Cfg, foo, bar);
    SameTargetPlan();
    OneAspectApplications(g, Cfg, SimpleAspect, [B]);
  }

  /** Reaching //a:b through two attributes gives one application, one identity and one entry. */
  lemma SameTargetInDifferentAttributes()
    ensures Analyze(SameTargetGraph(), Cfg, A).data == {"aspect //a:b", "rule //a:a"}
    ensures Analyze(SameTargetGraph(), Cfg, A).identities == {CreateAspectKey(B, Some(Cfg), SimpleAspect.aspectClass)}
  {
    var g := SameTargetGraph();
    SameTargetApplications();
    DataOfOne(g, Cfg, A, Application(SimpleAspect, B));
    EntryStrings();
    assert g[A].data == RuleData(A);
  }

  /** One target in two attributes, each attaching a different aspect. */
  function DifferentAspectsGraph(): Graph {
    map[A := MultiAspectRule([B], [B]),
        B := Simple(B, [], [], "")]
  }

  lemma DifferentAspectsPlan(a: AspectDefinition)
    requires a == FooAspect || a == BarAspect
    ensures PlanApplications(DifferentAspectsGraph(), Cfg, a, [B]) == {Application(a, B)}
  {
    var g := DifferentAspectsGraph();
    SimpleSuccessors(g, Cfg, a, B, [], [], "");
    ResolveAllTerminals(g, Cfg, [B]);
    assert Eligible(g, a) == {A, B};
    PlanOfLeaf(g, a, Cfg, [B], B);
    PlanApplicationsExactly(g, Cfg, a, [B], [B], {Application(a, B)});
  }

  lemma DifferentAspectsApplications()
    ensures Applications(DifferentAspectsGraph(), Cfg, A) == {Application(FooAspect, B), Application(BarAspect, B)}
  {
    var g := DifferentAspectsGraph();
    var foo := Attribute("foo", LabelList([B]), [FooAspect]);
    var bar := Attribute("bar", LabelList([B]), [BarAspect]);
    assert g[A].attributes == [foo, bar];
    TwoAttributesApplications(g, Cfg, foo, bar);
    DifferentAspectsPlan(FooAspect);
    DifferentAspectsPlan(BarAspect);
    OneAspectApplications(g, Cfg, FooAspect, [B]);
    OneAspectApplications(g, Cfg, BarAspect, [B]);
  }

  /** Both aspects are applied to //a:b under two identities, and the rule's data is their two entries. */
  lemma SameTargetInDifferentAttributesWithDifferentAspects()
    ensures Analyze(DifferentAspectsGraph(), Cfg, A).data == {"foo", "bar"}
    ensures Analyze(DifferentAspectsGraph(), Cfg, A).identities ==
      {CreateAspectKey(B, Some(Cfg), FooAspect.aspectClass), CreateAspectKey(B, Some(Cfg), BarAspect.aspectClass)}
  {
    var g := DifferentAspectsGraph();
    DifferentAspectsApplications();
    DataOfTwo(g, Cfg, A, Application(FooAspect, B), Application(BarAspect, B));
  }

  // ---------------------------------------------------------------------------------------
  // An aspect with an all-attributes policy
  // ---------------------------------------------------------------------------------------

  /**
   * //a:x attaches the all-attributes aspect to //a:a, whose `foo` and `foo1` name //a:b and
   * `c`; the third target is given, so the implicit and late-bound variants can differ in it.
   */
  function AllAttributesGraph(c: Target): Graph {
    map[A := Simple(A, [B], [C], "some text"),
        B := Simple(B, [], [], "some text"),
        C := c,
        X := AllAttributesAspectRule(X, [A])]
  }

  /** Where the all-attributes aspect goes from //a:a and //a:b of any such graph. */
  lemma AllAttributesGraphSuccessors(config: BuildConfiguration, c: Target)
    requires c.Rule?
    ensures AspectSuccessors(AllAttributesGraph(c), config, AllAttributesAspect, A) == [B, C]
    ensures AspectSuccessors(AllAttributesGraph(c), config, AllAttributesAspect, B) == []
  {
    var g := AllAttributesGraph(c);
    SimpleSuccessors(g, config, AllAttributesAspect, A, [B], [C], "some text");
    SimpleSuccessors(g, config, AllAttributesAspect, B, [], [], "some text");
  }

  /** The all-attributes aspect's applications, once its plan from //a:a is known. */
  lemma AllAttributesGraphApplications(config: BuildConfiguration, c: Target, expected: set<Application>)
    requires PlanApplications(AllAttributesGraph(c), config, AllAttributesAspect, [A]) == expected
    ensures Applications(AllAttributesGraph(c), config, X) == expected
  {
    var g := AllAttributesGraph(c);
    OneAttributeApplications(g, config, Attribute("foo", LabelList([A]), [AllAttributesAspect]));
    OneAspectApplications(g, config, AllAttributesAspect, [A]);
  }

  /** //a:c is a `simple` rule with no dependencies. */
  function AllAttributesPlain(): Graph {
    AllAttributesGraph(Simple(C, [], [], "more text"))
  }

  lemma AllAttributesPlainEligible()
    ensures A in Eligible(AllAttributesPlain(), AllAttributesAspect) && B in Eligible(AllAttributesPlain(), AllAttributesAspect)
    ensures C in Eligible(AllAttributesPlain(), AllAttributesAspect)
  {
  }

  lemma AllAttributesPlainPlan()
    ensures PlanApplications(AllAttributesPlain(), Cfg, AllAttributesAspect, [A])
      == {Application(AllAttributesAspect, A), Application(AllAttributesAspect, B), Application(AllAttributesAspect, C)}
  {
    var g := AllAttributesPlain();
    ResolveAllTerminals(g, Cfg, [A]);
    AllAttributesGraphSuccessors(Cfg, Simple(C, [], [], "more text"));
    SimpleSuccessors(g, Cfg, AllAttributesAspect, C, [], [], "more text");
    AllAttributesPlainEligible();
    PlanOfFan(g, AllAttributesAspect, Cfg, [A], A, B, C, []);
    assert [A, B, C] + [] == [A, B, C];
    ThreeApplications(g, AllAttributesAspect, Cfg, [A], A, B, C);
  }

  /** The aspect reaches //a:a and, through both `foo` and `foo1`, //a:b and //a:c. */
  lemma AspectPropagatesToAllAttributes()
    ensures Analyze(AllAttributesPlain(), Cfg, X).data == {"aspect //a:a", "aspect //a:b", "aspect //a:c", "rule //a:x"}
  {
    var g := AllAttributesPlain();
    var a := AllAttributesAspect;
    AllAttributesPlainPlan();
    AllAttributesGraphApplications(Cfg, Simple(C, [], [], "more text"),
      {Application(a, A), Application(a, B), Application(a, C)});
    DataOfThree(g, Cfg, X, Application(a, A), Application(a, B), Application(a, C));
    EntryStrings();
    assert g[X].data == RuleData(X);
  }

  /** //a:c is an `implicit_dep` rule, whose implicit `$dep` names //extra:extra. */
  function AllAttributesImplicit(): Graph {
    AllAttributesGraph(ImplicitDepRule(C))[ExtraLabel := Simple(ExtraLabel, [], [], "")]
  }

  lemma AllAttributesImplicitSuccessors()
    ensures AspectSuccessors(AllAttributesImplicit(), Cfg, AllAttributesAspect, A) == [B, C]
    ensures AspectSuccessors(AllAttributesImplicit(), Cfg, AllAttributesAspect, B) == []
    ensures AspectSuccessors(AllAttributesImplicit(), Cfg, AllAttributesAspect, C) == [ExtraLabel]
    ensures AspectSuccessors(AllAttributesImplicit(), Cfg, AllAttributesAspect, ExtraLabel) == []
  {
    var g := AllAttributesImplicit();
    var a := AllAttributesAspect;
    SimpleSuccessors(g, Cfg, a, A, [B], [C], "some text");
    SimpleSuccessors(g, Cfg, a, B, [], [], "some text");
    OneAttributeSuccessors(g, Cfg, a, C, Attribute("$dep", LabelList([ExtraLabel]), []));
    SimpleSuccessors(g, Cfg, a, ExtraLabel, [], [], "");
  }

  lemma AllAttributesImplicitEligible()
    ensures A in Eligible(AllAttributesImplicit(), AllAttributesAspect) && B in Eligible(AllAttributesImplicit(), AllAttributesAspect)
    ensures C in Eligible(AllAttributesImplicit(), AllAttributesAspect) && ExtraLabel in Eligible(AllAttributesImplicit(), AllAttributesAspect)
  {
  }

  lemma AllAttributesImplicitPlan()
    ensures PlanApplications(AllAttributesImplicit(), Cfg, AllAttributesAspect, [A])
      == {Application(AllAttributesAspect, A), Application(AllAttributesAspect, B),
          Application(AllAttributesAspect, C), Application(AllAttributesAspect, ExtraLabel)}
  {
    var g := AllAttributesImplicit();
    ResolveAllTerminals(g, Cfg, [A]);
    AllAttributesImplicitSuccessors();
    AllAttributesImplicitEligible();
    FanTailPlan(g, AllAttributesAspect, Cfg, [A], A, B, C, ExtraLabel);
    FourApplications(g, AllAttributesAspect, Cfg, [A], A, B, C, ExtraLabel);
  }

  /** The aspect follows the rule's own implicit attribute to //extra:extra. */
  lemma AspectPropagatesToAllAttributesImplicit()
    ensures Analyze(AllAttributesImplicit(), Cfg, X).data ==
      {"aspect //a:a", "aspect //a:b", "aspect //a:c", "aspect //extra:extra", "rule //a:x"}
  {
    var g := AllAttributesImplicit();
    var a := AllAttributesAspect;
    AllAttributesImplicitPlan();
    OneAttributeApplications(g, Cfg, Attribute("foo", LabelList([A]), [a]));
    OneAspectApplications(g, Cfg, a, [A]);
    DataOfFour(g, Cfg, X, Application(a, A), Application(a, B), Application(a, C), Application(a, ExtraLabel));
    EntryStrings();
    assert g[X].data == RuleData(X);
  }

  /** The configuration with `--plugin=//extra:extra`. */
  const PluginCfg := BuildConfiguration("cfg", {}, map["plugin" := [ExtraLabel]])

  /** //a:c is a `late_bound_dep` rule, whose `:plugin` is read from the configuration. */
  function AllAttributesLateBound(): Graph {
    AllAttributesGraph(LateBoundDepRule(C))[ExtraLabel := Simple(ExtraLabel, [], [], "")]
  }

  lemma AllAttributesLateBoundSuccessors()
    ensures AspectSuccessors(AllAttributesLateBound(), PluginCfg, AllAttributesAspect, A) == [B, C]
    ensures AspectSuccessors(AllAttributesLateBound(), PluginCfg, AllAttributesAspect, B) == []
    ensures AspectSuccessors(AllAttributesLateBound(), PluginCfg, AllAttributesAspect, C) == [ExtraLabel]
    ensures AspectSuccessors(AllAttributesLateBound(), PluginCfg, AllAttributesAspect, ExtraLabel) == []
  {
    var g := AllAttributesLateBound();
    var a := AllAttributesAspect;
    SimpleSuccessors(g, PluginCfg, a, A, [B], [C], "some text");
    SimpleSuccessors(g, PluginCfg, a, B, [], [], "some text");
    OneAttributeSuccessors(g, PluginCfg, a, C, Attribute(":plugin", LateBound("plugin"), []));
    SimpleSuccessors(g, PluginCfg, a, ExtraLabel, [], [], "");
  }

  lemma AllAttributesLateBoundEligible()
    ensures A in Eligible(AllAttributesLateBound(), AllAttributesAspect) && B in Eligible(AllAttributesLateBound(), AllAttributesAspect)
    ensures C in Eligible(AllAttributesLateBound(), AllAttributesAspect) && ExtraLabel in Eligible(AllAttributesLateBound(), AllAttributesAspect)
  {
  }

  lemma AllAttributesLateBoundPlan()
    ensures PlanApplications(AllAttributesLateBound(), PluginCfg, AllAttributesAspect, [A])
      == {Application(AllAttributesAspect, A), Application(AllAttributesAspect, B),
          Application(AllAttributesAspect, C), Application(AllAttributesAspect, ExtraLabel)}
  {
    var g := AllAttributesLateBound();
    ResolveAllTerminals(g, PluginCfg, [A]);
    AllAttributesLateBoundSuccessors();
    AllAttributesLateBoundEligible();
    FanTailPlan(g, AllAttributesAspect, PluginCfg, [A], A, B, C, ExtraLabel);
    FourApplications(g, AllAttributesAspect, PluginCfg, [A], A, B, C, ExtraLabel);
  }

  /** The aspect follows the late-bound attribute to the configured //extra:extra. */
  lemma AspectPropagatesToAllAttributesLateBound()
    ensures Analyze(AllAttributesLateBound(), PluginCfg, X).data ==
      {"aspect //a:a", "aspect //a:b", "aspect //a:c", "aspect //extra:extra", "rule //a:x"}
  {
    var g := AllAttributesLateBound();
    var a := AllAttributesAspect;
    AllAttributesLateBoundPlan();
    OneAttributeApplications(g, PluginCfg, Attribute("foo", LabelList([A]), [a]));
    OneAspectApplications(g, PluginCfg, a, [A]);
    DataOfFour(g, PluginCfg, X, Application(a, A), Application(a, B), Application(a, C), Application(a, ExtraLabel));
    EntryStrings();
    assert g[X].data == RuleData(X);
  }

  // ---------------------------------------------------------------------------------------
  // An all-attributes aspect and its own implicit attribute
  // ---------------------------------------------------------------------------------------

  /** //a:x attaches the tool-carrying aspect to //a:a, which has no dependencies. */
  function NoOwnImplicitGraph(): Graph {
    map[ToolLabel := Simple(ToolLabel, [], [], ""),
        A := Simple(A, [], [], ""),
        X := AllAttributesWithToolAspectRule(X, [A])]
  }

  lemma NoOwnImplicitPlan()
    ensures forall t :: t in Plan(NoOwnImplicitGraph(), Cfg, AllAttributesWithToolAspect, [A]) <==> t in [A]
  {
    var g := NoOwnImplicitGraph();
    var a := AllAttributesWithToolAspect;
    ResolveAllTerminals(g, Cfg, [A]);
    SimpleSuccessors(g, Cfg, a, A, [], [], "");
    PlanOfLeaf(g, a, Cfg, [A], A);
  }

  /** The aspect does not reach its own tool: //a:x's data has only //a:a's entry. */
  lemma AspectWithAllAttributesDoesNotPropagateToOwnImplicitAttributes()
    ensures ToolLabel !in Plan(NoOwnImplicitGraph(), Cfg, AllAttributesWithToolAspect, [A])
    ensures Analyze(NoOwnImplicitGraph(), Cfg, X).data == {"aspect //a:a", "rule //a:x"}
  {
    var g := NoOwnImplicitGraph();
    var a := AllAttributesWithToolAspect;
    NoOwnImplicitPlan();
    PlanApplicationsExactly(g, Cfg, a, [A], [A], {Application(a, A)});
    OneAttributeApplications(g, Cfg, Attribute("foo", LabelList([A]), [a]));
    OneAspectApplications(g, Cfg, a, [A]);
    DataOfOne(g, Cfg, X, Application(a, A));
    EntryStrings();
    assert g[X].data == RuleData(X);
  }

  /** As above, but //a:c names the tool in its own `foo`. */
  function ToolIfPathGraph(): Graph {
    map[ToolLabel := Simple(ToolLabel, [], [], ""),
        A := Simple(A, [B], [C], "some text"),
        B := Simple(B, [], [], "some text"),
        C := Simple(C, [ToolLabel], [], "more text"),
        X := AllAttributesWithToolAspectRule(X, [A])]
  }

  lemma ToolIfPathSuccessorsAbove()
    ensures AspectSuccessors(ToolIfPathGraph(), Cfg, AllAttributesWithToolAspect, A) == [B, C]
    ensures AspectSuccessors(ToolIfPathGraph(), Cfg, AllAttributesWithToolAspect, B) == []
  {
    var g := ToolIfPathGraph();
    SimpleSuccessors(g, Cfg, AllAttributesWithToolAspect, A, [B], [C], "some text");
    SimpleSuccessors(g, Cfg, AllAttributesWithToolAspect, B, [], [], "some text");
  }

  lemma ToolIfPathSuccessorsBelow()
    ensures AspectSuccessors(ToolIfPathGraph(), Cfg, AllAttributesWithToolAspect, C) == [ToolLabel]
    ensures AspectSuccessors(ToolIfPathGraph(), Cfg, AllAttributesWithToolAspect, ToolLabel) == []
  {
    var g := ToolIfPathGraph();
    SimpleSuccessors(g, Cfg, AllAttributesWithToolAspect, C, [ToolLabel], [], "more text");
    SimpleSuccessors(g, Cfg, AllAttributesWithToolAspect, ToolLabel, [], [], "");
  }

  lemma ToolIfPathEligible()
    ensures A in Eligible(ToolIfPathGraph(), AllAttributesWithToolAspect) && B in Eligible(ToolIfPathGraph(), AllAttributesWithToolAspect)
    ensures C in Eligible(ToolIfPathGraph(), AllAttributesWithToolAspect) && ToolLabel in Eligible(ToolIfPathGraph(), AllAttributesWithToolAspect)
  {
  }

  lemma ToolIfPathPlan()
    ensures PlanApplications(ToolIfPathGraph(), Cfg, AllAttributesWithToolAspect, [A])
      == {Application(AllAttributesWithToolAspect, A), Application(AllAttributesWithToolAspect, B),
          Application(AllAttributesWithToolAspect, C), Application(AllAttributesWithToolAspect, ToolLabel)}
  {
    var g := ToolIfPathGraph();
    ResolveAllTerminals(g, Cfg, [A]);
    ToolIfPathSuccessorsAbove();
    ToolIfPathSuccessorsBelow();
    ToolIfPathEligible();
    FanTailPlan(g, AllAttributesWithToolAspect, Cfg, [A], A, B, C, ToolLabel);
    FourApplications(g, AllAttributesWithToolAspect, Cfg, [A], A, B, C, ToolLabel);
  }

  /** Along an ordinary path the aspect does reach the tool. */
  lemma AspectWithAllAttributesPropagatesToItsToolIfThereIsPath()
    ensures Analyze(ToolIfPathGraph(), Cfg, X).data ==
      {"aspect //a:a", "aspect //a:b", "aspect //a:c", "aspect //a:tool", "rule //a:x"}
  {
    var g := ToolIfPathGraph();
    var a := AllAttributesWithToolAspect;
    ToolIfPathPlan();
    OneAttributeApplications(g, Cfg, Attribute("foo", LabelList([A]), [a]));
    OneAspectApplications(g, Cfg, a, [A]);
    DataOfFour(g, Cfg, X, Application(a, A), Application(a, B), Application(a, C), Application(a, ToolLabel));
    EntryStrings();
    assert g[X].data == RuleData(X);
  }

  // ---------------------------------------------------------------------------------------
  // An aspect that advertises providers it does not produce
  // ---------------------------------------------------------------------------------------

  function TruthInAdvertisementGraph(): Graph {
    map[S := Simple(S, [], [], ""),
        X := FalseAdvertisementAspectRule(X, [S])]
  }

  lemma TruthInAdvertisementApplications()
    ensures Applications(TruthInAdvertisementGraph(), Cfg, X) == {Application(FalseAdvertisementAspect, S)}
  {
    var g := TruthInAdvertisementGraph();
    var a := FalseAdvertisementAspect;
    ResolveAllTerminals(g, Cfg, [S]);
    SimpleSuccessors(g, Cfg, a, S, [], [], "");
    PlanOfLeaf(g, a, Cfg, [S], S);
    PlanApplicationsExactly(g, Cfg, a, [S], [S], {Application(a, S)});
    OneAttributeApplications(g, Cfg, Attribute("deps", LabelList([S]), [a]));
    OneAspectApplications(g, Cfg, a, [S]);
  }

  /** Each advertised provider the aspect does not produce on //a:s is reported, and the request fails. */
  lemma AspectTruthInAdvertisement()
    ensures Analyze(TruthInAdvertisementGraph(), Cfg, X).Failed()
    ensures AdvertisedProviderMissing(FalseAdvertisementAspect.aspectClass, S, "RequiredProvider")
      in Analyze(TruthInAdvertisementGraph(), Cfg, X).events
    ensures AdvertisedProviderMissing(FalseAdvertisementAspect.aspectClass, S, "advertised_provider")
      in Analyze(TruthInAdvertisementGraph(), Cfg, X).events
  {
    var g := TruthInAdvertisementGraph();
    var app := Application(FalseAdvertisementAspect, S);
    TruthInAdvertisementApplications();
    TerminalResolvesToItself(g, Cfg, X, {});
    RequestAnalysesItsRule(g, Cfg, X);
    MissingProviderEvents(app, "RequiredProvider");
    MissingProviderEvents(app, "advertised_provider");
    ApplicationEventFailsRequest(g, Cfg, X, X, app, AdvertisedProviderMissing(app.aspect.aspectClass, S, "RequiredProvider"));
    ApplicationEventFailsRequest(g, Cfg, X, X, app, AdvertisedProviderMissing(app.aspect.aspectClass, S, "advertised_provider"));
  }

  /** The two reports read as the analysis prints them, given piece by piece. */
  lemma TruthInAdvertisementMessages()
    ensures Message(AdvertisedProviderMissing(FalseAdvertisementAspect.aspectClass, S, "RequiredProvider")) ==
      "Aspect '" + "FalseAdvertisementAspect" + "', applied to '" + "//a:s" + "', does not provide advertised provider '"
      + "RequiredProvider" + "'"
    ensures Message(AdvertisedProviderMissing(FalseAdvertisementAspect.aspectClass, S, "advertised_provider")) ==
      "Aspect '" + "FalseAdvertisementAspect" + "', applied to '" + "//a:s" + "', does not provide advertised provider '"
      + "advertised_provider" + "'"
  {
  }
}
