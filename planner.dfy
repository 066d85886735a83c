/**
 * The attachment planner and merge: which targets an aspect is applied to, which
 * identities a request evaluates, what the requesting rule's data becomes, and which error
 * events are reported.
 */
module Planner {
  import opened Wrappers
  import opened AspectValues
  import opened Targets
  import opened Reachability
  import opened Resolver

  /** The provider gate: no required sets, or at least one set advertised in full. */
  predicate Gate(a: AspectDefinition, providers: set<Provider>) {
    a.requiredProviders == {} || exists s :: s in a.requiredProviders && s <= providers
  }

  /** Advertising more providers never closes the gate. */
  lemma GateMonotone(a: AspectDefinition, providers: set<Provider>, more: set<Provider>)
    requires Gate(a, providers) && providers <= more
    ensures Gate(a, more)
  {
    if a.requiredProviders != {} {
      var s :| s in a.requiredProviders && s <= providers;
      assert s <= more;
    }
  }

  /** The gate is closed when some provider of every required set is missing. */
  lemma GateNeedsWholeSet(a: AspectDefinition, providers: set<Provider>)
    requires a.requiredProviders != {}
    requires forall s :: s in a.requiredProviders ==> exists p :: p in s && p !in providers
    ensures !Gate(a, providers)
  {
  }

  /** The rules of a graph. */
  function Rules(g: Graph): set<Label> {
    set l | l in g && g[l].Rule?
  }

  /** The rules an aspect may be applied to. */
  function Eligible(g: Graph, a: AspectDefinition): set<Label> {
    set l | l in g && g[l].Rule? && Gate(a, g[l].advertised)
  }

  /** The attributes an aspect sees on a rule: the rule's own, then the aspect's implicit ones. */
  function ContextAttributes(t: Target, a: AspectDefinition): seq<Attribute>
    requires t.Rule?
  {
    t.attributes + a.implicitAttributes
  }

  /** Where an aspect applied to `l` propagates next: the resolved labels of the attributes its policy follows. */
  function AspectSuccessors(g: Graph, config: BuildConfiguration, a: AspectDefinition, l: Label): seq<Label> {
    if l in g && g[l].Rule? then
      ResolveAll(g, config, RawDeps(ContextAttributes(g[l], a), a.policy, ImplicitNames(a), config))
    else []
  }

  /**
   * The targets an aspect is applied to when a rule attaches it to the dependencies `raws`:
   * the resolved dependencies that pass the gate, then, transitively, everything the aspect
   * propagates to from those, each once.
   */
  function Plan(g: Graph, config: BuildConfiguration, a: AspectDefinition, raws: seq<Label>): (r: seq<Label>)
    ensures Distinct(r)
    ensures forall t :: t in r ==> t in g && g[t].Rule? && Gate(a, g[t].advertised)
  {
    var r := Reach(Eligible(g, a), l => AspectSuccessors(g, config, a, l), ResolveAll(g, config, raws));
    assert forall t :: t in r ==> t in Elems(r);
    r
  }

  /** The dependencies a rule's own analysis needs: every label it names, resolved. */
  function RuleDeps(g: Graph, config: BuildConfiguration, l: Label): seq<Label> {
    if l in g && g[l].Rule? then ResolveAll(g, config, RawDeps(g[l].attributes, AllAttributes, {}, config)) else []
  }

  /** The rules a request for `top` analyses: `top` and its transitive rule dependencies. */
  function AnalysedRules(g: Graph, config: BuildConfiguration, top: Label): (r: seq<Label>)
    ensures Distinct(r) && Elems(r) <= Rules(g)
  {
    Reach(Rules(g), l => RuleDeps(g, config, l), [top])
  }

  /** One aspect applied to one target. */
  datatype Application = Application(aspect: AspectDefinition, target: Label)

  /** One aspect's plan as applications. */
  function PlanApplications(g: Graph, config: BuildConfiguration, a: AspectDefinition, raws: seq<Label>): (s: set<Application>)
    ensures forall app :: app in s <==> app.aspect == a && app.target in Plan(g, config, a, raws)
  {
    set t | t in Plan(g, config, a, raws) :: Application(a, t)
  }

  /** The applications of each of `aspects` attached to the dependencies `raws`. */
  function AspectsApplications(g: Graph, config: BuildConfiguration, aspects: seq<AspectDefinition>, raws: seq<Label>): set<Application> {
    if aspects == [] then {}
    else PlanApplications(g, config, aspects[0], raws) + AspectsApplications(g, config, aspects[1..], raws)
  }

  /** The applications requested through each of `attrs`. */
  function AttributesApplications(g: Graph, config: BuildConfiguration, attrs: seq<Attribute>): set<Application> {
    if attrs == [] then {}
    else
      AspectsApplications(g, config, attrs[0].aspects, AttrLabels(attrs[0].value, config))
      + AttributesApplications(g, config, attrs[1..])
  }

  /** The applications a rule requests: for each attribute and each aspect it attaches, that aspect's plan. */
  function Applications(g: Graph, config: BuildConfiguration, r: Label): set<Application> {
    if r in g && g[r].Rule? then AttributesApplications(g, config, g[r].attributes) else {}
  }

  /** The identity an application is evaluated under. */
  function Identity(app: Application, config: BuildConfiguration): AspectKey {
    CreateAspectKey(app.target, Some(config), app.aspect.aspectClass)
  }

  /** A reported error. */
  datatype Event =
    | AspectFailure(aspect: AspectClass, target: Label, message: string)
    | AdvertisedProviderMissing(aspect: AspectClass, target: Label, provider: Provider)
    | UnresolvedDependency(owner: Label, error: ResolveError)
    | NoSuchRule(target: Label)

  /** The text of an aspect's own error, and of an advertised provider that is not produced. */
  function Message(e: Event): string {
    match e
    case AspectFailure(_, _, m) => m
    case AdvertisedProviderMissing(a, t, p) =>
      "Aspect '" + a.name + "', applied to '" + t.ToString() + "', does not provide advertised provider '" + p + "'"
    case UnresolvedDependency(_, _) => "unresolved dependency"
    case NoSuchRule(_) => "no such rule"
  }

  /** The events of evaluating one application: the implementation's error and one per advertised provider it does not produce. */
  function AspectEvents(app: Application): set<Event> {
    var a := app.aspect;
    (match a.failure case Some(m) => {AspectFailure(a.aspectClass, app.target, m)} case None => {})
    + set p | p in a.advertised && p !in a.produced :: AdvertisedProviderMissing(a.aspectClass, app.target, p)
  }

  /** The events of analysing one rule: its unresolvable dependencies and its applications' events. */
  function RuleEvents(g: Graph, config: BuildConfiguration, r: Label): set<Event> {
    if r in g && g[r].Rule? then
      var raws := RawDeps(g[r].attributes, AllAttributes, {}, config);
      (set raw | raw in raws && Resolve(g, config, raw).Failure? :: UnresolvedDependency(r, Resolve(g, config, raw).error))
      + (set app, e | app in Applications(g, config, r) && e in AspectEvents(app) :: e)
    else {}
  }

  /** The outcome of a request: the rule's merged data, the identities it evaluates and the events reported. */
  datatype Analysis = Analysis(data: set<string>, identities: set<AspectKey>, events: set<Event>) {
    predicate Failed() { events != {} }
  }

  /**
   * Analyse a request for a label: resolve it, then merge the rule's own data with what its
   * applications contribute, and collect the events of every rule the request analyses.
   */
  function Analyze(g: Graph, config: BuildConfiguration, request: Label): Analysis {
    match Resolve(g, config, request)
    case Failure(e) => Analysis({}, {}, {UnresolvedDependency(request, e)})
    case Success(top) =>
      if top !in g then Analysis({}, {}, {NoSuchRule(top)})
      else
        var apps := Applications(g, config, top);
        Analysis(
          g[top].data + (set app | app in apps :: Info(app.aspect, app.target)),
          set app | app in apps :: Identity(app, config),
          set r, e | r in AnalysedRules(g, config, top) && e in RuleEvents(g, config, r) :: e)
  }

  // ---------------------------------------------------------------------------------------
  // Characterising a plan by a derivation
  // ---------------------------------------------------------------------------------------

  /**
   * The targets of a plan are exactly those of `order` when `order` consists of eligible
   * targets, each a resolved root (parent -1) or a successor of an earlier one (its parent),
   * and holds every eligible root and every eligible successor of its own members.
   */
  lemma PlanExactly(
    g: Graph, config: BuildConfiguration, a: AspectDefinition, raws: seq<Label>, order: seq<Label>, parents: seq<int>)
    requires Elems(order) <= Eligible(g, a) && |parents| == |order|
    requires forall i :: 0 <= i < |order| ==>
      if parents[i] < 0 then order[i] in ResolveAll(g, config, raws)
      else parents[i] < i && order[i] in AspectSuccessors(g, config, a, order[parents[i]])
    requires forall y :: y in ResolveAll(g, config, raws) && y in Eligible(g, a) ==> y in order
    requires forall v, w :: v in order && w in AspectSuccessors(g, config, a, v) && w in Eligible(g, a) ==> w in order
    ensures forall t :: t in Plan(g, config, a, raws) <==> t in order
  {
    var succ := l => AspectSuccessors(g, config, a, l);
    assert forall v :: succ(v) == AspectSuccessors(g, config, a, v);
    forall i | 0 <= i < |order| && parents[i] >= 0
      ensures exists j :: 0 <= j < i && order[i] in succ(order[j])
    {
      assert order[i] in succ(order[parents[i]]);
    }
    ReachExactly(Eligible(g, a), succ, ResolveAll(g, config, raws), order);
    var p := Plan(g, config, a, raws);
    assert forall t :: t in p <==> t in Elems(p);
  }

  /** The same characterisation for the rules a request analyses. */
  lemma AnalysedRulesExactly(g: Graph, config: BuildConfiguration, top: Label, order: seq<Label>, parents: seq<int>)
    requires Elems(order) <= Rules(g) && |parents| == |order|
    requires forall i :: 0 <= i < |order| ==>
      if parents[i] < 0 then order[i] == top
      else parents[i] < i && order[i] in RuleDeps(g, config, order[parents[i]])
    requires top in Rules(g) ==> top in order
    requires forall v, w :: v in order && w in RuleDeps(g, config, v) && w in Rules(g) ==> w in order
    ensures forall t :: t in AnalysedRules(g, config, top) <==> t in order
  {
    var succ := l => RuleDeps(g, config, l);
    assert forall v :: succ(v) == RuleDeps(g, config, v);
    forall i | 0 <= i < |order| && parents[i] >= 0
      ensures exists j :: 0 <= j < i && order[i] in succ(order[j])
    {
      assert order[i] in succ(order[parents[i]]);
    }
    ReachExactly(Rules(g), succ, [top], order);
    var p := AnalysedRules(g, config, top);
    assert forall t :: t in p <==> t in Elems(p);
  }

  /** Every eligible resolved dependency is planned. */
  lemma RootPlanned(g: Graph, config: BuildConfiguration, a: AspectDefinition, raws: seq<Label>, t: Label)
    requires t in ResolveAll(g, config, raws) && t in Eligible(g, a)
    ensures t in Plan(g, config, a, raws)
  {
    ReachContainsRoots(Eligible(g, a), l => AspectSuccessors(g, config, a, l), ResolveAll(g, config, raws), t);
  }

  /**
   * An upper bound on a plan: a set that holds every eligible resolved root and every
   * eligible successor of its own members holds the whole plan.
   */
  lemma PlanWithin(g: Graph, config: BuildConfiguration, a: AspectDefinition, raws: seq<Label>, s: set<Label>)
    requires forall y :: y in ResolveAll(g, config, raws) && y in Eligible(g, a) ==> y in s
    requires forall v, w :: v in s && w in AspectSuccessors(g, config, a, v) && w in Eligible(g, a) ==> w in s
    ensures forall t :: t in Plan(g, config, a, raws) ==> t in s
  {
    var succ := l => AspectSuccessors(g, config, a, l);
    assert forall v :: succ(v) == AspectSuccessors(g, config, a, v);
    var r := Plan(g, config, a, raws);
    ReachLeast(Eligible(g, a), succ, ResolveAll(g, config, raws), s);
    assert forall t :: t in r ==> t in Elems(r);
  }

  /**
   * Given the characterisation of a plan, its applications are exactly `expected` when
   * `expected` applies the aspect to the targets of `order` and nothing else.
   */
  lemma PlanApplicationsExactly(
    g: Graph, config: BuildConfiguration, a: AspectDefinition, raws: seq<Label>, order: seq<Label>, expected: set<Application>)
    requires forall t :: t in Plan(g, config, a, raws) <==> t in order
    requires forall app :: app in expected <==> app.aspect == a && app.target in order
    ensures PlanApplications(g, config, a, raws) == expected
  {
  }

  /** A request for a rule unfolds to the rule's own data plus one entry and one identity per application. */
  lemma AnalyzeRule(g: Graph, config: BuildConfiguration, top: Label)
    requires top in g && g[top].Rule?
    ensures Analyze(g, config, top).data ==
      g[top].data + (set app | app in Applications(g, config, top) :: Info(app.aspect, app.target))
    ensures Analyze(g, config, top).identities == set app | app in Applications(g, config, top) :: Identity(app, config)
  {
    TerminalResolvesToItself(g, config, top, {});
  }

  /** The merged data of a rule that requests no applications is its own. */
  lemma DataOfNone(g: Graph, config: BuildConfiguration, top: Label)
    requires top in g && g[top].Rule? && Applications(g, config, top) == {}
    ensures Analyze(g, config, top).data == g[top].data
  {
    AnalyzeRule(g, config, top);
  }

  /** The merged data of a rule that requests one application. */
  lemma DataOfOne(g: Graph, config: BuildConfiguration, top: Label, x: Application)
    requires top in g && g[top].Rule? && Applications(g, config, top) == {x}
    ensures Analyze(g, config, top).data == g[top].data + {Info(x.aspect, x.target)}
    ensures Analyze(g, config, top).identities == {Identity(x, config)}
  {
    AnalyzeRule(g, config, top);
  }

  /** The merged data of a rule that requests two applications. */
  lemma DataOfTwo(g: Graph, config: BuildConfiguration, top: Label, x: Application, y: Application)
    requires top in g && g[top].Rule? && Applications(g, config, top) == {x, y}
    ensures Analyze(g, config, top).data == g[top].data + {Info(x.aspect, x.target), Info(y.aspect, y.target)}
    ensures Analyze(g, config, top).identities == {Identity(x, config), Identity(y, config)}
  {
    AnalyzeRule(g, config, top);
  }

  /** The merged data of a rule that requests three applications. */
  lemma DataOfThree(g: Graph, config: BuildConfiguration, top: Label, x: Application, y: Application, z: Application)
    requires top in g && g[top].Rule? && Applications(g, config, top) == {x, y, z}
    ensures Analyze(g, config, top).data ==
      g[top].data + {Info(x.aspect, x.target), Info(y.aspect, y.target), Info(z.aspect, z.target)}
  {
    AnalyzeRule(g, config, top);
  }

  /** The merged data of a rule that requests four applications. */
  lemma DataOfFour(g: Graph, config: BuildConfiguration, top: Label, w: Application, x: Application, y: Application, z: Application)
    requires top in g && g[top].Rule? && Applications(g, config, top) == {w, x, y, z}
    ensures Analyze(g, config, top).data ==
      g[top].data + {Info(w.aspect, w.target), Info(x.aspect, x.target), Info(y.aspect, y.target), Info(z.aspect, z.target)}
  {
    AnalyzeRule(g, config, top);
  }

  /** An attribute that attaches one aspect requests that aspect's plan. */
  lemma OneAspectApplications(g: Graph, config: BuildConfiguration, a: AspectDefinition, raws: seq<Label>)
    ensures AspectsApplications(g, config, [a], raws) == PlanApplications(g, config, a, raws)
  {
    assert [a][1..] == [];
  }

  /** A rule with one attribute requests what that attribute's aspects plan from its dependencies. */
  lemma OneAttributeApplications(g: Graph, config: BuildConfiguration, x: Attribute)
    ensures AttributesApplications(g, config, [x]) == AspectsApplications(g, config, x.aspects, AttrLabels(x.value, config))
  {
    assert [x][1..] == [];
  }

  /** A rule with two attributes requests the union of what each attribute requests. */
  lemma TwoAttributesApplications(g: Graph, config: BuildConfiguration, x: Attribute, y: Attribute)
    ensures AttributesApplications(g, config, [x, y]) ==
      AspectsApplications(g, config, x.aspects, AttrLabels(x.value, config))
      + AspectsApplications(g, config, y.aspects, AttrLabels(y.value, config))
  {
    assert [x, y][1..] == [y];
    OneAttributeApplications(g, config, y);
  }

  /** An attribute that names no dependencies requests no applications. */
  lemma {:induction false} NoDependenciesNoApplications(g: Graph, config: BuildConfiguration, aspects: seq<AspectDefinition>)
    ensures AspectsApplications(g, config, aspects, []) == {}
  {
    if aspects != [] {
      NoDependenciesNoApplications(g, config, aspects[1..]);
      assert ResolveAll(g, config, []) == [];
      assert Plan(g, config, aspects[0], []) == [];
    }
  }

  lemma {:induction false} AspectsApplicationsMembers(
    g: Graph, config: BuildConfiguration, aspects: seq<AspectDefinition>, raws: seq<Label>, app: Application)
    ensures app in AspectsApplications(g, config, aspects, raws) <==>
      exists j :: 0 <= j < |aspects| && app.aspect == aspects[j] && app.target in Plan(g, config, aspects[j], raws)
  {
    if aspects != [] {
      AspectsApplicationsMembers(g, config, aspects[1..], raws, app);
      if exists j :: 1 <= j < |aspects| && app.aspect == aspects[j] && app.target in Plan(g, config, aspects[j], raws) {
        var j :| 1 <= j < |aspects| && app.aspect == aspects[j] && app.target in Plan(g, config, aspects[j], raws);
        assert aspects[1..][j - 1] == aspects[j];
      }
    }
  }

  lemma {:induction false} AttributesApplicationsMembers(g: Graph, config: BuildConfiguration, attrs: seq<Attribute>, app: Application)
    ensures app in AttributesApplications(g, config, attrs) <==>
      exists i, j :: 0 <= i < |attrs| && 0 <= j < |attrs[i].aspects| && app.aspect == attrs[i].aspects[j]
        && app.target in Plan(g, config, attrs[i].aspects[j], AttrLabels(attrs[i].value, config))
  {
    if attrs != [] {
      AspectsApplicationsMembers(g, config, attrs[0].aspects, AttrLabels(attrs[0].value, config), app);
      AttributesApplicationsMembers(g, config, attrs[1..], app);
      if exists i, j :: (1 <= i < |attrs| && 0 <= j < |attrs[i].aspects| && app.aspect == attrs[i].aspects[j]
                         && app.target in Plan(g, config, attrs[i].aspects[j], AttrLabels(attrs[i].value, config)))
      {
        var i, j :| 1 <= i < |attrs| && 0 <= j < |attrs[i].aspects| && app.aspect == attrs[i].aspects[j]
          && app.target in Plan(g, config, attrs[i].aspects[j], AttrLabels(attrs[i].value, config));
        assert attrs[1..][i - 1] == attrs[i];
      }
    }
  }

  /**
   * A rule requests exactly the applications of the aspects its attributes attach, each to
   * the targets of that aspect's plan from the attribute's dependencies.
   */
  lemma ApplicationsMembers(g: Graph, config: BuildConfiguration, r: Label, app: Application)
    requires r in g && g[r].Rule?
    ensures var attrs := g[r].attributes;
      app in Applications(g, config, r) <==>
      exists i, j :: 0 <= i < |attrs| && 0 <= j < |attrs[i].aspects| && app.aspect == attrs[i].aspects[j]
        && app.target in Plan(g, config, attrs[i].aspects[j], AttrLabels(attrs[i].value, config))
  {
    AttributesApplicationsMembers(g, config, g[r].attributes, app);
  }

  // ---------------------------------------------------------------------------------------
  // Properties of planning, merging and reporting
  // ---------------------------------------------------------------------------------------

  /** An alias never receives an aspect: every planned target is a rule that passes the gate. */
  lemma AliasNeverApplied(g: Graph, config: BuildConfiguration, a: AspectDefinition, raws: seq<Label>, l: Label)
    requires l in g && g[l].Alias?
    ensures l !in Plan(g, config, a, raws)
  {
  }

  /**
   * A dependency named directly, or through aliases, receives the aspect exactly when its
   * terminal target is a rule that satisfies one of the required provider sets.
   */
  lemma DirectDependencyAttachesIffGate(
    g: Graph, config: BuildConfiguration, a: AspectDefinition, raws: seq<Label>, raw: Label, t: Label)
    requires raw in raws && Resolve(g, config, raw) == Success(t)
    ensures t in Plan(g, config, a, raws) <==> t in g && g[t].Rule? && Gate(a, g[t].advertised)
  {
    if t in g && g[t].Rule? && Gate(a, g[t].advertised) {
      ReachContainsRoots(Eligible(g, a), l => AspectSuccessors(g, config, a, l), ResolveAll(g, config, raws), t);
    }
  }

  /** Requesting through an alias chain plans exactly what requesting the terminal target does. */
  lemma AliasTransparentPlan(g: Graph, config: BuildConfiguration, a: AspectDefinition, head: Label, t: Label)
    requires Resolve(g, config, head) == Success(t)
    ensures Plan(g, config, a, [head]) == Plan(g, config, a, [t])
  {
    ResolveIdempotent(g, config, head);
    assert ResolveAll(g, config, [head]) == [t] == ResolveAll(g, config, [t]) by {
      assert [head][1..] == [] && [t][1..] == [];
    }
  }

  /** Analysing a request through an alias gives exactly the analysis of its terminal target. */
  lemma AliasTransparentAnalysis(g: Graph, config: BuildConfiguration, head: Label, t: Label)
    requires Resolve(g, config, head) == Success(t)
    ensures Analyze(g, config, head) == Analyze(g, config, t)
  {
    ResolveIdempotent(g, config, head);
  }

  /** Propagation is transitive: an eligible target the aspect propagates to from a planned target is planned. */
  lemma PropagationTransitive(g: Graph, config: BuildConfiguration, a: AspectDefinition, raws: seq<Label>, v: Label, w: Label)
    requires v in Plan(g, config, a, raws)
    requires w in AspectSuccessors(g, config, a, v)
    requires w in g && g[w].Rule? && Gate(a, g[w].advertised)
    ensures w in Plan(g, config, a, raws)
  {
    ReachStep(Eligible(g, a), l => AspectSuccessors(g, config, a, l), ResolveAll(g, config, raws), v, w);
  }

  /**
   * Propagation stops at a target that fails the gate: it is not planned, and every planned
   * target beyond the roots is reached from some other planned target.
   */
  lemma PropagationStopsAtGate(g: Graph, config: BuildConfiguration, a: AspectDefinition, raws: seq<Label>, b: Label, t: Label)
    requires b in g && g[b].Rule? && !Gate(a, g[b].advertised)
    requires t in Plan(g, config, a, raws) && t !in ResolveAll(g, config, raws)
    ensures b !in Plan(g, config, a, raws)
    ensures exists v :: v in Plan(g, config, a, raws) && t in AspectSuccessors(g, config, a, v)
  {
    var succ := l => AspectSuccessors(g, config, a, l);
    ReachHasPredecessor(Eligible(g, a), succ, ResolveAll(g, config, raws), t);
    var v :| v in Plan(g, config, a, raws) && t in succ(v);
  }

  /**
   * The cycle guard: an all-attributes aspect propagates from a rule along exactly the rule's
   * own attributes other than the aspect's implicit ones, never along its own implicit attributes.
   */
  lemma AllAttributesSuccessors(g: Graph, config: BuildConfiguration, a: AspectDefinition, l: Label, t: Label)
    requires a.policy == AllAttributes && l in g && g[l].Rule?
    ensures t in AspectSuccessors(g, config, a, l) <==>
      exists i, raw :: 0 <= i < |g[l].attributes| && g[l].attributes[i].name !in ImplicitNames(a)
        && raw in AttrLabels(g[l].attributes[i].value, config) && Resolve(g, config, raw) == Success(t)
  {
    var own := g[l].attributes;
    var attrs := ContextAttributes(g[l], a);
    var excluded := ImplicitNames(a);
    forall i | |own| <= i < |attrs| ensures attrs[i].name in excluded {
      assert attrs[i] == a.implicitAttributes[i - |own|];
    }
    forall i | 0 <= i < |own| ensures attrs[i] == own[i] { }
  }

  /**
   * An all-attributes aspect reaches every label-typed attribute of a planned rule, implicit
   * and late-bound ones included, other than its own implicit attributes.
   */
  lemma AllAttributesReachEveryLabel(
    g: Graph, config: BuildConfiguration, a: AspectDefinition, raws: seq<Label>, v: Label, i: nat, raw: Label, t: Label)
    requires a.policy == AllAttributes
    requires v in Plan(g, config, a, raws)
    requires i < |g[v].attributes| && g[v].attributes[i].name !in ImplicitNames(a)
    requires raw in AttrLabels(g[v].attributes[i].value, config) && Resolve(g, config, raw) == Success(t)
    requires t in g && g[t].Rule? && Gate(a, g[t].advertised)
    ensures t in Plan(g, config, a, raws)
  {
    AllAttributesSuccessors(g, config, a, v, t);
    PropagationTransitive(g, config, a, raws, v, t);
  }

  /**
   * An all-attributes aspect reaches a target only as a root or along a regular attribute of
   * a planned rule: never only through its own implicit attributes.
   */
  lemma AllAttributesNeverThroughOwnImplicit(g: Graph, config: BuildConfiguration, a: AspectDefinition, raws: seq<Label>, t: Label)
    requires a.policy == AllAttributes
    requires t in Plan(g, config, a, raws)
    ensures t in ResolveAll(g, config, raws) ||
      exists v, i, raw :: v in Plan(g, config, a, raws) && 0 <= i < |g[v].attributes| && g[v].attributes[i].name !in ImplicitNames(a)
        && raw in AttrLabels(g[v].attributes[i].value, config) && Resolve(g, config, raw) == Success(t)
  {
    var succ := l => AspectSuccessors(g, config, a, l);
    ReachHasPredecessor(Eligible(g, a), succ, ResolveAll(g, config, raws), t);
    if t !in ResolveAll(g, config, raws) {
      var v :| v in Plan(g, config, a, raws) && t in succ(v);
      AllAttributesSuccessors(g, config, a, v, t);
    }
  }

  /** Two applications share an identity exactly when they apply the same aspect class to the same target. */
  lemma IdentitySharedIff(app1: Application, app2: Application, config: BuildConfiguration)
    ensures Identity(app1, config) == Identity(app2, config) <==>
      app1.target == app2.target && app1.aspect.aspectClass == app2.aspect.aspectClass
  {
  }

  /**
   * The merge: a string is in a rule's merged data exactly when it is the rule's own, or what
   * an aspect that one of its attributes attaches contributes on a target of that aspect's
   * plan from the attribute's dependencies.
   */
  lemma MergedData(g: Graph, config: BuildConfiguration, top: Label, s: string)
    requires top in g && g[top].Rule?
    ensures var attrs := g[top].attributes;
      s in Analyze(g, config, top).data <==>
        (s in g[top].data ||
         exists i, j, t :: 0 <= i < |attrs| && 0 <= j < |attrs[i].aspects|
           && t in Plan(g, config, attrs[i].aspects[j], AttrLabels(attrs[i].value, config))
           && s == Info(attrs[i].aspects[j], t))
  {
    AnalyzeRule(g, config, top);
    var attrs := g[top].attributes;
    if s in Analyze(g, config, top).data && s !in g[top].data {
      var app :| app in Applications(g, config, top) && s == Info(app.aspect, app.target);
      ApplicationsMembers(g, config, top, app);
    }
    if exists i, j, t :: 0 <= i < |attrs| && 0 <= j < |attrs[i].aspects|
         && t in Plan(g, config, attrs[i].aspects[j], AttrLabels(attrs[i].value, config))
         && s == Info(attrs[i].aspects[j], t)
    {
      var i, j, t :| 0 <= i < |attrs| && 0 <= j < |attrs[i].aspects|
        && t in Plan(g, config, attrs[i].aspects[j], AttrLabels(attrs[i].value, config))
        && s == Info(attrs[i].aspects[j], t);
      ApplicationsMembers(g, config, top, Application(attrs[i].aspects[j], t));
    }
  }

  /**
   * A request for a rule evaluates exactly one identity per aspect class that one of its
   * attributes attaches and target of that aspect's plan from the attribute's dependencies.
   */
  lemma MergedIdentities(g: Graph, config: BuildConfiguration, top: Label, k: AspectKey)
    requires top in g && g[top].Rule?
    ensures var attrs := g[top].attributes;
      k in Analyze(g, config, top).identities <==>
        exists i, j, t :: 0 <= i < |attrs| && 0 <= j < |attrs[i].aspects|
          && t in Plan(g, config, attrs[i].aspects[j], AttrLabels(attrs[i].value, config))
          && k == CreateAspectKey(t, Some(config), attrs[i].aspects[j].aspectClass)
  {
    AnalyzeRule(g, config, top);
    var attrs := g[top].attributes;
    if k in Analyze(g, config, top).identities {
      var app :| app in Applications(g, config, top) && k == Identity(app, config);
      ApplicationsMembers(g, config, top, app);
    }
    if exists i, j, t :: 0 <= i < |attrs| && 0 <= j < |attrs[i].aspects|
         && t in Plan(g, config, attrs[i].aspects[j], AttrLabels(attrs[i].value, config))
         && k == CreateAspectKey(t, Some(config), attrs[i].aspects[j].aspectClass)
    {
      var i, j, t :| 0 <= i < |attrs| && 0 <= j < |attrs[i].aspects|
        && t in Plan(g, config, attrs[i].aspects[j], AttrLabels(attrs[i].value, config))
        && k == CreateAspectKey(t, Some(config), attrs[i].aspects[j].aspectClass);
      ApplicationsMembers(g, config, top, Application(attrs[i].aspects[j], t));
    }
  }

  /** An application whose evaluation reports something: its aspect errs, or advertises a provider it does not produce. */
  predicate Reports(app: Application) {
    app.aspect.failure.Some? || exists p :: p in app.aspect.advertised && p !in app.aspect.produced
  }

  /** A rule whose analysis reports something: it has an unresolvable dependency, or requests an application that reports. */
  predicate RuleReports(g: Graph, config: BuildConfiguration, r: Label)
    requires r in g && g[r].Rule?
  {
    (exists raw :: raw in RawDeps(g[r].attributes, AllAttributes, {}, config) && Resolve(g, config, raw).Failure?)
    || exists app :: app in Applications(g, config, r) && Reports(app)
  }

  /** An application's evaluation has events exactly when it reports. */
  lemma AspectEventsIff(app: Application)
    ensures AspectEvents(app) != {} <==> Reports(app)
  {
    if app.aspect.failure.None? && AspectEvents(app) != {} {
      var e :| e in AspectEvents(app);
      var p :| p in app.aspect.advertised && p !in app.aspect.produced
        && e == AdvertisedProviderMissing(app.aspect.aspectClass, app.target, p);
    }
    if app.aspect.failure.None? && Reports(app) {
      var p :| p in app.aspect.advertised && p !in app.aspect.produced;
      assert AdvertisedProviderMissing(app.aspect.aspectClass, app.target, p) in AspectEvents(app);
    }
  }

  /** A rule's analysis has events exactly when it reports. */
  lemma RuleEventsIff(g: Graph, config: BuildConfiguration, r: Label)
    requires r in g && g[r].Rule?
    ensures RuleEvents(g, config, r) != {} <==> RuleReports(g, config, r)
  {
    var raws := RawDeps(g[r].attributes, AllAttributes, {}, config);
    var unresolved := set raw | raw in raws && Resolve(g, config, raw).Failure? :: UnresolvedDependency(r, Resolve(g, config, raw).error);
    var reported := set app, e | app in Applications(g, config, r) && e in AspectEvents(app) :: e;
    assert RuleEvents(g, config, r) == unresolved + reported;
    if reported != {} {
      var e :| e in reported;
      var app :| app in Applications(g, config, r) && e in AspectEvents(app);
      AspectEventsIff(app);
    }
    if exists app :: app in Applications(g, config, r) && Reports(app) {
      var app :| app in Applications(g, config, r) && Reports(app);
      AspectEventsIff(app);
      var e :| e in AspectEvents(app);
      assert e in reported;
    }
    if exists raw :: raw in raws && Resolve(g, config, raw).Failure? {
      var raw :| raw in raws && Resolve(g, config, raw).Failure?;
      assert UnresolvedDependency(r, Resolve(g, config, raw).error) in unresolved;
    }
  }

  /**
   * A request for a rule fails exactly when some rule it analyses has an unresolvable
   * dependency or requests an application whose aspect errs or advertises a provider it does
   * not produce.
   */
  lemma AnalyzeFailsIff(g: Graph, config: BuildConfiguration, top: Label)
    requires top in g && g[top].Rule?
    ensures Analyze(g, config, top).Failed() <==>
      exists r :: r in AnalysedRules(g, config, top) && r in g && g[r].Rule? && RuleReports(g, config, r)
  {
    TerminalResolvesToItself(g, config, top, {});
    var rules := AnalysedRules(g, config, top);
    var ev := Analyze(g, config, top).events;
    assert ev == set r, e | r in rules && e in RuleEvents(g, config, r) :: e;
    if ev != {} {
      var e :| e in ev;
      var r :| r in rules && e in RuleEvents(g, config, r);
      assert r in Elems(rules);
      RuleEventsIff(g, config, r);
    }
    if exists r :: r in rules && r in g && g[r].Rule? && RuleReports(g, config, r) {
      var r :| r in rules && r in g && g[r].Rule? && RuleReports(g, config, r);
      RuleEventsIff(g, config, r);
      var e :| e in RuleEvents(g, config, r);
      assert e in ev;
    }
  }

  /** Evaluating an application reports one event per advertised provider it does not produce, and no other such event. */
  lemma MissingProviderEvents(app: Application, p: Provider)
    ensures AdvertisedProviderMissing(app.aspect.aspectClass, app.target, p) in AspectEvents(app)
      <==> p in app.aspect.advertised && p !in app.aspect.produced
  {
  }

  /** Distinct missing providers give distinct messages. */
  lemma {:induction false} MissingProviderMessagesDistinct(a: AspectClass, t: Label, p: Provider, q: Provider)
    requires Message(AdvertisedProviderMissing(a, t, p)) == Message(AdvertisedProviderMissing(a, t, q))
    ensures p == q
  {
    var pre := "Aspect '" + a.name + "', applied to '" + t.ToString() + "', does not provide advertised provider '";
    assert Message(AdvertisedProviderMissing(a, t, p)) == pre + (p + "'");
    assert Message(AdvertisedProviderMissing(a, t, q)) == pre + (q + "'");
    assert p + "'" == (pre + (p + "'"))[|pre|..];
    assert p == (p + "'")[..|p|];
    assert q == (q + "'")[..|q|];
  }

  /**
   * A failing evaluation anywhere in the request fails it: an event of an application that
   * any analysed rule requests is an event of the request.
   */
  lemma ApplicationEventFailsRequest(
    g: Graph, config: BuildConfiguration, request: Label, r: Label, app: Application, e: Event)
    requires Resolve(g, config, request).Success? && Resolve(g, config, request).value in g
    requires r in AnalysedRules(g, config, Resolve(g, config, request).value)
    requires app in Applications(g, config, r) && e in AspectEvents(app)
    ensures e in Analyze(g, config, request).events && Analyze(g, config, request).Failed()
  {
    var top := Resolve(g, config, request).value;
    assert r in Elems(AnalysedRules(g, config, top));
    assert e in RuleEvents(g, config, r);
  }

  /** A request analyses the rule it names. */
  lemma RequestAnalysesItsRule(g: Graph, config: BuildConfiguration, top: Label)
    requires top in g && g[top].Rule?
    ensures top in AnalysedRules(g, config, top)
  {
    ReachContainsRoots(Rules(g), l => RuleDeps(g, config, l), [top], top);
  }

  /** A request analyses, transitively, every rule dependency of a rule it analyses. */
  lemma AnalysisTransitive(g: Graph, config: BuildConfiguration, top: Label, v: Label, w: Label)
    requires v in AnalysedRules(g, config, top) && w in RuleDeps(g, config, v) && w in g && g[w].Rule?
    ensures w in AnalysedRules(g, config, top)
  {
    ReachStep(Rules(g), l => RuleDeps(g, config, l), [top], v, w);
  }
}
