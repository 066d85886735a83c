/**
 * Alias and `select` resolution: a dependency label is followed through alias `actual`
 * edges, choosing the active `select` branch at each hop, to the terminal target, with a
 * visited set that turns an alias cycle into an error.
 */
module Resolver {
  import opened Wrappers
  import opened AspectValues
  import opened Targets
  import opened Reachability

  datatype ResolveError =
    | AliasCycle(at: Label)               // the chain came back to this alias
    | AmbiguousSelect(alias: Label)        // several non-default conditions are active
    | NoMatchingCondition(alias: Label)    // no condition is active and there is no default

  /** The condition that holds when no other does. */
  const DefaultCondition := "//conditions:default"

  /** The non-default branches whose condition is active, in order. */
  function Matching(bs: seq<Branch>, active: set<string>): (r: seq<Branch>)
    ensures forall b :: b in r <==> b in bs && b.condition != DefaultCondition && b.condition in active
  {
    if bs == [] then []
    else
      (if bs[0].condition != DefaultCondition && bs[0].condition in active then [bs[0]] else [])
      + Matching(bs[1..], active)
  }

  /** The target of the first default branch, if any. */
  function DefaultTarget(bs: seq<Branch>): (r: Option<Label>)
    ensures r.Some? ==> Branch(DefaultCondition, r.value) in bs
    ensures r.None? ==> forall b :: b in bs ==> b.condition != DefaultCondition
  {
    if bs == [] then None
    else if bs[0].condition == DefaultCondition then Some(bs[0].target)
    else DefaultTarget(bs[1..])
  }

  /**
   * The label an alias forwards to under a configuration: the one active branch, else the
   * default; several active branches, or none and no default, are errors.
   */
  function SelectActual(actual: Actual, config: BuildConfiguration, alias: Label): Result<Label, ResolveError> {
    match actual
    case Direct(t) => Success(t)
    case Select(bs) =>
      var m := Matching(bs, config.activeConditions);
      if |m| == 1 then Success(m[0].target)
      else if |m| > 1 then Failure(AmbiguousSelect(alias))
      else match DefaultTarget(bs)
        case Some(t) => Success(t)
        case None => Failure(NoMatchingCondition(alias))
  }

  /** A label where resolution stops: a rule, or a label with no loaded target. */
  predicate IsTerminal(g: Graph, l: Label) {
    l !in g || g[l].Rule?
  }

  /** Follow aliases from `l`; `visited` holds the aliases already passed. */
  function ResolveFrom(g: Graph, config: BuildConfiguration, l: Label, visited: set<Label>): (r: Result<Label, ResolveError>)
    ensures r.Success? ==> IsTerminal(g, r.value)
    decreases |g.Keys - visited|
  {
    if IsTerminal(g, l) then Success(l)
    else if l in visited then Failure(AliasCycle(l))
    else match SelectActual(g[l].actual, config, l)
      case Failure(e) => Failure(e)
      case Success(next) =>
        CardinalityDrops(g.Keys, visited, l);
        ResolveFrom(g, config, next, visited + {l})
  }

  /** The terminal target a raw dependency label stands for. */
  function Resolve(g: Graph, config: BuildConfiguration, l: Label): Result<Label, ResolveError> {
    ResolveFrom(g, config, l, {})
  }

  /** The successful resolutions of `raws`, in order; failures are reported separately. */
  function ResolveAll(g: Graph, config: BuildConfiguration, raws: seq<Label>): (r: seq<Label>)
    ensures forall t :: t in r <==> exists raw :: raw in raws && Resolve(g, config, raw) == Success(t)
  {
    if raws == [] then []
    else
      (match Resolve(g, config, raws[0]) case Success(t) => [t] case Failure(_) => [])
      + ResolveAll(g, config, raws[1..])
  }

  // ---------------------------------------------------------------------------------------
  // Properties of resolution
  // ---------------------------------------------------------------------------------------

  /** Resolving a list of rules and labels outside the graph leaves it as it is. */
  lemma {:induction false} ResolveAllTerminals(g: Graph, config: BuildConfiguration, ls: seq<Label>)
    requires forall i :: 0 <= i < |ls| ==> IsTerminal(g, ls[i])
    ensures ResolveAll(g, config, ls) == ls
  {
    if ls != [] {
      TerminalResolvesToItself(g, config, ls[0], {});
      ResolveAllTerminals(g, config, ls[1..]);
    }
  }

  /** Resolving a single dependency that resolves gives its target. */
  lemma ResolveAllOne(g: Graph, config: BuildConfiguration, raw: Label, t: Label)
    requires Resolve(g, config, raw) == Success(t)
    ensures ResolveAll(g, config, [raw]) == [t]
  {
    assert [raw][1..] == [];
  }

  /** A rule, or a label outside the graph, resolves to itself. */
  lemma TerminalResolvesToItself(g: Graph, config: BuildConfiguration, l: Label, visited: set<Label>)
    requires IsTerminal(g, l)
    ensures ResolveFrom(g, config, l, visited) == Success(l)
  {
  }

  /** Resolution is idempotent, and never ends on an alias. */
  lemma ResolveIdempotent(g: Graph, config: BuildConfiguration, l: Label)
    requires Resolve(g, config, l).Success?
    ensures var t := Resolve(g, config, l).value;
      && (t in g ==> g[t].Rule?)
      && Resolve(g, config, t) == Success(t)
  {
  }

  /** Forgetting visited aliases cannot turn a successful resolution into another result. */
  lemma {:induction false} ResolveVisitedMonotone(g: Graph, config: BuildConfiguration, l: Label, visited: set<Label>, fewer: set<Label>)
    requires fewer <= visited
    requires ResolveFrom(g, config, l, visited).Success?
    ensures ResolveFrom(g, config, l, fewer) == ResolveFrom(g, config, l, visited)
    decreases |g.Keys - visited|
  {
    if !IsTerminal(g, l) {
      assert l !in visited;
      var next := SelectActual(g[l].actual, config, l).value;
      CardinalityDrops(g.Keys, visited, l);
      ResolveVisitedMonotone(g, config, next, visited + {l}, fewer + {l});
    }
  }

  /** An alias hop is transparent: the alias resolves to what its selected `actual` resolves to. */
  lemma AliasHopTransparent(g: Graph, config: BuildConfiguration, l: Label, next: Label)
    requires l in g && g[l].Alias?
    requires SelectActual(g[l].actual, config, l) == Success(next)
    requires Resolve(g, config, l).Success?
    ensures Resolve(g, config, next) == Resolve(g, config, l)
  {
    assert !IsTerminal(g, l);
    var empty: set<Label> := {};
    assert empty + {l} == {l};
    assert Resolve(g, config, l) == ResolveFrom(g, config, next, empty + {l});
    ResolveVisitedMonotone(g, config, next, {l}, {});
  }

  /** `chain` is a run of distinct aliases, each forwarding to the next, ending at a terminal label. */
  predicate AliasChain(g: Graph, config: BuildConfiguration, chain: seq<Label>) {
    && |chain| > 0
    && Distinct(chain)
    && IsTerminal(g, chain[|chain| - 1])
    && forall i :: 0 <= i < |chain| - 1 ==>
         chain[i] in g && g[chain[i]].Alias? && SelectActual(g[chain[i]].actual, config, chain[i]) == Success(chain[i + 1])
  }

  /** An alias chain of any length resolves, from its head, to its terminal label. */
  lemma AliasChainResolves(g: Graph, config: BuildConfiguration, chain: seq<Label>)
    requires AliasChain(g, config, chain)
    ensures Resolve(g, config, chain[0]) == Success(chain[|chain| - 1])
  {
    AliasChainSuffix(g, config, chain, 0);
    assert Elems(chain[..0]) == {};
  }

  /** Every hop of an alias chain resolves to the chain's terminal label. */
  lemma AliasChainEveryHop(g: Graph, config: BuildConfiguration, chain: seq<Label>, i: nat)
    requires AliasChain(g, config, chain) && i < |chain|
    ensures Resolve(g, config, chain[i]) == Success(chain[|chain| - 1])
  {
    assert AliasChain(g, config, chain[i..]);
    AliasChainResolves(g, config, chain[i..]);
  }

  /** Resolving from hop `i`, with the earlier hops already visited, reaches the chain's terminal label. */
  lemma {:induction false} AliasChainSuffix(g: Graph, config: BuildConfiguration, chain: seq<Label>, i: nat)
    requires AliasChain(g, config, chain) && i < |chain|
    ensures ResolveFrom(g, config, chain[i], Elems(chain[..i])) == Success(chain[|chain| - 1])
    decreases |chain| - i
  {
    if i < |chain| - 1 {
      assert chain[i] !in Elems(chain[..i]);
      assert Elems(chain[..i + 1]) == Elems(chain[..i]) + {chain[i]} by {
        assert chain[..i + 1] == chain[..i] + [chain[i]];
      }
      AliasChainSuffix(g, config, chain, i + 1);
    }
  }

  /** An alias that forwards to itself is a cycle. */
  lemma SelfAliasIsCycle(g: Graph, config: BuildConfiguration, l: Label)
    requires l in g && g[l] == Alias(Direct(l))
    ensures Resolve(g, config, l) == Failure(AliasCycle(l))
  {
    assert ResolveFrom(g, config, l, {}) == ResolveFrom(g, config, l, {l});
  }

  /** A `select` with only a default branch always selects it. */
  lemma DefaultOnlySelect(t: Label, config: BuildConfiguration, alias: Label)
    ensures SelectActual(Select([Branch(DefaultCondition, t)]), config, alias) == Success(t)
  {
    assert Matching([Branch(DefaultCondition, t)], config.activeConditions) == [];
  }

  /**
   * A `select` picks exactly the one active non-default branch when there is one, and
   * the default branch when none is active.
   */
  lemma {:induction false} SelectPicksActiveBranch(bs: seq<Branch>, config: BuildConfiguration, alias: Label)
    ensures var r := SelectActual(Select(bs), config, alias);
      && (r.Success? ==>
            (exists b :: b in bs && b.target == r.value && b.condition != DefaultCondition && b.condition in config.activeConditions)
            || (Branch(DefaultCondition, r.value) in bs
                && forall b :: b in bs && b.condition != DefaultCondition ==> b.condition !in config.activeConditions))
      && (forall b :: b in bs && b.condition != DefaultCondition && b.condition in config.activeConditions
            ==> r == Success(b.target) || r == Failure(AmbiguousSelect(alias)))
  {
    var m := Matching(bs, config.activeConditions);
    if |m| == 1 {
      assert m[0] in m;
      forall b | b in bs && b.condition != DefaultCondition && b.condition in config.activeConditions
        ensures b == m[0]
      {
        assert b in m;
      }
    } else if |m| == 0 {
      assert m == [];
    }
  }

  /** Branch `b` is selectable: a non-default branch whose condition is active. */
  predicate Activates(b: Branch, active: set<string>) {
    b.condition != DefaultCondition && b.condition in active
  }

  /** With no branch activated, nothing matches. */
  lemma {:induction false} MatchingNone(bs: seq<Branch>, active: set<string>)
    requires forall i :: 0 <= i < |bs| ==> !Activates(bs[i], active)
    ensures Matching(bs, active) == []
  {
    if bs != [] {
      forall i | 0 <= i < |bs[1..]| ensures !Activates(bs[1..][i], active) {
        assert bs[1..][i] == bs[i + 1];
      }
      MatchingNone(bs[1..], active);
    }
  }

  /** Without a default branch there is no default target. */
  lemma {:induction false} DefaultNone(bs: seq<Branch>)
    requires forall i :: 0 <= i < |bs| ==> bs[i].condition != DefaultCondition
    ensures DefaultTarget(bs) == None
  {
    if bs != [] {
      forall i | 0 <= i < |bs[1..]| ensures bs[1..][i].condition != DefaultCondition {
        assert bs[1..][i] == bs[i + 1];
      }
      DefaultNone(bs[1..]);
    }
  }

  /** With exactly one branch position activated, the matching branches are that branch alone. */
  lemma {:induction false} MatchingOnly(bs: seq<Branch>, active: set<string>, k: nat)
    requires k < |bs| && Activates(bs[k], active)
    requires forall i :: 0 <= i < |bs| && i != k ==> !Activates(bs[i], active)
    ensures Matching(bs, active) == [bs[k]]
  {
    if k == 0 {
      forall i | 0 <= i < |bs[1..]| ensures !Activates(bs[1..][i], active) {
        assert bs[1..][i] == bs[i + 1];
      }
      MatchingNone(bs[1..], active);
    } else {
      MatchingOnly(bs[1..], active, k - 1);
      assert bs[1..][k - 1] == bs[k];
      forall i | 0 <= i < |bs[1..]| && i != k - 1 ensures !Activates(bs[1..][i], active) {
        assert bs[1..][i] == bs[i + 1];
      }
    }
  }

  /** Two activated branch positions give at least two matching branches. */
  lemma {:induction false} MatchingAtLeastTwo(bs: seq<Branch>, active: set<string>, k1: nat, k2: nat)
    requires k1 < k2 < |bs| && Activates(bs[k1], active) && Activates(bs[k2], active)
    ensures |Matching(bs, active)| >= 2
  {
    assert bs[1..][k2 - 1] == bs[k2];
    if k1 == 0 {
      assert bs[k2] in Matching(bs[1..], active);
    } else {
      assert bs[1..][k1 - 1] == bs[k1];
      MatchingAtLeastTwo(bs[1..], active, k1 - 1, k2 - 1);
    }
  }

  /** A `select` with exactly one active non-default branch forwards to that branch's target. */
  lemma SelectSingleActive(bs: seq<Branch>, config: BuildConfiguration, alias: Label, k: nat)
    requires k < |bs| && Activates(bs[k], config.activeConditions)
    requires forall i :: 0 <= i < |bs| && i != k ==> !Activates(bs[i], config.activeConditions)
    ensures SelectActual(Select(bs), config, alias) == Success(bs[k].target)
  {
    MatchingOnly(bs, config.activeConditions, k);
  }

  /** A `select` with two active non-default branches is ambiguous, even when they agree. */
  lemma SelectAmbiguous(bs: seq<Branch>, config: BuildConfiguration, alias: Label, k1: nat, k2: nat)
    requires k1 < k2 < |bs| && Activates(bs[k1], config.activeConditions) && Activates(bs[k2], config.activeConditions)
    ensures SelectActual(Select(bs), config, alias) == Failure(AmbiguousSelect(alias))
  {
    MatchingAtLeastTwo(bs, config.activeConditions, k1, k2);
  }

  /** A `select` with no active non-default branch and no default branch has no matching condition. */
  lemma SelectNoMatch(bs: seq<Branch>, config: BuildConfiguration, alias: Label)
    requires forall i :: 0 <= i < |bs| ==> !Activates(bs[i], config.activeConditions)
    requires forall i :: 0 <= i < |bs| ==> bs[i].condition != DefaultCondition
    ensures SelectActual(Select(bs), config, alias) == Failure(NoMatchingCondition(alias))
  {
    MatchingNone(bs, config.activeConditions);
    DefaultNone(bs);
  }
}
