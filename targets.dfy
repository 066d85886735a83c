/**
 * The static target graph that aspects propagate over: rules with ordered, named attributes,
 * aliases with an `actual` edge, and the definitions of aspects.
 */
module Targets {
  import opened Wrappers
  import opened AspectValues

  /** Providers are named, e.g. "RequiredProvider". */
  type Provider = string

  /** An attribute's value as far as dependencies go. */
  datatype AttrValue =
    | LabelList(labels: seq<Label>)   // label and label-list attributes, implicit ones with their default
    | LateBound(option: string)       // a late-bound label, read from a configuration option
    | NonLabel(text: string)          // any attribute that names no targets, e.g. a string

  /** A named attribute and the aspects its rule class attaches to the dependencies it names. */
  datatype Attribute = Attribute(name: string, value: AttrValue, aspects: seq<AspectDefinition>)

  /** Which attributes an aspect propagates along. */
  datatype Policy = Explicit(names: set<string>) | AllAttributes

  /** The entry an aspect application contributes to the requesting rule's data. */
  datatype InfoFormat =
    | LabelTagged(prefix: string)   // prefix followed by the target's label, e.g. "aspect //a:b"
    | Fixed(text: string)           // the same text wherever it is applied

  /**
   * An aspect definition: its class, the attributes it propagates along, the provider
   * sets of which a target must advertise at least one in full, the providers it advertises
   * and those its implementation produces, the implicit attributes it adds to every target it
   * is applied to, the error its implementation reports (if any) and what it contributes.
   */
  datatype AspectDefinition = AspectDefinition(
    aspectClass: AspectClass,
    policy: Policy,
    requiredProviders: set<set<Provider>>,
    advertised: set<Provider>,
    produced: set<Provider>,
    implicitAttributes: seq<Attribute>,
    failure: Option<string>,
    info: InfoFormat)

  /** One branch of a `select`: a condition label and the target it selects. */
  datatype Branch = Branch(condition: string, target: Label)

  /** What an alias forwards to: one label, or a `select` over configuration conditions. */
  datatype Actual = Direct(target: Label) | Select(branches: seq<Branch>)

  /**
   * A target: a rule, with its attributes, the providers it advertises and the entries of
   * its own data, or an alias.
   */
  datatype Target =
    | Rule(ruleClass: string, attributes: seq<Attribute>, advertised: set<Provider>, data: set<string>)
    | Alias(actual: Actual)

  /** The loaded targets of a build. Labels outside the map (files, external repositories) are not rules. */
  type Graph = map<Label, Target>

  /** The labels an attribute names under a configuration; a late-bound option that is unset names none. */
  function AttrLabels(v: AttrValue, config: BuildConfiguration): seq<Label> {
    match v
    case LabelList(ls) => ls
    case LateBound(option) => if option in config.labelOptions then config.labelOptions[option] else []
    case NonLabel(_) => []
  }

  /**
   * Whether a policy follows an attribute. An all-attributes policy follows every attribute
   * except the ones in `excluded`, the aspect's own implicit attributes.
   */
  predicate Follows(policy: Policy, excluded: set<string>, name: string) {
    match policy
    case Explicit(names) => name in names
    case AllAttributes => name !in excluded
  }

  /** The names of the implicit attributes an aspect adds. */
  function ImplicitNames(a: AspectDefinition): set<string> {
    set i | 0 <= i < |a.implicitAttributes| :: a.implicitAttributes[i].name
  }

  /** The labels named by the followed attributes, in attribute order. */
  function RawDeps(attrs: seq<Attribute>, policy: Policy, excluded: set<string>, config: BuildConfiguration): (r: seq<Label>)
    ensures forall l :: l in r <==>
      exists i :: 0 <= i < |attrs| && Follows(policy, excluded, attrs[i].name) && l in AttrLabels(attrs[i].value, config)
  {
    if attrs == [] then []
    else
      var rest := RawDeps(attrs[1..], policy, excluded, config);
      assert forall l :: l in rest <==>
        exists i :: 1 <= i < |attrs| && Follows(policy, excluded, attrs[i].name) && l in AttrLabels(attrs[i].value, config)
      by {
        forall l | l in rest
          ensures exists i :: 1 <= i < |attrs| && Follows(policy, excluded, attrs[i].name) && l in AttrLabels(attrs[i].value, config)
        {
          var k :| 0 <= k < |attrs[1..]| && Follows(policy, excluded, attrs[1..][k].name) && l in AttrLabels(attrs[1..][k].value, config);
          assert attrs[k + 1] == attrs[1..][k];
        }
        forall l, i | 1 <= i < |attrs| && Follows(policy, excluded, attrs[i].name) && l in AttrLabels(attrs[i].value, config)
          ensures l in rest
        {
          assert attrs[1..][i - 1] == attrs[i];
        }
      }
      (if Follows(policy, excluded, attrs[0].name) then AttrLabels(attrs[0].value, config) else []) + rest
  }

  /** The dependencies of a list of attributes followed in turn are those of each part, in order. */
  lemma {:induction false} RawDepsAppend(
    xs: seq<Attribute>, ys: seq<Attribute>, policy: Policy, excluded: set<string>, config: BuildConfiguration)
    ensures RawDeps(xs + ys, policy, excluded, config) == RawDeps(xs, policy, excluded, config) + RawDeps(ys, policy, excluded, config)
  {
    if xs != [] {
      assert (xs + ys)[0] == xs[0] && (xs + ys)[1..] == xs[1..] + ys;
      RawDepsAppend(xs[1..], ys, policy, excluded, config);
    } else {
      assert xs + ys == ys;
    }
  }

  /** Attributes none of which the policy follows contribute no dependencies. */
  lemma NoneFollowedNoDeps(attrs: seq<Attribute>, policy: Policy, excluded: set<string>, config: BuildConfiguration)
    requires forall i :: 0 <= i < |attrs| ==> !Follows(policy, excluded, attrs[i].name)
    ensures RawDeps(attrs, policy, excluded, config) == []
  {
    var r := RawDeps(attrs, policy, excluded, config);
    assert forall l :: l !in r;
  }

  /** What an aspect application contributes. */
  function Info(a: AspectDefinition, target: Label): string {
    match a.info
    case LabelTagged(prefix) => prefix + target.ToString()
    case Fixed(text) => text
  }
}
