/**
 * The rule classes and aspects the aspect scenarios are built from: a rule class is a
 * function from a target's label and attribute values to a `Target`, and an aspect is an
 * `AspectDefinition`.
 */
module TestAspects {
  import opened Wrappers
  import opened AspectValues
  import opened Targets

  /** The configuration every scenario is analysed under, unless it sets an option. */
  const Cfg := BuildConfiguration("cfg", {}, map[])

  /** The data a rule contributes itself: "rule <label>". */
  function RuleData(l: Label): set<string> {
    {"rule " + l.ToString()}
  }

  // ---------------------------------------------------------------------------------------
  // Aspects
  // ---------------------------------------------------------------------------------------

  /** Propagates along `foo`, requires nothing, contributes "aspect <label>". */
  const SimpleAspect := AspectDefinition(
    AspectClass("SimpleAspect"), Explicit({"foo"}), {}, {}, {}, [], None, LabelTagged("aspect "))

  /** Propagates along `foo` to targets that advertise RequiredProvider. */
  const AspectRequiringProvider := AspectDefinition(
    AspectClass("AspectRequiringProvider"), Explicit({"foo"}), {{"RequiredProvider"}}, {}, {}, [], None,
    LabelTagged("aspect "))

  /** Propagates along `foo` to targets that advertise RequiredProvider or RequiredProvider2. */
  const AspectRequiringProviderSets := AspectDefinition(
    AspectClass("AspectRequiringProviderSets"), Explicit({"foo"}), {{"RequiredProvider"}, {"RequiredProvider2"}},
    {}, {}, [], None, LabelTagged("aspect "))

  /** Propagates along `bar`; its implementation reports "Aspect error". */
  const ErrorAspect := AspectDefinition(
    AspectClass("ErrorAspect"), Explicit({"bar"}), {}, {}, {}, [], Some("Aspect error"), LabelTagged("aspect "))

  /** Propagates along every attribute. */
  const AllAttributesAspect := AspectDefinition(
    AspectClass("AllAttributesAspect"), AllAttributes, {}, {}, {}, [], None, LabelTagged("aspect "))

  /** The tool the tool-carrying aspect depends on through its own implicit attribute. */
  const ToolLabel := Label("//a:tool")

  /** Propagates along every attribute and adds the implicit attribute `$tool`. */
  const AllAttributesWithToolAspect := AspectDefinition(
    AspectClass("AllAttributesWithToolAspect"), AllAttributes, {}, {}, {},
    [Attribute("$tool", LabelList([ToolLabel]), [])], None, LabelTagged("aspect "))

  /** Does not propagate; contributes "foo". */
  const FooAspect := AspectDefinition(
    AspectClass("FooAspect"), Explicit({}), {}, {}, {}, [], None, Fixed("foo"))

  /** Does not propagate; contributes "bar". */
  const BarAspect := AspectDefinition(
    AspectClass("BarAspect"), Explicit({}), {}, {}, {}, [], None, Fixed("bar"))

  /** Advertises two providers and produces neither. */
  const FalseAdvertisementAspect := AspectDefinition(
    AspectClass("FalseAdvertisementAspect"), Explicit({}), {}, {"RequiredProvider", "advertised_provider"}, {},
    [], None, LabelTagged("aspect "))

  // ---------------------------------------------------------------------------------------
  // Rule classes
  // ---------------------------------------------------------------------------------------

  /** `base`: no dependencies. */
  function Base(l: Label): Target {
    Rule("base", [], {}, RuleData(l))
  }

  /** `simple`: the label list `foo`, the label `foo1` and the string `txt`, no aspects. */
  function Simple(l: Label, foo: seq<Label>, foo1: seq<Label>, txt: string): Target {
    Rule("simple", [Attribute("foo", LabelList(foo), []), Attribute("foo1", LabelList(foo1), []),
                    Attribute("txt", NonLabel(txt), [])], {}, RuleData(l))
  }

  /** `aspect`: attaches SimpleAspect to `foo` and `bar`. */
  function AspectRule(l: Label, foo: seq<Label>, bar: seq<Label>): Target {
    Rule("aspect", [Attribute("foo", LabelList(foo), [SimpleAspect]), Attribute("bar", LabelList(bar), [SimpleAspect])],
      {}, RuleData(l))
  }

  /** `honest`: advertises RequiredProvider. */
  function Honest(l: Label, foo: seq<Label>): Target {
    Rule("honest", [Attribute("foo", LabelList(foo), [])], {"RequiredProvider"}, RuleData(l))
  }

  /** `honest2`: advertises RequiredProvider2. */
  function Honest2(l: Label, foo: seq<Label>): Target {
    Rule("honest2", [Attribute("foo", LabelList(foo), [])], {"RequiredProvider2"}, RuleData(l))
  }

  /** `liar`: advertises nothing. */
  function Liar(l: Label, foo: seq<Label>): Target {
    Rule("liar", [Attribute("foo", LabelList(foo), [])], {}, RuleData(l))
  }

  /** `aspect_requiring_provider`: attaches AspectRequiringProvider to `foo`. */
  function AspectRequiringProviderRule(l: Label, foo: seq<Label>): Target {
    Rule("aspect_requiring_provider", [Attribute("foo", LabelList(foo), [AspectRequiringProvider])], {}, RuleData(l))
  }

  /** `aspect_requiring_provider_sets`: attaches AspectRequiringProviderSets to `foo`. */
  function AspectRequiringProviderSetsRule(l: Label, foo: seq<Label>): Target {
    Rule("aspect_requiring_provider_sets", [Attribute("foo", LabelList(foo), [AspectRequiringProviderSets])], {},
      RuleData(l))
  }

  /** `error_aspect`: attaches ErrorAspect to `foo`; `bar` is a plain label list. */
  function ErrorAspectRule(l: Label, foo: seq<Label>, bar: seq<Label>): Target {
    Rule("error_aspect", [Attribute("foo", LabelList(foo), [ErrorAspect]), Attribute("bar", LabelList(bar), [])], {},
      RuleData(l))
  }

  /** `all_attributes_aspect`: attaches AllAttributesAspect to `foo`. */
  function AllAttributesAspectRule(l: Label, foo: seq<Label>): Target {
    Rule("all_attributes_aspect", [Attribute("foo", LabelList(foo), [AllAttributesAspect])], {}, RuleData(l))
  }

  /** `all_attributes_with_tool_aspect`: attaches AllAttributesWithToolAspect to `foo`. */
  function AllAttributesWithToolAspectRule(l: Label, foo: seq<Label>): Target {
    Rule("all_attributes_with_tool_aspect", [Attribute("foo", LabelList(foo), [AllAttributesWithToolAspect])], {},
      RuleData(l))
  }

  /** The target the implicit and late-bound dependencies name. */
  const ExtraLabel := Label("//extra:extra")

  /** `implicit_dep`: the implicit attribute `$dep`, defaulting to //extra:extra. */
  function ImplicitDepRule(l: Label): Target {
    Rule("implicit_dep", [Attribute("$dep", LabelList([ExtraLabel]), [])], {}, RuleData(l))
  }

  /** `late_bound_dep`: the late-bound attribute `:plugin`, read from the `plugin` option. */
  function LateBoundDepRule(l: Label): Target {
    Rule("late_bound_dep", [Attribute(":plugin", LateBound("plugin"), [])], {}, RuleData(l))
  }

  /** `multi_aspect`: attaches FooAspect to `foo` and BarAspect to `bar`; contributes nothing itself. */
  function MultiAspectRule(foo: seq<Label>, bar: seq<Label>): Target {
    Rule("multi_aspect", [Attribute("foo", LabelList(foo), [FooAspect]), Attribute("bar", LabelList(bar), [BarAspect])],
      {}, {})
  }

  /** `false_advertisement_aspect`: attaches FalseAdvertisementAspect to `deps`. */
  function FalseAdvertisementAspectRule(l: Label, deps: seq<Label>): Target {
    Rule("false_advertisement_aspect", [Attribute("deps", LabelList(deps), [FalseAdvertisementAspect])], {}, RuleData(l))
  }
}
