# Aspect identities, propagation and merging

This project models two parts of Bazel's aspect machinery.

**Aspect identity keys.** `AspectValue.java` defines the keys that name "this aspect applied
to this label under this configuration". There are two kinds:

- a *native* key carries an aspect class with its parameters;
- a *Skylark* key carries an extension file and a function name.

The file also gives native keys structural equality and a hash. It gives both kinds a
description, a debug string, an evaluator type tag and factory functions. It defines the
immutable `AspectValue` record that an evaluation produces. In the model, keys and values
are datatypes and the operations are functions (`aspect_value.dfy`).

**Aspect propagation and merging.** `AspectTest.java` pins down the observable behaviour of
the analysis that attaches aspects to dependencies. The model is a pure planner over a finite
target graph:

- `targets.dfy`: a target is either a rule or an alias. A rule has named attributes, each
  attaching aspects and holding labels, a late-bound option or a non-label value. A rule also
  has advertised providers and its own data. An alias has an `actual` that is either a direct
  label or a `select`.
- `resolver.dfy`: resolution follows alias hops with a visited set. At each `select` it picks
  the active branch or the default. A cycle, an ambiguous `select` or a `select` with no
  match is an error.
- `planner.dfy`: an aspect attached to an attribute is applied to each resolved dependency
  that passes the *provider gate*. The gate holds when the aspect requires nothing, or when
  the dependency advertises every provider of at least one required set. From each such
  target the aspect propagates along the attributes its policy follows, and it is applied to
  each target at most once. The policy is either a set of attribute names or
  "all attributes except the aspect's own implicit ones".
- `reachability.dfy`: the worklist walk that propagation and analysis use. It is
  characterised as the least closed set that contains the roots.
- Analysing a request merges the rule's own data with one entry per application. It
  collects one identity per application and reports the events of every rule it analyses:
  an aspect's own error, one event per advertised provider the aspect does not produce, and
  unresolvable dependencies.

Each test scenario is a lemma over a concrete graph (`aspect_scenarios.dfy`). It uses the
rule classes and aspects in `test_aspects.dfy`. `TestAspects.java` is not part of this
model, so those definitions are reconstructed from what the tests assert about them. The
WORKSPACE `bind` of the bind test is modelled as one more alias hop.

## Model

Paths are relative to the repository root. `AspectValue.java` is
`src/main/java/com/google/devtools/build/lib/skyframe/AspectValue.java`, and `AspectTest.java`
is `src/test/java/com/google/devtools/build/lib/analysis/AspectTest.java`.

| member | source | states |
|---|---|---|
| AspectValues.AspectKey.ToString | src/main/java/com/google/devtools/build/lib/skyframe/AspectValue.java:123-128 | a native key's debug string starts with "<label>#" (the aspect name, the checksum or "null", and the parameters follow) |
| AspectValues.AspectKey.Equals | src/main/java/com/google/devtools/build/lib/skyframe/AspectValue.java:107-121 | a native key equals an object exactly when that object is the same native key: a key, native, with equal label, configuration and aspect with parameters |
| AspectValues.AspectKey.HashCode | src/main/java/com/google/devtools/build/lib/skyframe/AspectValue.java:102-105 | a native key's hash is 31^3 + 31^2·hash(label) + 31·hash(configuration) + hash(aspect) modulo 2^32, with 0 for an absent configuration, as Objects.hashCode of the three fields gives |
| AspectValues.ArraysHashCodeOfThree | src/main/java/com/google/devtools/build/lib/skyframe/AspectValue.java:102-105 | the 31-based array hash of three values, folded with 32-bit wrap-around, agrees with its closed form modulo 2^32 |
| AspectValues.AspectKey.GetDescription | src/main/java/com/google/devtools/build/lib/skyframe/AspectValue.java:92-95 | a native key's description is exactly "<aspect class> of <label>", and a Skylark key's (lines 161-166) is exactly "<extension file>%<function> of <label>" |
| AspectValues.AspectKey.GetType | src/main/java/com/google/devtools/build/lib/skyframe/AspectValue.java:97-100 | a key's evaluator function is NATIVE_ASPECT exactly for native keys and SKYLARK_ASPECT (lines 168-171) exactly for Skylark keys |
| AspectValues.Wrap32 | src/main/java/com/google/devtools/build/lib/skyframe/AspectValue.java:102-105 | truncation to Java's 32-bit int agrees with the integer modulo 2^32 and leaves values already in range unchanged |
| AspectValues.NewNativeAspectKey | src/main/java/com/google/devtools/build/lib/skyframe/AspectValue.java:72-80 | the native-key constructor succeeds exactly when parameters are present; a successful key returns the given label, configuration, aspect class and parameters; null parameters give the NullParameters error |
| AspectValues.NativeKey | src/main/java/com/google/devtools/build/lib/skyframe/AspectValue.java:212-220 | `key(label, configuration, aspect, parameters)` succeeds exactly when parameters are present, is tagged NATIVE_ASPECT and wraps the key the constructor builds |
| AspectValues.KeyOf | src/main/java/com/google/devtools/build/lib/skyframe/AspectValue.java:222-224 | `key(aspectKey)` wraps that key, tagged NATIVE_ASPECT for a native key and SKYLARK_ASPECT for a Skylark key |
| AspectValues.CreateAspectKey | src/main/java/com/google/devtools/build/lib/skyframe/AspectValue.java:226-229 | `createAspectKey` is what the native constructor builds with EMPTY parameters |
| AspectValues.CreateSkylarkAspectKey | src/main/java/com/google/devtools/build/lib/skyframe/AspectValue.java:231-237 | `createSkylarkAspectKey` gives a Skylark key whose getters return the given label, configuration, file and function name, with EMPTY parameters |
| AspectValues.EqualsIsStructural | src/main/java/com/google/devtools/build/lib/skyframe/AspectValue.java:107-121 | a native key equals another key exactly when the two are the same native key: same label, configuration and aspect with parameters |
| AspectValues.EqualsIsEquivalence | src/main/java/com/google/devtools/build/lib/skyframe/AspectValue.java:107-121 | native key equality is reflexive, symmetric and transitive |
| AspectValues.EqualsOnlyNativeKeys | src/main/java/com/google/devtools/build/lib/skyframe/AspectValue.java:113-115 | a native key never equals a Skylark key or an object that is not a key |
| AspectValues.HashAgreesWithEquals | src/main/java/com/google/devtools/build/lib/skyframe/AspectValue.java:102-121 | equal native keys have equal hash codes, whatever the field hash functions are |
| AspectValues.NullParametersRejected | src/main/java/com/google/devtools/build/lib/skyframe/AspectValue.java:78 | constructing a native key, or its evaluator key, with null parameters fails |
| AspectValues.NativeDescriptionDeterminesLabel | src/main/java/com/google/devtools/build/lib/skyframe/AspectValue.java:92-95 | for one aspect class, a native key's description "<class> of <label>" determines the label |
| AspectValues.SkylarkDescriptionDeterminesLabel | src/main/java/com/google/devtools/build/lib/skyframe/AspectValue.java:161-166 | for one file and function, a Skylark key's description "<file>%<function> of <label>" determines the label |
| AspectValues.DescriptionEndsWithLabel | src/main/java/com/google/devtools/build/lib/skyframe/AspectValue.java:92-95 | every description, native or Skylark, ends with " of <label>" |
| AspectValues.CreateAspectKeyHasEmptyParameters | src/main/java/com/google/devtools/build/lib/skyframe/AspectValue.java:226-229 | a key from createAspectKey is native, has EMPTY parameters and the given class, is tagged NATIVE_ASPECT and equals the native key built from (label, configuration, class, EMPTY) |
| AspectValues.AspectValueKeepsFields | src/main/java/com/google/devtools/build/lib/skyframe/AspectValue.java:175-210 | an aspect value's getters return exactly what it was built from |
| Targets.RawDeps | src/test/java/com/google/devtools/build/lib/analysis/AspectTest.java:540-553 | a label is a dependency along the followed attributes exactly when some followed attribute names it; non-label attributes such as `txt` name none |
| Targets.RawDepsAppend | src/test/java/com/google/devtools/build/lib/analysis/AspectTest.java:737-751 | the dependencies of a rule's attributes followed by an aspect's implicit ones are those of each part, in order |
| Targets.NoneFollowedNoDeps | src/test/java/com/google/devtools/build/lib/analysis/AspectTest.java:737-751 | attributes the policy follows none of contribute no dependencies |
| Resolver.Matching | src/test/java/com/google/devtools/build/lib/analysis/AspectTest.java:71-81 | the matching branches of a `select` are exactly its non-default branches whose condition is active |
| Resolver.DefaultTarget | src/test/java/com/google/devtools/build/lib/analysis/AspectTest.java:71-81 | a default target is returned only if a default branch names it, and none is returned only if there is no default branch |
| Resolver.ResolveFrom | src/test/java/com/google/devtools/build/lib/analysis/AspectTest.java:84-96 | a successful resolution ends on a rule or a label with no target, never on an alias |
| Resolver.ResolveAll | src/test/java/com/google/devtools/build/lib/analysis/AspectTest.java:84-96 | the resolved dependencies are exactly the targets some raw dependency resolves to |
| Resolver.ResolveAllTerminals | src/test/java/com/google/devtools/build/lib/analysis/AspectTest.java:112-121 | resolving dependencies that are all rules gives them back unchanged |
| Resolver.ResolveAllOne | src/test/java/com/google/devtools/build/lib/analysis/AspectTest.java:169-181 | a single dependency that resolves stands for its target |
| Resolver.TerminalResolvesToItself | src/test/java/com/google/devtools/build/lib/analysis/AspectTest.java:112-121 | a rule, or a label with no target, resolves to itself |
| Resolver.ResolveIdempotent | src/test/java/com/google/devtools/build/lib/analysis/AspectTest.java:84-96 | resolution is idempotent and never ends on an alias |
| Resolver.ResolveVisitedMonotone | src/test/java/com/google/devtools/build/lib/analysis/AspectTest.java:84-96 | a successful resolution gives the same result with fewer visited aliases |
| Resolver.AliasHopTransparent | src/test/java/com/google/devtools/build/lib/analysis/AspectTest.java:84-96 | an alias resolves to whatever its selected actual resolves to |
| Resolver.AliasChainResolves | src/test/java/com/google/devtools/build/lib/analysis/AspectTest.java:84-109 | the head of an alias chain of any length, including `select` hops, resolves to the chain's terminal target |
| Resolver.AliasChainEveryHop | src/test/java/com/google/devtools/build/lib/analysis/AspectTest.java:84-109 | every hop of an alias chain resolves to the chain's terminal target |
| Resolver.AliasChainSuffix | src/test/java/com/google/devtools/build/lib/analysis/AspectTest.java:84-96 | resolving from hop i of an alias chain, with the earlier hops already visited, reaches the chain's terminal target |
| Resolver.SelfAliasIsCycle | src/test/java/com/google/devtools/build/lib/analysis/AspectTest.java:84-96 | an alias whose actual is itself gives the AliasCycle error, so the walk terminates with an error |
| Resolver.DefaultOnlySelect | src/test/java/com/google/devtools/build/lib/analysis/AspectTest.java:71-81 | a `select` whose only branch is the default forwards to that branch under any configuration |
| Resolver.SelectPicksActiveBranch | src/test/java/com/google/devtools/build/lib/analysis/AspectTest.java:71-81 | a `select` forwards only to an active non-default branch, or to a default branch when no non-default branch is active; an active branch is either the one taken or the `select` is ambiguous |
| Resolver.SelectSingleActive | src/test/java/com/google/devtools/build/lib/analysis/AspectTest.java:71-81 | a `select` whose branches hold exactly one active non-default position forwards to that branch's target |
| Resolver.SelectAmbiguous | src/test/java/com/google/devtools/build/lib/analysis/AspectTest.java:71-81 | a `select` with two active non-default positions is AmbiguousSelect, even when both name the same target |
| Resolver.SelectNoMatch | src/test/java/com/google/devtools/build/lib/analysis/AspectTest.java:71-81 | a `select` with no active non-default branch and no default branch is NoMatchingCondition |
| Planner.GateMonotone | src/test/java/com/google/devtools/build/lib/analysis/AspectTest.java:229-255 | `Gate`: a target that advertises more providers than one that passes the gate passes it too |
| Planner.GateNeedsWholeSet | src/test/java/com/google/devtools/build/lib/analysis/AspectTest.java:124-148 | `Gate`: an aspect that requires provider sets is not applied to a target missing some provider of every set |
| Planner.Plan | src/test/java/com/google/devtools/build/lib/analysis/AspectTest.java:123-166 | a plan applies the aspect to each target at most once, and only to rules that pass the provider gate |
| Planner.AnalysedRules | src/test/java/com/google/devtools/build/lib/analysis/AspectTest.java:302-322 | a request analyses each rule at most once, and only rules |
| Planner.PlanApplications | src/test/java/com/google/devtools/build/lib/analysis/AspectTest.java:366-376 | an aspect's applications are exactly that aspect applied to each planned target |
| Planner.PlanExactly | src/test/java/com/google/devtools/build/lib/analysis/AspectTest.java:184-198 | a plan consists exactly of any eligible derivation from the resolved roots that holds every eligible root and is closed under propagation |
| Planner.AnalysedRulesExactly | src/test/java/com/google/devtools/build/lib/analysis/AspectTest.java:302-322 | the same exact characterisation for the rules a request analyses |
| Planner.RootPlanned | src/test/java/com/google/devtools/build/lib/analysis/AspectTest.java:229-240 | every resolved dependency that passes the gate is planned |
| Planner.PlanWithin | src/test/java/com/google/devtools/build/lib/analysis/AspectTest.java:151-166 | a plan lies within every set that holds the eligible roots and is closed under eligible propagation |
| Planner.AliasNeverApplied | src/test/java/com/google/devtools/build/lib/analysis/AspectTest.java:71-109 | an alias never receives an aspect |
| Planner.DirectDependencyAttachesIffGate | src/test/java/com/google/devtools/build/lib/analysis/AspectTest.java:123-148 | a dependency, named directly or through aliases, receives the aspect exactly when its terminal target is a rule that fully advertises at least one required provider set |
| Planner.AliasTransparentPlan | src/test/java/com/google/devtools/build/lib/analysis/AspectTest.java:169-181 | attaching through an alias plans exactly what attaching to its terminal target does |
| Planner.AliasTransparentAnalysis | src/test/java/com/google/devtools/build/lib/analysis/AspectTest.java:205-225 | requesting a label through aliases gives exactly the analysis of its terminal target |
| Planner.PropagationTransitive | src/test/java/com/google/devtools/build/lib/analysis/AspectTest.java:184-198 | an eligible target that the aspect propagates to from a planned target is planned |
| Planner.PropagationStopsAtGate | src/test/java/com/google/devtools/build/lib/analysis/AspectTest.java:151-166 | a rule that fails the gate is not planned, and every planned target that is not a root is reached from a planned target |
| Planner.AllAttributesSuccessors | src/test/java/com/google/devtools/build/lib/analysis/AspectTest.java:737-751 | an all-attributes aspect propagates from a rule to a target exactly when one of the rule's own attributes, other than the aspect's implicit ones, names a label that resolves there |
| Planner.AllAttributesReachEveryLabel | src/test/java/com/google/devtools/build/lib/analysis/AspectTest.java:675-730 | an all-attributes aspect reaches every eligible target named by any label attribute of a planned rule, implicit and late-bound ones included |
| Planner.AllAttributesNeverThroughOwnImplicit | src/test/java/com/google/devtools/build/lib/analysis/AspectTest.java:737-775 | an all-attributes aspect reaches a target only as a root or along a regular attribute of a planned rule, never only through its own implicit attributes |
| Planner.IdentitySharedIff | src/test/java/com/google/devtools/build/lib/analysis/AspectTest.java:366-388 | two applications share an identity exactly when they apply the same aspect class to the same target |
| Planner.MergedData | src/test/java/com/google/devtools/build/lib/analysis/AspectTest.java:112-121 | `Analyze`: a string is in a rule's merged data exactly when it is the rule's own or the contribution of an aspect one of its attributes attaches, on a target of that aspect's plan from the attribute's dependencies |
| Planner.MergedIdentities | src/test/java/com/google/devtools/build/lib/analysis/AspectTest.java:366-388 | `Analyze`: a request evaluates exactly the identities (aspect class, target, configuration) of those attached aspects and planned targets |
| Planner.AnalyzeFailsIff | src/test/java/com/google/devtools/build/lib/analysis/AspectTest.java:280-322 | `Analyze`: a request for a rule fails exactly when some rule it analyses has an unresolvable dependency or requests an application whose aspect errs or advertises a provider it does not produce |
| Planner.MissingProviderEvents | src/test/java/com/google/devtools/build/lib/analysis/AspectTest.java:778-800 | an application reports a missing advertised provider exactly when the aspect advertises it and does not produce it |
| Planner.MissingProviderMessagesDistinct | src/test/java/com/google/devtools/build/lib/analysis/AspectTest.java:778-800 | two missing-provider reports for one aspect and target have the same text only for the same provider |
| Planner.ApplicationEventFailsRequest | src/test/java/com/google/devtools/build/lib/analysis/AspectTest.java:302-322 | an event of any application requested by any analysed rule is reported, and the request fails |
| Planner.RequestAnalysesItsRule | src/test/java/com/google/devtools/build/lib/analysis/AspectTest.java:280-299 | a request analyses the rule it names |
| Planner.AnalysisTransitive | src/test/java/com/google/devtools/build/lib/analysis/AspectTest.java:280-299 | a request analyses every rule dependency of a rule it analyses |
| Planner.NoDependenciesNoApplications | src/test/java/com/google/devtools/build/lib/analysis/AspectTest.java:71-81 | aspects attached to an attribute with no labels are applied to nothing |
| Reachability.ReachLeast | src/test/java/com/google/devtools/build/lib/analysis/AspectTest.java:151-166 | the walk visits nothing outside a closed set holding the eligible roots |
| Reachability.ReachHasPredecessor | src/test/java/com/google/devtools/build/lib/analysis/AspectTest.java:151-166 | every visited node is a root or a successor of a visited node |
| Reachability.ReachExactly | src/test/java/com/google/devtools/build/lib/analysis/AspectTest.java:184-198 | the visited set equals the nodes of any eligible derivation that holds the eligible roots and is closed |
| AspectScenarios.AspectAppliedToAliasWithSelect | src/test/java/com/google/devtools/build/lib/analysis/AspectTest.java:72-81 | through an alias whose actual is a default-only `select`, //a:a's data is exactly {"aspect //a:c", "rule //a:a"} |
| AspectScenarios.ChainedAliasesPlan | src/test/java/com/google/devtools/build/lib/analysis/AspectTest.java:84-96 | along the chain b → c → d → e the aspect is applied once, to //a:e only |
| AspectScenarios.AspectAppliedToChainedAliases | src/test/java/com/google/devtools/build/lib/analysis/AspectTest.java:84-96 | //a:a's data is exactly {"aspect //a:e", "rule //a:a"} |
| AspectScenarios.AspectAppliedToChainedAliasesAndSelect | src/test/java/com/google/devtools/build/lib/analysis/AspectTest.java:99-109 | through two `select` alias hops, //a:a's data is exactly {"aspect //a:d", "rule //a:a"} |
| AspectScenarios.ProvidersOfAspectAreMergedIntoDependency | src/test/java/com/google/devtools/build/lib/analysis/AspectTest.java:112-121 | //a:a's data is exactly {"aspect //a:b", "rule //a:a"}, without //a:b's own entry |
| AspectScenarios.AspectIsNotCreatedIfAdvertisedProviderIsNotPresent | src/test/java/com/google/devtools/build/lib/analysis/AspectTest.java:124-134 | a dependency advertising no provider gets no aspect: //a:a's data is exactly {"rule //a:a"} |
| AspectScenarios.AspectIsNotCreatedIfAdvertisedProviderIsNotPresentWithAlias | src/test/java/com/google/devtools/build/lib/analysis/AspectTest.java:137-148 | the same when an unused alias to the dependency exists |
| AspectScenarios.AspectIsNotPropagatedThroughLiars | src/test/java/com/google/devtools/build/lib/analysis/AspectTest.java:151-166 | the honest //a:c behind the liar is not planned, and //a:a's data is exactly {"rule //a:a"} |
| AspectScenarios.AspectPropagatedThroughAliasRule | src/test/java/com/google/devtools/build/lib/analysis/AspectTest.java:169-181 | through an alias to an honest rule, //a:a's data is exactly {"rule //a:a", "aspect //a:b"} |
| AspectScenarios.AspectPropagatedThroughAliasRuleAndHonestRules | src/test/java/com/google/devtools/build/lib/analysis/AspectTest.java:184-198 | from one honest rule to the next, //a:a's data is exactly {"rule //a:a", "aspect //a:b", "aspect //a:c"} |
| AspectScenarios.AspectCreationWorksThroughBind | src/test/java/com/google/devtools/build/lib/analysis/AspectTest.java:205-225 | through //external:b, //a:a's data is exactly {"rule //a:a", "aspect //a:b"} |
| AspectScenarios.AspectCreatedIfAdvertisedProviderIsPresent | src/test/java/com/google/devtools/build/lib/analysis/AspectTest.java:229-240 | an honest dependency receives the aspect: the data is exactly {"rule //a:a", "aspect //a:b"} |
| AspectScenarios.AspectCreatedIfAtLeastOneSetOfAdvertisedProvidersArePresent | src/test/java/com/google/devtools/build/lib/analysis/AspectTest.java:243-255 | dependencies each satisfying a different required set both receive the aspect: the data is exactly {"rule //a:a", "aspect //a:b", "aspect //a:c"} |
| AspectScenarios.AspectInError | src/test/java/com/google/devtools/build/lib/analysis/AspectTest.java:280-299 | the failing aspect applied by a dependency fails the request, with the event "Aspect error" on //a:c |
| AspectScenarios.TransitiveAspectInError | src/test/java/com/google/devtools/build/lib/analysis/AspectTest.java:302-322 | the request fails, and the aspect's error is reported for //a:b and for //a:c and //a:d, which it reaches transitively |
| AspectScenarios.SameTargetInDifferentAttributes | src/test/java/com/google/devtools/build/lib/analysis/AspectTest.java:366-376 | //a:b named in two attributes gives one identity and the data {"aspect //a:b", "rule //a:a"} |
| AspectScenarios.SameTargetInDifferentAttributesWithDifferentAspects | src/test/java/com/google/devtools/build/lib/analysis/AspectTest.java:379-388 | two aspects on two attributes naming //a:b give two identities and the data {"foo", "bar"} |
| AspectScenarios.AspectPropagatesToAllAttributes | src/test/java/com/google/devtools/build/lib/analysis/AspectTest.java:540-553 | along `foo` and `foo1`, //a:x's data is exactly {"aspect //a:a", "aspect //a:b", "aspect //a:c", "rule //a:x"} |
| AspectScenarios.AspectPropagatesToAllAttributesImplicit | src/test/java/com/google/devtools/build/lib/analysis/AspectTest.java:675-700 | the aspect follows //a:c's implicit `$dep`: the data adds "aspect //extra:extra" |
| AspectScenarios.AspectPropagatesToAllAttributesLateBound | src/test/java/com/google/devtools/build/lib/analysis/AspectTest.java:704-730 | under `--plugin=//extra:extra` the aspect follows the late-bound `:plugin`: the data adds "aspect //extra:extra" |
| AspectScenarios.AspectWithAllAttributesDoesNotPropagateToOwnImplicitAttributes | src/test/java/com/google/devtools/build/lib/analysis/AspectTest.java:737-751 | the tool is not planned, and //a:x's data is exactly {"aspect //a:a", "rule //a:x"} |
| AspectScenarios.AspectWithAllAttributesPropagatesToItsToolIfThereIsPath | src/test/java/com/google/devtools/build/lib/analysis/AspectTest.java:758-775 | along the regular path through //a:c the tool is reached once: the data adds "aspect //a:tool" |
| AspectScenarios.AspectTruthInAdvertisement | src/test/java/com/google/devtools/build/lib/analysis/AspectTest.java:778-800 | the request fails, and a missing-provider event is reported on //a:s for RequiredProvider and for advertised_provider |
| AspectScenarios.TruthInAdvertisementMessages | src/test/java/com/google/devtools/build/lib/analysis/AspectTest.java:791-796 | the two events read "Aspect 'FalseAdvertisementAspect', applied to '//a:s', does not provide advertised provider '<p>'" |

## Left out

- Skyframe evaluation, caching, invalidation and the evaluator's worker pool: the model is a
  pure function of the graph. Sharing by key equality is modelled as a set of identities.
- Test driver I/O (`scratch.file`, `pkg`, `update`, `useConfiguration`): each scenario's
  graph and configuration are given directly.
- AspectValues.AspectKey.HashCode: the field hash functions (Guava's, and the field types'
  own) are parameters. Only the fold over the three fields and the 32-bit wrap-around are
  modelled.
- Planner.Analyze: events are collected from every application and every analysed rule,
  whether or not the applications they depend on failed. The evaluator's fail-fast stop at
  the first error in a single-threaded build is not modelled, so a scenario may report errors
  on more targets than the test checks for. AspectScenarios.TransitiveAspectInError states
  "Aspect error" for //a:b, //a:c and //a:d; the test only asserts that the request fails and
  that one "Aspect error" event is reported.
- Targets.Follows: an all-attributes policy skips attributes by name. A rule's own attribute
  with the same name as one of the aspect's implicit attributes is skipped too, whereas the
  source tells them apart by origin.
- AspectValues.AspectKey.ToString: its contract states only the "<label>#" prefix that makes
  debug strings of different labels differ. How parameters print is a parameter, and the
  configuration checksum is an opaque string.
- `Location`, `Aspect`, `Action` and `NestedSet<Package>` are plain values. Nested-set order
  is not modelled.
- Equality and hashing of Skylark keys are not modelled: they are inherited from a class that
  is not part of this model.
- The `this == other` shortcut in `equals` is not modelled separately: it gives the same
  answer as the field comparison.
- Extra actions, action listeners and top-level-only reporting (AspectTest.java 467-672),
  because they depend on action registration.
- Event filtering and deprecation warnings (AspectTest.java 324-363), because they are
  reporting UI.
- Parametrized aspect definitions and late-bound null attributes (AspectTest.java 257-277 and
  390-465), because they need rule-context machinery.
- Aspects on file targets (AspectTest.java 802-839).
- `select` on rule attributes is not modelled: only alias actuals are `select`s.
- Resolution errors in an aspect's own implicit attributes are not reported: unresolvable
  labels there are dropped from propagation.
- A label with no target is resolution's end point and is treated as a non-rule. The planner
  never applies an aspect to it, and a request for it reports NoSuchRule.
- AspectScenarios.TruthInAdvertisementMessages: states each message as the concatenation
  of its quoted parts rather than one string literal, because equality of long literals is
  beyond the solver's budget.
