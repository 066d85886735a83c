/**
 * The identity model of aspects: the immutable keys that name "this aspect applied to this
 * label under this configuration", the function-type tags that wrap them into evaluator keys,
 * and the immutable record that holds an evaluated aspect.
 *
 * Label, BuildConfiguration, AspectClass, AspectParameters and PackageIdentifier are not part
 * of this model; each is a small value type carrying the one string the keys print, compared
 * structurally.
 */
module AspectValues {
  import opened Wrappers

  /** A target label, identified by its canonical form, e.g. "//a:b". */
  datatype Label = Label(canonical: string) {
    function ToString(): string { canonical }
  }

  /**
   * A build configuration. Its checksum is what key strings print; the active select
   * conditions and the label-valued options (read by late-bound attributes) are what the
   * planner consults. Equality is structural over all three.
   */
  datatype BuildConfiguration =
    BuildConfiguration(checksum: string, activeConditions: set<string>, labelOptions: map<string, seq<Label>>)

  /** An aspect implementation, identified by its name. */
  datatype AspectClass = AspectClass(name: string)

  /** Aspect parameters: attribute name to values. */
  datatype AspectParameters = AspectParameters(attributes: map<string, seq<string>>)

  /** The parameters of an aspect that takes none. */
  const EMPTY := AspectParameters(map[])

  /** An aspect class paired with the parameters it is applied with. */
  datatype AspectWithParameters = AspectWithParameters(aspectClass: AspectClass, parameters: AspectParameters)

  /** The identifier of the extension file that defines a Skylark aspect. */
  datatype PackageIdentifier = PackageIdentifier(canonical: string) {
    function ToString(): string { canonical }
  }

  /** The evaluator function an aspect key belongs to. */
  datatype SkyFunctionName = NativeAspect | SkylarkAspect

  /** Failure of a key constructor. */
  datatype KeyError = NullParameters

  /**
   * An aspect applied to a target. A native key joins a built-in aspect class with its
   * parameters; a Skylark key names the extension file and the function that defines the aspect.
   * The label is the target the aspect is applied to; the configuration may be absent.
   */
  datatype AspectKey =
    | NativeAspectKey(targetLabel: Label, configuration: Option<BuildConfiguration>, aspect: AspectWithParameters)
    | SkylarkAspectKey(targetLabel: Label, configuration: Option<BuildConfiguration>,
                       extensionFile: PackageIdentifier, skylarkFunctionName: string)
  {
    function GetLabel(): Label { targetLabel }

    function GetConfiguration(): Option<BuildConfiguration> { configuration }

    /** The aspect class of a native key. */
    function GetAspect(): AspectClass
      requires NativeAspectKey?
    {
      aspect.aspectClass
    }

    /** A native key's own parameters; a Skylark aspect never has any. */
    function GetParameters(): AspectParameters {
      match this
      case NativeAspectKey(_, _, a) => a.parameters
      case SkylarkAspectKey(_, _, _, _) => EMPTY
    }

    /**
     * "<aspect class name> of <label>" for a native key and
     * "<extension file>%<function name> of <label>" for a Skylark key.
     */
    function GetDescription(): (d: string)
      ensures NativeAspectKey? ==> var p := aspect.aspectClass.name + " of ";
        |d| == |p| + |targetLabel.ToString()| && d[..|p|] == p && d[|p|..] == targetLabel.ToString()
      ensures SkylarkAspectKey? ==> var p := extensionFile.ToString() + "%" + skylarkFunctionName + " of ";
        |d| == |p| + |targetLabel.ToString()| && d[..|p|] == p && d[|p|..] == targetLabel.ToString()
    {
      match this
      case NativeAspectKey(l, _, a) =>
        var p := a.aspectClass.name + " of ";
        assert (p + l.ToString())[..|p|] == p && (p + l.ToString())[|p|..] == l.ToString();
        p + l.ToString()
      case SkylarkAspectKey(l, _, file, fn) =>
        var p := file.ToString() + "%" + fn + " of ";
        assert (p + l.ToString())[..|p|] == p && (p + l.ToString())[|p|..] == l.ToString();
        p + l.ToString()
    }

    /** The evaluator function that computes this key: native keys NATIVE_ASPECT, Skylark keys SKYLARK_ASPECT. */
    function GetType(): (t: SkyFunctionName)
      ensures t == NativeAspect <==> NativeAspectKey?
      ensures t == SkylarkAspect <==> SkylarkAspectKey?
    {
      match this
      case NativeAspectKey(_, _, _) => NativeAspect
      case SkylarkAspectKey(_, _, _, _) => SkylarkAspect
    }

    /**
     * Native key equality: `other` must itself be a native key, and the two agree on label,
     * configuration and aspect-with-parameters. The source's shortcut for the very same object
     * gives the same answer, since an object has equal fields to itself.
     */
    predicate Equals(other: Object): (r: bool)
      requires NativeAspectKey?
      ensures r <==> other == KeyObject(this)
    {
      && other.KeyObject?
      && other.key.NativeAspectKey?
      && targetLabel == other.key.targetLabel
      && configuration == other.key.configuration
      && aspect == other.key.aspect
    }

    /**
     * The native key's hash: the 31-based polynomial of the three fields' hashes that
     * equality compares, with 32-bit wrap-around; an absent configuration hashes to 0.
     */
    function HashCode(h: FieldHashes): (r: int32)
      requires NativeAspectKey?
      ensures var c: int32 := match configuration case None => 0 case Some(c) => h.forConfiguration(c);
        (r as int - (29791 + 961 * h.forLabel(targetLabel) as int + 31 * c as int + h.forAspect(aspect) as int))
          % 0x1_0000_0000 == 0
    {
      var c: int32 := match configuration case None => 0 case Some(c) => h.forConfiguration(c);
      ArraysHashCodeOfThree(h.forLabel(targetLabel), c, h.forAspect(aspect));
      ArraysHashCode([h.forLabel(targetLabel), c, h.forAspect(aspect)])
    }

    /**
     * Debug string of a native key: "<label>#<aspect name> <checksum or null> <parameters>".
     * How parameters print is not part of this model and is passed in.
     */
    function ToString(renderParameters: AspectParameters -> string): (s: string)
      requires NativeAspectKey?
      ensures |s| > |targetLabel.ToString()| && s[..|targetLabel.ToString()| + 1] == targetLabel.ToString() + "#"
    {
      var prefix := targetLabel.ToString() + "#";
      var rest := aspect.aspectClass.name + " "
        + (match configuration case None => "null" case Some(c) => c.checksum) + " "
        + renderParameters(aspect.parameters);
      assert (prefix + rest)[..|prefix|] == prefix;
      prefix + rest
    }
  }

  /** What a key can be compared with: another key, or any other object. */
  datatype Object = KeyObject(key: AspectKey) | OtherObject(id: nat)

  /** Java's 32-bit int. */
  newtype int32 = x: int | -0x8000_0000 <= x < 0x8000_0000

  /** Truncation of an integer to 32 bits, two's complement. */
  function Wrap32(x: int): (r: int32)
    ensures (r as int - x) % 0x1_0000_0000 == 0
    ensures -0x8000_0000 <= x < 0x8000_0000 ==> r as int == x
  {
    ((x + 0x8000_0000) % 0x1_0000_0000 - 0x8000_0000) as int32
  }

  /** The array hash: start at 1 and fold each element in as 31 * acc + h, wrapping. */
  function ArraysHashCode(hs: seq<int32>): int32 {
    if hs == [] then 1 else Wrap32(31 * ArraysHashCode(hs[..|hs| - 1]) as int + hs[|hs| - 1] as int)
  }

  /** Multiplying by 31 and adding the same value keeps two integers congruent modulo 2^32. */
  lemma FoldCongruent(a: int, b: int, c: int)
    requires (a - b) % 0x1_0000_0000 == 0
    ensures ((31 * a + c) - (31 * b + c)) % 0x1_0000_0000 == 0
  {
    var k := (a - b) / 0x1_0000_0000;
    assert a - b == k * 0x1_0000_0000;
    assert (31 * a + c) - (31 * b + c) == (31 * k) * 0x1_0000_0000;
  }

  /** Congruence modulo 2^32 is transitive. */
  lemma CongruentTrans(a: int, b: int, c: int)
    requires (a - b) % 0x1_0000_0000 == 0 && (b - c) % 0x1_0000_0000 == 0
    ensures (a - c) % 0x1_0000_0000 == 0
  {
    var k, j := (a - b) / 0x1_0000_0000, (b - c) / 0x1_0000_0000;
    assert a - b == k * 0x1_0000_0000 && b - c == j * 0x1_0000_0000;
    assert a - c == (k + j) * 0x1_0000_0000;
  }

  /**
   * The array hash of three values is the closed form 31^3 + 31^2 x + 31 y + z, reduced
   * to 32 bits.
   */
  lemma ArraysHashCodeOfThree(x: int32, y: int32, z: int32)
    ensures (ArraysHashCode([x, y, z]) as int - (29791 + 961 * x as int + 31 * y as int + z as int)) % 0x1_0000_0000 == 0
  {
    assert [x, y, z][..2] == [x, y] && [x, y][..1] == [x] && [x][..0] == [];
    var h1 := ArraysHashCode([x]);
    var h2 := ArraysHashCode([x, y]);
    var h3 := ArraysHashCode([x, y, z]);
    assert h1 == Wrap32(31 * ArraysHashCode([]) as int + x as int);
    assert (h1 as int - (31 + x as int)) % 0x1_0000_0000 == 0;
    assert h2 == Wrap32(31 * h1 as int + y as int);
    FoldCongruent(h1 as int, 31 + x as int, y as int);
    CongruentTrans(h2 as int, 31 * h1 as int + y as int, 31 * (31 + x as int) + y as int);
    assert h3 == Wrap32(31 * h2 as int + z as int);
    FoldCongruent(h2 as int, 31 * (31 + x as int) + y as int, z as int);
    CongruentTrans(h3 as int, 31 * h2 as int + z as int, 31 * (31 * (31 + x as int) + y as int) + z as int);
  }

  /** Hash functions of the field types, which are not part of this model. */
  datatype FieldHashes = FieldHashes(
    forLabel: Label -> int32,
    forConfiguration: BuildConfiguration -> int32,
    forAspect: AspectWithParameters -> int32)

  /** An evaluator key: the function that computes it and its argument. */
  datatype SkyKey = SkyKey(functionName: SkyFunctionName, argument: AspectKey)

  /** The private native-key constructor, which rejects null parameters. */
  function NewNativeAspectKey(
    targetLabel: Label, configuration: Option<BuildConfiguration>,
    aspectClass: AspectClass, parameters: Option<AspectParameters>): (r: Result<AspectKey, KeyError>)
    ensures r.Success? <==> parameters.Some?
    ensures r.Failure? ==> r.error == NullParameters
    ensures r.Success? ==>
      && r.value.NativeAspectKey?
      && r.value.GetLabel() == targetLabel
      && r.value.GetConfiguration() == configuration
      && r.value.GetAspect() == aspectClass
      && r.value.GetParameters() == parameters.value
  {
    match parameters
    case None => Failure(NullParameters)
    case Some(p) => Success(NativeAspectKey(targetLabel, configuration, AspectWithParameters(aspectClass, p)))
  }

  /** The evaluator key for a native aspect, tagged NativeAspect. */
  function NativeKey(
    targetLabel: Label, configuration: Option<BuildConfiguration>,
    aspectFactory: AspectClass, additionalConfiguration: Option<AspectParameters>): (r: Result<SkyKey, KeyError>)
    ensures r.Success? <==> additionalConfiguration.Some?
    ensures r.Success? ==>
      && r.value.functionName == NativeAspect
      && NewNativeAspectKey(targetLabel, configuration, aspectFactory, additionalConfiguration) == Success(r.value.argument)
  {
    match NewNativeAspectKey(targetLabel, configuration, aspectFactory, additionalConfiguration)
    case Failure(e) => Failure(e)
    case Success(k) => Success(SkyKey(NativeAspect, k))
  }

  /** The evaluator key for any aspect key, tagged with the key's own type. */
  function KeyOf(aspectKey: AspectKey): (r: SkyKey)
    ensures r.argument == aspectKey
    ensures r.functionName == (if aspectKey.NativeAspectKey? then NativeAspect else SkylarkAspect)
  {
    SkyKey(aspectKey.GetType(), aspectKey)
  }

  /** A native key with empty parameters. */
  function CreateAspectKey(targetLabel: Label, configuration: Option<BuildConfiguration>, aspectFactory: AspectClass): (k: AspectKey)
    ensures NewNativeAspectKey(targetLabel, configuration, aspectFactory, Some(EMPTY)) == Success(k)
  {
    NativeAspectKey(targetLabel, configuration, AspectWithParameters(aspectFactory, EMPTY))
  }

  /** A Skylark key. */
  function CreateSkylarkAspectKey(
    targetLabel: Label, targetConfiguration: Option<BuildConfiguration>,
    bzlFile: PackageIdentifier, skylarkFunctionName: string): (k: AspectKey)
    ensures k.SkylarkAspectKey?
    ensures k.GetLabel() == targetLabel && k.GetConfiguration() == targetConfiguration
    ensures k.extensionFile == bzlFile && k.skylarkFunctionName == skylarkFunctionName
    ensures k.GetParameters() == EMPTY
  {
    SkylarkAspectKey(targetLabel, targetConfiguration, bzlFile, skylarkFunctionName)
  }

  /** Where an aspect was defined; not part of this model beyond its value. */
  datatype Location = Location(path: string, line: nat)

  /** The configured aspect an evaluation produced: its providers, by name. */
  datatype Aspect = Aspect(providers: set<string>)

  /** A build action registered during evaluation, with its output paths. */
  datatype Action = Action(mnemonic: string, outputs: set<string>)

  /** A package whose build file was read. */
  datatype Package = Package(identifier: PackageIdentifier)

  /**
   * The evaluated aspect: its key, the label and location it carries, the configured aspect,
   * the registered actions and the transitive packages (a set: nested-set order is not modelled).
   */
  datatype AspectValue = AspectValue(
    key: AspectKey, targetLabel: Label, location: Location, aspect: Aspect,
    actions: seq<Action>, transitivePackages: set<Package>)

  // ---------------------------------------------------------------------------------------
  // Properties of the identity model
  // ---------------------------------------------------------------------------------------

  /** Native key equality is exactly structural equality of keys. */
  lemma EqualsIsStructural(k: AspectKey, other: AspectKey)
    requires k.NativeAspectKey?
    ensures k.Equals(KeyObject(other)) <==> other == k
  {
  }

  /** Equality is reflexive, symmetric and transitive on native keys. */
  lemma EqualsIsEquivalence(a: AspectKey, b: AspectKey, c: AspectKey)
    requires a.NativeAspectKey? && b.NativeAspectKey? && c.NativeAspectKey?
    ensures a.Equals(KeyObject(a))
    ensures a.Equals(KeyObject(b)) ==> b.Equals(KeyObject(a))
    ensures a.Equals(KeyObject(b)) && b.Equals(KeyObject(c)) ==> a.Equals(KeyObject(c))
  {
  }

  /** A native key never equals a Skylark key or an object that is not a key. */
  lemma EqualsOnlyNativeKeys(k: AspectKey, other: Object)
    requires k.NativeAspectKey?
    requires other.OtherObject? || other.key.SkylarkAspectKey?
    ensures !k.Equals(other)
  {
  }

  /** Equal native keys have equal hash codes, whatever the field hash functions are. */
  lemma HashAgreesWithEquals(a: AspectKey, b: AspectKey, h: FieldHashes)
    requires a.NativeAspectKey? && b.NativeAspectKey?
    requires a.Equals(KeyObject(b))
    ensures a.HashCode(h) == b.HashCode(h)
  {
  }

  /** A null parameter set is rejected, so every constructed native key carries parameters. */
  lemma NullParametersRejected(targetLabel: Label, configuration: Option<BuildConfiguration>, aspectClass: AspectClass)
    ensures NewNativeAspectKey(targetLabel, configuration, aspectClass, None) == Failure(NullParameters)
    ensures NativeKey(targetLabel, configuration, aspectClass, None) == Failure(NullParameters)
  {
  }

  /** Descriptions of native keys for the same aspect class determine the label. */
  lemma {:induction false} NativeDescriptionDeterminesLabel(a: AspectKey, b: AspectKey)
    requires a.NativeAspectKey? && b.NativeAspectKey?
    requires a.GetAspect().name == b.GetAspect().name
    requires a.GetDescription() == b.GetDescription()
    ensures a.GetLabel() == b.GetLabel()
  {
    var p := a.GetAspect().name + " of ";
    assert a.GetDescription() == p + a.targetLabel.canonical;
    assert b.GetDescription() == p + b.targetLabel.canonical;
    assert a.targetLabel.canonical == a.GetDescription()[|p|..];
  }

  /** Descriptions of Skylark keys for the same file and function determine the label. */
  lemma {:induction false} SkylarkDescriptionDeterminesLabel(a: AspectKey, b: AspectKey)
    requires a.SkylarkAspectKey? && b.SkylarkAspectKey?
    requires a.extensionFile == b.extensionFile && a.skylarkFunctionName == b.skylarkFunctionName
    requires a.GetDescription() == b.GetDescription()
    ensures a.GetLabel() == b.GetLabel()
  {
    var p := a.extensionFile.ToString() + "%" + a.skylarkFunctionName + " of ";
    assert a.GetDescription() == p + a.targetLabel.canonical;
    assert b.GetDescription() == p + b.targetLabel.canonical;
    assert a.targetLabel.canonical == a.GetDescription()[|p|..];
  }

  /** Every description ends with " of <label>". */
  lemma {:induction false} DescriptionEndsWithLabel(k: AspectKey)
    ensures var d, s := k.GetDescription(), " of " + k.GetLabel().ToString();
      |d| >= |s| && d[|d| - |s|..] == s
  {
    var s := " of " + k.GetLabel().ToString();
    match k
    case NativeAspectKey(l, _, a) =>
      assert k.GetDescription() == a.aspectClass.name + s;
    case SkylarkAspectKey(l, _, file, fn) =>
      assert k.GetDescription() == (file.ToString() + "%" + fn) + s;
  }

  /** createAspectKey builds the same key as the constructor with EMPTY parameters. */
  lemma CreateAspectKeyHasEmptyParameters(targetLabel: Label, configuration: Option<BuildConfiguration>, aspectClass: AspectClass)
    ensures var k := CreateAspectKey(targetLabel, configuration, aspectClass);
      && k.NativeAspectKey?
      && k.GetParameters() == EMPTY
      && k.GetAspect() == aspectClass
      && k.GetType() == NativeAspect
      && k.Equals(KeyObject(NativeAspectKey(targetLabel, configuration, AspectWithParameters(aspectClass, EMPTY))))
  {
  }

  /** An aspect value returns exactly what it was built from. */
  lemma AspectValueKeepsFields(
    key: AspectKey, targetLabel: Label, location: Location, aspect: Aspect,
    actions: seq<Action>, transitivePackages: set<Package>)
    ensures var v := AspectValue(key, targetLabel, location, aspect, actions, transitivePackages);
      v.key == key && v.targetLabel == targetLabel && v.location == location && v.aspect == aspect
      && v.actions == actions && v.transitivePackages == transitivePackages
  {
  }
}
