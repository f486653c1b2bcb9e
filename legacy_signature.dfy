/**
 * The older descriptor codec of the JNISwift module.  Only Bool and Int conform
 * there, the return type is mandatory (there is no "V" default), and the
 * argument part is built either from values or from a list of types.
 */
module LegacySignature {
  import opened Jni
  import opened Wrappers
  import Convertible
  import Signature
  import DescriptorGrammar

  /** The conforming types of the JNISwift module. */
  datatype LegacyType = LegacyBool | LegacyInt

  datatype LegacyValue = LegacyBoolValue(b: bool) | LegacyIntValue(n: Int64)

  function TypeOf(v: LegacyValue): LegacyType
  {
    match v
    case LegacyBoolValue(_) => LegacyBool
    case LegacyIntValue(_) => LegacyInt
  }

  /** `asJNIParameterString` of the two conforming types. */
  function Tag(t: LegacyType): string
  {
    match t
    case LegacyBool => "Z"
    case LegacyInt => "I"
  }

  /** `String.from(parameters:)`: the dynamic types' tags appended in order. */
  function FromParameters(parameters: seq<LegacyValue>): string
  {
    Signature.Joined(seq(|parameters|, i requires 0 <= i < |parameters| => Tag(TypeOf(parameters[i]))))
  }

  /** `String.from(types:)`: the listed types' tags appended in order. */
  function FromTypes(types: seq<LegacyType>): string
  {
    Signature.Joined(seq(|types|, i requires 0 <= i < |types| => Tag(types[i])))
  }

  /** `asJNIParameterString(with:)`: the argument string in brackets, then the return tag. */
  function AsJNIParameterString(arguments: string, returnType: LegacyType): string
  {
    "(" + arguments + ")" + Tag(returnType)
  }

  /** `methodSignature(returnType:)` on an array of values. */
  function MethodSignatureOfValues(parameters: seq<LegacyValue>, returnType: LegacyType): string
  {
    AsJNIParameterString(FromParameters(parameters), returnType)
  }

  /** `methodSignature(returnType:)` on an array of types. */
  function MethodSignatureOfTypes(types: seq<LegacyType>, returnType: LegacyType): string
  {
    AsJNIParameterString(FromTypes(types), returnType)
  }

  function TypesOf(parameters: seq<LegacyValue>): (ts: seq<LegacyType>)
    ensures |ts| == |parameters|
  {
    seq(|parameters|, i requires 0 <= i < |parameters| => TypeOf(parameters[i]))
  }

  /** Building from values is building from the values' dynamic types, so the two
      overloads give the same descriptor. */
  lemma {:induction false} OverloadsAgree(parameters: seq<LegacyValue>, returnType: LegacyType)
    ensures FromParameters(parameters) == FromTypes(TypesOf(parameters))
    ensures MethodSignatureOfValues(parameters, returnType) == MethodSignatureOfTypes(TypesOf(parameters), returnType)
  {
    var ts := TypesOf(parameters);
    assert seq(|parameters|, i requires 0 <= i < |parameters| => Tag(TypeOf(parameters[i])))
        == seq(|ts|, i requires 0 <= i < |ts| => Tag(ts[i]));
  }

  /** Every tag is one character, so the descriptor is one character per argument plus
      the two brackets and the return letter. */
  lemma {:induction false} FromTypesLength(types: seq<LegacyType>)
    ensures |FromTypes(types)| == |types|
    decreases |types|
  {
    if types != [] {
      var init := types[..|types| - 1];
      var tags := seq(|types|, i requires 0 <= i < |types| => Tag(types[i]));
      assert tags[..|tags| - 1] == seq(|init|, i requires 0 <= i < |init| => Tag(init[i]));
      FromTypesLength(init);
    }
  }

  lemma {:induction false} MethodSignatureLength(types: seq<LegacyType>, returnType: LegacyType)
    ensures |MethodSignatureOfTypes(types, returnType)| == |types| + 3
  {
    FromTypesLength(types);
  }

  /** The return type is mandatory: no descriptor of this codec ends in 'V'. */
  lemma {:induction false} NeverVoid(types: seq<LegacyType>, returnType: LegacyType)
    ensures var s := MethodSignatureOfTypes(types, returnType); |s| > 0 && s[|s| - 1] != 'V'
  {
  }

  /** The current type each older type corresponds to. */
  function Current(t: LegacyType): Convertible.JavaType
  {
    match t
    case LegacyBool => Convertible.BoolType
    case LegacyInt => Convertible.IntType
  }

  function CurrentValue(v: LegacyValue): Convertible.JavaValue
  {
    match v
    case LegacyBoolValue(b) => Convertible.BoolValue(b)
    case LegacyIntValue(n) => Convertible.IntValue(n)
  }

  /** On the types both modules know, the older codec builds the same descriptor as the
      current one, so it parses back into the argument tags and the return tag. */
  lemma {:induction false} AgreesWithCurrentCodec(parameters: seq<LegacyValue>, returnType: LegacyType)
    ensures var current := seq(|parameters|, i requires 0 <= i < |parameters| => CurrentValue(parameters[i]));
      MethodSignatureOfValues(parameters, returnType) == Signature.MethodSignature(current, Some(Current(returnType))) &&
      DescriptorGrammar.ParseMethodDescriptor(MethodSignatureOfValues(parameters, returnType))
        == Some((Signature.Tags(current), Tag(returnType)))
  {
    var current := seq(|parameters|, i requires 0 <= i < |parameters| => CurrentValue(parameters[i]));
    assert seq(|parameters|, i requires 0 <= i < |parameters| => Tag(TypeOf(parameters[i]))) == Signature.Tags(current);
    Signature.MethodSignatureParses(current, Some(Current(returnType)));
  }

  /** `toJavaParameter` of the older module: Bool gives 1 or 0, Int narrows with a checked
      conversion to 32 bits. */
  function ToJavaParameter(v: LegacyValue): (p: JValue)
    requires v.LegacyIntValue? ==> IsInt32(v.n)
  {
    match v
    case LegacyBoolValue(b) => JBool(if b then 1 else 0)
    case LegacyIntValue(n) => JInt(n)
  }

  /** The pure part of `fromStaticMethod`: a boolean is true exactly when the raw byte is 1,
      an int widens to Int. */
  function FromRaw(t: LegacyType, p: JValue): (v: LegacyValue)
    requires t == LegacyBool ==> p.JBool?
    requires t == LegacyInt ==> p.JInt?
    ensures TypeOf(v) == t
  {
    match t
    case LegacyBool => LegacyBoolValue(p.z == 1)
    case LegacyInt => LegacyIntValue(p.i)
  }

  /** Both conversions coincide with the current module's, and a value written and read
      back is the value. */
  lemma {:induction false} ConversionsAgreeWithCurrent(v: LegacyValue, p: JValue)
    requires v.LegacyIntValue? ==> IsInt32(v.n)
    ensures ToJavaParameter(v) == Convertible.ToJavaParameter(CurrentValue(v))
    ensures FromRaw(TypeOf(v), ToJavaParameter(v)) == v
    ensures p.JBool? ==> CurrentValue(FromRaw(LegacyBool, p)) == Convertible.FromRaw(Convertible.BoolType, p)
    ensures p.JInt? ==> CurrentValue(FromRaw(LegacyInt, p)) == Convertible.FromRaw(Convertible.IntType, p)
  {
  }
}
