/**
 * The JavaParameterConvertible conformances of the JNI module: the Swift types
 * that can cross into Java, the type descriptor each one carries, and the pure
 * halves of their conversions to and from the `jvalue` union.  Converting a
 * String allocates a Java string and reading one decodes it; those halves need
 * the runtime and live with the dispatch wrappers.
 */
module Convertible {
  import opened Jni
  import opened Wrappers
  import DescriptorGrammar

  /** The conforming Swift types: Bool, Int, Double, Float, JavaObject, String, JavaContext. */
  datatype JavaType = BoolType | IntType | DoubleType | FloatType | ObjectType | StringType | ContextType

  /** A value of a conforming type.  Swift's Int is 64 bits wide; floating-point
      values are carried as their bit patterns; a JavaContext wraps an object. */
  datatype JavaValue =
    | BoolValue(b: bool)
    | IntValue(n: Int64)
    | DoubleValue(d: bv64)
    | FloatValue(f: bv32)
    | ObjectValue(o: Ref)
    | StringValue(s: string)
    | ContextValue(o: Ref)

  /** `type(of: value)`. */
  function TypeOf(v: JavaValue): JavaType
  {
    match v
    case BoolValue(_) => BoolType
    case IntValue(_) => IntType
    case DoubleValue(_) => DoubleType
    case FloatValue(_) => FloatType
    case ObjectValue(_) => ObjectType
    case StringValue(_) => StringType
    case ContextValue(_) => ContextType
  }

  /** The internal class name behind each object type's descriptor. */
  function ClassName(t: JavaType): string
    requires t.ObjectType? || t.StringType? || t.ContextType?
  {
    match t
    case ObjectType => "java/lang/Object"
    case StringType => "java/lang/String"
    case ContextType => "android/content/Context"
  }

  /** `asJNIParameterString`: a base-type letter for the primitives, "L" + class name + ";"
      for the object types. */
  function Tag(t: JavaType): string
  {
    match t
    case BoolType => "Z"
    case IntType => "I"
    case DoubleType => "D"
    case FloatType => "F"
    case _ => "L" + ClassName(t) + ";"
  }

  /** The class names behind the object tags are internal binary names. */
  lemma {:induction false} ClassNameIsInternal(t: JavaType)
    requires t.ObjectType? || t.StringType? || t.ContextType?
    ensures DescriptorGrammar.IsInternalClassName(ClassName(t))
  {
    var n := ClassName(t);
    forall i | 0 <= i < |n|
      ensures n[i] != '.' && n[i] != ';' && n[i] != '['
    {
    }
    forall i | 0 <= i < |n| - 1
      ensures !(n[i] == '/' && n[i + 1] == '/')
    {
    }
  }

  /** Every tag is a field descriptor of the Java Virtual Machine Specification. */
  lemma {:induction false} TagIsFieldDescriptor(t: JavaType)
    ensures DescriptorGrammar.IsFieldDescriptor(Tag(t))
  {
    if t.ObjectType? || t.StringType? || t.ContextType? {
      ClassNameIsInternal(t);
      DescriptorGrammar.ObjectDescriptor(ClassName(t));
    }
  }

  /** Different types never share a descriptor, so a descriptor names its type. */
  lemma {:induction false} TagInjective(s: JavaType, t: JavaType)
    ensures Tag(s) == Tag(t) ==> s == t
  {
    if s != t && |Tag(s)| == |Tag(t)| > 11 {
      assert Tag(s)[11] != Tag(t)[11];
    }
  }

  /** The slot of the `jvalue` union a type travels in. */
  function KindOf(t: JavaType): Kind
  {
    match t
    case BoolType => BooleanKind
    case IntType => IntKind
    case DoubleType => DoubleKind
    case FloatType => FloatKind
    case _ => ObjectKind
  }

  /** `toJavaParameter` for the types whose conversion needs no runtime: Bool puts 1 or 0
      in the boolean slot; Int narrows with a checked conversion, so only values in the
      32-bit range can be converted; the object types put their handle in the object slot. */
  function ToJavaParameter(v: JavaValue): (p: JValue)
    requires !v.StringValue?
    requires v.IntValue? ==> IsInt32(v.n)
    ensures HasKind(p, KindOf(TypeOf(v)))
  {
    match v
    case BoolValue(b) => JBool(if b then JNI_TRUE else JNI_FALSE)
    case IntValue(n) => JInt(n)
    case DoubleValue(d) => JDouble(d)
    case FloatValue(f) => JFloat(f)
    case ObjectValue(o) => JObject(o)
    case ContextValue(o) => JObject(o)
  }

  /** The pure part of the read paths `fromMethod`, `fromStaticMethod`, `fromField` and
      `fromStaticField`: a raw boolean is true exactly when it equals JNI_TRUE, a 32-bit
      int widens to Int, and an object handle is returned or wrapped as it is. */
  function FromRaw(t: JavaType, p: JValue): (v: JavaValue)
    requires !t.StringType?
    requires HasKind(p, KindOf(t))
    ensures TypeOf(v) == t
  {
    match t
    case BoolType => BoolValue(p.z == JNI_TRUE)
    case IntType => IntValue(p.i)
    case DoubleType => DoubleValue(p.d)
    case FloatType => FloatValue(p.f)
    case ObjectType => ObjectValue(p.l)
    case ContextType => ContextValue(p.l)
  }

  /** Writing a value and reading the raw value back returns the value. */
  lemma {:induction false} ReadAfterWrite(v: JavaValue)
    requires !v.StringValue?
    requires v.IntValue? ==> IsInt32(v.n)
    ensures FromRaw(TypeOf(v), ToJavaParameter(v)) == v
  {
  }

  /** Reading a raw value and writing it back returns it, except that every boolean
      byte other than JNI_TRUE comes back as JNI_FALSE. */
  lemma {:induction false} WriteAfterRead(t: JavaType, p: JValue)
    requires !t.StringType?
    requires HasKind(p, KindOf(t))
    ensures t != BoolType ==> ToJavaParameter(FromRaw(t, p)) == p
    ensures t == BoolType ==> ToJavaParameter(FromRaw(t, p)) == JBool(if p.z == JNI_TRUE then JNI_TRUE else JNI_FALSE)
  {
  }

  /** A boolean reads as true exactly when its byte is JNI_TRUE: 0 and every byte
      from 2 to 255 read as false. */
  lemma {:induction false} BoolReadsTrueOnlyOnJniTrue(z: UInt8)
    ensures FromRaw(BoolType, JBool(z)).b <==> z == 1
    ensures z == 0 || z >= 2 ==> !FromRaw(BoolType, JBool(z)).b
  {
  }
}
