/** Optional values, for the Swift optionals the binding returns. */
module Wrappers {
  datatype Option<+T> = None | Some(value: T)
}

/**
 * The data the binding takes from the C header of the Java Native Interface:
 * the primitive widths, the manifest constants, the `jvalue` union and the
 * opaque handles.  A handle is a C address, so it is a natural number with 0
 * standing for NULL.
 */
module Jni {

  // Manifest constants (JNI_FALSE, JNI_TRUE, versions, status codes).
  const JNI_FALSE: int := 0
  const JNI_TRUE: int := 1
  const JNI_VERSION_1_6: int := 0x0001_0006
  const JNI_OK: int := 0
  const JNI_ERR: int := -1
  const JNI_EDETACHED: int := -2
  const JNI_EVERSION: int := -3

  // Primitive widths of the C types behind the Java types.
  type UInt8 = n: int | 0 <= n < 0x100            // jboolean
  type Int8 = n: int | -0x80 <= n < 0x80           // jbyte
  type UInt16 = n: int | 0 <= n < 0x1_0000         // jchar
  type Int16 = n: int | -0x8000 <= n < 0x8000      // jshort
  type Int32 = n: int | -0x8000_0000 <= n < 0x8000_0000   // jint, jsize
  type Int64 = n: int | -0x8000_0000_0000_0000 <= n < 0x8000_0000_0000_0000  // jlong, Swift Int

  predicate IsInt32(n: int) { -0x8000_0000 <= n < 0x8000_0000 }
  predicate IsInt8(n: int) { -0x80 <= n < 0x80 }

  /** A reference handle (jobject, jclass, jstring, jarray ...); 0 is NULL. */
  type Ref = nat
  const Null: Ref := 0

  /** Resolved method and field identifiers; 0 is NULL. */
  type MethodId = nat
  type FieldId = nat

  /** The `jvalue` union: exactly one slot is filled.  Floating-point slots carry
      the IEEE 754 bit pattern; no floating-point arithmetic is modelled. */
  datatype JValue =
    | JBool(z: UInt8)
    | JByte(b: Int8)
    | JChar(c: UInt16)
    | JShort(s: Int16)
    | JInt(i: Int32)
    | JLong(j: Int64)
    | JFloat(f: bv32)
    | JDouble(d: bv64)
    | JObject(l: Ref)

  /** The slots a Java method result or field value can come back in. */
  datatype Kind = BooleanKind | IntKind | LongKind | FloatKind | DoubleKind | ObjectKind

  predicate HasKind(p: JValue, k: Kind) {
    match k
    case BooleanKind => p.JBool?
    case IntKind => p.JInt?
    case LongKind => p.JLong?
    case FloatKind => p.JFloat?
    case DoubleKind => p.JDouble?
    case ObjectKind => p.JObject?
  }

  /** The value JNI returns from a call that raised: zero or NULL in the result's slot. */
  function Zero(k: Kind): (p: JValue)
    ensures HasKind(p, k)
  {
    match k
    case BooleanKind => JBool(0)
    case IntKind => JInt(0)
    case LongKind => JLong(0)
    case FloatKind => JFloat(0)
    case DoubleKind => JDouble(0)
    case ObjectKind => JObject(Null)
  }

  /** Swift's `UInt8(bitPattern:)` on a signed byte. */
  function ByteBitPattern(b: Int8): (u: UInt8)
    ensures u % 0x100 == b % 0x100
  {
    if b >= 0 then b else b + 0x100
  }

  /** Swift's `Int8(bitPattern:)` on an unsigned byte. */
  function SignedByteBitPattern(u: UInt8): (b: Int8)
    ensures b % 0x100 == u % 0x100
  {
    if u < 0x80 then u else u - 0x100
  }

  lemma {:induction false} ByteBitPatternRoundTrip(u: UInt8, b: Int8)
    ensures ByteBitPattern(SignedByteBitPattern(u)) == u
    ensures SignedByteBitPattern(ByteBitPattern(b)) == b
  {
  }

  /** Two's-complement bits of a 32-bit integer, read as an unsigned number. */
  function Unsigned32(x: Int32): (u: nat)
    ensures u < 0x1_0000_0000
  {
    if x >= 0 then x else x + 0x1_0000_0000
  }

  function Signed32(u: nat): (x: Int32)
    requires u < 0x1_0000_0000
  {
    if u < 0x8000_0000 then u else u - 0x1_0000_0000
  }

  /** The word made of four bytes, least significant first. */
  function Word(b0: nat, b1: nat, b2: nat, b3: nat): nat
  {
    b0 + 0x100 * b1 + 0x1_0000 * b2 + 0x100_0000 * b3
  }

  /** Reverses the order of the four bytes of a word. */
  function SwapBytes(u: nat): (r: nat)
    requires u < 0x1_0000_0000
    ensures r < 0x1_0000_0000
  {
    var q1 := u / 0x100;
    var q2 := q1 / 0x100;
    Word(q2 / 0x100, q2 % 0x100, q1 % 0x100, u % 0x100)
  }

  /** Dividing by 256 takes off the lowest byte and nothing else. */
  lemma {:induction false} LowByte(q: nat, r: nat)
    requires r < 0x100
    ensures (0x100 * q + r) / 0x100 == q && (0x100 * q + r) % 0x100 == r
  {
  }

  /** A word splits back into the bytes it was made of. */
  lemma {:induction false} WordBytes(b0: nat, b1: nat, b2: nat, b3: nat)
    requires b0 < 0x100 && b1 < 0x100 && b2 < 0x100 && b3 < 0x100
    ensures var w := Word(b0, b1, b2, b3);
      w < 0x1_0000_0000 && w % 0x100 == b0 && (w / 0x100) % 0x100 == b1 &&
      ((w / 0x100) / 0x100) % 0x100 == b2 && ((w / 0x100) / 0x100) / 0x100 == b3
  {
    var w := Word(b0, b1, b2, b3);
    var q2 := b2 + 0x100 * b3;
    var q1 := b1 + 0x100 * q2;
    assert w == 0x100 * q1 + b0;
    LowByte(q1, b0);
    LowByte(q2, b1);
    LowByte(b3, b2);
  }

  /** Every word is the word of its own four bytes. */
  lemma {:induction false} BytesWord(u: nat)
    requires u < 0x1_0000_0000
    ensures var q1 := u / 0x100; var q2 := q1 / 0x100;
      q2 / 0x100 < 0x100 && u == Word(u % 0x100, q1 % 0x100, q2 % 0x100, q2 / 0x100)
  {
    var q1 := u / 0x100;
    var q2 := q1 / 0x100;
    assert u == 0x100 * q1 + u % 0x100;
    assert q1 == 0x100 * q2 + q1 % 0x100;
    assert q2 == 0x100 * (q2 / 0x100) + q2 % 0x100;
  }

  lemma {:induction false} SwapBytesInvolution(u: nat)
    requires u < 0x1_0000_0000
    ensures SwapBytes(SwapBytes(u)) == u
  {
    var q1 := u / 0x100;
    var q2 := q1 / 0x100;
    BytesWord(u);
    WordBytes(q2 / 0x100, q2 % 0x100, q1 % 0x100, u % 0x100);
  }

  /** Swift's `Int32.bigEndian`: the integer whose in-memory bytes are this one's
      big-endian bytes, which is a byte swap on a little-endian host. */
  function BigEndian(x: Int32, littleEndianHost: bool): (r: Int32)
  {
    if littleEndianHost then Signed32(SwapBytes(Unsigned32(x))) else x
  }

  /** Taking the big-endian view twice gives the status back on every host. */
  lemma {:induction false} BigEndianInvolution(x: Int32, littleEndianHost: bool)
    ensures BigEndian(BigEndian(x, littleEndianHost), littleEndianHost) == x
  {
    if littleEndianHost {
      var u := SwapBytes(Unsigned32(x));
      assert Unsigned32(Signed32(u)) == u;
      SwapBytesInvolution(Unsigned32(x));
    }
  }
}
