/**
 * Strings of the JNI module: decoding a Java string into a Swift string, the
 * `GetStringUTFChars(_:_:)` wrapper that answers with the description of the
 * buffer address, and the allocation of new Java strings.
 */
module JniStrings {
  import opened Wrappers
  import opened Jni
  import opened Runtime
  import opened JniErrors

  /** `String(javaString:)`: the UTF buffer is acquired, its release is deferred before the
      exception check, and the decoded buffer is the result. The buffer is released on the
      throwing path as well, so the set of outstanding buffers is as it was.  A reference
      that is not a live string (NULL among them) aborts in `GetStringUTFChars`. */
  method StringFromJavaString(rt: Runtime, javaString: Ref) returns (r: Outcome<string>)
    requires rt.Valid()
    modifies rt`pending, rt`trace, rt`utf
    ensures rt.Valid()
    ensures rt.utf == old(rt.utf)
    ensures r.Trapped? <==> rt.Text(javaString).None?
    ensures r.Success? <==> !old(rt.pending) && rt.Text(javaString).Some?
    ensures r.Success? ==> r.value == rt.Text(javaString).value
    ensures r.Thrown? ==> r.error == JNIError
    ensures r.Trapped? ==> rt.pending == old(rt.pending) && rt.trace == old(rt.trace)
    ensures !r.Trapped? ==> !rt.pending && rt.trace == old(rt.trace) + CheckEvents(r.Thrown?)
  {
    var chars := rt.GetStringUTFChars(javaString);
    if chars.None? {
      return Trapped;
    }
    var check := CheckAndThrowOnJNIError(rt);
    rt.ReleaseStringUTFChars(javaString, chars);
    if check.Thrown? {
      r := Thrown(check.error);
    } else {
      r := Success(chars.value.text);
    }
  }

  /** The lower-case hexadecimal digit of `d`. */
  function HexDigit(d: nat): (c: char)
    requires d < 16
    ensures c in "0123456789abcdef"
  {
    "0123456789abcdef"[d]
  }

  /** The last `width` hexadecimal digits of `n`, zero-padded, most significant first. */
  function Hex(n: nat, width: nat): (s: string)
    ensures |s| == width
    ensures forall i :: 0 <= i < |s| ==> s[i] in "0123456789abcdef"
  {
    if width == 0 then [] else Hex(n / 16, width - 1) + [HexDigit(n % 16)]
  }

  /** The value of a digit string read back in base 16. */
  function HexValue(s: string): nat
  {
    if s == [] then 0 else 16 * HexValue(s[..|s| - 1]) + DigitValue(s[|s| - 1])
  }

  function DigitValue(c: char): nat
  {
    if '0' <= c <= '9' then c as int - '0' as int
    else if 'a' <= c <= 'f' then c as int - 'a' as int + 10
    else 0
  }

  function Power16(k: nat): (p: nat)
    ensures p > 0
  {
    if k == 0 then 1 else 16 * Power16(k - 1)
  }

  /** Reading the digits back gives `n` whenever it fits in `width` digits: nothing is
      lost. */
  lemma {:induction false} HexRoundTrip(n: nat, width: nat)
    requires n < Power16(width)
    ensures HexValue(Hex(n, width)) == n
  {
    if width > 0 {
      var q, d := n / 16, n % 16;
      QuotientBound(n, Power16(width - 1));
      HexRoundTrip(q, width - 1);
      var s := Hex(n, width);
      assert s[..|s| - 1] == Hex(q, width - 1);
      DigitRoundTrip(d);
    }
  }

  lemma QuotientBound(n: nat, k: nat)
    requires n < 16 * k
    ensures n / 16 < k && n == 16 * (n / 16) + n % 16
  {
  }

  lemma DigitRoundTrip(d: nat)
    requires d < 16
    ensures DigitValue(HexDigit(d)) == d
  {
  }

  /** Address width of the host: addresses are 64-bit. */
  const AddressDigits: nat := 16

  /** `String(describing:)` of the buffer address, which the C declaration makes a
      non-optional pointer: "0x" and the address in sixteen hexadecimal digits. */
  function DescribeBuffer(b: Buffer): (s: string)
    ensures |s| == 2 + AddressDigits && s[..2] == "0x"
    ensures forall i :: 2 <= i < |s| ==> s[i] in "0123456789abcdef"
  {
    "0x" + Hex(b.address, AddressDigits)
  }

  /** The digits of the description read back as the buffer's address. */
  lemma {:induction false} DescriptionShowsAddress(b: Buffer)
    requires b.address < Power16(AddressDigits)
    ensures HexValue(DescribeBuffer(b)[2..]) == b.address
  {
    assert DescribeBuffer(b)[2..] == Hex(b.address, AddressDigits);
    HexRoundTrip(b.address, AddressDigits);
  }

  /** `GetStringUTFChars(_:_:)`: the buffer is acquired and never released, and what comes
      back is the description of its address rather than its contents.  A reference that
      is not a live string aborts in the runtime. */
  method GetStringUTFChars(rt: Runtime, javaString: Ref) returns (s: Outcome<string>, ghost chars: Option<Buffer>)
    requires rt.Valid()
    modifies rt`utf
    ensures rt.Valid()
    ensures rt.Text(javaString).Some? ==>
      chars.Some? && s == Success(DescribeBuffer(chars.value)) && chars.value.text == rt.Text(javaString).value &&
      rt.utf == old(rt.utf) + multiset{javaString}
    ensures rt.Text(javaString).None? ==> s == Trapped && rt.utf == old(rt.utf)
  {
    var buffer := rt.GetStringUTFChars(javaString);
    chars := buffer;
    if buffer.None? {
      return Trapped, chars;
    }
    s := Success(DescribeBuffer(buffer.value));
  }

  /** The description depends on the buffer's address only: two buffers at one address
      with different texts are described alike, so the text is never recoverable. */
  lemma {:induction false} DescriptionIgnoresText(address: nat, t1: string, t2: string)
    ensures DescribeBuffer(Buffer(address, t1)) == DescribeBuffer(Buffer(address, t2))
    ensures DescribeBuffer(Buffer(address, t1)) != t1 || |t1| == 2 + AddressDigits
  {
  }

  /** `NewStringUTF(_:)`: a fresh Java string holding `s`; a NULL answer traps on the force
      unwrap. */
  method NewStringUTF(rt: Runtime, s: string) returns (r: Outcome<Ref>)
    requires rt.Valid()
    modifies rt`pending, rt`locals, rt`referent, rt`nextRef, rt`nextObj, rt`heap
    ensures rt.Valid()
    ensures !r.Thrown?
    ensures r.Trapped? ==> rt.pending && rt.heap == old(rt.heap)
    ensures r.Success? ==> rt.Text(r.value) == Some(s) && r.value in rt.locals && r.value !in old(rt.referent)
  {
    var str := rt.NewJavaString(s);
    if str == Null {
      r := Trapped;
    } else {
      r := Success(str);
    }
  }
}
