/**
 * The array helpers of the JNI extension: array length, array creation, the
 * int and byte region readers and writers, the decoding of a String[] and the
 * bounds-checked element read.  The region readers fill a zeroed buffer in
 * place and never check for a pending exception; the others check after the
 * runtime call.
 */
module SwiftJni {
  import opened Jni
  import opened Wrappers
  import opened Runtime
  import opened JniErrors

  /** The boolean literal: true is JNI_TRUE and false is JNI_FALSE. */
  function JavaBooleanLiteral(b: bool): (z: UInt8)
    ensures z == JNI_TRUE || z == JNI_FALSE
    ensures z == JNI_TRUE <==> b
  {
    if b then JNI_TRUE else JNI_FALSE
  }

  /** `GetLength`: the array's length, widened to Int. */
  method GetLength(rt: Runtime, arr: Ref) returns (n: int)
    requires rt.Valid()
    ensures 0 <= n < 0x8000_0000
    ensures n == rt.ArrayLength(arr)
  {
    var len := rt.GetArrayLength(arr);
    n := len as int;
  }

  /** `NewIntArray(count:)`: a count outside 32 bits traps in the conversion; otherwise the
      runtime allocates and the check runs.  A NULL array always comes with an exception,
      so a value that is returned is never nil. */
  method NewIntArray(rt: Runtime, count: int) returns (r: Outcome<Ref>)
    requires rt.Valid()
    modifies rt`pending, rt`trace, rt`locals, rt`referent, rt`nextRef, rt`nextObj, rt`heap
    ensures rt.Valid()
    ensures r.Trapped? <==> !IsInt32(count)
    ensures r.Trapped? ==> rt.SameRefs() && rt.heap == old(rt.heap) && rt.pending == old(rt.pending) && rt.trace == old(rt.trace)
    ensures r.Thrown? ==> r.error == JNIError
    ensures !r.Trapped? ==> !rt.pending && AppendsNoCalls(old(rt.trace), rt.trace)
    ensures r.Success? ==> !old(rt.pending) && 0 <= count && r.value != Null && r.value in rt.referent && rt.NewLocal(r.value, rt.referent[r.value])
    ensures r.Success? ==> rt.Ints(r.value) == Some(seq(count, _ => 0))
    ensures count < 0 ==> !r.Success?
  {
    if !IsInt32(count) {
      return Trapped;
    }
    var arr := rt.NewIntArray(count);
    ghost var raised := rt.pending;
    var check := CheckAndThrowOnJNIError(rt);
    AppendsNoCallsStep(old(rt.trace), old(rt.trace), CheckEvents(raised));
    if check.Thrown? {
      r := Thrown(check.error);
    } else {
      r := Success(arr);
    }
  }

  /** `NewByteArray(count:)`, the same for a byte array. */
  method NewByteArray(rt: Runtime, count: int) returns (r: Outcome<Ref>)
    requires rt.Valid()
    modifies rt`pending, rt`trace, rt`locals, rt`referent, rt`nextRef, rt`nextObj, rt`heap
    ensures rt.Valid()
    ensures r.Trapped? <==> !IsInt32(count)
    ensures r.Trapped? ==> rt.SameRefs() && rt.heap == old(rt.heap) && rt.pending == old(rt.pending) && rt.trace == old(rt.trace)
    ensures r.Thrown? ==> r.error == JNIError
    ensures !r.Trapped? ==> !rt.pending && AppendsNoCalls(old(rt.trace), rt.trace)
    ensures r.Success? ==> !old(rt.pending) && 0 <= count && r.value != Null && r.value in rt.referent && rt.NewLocal(r.value, rt.referent[r.value])
    ensures r.Success? ==> rt.Bytes(r.value) == Some(seq(count, _ => 0))
    ensures count < 0 ==> !r.Success?
  {
    if !IsInt32(count) {
      return Trapped;
    }
    var arr := rt.NewByteArray(count);
    ghost var raised := rt.pending;
    var check := CheckAndThrowOnJNIError(rt);
    AppendsNoCallsStep(old(rt.trace), old(rt.trace), CheckEvents(raised));
    if check.Thrown? {
      r := Thrown(check.error);
    } else {
      r := Success(arr);
    }
  }

  /** The number of elements a region read asks for: a negative `numElements` means the
      whole array. */
  function RegionCount(numElements: int, length: nat): (count: nat)
    ensures numElements < 0 ==> count == length
    ensures 0 <= numElements ==> count == numElements
  {
    if numElements < 0 then length else numElements
  }

  /** The region lies inside the array. */
  predicate InBounds<T>(a: seq<T>, start: int, count: int)
  {
    0 <= start && 0 <= count && start + count <= |a|
  }

  /** `GetIntArrayRegion`: `count` elements from `startIndex`, read into a zero-filled
      buffer.  Outside the array the runtime copies nothing and leaves an exception
      pending, which this helper does not check: the zeros are returned. */
  method GetIntArrayRegion(rt: Runtime, arr: Ref, startIndex: int, numElements: int) returns (r: Outcome<seq<Int32>>)
    requires rt.Valid()
    modifies rt`pending
    ensures var count := RegionCount(numElements, rt.ArrayLength(arr));
      && (r.Trapped? <==> !IsInt32(startIndex) || !IsInt32(count))
      && !r.Thrown?
      && (r.Success? ==> |r.value| == count)
      && (r.Success? && rt.Ints(arr).Some? && InBounds(rt.Ints(arr).value, startIndex, count) ==>
            r.value == rt.Ints(arr).value[startIndex..startIndex + count] && rt.pending == old(rt.pending))
      && (r.Success? && !(rt.Ints(arr).Some? && InBounds(rt.Ints(arr).value, startIndex, count)) ==>
            r.value == seq(count, _ => 0) && rt.pending)
  {
    var length := GetLength(rt, arr);
    var count := RegionCount(numElements, length);
    if !IsInt32(startIndex) || !IsInt32(count) {
      return Trapped;
    }
    var buf := new Int32[count](_ => 0);
    rt.GetIntArrayRegion(arr, startIndex, count, buf);
    r := Success(buf[..]);
  }

  /** The unsigned reading of signed bytes, element by element (`UInt8(bitPattern:)`). */
  function UnsignedBytes(s: seq<Int8>): (u: seq<UInt8>)
    ensures |u| == |s|
    ensures forall i :: 0 <= i < |s| ==> u[i] as int == if s[i] >= 0 then s[i] as int else s[i] as int + 0x100
  {
    seq(|s|, i requires 0 <= i < |s| => ByteBitPattern(s[i]))
  }

  /** `GetByteArrayRegion`: like the int reader, then every byte reinterpreted as unsigned. */
  method GetByteArrayRegion(rt: Runtime, arr: Ref, startIndex: int, numElements: int) returns (r: Outcome<seq<UInt8>>)
    requires rt.Valid()
    modifies rt`pending
    ensures var count := RegionCount(numElements, rt.ArrayLength(arr));
      && (r.Trapped? <==> !IsInt32(startIndex) || !IsInt32(count))
      && !r.Thrown?
      && (r.Success? ==> |r.value| == count)
      && (r.Success? && rt.Bytes(arr).Some? && InBounds(rt.Bytes(arr).value, startIndex, count) ==>
            r.value == UnsignedBytes(rt.Bytes(arr).value[startIndex..startIndex + count]) && rt.pending == old(rt.pending))
      && (r.Success? && !(rt.Bytes(arr).Some? && InBounds(rt.Bytes(arr).value, startIndex, count)) ==>
            r.value == seq(count, _ => 0) && rt.pending)
  {
    var length := GetLength(rt, arr);
    var count := RegionCount(numElements, length);
    if !IsInt32(startIndex) || !IsInt32(count) {
      return Trapped;
    }
    var buf := new Int8[count](_ => 0);
    rt.GetByteArrayRegion(arr, startIndex, count, buf);
    r := Success(UnsignedBytes(buf[..]));
  }

  /** `SetIntArrayRegion`: every element narrowed with a checked conversion, then written
      from `startIndex`; outside the array nothing is written and the exception is left
      pending. */
  method SetIntArrayRegion(rt: Runtime, arr: Ref, startIndex: int, elems: seq<int>) returns (r: Outcome<()>)
    requires rt.Valid()
    modifies rt`heap, rt`pending
    ensures rt.Valid()
    ensures r.Trapped? <==> (exists i :: 0 <= i < |elems| && !IsInt32(elems[i])) || !IsInt32(startIndex) || !IsInt32(|elems|)
    ensures !r.Thrown?
    ensures r.Trapped? ==> rt.heap == old(rt.heap) && rt.pending == old(rt.pending)
    ensures var a := old(rt.Ints(arr));
      r.Success? ==>
        if a.Some? && InBounds(a.value, startIndex, |elems|) then
          rt.Ints(arr) == Some(Splice(a.value, startIndex, elems)) && rt.pending == old(rt.pending)
        else
          rt.heap == old(rt.heap) && rt.pending
  {
    if exists i :: 0 <= i < |elems| && !IsInt32(elems[i]) {
      return Trapped;
    }
    var converted: seq<Int32> := seq(|elems|, i requires 0 <= i < |elems| => elems[i] as Int32);
    if !IsInt32(startIndex) || !IsInt32(|elems|) {
      return Trapped;
    }
    assert converted == elems;
    rt.SetIntArrayRegion(arr, startIndex, converted);
    r := Success(());
  }

  /** The checked conversion `JavaByte(UInt8)` applied to every byte: it fails as soon as
      one byte is 128 or more. */
  function CheckedBytes(s: seq<UInt8>): (r: Option<seq<Int8>>)
    ensures r.Some? <==> forall i :: 0 <= i < |s| ==> s[i] < 0x80
    ensures r.Some? ==> r.value == s
  {
    if forall i :: 0 <= i < |s| ==> s[i] < 0x80 then Some(seq(|s|, i requires 0 <= i < |s| => s[i] as Int8)) else None
  }

  /** The signed reading of unsigned bytes, element by element (`Int8(bitPattern:)`). */
  function SignedBytes(s: seq<UInt8>): (b: seq<Int8>)
    ensures |b| == |s|
    ensures forall i :: 0 <= i < |s| ==> b[i] as int == if s[i] < 0x80 then s[i] as int else s[i] as int - 0x100
  {
    seq(|s|, i requires 0 <= i < |s| => SignedByteBitPattern(s[i]))
  }

  /** Reading bytes back after writing them by bit pattern gives the original bytes, and
      the other way round. */
  lemma {:induction false} ByteRegionRoundTrip(u: seq<UInt8>, b: seq<Int8>)
    ensures UnsignedBytes(SignedBytes(u)) == u
    ensures SignedBytes(UnsignedBytes(b)) == b
  {
    forall i | 0 <= i < |u|
      ensures UnsignedBytes(SignedBytes(u))[i] == u[i]
    {
      ByteBitPatternRoundTrip(u[i], 0);
    }
    forall i | 0 <= i < |b|
      ensures SignedBytes(UnsignedBytes(b))[i] == b[i]
    {
      ByteBitPatternRoundTrip(0, b[i]);
    }
  }

  /** A region written by the corrected setter reads back as the bytes written. */
  lemma {:induction false} ByteRegionWriteThenRead(a: seq<Int8>, start: nat, u: seq<UInt8>)
    requires start + |u| <= |a|
    ensures UnsignedBytes(Splice(a, start, SignedBytes(u))[start..start + |u|]) == u
  {
    var w := Splice(a, start, SignedBytes(u));
    assert w[start..start + |u|] == SignedBytes(u);
    ByteRegionRoundTrip(u, []);
  }

  /** The checked conversion of the setter as written rejects a byte the getter returns:
      the signed byte -56 reads as 200, and 200 cannot be written back. */
  lemma ByteRegionAsWrittenRejectsHighBytes()
    ensures UnsignedBytes([-56]) == [200]
    ensures CheckedBytes([200]).None?
  {
    var high: seq<UInt8> := [200];
    assert !(high[0] < 0x80);
  }

  /** `SetByteArrayRegion` as written: the bytes pass through the checked `JavaByte(UInt8)`
      conversion, which traps on any byte of 128 or more. */
  method SetByteArrayRegionAsWritten(rt: Runtime, arr: Ref, startIndex: int, src: seq<UInt8>) returns (r: Outcome<()>)
    requires rt.Valid()
    modifies rt`heap, rt`pending
    ensures rt.Valid()
    ensures r.Trapped? <==> CheckedBytes(src).None? || !IsInt32(startIndex) || !IsInt32(|src|)
    ensures !r.Thrown?
    ensures r.Trapped? ==> rt.heap == old(rt.heap) && rt.pending == old(rt.pending)
    ensures var a := old(rt.Bytes(arr));
      r.Success? ==>
        if a.Some? && InBounds(a.value, startIndex, |src|) then
          rt.Bytes(arr) == Some(Splice(a.value, startIndex, CheckedBytes(src).value)) && rt.pending == old(rt.pending)
        else
          rt.heap == old(rt.heap) && rt.pending
  {
    var checked := CheckedBytes(src);
    if checked.None? || !IsInt32(startIndex) || !IsInt32(|src|) {
      return Trapped;
    }
    rt.SetByteArrayRegion(arr, startIndex, checked.value);
    r := Success(());
  }

  /** `SetByteArrayRegion` corrected: every byte reinterpreted by bit pattern, so that any
      byte the getter returns can be written back. */
  method SetByteArrayRegion(rt: Runtime, arr: Ref, startIndex: int, src: seq<UInt8>) returns (r: Outcome<()>)
    requires rt.Valid()
    modifies rt`heap, rt`pending
    ensures rt.Valid()
    ensures r.Trapped? <==> !IsInt32(startIndex) || !IsInt32(|src|)
    ensures !r.Thrown?
    ensures r.Trapped? ==> rt.heap == old(rt.heap) && rt.pending == old(rt.pending)
    ensures var a := old(rt.Bytes(arr));
      r.Success? ==>
        if a.Some? && InBounds(a.value, startIndex, |src|) then
          rt.Bytes(arr) == Some(Splice(a.value, startIndex, SignedBytes(src))) && rt.pending == old(rt.pending)
        else
          rt.heap == old(rt.heap) && rt.pending
  {
    if !IsInt32(startIndex) || !IsInt32(|src|) {
      return Trapped;
    }
    rt.SetByteArrayRegion(arr, startIndex, SignedBytes(src));
    r := Success(());
  }

  /** The element is a non-null reference to a string. */
  predicate IsString(h: Heap, e: Option<Obj>)
  {
    e.Some? && e.value in h.strings
  }

  /** The element at `i` of an object array's elements, if any; None for a null element
      or an index outside the array. */
  function At(es: Option<seq<Option<Obj>>>, i: int): Option<Obj>
  {
    if es.Some? && 0 <= i < |es.value| then es.value[i] else None
  }

  /** The texts of a String[]: one per element, in index order, when every element is a
      string; an empty array of any kind has none. */
  function ElementTexts(rt: Runtime, arr: Ref): (texts: Option<seq<string>>)
    requires rt.Valid()
    reads rt`locals, rt`globals, rt`referent, rt`heap, rt`nextRef, rt`nextObj
    ensures texts.Some? ==> |texts.value| == rt.ArrayLength(arr)
    ensures texts.Some? <==> forall j :: 0 <= j < rt.ArrayLength(arr) ==> IsString(rt.heap, At(rt.Elements(arr), j))
    ensures texts.Some? ==> forall j :: 0 <= j < rt.ArrayLength(arr) ==> texts.value[j] == rt.heap.strings[At(rt.Elements(arr), j).value]
  {
    var n := rt.ArrayLength(arr);
    var es := rt.Elements(arr);
    var h := rt.heap;
    if forall j :: 0 <= j < n ==> IsString(h, At(es, j)) then
      Some(seq(n, j requires 0 <= j < n && IsString(h, At(es, j)) => h.strings[At(es, j).value]))
    else
      None
  }

  /** `out` holds the texts of the first |out| elements, each of which is a string. */
  ghost predicate Decoded(h: Heap, es: Option<seq<Option<Obj>>>, out: seq<string>)
  {
    forall j :: 0 <= j < |out| ==> IsString(h, At(es, j)) && out[j] == h.strings[At(es, j).value]
  }

  lemma {:induction false} DecodedSnoc(h: Heap, es: Option<seq<Option<Obj>>>, out: seq<string>, s: string)
    requires Decoded(h, es, out)
    requires IsString(h, At(es, |out|)) && s == h.strings[At(es, |out|).value]
    ensures Decoded(h, es, out + [s])
  {
    var out' := out + [s];
    forall j | 0 <= j < |out'|
      ensures IsString(h, At(es, j)) && out'[j] == h.strings[At(es, j).value]
    {
      if j < |out| {
        assert out'[j] == out[j];
      }
    }
  }

  /** The first half of one step of `GetStrings(from:)`: the element as a new local
      reference (NULL for a null element or outside the array) and its UTF buffer, which
      exists exactly when the element is a string; `None` is the runtime's abort. */
  method AcquireElementChars(rt: Runtime, arr: Ref, i: Int32, ghost o: Option<Obj>) returns (e: Ref, chars: Option<Buffer>)
    requires rt.Valid() && 0 <= i && o == At(rt.Elements(arr), i)
    modifies rt`pending, rt`locals, rt`referent, rt`nextRef, rt`utf
    ensures rt.Valid()
    ensures rt.NewLocalOrNull(e)
    ensures rt.Elements(arr) == old(rt.Elements(arr)) && rt.Ints(arr) == old(rt.Ints(arr)) && rt.Bytes(arr) == old(rt.Bytes(arr))
    ensures IsString(rt.heap, o) ==>
      chars.Some? && chars.value.text == rt.heap.strings[o.value] && e != Null &&
      rt.utf == old(rt.utf) + multiset{e} && rt.pending == old(rt.pending)
    ensures !IsString(rt.heap, o) ==> chars.None? && rt.utf == old(rt.utf)
  {
    e := rt.GetObjectArrayElement(arr, i);
    chars := rt.GetStringUTFChars(e);
  }

  /** The second half of one step of `GetStrings(from:)`: the exception check, and only
      after it the release of the buffer, so that a throwing check leaves the buffer
      outstanding. */
  method CheckThenRelease(rt: Runtime, e: Ref, chars: Option<Buffer>) returns (r: Outcome<string>)
    requires rt.Valid()
    modifies rt`pending, rt`trace, rt`utf
    ensures rt.Valid()
    ensures !rt.pending
    ensures r.Success? <==> !old(rt.pending) && chars.Some?
    ensures r.Trapped? <==> !old(rt.pending) && chars.None?
    ensures r.Success? ==> r.value == chars.value.text && rt.utf == old(rt.utf) - multiset{e}
    ensures r.Thrown? ==> r.error == JNIError
    ensures !r.Success? ==> rt.utf == old(rt.utf)
    ensures AppendsNoCalls(old(rt.trace), rt.trace)
  {
    ghost var raised := rt.pending;
    var check := CheckAndThrowOnJNIError(rt);
    AppendsNoCallsStep(old(rt.trace), old(rt.trace), CheckEvents(raised));
    if check.Thrown? {
      return Thrown(check.error);
    }
    if chars.None? {
      return Trapped;
    }
    rt.ReleaseStringUTFChars(e, chars);
    r := Success(chars.value.text);
  }

  /** One step of `GetStrings(from:)`: acquire the element and its buffer, check, and only
      then release the buffer.  An element that is not a string (a null element among
      them) aborts in `GetStringUTFChars`; a string is decoded exactly when nothing was
      pending, and when the check throws instead its buffer stays outstanding.  The
      element reference is never deleted. */
  method StringElement(rt: Runtime, arr: Ref, i: Int32, ghost o: Option<Obj>) returns (r: Outcome<string>, ghost e: Ref)
    requires rt.Valid() && 0 <= i && o == At(rt.Elements(arr), i)
    modifies rt`pending, rt`trace, rt`locals, rt`referent, rt`nextRef, rt`utf
    ensures rt.Valid()
    ensures rt.NewLocalOrNull(e)
    ensures rt.Elements(arr) == old(rt.Elements(arr)) && rt.Ints(arr) == old(rt.Ints(arr)) && rt.Bytes(arr) == old(rt.Bytes(arr))
    ensures r.Trapped? <==> !IsString(rt.heap, o)
    ensures r.Success? <==> !old(rt.pending) && IsString(rt.heap, o)
    ensures r.Success? ==> r.value == rt.heap.strings[o.value] && rt.utf == old(rt.utf)
    ensures r.Thrown? ==> r.error == JNIError && rt.utf == old(rt.utf) + multiset{e} && e == rt.nextRef - 1
    ensures r.Trapped? ==> rt.utf == old(rt.utf)
    ensures IsString(rt.heap, o) ==> e != Null
    ensures !r.Trapped? ==> !rt.pending
    ensures AppendsNoCalls(old(rt.trace), rt.trace)
  {
    var elem, chars := AcquireElementChars(rt, arr, i, o);
    e := elem;
    if chars.None? {
      AppendsNoCallsStep(old(rt.trace), old(rt.trace), []);
      return Trapped, e;
    }
    r := CheckThenRelease(rt, elem, chars);
  }

  /** The loop of `GetStrings(from:)` over indices 0 to `count - 1` of an array whose
      elements are `es`: it stops at the first index whose step throws or aborts.  Only
      the first step can throw, as every later one runs after a passing check. */
  method StringElements(rt: Runtime, arr: Ref, count: Int32, ghost es: Option<seq<Option<Obj>>>) returns (r: Outcome<seq<string>>)
    requires rt.Valid() && 0 <= count && rt.Elements(arr) == es
    modifies rt`pending, rt`trace, rt`locals, rt`referent, rt`nextRef, rt`utf
    ensures rt.Valid()
    ensures r.Success? <==> (count == 0 || !old(rt.pending)) && forall j :: 0 <= j < count ==> IsString(rt.heap, At(es, j))
    ensures r.Success? ==> |r.value| == count && forall j :: 0 <= j < count ==> r.value[j] == rt.heap.strings[At(es, j).value]
    ensures r.Success? ==> rt.utf == old(rt.utf) && rt.nextRef == old(rt.nextRef) + count
    ensures r.Thrown? <==> count > 0 && old(rt.pending) && IsString(rt.heap, At(es, 0))
    ensures r.Thrown? ==> r.error == JNIError && !rt.pending && rt.utf == old(rt.utf) + multiset{old(rt.nextRef)}
    ensures r.Trapped? ==> rt.utf == old(rt.utf) && exists j :: 0 <= j < count && !IsString(rt.heap, At(es, j))
    ensures old(rt.locals) <= rt.locals && rt.globals == old(rt.globals)
    ensures rt.Elements(arr) == es && rt.Ints(arr) == old(rt.Ints(arr)) && rt.Bytes(arr) == old(rt.Bytes(arr))
    ensures AppendsNoCalls(old(rt.trace), rt.trace)
  {
    ghost var h := rt.heap;
    var out: seq<string> := [];
    var i: Int32 := 0;
    while i < count
      invariant 0 <= i <= count && |out| == i as int
      invariant rt.Valid() && rt.Elements(arr) == es
      invariant rt.Ints(arr) == old(rt.Ints(arr)) && rt.Bytes(arr) == old(rt.Bytes(arr))
      invariant old(rt.locals) <= rt.locals && rt.globals == old(rt.globals)
      invariant rt.utf == old(rt.utf) && rt.nextRef == old(rt.nextRef) + i as int
      invariant i > 0 ==> !rt.pending && !old(rt.pending) && AppendsNoCalls(old(rt.trace), rt.trace)
      invariant i == 0 ==> rt.pending == old(rt.pending) && rt.trace == old(rt.trace)
      invariant Decoded(h, es, out)
    {
      ghost var trace1 := rt.trace;
      var s, e := StringElement(rt, arr, i, At(es, i as int));
      if i > 0 {
        AppendsNoCallsTrans(old(rt.trace), trace1, rt.trace);
      }
      if s.Thrown? {
        return Thrown(s.error);
      }
      if s.Trapped? {
        return Trapped;
      }
      DecodedSnoc(h, es, out, s.value);
      out := out + [s.value];
      i := i + 1;
    }
    r := Success(out);
  }

  /** `GetStrings(from:)`: one string per index of the array, in index order.  It
      succeeds exactly when every element is a string (or the array is empty, where no
      check runs) and nothing was pending, with their texts; every buffer is then released,
      but the element references are never deleted.  It throws exactly when an exception
      was already pending and the first element is a string, and that first buffer is
      never released.  An element that is not a string aborts the runtime. */
  method GetStrings(rt: Runtime, arr: Ref) returns (r: Outcome<seq<string>>)
    requires rt.Valid()
    modifies rt`pending, rt`trace, rt`locals, rt`referent, rt`nextRef, rt`utf
    ensures rt.Valid()
    ensures r.Success? <==> old(ElementTexts(rt, arr)).Some? && (old(rt.ArrayLength(arr)) == 0 || !old(rt.pending))
    ensures r.Success? ==> r.value == old(ElementTexts(rt, arr)).value
    ensures r.Success? ==> rt.utf == old(rt.utf) && rt.nextRef == old(rt.nextRef) + |r.value|
    ensures r.Thrown? <==> old(rt.pending) && IsString(rt.heap, At(old(rt.Elements(arr)), 0))
    ensures r.Thrown? ==> r.error == JNIError && !rt.pending && rt.utf == old(rt.utf) + multiset{old(rt.nextRef)}
    ensures r.Trapped? ==> old(ElementTexts(rt, arr)).None? && rt.utf == old(rt.utf)
    ensures old(rt.locals) <= rt.locals && rt.globals == old(rt.globals)
    ensures ElementTexts(rt, arr) == old(ElementTexts(rt, arr))
    ensures AppendsNoCalls(old(rt.trace), rt.trace)
  {
    var count := rt.GetArrayLength(arr);
    ghost var texts := ElementTexts(rt, arr);
    r := StringElements(rt, arr, count, rt.Elements(arr));
    if r.Success? {
      assert texts.Some? && |texts.value| == |r.value|;
      forall j | 0 <= j < |r.value|
        ensures texts.value[j] == r.value[j]
      {
      }
    }
  }

  /** `GetObjectArrayElement(in:at:)`: an index at or past the length throws a JNIError
      (whose construction describes and clears) before the element is fetched; a negative
      index is not rejected here, so the runtime raises and the check throws.  A NULL
      element traps on the force unwrap. */
  method GetObjectArrayElementAt(rt: Runtime, arr: Ref, index: int) returns (r: Outcome<Ref>)
    requires rt.Valid()
    modifies rt`pending, rt`trace, rt`locals, rt`referent, rt`nextRef
    ensures rt.Valid()
    ensures index >= old(rt.ArrayLength(arr)) ==>
      r == Thrown(JNIError) && rt.SameRefs() && !rt.pending && rt.trace == old(rt.trace) + [Described, Cleared]
    ensures r.Thrown? ==> r.error == JNIError && !rt.pending
    ensures r.Trapped? ==> index < -0x8000_0000 || (old(rt.Elements(arr)).Some? && 0 <= index < |old(rt.Elements(arr)).value| && old(rt.Elements(arr)).value[index].None?)
    ensures r.Success? ==> !old(rt.pending) && old(rt.Elements(arr)).Some? && 0 <= index < |old(rt.Elements(arr)).value|
    ensures var es := old(rt.Elements(arr));
      es.Some? && 0 <= index < |es.value| && !old(rt.pending) ==>
        if es.value[index].Some? then r.Success? && rt.NewLocal(r.value, es.value[index].value) else r.Trapped?
    ensures -0x8000_0000 <= index < 0 ==> r == Thrown(JNIError)
    ensures AppendsNoCalls(old(rt.trace), rt.trace)
  {
    var count := GetLength(rt, arr);
    if index >= count {
      var e := MakeJNIError(rt);
      AppendsNoCallsStep(old(rt.trace), old(rt.trace), [Described, Cleared]);
      return Thrown(e);
    }
    if !IsInt32(index) {
      AppendsNoCallsStep(old(rt.trace), old(rt.trace), []);
      return Trapped;
    }
    var obj := rt.GetObjectArrayElement(arr, index);
    ghost var raised := rt.pending;
    var check := CheckAndThrowOnJNIError(rt);
    AppendsNoCallsStep(old(rt.trace), old(rt.trace), CheckEvents(raised));
    if check.Thrown? {
      r := Thrown(check.error);
    } else if obj == Null {
      r := Trapped;
    } else {
      r := Success(obj);
    }
  }
}
