/**
 * The public call API of the JNI module: `call` and `callStatic`.  Each overload
 * builds the method descriptor from the arguments and the return type, resolves
 * the method with it, converts the arguments to `jvalue`s and then makes the
 * call through a wrapper that checks for a pending exception.  The static lookup
 * and the instance object call are the ones the program has: a missing static
 * method throws InvalidMethodID with the runtime's exception still pending, and
 * an instance method returning an object that raises traps on the unwrap before
 * the check.
 */
module JniCalls {
  import opened Jni
  import opened Wrappers
  import opened Runtime
  import opened JniErrors
  import opened Convertible
  import opened Signature
  import opened JniMethods
  import opened Marshalling
  import opened SwiftJni

  /** The last two runtime events are the call of `mid` on `target` with `params` and a
      check that found nothing pending. */
  ghost predicate EndsWithCheckedCall(t: seq<Event>, isStatic: bool, target: Ref, mid: MethodId, params: seq<JValue>)
  {
    |t| >= 2 && t[|t| - 2..] == [Invoked(isStatic, target, mid, params), Checked(false)]
  }

  /** The static method `name` with descriptor `sig` of the class `cls` refers to. */
  function StaticTarget(rt: Runtime, cls: Ref, name: string, sig: string): MethodId
    reads rt`locals, rt`globals, rt`referent
  {
    rt.MemberId(StaticMethods, cls, name, sig)
  }

  /** The instance method `name` with descriptor `sig` of the class of `obj`; NULL when the
      object's class is unknown. */
  function InstanceTarget(rt: Runtime, obj: Ref, name: string, sig: string): MethodId
    reads rt`locals, rt`globals, rt`referent, rt`heap
  {
    match rt.ClassOf(obj)
    case Some(c) => rt.Lookup(InstanceMethods, c, name, sig)
    case None => 0
  }

  /** Resolving and marshalling a static call: the method is looked up with `sig`, then
      the arguments are converted.  A missing method throws InvalidMethodID before any
      check, so the runtime's NoSuchMethodError stays pending; an exception pending before
      a lookup that succeeds is thrown as a JNIError. */
  method PrepareStatic(rt: Runtime, cls: Ref, name: string, sig: string, args: seq<JavaValue>)
    returns (r: Outcome<(MethodId, seq<JValue>)>)
    requires rt.Valid()
    modifies rt`pending, rt`trace, rt`locals, rt`referent, rt`nextRef, rt`nextObj, rt`heap
    ensures rt.Valid()
    ensures var id := old(StaticTarget(rt, cls, name, sig));
      (id == 0 ==> r == Thrown(InvalidMethodID) && rt.pending) &&
      (old(rt.pending) && id != 0 ==> r == Thrown(JNIError)) &&
      (r.Success? ==> r.value.0 == id != 0 && |r.value.1| == |args| && !rt.pending)
    ensures r.Thrown? ==> r.error == (if rt.pending then InvalidMethodID else JNIError)
    ensures rt.globals == old(rt.globals) && old(rt.locals) <= rt.locals
    ensures AppendsNoCalls(old(rt.trace), rt.trace)
  {
    var id := GetStaticMethodIDAsWritten(rt, cls, name, sig);
    if !id.Success? {
      r := if id.Thrown? then Thrown(id.error) else Trapped;
      return;
    }
    var params := AsJavaParameters(rt, args);
    if params.Trapped? {
      r := Trapped;
      return;
    }
    r := Success((id.value, params.value));
  }

  /** The same for an instance call, the method being looked up on the class of the
      object. */
  method PrepareInstance(rt: Runtime, obj: Ref, name: string, sig: string, args: seq<JavaValue>)
    returns (r: Outcome<(MethodId, seq<JValue>)>)
    requires rt.Valid()
    modifies rt`pending, rt`trace, rt`locals, rt`referent, rt`nextRef, rt`nextObj, rt`heap
    ensures rt.Valid()
    ensures var id := old(InstanceTarget(rt, obj, name, sig));
      (old(rt.pending) ==> r == Thrown(JNIError)) &&
      (old(rt.ClassOf(obj)).Some? && id == 0 ==> r == Thrown(JNIError)) &&
      (r.Success? ==> r.value.0 == id != 0 && |r.value.1| == |args| && !rt.pending)
    ensures r.Thrown? ==> r.error == JNIError && !rt.pending
    ensures rt.globals == old(rt.globals) && old(rt.locals) <= rt.locals
    ensures Extends(old(rt.referent), rt.referent)
    ensures AppendsNoCalls(old(rt.trace), rt.trace)
  {
    var id := GetMethodIDFor(rt, obj, name, sig);
    if !id.Success? {
      r := if id.Thrown? then Thrown(id.error) else Trapped;
      return;
    }
    var params := AsJavaParameters(rt, args);
    if params.Trapped? {
      r := Trapped;
      return;
    }
    r := Success((id.value, params.value));
  }

  /** `callStatic(_:on:arguments:)`: a void static method with descriptor "(args)V". */
  method CallStaticVoid(rt: Runtime, name: string, cls: Ref, args: seq<JavaValue>)
    returns (r: Outcome<()>, ghost mid: MethodId, ghost params: seq<JValue>)
    requires rt.Valid()
    modifies rt`pending, rt`trace, rt`locals, rt`referent, rt`nextRef, rt`nextObj, rt`heap
    ensures rt.Valid()
    ensures var id := old(StaticTarget(rt, cls, name, MethodSignature(args, None)));
      (id == 0 ==> r == Thrown(InvalidMethodID) && rt.pending) &&
      (old(rt.pending) && id != 0 ==> r == Thrown(JNIError)) &&
      (r.Success? ==> mid == id != 0 && |params| == |args| && EndsWithCheckedCall(rt.trace, true, cls, mid, params))
    ensures r.Thrown? ==> r.error == (if rt.pending then InvalidMethodID else JNIError)
    ensures CallsChecked(old(rt.trace)) ==> CallsChecked(rt.trace)
  {
    mid, params := 0, [];
    var p := PrepareStatic(rt, cls, name, MethodSignature(args, None), args);
    AppendsNoCallsKeepsChecked(old(rt.trace), rt.trace);
    if !p.Success? {
      r := if p.Thrown? then Thrown(p.error) else Trapped;
      return;
    }
    var id, ps := p.value.0, p.value.1;
    mid, params := id, ps;
    var c := CallMethod(rt, None, true, cls, id, ps);
    r := if c.Thrown? then Thrown(c.error) else Success(());
  }

  /** `callStatic<T>(_:on:arguments:)`: the descriptor's return part is T's tag, and the
      result is read by T's `fromStaticMethod`. */
  method CallStatic(rt: Runtime, name: string, cls: Ref, args: seq<JavaValue>, t: JavaType)
    returns (r: Outcome<JavaValue>, ghost mid: MethodId, ghost params: seq<JValue>)
    requires rt.Valid()
    modifies rt`pending, rt`trace, rt`locals, rt`referent, rt`nextRef, rt`nextObj, rt`heap
    ensures rt.Valid()
    ensures var id := old(StaticTarget(rt, cls, name, MethodSignature(args, Some(t))));
      (id == 0 ==> r == Thrown(InvalidMethodID) && rt.pending) &&
      (old(rt.pending) && id != 0 ==> r == Thrown(JNIError)) &&
      (r.Success? ==> mid == id != 0 && |params| == |args| && EndsWithCheckedCall(rt.trace, true, cls, mid, params))
    ensures r.Success? ==> TypeOf(r.value) == t
    ensures r.Thrown? ==> r.error == (if rt.pending then InvalidMethodID else JNIError)
    ensures CallsChecked(old(rt.trace)) ==> CallsChecked(rt.trace)
  {
    mid, params := 0, [];
    var p := PrepareStatic(rt, cls, name, MethodSignature(args, Some(t)), args);
    AppendsNoCallsKeepsChecked(old(rt.trace), rt.trace);
    if !p.Success? {
      r := if p.Thrown? then Thrown(p.error) else Trapped;
      return;
    }
    var id, ps := p.value.0, p.value.1;
    mid, params := id, ps;
    ghost var raw, raised;
    r, raw, raised := FromCall(rt, t, true, cls, id, ps);
  }

  /** The return descriptor of the `returningObjectType:` overloads: "L" + the class name
      + ";", whose dots `methodSignature(customReturnType:)` turns into slashes. */
  function ObjectReturn(objectType: string): string
  {
    "L" + objectType + ";"
  }

  /** The descriptor of a `returningObjectType:` call ends in the normalised class name. */
  lemma {:induction false} ObjectReturnSignature(args: seq<JavaValue>, objectType: string)
    ensures MethodSignatureCustom(args, ObjectReturn(objectType)) ==
      "(" + ArgumentSignature(args) + ")L" + ReplacingFullstopsWithSlashes(objectType) + ";"
  {
    ReplacingAppend("L", objectType);
    ReplacingAppend("L" + objectType, ";");
    assert ReplacingFullstopsWithSlashes("L") == "L";
    assert ReplacingFullstopsWithSlashes(";") == ";";
    assert ReplacingFullstopsWithSlashes("L" + objectType) == "L" + ReplacingFullstopsWithSlashes(objectType);
  }

  /** `callStatic(_:on:arguments:returningObjectType:)`: a non-null object from
      `CallStaticObjectMethod`, whose check comes before the unwrap. */
  method CallStaticReturningObject(rt: Runtime, name: string, cls: Ref, args: seq<JavaValue>, objectType: string)
    returns (r: Outcome<Ref>, ghost mid: MethodId, ghost params: seq<JValue>)
    requires rt.Valid()
    modifies rt`pending, rt`trace, rt`locals, rt`referent, rt`nextRef, rt`nextObj, rt`heap
    ensures rt.Valid()
    ensures var id := old(StaticTarget(rt, cls, name, MethodSignatureCustom(args, ObjectReturn(objectType))));
      (id == 0 ==> r == Thrown(InvalidMethodID) && rt.pending) &&
      (old(rt.pending) && id != 0 ==> r == Thrown(JNIError)) &&
      (r.Success? ==> mid == id != 0 && |params| == |args| && EndsWithCheckedCall(rt.trace, true, cls, mid, params))
    ensures r.Success? ==> r.value != Null && r.value in rt.locals
    ensures r.Thrown? ==> r.error == (if rt.pending then InvalidMethodID else JNIError)
    ensures CallsChecked(old(rt.trace)) ==> CallsChecked(rt.trace)
  {
    mid, params := 0, [];
    var p := PrepareStatic(rt, cls, name, MethodSignatureCustom(args, ObjectReturn(objectType)), args);
    AppendsNoCallsKeepsChecked(old(rt.trace), rt.trace);
    if !p.Success? {
      r := if p.Thrown? then Thrown(p.error) else Trapped;
      return;
    }
    var id, ps := p.value.0, p.value.1;
    mid, params := id, ps;
    ghost var raised, result;
    r, raised, result := CallObjectMethod(rt, true, cls, id, ps);
  }

  /** `call(_:on:arguments:)`: a void instance method with descriptor "(args)V", looked up
      on the object's class. */
  method CallVoid(rt: Runtime, name: string, obj: Ref, args: seq<JavaValue>)
    returns (r: Outcome<()>, ghost mid: MethodId, ghost params: seq<JValue>)
    requires rt.Valid()
    modifies rt`pending, rt`trace, rt`locals, rt`referent, rt`nextRef, rt`nextObj, rt`heap
    ensures rt.Valid()
    ensures var id := old(InstanceTarget(rt, obj, name, MethodSignature(args, None)));
      (old(rt.pending) ==> r == Thrown(JNIError)) &&
      (old(rt.ClassOf(obj)).Some? && id == 0 ==> r == Thrown(JNIError)) &&
      (r.Success? ==> mid == id != 0 && |params| == |args| && EndsWithCheckedCall(rt.trace, false, obj, mid, params))
    ensures r.Thrown? ==> r.error == JNIError
    ensures CallsChecked(old(rt.trace)) ==> CallsChecked(rt.trace)
  {
    mid, params := 0, [];
    var p := PrepareInstance(rt, obj, name, MethodSignature(args, None), args);
    AppendsNoCallsKeepsChecked(old(rt.trace), rt.trace);
    if !p.Success? {
      r := if p.Thrown? then Thrown(p.error) else Trapped;
      return;
    }
    var id, ps := p.value.0, p.value.1;
    mid, params := id, ps;
    var c := CallMethod(rt, None, false, obj, id, ps);
    r := if c.Thrown? then Thrown(c.error) else Success(());
  }

  /** `call<T>(_:on:arguments:)`: T's tag as the return descriptor, T's `fromMethod` for
      the result.  `raised` says whether the Java method left an exception pending: for
      an object or String result that traps, for a primitive one it is thrown. */
  method Call(rt: Runtime, name: string, obj: Ref, args: seq<JavaValue>, t: JavaType)
    returns (r: Outcome<JavaValue>, ghost mid: MethodId, ghost params: seq<JValue>, ghost raised: bool)
    requires rt.Valid()
    modifies rt`pending, rt`trace, rt`locals, rt`referent, rt`nextRef, rt`nextObj, rt`heap
    ensures rt.Valid()
    ensures var id := old(InstanceTarget(rt, obj, name, MethodSignature(args, Some(t))));
      (old(rt.pending) ==> r == Thrown(JNIError)) &&
      (old(rt.ClassOf(obj)).Some? && id == 0 ==> r == Thrown(JNIError)) &&
      (r.Success? ==> mid == id != 0 && |params| == |args| && EndsWithCheckedCall(rt.trace, false, obj, mid, params))
    ensures r.Success? ==> TypeOf(r.value) == t && !raised
    ensures r.Thrown? ==> r.error == JNIError && !rt.pending
    ensures raised ==> if KindOf(t) == ObjectKind then r.Trapped? && rt.pending else r == Thrown(JNIError)
    ensures CallsChecked(old(rt.trace)) && (KindOf(t) != ObjectKind || !r.Trapped?) ==> CallsChecked(rt.trace)
  {
    mid, params, raised := 0, [], false;
    var p := PrepareInstance(rt, obj, name, MethodSignature(args, Some(t)), args);
    AppendsNoCallsKeepsChecked(old(rt.trace), rt.trace);
    if !p.Success? {
      r := if p.Thrown? then Thrown(p.error) else Trapped;
      return;
    }
    var id, ps := p.value.0, p.value.1;
    mid, params := id, ps;
    ghost var raw;
    r, raw, raised := FromCall(rt, t, false, obj, id, ps);
  }

  /** `call(_:on:arguments:returningObjectType:)`: `CallObjectMethod` as written, so a
      Java method that raises (`raised`) traps with its exception still pending. */
  method CallReturningObject(rt: Runtime, name: string, obj: Ref, args: seq<JavaValue>, objectType: string)
    returns (r: Outcome<Ref>, ghost mid: MethodId, ghost params: seq<JValue>, ghost raised: bool)
    requires rt.Valid()
    modifies rt`pending, rt`trace, rt`locals, rt`referent, rt`nextRef, rt`nextObj, rt`heap
    ensures rt.Valid()
    ensures var id := old(InstanceTarget(rt, obj, name, MethodSignatureCustom(args, ObjectReturn(objectType))));
      (old(rt.pending) ==> r == Thrown(JNIError)) &&
      (old(rt.ClassOf(obj)).Some? && id == 0 ==> r == Thrown(JNIError)) &&
      (r.Success? ==> mid == id != 0 && |params| == |args| && EndsWithCheckedCall(rt.trace, false, obj, mid, params))
    ensures r.Success? ==> r.value != Null && r.value in rt.locals && !raised
    ensures r.Thrown? ==> r.error == JNIError && !rt.pending
    ensures raised ==> r.Trapped? && rt.pending
    ensures CallsChecked(old(rt.trace)) && !r.Trapped? ==> CallsChecked(rt.trace)
  {
    mid, params, raised := 0, [], false;
    var p := PrepareInstance(rt, obj, name, MethodSignatureCustom(args, ObjectReturn(objectType)), args);
    AppendsNoCallsKeepsChecked(old(rt.trace), rt.trace);
    if !p.Success? {
      r := if p.Thrown? then Thrown(p.error) else Trapped;
      return;
    }
    var id, ps := p.value.0, p.value.1;
    mid, params := id, ps;
    ghost var result;
    r, raised, result := CallObjectMethodAsWritten(rt, obj, id, ps);
  }

  /** The return descriptor of the String-array overload: "[" + String's tag. */
  const StringArrayReturn: string := "[" + Tag(StringType)

  /** The resolved half of `call(_:on:with:)`: `CallObjectMethod` as written, then
      `GetStrings` on the array `arr` it returned (NULL when none came back).  `called`
      is the trace up to the check after the Java call; only steps without calls follow
      it.  After a passing check nothing is pending, so the decoding cannot throw. */
  method CallDecodingStrings(rt: Runtime, obj: Ref, mid: MethodId, params: seq<JValue>)
    returns (r: Outcome<seq<string>>, ghost arr: Ref, ghost called: seq<Event>, ghost raised: bool)
    requires rt.Valid()
    modifies rt`pending, rt`trace, rt`locals, rt`referent, rt`nextRef, rt`nextObj, rt`utf
    ensures rt.Valid()
    ensures old(rt.pending) ==> raised
    ensures r.Success? ==>
      && arr in rt.locals && ElementTexts(rt, arr) == Some(r.value) && !raised && rt.utf == old(rt.utf)
      && EndsWithCheckedCall(called, false, obj, mid, params) && AppendsNoCalls(called, rt.trace)
    ensures r.Thrown? ==> r.error == JNIError && !rt.pending && rt.utf == old(rt.utf) && arr == Null
    ensures r.Trapped? && arr != Null ==>
      arr in rt.locals && ElementTexts(rt, arr).None? && !raised && rt.utf == old(rt.utf)
    ensures raised && !old(rt.pending) ==> r.Trapped? && rt.pending
    ensures CallsChecked(old(rt.trace)) && !r.Trapped? ==> CallsChecked(rt.trace)
  {
    arr, called := Null, [];
    ghost var result;
    var returned;
    returned, raised, result := CallObjectMethodAsWritten(rt, obj, mid, params);
    if !returned.Success? {
      r := match returned case Thrown(e) => Thrown(e) case _ => Trapped;
      return;
    }
    arr, called := returned.value, rt.trace;
    r := GetStrings(rt, returned.value);
    AppendsNoCallsKeepsChecked(called, rt.trace);
  }

  /** `call(_:on:with:)`: a method returning `String[]`, whose result `arr` is decoded
      element by element.  The array comes from `CallObjectMethod` as written, so a Java
      method that raises (`raised`) traps with its exception still pending; otherwise the
      result is the texts of the returned array's elements, or an abort on an element that
      is not a string.  `called` is the trace up to the check after the Java call. */
  method CallReturningStrings(rt: Runtime, name: string, obj: Ref, args: seq<JavaValue>)
    returns (r: Outcome<seq<string>>, ghost mid: MethodId, ghost params: seq<JValue>, ghost arr: Ref,
             ghost called: seq<Event>, ghost raised: bool)
    requires rt.Valid()
    modifies rt`pending, rt`trace, rt`locals, rt`referent, rt`nextRef, rt`nextObj, rt`heap, rt`utf
    ensures rt.Valid()
    ensures var id := old(InstanceTarget(rt, obj, name, MethodSignatureCustom(args, StringArrayReturn)));
      (old(rt.pending) ==> r == Thrown(JNIError)) &&
      (old(rt.ClassOf(obj)).Some? && id == 0 ==> r == Thrown(JNIError)) &&
      (r.Success? ==> mid == id != 0 && |params| == |args|)
    ensures r.Success? ==>
      && arr in rt.locals && ElementTexts(rt, arr) == Some(r.value) && !raised && rt.utf == old(rt.utf)
      && EndsWithCheckedCall(called, false, obj, mid, params) && AppendsNoCalls(called, rt.trace)
    ensures r.Thrown? ==> r.error == JNIError && !rt.pending && rt.utf == old(rt.utf)
    ensures r.Trapped? && arr != Null ==>
      arr in rt.locals && ElementTexts(rt, arr).None? && !raised && rt.utf == old(rt.utf)
    ensures raised ==> r.Trapped? && rt.pending
    ensures CallsChecked(old(rt.trace)) && !r.Trapped? ==> CallsChecked(rt.trace)
  {
    mid, params, arr, called, raised := 0, [], Null, [], false;
    var p := PrepareInstance(rt, obj, name, MethodSignatureCustom(args, StringArrayReturn), args);
    AppendsNoCallsKeepsChecked(old(rt.trace), rt.trace);
    if !p.Success? {
      r := if p.Thrown? then Thrown(p.error) else Trapped;
      return;
    }
    var id, ps := p.value.0, p.value.1;
    mid, params := id, ps;
    r, arr, called, raised := CallDecodingStrings(rt, obj, id, ps);
  }
}
