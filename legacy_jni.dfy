/**
 * The older bindings: SwiftJNI.swift of the JNISwift module and the top-level
 * SwiftJNI.swift.  Their wrappers hand the runtime's result back with NULL
 * turned into nil and never run an exception check, so an exception a lookup
 * raises stays pending.  `JavaCallback` resolves a void method of an object
 * once and calls it later.
 */
module LegacyJni {
  import opened Jni
  import opened Wrappers
  import opened Runtime
  import opened JniErrors
  import opened DescriptorGrammar

  /** A NULL result of the runtime is nil, anything else the reference itself. */
  function NilIfNull(r: nat): (o: Option<nat>)
    ensures o.None? <==> r == Null
    ensures o.Some? ==> o.value == r
  {
    if r == Null then None else Some(r)
  }

  /** `NewGlobalRef(object:)`: nil, or a new global reference to the same object. */
  method NewGlobalRefOrNil(rt: Runtime, obj: Ref) returns (r: Option<Ref>)
    requires rt.Valid()
    modifies rt`globals, rt`referent, rt`nextRef
    ensures rt.Valid()
    ensures r.None? ==> rt.SameRefs()
    ensures r.Some? ==>
      && old(rt.Live(obj)) && r.value != Null && r.value !in old(rt.referent)
      && rt.globals == old(rt.globals) + {r.value} && rt.referent == old(rt.referent)[r.value := old(rt.referent)[obj]]
  {
    var g := rt.NewGlobalRef(obj);
    r := NilIfNull(g);
  }

  /** `FindClass(className:)`: the name goes to the runtime as it is, and nothing checks
      the exception a failed lookup leaves pending. */
  method FindClassOrNil(rt: Runtime, name: string) returns (r: Option<Ref>)
    requires rt.Valid()
    modifies rt`locals, rt`referent, rt`nextRef, rt`pending
    ensures rt.Valid()
    ensures r.None? <==> name !in rt.world.classes
    ensures r.None? ==> rt.pending && rt.SameRefs()
    ensures r.Some? ==> r.value in rt.referent && rt.NewLocal(r.value, rt.world.classes[name]) && rt.pending == old(rt.pending)
  {
    var c := rt.FindClass(name);
    r := NilIfNull(c);
  }

  /** `GetObjectClass(object:)` of SwiftJNI.swift: nil when the object's class is unknown. */
  method GetObjectClassOrNil(rt: Runtime, obj: Ref) returns (r: Option<Ref>)
    requires rt.Valid()
    modifies rt`locals, rt`referent, rt`nextRef
    ensures rt.Valid()
    ensures r.None? <==> old(rt.ClassOf(obj)).None?
    ensures r.None? ==> rt.SameRefs()
    ensures r.Some? ==> rt.NewLocal(r.value, old(rt.ClassOf(obj)).value)
  {
    var c := rt.GetObjectClass(obj);
    r := NilIfNull(c);
  }

  /** `GetMethodID(javaClass:methodName:methodSignature:)` and
      `GetStaticMethodID(javaClass:methodName:methodSignature:)`: nil exactly when the
      class has no such method, the runtime's NoSuchMethodError then left pending. */
  method GetMethodIDOrNil(rt: Runtime, isStatic: bool, cls: Ref, name: string, sig: string) returns (r: Option<MethodId>)
    requires rt.Valid()
    modifies rt`pending
    ensures rt.Valid()
    ensures var t := if isStatic then StaticMethods else InstanceMethods;
      && (r.None? <==> old(rt.MemberId(t, cls, name, sig)) == 0)
      && (r.Some? ==> r.value == old(rt.MemberId(t, cls, name, sig)))
    ensures rt.pending == (old(rt.pending) || r.None?)
  {
    var id := rt.GetMemberID(if isStatic then StaticMethods else InstanceMethods, cls, name, sig);
    r := NilIfNull(id);
  }

  /** `NewIntArray(count:)`: the count narrowed to a `jsize` (a trap outside 32 bits), then
      nil for a NULL array. */
  method NewIntArrayOrNil(rt: Runtime, count: int) returns (r: Outcome<Option<Ref>>)
    requires rt.Valid()
    modifies rt`pending, rt`locals, rt`referent, rt`nextRef, rt`nextObj, rt`heap
    ensures rt.Valid()
    ensures !r.Thrown?
    ensures r.Trapped? <==> !IsInt32(count)
    ensures r.Success? && r.value.None? ==> rt.pending && rt.SameRefs()
    ensures r.Success? && r.value.Some? ==>
      && 0 <= count && r.value.value in rt.referent && rt.NewLocal(r.value.value, rt.referent[r.value.value])
      && rt.Ints(r.value.value) == Some(seq(count, _ => 0)) && rt.pending == old(rt.pending)
    ensures count < 0 && IsInt32(count) ==> r == Success(None)
  {
    if !IsInt32(count) {
      return Trapped;
    }
    var arr := rt.NewIntArray(count);
    r := Success(NilIfNull(arr));
  }

  /** `GetObjectArrayElement(array:index:)` of the JNISwift module: the index narrowed to a
      `jsize`, no exception check, and a NULL element is a fatal error. */
  method GetObjectArrayElementOrFatal(rt: Runtime, arr: Ref, index: int) returns (r: Outcome<Ref>)
    requires rt.Valid()
    modifies rt`pending, rt`locals, rt`referent, rt`nextRef
    ensures rt.Valid()
    ensures !r.Thrown?
    ensures var es := old(rt.Elements(arr));
      && (es.Some? && 0 <= index < |es.value| && es.value[index].Some? ==> r.Success? && rt.NewLocal(r.value, es.value[index].value))
      && (!(es.Some? && 0 <= index < |es.value| && es.value[index].Some?) ==> r.Trapped?)
    ensures r.Trapped? && IsInt32(index) && !(old(rt.Elements(arr)).Some? && 0 <= index < |old(rt.Elements(arr)).value|) ==> rt.pending
  {
    if !IsInt32(index) {
      return Trapped;
    }
    var e := rt.GetObjectArrayElement(arr, index);
    r := if e == Null then Trapped else Success(e);
  }

  /** `CallVoidMethod(object:methodID:parameters:)`, `CallStaticVoidMethod` and
      `CallStaticIntMethod` of the JNISwift module and `CallVoidMethodA` of SwiftJNI.swift:
      the runtime call alone, with no exception check, so what the Java method raises
      stays pending. */
  method UncheckedCall(rt: Runtime, kind: Option<Kind>, isStatic: bool, target: Ref, mid: MethodId, params: seq<JValue>)
    returns (result: Option<JValue>)
    requires rt.Valid()
    modifies rt`pending, rt`locals, rt`referent, rt`nextRef, rt`nextObj, rt`trace
    ensures rt.Valid()
    ensures rt.trace == old(rt.trace) + [Invoked(isStatic, target, mid, params)]
    ensures result.Some? <==> kind.Some?
    ensures result.Some? ==> HasKind(result.value, kind.value)
    ensures old(rt.pending) ==> rt.pending
    ensures kind != Some(ObjectKind) ==> rt.SameRefs()
  {
    result := rt.Invoke(kind, isStatic, target, mid, params);
  }

  /** A trace that ends in a call no check follows breaks the protocol the JNI module's
      wrappers keep. */
  lemma {:induction false} UncheckedCallBreaksProtocol(t: seq<Event>, isStatic: bool, target: Ref, mid: MethodId, params: seq<JValue>)
    ensures !CallsChecked(t + [Invoked(isStatic, target, mid, params)])
  {
    var u := t + [Invoked(isStatic, target, mid, params)];
    assert u[|t|].Invoked?;
  }

  /** The signature test of `JavaCallback.init`: the last character is 'V' (an empty
      signature has none and fails). */
  predicate EndsInV(sig: string)
  {
    |sig| > 0 && sig[|sig| - 1] == 'V'
  }

  /** On a well-formed method descriptor the test accepts exactly the void methods. */
  lemma {:induction false} EndsInVMeansVoid(sig: string)
    requires ParseMethodDescriptor(sig).Some?
    ensures EndsInV(sig) <==> ParseMethodDescriptor(sig).value.1 == "V"
  {
    EndsInVIffVoid(sig);
  }

  /** It also lets through strings that are no method descriptor at all, and turns away
      the empty signature. */
  lemma EndsInVAcceptsMalformed()
    ensures EndsInV("V") && ParseMethodDescriptor("V").None?
    ensures EndsInV("(IV") && ParseMethodDescriptor("(IV").None?
    ensures !EndsInV("")
  {
    assert "V"[0] != '(';
    assert "(IV"[1..] == "IV";
  }

  /** A `JavaCallback`: the object and the resolved identifier of a void method. */
  class JavaCallback {
    const jobj: Ref
    const methodID: MethodId

    constructor (jobj: Ref, methodID: MethodId)
      ensures this.jobj == jobj && this.methodID == methodID
    {
      this.jobj := jobj;
      this.methodID := methodID;
    }

    /** `apply(args:)` / `apply(parameters:)`: the void method called, unchecked. */
    method Apply(rt: Runtime, params: seq<JValue>)
      requires rt.Valid()
      modifies rt`pending, rt`locals, rt`referent, rt`nextRef, rt`nextObj, rt`trace
      ensures rt.Valid() && rt.SameRefs()
      ensures rt.trace == old(rt.trace) + [Invoked(false, jobj, methodID, params)]
      ensures old(rt.pending) ==> rt.pending
    {
      var result := UncheckedCall(rt, None, false, jobj, methodID, params);
    }

    /** `call(args:)` / `call(parameters:)`: the variadic arguments passed on to `apply` in
        the same order. */
    method Call(rt: Runtime, params: seq<JValue>)
      requires rt.Valid()
      modifies rt`pending, rt`locals, rt`referent, rt`nextRef, rt`nextObj, rt`trace
      ensures rt.Valid() && rt.SameRefs()
      ensures rt.trace == old(rt.trace) + [Invoked(false, jobj, methodID, params)]
      ensures old(rt.pending) ==> rt.pending
    {
      Apply(rt, params);
    }
  }

  /** `JavaCallback.init(_:methodName:methodSignature:)`: fatal unless the signature ends
      in 'V', the object's class is found and the class has the method; the local class
      reference is never deleted.  The callback keeps the object it was given and the
      resolved identifier. */
  method MakeJavaCallback(rt: Runtime, globalJobj: Ref, name: string, sig: string) returns (r: Outcome<JavaCallback>)
    requires rt.Valid()
    modifies rt`pending, rt`locals, rt`referent, rt`nextRef
    ensures rt.Valid()
    ensures !r.Thrown?
    ensures var c := old(rt.ClassOf(globalJobj));
      r.Success? <==> EndsInV(sig) && c.Some? && rt.Lookup(InstanceMethods, c.value, name, sig) != 0
    ensures r.Success? ==>
      && fresh(r.value) && r.value.jobj == globalJobj
      && r.value.methodID == rt.Lookup(InstanceMethods, old(rt.ClassOf(globalJobj)).value, name, sig)
      && rt.locals == old(rt.locals) + {old(rt.nextRef)} && rt.pending == old(rt.pending)
    ensures !EndsInV(sig) ==> rt.SameRefs() && rt.pending == old(rt.pending)
  {
    if !EndsInV(sig) {
      return Trapped;
    }
    var cls := GetObjectClassOrNil(rt, globalJobj);
    if cls.None? {
      return Trapped;
    }
    assert rt.MemberId(InstanceMethods, cls.value, name, sig) == rt.Lookup(InstanceMethods, old(rt.ClassOf(globalJobj)).value, name, sig);
    var id := GetMethodIDOrNil(rt, false, cls.value, name, sig);
    if id.None? {
      return Trapped;
    }
    var callback := new JavaCallback(globalJobj, id.value);
    r := Success(callback);
  }
}
