/**
 * `JavaCallableClass` of the JNI module: a Swift class per Java class, whose
 * Java class reference is resolved once into a static stored property, whose
 * instances hold a global reference to a Java object made by a constructor
 * call, and whose `deinit` deletes that reference.  Its `callConstructor`
 * looks "<init>" up on the class itself.
 */
module JniCallableClass {
  import opened Jni
  import opened Wrappers
  import opened Runtime
  import opened JniErrors
  import opened Convertible
  import opened Signature
  import opened Marshalling
  import opened JniClasses
  import opened JniCalls

  /** `callConstructor(on:arguments:)` of JavaCallableClass.swift: "<init>" with
      descriptor "(args)V" looked up on `cls` itself, then the check, then NewObject.  A
      NULL result (the constructor raised) traps, the exception left pending. */
  method CallConstructor(rt: Runtime, cls: Ref, args: seq<JavaValue>) returns (r: Outcome<Ref>)
    requires rt.Valid()
    modifies rt`pending, rt`trace, rt`locals, rt`referent, rt`nextRef, rt`nextObj, rt`heap
    ensures rt.Valid()
    ensures var id := old(rt.MemberId(InstanceMethods, cls, "<init>", MethodSignature(args, None)));
      && (old(rt.pending) || id == 0 <==> r.Thrown?)
      && (r.Success? ==> exists params :: rt.trace == old(rt.trace) + [Checked(false), Constructed(cls, id, params)])
    ensures r.Thrown? ==>
      && r.error == JNIError && !rt.pending && rt.SameRefs() && rt.heap == old(rt.heap)
      && rt.trace == old(rt.trace) + CheckEvents(true)
    ensures r.Success? ==>
      && r.value in rt.locals && r.value !in old(rt.referent) && cls in rt.referent
      && rt.referent[r.value] in rt.heap.classOf && rt.heap.classOf[rt.referent[r.value]] == rt.referent[cls]
    ensures rt.globals == old(rt.globals) && old(rt.locals) <= rt.locals
    ensures Extends(old(rt.referent), rt.referent)
  {
    var id := ConstructorID(rt, cls, MethodSignature(args, None));
    if !id.Success? {
      r := Thrown(JNIError);
      return;
    }
    r := Construct(rt, cls, id.value, args);
  }

  /** The tail of that `callConstructor`: the arguments converted, then NewObject; a NULL
      result traps. */
  method Construct(rt: Runtime, cls: Ref, id: MethodId, args: seq<JavaValue>) returns (r: Outcome<Ref>)
    requires rt.Valid()
    modifies rt`pending, rt`locals, rt`referent, rt`nextRef, rt`nextObj, rt`heap, rt`trace
    ensures rt.Valid()
    ensures !r.Thrown?
    ensures r.Success? ==> exists params :: rt.trace == old(rt.trace) + [Constructed(cls, id, params)]
    ensures r.Success? ==>
      && r.value in rt.locals && r.value !in old(rt.referent) && cls in rt.referent
      && rt.referent[r.value] in rt.heap.classOf && rt.heap.classOf[rt.referent[r.value]] == rt.referent[cls]
    ensures rt.globals == old(rt.globals) && old(rt.locals) <= rt.locals
    ensures Extends(old(rt.referent), rt.referent)
  {
    var params := AsJavaParameters(rt, args);
    if params.Trapped? {
      r := Trapped;
      return;
    }
    ghost var before := rt.referent;
    var obj := rt.NewObject(cls, id, params.value);
    if obj == Null {
      r := Trapped;
    } else {
      assert obj !in before;
      r := Success(obj);
    }
  }

  /** The lookup and check at the head of that `callConstructor`: the constructor's
      identifier, or a JNIError that clears what the lookup left pending. */
  method ConstructorID(rt: Runtime, cls: Ref, sig: string) returns (r: Outcome<MethodId>)
    requires rt.Valid()
    modifies rt`pending, rt`trace
    ensures rt.Valid() && !rt.pending
    ensures var id := old(rt.MemberId(InstanceMethods, cls, "<init>", sig));
      && (old(rt.pending) || id == 0 <==> r.Thrown?)
      && (r.Success? ==> r.value == id && rt.trace == old(rt.trace) + [Checked(false)])
    ensures r.Thrown? ==> r.error == JNIError && rt.trace == old(rt.trace) + CheckEvents(true)
    ensures !r.Trapped?
  {
    var id := rt.GetMemberID(InstanceMethods, cls, "<init>", sig);
    var check := CheckAndThrowOnJNIError(rt);
    if check.Thrown? {
      r := Thrown(check.error);
    } else if id == 0 {
      assert false;
    } else {
      r := Success(id);
    }
  }

  /** The static side of a `JavaCallableClass` subclass: its Java class name and the
      stored `javaClass` property, initialised on first access. */
  class CallableClassType {
    const javaClassName: string
    var javaClass: Option<Ref>

    constructor (name: string)
      ensures javaClassName == name && javaClass == None
    {
      javaClassName := name;
      javaClass := None;
    }

    /** `findJavaClass()`: the class lookup, then a global reference to it; a NULL global
        reference traps, and the local class reference is never deleted. */
    method FindJavaClass(rt: Runtime) returns (r: Outcome<Ref>, ghost local: Ref)
      requires rt.Valid()
      modifies rt`pending, rt`trace, rt`locals, rt`globals, rt`referent, rt`nextRef
      ensures rt.Valid() && !rt.pending
      ensures var internal := ReplacingFullstopsWithSlashes(javaClassName);
        (old(rt.pending) || internal !in rt.world.classes ==> r == Thrown(JNIError))
      ensures r.Thrown? ==> r.error == JNIError && rt.globals == old(rt.globals)
      ensures r.Success? ==>
        && rt.globals == old(rt.globals) + {r.value} && r.value !in old(rt.referent)
        && rt.referent[r.value] == rt.world.classes[ReplacingFullstopsWithSlashes(javaClassName)]
        && local in rt.locals && local !in old(rt.referent) && rt.referent[local] == rt.referent[r.value]
      ensures Extends(old(rt.referent), rt.referent)
    {
      local := Null;
      var found := JniClasses.FindClass(rt, javaClassName);
      if !found.Success? {
        r := if found.Thrown? then Thrown(found.error) else Trapped;
        return;
      }
      local := found.value;
      var g := rt.NewGlobalRef(found.value);
      r := if g == Null then Trapped else Success(g);
    }

    /** The static `javaClass` property: the stored reference once it has been set;
        otherwise `try! findJavaClass()`, where a throw traps, and the result is stored. */
    method JavaClass(rt: Runtime) returns (r: Outcome<Ref>)
      requires rt.Valid()
      modifies this`javaClass, rt`pending, rt`trace, rt`locals, rt`globals, rt`referent, rt`nextRef
      ensures rt.Valid()
      ensures !r.Thrown?
      ensures old(javaClass).Some? ==>
        r == Success(old(javaClass).value) && javaClass == old(javaClass) && unchanged(rt)
      ensures old(javaClass).None? && r.Success? ==>
        && javaClass == Some(r.value) && rt.globals == old(rt.globals) + {r.value}
        && ReplacingFullstopsWithSlashes(javaClassName) in rt.world.classes && r.value in rt.referent
        && rt.referent[r.value] == rt.world.classes[ReplacingFullstopsWithSlashes(javaClassName)]
      ensures r.Trapped? ==> javaClass == None
      ensures Extends(old(rt.referent), rt.referent)
    {
      if javaClass.Some? {
        return Success(javaClass.value);
      }
      ghost var local;
      var found;
      found, local := FindJavaClass(rt);
      if found.Success? {
        javaClass := Some(found.value);
        r := found;
      } else {
        r := Trapped;
      }
    }

    /** `newInstance(_:)`: the constructor called on `javaClass`, the instance promoted to
        a global reference (a NULL one traps); the local instance reference is never
        deleted. */
    method NewInstance(rt: Runtime, args: seq<JavaValue>) returns (r: Outcome<Ref>)
      requires rt.Valid()
      modifies this`javaClass, rt`pending, rt`trace, rt`locals, rt`globals, rt`referent, rt`nextRef, rt`nextObj, rt`heap
      ensures rt.Valid()
      ensures r.Thrown? ==> r.error == JNIError && !rt.pending && rt.globals == old(rt.globals) + (if old(javaClass).None? && javaClass.Some? then {javaClass.value} else {})
      ensures r.Success? ==>
        && javaClass.Some? && javaClass.value in rt.referent && r.value in rt.referent
        && rt.referent[r.value] in rt.heap.classOf && rt.heap.classOf[rt.referent[r.value]] == rt.referent[javaClass.value]
        && r.value in rt.globals && r.value !in old(rt.referent)
      ensures old(javaClass).Some? ==> javaClass == old(javaClass)
      ensures Extends(old(rt.referent), rt.referent)
    {
      var cls := JavaClass(rt);
      if !cls.Success? {
        return Trapped;
      }
      ghost var afterClass := rt.globals;
      var local := CallConstructor(rt, cls.value, args);
      if !local.Success? {
        r := if local.Thrown? then Thrown(local.error) else Trapped;
        return;
      }
      var g := rt.NewGlobalRef(local.value);
      r := if g == Null then Trapped else Success(g);
    }

    /** The static `call(methodName:arguments:)`: a void static method of `javaClass`. */
    method CallStatic(rt: Runtime, name: string, args: seq<JavaValue>) returns (r: Outcome<()>)
      requires rt.Valid()
      modifies this`javaClass, rt`pending, rt`trace, rt`locals, rt`globals, rt`referent, rt`nextRef, rt`nextObj, rt`heap
      ensures rt.Valid()
      ensures old(javaClass).Some? ==>
        var id := old(StaticTarget(rt, javaClass.value, name, MethodSignature(args, None)));
        && (id == 0 ==> r == Thrown(InvalidMethodID) && rt.pending)
        && (old(rt.pending) && id != 0 ==> r == Thrown(JNIError))
        && javaClass == old(javaClass)
      ensures r.Success? ==> javaClass.Some? && exists mid, params :: EndsWithCheckedCall(rt.trace, true, javaClass.value, mid, params)
      ensures r.Thrown? ==> r.error == (if rt.pending then InvalidMethodID else JNIError)
    {
      var cls := JavaClass(rt);
      if !cls.Success? {
        return Trapped;
      }
      ghost var mid, params;
      r, mid, params := CallStaticVoid(rt, name, cls.value, args);
    }
  }

  /** A `JavaCallableClass` instance: the global reference to its Java object, and
      whether `deinit` has run. */
  class JavaCallableClass {
    const instance: Ref
    ghost var released: bool

    constructor (instance: Ref)
      ensures this.instance == instance && !released
    {
      this.instance := instance;
      released := false;
    }

    /** `deinit`: deletes the instance's global reference; it runs once per object. */
    method Deinit(rt: Runtime)
      requires rt.Valid() && !released
      modifies this`released, rt`globals, rt`trace
      ensures rt.Valid() && released
      ensures rt.globals == old(rt.globals) - {instance}
      ensures rt.trace == old(rt.trace) + [GlobalDeleted(instance)]
    {
      rt.DeleteGlobalRef(instance);
      released := true;
    }

    /** `call(methodName:arguments:)`: a void instance method of the instance. */
    method Call(rt: Runtime, name: string, args: seq<JavaValue>) returns (r: Outcome<()>)
      requires rt.Valid()
      modifies rt`pending, rt`trace, rt`locals, rt`referent, rt`nextRef, rt`nextObj, rt`heap
      ensures rt.Valid()
      ensures var id := old(InstanceTarget(rt, instance, name, MethodSignature(args, None)));
        && (old(rt.pending) ==> r == Thrown(JNIError))
        && (old(rt.ClassOf(instance)).Some? && id == 0 ==> r == Thrown(JNIError))
        && (r.Success? ==> id != 0 && exists params :: EndsWithCheckedCall(rt.trace, false, instance, id, params))
      ensures r.Thrown? ==> r.error == JNIError
      ensures CallsChecked(old(rt.trace)) ==> CallsChecked(rt.trace)
    {
      ghost var mid, params;
      r, mid, params := CallVoid(rt, name, instance, args);
    }

    /** `call<T>(methodName:arguments:)`: an instance method returning a T. */
    method CallReturning(rt: Runtime, name: string, args: seq<JavaValue>, t: JavaType)
      returns (r: Outcome<JavaValue>, ghost raised: bool)
      requires rt.Valid()
      modifies rt`pending, rt`trace, rt`locals, rt`referent, rt`nextRef, rt`nextObj, rt`heap
      ensures rt.Valid()
      ensures var id := old(InstanceTarget(rt, instance, name, MethodSignature(args, Some(t))));
        && (old(rt.pending) ==> r == Thrown(JNIError))
        && (old(rt.ClassOf(instance)).Some? && id == 0 ==> r == Thrown(JNIError))
        && (r.Success? ==> id != 0 && exists params :: EndsWithCheckedCall(rt.trace, false, instance, id, params))
      ensures r.Success? ==> TypeOf(r.value) == t && !raised
      ensures r.Thrown? ==> r.error == JNIError && !rt.pending
      ensures raised ==> if KindOf(t) == ObjectKind then r.Trapped? && rt.pending else r == Thrown(JNIError)
      ensures CallsChecked(old(rt.trace)) && (KindOf(t) != ObjectKind || !r.Trapped?) ==> CallsChecked(rt.trace)
    {
      ghost var mid, params;
      r, mid, params, raised := JniCalls.Call(rt, name, instance, args, t);
    }
  }

  /** `init?(_:)`: the instance reference is `newInstance(arguments)`; a throw from it is
      passed on, so the initialiser never gives nil. */
  method MakeJavaCallableClass(rt: Runtime, t: CallableClassType, args: seq<JavaValue>)
    returns (r: Outcome<JavaCallableClass>)
    requires rt.Valid()
    modifies t`javaClass, rt`pending, rt`trace, rt`locals, rt`globals, rt`referent, rt`nextRef, rt`nextObj, rt`heap
    ensures rt.Valid()
    ensures r.Thrown? ==> r.error == JNIError && !rt.pending
    ensures r.Success? ==>
      && fresh(r.value) && !r.value.released && r.value.instance in rt.globals && r.value.instance !in old(rt.referent)
      && t.javaClass.Some? && t.javaClass.value in rt.referent && r.value.instance in rt.referent
      && rt.referent[r.value.instance] in rt.heap.classOf
      && rt.heap.classOf[rt.referent[r.value.instance]] == rt.referent[t.javaClass.value]
  {
    var instance := t.NewInstance(rt, args);
    if !instance.Success? {
      r := if instance.Thrown? then Thrown(instance.error) else Trapped;
      return;
    }
    var o := new JavaCallableClass(instance.value);
    r := Success(o);
  }
}
