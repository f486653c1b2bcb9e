/**
 * `JNIObject` of the JNI module: a failable initialiser that finds a class,
 * promotes it to a global reference, calls a constructor and promotes the new
 * instance too, plus the `callConstructor` of the same file, which resolves
 * "<init>" through `GetMethodID(for:)` and so against the class of the class
 * object (java.lang.Class) rather than against the class itself.
 */
module JniObjects {
  import opened Jni
  import opened Wrappers
  import opened Runtime
  import opened JniErrors
  import opened Convertible
  import opened Signature
  import opened JniClasses
  import opened JniCalls

  /** The constructor identifier JNIObjects.swift resolves for a class object `cls`: the
      "<init>" method among the methods of the class of `cls`. */
  function ConstructorViaObjectClass(w: World, h: Heap, cls: Obj, sig: string): MethodId
  {
    if cls in h.classOf then MemberOf(w, InstanceMethods, h.classOf[cls], "<init>", sig) else 0
  }

  /** The constructor identifier of the class `cls` itself, as a constructor lookup on it
      resolves it. */
  function ConstructorOfClass(w: World, cls: Obj, sig: string): MethodId
  {
    MemberOf(w, InstanceMethods, cls, "<init>", sig)
  }

  /** Through a live reference to a class object the call path's instance lookup is
      `ConstructorViaObjectClass`, and the runtime's member lookup is `ConstructorOfClass`. */
  lemma {:induction false} ConstructorLookups(rt: Runtime, cls: Ref, sig: string)
    requires rt.Live(cls) && cls in rt.referent
    ensures InstanceTarget(rt, cls, "<init>", sig) == ConstructorViaObjectClass(rt.world, rt.heap, rt.referent[cls], sig)
    ensures rt.MemberId(InstanceMethods, cls, "<init>", sig) == ConstructorOfClass(rt.world, rt.referent[cls], sig)
  {
  }

  /** A world with java.lang.Class (object 1), a class Foo (object 2) whose class is
      java.lang.Class, and a no-argument constructor of Foo; java.lang.Class itself has no
      "<init>" with descriptor "()V" here, as on a VM whose Class declares none. */
  function ClassWithConstructor(): World
  {
    World(map["java/lang/Class" := 1, "Foo" := 2], map[MemberKey(2, "<init>", "()V") := 7], map[], map[], map[])
  }

  /** The same world on a VM whose java.lang.Class declares a (private) no-argument
      constructor of its own, as Android's runtime does. */
  function ClassWithOwnConstructor(): World
  {
    World(map["java/lang/Class" := 1, "Foo" := 2],
      map[MemberKey(2, "<init>", "()V") := 7, MemberKey(1, "<init>", "()V") := 9], map[], map[], map[])
  }

  function ClassObjects(): Heap
  {
    Heap(map[2 := 1], map[], map[], map[], map[])
  }

  /** Where java.lang.Class has no such constructor, resolving through the class of the
      class object misses Foo's constructor, which a lookup on Foo itself finds. */
  lemma ObjectClassLookupMissesConstructor()
    ensures ConstructorViaObjectClass(ClassWithConstructor(), ClassObjects(), 2, "()V") == 0
    ensures ConstructorOfClass(ClassWithConstructor(), 2, "()V") == 7
  {
    assert MemberKey(1, "<init>", "()V") != MemberKey(2, "<init>", "()V");
  }

  /** Where java.lang.Class has one, resolving through the class of the class object finds
      Class's own constructor instead of Foo's, and NewObject is handed an identifier that
      does not belong to the class it instantiates. */
  lemma ObjectClassLookupFindsWrongConstructor()
    ensures ConstructorViaObjectClass(ClassWithOwnConstructor(), ClassObjects(), 2, "()V") == 9
    ensures ConstructorOfClass(ClassWithOwnConstructor(), 2, "()V") == 7
  {
    assert MemberKey(1, "<init>", "()V") != MemberKey(2, "<init>", "()V");
  }

  /** `callConstructor(on:arguments:)` of JNIObjects.swift: "<init>" with descriptor
      "(args)V" looked up through `GetMethodID(for:)`, then NewObject with no exception
      check; a NULL result traps on the force unwrap. */
  method CallConstructorViaObjectClass(rt: Runtime, cls: Ref, args: seq<JavaValue>) returns (r: Outcome<Ref>)
    requires rt.Valid()
    modifies rt`pending, rt`trace, rt`locals, rt`referent, rt`nextRef, rt`nextObj, rt`heap
    ensures rt.Valid()
    ensures var id := old(InstanceTarget(rt, cls, "<init>", MethodSignature(args, None)));
      && (old(rt.pending) ==> r == Thrown(JNIError))
      && (old(rt.ClassOf(cls)).Some? && id == 0 ==> r == Thrown(JNIError))
      && (r.Success? ==> id != 0)
    ensures r.Thrown? ==> r.error == JNIError && !rt.pending
    ensures r.Success? ==>
      && r.value in rt.locals && r.value !in old(rt.referent) && cls in rt.referent
      && rt.referent[r.value] in rt.heap.classOf && rt.heap.classOf[rt.referent[r.value]] == rt.referent[cls]
    ensures rt.globals == old(rt.globals) && old(rt.locals) <= rt.locals
    ensures Extends(old(rt.referent), rt.referent)
  {
    var p := PrepareInstance(rt, cls, "<init>", MethodSignature(args, None), args);
    if !p.Success? {
      r := if p.Thrown? then Thrown(p.error) else Trapped;
      return;
    }
    ghost var before := rt.referent;
    var obj := rt.NewObject(cls, p.value.0, p.value.1);
    if obj == Null {
      r := Trapped;
    } else {
      assert obj !in before;
      r := Success(obj);
    }
  }

  /** A `JNIObject`: global references to a class and to an instance of it. */
  class JNIObject {
    const javaClass: Ref
    const instance: Ref

    constructor (javaClass: Ref, instance: Ref)
      ensures this.javaClass == javaClass && this.instance == instance
    {
      this.javaClass := javaClass;
      this.instance := instance;
    }

    /** `call(methodName:arguments:)`: a void instance method of the instance. */
    method Call(rt: Runtime, name: string, args: seq<JavaValue>) returns (r: Outcome<()>)
      requires rt.Valid()
      modifies rt`pending, rt`trace, rt`locals, rt`referent, rt`nextRef, rt`nextObj, rt`heap
      ensures rt.Valid()
      ensures var id := old(InstanceTarget(rt, instance, name, MethodSignature(args, None)));
        && (old(rt.pending) ==> r == Thrown(JNIError))
        && (old(rt.ClassOf(instance)).Some? && id == 0 ==> r == Thrown(JNIError))
        && (r.Success? ==> id != 0 && exists params :: EndsWithCheckedCall(rt.trace, false, instance, id, params))
      ensures r.Thrown? ==> r.error == JNIError
      ensures CallsChecked(old(rt.trace)) ==> CallsChecked(rt.trace)
    {
      ghost var mid, params;
      r, mid, params := CallVoid(rt, name, instance, args);
    }

    /** `call<T>(methodName:arguments:)`: an instance method returning a T. */
    method CallReturning(rt: Runtime, name: string, args: seq<JavaValue>, t: JavaType)
      returns (r: Outcome<JavaValue>, ghost raised: bool)
      requires rt.Valid()
      modifies rt`pending, rt`trace, rt`locals, rt`referent, rt`nextRef, rt`nextObj, rt`heap
      ensures rt.Valid()
      ensures var id := old(InstanceTarget(rt, instance, name, MethodSignature(args, Some(t))));
        && (old(rt.pending) ==> r == Thrown(JNIError))
        && (old(rt.ClassOf(instance)).Some? && id == 0 ==> r == Thrown(JNIError))
        && (r.Success? ==> id != 0 && exists params :: EndsWithCheckedCall(rt.trace, false, instance, id, params))
      ensures r.Success? ==> TypeOf(r.value) == t && !raised
      ensures r.Thrown? ==> r.error == JNIError && !rt.pending
      ensures raised ==> if KindOf(t) == ObjectKind then r.Trapped? && rt.pending else r == Thrown(JNIError)
      ensures CallsChecked(old(rt.trace)) && (KindOf(t) != ObjectKind || !r.Trapped?) ==> CallsChecked(rt.trace)
    {
      ghost var mid, params;
      r, mid, params, raised := JniCalls.Call(rt, name, instance, args, t);
    }

    /** `callStatic(methodName:arguments:)`: a void static method of the class. */
    method CallStatic(rt: Runtime, name: string, args: seq<JavaValue>) returns (r: Outcome<()>)
      requires rt.Valid()
      modifies rt`pending, rt`trace, rt`locals, rt`referent, rt`nextRef, rt`nextObj, rt`heap
      ensures rt.Valid()
      ensures var id := old(StaticTarget(rt, javaClass, name, MethodSignature(args, None)));
        && (id == 0 ==> r == Thrown(InvalidMethodID) && rt.pending)
        && (old(rt.pending) && id != 0 ==> r == Thrown(JNIError))
        && (r.Success? ==> id != 0 && exists params :: EndsWithCheckedCall(rt.trace, true, javaClass, id, params))
      ensures r.Thrown? ==> r.error == (if rt.pending then InvalidMethodID else JNIError)
      ensures CallsChecked(old(rt.trace)) ==> CallsChecked(rt.trace)
    {
      ghost var mid, params;
      r, mid, params := CallStaticVoid(rt, name, javaClass, args);
    }
  }

  /** The first guard of `JNIObject.init?`: the class lookup (a throwing lookup counts as
      failure) and its promotion to a global reference; NULL stands for nil. */
  method GlobalClass(rt: Runtime, name: string) returns (g: Ref)
    requires rt.Valid()
    modifies rt`pending, rt`trace, rt`locals, rt`globals, rt`referent, rt`nextRef
    ensures rt.Valid() && !rt.pending
    ensures old(rt.pending) || ReplacingFullstopsWithSlashes(name) !in rt.world.classes ==> g == Null
    ensures g == Null ==> rt.globals == old(rt.globals)
    ensures g != Null ==>
      && rt.globals == old(rt.globals) + {g} && g !in old(rt.referent) && g in rt.referent
      && rt.referent[g] == rt.world.classes[ReplacingFullstopsWithSlashes(name)]
    ensures Extends(old(rt.referent), rt.referent)
  {
    var local := JniClasses.FindClass(rt, name);
    if !local.Success? {
      return Null;
    }
    g := rt.NewGlobalRef(local.value);
  }

  /** The second guard of `JNIObject.init?`: the constructor call (a throw counts as
      failure, a trap is not caught) and the promotion of the instance to a global
      reference, newer than every reference that existed before; `Success(Null)` stands
      for nil.  `ctor` is the outcome of the constructor call: whatever it throws,
      including the JNIError of a missed "<init>" lookup, gives nil. */
  method GlobalInstance(rt: Runtime, javaClass: Ref, args: seq<JavaValue>) returns (r: Outcome<Ref>, ghost ctor: Outcome<Ref>)
    requires rt.Valid()
    modifies rt`pending, rt`trace, rt`locals, rt`globals, rt`referent, rt`nextRef, rt`nextObj, rt`heap
    ensures rt.Valid()
    ensures !r.Thrown?
    ensures var id := old(InstanceTarget(rt, javaClass, "<init>", MethodSignature(args, None)));
      old(rt.pending) || (old(rt.ClassOf(javaClass)).Some? && id == 0) ==> ctor.Thrown?
    ensures ctor.Thrown? ==> r == Success(Null)
    ensures r.Trapped? <==> ctor.Trapped?
    ensures r.Success? && r.value != Null ==> ctor.Success?
    ensures r == Success(Null) ==> rt.globals == old(rt.globals)
    ensures r.Success? && r.value != Null ==>
      && rt.globals == old(rt.globals) + {r.value}
      && (forall x :: x in old(rt.referent) ==> x < r.value)
      && javaClass in rt.referent && r.value in rt.referent
      && rt.referent[r.value] in rt.heap.classOf && rt.heap.classOf[rt.referent[r.value]] == rt.referent[javaClass]
    ensures Extends(old(rt.referent), rt.referent)
  {
    var local := CallConstructorViaObjectClass(rt, javaClass, args);
    ctor := local;
    if !local.Success? {
      r := if local.Thrown? then Success(Null) else Trapped;
      return;
    }
    var g := rt.NewGlobalRef(local.value);
    r := Success(g);
  }

  /** The global references a nil `init?` leaves behind beyond those it found, given the
      class's global reference made by the first guard (NULL when that guard failed): the
      second guard returns nil without deleting it. */
  function NilLeftoverAsWritten(classGlobal: Ref): set<Ref>
  {
    if classGlobal == Null then {} else {classGlobal}
  }

  /** Once the first guard has promoted the class, a nil result leaves its global reference
      behind, so the initialiser does not fail atomically. */
  lemma NilInitLeaksClassGlobal(classGlobal: Ref)
    requires classGlobal != Null
    ensures classGlobal in NilLeftoverAsWritten(classGlobal)
  {
  }

  /** `JNIObject.init?(_:arguments:)`: the normalised class name, then the two guards; a
      failure gives nil (`Success(null)`).  `classGlobal` is the class's global reference
      made by the first guard, NULL when that guard failed; when the second guard fails
      nothing releases it.  `ctor` is the outcome of the constructor call once the class
      was found: a throw, among them a constructor that the lookup through the class of
      the class object misses, gives nil. */
  method NewJNIObject(rt: Runtime, className: string, args: seq<JavaValue>)
    returns (r: Outcome<JNIObject?>, ghost classGlobal: Ref, ghost ctor: Outcome<Ref>)
    requires rt.Valid()
    modifies rt`pending, rt`trace, rt`locals, rt`globals, rt`referent, rt`nextRef, rt`nextObj, rt`heap
    ensures rt.Valid()
    ensures !r.Thrown?
    ensures var internal := ReplacingFullstopsWithSlashes(className);
      old(rt.pending) || internal !in rt.world.classes ==> r == Success(null) && rt.globals == old(rt.globals)
    ensures var internal := ReplacingFullstopsWithSlashes(className);
      classGlobal != Null && internal in rt.world.classes && rt.world.classes[internal] in old(rt.heap.classOf) &&
      ConstructorViaObjectClass(rt.world, old(rt.heap), rt.world.classes[internal], MethodSignature(args, None)) == 0
      ==> ctor.Thrown?
    ensures classGlobal != Null && ctor.Thrown? ==> r == Success(null) && rt.globals == old(rt.globals) + {classGlobal}
    ensures r.Trapped? <==> classGlobal != Null && ctor.Trapped?
    ensures r == Success(null) ==> rt.globals == old(rt.globals) + NilLeftoverAsWritten(classGlobal)
    ensures classGlobal != Null ==>
      && classGlobal !in old(rt.referent) && classGlobal in rt.referent
      && rt.referent[classGlobal] == rt.world.classes[ReplacingFullstopsWithSlashes(className)]
    ensures r.Success? && r.value != null ==>
      var o := r.value;
      && fresh(o)
      && o.javaClass == classGlobal
      && rt.globals == old(rt.globals) + {o.javaClass, o.instance}
      && o.javaClass !in old(rt.referent) && o.instance !in old(rt.referent)
      && o.javaClass < o.instance
      && rt.referent[o.javaClass] == rt.world.classes[ReplacingFullstopsWithSlashes(className)]
      && rt.referent[o.instance] in rt.heap.classOf
      && rt.heap.classOf[rt.referent[o.instance]] == rt.referent[o.javaClass]
  {
    var name := ReplacingFullstopsWithSlashes(className);
    ReplacingIdempotent(className);
    var javaClass := GlobalClass(rt, name);
    classGlobal, ctor := javaClass, Thrown(JNIError);
    if javaClass == Null {
      return Success(null), classGlobal, ctor;
    }
    ConstructorLookups(rt, javaClass, MethodSignature(args, None));
    var instance;
    instance, ctor := GlobalInstance(rt, javaClass, args);
    if !instance.Success? {
      return Trapped, classGlobal, ctor;
    }
    if instance.value == Null {
      return Success(null), classGlobal, ctor;
    }
    var o := new JNIObject(javaClass, instance.value);
    r := Success(o);
  }

  /** `JNIObject.init?` with the class's global reference deleted when the second guard
      fails, so that a nil result leaves the global reference table as it was. */
  method NewJNIObjectReleasing(rt: Runtime, className: string, args: seq<JavaValue>)
    returns (r: Outcome<JNIObject?>)
    requires rt.Valid()
    modifies rt`pending, rt`trace, rt`locals, rt`globals, rt`referent, rt`nextRef, rt`nextObj, rt`heap
    ensures rt.Valid()
    ensures !r.Thrown?
    ensures var internal := ReplacingFullstopsWithSlashes(className);
      old(rt.pending) || internal !in rt.world.classes ==> r == Success(null)
    ensures r == Success(null) ==> rt.globals == old(rt.globals)
    ensures r.Success? && r.value != null ==>
      var o := r.value;
      && fresh(o)
      && rt.globals == old(rt.globals) + {o.javaClass, o.instance}
      && o.javaClass !in old(rt.referent) && o.instance !in old(rt.referent)
      && o.javaClass < o.instance
      && rt.referent[o.javaClass] == rt.world.classes[ReplacingFullstopsWithSlashes(className)]
      && rt.referent[o.instance] in rt.heap.classOf
      && rt.heap.classOf[rt.referent[o.instance]] == rt.referent[o.javaClass]
  {
    var name := ReplacingFullstopsWithSlashes(className);
    ReplacingIdempotent(className);
    var javaClass := GlobalClass(rt, name);
    if javaClass == Null {
      return Success(null);
    }
    var instance, ctor := GlobalInstance(rt, javaClass, args);
    if !instance.Success? {
      return Trapped;
    }
    if instance.value == Null {
      rt.DeleteGlobalRef(javaClass);
      return Success(null);
    }
    var o := new JNIObject(javaClass, instance.value);
    r := Success(o);
  }
}
