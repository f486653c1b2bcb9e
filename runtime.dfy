/**
 * The JNI function table the binding calls through, as an abstract runtime: a
 * pending-exception flag, the live local and global references, the
 * outstanding UTF buffers, a class table, member tables and the contents of the
 * strings and arrays the binding touches.  What only the Java side decides —
 * whether a Java method raises, what it returns, whether an allocation runs
 * out of memory — is left open (any choice is allowed); everything else is
 * determined by the state.
 */
module Runtime {
  import opened Jni
  import opened Wrappers

  /** The identity of a Java object. */
  type Obj = nat

  /** Members are looked up by class, name and descriptor. */
  datatype MemberKey = MemberKey(cls: Obj, name: string, descriptor: string)

  /** The loaded classes, by internal name, and their members. */
  datatype World = World(
    classes: map<string, Obj>,
    methods: map<MemberKey, MethodId>,
    staticMethods: map<MemberKey, MethodId>,
    fields: map<MemberKey, FieldId>,
    staticFields: map<MemberKey, FieldId>)

  /** A resolved member identifier is never NULL. */
  predicate WellFormed(w: World) {
    && (forall k :: k in w.methods ==> w.methods[k] != 0)
    && (forall k :: k in w.staticMethods ==> w.staticMethods[k] != 0)
    && (forall k :: k in w.fields ==> w.fields[k] != 0)
    && (forall k :: k in w.staticFields ==> w.staticFields[k] != 0)
  }

  datatype Table = InstanceMethods | StaticMethods | InstanceFields | StaticFields

  function TableOf(w: World, t: Table): map<MemberKey, nat>
  {
    match t
    case InstanceMethods => w.methods
    case StaticMethods => w.staticMethods
    case InstanceFields => w.fields
    case StaticFields => w.staticFields
  }

  /** The identifier of a member of a class object in a world: NULL (0) when the class has
      no such member. */
  function MemberOf(w: World, t: Table, cls: Obj, name: string, descriptor: string): nat
  {
    var table := TableOf(w, t);
    if MemberKey(cls, name, descriptor) in table then table[MemberKey(cls, name, descriptor)] else 0
  }

  /** The heap objects the binding reads or writes: the class of each object, string
      contents, and int, byte and object arrays (an object element may be null). */
  datatype Heap = Heap(
    classOf: map<Obj, Obj>,
    strings: map<Obj, string>,
    ints: map<Obj, seq<Int32>>,
    bytes: map<Obj, seq<Int8>>,
    elements: map<Obj, seq<Option<Obj>>>)

  function Objects(h: Heap): set<Obj>
  {
    h.classOf.Keys + h.strings.Keys + h.ints.Keys + h.bytes.Keys + h.elements.Keys
  }

  /** Every object the heap or the class table mentions has an identity below `next`. */
  predicate Bounded(w: World, h: Heap, next: nat) {
    && (forall o :: o in Objects(h) ==> o < next)
    && (forall o :: o in h.classOf ==> h.classOf[o] < next)
    && (forall o, i :: o in h.elements && 0 <= i < |h.elements[o]| && h.elements[o][i].Some? ==> h.elements[o][i].value < next)
    && (forall n :: n in w.classes ==> w.classes[n] < next)
  }

  /** Every reference of `a` is still in `b`, to the same object. */
  predicate Extends(a: map<Ref, Obj>, b: map<Ref, Obj>) {
    forall r :: r in a ==> r in b && b[r] == a[r]
  }

  /** A Java array has at most 2^31 - 1 elements. */
  predicate ArraysBounded(h: Heap) {
    && (forall o :: o in h.ints ==> |h.ints[o]| < 0x8000_0000)
    && (forall o :: o in h.bytes ==> |h.bytes[o]| < 0x8000_0000)
    && (forall o :: o in h.elements ==> |h.elements[o]| < 0x8000_0000)
  }

  /** A buffer handed out by GetStringUTFChars: its address and the decoded text. */
  datatype Buffer = Buffer(address: nat, text: string)

  /** What the binding asked of the runtime, in order. */
  datatype Event =
    | Checked(raised: bool)
    | Described
    | Cleared
    | Invoked(isStatic: bool, target: Ref, mid: MethodId, args: seq<JValue>)
    | Constructed(cls: Ref, mid: MethodId, args: seq<JValue>)
    | FieldRead(isStatic: bool, target: Ref, field: FieldId)
    | LocalDeleted(ref: Ref)
    | GlobalDeleted(ref: Ref)

  /** `s` with `elems` written over it from `start` on. */
  function Splice<T>(s: seq<T>, start: nat, elems: seq<T>): (r: seq<T>)
    requires start + |elems| <= |s|
    ensures |r| == |s|
    ensures forall i :: 0 <= i < |s| ==> r[i] == if start <= i < start + |elems| then elems[i - start] else s[i]
  {
    s[..start] + elems + s[start + |elems|..]
  }

  class Runtime {
    const world: World
    var pending: bool
    var locals: set<Ref>
    var globals: set<Ref>
    var referent: map<Ref, Obj>
    var utf: multiset<Ref>
    var heap: Heap
    var nextRef: nat
    var nextObj: nat
    ghost var trace: seq<Event>

    ghost predicate Valid()
      reads this`locals, this`globals, this`referent, this`heap, this`nextRef, this`nextObj
    {
      && WellFormed(world)
      && 0 < nextRef
      && (forall r :: r in referent ==> 0 < r < nextRef)
      && locals <= referent.Keys
      && globals <= referent.Keys
      && Bounded(world, heap, nextObj)
      && (forall r :: r in referent ==> referent[r] < nextObj)
      && ArraysBounded(heap)
    }

    constructor (w: World, h: Heap, firstFreeObj: nat, args: map<Ref, Obj>, firstFreeRef: nat)
      requires WellFormed(w) && ArraysBounded(h)
      requires Bounded(w, h, firstFreeObj)
      requires forall r :: r in args ==> 0 < r < firstFreeRef && args[r] < firstFreeObj
      ensures Valid()
      ensures world == w && heap == h && referent == args && locals == args.Keys && globals == {}
      ensures !pending && utf == multiset{} && trace == []
    {
      world := w;
      heap := h;
      nextObj := firstFreeObj;
      referent := args;
      locals := args.Keys;
      globals := {};
      nextRef := if firstFreeRef == 0 then 1 else firstFreeRef;
      pending := false;
      utf := multiset{};
      trace := [];
    }

    predicate Live(r: Ref)
      reads this`locals, this`globals
    {
      r in locals || r in globals
    }

    /** The class object of a live reference's object, if the heap knows it. */
    function ClassOf(r: Ref): Option<Obj>
      reads this`locals, this`globals, this`referent, this`heap
    {
      if Live(r) && r in referent && referent[r] in heap.classOf then Some(heap.classOf[referent[r]]) else None
    }

    /** The text of a live reference to a string. */
    function Text(r: Ref): Option<string>
      reads this`locals, this`globals, this`referent, this`heap
    {
      if Live(r) && r in referent && referent[r] in heap.strings then Some(heap.strings[referent[r]]) else None
    }

    function Ints(r: Ref): Option<seq<Int32>>
      reads this`locals, this`globals, this`referent, this`heap
    {
      if Live(r) && r in referent && referent[r] in heap.ints then Some(heap.ints[referent[r]]) else None
    }

    function Bytes(r: Ref): Option<seq<Int8>>
      reads this`locals, this`globals, this`referent, this`heap
    {
      if Live(r) && r in referent && referent[r] in heap.bytes then Some(heap.bytes[referent[r]]) else None
    }

    function Elements(r: Ref): Option<seq<Option<Obj>>>
      reads this`locals, this`globals, this`referent, this`heap
    {
      if Live(r) && r in referent && referent[r] in heap.elements then Some(heap.elements[referent[r]]) else None
    }

    /** The length of a live array reference; 0 for anything else. */
    function ArrayLength(r: Ref): (n: nat)
      requires Valid()
      reads this`locals, this`globals, this`referent, this`heap, this`nextRef, this`nextObj
      ensures n < 0x8000_0000
    {
      if Elements(r).Some? then |Elements(r).value|
      else if Ints(r).Some? then |Ints(r).value|
      else if Bytes(r).Some? then |Bytes(r).value|
      else 0
    }

    /** The identifier of a member of a class object: NULL (0) when it has no such member. */
    function Lookup(t: Table, cls: Obj, name: string, descriptor: string): nat
    {
      MemberOf(world, t, cls, name, descriptor)
    }

    /** The identifier a lookup through a class reference resolves to: NULL (0) when the
        reference is not live or the class has no such member. */
    function MemberId(t: Table, cls: Ref, name: string, descriptor: string): nat
      reads this`locals, this`globals, this`referent
    {
      if Live(cls) && cls in referent then Lookup(t, referent[cls], name, descriptor) else 0
    }

    /** No reference was created or deleted. */
    twostate predicate SameRefs()
      reads this`locals, this`globals, this`referent, this`nextRef
    {
      locals == old(locals) && globals == old(globals) && referent == old(referent) && nextRef == old(nextRef)
    }

    /** `r` is a new local reference to `o`, and no other reference changed. */
    twostate predicate NewLocal(r: Ref, o: Obj)
      reads this`locals, this`globals, this`referent, this`nextRef
    {
      && r == old(nextRef) && r != Null && r !in old(referent)
      && nextRef == old(nextRef) + 1
      && locals == old(locals) + {r} && globals == old(globals)
      && referent == old(referent)[r := o]
    }

    /** `r` is NULL with no reference created, or a new local reference. */
    twostate predicate NewLocalOrNull(r: Ref)
      reads this`locals, this`globals, this`referent, this`nextRef
    {
      (r == Null && SameRefs()) || (r in referent && NewLocal(r, referent[r]))
    }

    method AddLocal(o: Obj) returns (r: Ref)
      requires Valid() && o < nextObj
      modifies this`locals, this`referent, this`nextRef
      ensures Valid()
      ensures NewLocal(r, o)
    {
      r := nextRef;
      locals := locals + {r};
      referent := referent[r := o];
      nextRef := nextRef + 1;
    }

    method AllocObject() returns (o: Obj)
      requires Valid()
      modifies this`nextObj
      ensures o == old(nextObj) && o !in Objects(heap) && nextObj == o + 1
      ensures forall r :: r in referent ==> referent[r] != o
      ensures Valid()
    {
      o := nextObj;
      nextObj := nextObj + 1;
    }

    /** A new object of class `c`. */
    method AllocInstance(c: Obj) returns (o: Obj)
      requires Valid() && c < nextObj
      modifies this`nextObj, this`heap
      ensures Valid()
      ensures o == old(nextObj) && o !in old(Objects(heap)) && nextObj == o + 1
      ensures heap == old(heap).(classOf := old(heap.classOf)[o := c])
    {
      o := AllocObject();
      heap := heap.(classOf := heap.classOf[o := c]);
    }

    /** A new string holding `s`. */
    method AllocString(s: string) returns (o: Obj)
      requires Valid()
      modifies this`nextObj, this`heap
      ensures Valid()
      ensures o == old(nextObj) && o !in old(Objects(heap)) && nextObj == o + 1
      ensures heap == old(heap).(strings := old(heap.strings)[o := s])
    {
      o := AllocObject();
      heap := heap.(strings := heap.strings[o := s]);
    }

    /** A new int array holding `a`. */
    method AllocInts(a: seq<Int32>) returns (o: Obj)
      requires Valid() && |a| < 0x8000_0000
      modifies this`nextObj, this`heap
      ensures Valid()
      ensures o == old(nextObj) && o !in old(Objects(heap)) && nextObj == o + 1
      ensures heap == old(heap).(ints := old(heap.ints)[o := a])
    {
      o := AllocObject();
      heap := heap.(ints := heap.ints[o := a]);
    }

    /** A new byte array holding `a`. */
    method AllocBytes(a: seq<Int8>) returns (o: Obj)
      requires Valid() && |a| < 0x8000_0000
      modifies this`nextObj, this`heap
      ensures Valid()
      ensures o == old(nextObj) && o !in old(Objects(heap)) && nextObj == o + 1
      ensures heap == old(heap).(bytes := old(heap.bytes)[o := a])
    {
      o := AllocObject();
      heap := heap.(bytes := heap.bytes[o := a]);
    }

    /** The reference a Java call or a field read hands back: NULL, or a new local
        reference to an existing object or to a new one. */
    method AnyLocalOrNull() returns (r: Ref)
      requires Valid()
      modifies this`locals, this`referent, this`nextRef, this`nextObj
      ensures Valid()
      ensures NewLocalOrNull(r)
    {
      var isNull: bool := *;
      if isNull {
        r := Null;
      } else {
        var o: Obj := *;
        if o >= nextObj {
          o := AllocObject();
        }
        r := AddLocal(o);
      }
    }

    // Exceptions

    method ExceptionCheck() returns (raised: bool)
      requires Valid()
      modifies this`trace
      ensures Valid()
      ensures raised == pending
      ensures trace == old(trace) + [Checked(raised)]
    {
      raised := pending;
      trace := trace + [Checked(raised)];
    }

    /** Reports the pending exception; the JNI specification says this also clears it. */
    method ExceptionDescribe()
      requires Valid()
      modifies this`pending, this`trace
      ensures Valid()
      ensures !pending
      ensures trace == old(trace) + [Described]
    {
      pending := false;
      trace := trace + [Described];
    }

    method ExceptionClear()
      requires Valid()
      modifies this`pending, this`trace
      ensures Valid()
      ensures !pending
      ensures trace == old(trace) + [Cleared]
    {
      pending := false;
      trace := trace + [Cleared];
    }

    // References

    method DeleteLocalRef(r: Ref)
      requires Valid()
      modifies this`locals, this`trace
      ensures Valid()
      ensures locals == old(locals) - {r}
      ensures trace == old(trace) + [LocalDeleted(r)]
    {
      locals := locals - {r};
      trace := trace + [LocalDeleted(r)];
    }

    /** A new global reference to the same object, or NULL when `r` is not live or the
        runtime is out of memory. */
    method NewGlobalRef(r: Ref) returns (g: Ref)
      requires Valid()
      modifies this`globals, this`referent, this`nextRef
      ensures Valid()
      ensures locals == old(locals)
      ensures g == Null ==> SameRefs()
      ensures g != Null ==>
        && old(Live(r)) && g == old(nextRef) && g !in old(referent) && nextRef == old(nextRef) + 1
        && globals == old(globals) + {g} && referent == old(referent)[g := old(referent)[r]]
    {
      var outOfMemory: bool := *;
      if !Live(r) || outOfMemory {
        g := Null;
      } else {
        g := nextRef;
        globals := globals + {g};
        referent := referent[g := referent[r]];
        nextRef := nextRef + 1;
      }
    }

    method DeleteGlobalRef(g: Ref)
      requires Valid()
      modifies this`globals, this`trace
      ensures Valid()
      ensures globals == old(globals) - {g}
      ensures trace == old(trace) + [GlobalDeleted(g)]
    {
      globals := globals - {g};
      trace := trace + [GlobalDeleted(g)];
    }

    // Classes and members

    /** A new local reference to the named class; NULL with NoClassDefFoundError pending
        when no class has that internal name. */
    method FindClass(name: string) returns (c: Ref)
      requires Valid()
      modifies this`locals, this`referent, this`nextRef, this`pending
      ensures Valid()
      ensures name in world.classes ==> NewLocal(c, world.classes[name]) && pending == old(pending)
      ensures name !in world.classes ==> c == Null && SameRefs() && pending
    {
      if name in world.classes {
        c := AddLocal(world.classes[name]);
      } else {
        c := Null;
        pending := true;
      }
    }

    /** A new local reference to the class of the object; NULL when the reference is not
        live. */
    method GetObjectClass(obj: Ref) returns (c: Ref)
      requires Valid()
      modifies this`locals, this`referent, this`nextRef
      ensures Valid()
      ensures old(ClassOf(obj)).Some? ==> NewLocal(c, old(ClassOf(obj)).value)
      ensures old(ClassOf(obj)).None? ==> c == Null && SameRefs()
    {
      var cls := ClassOf(obj);
      if cls.Some? {
        c := AddLocal(cls.value);
      } else {
        c := Null;
      }
    }

    /** GetMethodID, GetStaticMethodID, GetFieldID and GetStaticFieldID: the member's
        identifier, or NULL with NoSuchMethodError or NoSuchFieldError pending. */
    method GetMemberID(t: Table, cls: Ref, name: string, descriptor: string) returns (id: nat)
      requires Valid()
      modifies this`pending
      ensures Valid()
      ensures id == MemberId(t, cls, name, descriptor)
      ensures pending == (old(pending) || id == 0)
    {
      id := MemberId(t, cls, name, descriptor);
      if id == 0 {
        pending := true;
      }
    }

    // Calls

    /** Call<Type>Method and CallStatic<Type>MethodA: the Java method may raise, leaving
        an exception pending and a zero result; otherwise it returns any value of the
        result's kind, an object result being NULL or a new local reference. */
    method Invoke(kind: Option<Kind>, isStatic: bool, target: Ref, mid: MethodId, args: seq<JValue>)
      returns (result: Option<JValue>)
      requires Valid()
      modifies this`pending, this`locals, this`referent, this`nextRef, this`nextObj, this`trace
      ensures Valid()
      ensures trace == old(trace) + [Invoked(isStatic, target, mid, args)]
      ensures result.Some? <==> kind.Some?
      ensures result.Some? ==> HasKind(result.value, kind.value)
      ensures old(pending) ==> pending
      ensures pending && !old(pending) && kind.Some? ==> result.value == Zero(kind.value)
      ensures kind == Some(ObjectKind) ==> NewLocalOrNull(result.value.l)
      ensures kind != Some(ObjectKind) ==> SameRefs()
    {
      trace := trace + [Invoked(isStatic, target, mid, args)];
      var raised: bool := *;
      if kind.None? {
        result := None;
        pending := pending || raised;
      } else if raised {
        pending := true;
        result := Some(Zero(kind.value));
      } else if kind.value == ObjectKind {
        var r := AnyLocalOrNull();
        result := Some(JObject(r));
      } else {
        var p: JValue := *;
        if !HasKind(p, kind.value) {
          p := Zero(kind.value);
        }
        result := Some(p);
      }
    }

    /** NewObjectA: the constructor may raise, giving NULL with the exception pending;
        otherwise a new local reference to a new object of the class. */
    method NewObject(cls: Ref, mid: MethodId, args: seq<JValue>) returns (obj: Ref)
      requires Valid()
      modifies this`pending, this`locals, this`referent, this`nextRef, this`nextObj, this`heap, this`trace
      ensures Valid()
      ensures trace == old(trace) + [Constructed(cls, mid, args)]
      ensures obj == Null ==> pending && SameRefs() && heap == old(heap)
      ensures obj != Null ==>
        && old(Live(cls)) && pending == old(pending)
        && obj in referent && NewLocal(obj, referent[obj]) && referent[obj] !in old(Objects(heap))
        && heap == old(heap).(classOf := old(heap.classOf)[referent[obj] := old(referent[cls])])
    {
      trace := trace + [Constructed(cls, mid, args)];
      var raised: bool := *;
      if raised || !Live(cls) {
        pending := true;
        obj := Null;
      } else {
        var o := AllocInstance(referent[cls]);
        obj := AddLocal(o);
      }
    }

    /** Get<Type>Field and GetStatic<Type>Field: any value of the field's kind, an object
        value being NULL or a new local reference. */
    method ReadField(kind: Kind, isStatic: bool, target: Ref, field: FieldId) returns (value: JValue)
      requires Valid()
      modifies this`locals, this`referent, this`nextRef, this`nextObj, this`trace
      ensures Valid()
      ensures trace == old(trace) + [FieldRead(isStatic, target, field)]
      ensures HasKind(value, kind)
      ensures kind == ObjectKind ==> NewLocalOrNull(value.l)
      ensures kind != ObjectKind ==> SameRefs()
    {
      trace := trace + [FieldRead(isStatic, target, field)];
      if kind == ObjectKind {
        var r := AnyLocalOrNull();
        value := JObject(r);
      } else {
        value := *;
        if !HasKind(value, kind) {
          value := Zero(kind);
        }
      }
    }

    // Strings

    /** NewStringUTF and NewString: a new local reference to a new string holding `s`, or
        NULL with OutOfMemoryError pending. */
    method NewJavaString(s: string) returns (str: Ref)
      requires Valid()
      modifies this`pending, this`locals, this`referent, this`nextRef, this`nextObj, this`heap
      ensures Valid()
      ensures str == Null ==> pending && SameRefs() && heap == old(heap)
      ensures str != Null ==>
        && pending == old(pending)
        && str in referent && NewLocal(str, referent[str]) && referent[str] !in old(Objects(heap))
        && referent[str] == old(nextObj)
        && heap == old(heap).(strings := old(heap.strings)[referent[str] := s])
        && Text(str) == Some(s)
    {
      var outOfMemory: bool := *;
      if outOfMemory {
        pending := true;
        str := Null;
      } else {
        var o := AllocString(s);
        str := AddLocal(o);
      }
    }

    /** A buffer holding the string's text, counted as outstanding until released.  JNI
        leaves a NULL or non-string reference undefined, and a checking VM aborts on one:
        `None` stands for that abort, after which the caller does not go on. */
    method GetStringUTFChars(str: Ref) returns (chars: Option<Buffer>)
      requires Valid()
      modifies this`utf
      ensures Valid()
      ensures chars.Some? <==> old(Text(str)).Some?
      ensures chars.Some? ==>
        chars.value.text == old(Text(str)).value && chars.value.address != 0 && utf == old(utf) + multiset{str}
      ensures chars.None? ==> utf == old(utf)
    {
      var text := Text(str);
      if text.Some? {
        var address: int := *;
        if address <= 0 {
          address := 1;
        }
        chars := Some(Buffer(address, text.value));
        utf := utf + multiset{str};
      } else {
        chars := None;
      }
    }

    method ReleaseStringUTFChars(str: Ref, chars: Option<Buffer>)
      requires Valid()
      modifies this`utf
      ensures Valid()
      ensures utf == old(utf) - (if chars.Some? then multiset{str} else multiset{})
    {
      if chars.Some? {
        utf := utf - multiset{str};
      }
    }

    // Arrays

    method GetArrayLength(arr: Ref) returns (n: Int32)
      requires Valid()
      ensures n == ArrayLength(arr)
    {
      n := ArrayLength(arr);
    }

    /** The element at `index` as a new local reference (NULL for a null element); NULL
        with ArrayIndexOutOfBoundsException pending outside the array. */
    method GetObjectArrayElement(arr: Ref, index: Int32) returns (e: Ref)
      requires Valid()
      modifies this`pending, this`locals, this`referent, this`nextRef
      ensures Valid()
      ensures var es := old(Elements(arr));
        if es.Some? && 0 <= index < |es.value| then
          pending == old(pending) &&
          (es.value[index].None? ==> e == Null && SameRefs()) &&
          (es.value[index].Some? ==> NewLocal(e, es.value[index].value))
        else
          e == Null && SameRefs() && pending
    {
      var es := Elements(arr);
      if es.Some? && 0 <= index < |es.value| {
        match es.value[index]
        case None => e := Null;
        case Some(o) => e := AddLocal(o);
      } else {
        e := Null;
        pending := true;
      }
    }

    /** Copies `len` elements from `start` into the buffer; outside the array nothing is
        copied and ArrayIndexOutOfBoundsException is pending. */
    method GetIntArrayRegion(arr: Ref, start: Int32, len: Int32, buf: array<Int32>)
      requires Valid() && 0 <= len <= buf.Length
      modifies buf, this`pending
      ensures Valid()
      ensures var a := Ints(arr);
        if a.Some? && 0 <= start && start + len <= |a.value| then
          buf[..len] == a.value[start..start + len] && buf[len..] == old(buf[len..]) && pending == old(pending)
        else
          buf[..] == old(buf[..]) && pending
    {
      var a := Ints(arr);
      if a.Some? && 0 <= start && start + len <= |a.value| {
        var i := 0;
        while i < len
          invariant 0 <= i <= len
          invariant forall j :: 0 <= j < i ==> buf[j] == a.value[start + j]
          invariant forall j :: i <= j < buf.Length ==> buf[j] == old(buf[j])
          invariant pending == old(pending)
        {
          buf[i] := a.value[start + i];
          i := i + 1;
        }
        assert buf[..len] == a.value[start..start + len];
        assert buf[len..] == old(buf[len..]);
      } else {
        pending := true;
      }
    }

    /** Writes `elems` over the array from `start`; outside the array nothing is written
        and ArrayIndexOutOfBoundsException is pending. */
    method SetIntArrayRegion(arr: Ref, start: Int32, elems: seq<Int32>)
      requires Valid()
      modifies this`heap, this`pending
      ensures Valid()
      ensures var a := old(Ints(arr));
        if a.Some? && 0 <= start && start + |elems| <= |a.value| then
          heap == old(heap).(ints := old(heap.ints)[old(referent[arr]) := Splice(a.value, start, elems)]) &&
          Ints(arr) == Some(Splice(a.value, start, elems)) && pending == old(pending)
        else
          heap == old(heap) && pending
    {
      var a := Ints(arr);
      if a.Some? && 0 <= start && start + |elems| <= |a.value| {
        heap := heap.(ints := heap.ints[referent[arr] := Splice(a.value, start, elems)]);
        assert Objects(heap) == Objects(old(heap));
      } else {
        pending := true;
      }
    }

    method GetByteArrayRegion(arr: Ref, start: Int32, len: Int32, buf: array<Int8>)
      requires Valid() && 0 <= len <= buf.Length
      modifies buf, this`pending
      ensures Valid()
      ensures var a := Bytes(arr);
        if a.Some? && 0 <= start && start + len <= |a.value| then
          buf[..len] == a.value[start..start + len] && buf[len..] == old(buf[len..]) && pending == old(pending)
        else
          buf[..] == old(buf[..]) && pending
    {
      var a := Bytes(arr);
      if a.Some? && 0 <= start && start + len <= |a.value| {
        var i := 0;
        while i < len
          invariant 0 <= i <= len
          invariant forall j :: 0 <= j < i ==> buf[j] == a.value[start + j]
          invariant forall j :: i <= j < buf.Length ==> buf[j] == old(buf[j])
          invariant pending == old(pending)
        {
          buf[i] := a.value[start + i];
          i := i + 1;
        }
        assert buf[..len] == a.value[start..start + len];
        assert buf[len..] == old(buf[len..]);
      } else {
        pending := true;
      }
    }

    method SetByteArrayRegion(arr: Ref, start: Int32, elems: seq<Int8>)
      requires Valid()
      modifies this`heap, this`pending
      ensures Valid()
      ensures var a := old(Bytes(arr));
        if a.Some? && 0 <= start && start + |elems| <= |a.value| then
          heap == old(heap).(bytes := old(heap.bytes)[old(referent[arr]) := Splice(a.value, start, elems)]) &&
          Bytes(arr) == Some(Splice(a.value, start, elems)) && pending == old(pending)
        else
          heap == old(heap) && pending
    {
      var a := Bytes(arr);
      if a.Some? && 0 <= start && start + |elems| <= |a.value| {
        heap := heap.(bytes := heap.bytes[referent[arr] := Splice(a.value, start, elems)]);
        assert Objects(heap) == Objects(old(heap));
      } else {
        pending := true;
      }
    }

    /** NewIntArray: a new zero-filled array, or NULL with NegativeArraySizeException or
        OutOfMemoryError pending. */
    method NewIntArray(n: Int32) returns (arr: Ref)
      requires Valid()
      modifies this`pending, this`locals, this`referent, this`nextRef, this`nextObj, this`heap
      ensures Valid()
      ensures n < 0 ==> arr == Null
      ensures arr == Null ==> pending && SameRefs() && heap == old(heap)
      ensures arr != Null ==>
        pending == old(pending) && arr in referent && NewLocal(arr, referent[arr]) &&
        Ints(arr) == Some(seq(n, _ => 0))
    {
      var outOfMemory: bool := *;
      if n < 0 || outOfMemory {
        pending := true;
        arr := Null;
      } else {
        var o := AllocInts(seq(n, _ => 0));
        arr := AddLocal(o);
      }
    }

    method NewByteArray(n: Int32) returns (arr: Ref)
      requires Valid()
      modifies this`pending, this`locals, this`referent, this`nextRef, this`nextObj, this`heap
      ensures Valid()
      ensures n < 0 ==> arr == Null
      ensures arr == Null ==> pending && SameRefs() && heap == old(heap)
      ensures arr != Null ==>
        pending == old(pending) && arr in referent && NewLocal(arr, referent[arr]) &&
        Bytes(arr) == Some(seq(n, _ => 0))
    {
      var outOfMemory: bool := *;
      if n < 0 || outOfMemory {
        pending := true;
        arr := Null;
      } else {
        var o := AllocBytes(seq(n, _ => 0));
        arr := AddLocal(o);
      }
    }
  }
}
