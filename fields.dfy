/**
 * Field access of the JNI module: the field identifier is looked up with the
 * type's descriptor, a NULL identifier throws `InvalidParameters`, and the
 * value comes from the type's field reader.
 */
module JniFields {
  import opened Jni
  import opened Runtime
  import opened JniErrors
  import opened Convertible
  import opened Marshalling

  /** `GetStaticField(_:on:)`. A field that is missing throws `InvalidParameters` and
      leaves the runtime's exception pending; otherwise the field is read with the
      identifier found. */
  method GetStaticField(rt: Runtime, fieldName: string, javaClass: Ref, t: JavaType)
    returns (r: Outcome<JavaValue>)
    requires rt.Valid()
    modifies rt`pending, rt`trace, rt`locals, rt`referent, rt`nextRef, rt`nextObj
    ensures rt.Valid()
    ensures !r.Trapped?
    ensures rt.globals == old(rt.globals) && old(rt.locals) <= rt.locals
    ensures var id := old(rt.MemberId(StaticFields, javaClass, fieldName, Tag(t)));
      && (id == 0 ==> r == Thrown(InvalidParameters) && rt.pending && rt.trace == old(rt.trace))
      && (id != 0 ==>
            && (r.Thrown? <==> old(rt.pending))
            && (r.Thrown? ==> r.error == JNIError)
            && (r.Success? ==> TypeOf(r.value) == t)
            && !rt.pending
            && rt.trace == old(rt.trace) + [FieldRead(true, javaClass, id)] + CheckEvents(old(rt.pending)))
  {
    var fid := rt.GetMemberID(StaticFields, javaClass, fieldName, Tag(t));
    if fid == 0 {
      return Thrown(InvalidParameters);
    }
    ghost var raw;
    r, raw := FromField(rt, t, true, javaClass, fid);
  }

  /** `GetField(_:from:)`. The object's class comes back as a local reference that is never
      deleted; a NULL class or a missing field throws `InvalidParameters` without touching
      the pending exception. */
  method GetField(rt: Runtime, fieldName: string, javaObject: Ref, t: JavaType)
    returns (r: Outcome<JavaValue>, ghost javaClass: Ref)
    requires rt.Valid()
    modifies rt`pending, rt`trace, rt`locals, rt`referent, rt`nextRef, rt`nextObj
    ensures rt.Valid()
    ensures !r.Trapped?
    ensures rt.globals == old(rt.globals) && old(rt.locals) <= rt.locals
    ensures old(rt.ClassOf(javaObject)).None? ==>
      r == Thrown(InvalidParameters) && rt.pending == old(rt.pending) && rt.trace == old(rt.trace)
    ensures old(rt.ClassOf(javaObject)).Some? ==>
      javaClass == old(rt.nextRef) && javaClass in rt.locals
    ensures var c := old(rt.ClassOf(javaObject));
      var id := if c.Some? then rt.Lookup(InstanceFields, c.value, fieldName, Tag(t)) else 0;
      && (c.Some? && id == 0 ==> r == Thrown(InvalidParameters) && rt.pending && rt.trace == old(rt.trace))
      && (id != 0 ==>
            && (r.Thrown? <==> old(rt.pending))
            && (r.Thrown? ==> r.error == JNIError)
            && (r.Success? ==> TypeOf(r.value) == t)
            && !rt.pending
            && rt.trace == old(rt.trace) + [FieldRead(false, javaObject, id)] + CheckEvents(old(rt.pending)))
  {
    var cls := rt.GetObjectClass(javaObject);
    javaClass := cls;
    if cls == Null {
      return Thrown(InvalidParameters), javaClass;
    }
    var fid := rt.GetMemberID(InstanceFields, cls, fieldName, Tag(t));
    if fid == 0 {
      return Thrown(InvalidParameters), javaClass;
    }
    ghost var raw;
    r, raw := FromField(rt, t, false, javaObject, fid);
  }
}
