/**
 * Method lookup and the call wrappers of the JNI module.  Each wrapper hands the
 * arguments to the runtime and then runs the exception check, so a Java
 * exception surfaces as a thrown JNIError and no value is returned with it.
 */
module JniMethods {
  import opened Jni
  import opened Wrappers
  import opened Runtime
  import opened JniErrors

  /** The second half of `GetMethodID(for:)`: the lookup on the class reference, the
      deletion of that temporary reference, then the check. */
  method ResolveAndDeleteClass(rt: Runtime, cls: Ref, name: string, sig: string) returns (r: Outcome<MethodId>)
    requires rt.Valid() && !rt.pending
    modifies rt`pending, rt`trace, rt`locals
    ensures rt.Valid() && !rt.pending
    ensures rt.locals == old(rt.locals) - {cls}
    ensures var id := old(rt.MemberId(InstanceMethods, cls, name, sig));
      (r.Success? <==> id != 0) && (r.Success? ==> r.value == id) && (!r.Success? ==> r == Thrown(JNIError))
    ensures AppendsNoCalls(old(rt.trace), rt.trace)
  {
    var id := rt.GetMemberID(InstanceMethods, cls, name, sig);
    rt.DeleteLocalRef(cls);
    ghost var t1 := rt.trace;
    var check := CheckAndThrowOnJNIError(rt);
    AppendsNoCallsStep(old(rt.trace), t1, CheckEvents(id == 0));
    if check.Thrown? {
      r := Thrown(check.error);
    } else {
      r := Success(id);
    }
  }

  /** `GetMethodID(for:methodName:methodSignature:)`: resolves the method against the
      class of the object, through a temporary local class reference that is deleted
      before the second check.  When an exception is already pending the first check
      throws and that class reference is never deleted. */
  method GetMethodIDFor(rt: Runtime, obj: Ref, name: string, sig: string) returns (r: Outcome<MethodId>)
    requires rt.Valid()
    modifies rt`pending, rt`trace, rt`locals, rt`referent, rt`nextRef, rt`nextObj
    ensures rt.Valid()
    ensures !rt.pending && rt.globals == old(rt.globals)
    ensures old(rt.pending) ==> r == Thrown(JNIError)
    ensures r.Trapped? <==> !old(rt.pending) && old(rt.ClassOf(obj)).None?
    ensures r.Success? <==>
      !old(rt.pending) && old(rt.ClassOf(obj)).Some? && rt.Lookup(InstanceMethods, old(rt.ClassOf(obj)).value, name, sig) != 0
    ensures r.Success? ==> r.value == rt.Lookup(InstanceMethods, old(rt.ClassOf(obj)).value, name, sig) != 0
    ensures r.Thrown? ==> r.error == JNIError
    ensures !old(rt.pending) ==> rt.locals == old(rt.locals)
    ensures old(rt.locals) <= rt.locals && Extends(old(rt.referent), rt.referent)
    ensures AppendsNoCalls(old(rt.trace), rt.trace)
  {
    ghost var c := rt.ClassOf(obj);
    var cls := rt.GetObjectClass(obj);
    var check := CheckAndThrowOnJNIError(rt);
    AppendsNoCallsStep(old(rt.trace), old(rt.trace), CheckEvents(old(rt.pending)));
    if check.Thrown? {
      r := Thrown(check.error);
      return;
    }
    if cls == Null {
      r := Trapped;
      return;
    }
    assert rt.MemberId(InstanceMethods, cls, name, sig) == rt.Lookup(InstanceMethods, c.value, name, sig);
    ghost var t1 := rt.trace;
    r := ResolveAndDeleteClass(rt, cls, name, sig);
    AppendsNoCallsTrans(old(rt.trace), t1, rt.trace);
  }

  /** How `GetStaticMethodID(for:)` as written ends, and whether an exception is left
      pending, given the identifier the runtime returned and whether an exception is
      pending after the lookup: a NULL identifier throws before the check runs. */
  function StaticMethodIDAsWritten(id: nat, pending: bool): (Outcome<MethodId>, bool)
  {
    if id == 0 then (Thrown(InvalidMethodID), pending)
    else if pending then (Thrown(JNIError), false)
    else (Success(id), false)
  }

  /** The same steps with the check first, so the exception is cleared on every path. */
  function StaticMethodIDChecked(id: nat, pending: bool): (Outcome<MethodId>, bool)
  {
    if pending then (Thrown(JNIError), false)
    else if id == 0 then (Thrown(InvalidMethodID), false)
    else (Success(id), false)
  }

  /** A static method the class does not have leaves NoSuchMethodError pending after the
      InvalidMethodID is thrown, so the next runtime call runs with an exception pending. */
  lemma StaticLookupMissLeavesExceptionPending()
    ensures StaticMethodIDAsWritten(0, true) == (Thrown(InvalidMethodID), true)
    ensures StaticMethodIDChecked(0, true) == (Thrown(JNIError), false)
  {
  }

  /** Checking first never leaves an exception pending; since a failed lookup always raises,
      the lookup fails exactly when a JNIError is thrown, and an identifier is returned only
      when it is not NULL. */
  lemma {:induction false} StaticMethodIDCheckedClears(id: nat, pending: bool)
    requires id == 0 ==> pending
    ensures !StaticMethodIDChecked(id, pending).1
    ensures StaticMethodIDChecked(id, pending).0 != Thrown(InvalidMethodID)
    ensures StaticMethodIDChecked(id, pending).0.Success? <==> !pending
    ensures StaticMethodIDChecked(id, pending).0.Success? ==> StaticMethodIDChecked(id, pending).0.value == id != 0
  {
  }

  /** `GetStaticMethodID(for:)` as written. */
  method GetStaticMethodIDAsWritten(rt: Runtime, cls: Ref, name: string, sig: string) returns (r: Outcome<MethodId>)
    requires rt.Valid()
    modifies rt`pending, rt`trace
    ensures rt.Valid()
    ensures var id := old(rt.MemberId(StaticMethods, cls, name, sig));
      (r, rt.pending) == StaticMethodIDAsWritten(id, old(rt.pending) || id == 0)
    ensures AppendsNoCalls(old(rt.trace), rt.trace)
  {
    var id := rt.GetMemberID(StaticMethods, cls, name, sig);
    if id == 0 {
      r := Thrown(InvalidMethodID);
      return;
    }
    var check := CheckAndThrowOnJNIError(rt);
    AppendsNoCallsStep(old(rt.trace), old(rt.trace), CheckEvents(old(rt.pending)));
    if check.Thrown? {
      r := Thrown(check.error);
    } else {
      r := Success(id);
    }
  }

  /** `GetStaticMethodID(for:)` with the check before the NULL test. */
  method GetStaticMethodIDFor(rt: Runtime, cls: Ref, name: string, sig: string) returns (r: Outcome<MethodId>)
    requires rt.Valid()
    modifies rt`pending, rt`trace
    ensures rt.Valid()
    ensures var id := old(rt.MemberId(StaticMethods, cls, name, sig));
      (r, rt.pending) == StaticMethodIDChecked(id, old(rt.pending) || id == 0)
    ensures !rt.pending
    ensures AppendsNoCalls(old(rt.trace), rt.trace)
  {
    var id := rt.GetMemberID(StaticMethods, cls, name, sig);
    var check := CheckAndThrowOnJNIError(rt);
    AppendsNoCallsStep(old(rt.trace), old(rt.trace), CheckEvents(old(rt.pending) || id == 0));
    if check.Thrown? {
      r := Thrown(check.error);
    } else if id == 0 {
      r := Thrown(InvalidMethodID);
    } else {
      r := Success(id);
    }
  }

  /** The call wrappers `CallVoidMethod`, `CallBooleanMethod`, `CallIntMethod`,
      `CallFloatMethod`, `CallInt64Method`, `CallDoubleMethod` and their static
      counterparts: the runtime call, then the check.  `kind` is the result slot, none
      for void. */
  method CallMethod(rt: Runtime, kind: Option<Kind>, isStatic: bool, target: Ref, mid: MethodId, args: seq<JValue>)
    returns (r: Outcome<Option<JValue>>)
    requires rt.Valid()
    modifies rt`pending, rt`trace, rt`locals, rt`referent, rt`nextRef, rt`nextObj
    ensures rt.Valid()
    ensures !rt.pending && !r.Trapped?
    ensures r.Thrown? ==> r.error == JNIError
    ensures old(rt.pending) ==> r.Thrown?
    ensures r.Success? ==> (r.value.Some? <==> kind.Some?) && (kind.Some? ==> HasKind(r.value.value, kind.value))
    ensures kind != Some(ObjectKind) ==> rt.SameRefs()
    ensures kind == Some(ObjectKind) && r.Success? ==> rt.NewLocalOrNull(r.value.value.l)
    ensures rt.globals == old(rt.globals) && old(rt.locals) <= rt.locals
    ensures rt.trace == old(rt.trace) + [Invoked(isStatic, target, mid, args)] + CheckEvents(r.Thrown?)
    ensures CallsChecked(old(rt.trace)) ==> CallsChecked(rt.trace)
  {
    var result := rt.Invoke(kind, isStatic, target, mid, args);
    var check := CheckAndThrowOnJNIError(rt);
    CallsCheckedAppend(old(rt.trace), Invoked(isStatic, target, mid, args), check.Thrown?);
    if check.Thrown? {
      r := Thrown(check.error);
    } else {
      r := Success(result);
    }
  }

  /** `CallStaticBooleanMethod(_:on:parameters:)`: the raw result compared with true. */
  method CallStaticBooleanMethod(rt: Runtime, cls: Ref, mid: MethodId, args: seq<JValue>)
    returns (r: Outcome<bool>, ghost raw: UInt8)
    requires rt.Valid()
    modifies rt`pending, rt`trace, rt`locals, rt`referent, rt`nextRef, rt`nextObj
    ensures rt.Valid() && rt.SameRefs()
    ensures !rt.pending && !r.Trapped?
    ensures old(rt.pending) ==> r.Thrown?
    ensures r.Thrown? ==> r.error == JNIError
    ensures r.Success? ==> r.value == (raw == JNI_TRUE)
    ensures rt.trace == old(rt.trace) + [Invoked(true, cls, mid, args)] + CheckEvents(r.Thrown?)
    ensures CallsChecked(old(rt.trace)) ==> CallsChecked(rt.trace)
  {
    var c := CallMethod(rt, Some(BooleanKind), true, cls, mid, args);
    if c.Thrown? {
      r, raw := Thrown(c.error), 0;
    } else {
      var z := c.value.value.z;
      r, raw := Success(z == JNI_TRUE), z;
    }
  }

  /** How `CallObjectMethod` as written ends, given whether an exception is pending after
      the Java call and the reference it returned: the result is force-unwrapped before
      the check. */
  function ObjectCallAsWritten(raised: bool, result: Ref): Outcome<Ref>
  {
    if result == Null then Trapped
    else if raised then Thrown(JNIError)
    else Success(result)
  }

  /** How `CallStaticObjectMethod` ends: the check first, then the unwrap. */
  function ObjectCallChecked(raised: bool, result: Ref): Outcome<Ref>
  {
    if raised then Thrown(JNIError)
    else if result == Null then Trapped
    else Success(result)
  }

  /** A Java method that throws makes the runtime return NULL, so the unwrap before the
      check traps instead of throwing a JNIError. */
  lemma ObjectCallTrapsOnJavaException()
    ensures ObjectCallAsWritten(true, Null) == Trapped
    ensures ObjectCallChecked(true, Null) == Thrown(JNIError)
  {
  }

  /** With the check first, a JNIError is thrown exactly when an exception is pending,
      a trap means the method returned null without raising, and success carries the
      non-null reference. */
  lemma {:induction false} ObjectCallCheckedSurfacesExceptions(raised: bool, result: Ref)
    ensures ObjectCallChecked(raised, result) == Thrown(JNIError) <==> raised
    ensures ObjectCallChecked(raised, result).Trapped? <==> !raised && result == Null
    ensures ObjectCallChecked(raised, result).Success? ==> ObjectCallChecked(raised, result).value == result != Null
    ensures !raised ==> ObjectCallChecked(raised, result) == ObjectCallAsWritten(raised, result)
  {
  }

  /** `CallObjectMethod` as written: unwrap, then check. */
  method CallObjectMethodAsWritten(rt: Runtime, obj: Ref, mid: MethodId, args: seq<JValue>)
    returns (r: Outcome<Ref>, ghost raised: bool, ghost result: Ref)
    requires rt.Valid()
    modifies rt`pending, rt`trace, rt`locals, rt`referent, rt`nextRef, rt`nextObj
    ensures rt.Valid()
    ensures r == ObjectCallAsWritten(raised, result)
    ensures old(rt.pending) ==> raised
    ensures raised && !old(rt.pending) ==> result == Null
    ensures r.Success? ==> r.value in rt.referent && rt.NewLocal(r.value, rt.referent[r.value])
    ensures rt.globals == old(rt.globals) && old(rt.locals) <= rt.locals
    ensures r.Trapped? ==> rt.pending == raised && rt.trace == old(rt.trace) + [Invoked(false, obj, mid, args)]
    ensures !r.Trapped? ==> !rt.pending && rt.trace == old(rt.trace) + [Invoked(false, obj, mid, args)] + CheckEvents(raised)
    ensures CallsChecked(old(rt.trace)) && !r.Trapped? ==> CallsChecked(rt.trace)
  {
    var v := rt.Invoke(Some(ObjectKind), false, obj, mid, args);
    var l := v.value.l;
    raised, result := rt.pending, l;
    if l == Null {
      r := Trapped;
      return;
    }
    var check := CheckAndThrowOnJNIError(rt);
    CallsCheckedAppend(old(rt.trace), Invoked(false, obj, mid, args), check.Thrown?);
    if check.Thrown? {
      r := Thrown(check.error);
    } else {
      r := Success(l);
    }
  }

  /** `CallStaticObjectMethod`, and `CallObjectMethod` with its check moved before the
      unwrap: the same steps for an instance or a static call. */
  method CallObjectMethod(rt: Runtime, isStatic: bool, target: Ref, mid: MethodId, args: seq<JValue>)
    returns (r: Outcome<Ref>, ghost raised: bool, ghost result: Ref)
    requires rt.Valid()
    modifies rt`pending, rt`trace, rt`locals, rt`referent, rt`nextRef, rt`nextObj
    ensures rt.Valid()
    ensures r == ObjectCallChecked(raised, result)
    ensures old(rt.pending) ==> raised
    ensures !rt.pending
    ensures r.Success? ==> r.value in rt.referent && rt.NewLocal(r.value, rt.referent[r.value])
    ensures r.Trapped? ==> rt.SameRefs()
    ensures rt.globals == old(rt.globals) && old(rt.locals) <= rt.locals
    ensures rt.trace == old(rt.trace) + [Invoked(isStatic, target, mid, args)] + CheckEvents(raised)
    ensures CallsChecked(old(rt.trace)) ==> CallsChecked(rt.trace)
  {
    var c := CallMethod(rt, Some(ObjectKind), isStatic, target, mid, args);
    if c.Thrown? {
      r, raised, result := Thrown(c.error), true, Null;
    } else {
      var l := c.value.value.l;
      raised, result := false, l;
      r := if l == Null then Trapped else Success(l);
    }
  }
}
