/**
 * The halves of the JavaParameterConvertible conformances that need the runtime:
 * `asJavaParameters`, which allocates a Java string for every String argument,
 * and the read paths `fromMethod`, `fromStaticMethod`, `fromField` and
 * `fromStaticField`, which call the dispatch layer and convert its raw result.
 */
module Marshalling {
  import opened Jni
  import opened Wrappers
  import opened Runtime
  import opened JniErrors
  import opened Convertible
  import opened JniMethods

  /** The text `GetString(from:)` yields for a reference: the string's contents, or the
      empty string when the reference is not a live string. */
  function GetString(rt: Runtime, r: Ref): (s: string)
    reads rt`locals, rt`globals, rt`referent, rt`heap
    ensures rt.Text(r).Some? ==> s == rt.Text(r).value
  {
    match rt.Text(r)
    case Some(s) => s
    case None => ""
  }

  /** `p` is a live local reference to a Java string holding `s`. */
  predicate HoldsString(rt: Runtime, p: JValue, s: string)
    reads rt`locals, rt`globals, rt`referent, rt`heap
  {
    p.JObject? && p.l in rt.locals && rt.Text(p.l) == Some(s)
  }

  /** `p` is what `toJavaParameter` gave for `v`: the pure conversion (an Int within the
      32-bit range), or for a String a live local reference, new since `before`, to a Java
      string holding its text. */
  predicate Converted(rt: Runtime, v: JavaValue, p: JValue, before: set<Ref>)
    reads rt`locals, rt`globals, rt`referent, rt`heap
  {
    && (v.IntValue? ==> IsInt32(v.n))
    && (!v.StringValue? ==> p == ToJavaParameter(v))
    && (v.StringValue? ==> HoldsString(rt, p, v.s) && p.l !in before)
  }

  /** The first |out| arguments were converted into `out`, in order. */
  predicate AllConverted(rt: Runtime, args: seq<JavaValue>, out: seq<JValue>, before: set<Ref>)
    reads rt`locals, rt`globals, rt`referent, rt`heap
  {
    |out| <= |args| && forall j :: 0 <= j < |out| ==> Converted(rt, args[j], out[j], before)
  }

  lemma {:induction false} AllConvertedSnoc(rt: Runtime, args: seq<JavaValue>, out: seq<JValue>, p: JValue, before: set<Ref>)
    requires AllConverted(rt, args, out, before) && |out| < |args|
    requires Converted(rt, args[|out|], p, before)
    ensures AllConverted(rt, args, out + [p], before)
  {
    var out' := out + [p];
    forall j | 0 <= j < |out'|
      ensures Converted(rt, args[j], out'[j], before)
    {
      if j < |out| {
        assert out'[j] == out[j];
      }
    }
  }

  /** `toJavaParameter` of one argument.  A String becomes a new local reference to a new
      Java string holding the text, through `NewStringUTF`, whose NULL traps on the force
      unwrap; an Int outside the 32-bit range traps in the checked conversion.  Strings
      already held by live references keep their text. */
  method ToJavaParameterIn(rt: Runtime, v: JavaValue, ghost args: seq<JavaValue>, ghost out: seq<JValue>, ghost before: set<Ref>)
    returns (r: Outcome<JValue>)
    requires rt.Valid() && before <= rt.referent.Keys
    modifies rt`pending, rt`locals, rt`referent, rt`nextRef, rt`nextObj, rt`heap
    ensures rt.Valid()
    ensures !r.Thrown?
    ensures v.IntValue? && !IsInt32(v.n) ==> r.Trapped?
    ensures r.Success? ==> Converted(rt, v, r.value, before) && rt.pending == old(rt.pending)
    ensures before <= rt.referent.Keys && Extends(old(rt.referent), rt.referent)
    ensures rt.globals == old(rt.globals) && old(rt.locals) <= rt.locals
    ensures old(AllConverted(rt, args, out, before)) ==> AllConverted(rt, args, out, before)
    ensures !v.StringValue? ==> rt.SameRefs() && rt.heap == old(rt.heap)
  {
    if v.StringValue? {
      ghost var referent0, next0 := rt.referent, rt.nextObj;
      var str := rt.NewJavaString(v.s);
      if str == Null {
        r := Trapped;
        return;
      }
      if old(AllConverted(rt, args, out, before)) {
        forall j | 0 <= j < |out|
          ensures Converted(rt, args[j], out[j], before)
        {
          if args[j].StringValue? {
            var l := out[j].l;
            assert l in old(rt.locals);
            assert referent0[l] < next0;
          }
        }
      }
      r := Success(JObject(str));
    } else if v.IntValue? && !IsInt32(v.n) {
      r := Trapped;
    } else {
      r := Success(ToJavaParameter(v));
    }
  }

  /** `asJavaParameters`: one `jvalue` per argument, in order, each what `toJavaParameter`
      gives for it; the Java strings made for String arguments are never released here. */
  method AsJavaParameters(rt: Runtime, args: seq<JavaValue>) returns (r: Outcome<seq<JValue>>)
    requires rt.Valid()
    modifies rt`pending, rt`locals, rt`referent, rt`nextRef, rt`nextObj, rt`heap
    ensures rt.Valid()
    ensures !r.Thrown?
    ensures old(rt.locals) <= rt.locals && rt.globals == old(rt.globals)
    ensures Extends(old(rt.referent), rt.referent)
    ensures r.Success? ==> |r.value| == |args| && rt.pending == old(rt.pending)
    ensures r.Success? ==> forall i :: 0 <= i < |args| ==> Converted(rt, args[i], r.value[i], old(rt.referent).Keys)
    ensures (forall i :: 0 <= i < |args| ==> !args[i].StringValue?) ==> rt.SameRefs() && rt.heap == old(rt.heap)
  {
    ghost var before := rt.referent.Keys;
    var out: seq<JValue> := [];
    var i := 0;
    while i < |args|
      invariant 0 <= i <= |args| && |out| == i
      invariant rt.Valid() && rt.pending == old(rt.pending)
      invariant old(rt.locals) <= rt.locals && rt.globals == old(rt.globals)
      invariant before <= rt.referent.Keys && Extends(old(rt.referent), rt.referent)
      invariant AllConverted(rt, args, out, before)
      invariant (forall j :: 0 <= j < i ==> !args[j].StringValue?) ==> rt.SameRefs() && rt.heap == old(rt.heap)
    {
      var p := ToJavaParameterIn(rt, args[i], args, out, before);
      if p.Trapped? {
        r := Trapped;
        return;
      }
      AllConvertedSnoc(rt, args, out, p.value, before);
      out := out + [p.value];
      i := i + 1;
    }
    r := Success(out);
  }

  /** `fromMethod` and `fromStaticMethod` of every conforming type: the typed call wrapper
      for the type's slot, then the pure conversion of the raw result.  An object result
      of an instance call comes from `CallObjectMethod` as written, which unwraps before it
      checks, so a Java exception traps with the exception still pending; a static one
      comes from `CallStaticObjectMethod`, which checks first.  A String result is then
      decoded with `GetString(from:)`.  `raised` says whether an exception was pending
      after the Java call. */
  method FromCall(rt: Runtime, t: JavaType, isStatic: bool, target: Ref, mid: MethodId, args: seq<JValue>)
    returns (r: Outcome<JavaValue>, ghost raw: JValue, ghost raised: bool)
    requires rt.Valid()
    modifies rt`pending, rt`trace, rt`locals, rt`referent, rt`nextRef, rt`nextObj
    ensures rt.Valid()
    ensures rt.globals == old(rt.globals) && old(rt.locals) <= rt.locals
    ensures old(rt.pending) ==> raised
    ensures r.Thrown? ==> r.error == JNIError && raised
    ensures r.Success? ==> !raised
    ensures isStatic || KindOf(t) != ObjectKind ==> (r.Thrown? <==> raised)
    ensures !isStatic && KindOf(t) == ObjectKind && raised && !old(rt.pending) ==> r.Trapped? && rt.pending
    ensures r.Trapped? ==> KindOf(t) == ObjectKind
    ensures r.Success? ==> TypeOf(r.value) == t && HasKind(raw, KindOf(t))
    ensures r.Success? && !t.StringType? ==> r.value == FromRaw(t, raw)
    ensures r.Success? && t.StringType? ==> r.value == StringValue(GetString(rt, raw.l))
    ensures isStatic || !r.Trapped? ==>
      !rt.pending && rt.trace == old(rt.trace) + [Invoked(isStatic, target, mid, args)] + CheckEvents(raised)
    ensures !isStatic && r.Trapped? ==> rt.pending == raised && rt.trace == old(rt.trace) + [Invoked(isStatic, target, mid, args)]
    ensures CallsChecked(old(rt.trace)) && (isStatic || !r.Trapped?) ==> CallsChecked(rt.trace)
  {
    if KindOf(t) == ObjectKind {
      var o;
      ghost var result;
      if isStatic {
        o, raised, result := CallObjectMethod(rt, true, target, mid, args);
      } else {
        o, raised, result := CallObjectMethodAsWritten(rt, target, mid, args);
      }
      raw := JObject(result);
      match o {
        case Success(l) =>
          r := Success(if t.StringType? then StringValue(GetString(rt, l)) else FromRaw(t, JObject(l)));
        case Thrown(e) =>
          r := Thrown(e);
        case Trapped =>
          r := Trapped;
      }
    } else {
      var c := CallMethod(rt, Some(KindOf(t)), isStatic, target, mid, args);
      raised := c.Thrown?;
      if c.Thrown? {
        r, raw := Thrown(c.error), Zero(KindOf(t));
      } else {
        var p := c.value.value;
        r, raw := Success(FromRaw(t, p)), p;
      }
    }
  }

  /** The field getters `Get<Type>Field` and `GetStatic<Type>Field` behind the field read
      paths: the runtime read, then the exception check. */
  method GetFieldValue(rt: Runtime, kind: Kind, isStatic: bool, target: Ref, fid: FieldId)
    returns (r: Outcome<JValue>)
    requires rt.Valid()
    modifies rt`pending, rt`trace, rt`locals, rt`referent, rt`nextRef, rt`nextObj
    ensures rt.Valid()
    ensures !rt.pending && !r.Trapped?
    ensures r.Thrown? <==> old(rt.pending)
    ensures r.Thrown? ==> r.error == JNIError
    ensures r.Success? ==> HasKind(r.value, kind)
    ensures kind != ObjectKind ==> rt.SameRefs()
    ensures kind == ObjectKind ==> rt.globals == old(rt.globals) && old(rt.locals) <= rt.locals
    ensures rt.trace == old(rt.trace) + [FieldRead(isStatic, target, fid)] + CheckEvents(old(rt.pending))
    ensures AppendsNoCalls(old(rt.trace), rt.trace)
  {
    var p := rt.ReadField(kind, isStatic, target, fid);
    var check := CheckAndThrowOnJNIError(rt);
    AppendsNoCallsStep(old(rt.trace), old(rt.trace), [FieldRead(isStatic, target, fid)] + CheckEvents(old(rt.pending)));
    if check.Thrown? {
      r := Thrown(check.error);
    } else {
      r := Success(p);
    }
  }

  /** `fromField` and `fromStaticField` of every conforming type: the field getter for the
      type's slot, then the pure conversion; a String field is decoded with
      `GetString(from:)`, a JavaContext wraps the object as it is. */
  method FromField(rt: Runtime, t: JavaType, isStatic: bool, target: Ref, fid: FieldId)
    returns (r: Outcome<JavaValue>, ghost raw: JValue)
    requires rt.Valid()
    modifies rt`pending, rt`trace, rt`locals, rt`referent, rt`nextRef, rt`nextObj
    ensures rt.Valid()
    ensures !rt.pending && !r.Trapped?
    ensures r.Thrown? <==> old(rt.pending)
    ensures r.Thrown? ==> r.error == JNIError
    ensures r.Success? ==> TypeOf(r.value) == t && HasKind(raw, KindOf(t))
    ensures r.Success? && !t.StringType? ==> r.value == FromRaw(t, raw)
    ensures r.Success? && t.StringType? ==> r.value == StringValue(GetString(rt, raw.l))
    ensures rt.globals == old(rt.globals) && old(rt.locals) <= rt.locals
    ensures rt.trace == old(rt.trace) + [FieldRead(isStatic, target, fid)] + CheckEvents(old(rt.pending))
    ensures AppendsNoCalls(old(rt.trace), rt.trace)
  {
    var v := GetFieldValue(rt, KindOf(t), isStatic, target, fid);
    if v.Thrown? {
      r, raw := Thrown(v.error), Zero(KindOf(t));
    } else {
      raw := v.value;
      r := Success(if t.StringType? then StringValue(GetString(rt, v.value.l)) else FromRaw(t, v.value));
    }
  }
}
