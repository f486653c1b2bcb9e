/**
 * Class lookup of the JNI module: `FindClass(name:)` hands the runtime the
 * class name with its dots turned into slashes and then runs the exception
 * check.
 */
module JniClasses {
  import opened Jni
  import opened Runtime
  import opened JniErrors
  import opened Signature

  /** `FindClass(name:)`: the lookup of the internal form of the name, then the check; a
      NULL result without a pending exception would trap on the force unwrap, which the
      runtime never produces. */
  method FindClass(rt: Runtime, name: string) returns (r: Outcome<Ref>)
    requires rt.Valid()
    modifies rt`pending, rt`trace, rt`locals, rt`referent, rt`nextRef
    ensures rt.Valid()
    ensures !rt.pending && !r.Trapped?
    ensures var internal := ReplacingFullstopsWithSlashes(name);
      && (r.Success? <==> !old(rt.pending) && internal in rt.world.classes)
      && (r.Success? ==> r.value in rt.referent && rt.NewLocal(r.value, rt.world.classes[internal]))
    ensures r.Thrown? ==> r.error == JNIError
    ensures rt.globals == old(rt.globals) && old(rt.locals) <= rt.locals
    ensures Extends(old(rt.referent), rt.referent)
    ensures rt.trace == old(rt.trace) + CheckEvents(r.Thrown?)
  {
    var result := rt.FindClass(ReplacingFullstopsWithSlashes(name));
    var check := CheckAndThrowOnJNIError(rt);
    if check.Thrown? {
      r := Thrown(check.error);
    } else if result == Null {
      r := Trapped;
    } else {
      r := Success(result);
    }
  }

  /** A name already in internal form reaches the runtime unchanged, and a name normalised
      before the call (as `JNIObject.init?` does) is not changed again. */
  lemma {:induction false} FindClassNameNormalisation(name: string)
    ensures (forall i :: 0 <= i < |name| ==> name[i] != '.') ==> ReplacingFullstopsWithSlashes(name) == name
    ensures ReplacingFullstopsWithSlashes(ReplacingFullstopsWithSlashes(name)) == ReplacingFullstopsWithSlashes(name)
  {
    if forall i :: 0 <= i < |name| ==> name[i] != '.' {
      ReplacingWithoutDots(name);
    }
    ReplacingIdempotent(name);
  }
}
