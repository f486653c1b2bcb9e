/**
 * The pending-exception protocol of the JNI module: after a runtime call the
 * binding asks whether an exception is pending and, if so, throws a JNIError,
 * whose construction describes the exception and then clears it.  The errors
 * the binding throws, and the outcome of an operation that can throw or trap,
 * are defined here too.
 */
module JniErrors {
  import opened Runtime

  /** The Swift errors the binding throws: `JNIError`, `InvalidMethodID` and
      `GetFieldError.InvalidParameters`. */
  datatype Error = JNIError | InvalidMethodID | InvalidParameters

  /** The outcome of a throwing Swift function: its value, a thrown error, or a trap
      (a force-unwrapped nil, a failed checked conversion, `fatalError`, `try!`). */
  datatype Outcome<T> = Success(value: T) | Thrown(error: Error) | Trapped

  /** No Java call among the events. */
  ghost predicate NoCalls(es: seq<Event>)
  {
    forall i :: 0 <= i < |es| ==> !es[i].Invoked?
  }

  /** The runtime calls one exception check makes: the check itself, then describe and
      clear when something was pending. */
  function CheckEvents(raised: bool): (es: seq<Event>)
    ensures |es| > 0 && es[0] == Checked(raised)
    ensures raised <==> |es| == 3
    ensures NoCalls(es)
  {
    if raised then [Checked(true), Described, Cleared] else [Checked(false)]
  }

  /** `JNIError.init`: describe the pending exception, then clear it. */
  method MakeJNIError(rt: Runtime) returns (e: Error)
    requires rt.Valid()
    modifies rt`pending, rt`trace
    ensures rt.Valid()
    ensures e == JNIError
    ensures !rt.pending
    ensures rt.trace == old(rt.trace) + [Described, Cleared]
  {
    rt.ExceptionDescribe();
    rt.ExceptionClear();
    e := JNIError;
  }

  /** `checkAndThrowOnJNIError`: throws a JNIError exactly when an exception is pending;
      afterwards nothing is pending, whichever way it returned. */
  method CheckAndThrowOnJNIError(rt: Runtime) returns (r: Outcome<()>)
    requires rt.Valid()
    modifies rt`pending, rt`trace
    ensures rt.Valid()
    ensures r.Success? <==> !old(rt.pending)
    ensures r.Thrown? ==> r.error == JNIError
    ensures !r.Trapped?
    ensures !rt.pending
    ensures rt.trace == old(rt.trace) + CheckEvents(old(rt.pending))
  {
    var raised := rt.ExceptionCheck();
    if raised {
      var e := MakeJNIError(rt);
      r := Thrown(e);
    } else {
      r := Success(());
    }
  }

  /** Every Java call in the trace is immediately followed by an exception check. */
  ghost predicate CallsChecked(t: seq<Event>)
  {
    forall i :: 0 <= i < |t| && t[i].Invoked? ==> i + 1 < |t| && t[i + 1].Checked?
  }

  /** A call immediately followed by its check keeps the property. */
  lemma {:induction false} CallsCheckedAppend(t: seq<Event>, call: Event, raised: bool)
    ensures CallsChecked(t) ==> CallsChecked(t + [call] + CheckEvents(raised))
  {
    if CallsChecked(t) {
      var u := t + [call] + CheckEvents(raised);
      forall i | 0 <= i < |u| && u[i].Invoked?
        ensures i + 1 < |u| && u[i + 1].Checked?
      {
        if i < |t| {
          assert u[i] == t[i];
          assert u[i + 1] == t[i + 1];
        } else {
          assert i == |t|;
          assert u[i + 1] == CheckEvents(raised)[0];
        }
      }
    }
  }

  /** Appending steps that make no Java call keeps the property. */
  lemma {:induction false} CallsCheckedNoCall(t: seq<Event>, es: seq<Event>)
    requires NoCalls(es)
    ensures CallsChecked(t) ==> CallsChecked(t + es)
  {
    if CallsChecked(t) {
      var u := t + es;
      forall i | 0 <= i < |u| && u[i].Invoked?
        ensures i + 1 < |u| && u[i + 1].Checked?
      {
        assert u[i] == t[i];
        assert u[i + 1] == t[i + 1];
      }
    }
  }

  /** `t` is `t0` followed by steps that make no Java call. */
  ghost predicate AppendsNoCalls(t0: seq<Event>, t: seq<Event>)
  {
    |t0| <= |t| && t[..|t0|] == t0 && NoCalls(t[|t0|..])
  }

  lemma {:induction false} AppendsNoCallsKeepsChecked(t0: seq<Event>, t: seq<Event>)
    requires AppendsNoCalls(t0, t)
    ensures CallsChecked(t0) ==> CallsChecked(t)
  {
    assert t == t0 + t[|t0|..];
    CallsCheckedNoCall(t0, t[|t0|..]);
  }

  /** Steps without Java calls can be appended one after another. */
  lemma {:induction false} AppendsNoCallsStep(t0: seq<Event>, t1: seq<Event>, es: seq<Event>)
    requires t1 == t0 || AppendsNoCalls(t0, t1)
    requires NoCalls(es)
    ensures AppendsNoCalls(t0, t1 + es)
  {
    var t := t1 + es;
    assert t[..|t0|] == t1[..|t0|];
    assert t[|t0|..] == t1[|t0|..] + es;
  }

  lemma {:induction false} AppendsNoCallsTrans(t0: seq<Event>, t1: seq<Event>, t2: seq<Event>)
    requires AppendsNoCalls(t0, t1) && AppendsNoCalls(t1, t2)
    ensures AppendsNoCalls(t0, t2)
  {
    assert t2[..|t0|] == t1[..|t0|];
    assert t2[|t0|..] == t1[|t0|..] + t2[|t1|..];
  }
}
