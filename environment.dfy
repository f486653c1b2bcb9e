/**
 * Environment acquisition: the `_env` property of the JNI class asks the Java
 * VM for the calling thread's environment with version 1.6 and acts on the
 * status `GetEnv` returns — JNI_OK keeps the environment, JNI_EDETACHED
 * attaches the thread, JNI_EVERSION is fatal and any other status falls
 * through.  The JNI.swift variant switches on the raw status; the JNISwift
 * variant switches on its big-endian view.  Nothing is cached: the JNI object
 * holds only the VM, and every access asks again.  Also here: the failable
 * initialisers and `JNI_OnLoad`, which stores the JNI object in the global.
 */
module JniEnvironment {
  import opened Jni

  /** What the switch over the status does. */
  datatype Action = KeepEnv | AttachThread | FatalVersion

  /** The `switch` of `_env`: JNI_OK and every status it does not name keep the
      environment `GetEnv` wrote. */
  function SwitchOn(status: int): (a: Action)
    ensures a == AttachThread <==> status == JNI_EDETACHED
    ensures a == FatalVersion <==> status == JNI_EVERSION
  {
    if status == JNI_OK then KeepEnv
    else if status == JNI_EDETACHED then AttachThread
    else if status == JNI_EVERSION then FatalVersion
    else KeepEnv
  }

  /** How an access of `_env` ends: an environment address (0 is NULL), `fatalError`, or
      a trap on the force unwrap of a NULL address. */
  datatype Access = Env(env: nat) | Fatal | Trapped

  /** What `GetEnv` reports for a thread, following chapter 5 of the Java Native Interface
      Specification: JNI_EVERSION with no environment for a version the VM does not
      support, otherwise the thread's environment with JNI_OK when it is attached and
      no environment with JNI_EDETACHED when it is not. */
  function GetEnvResult(versions: set<int>, attached: bool, threadEnv: nat, version: int): (r: (Int32, nat))
    ensures r.0 == JNI_OK <==> version in versions && attached
    ensures r.0 != JNI_OK ==> r.1 == 0
  {
    if version !in versions then (JNI_EVERSION, 0)
    else if attached then (JNI_OK, threadEnv)
    else (JNI_EDETACHED, 0)
  }

  /** The Java VM as the invocation interface shows it to the calling thread: the
      interface versions it supports, whether the thread is attached and, while it is,
      the thread's environment.  `attachCalls` counts the calls to AttachCurrentThread. */
  class JavaVM {
    const versions: set<int>
    var attached: bool
    var threadEnv: nat
    ghost var attachCalls: nat

    ghost predicate Valid()
      reads this`attached, this`threadEnv
    {
      attached ==> threadEnv != 0
    }

    constructor (versions: set<int>, attached: bool, threadEnv: nat)
      requires attached ==> threadEnv != 0
      ensures Valid()
      ensures this.versions == versions && this.attached == attached && this.threadEnv == threadEnv
      ensures attachCalls == 0
    {
      this.versions := versions;
      this.attached := attached;
      this.threadEnv := threadEnv;
      attachCalls := 0;
    }

    /** GetEnv: the status and the environment it writes; nothing changes. */
    method GetEnv(version: int) returns (status: Int32, env: nat)
      requires Valid()
      ensures (status, env) == GetEnvResult(versions, attached, threadEnv, version)
    {
      status, env := GetEnvResult(versions, attached, threadEnv, version).0, GetEnvResult(versions, attached, threadEnv, version).1;
    }

    /** AttachCurrentThread: an attached thread keeps its environment, a detached one gets
        a new one. */
    method AttachCurrentThread() returns (status: Int32, env: nat)
      requires Valid()
      modifies this`attached, this`threadEnv, this`attachCalls
      ensures Valid() && attached
      ensures status == JNI_OK && env == threadEnv != 0
      ensures old(attached) ==> threadEnv == old(threadEnv)
      ensures attachCalls == old(attachCalls) + 1
    {
      if !attached {
        var e: nat := *;
        if e == 0 {
          e := 1;
        }
        threadEnv := e;
        attached := true;
      }
      attachCalls := attachCalls + 1;
      status, env := JNI_OK, threadEnv;
    }
  }

  /** The JNI object: it holds the VM and nothing else, so no environment is ever
      cached in it. */
  class JNI {
    const jvm: JavaVM

    /** `init?(jvm:)` of the JNISwift module: it stores the VM and never fails. */
    constructor (jvm: JavaVM)
      ensures this.jvm == jvm
    {
      this.jvm := jvm;
    }

    /** `_env` of JNI.swift: the switch is on the status `GetEnv` returned for version
        1.6.  An attached thread keeps its environment without attaching; a detached
        thread is attached and gets the new environment; an unsupported version is
        fatal. */
    method CurrentEnv() returns (r: Access)
      requires jvm.Valid()
      modifies jvm`attached, jvm`threadEnv, jvm`attachCalls
      ensures jvm.Valid()
      ensures JNI_VERSION_1_6 !in jvm.versions ==>
        r == Fatal && jvm.attached == old(jvm.attached) && jvm.attachCalls == old(jvm.attachCalls)
      ensures JNI_VERSION_1_6 in jvm.versions && old(jvm.attached) ==>
        r == Env(old(jvm.threadEnv)) && jvm.threadEnv == old(jvm.threadEnv) && jvm.attached &&
        jvm.attachCalls == old(jvm.attachCalls)
      ensures JNI_VERSION_1_6 in jvm.versions && !old(jvm.attached) ==>
        jvm.attached && r == Env(jvm.threadEnv) && jvm.threadEnv != 0 &&
        jvm.attachCalls == old(jvm.attachCalls) + 1
    {
      var threadStatus, env := jvm.GetEnv(JNI_VERSION_1_6);
      match SwitchOn(threadStatus)
      case KeepEnv =>
        r := Env(env);
      case AttachThread =>
        var attachStatus, attachedEnv := jvm.AttachCurrentThread();
        r := Env(attachedEnv);
      case FatalVersion =>
        r := Fatal;
    }

    /** `_env` of the JNISwift module: the switch is on `threadStatus.bigEndian`, and the
        environment is force-unwrapped.  On a big-endian host this is the switch above;
        on a little-endian host only JNI_OK keeps its value, so a detached thread is never
        attached and an unsupported version is not reported: both fall through to the
        unwrap of the NULL environment, which traps. */
    method CurrentEnvBigEndian(littleEndianHost: bool) returns (r: Access)
      requires jvm.Valid()
      modifies jvm`attached, jvm`threadEnv, jvm`attachCalls
      ensures jvm.Valid()
      ensures !littleEndianHost ==> r != Trapped
      ensures JNI_VERSION_1_6 in jvm.versions && old(jvm.attached) ==>
        r == Env(old(jvm.threadEnv)) && jvm.threadEnv == old(jvm.threadEnv) && jvm.attachCalls == old(jvm.attachCalls)
      ensures !littleEndianHost && JNI_VERSION_1_6 !in jvm.versions ==> r == Fatal
      ensures !littleEndianHost && JNI_VERSION_1_6 in jvm.versions && !old(jvm.attached) ==>
        jvm.attached && r == Env(jvm.threadEnv) && jvm.attachCalls == old(jvm.attachCalls) + 1
      ensures littleEndianHost && !(JNI_VERSION_1_6 in jvm.versions && old(jvm.attached)) ==>
        r == Trapped && jvm.attached == old(jvm.attached) && jvm.attachCalls == old(jvm.attachCalls)
    {
      var threadStatus, env := jvm.GetEnv(JNI_VERSION_1_6);
      if littleEndianHost {
        LittleEndianStatuses();
      }
      match SwitchOn(BigEndian(threadStatus, littleEndianHost))
      case KeepEnv =>
        r := if env == 0 then Trapped else Env(env);
      case AttachThread =>
        var attachStatus, attachedEnv := jvm.AttachCurrentThread();
        r := if attachedEnv == 0 then Trapped else Env(attachedEnv);
      case FatalVersion =>
        r := Fatal;
    }
  }

  /** `init?(jvm:)` of JNI.swift: nil for a NULL VM, otherwise a JNI object holding it. */
  method InitChecked(jvm: JavaVM?) returns (j: JNI?)
    ensures j == null <==> jvm == null
    ensures j != null ==> fresh(j) && j.jvm == jvm
  {
    if jvm == null {
      j := null;
    } else {
      j := new JNI(jvm);
    }
  }

  /** On a little-endian host byte-swapping keeps JNI_OK and sends JNI_EDETACHED and
      JNI_EVERSION to values the switch does not name. */
  lemma LittleEndianStatuses()
    ensures BigEndian(JNI_OK, true) == JNI_OK
    ensures BigEndian(JNI_EDETACHED, true) == -0x100_0001
    ensures BigEndian(JNI_EVERSION, true) == -0x200_0001
    ensures SwitchOn(BigEndian(JNI_EDETACHED, true)) == KeepEnv
    ensures SwitchOn(BigEndian(JNI_EVERSION, true)) == KeepEnv
  {
    DetachedSwapped();
    VersionSwapped();
    assert SwitchOn(-0x100_0001) == KeepEnv && SwitchOn(-0x200_0001) == KeepEnv;
  }

  /** JNI_EDETACHED, 0xFFFF_FFFE as a word, reverses to 0xFEFF_FFFF. */
  lemma DetachedSwapped()
    ensures BigEndian(JNI_EDETACHED, true) == -0x100_0001
  {
    var u := Unsigned32(JNI_EDETACHED);
    assert u == 0xFFFF_FF00 + 0xFE;
    SwapTopBytes(0xFE);
    var s := SwapBytes(u);
    assert s == 0xFEFF_FFFF;
    assert Signed32(s) == -0x100_0001;
  }

  /** JNI_EVERSION, 0xFFFF_FFFD as a word, reverses to 0xFDFF_FFFF. */
  lemma VersionSwapped()
    ensures BigEndian(JNI_EVERSION, true) == -0x200_0001
  {
    var u := Unsigned32(JNI_EVERSION);
    assert u == 0xFFFF_FF00 + 0xFD;
    SwapTopBytes(0xFD);
    var s := SwapBytes(u);
    assert s == 0xFDFF_FFFF;
    assert Signed32(s) == -0x200_0001;
  }

  /** The word whose three upper bytes are 0xFF and whose lowest byte is `b` reverses to
      the word whose upper byte is `b` and whose three lower bytes are 0xFF. */
  lemma SwapTopBytes(b: nat)
    requires b < 0x100
    ensures SwapBytes(0xFFFF_FF00 + b) == 0x100_0000 * b + 0xFF_FFFF
  {
    var u := 0xFFFF_FF00 + b;
    assert u == 0x100 * 0xFF_FFFF + b;
    LowByte(0xFF_FFFF, b);
    assert 0xFF_FFFF == 0x100 * 0xFFFF + 0xFF;
    LowByte(0xFFFF, 0xFF);
    assert 0xFFFF == 0x100 * 0xFF + 0xFF;
    LowByte(0xFF, 0xFF);
  }

  /** On a little-endian host the byte-swapped switch attaches exactly for the one raw
      status whose bytes reversed read JNI_EDETACHED, a status GetEnv never returns. */
  lemma {:induction false} LittleEndianAttachesOnlyOn(status: Int32)
    ensures SwitchOn(BigEndian(status, true)) == AttachThread <==> status == BigEndian(JNI_EDETACHED, true)
    ensures status == BigEndian(JNI_EDETACHED, true) ==> status !in {JNI_OK, JNI_ERR, JNI_EDETACHED, JNI_EVERSION}
  {
    var swapped := BigEndian(status, true);
    var detached := BigEndian(JNI_EDETACHED, true);
    BigEndianInvolution(status, true);
    BigEndianInvolution(JNI_EDETACHED, true);
    assert swapped == JNI_EDETACHED ==> status == detached;
    assert status == detached ==> swapped == JNI_EDETACHED;
    DetachedSwapped();
  }

  /** On a big-endian host the two switches take the same branch for every status. */
  lemma {:induction false} BigEndianHostAgrees(status: Int32)
    ensures SwitchOn(BigEndian(status, false)) == SwitchOn(status)
  {
  }

  /** The process-wide state `JNI_OnLoad` sets: the global `jni`. */
  class Process {
    var jni: JNI?

    constructor ()
      ensures jni == null
    {
      jni := null;
    }
  }

  /** What `JNI_OnLoad` gives the VM: the interface version, or a fatal error. */
  datatype Load = Loaded(version: int) | LoadFatal

  /** `JNI_OnLoad` of the JNI and JNISwift modules: their `init?` never fails, so the
      global is always set and version 1.6 returned. */
  method OnLoad(p: Process, jvm: JavaVM) returns (r: Load)
    modifies p
    ensures r == Loaded(JNI_VERSION_1_6) && r.version == 0x0001_0006
    ensures p.jni != null && fresh(p.jni) && p.jni.jvm == jvm
  {
    var localJNI := new JNI(jvm);
    p.jni := localJNI;
    r := Loaded(JNI_VERSION_1_6);
  }

  /** `JNI_OnLoad` of SwiftJNI.swift: a NULL VM makes `init?` fail, which is fatal and
      leaves the global unset; otherwise the global holds the new JNI object and version
      1.6 is returned. */
  method OnLoadChecked(p: Process, jvm: JavaVM?) returns (r: Load)
    modifies p
    ensures r == LoadFatal <==> jvm == null
    ensures jvm == null ==> p.jni == old(p.jni)
    ensures jvm != null ==> r == Loaded(JNI_VERSION_1_6) && p.jni != null && fresh(p.jni) && p.jni.jvm == jvm
  {
    var localJNI := InitChecked(jvm);
    if localJNI == null {
      r := LoadFatal;
      return;
    }
    p.jni := localJNI;
    r := Loaded(JNI_VERSION_1_6);
  }
}
