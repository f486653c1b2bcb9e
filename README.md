# swift-jni in Dafny

This project models the Swift binding over the Java Native Interface (JNI) that lets Swift code on
Android call into Java. It covers three variants of the binding:

- the current `JNI` module (`Sources/JNI`);
- the older `JNISwift` module (`Sources/JNISwift`);
- the first version at the top of the repository (`JNI.swift`, `SwiftJNI.swift`).

The binding has five parts, and each has its own Dafny modules:

1. **Descriptor codec.** These modules build JNI method descriptors from the argument values and the
   return type, and rewrite `.` to `/` in class names:
   - `Signature` and `LegacySignature` hold the codec;
   - `DescriptorGrammar` holds the field and method descriptor grammar of sections 4.3.2 and 4.3.3 of
     the Java Virtual Machine Specification, and the internal class names of section 4.2.1;
   - every descriptor the codec builds is proved to parse under that grammar into exactly the
     argument tags and the return tag.
2. **Value marshalling.** `Convertible` models the type tags and the conversions between Swift values
   and the `jvalue` union. `Jni` models the union itself, the manifest constants and the 8- and
   32-bit integer widths.
3. **Pending-exception protocol.** `JniErrors` models the protocol:
   - `checkAndThrowOnJNIError` throws exactly when an exception is pending;
   - building a `JNIError` describes the exception and then clears it;
   - a ghost event trace records every runtime call, and the predicate `CallsChecked` states that each
     call is followed by an exception check. Every dispatch wrapper of the `JNI` module is proved to
     keep this predicate, except where the instance object call traps before its check.
4. **Environment acquisition.** `JniEnvironment` models:
   - the switch on the status `GetEnv` returns (the Invocation API, chapter 5 of the Java Native
     Interface Specification);
   - the byte-swapped switch of the `JNISwift` module;
   - `JNI_OnLoad`.
5. **Dispatch, lookups, strings, arrays and object lifetimes**, specified against an abstract runtime:
   - `Runtime.Runtime` is a class holding:
     - the pending-exception flag;
     - the sets of live local and global references and what each refers to;
     - the multiset of outstanding UTF buffers;
     - the class and member tables;
     - a heap of strings, arrays and instances;
     - the ghost event trace.
   - What only the Java side decides is left open inside the runtime's methods: whether a Java
     method raises, what it returns, and whether an allocation fails.
   - The modules `JniMethods`, `JniCalls`, `JniFields`, `JniClasses`, `JniStrings`, `Marshalling`,
     `SwiftJni`, `JniObjects` and `JniCallableClass` model the `JNI` module's wrappers over this
     runtime.
   - `LegacyJni` models the older wrappers, which turn NULL into nil and never check for exceptions.

How the model represents the source:

- References, method identifiers and field identifiers are natural numbers, and 0 is NULL.
- A Swift trap is the outcome `Trapped`. Traps are force unwraps of nil, failed checked integer
  conversions, `fatalError` and `try!`. An abort of the VM on an argument that JNI leaves undefined
  (a NULL or non-string reference given to `GetStringUTFChars`) is `Trapped` as well.
- A thrown error is `Thrown(e)`.

## Model

| member | source | states |
|---|---|---|
| Jni.ByteBitPattern | Sources/JNI/SwiftJNI.swift:73-75 | `UInt8(bitPattern:)` keeps the low eight bits of a signed byte |
| Jni.ByteBitPatternRoundTrip | Sources/JNI/SwiftJNI.swift:73-75 | the unsigned and the signed bit-pattern conversions are mutual inverses on all 256 values |
| Jni.SwapBytesInvolution | Sources/JNISwift/JNI.swift:17 | reversing the four bytes of a 32-bit word twice gives back the word |
| Jni.BigEndianInvolution | Sources/JNISwift/JNI.swift:17 | `.bigEndian` applied twice is the identity, on either kind of host |
| Convertible.ClassNameIsInternal | Sources/JNI/JavaParameterConvertible+Objects.swift:4-5 | `java/lang/Object`, `java/lang/String` (lines 32-33) and `android/content/Context` (lines 70-71) are internal class names in the sense of section 4.2.1 of the JVM Specification |
| Convertible.TagIsFieldDescriptor | Sources/JNI/JavaParameterConvertible+Primitives.swift:4-88 | each type tag (`Z`, `I`, `D`, `F` and the three `L…;` tags of the object types) is a well-formed field descriptor |
| Convertible.TagInjective | Sources/JNI/JavaParameterConvertible+Primitives.swift:4-88 | two types have the same tag only when they are the same type, so a descriptor identifies its argument types |
| Convertible.ToJavaParameter | Sources/JNI/JavaParameterConvertible+Primitives.swift:6-35 | a converted value always fills the slot of the union that belongs to its type's kind (`Bool` goes to the boolean slot, `Int` to the int slot, objects to the object slot) |
| Convertible.FromRaw | Sources/JNI/JavaParameterConvertible+Primitives.swift:10-54 | reading a raw slot as type T gives a value of type T |
| Convertible.ReadAfterWrite | Sources/JNI/JavaParameterConvertible+Primitives.swift:6-54 | writing a value with `toJavaParameter` and reading the slot back as its own type gives the value back (Bool, 32-bit Int, object, context) |
| Convertible.WriteAfterRead | Sources/JNI/JavaParameterConvertible+Primitives.swift:37-54 | a raw int or object read and written again is unchanged; a raw boolean comes back as JNI_TRUE exactly when it was JNI_TRUE, and as JNI_FALSE otherwise |
| Convertible.BoolReadsTrueOnlyOnJniTrue | Sources/JNI/JavaParameterConvertible+Primitives.swift:10-24 | a raw boolean reads as `true` exactly when it equals JNI_TRUE (1), and every other byte reads as `false` |
| Signature.ReplacingPointwise | Sources/JNI/Array+JavaParameterConvertible.swift:13-16 | the rewrite keeps the length, turns each `.` into `/` and leaves every other character in its place |
| Signature.ReplacingLeavesNoDots | Sources/JNI/Array+JavaParameterConvertible.swift:13-16 | the rewritten name contains no `.` |
| Signature.ReplacingWithoutDots | Sources/JNI/Array+JavaParameterConvertible.swift:13-16 | a name without dots is left unchanged |
| Signature.ReplacingIdempotent | Sources/JNI/Array+JavaParameterConvertible.swift:13-16 | rewriting twice is the same as rewriting once |
| Signature.ReplacingAppend | Sources/JNI/Array+JavaParameterConvertible.swift:13-16 | the rewrite works character by character, so it distributes over concatenation |
| Signature.ArgumentSignatureAppend | Sources/JNI/Array+JavaParameterConvertible.swift:26-28 | the argument signature of `a + b` is that of `a` followed by that of `b`, so order is preserved |
| Signature.ArgumentSignatureIsConcat | Sources/JNI/Array+JavaParameterConvertible.swift:26-28 | the `reduce` is the in-order concatenation of the argument tags, and the empty list gives "" |
| Signature.MethodSignatureParses | Sources/JNI/Array+JavaParameterConvertible.swift:32-35 | the descriptor parses as a method descriptor whose parameters are exactly the arguments' tags in order, and whose return is the return type's tag, or `V` when none is given |
| Signature.MethodSignatureLength | Sources/JNI/Array+JavaParameterConvertible.swift:32-35 | the descriptor has length 2 + the sum of the argument tag lengths + the return tag length |
| Signature.EmptyVoidSignature | Sources/JNI/Array+JavaParameterConvertible.swift:33-34 | no arguments and no return type give "()V" |
| Signature.TwoIntsVoidSignature | Sources/JNI/Array+JavaParameterConvertible.swift:30-31 | two Int arguments and no return type give "(II)V", as the doc comment promises |
| Signature.CustomKeepsArguments | Sources/JNI/Array+JavaParameterConvertible.swift:37-40 | with a custom return type, only the return part is normalised: the argument tags come through unchanged, and the return part is the custom string with dots turned to slashes |
| Signature.ParsesWithReturn | Sources/JNI/Array+JavaParameterConvertible.swift:37-40 | with any well-formed return descriptor, the descriptor parses back into the argument tags and that return |
| Signature.ReturningObjectTypeParses | Sources/JNI/JNIMethods.swift:22-27 | the `returningObjectType` descriptor parses with return `L` + the slash form of the type name + `;` |
| Signature.StringArrayReturnParses | Sources/JNI/JNIMethods.swift:52-58 | the string-array overload's descriptor parses with return `[Ljava/lang/String;` |
| LegacySignature.OverloadsAgree | Sources/JNISwift/Array+JavaParameterConvertible.swift:9-33 | `from(parameters:)` equals `from(types:)` on the values' dynamic types, and so do the two `methodSignature` overloads |
| LegacySignature.FromTypesLength | Sources/JNISwift/Array+JavaParameterConvertible.swift:29-33 | every legacy tag is one character, so the argument string has one character per argument |
| LegacySignature.MethodSignatureLength | Sources/JNISwift/Array+JavaParameterConvertible.swift:23-37 | the descriptor has length 2 + the number of arguments + 1 |
| LegacySignature.NeverVoid | Sources/JNISwift/Array+JavaParameterConvertible.swift:35-37 | the return type is mandatory and no legacy type has tag `V`, so a descriptor of this variant never ends in `V` |
| LegacySignature.AgreesWithCurrentCodec | Sources/JNISwift/Array+JavaParameterConvertible.swift:9-12 | with a return type given, the older codec builds the same descriptor as the `JNI` module's `methodSignature(returnType:)` |
| LegacySignature.FromRaw | Sources/JNISwift/JavaParameterConvertible.swift:24-38 | `fromStaticMethod` reads a value of the requested type |
| LegacySignature.ConversionsAgreeWithCurrent | Sources/JNISwift/JavaParameterConvertible.swift:20-38 | the older Bool and Int conversions write the same slot as the `JNI` module's (true→1, false→0, checked narrowing to 32 bits); the read that follows the write gives the value back; reading a boolean is true iff the raw byte is 1 |
| JniErrors.CheckEvents | Sources/JNI/JNIErrors.swift:8-18 | a check records itself, and when something is pending it then records describe followed by clear, in that order; it makes no runtime call |
| JniErrors.MakeJNIError | Sources/JNI/JNIErrors.swift:13-18 | building a `JNIError` describes and then clears, and leaves nothing pending even when nothing was pending before |
| JniErrors.CheckAndThrowOnJNIError | Sources/JNI/JNIErrors.swift:8-10 | the check throws `JNIError` exactly when an exception was pending, and afterwards nothing is pending, so a second check never throws; with nothing pending it only records the check |
| JniErrors.CallsCheckedAppend | Sources/JNI/JNIMethods.swift:95-216 | appending a runtime call followed by its check keeps the protocol "every call is followed by a check" |
| JniErrors.CallsCheckedNoCall | Sources/JNI/JNIErrors.swift:8-18 | appending events that are not calls, such as checks, describes and clears, keeps the protocol |
| JniMethods.ResolveAndDeleteClass | Sources/JNI/JNIMethods.swift:74-78 | the method is resolved on the temporary class reference, which is deleted before the second check, whether or not the lookup succeeded; a failed lookup throws `JNIError` |
| JniMethods.GetMethodIDFor | Sources/JNI/JNIMethods.swift:69-79 | `GetMethodID(for:)` resolves the method on the object's class; it succeeds exactly when no exception was pending and the class has the method; it traps when the object has no class; it leaves nothing pending and no extra local reference |
| JniMethods.StaticLookupMissLeavesExceptionPending | Sources/JNI/JNIMethods.swift:81-88 | as written, a missing static method throws `InvalidMethodID` and leaves the runtime's exception pending; the checked version throws `JNIError` with nothing pending |
| JniMethods.StaticMethodIDCheckedClears | Sources/JNI/JNIMethods.swift:81-88 | the corrected lookup never leaves an exception pending and never throws `InvalidMethodID`; it returns the non-NULL id exactly when nothing was pending |
| JniMethods.GetStaticMethodIDAsWritten | Sources/JNI/JNIMethods.swift:81-88 | the lookup as written: a NULL id throws `InvalidMethodID` before the check runs |
| JniMethods.GetStaticMethodIDFor | Sources/JNI/JNIMethods.swift:81-88 | the corrected lookup: the check comes first, so a failed lookup throws `JNIError` and clears the exception (the `callStatic` overloads use the lookup as written) |
| JniMethods.CallMethod | Sources/JNI/JNIMethods.swift:95-140 | every `Call*Method` wrapper (also the static ones, lines 171-216) invokes the runtime and then checks; it returns a value of the requested kind only when no exception was pending; nothing is pending afterwards; the call and its check are appended to the trace, so the protocol is kept |
| JniMethods.CallStaticBooleanMethod | Sources/JNI/JNIMethods.swift:163-169 | the result is `true` exactly when the raw boolean equals JNI_TRUE, and is returned only after a check that found nothing pending |
| JniMethods.ObjectCallTrapsOnJavaException | Sources/JNI/JNIMethods.swift:142-148 | as written, a Java exception from an object-returning method (which returns NULL) traps in the force unwrap instead of throwing `JNIError`; the corrected order throws |
| JniMethods.ObjectCallCheckedSurfacesExceptions | Sources/JNI/JNIMethods.swift:155-161 | with the check before the unwrap, the call throws exactly when an exception was raised; it traps only on a NULL result without an exception; it agrees with the code as written whenever nothing was raised |
| JniMethods.CallObjectMethodAsWritten | Sources/JNI/JNIMethods.swift:142-148 | `CallObjectMethod` as written unwraps before it checks: a NULL result traps with no check, leaving pending whatever the Java method raised; otherwise the check throws `JNIError` exactly when an exception is pending, and a success is a new local reference. The instance calls of `JniCalls` and `Marshalling.FromCall` use this member |
| JniMethods.CallObjectMethod | Sources/JNI/JNIMethods.swift:155-161 | `CallStaticObjectMethod`, and the corrected `CallObjectMethod`: the check comes before the unwrap; a success is a new local reference, nothing is left pending, and the protocol is kept |
| Marshalling.GetString | Sources/JNI/JavaParameterConvertible+Objects.swift:40-58 | decoding a Java string gives its contents |
| Marshalling.ToJavaParameterIn | Sources/JNI/JavaParameterConvertible+Objects.swift:35-38 | a String argument allocates a fresh Java string holding its text, which is never released; an object or context argument puts the same reference into the slot (lines 7-9, 73-75); an Int outside 32 bits traps; earlier conversions stay valid |
| Marshalling.AsJavaParameters | Sources/JNI/Array+JavaParameterConvertible.swift:20-22 | the result has one slot per argument, in order, and slot i is argument i converted; without String arguments nothing is allocated |
| Marshalling.FromCall | Sources/JNI/JavaParameterConvertible+Primitives.swift:14-50 | the typed read paths (also `+Objects.swift` lines 15-21, 45-53 and 82-90) throw only `JNIError` and give no value when they throw; a primitive or static read throws exactly when the Java method raised and leaves nothing pending; an instance object or String read (`CallObjectMethod` as written) traps when the Java method raised, with the exception still pending and no check in the trace; on success the value has the requested type: the raw slot read by `FromRaw`, or the decoded string |
| Marshalling.FromField | Sources/JNI/JavaParameterConvertible+Primitives.swift:10-24 | the field read paths throw exactly when an exception was pending; otherwise the value has the requested type, read from the raw slot or decoded |
| JniFields.GetStaticField | Sources/JNI/JNIFields.swift:15-21 | the field is looked up with descriptor exactly T's tag; a missing field throws `InvalidParameters` and leaves the exception pending without checking it; otherwise the value comes from T's static field reader |
| JniFields.GetField | Sources/JNI/JNIFields.swift:23-30 | throws `InvalidParameters` when the object has no class or the field is missing, without checking the exception; the class local reference is never deleted; otherwise the value comes from T's field reader |
| JniClasses.FindClass | Sources/JNI/JNIClassManipulation.swift:9-14 | the runtime is given the name with every dot turned to a slash; the result is a class exactly when no exception was pending and the normalised name is known; otherwise `JNIError` is thrown and cleared |
| JniClasses.FindClassNameNormalisation | Sources/JNI/JNIClassManipulation.swift:11 | a name without dots reaches the runtime unchanged, and normalising twice is normalising once |
| JniStrings.StringFromJavaString | Sources/JNI/JNIStrings.swift:4-11 | `String(javaString:)` traps exactly when the reference is not a live string (the VM aborts in `GetStringUTFChars`); otherwise it releases the buffer it acquired on both paths (the multiset of outstanding buffers is unchanged), throws `JNIError` when an exception is pending, and returns the string's text when not |
| JniStrings.DescribeBuffer | Sources/JNI/JNIStrings.swift:45-48 | `String(describing:)` of the buffer, which `jni.h` line 391 declares `_Nonnull`, is "0x" followed by 16 lower-case hex digits: 18 characters, never "nil" or "Optional(…)" |
| JniStrings.DescriptionShowsAddress | Sources/JNI/JNIStrings.swift:45-48 | the hex digits of the description are the buffer's address |
| JniStrings.GetStringUTFChars | Sources/JNI/JNIStrings.swift:45-48 | the wrapper answers with the description of the buffer's address, not the decoded text, and never releases the buffer it acquired; a reference that is not a live string traps |
| JniStrings.DescriptionIgnoresText | Sources/JNI/JNIStrings.swift:45-48 | two strings at the same address get the same answer, so the wrapper's result does not depend on the text |
| JniStrings.NewStringUTF | Sources/JNI/JNIStrings.swift:35-38 | a new local reference to a fresh Java string holding the text; a NULL result traps in the force unwrap |
| SwiftJni.JavaBooleanLiteral | Sources/JNI/SwiftJNI.swift:19-23 | the literal `true` is JNI_TRUE and `false` is JNI_FALSE; the copies at `Sources/JNISwift/SwiftJNI.swift` 27-31 and `SwiftJNI.swift` 17-21 are the same |
| SwiftJni.GetLength | Sources/JNI/SwiftJNI.swift:42-46 | the array length as the runtime reports it, widened to Int |
| SwiftJni.NewIntArray | Sources/JNI/SwiftJNI.swift:48-53 | a count outside 32 bits traps; a negative count never succeeds; a success is a new zero-filled array of `count` ints; nothing is pending afterwards |
| SwiftJni.NewByteArray | Sources/JNI/SwiftJNI.swift:55-60 | the same for byte arrays |
| SwiftJni.RegionCount | Sources/JNI/SwiftJNI.swift:64-68 | a negative `numElements` means the whole array |
| SwiftJni.GetIntArrayRegion | Sources/JNI/SwiftJNI.swift:84-95 | the result has exactly `count` elements: the array's elements from `startIndex` when the region is in bounds, otherwise zeros with the runtime's exception left pending; `Sources/JNISwift/SwiftJNI.swift` 124-135 and `SwiftJNI.swift` 100-111 behave the same |
| SwiftJni.UnsignedBytes | Sources/JNI/SwiftJNI.swift:73-75 | each signed byte b becomes b when b ≥ 0 and b + 256 otherwise |
| SwiftJni.GetByteArrayRegion | Sources/JNI/SwiftJNI.swift:62-76 | the result has `count` bytes: the in-bounds region converted by bit pattern, or zeros with the exception pending |
| SwiftJni.SetIntArrayRegion | Sources/JNI/SwiftJNI.swift:97-101 | writes exactly `source.count` elements starting at `startIndex` and leaves the rest of the array; an element outside 32 bits traps; an out-of-bounds region leaves the array alone and raises; `SwiftJNI.swift` 113-117 is the same |
| SwiftJni.CheckedBytes | Sources/JNI/SwiftJNI.swift:80 | the checked `JavaByte(UInt8)` conversion succeeds exactly when every byte is below 128 |
| SwiftJni.SignedBytes | Sources/JNI/SwiftJNI.swift:80 | the bit-pattern conversion the setter needs: b below 128 stays, and b ≥ 128 becomes b − 256 |
| SwiftJni.ByteRegionRoundTrip | Sources/JNI/SwiftJNI.swift:73-80 | the bit-pattern conversions in both directions are inverses on byte sequences |
| SwiftJni.ByteRegionWriteThenRead | Sources/JNI/SwiftJNI.swift:62-82 | writing bytes with the corrected setter and reading the same region back gives the bytes back |
| SwiftJni.ByteRegionAsWrittenRejectsHighBytes | Sources/JNI/SwiftJNI.swift:73-80 | the getter returns 200 for the stored byte −56, but the setter as written cannot store 200 |
| SwiftJni.SetByteArrayRegionAsWritten | Sources/JNI/SwiftJNI.swift:78-82 | as written, any byte ≥ 128 traps; otherwise the bytes are written in place at `startIndex` |
| SwiftJni.SetByteArrayRegion | Sources/JNI/SwiftJNI.swift:78-82 | the corrected setter never traps on a byte value; it writes exactly `source.count` bytes at `startIndex`, converted by bit pattern |
| SwiftJni.ElementTexts | Sources/JNI/SwiftJNI.swift:129-143 | the texts of the array's elements in index order, defined exactly when every element is a string |
| SwiftJni.AcquireElementChars | Sources/JNI/SwiftJNI.swift:134-135 | fetching element i gives a new local reference; a string element's buffer holds its text and is added to the outstanding buffers; a non-string element (NULL among them) gets no buffer, which is the VM's abort |
| SwiftJni.CheckThenRelease | Sources/JNI/SwiftJNI.swift:136-139 | the check comes before the `defer` that releases the buffer, so the buffer is released only when the check passes; a missing buffer without an exception traps |
| SwiftJni.StringElement | Sources/JNI/SwiftJNI.swift:133-140 | one element traps exactly when it is not a string; a string decodes to its text with its buffer released exactly when nothing was pending, and otherwise throws `JNIError` with its buffer left outstanding |
| SwiftJni.StringElements | Sources/JNI/SwiftJNI.swift:133-140 | the `map` yields, in index order, the text of every element exactly when all are strings and nothing was pending; it throws exactly when an exception was pending and the first element is a string, leaking exactly that first buffer; it traps only when some element is not a string, leaking no buffer; one local reference per element is never deleted |
| SwiftJni.GetStrings | Sources/JNI/SwiftJNI.swift:129-143 | one string per array element in index order, exactly when every element is a string (and nothing was pending, unless the array is empty), with every buffer released; it throws exactly when an exception was pending and the first element is a string, and then exactly the first buffer stays outstanding; it traps only when some element is not a string |
| SwiftJni.GetObjectArrayElementAt | Sources/JNI/SwiftJNI.swift:145-154 | an index at or past the length throws `JNIError` before any fetch; a negative index is not rejected here, and the runtime's exception then makes it throw; a NULL element traps in the unwrap |
| JniCalls.PrepareStatic | Sources/JNI/JNIMethods.swift:8-13 | the shared first half of `callStatic`: the static lookup as written (lines 81-88), then the argument conversion; a missing method throws `InvalidMethodID` and leaves the runtime's exception pending; an exception pending before a lookup that succeeds throws `JNIError`; a success leaves nothing pending |
| JniCalls.PrepareInstance | Sources/JNI/JNIMethods.swift:31-36 | the shared first half of `call`: the lookup on the object's class with the descriptor, then the argument conversion |
| JniCalls.CallStaticVoid | Sources/JNI/JNIMethods.swift:8-13 | `callStatic` resolves the method with descriptor "(" + argument tags + ")V"; a missing method throws `InvalidMethodID` with the exception still pending, and every other throw is `JNIError` with nothing pending; on success the last two events are the call with the converted arguments and a passing check; the protocol is kept |
| JniCalls.CallStatic | Sources/JNI/JNIMethods.swift:15-20 | the typed `callStatic<T>` uses T's tag as the return part of the descriptor, fails on a missing method as `callStatic` does (`InvalidMethodID`, exception pending), and returns a T |
| JniCalls.ObjectReturnSignature | Sources/JNI/JNIMethods.swift:22-27 | the `returningObjectType` return is `L` + the type name with dots turned to slashes + `;` |
| JniCalls.CallStaticReturningObject | Sources/JNI/JNIMethods.swift:22-27 | resolves with that descriptor (a missing method throws `InvalidMethodID` with the exception pending) and, through `CallStaticObjectMethod`, returns a non-NULL local reference after a passing check |
| JniCalls.CallVoid | Sources/JNI/JNIMethods.swift:31-36 | `call` resolves "(" + tags + ")V" on the object's class, calls it and checks |
| JniCalls.Call | Sources/JNI/JNIMethods.swift:38-43 | the typed `call<T>` uses T's tag as the return and returns a T; when the Java method raises, a primitive T throws `JNIError`, while an object or String T traps with the exception still pending; the protocol is kept except on that trap |
| JniCalls.CallReturningObject | Sources/JNI/JNIMethods.swift:45-50 | resolves with the `returningObjectType` descriptor and returns a non-NULL local reference; a Java method that raises traps at the unwrap with the exception still pending |
| JniCalls.CallDecodingStrings | Sources/JNI/JNIMethods.swift:55-57 | the as-written object call, then `GetStrings` on the returned array: on success the result is `ElementTexts` of that array (a live local), the trace up to the call ends with the call and a passing check and only call-free steps follow, and no buffer stays outstanding; a throw leaves no buffer; an abort on a returned array means some element is not a string; a Java exception raised by a call made with nothing pending traps with it still pending; the protocol holds on every path that does not trap |
| JniCalls.CallReturningStrings | Sources/JNI/JNIMethods.swift:52-58 | resolves with return `[Ljava/lang/String;`: a pending exception or a missed lookup throws JNIError; on success the result is `ElementTexts` of the returned array, after a checked call of the resolved method with one parameter per argument; the decoding never throws, since the check before it passed; a Java method that raises traps at the unwrap with the exception still pending; `CallsChecked` is kept unless it traps |
| JniEnvironment.SwitchOn | JNI.swift:17-25 | the thread is attached exactly on JNI_EDETACHED and the access is fatal exactly on JNI_EVERSION; every other status keeps the environment |
| JniEnvironment.JNI.constructor | Sources/JNISwift/JNI.swift:32-34 | `init?` only stores the VM, so it never fails and no environment is cached |
| JniEnvironment.JNI.CurrentEnv | JNI.swift:8-28 | `_env` queries version 1.6 on every access: an attached thread keeps its environment with no attach; a detached thread is attached once and gets the new environment; an unsupported version is fatal |
| JniEnvironment.JNI.CurrentEnvBigEndian | Sources/JNISwift/JNI.swift:8-28 | with the switch on `threadStatus.bigEndian`, a big-endian host behaves as above; on a little-endian host only an attached thread gets its environment, and a detached thread or an unsupported version falls to `default` and traps on the nil environment |
| JniEnvironment.InitChecked | JNI.swift:31-34 | `init?` returns nil exactly when the VM is nil, and otherwise stores the VM |
| JniEnvironment.LittleEndianStatuses | Sources/JNISwift/JNI.swift:17-24 | on a little-endian host JNI_OK swaps to itself, but JNI_EDETACHED and JNI_EVERSION swap to −0x1000001 and −0x2000001, which reach `default` |
| JniEnvironment.LittleEndianAttachesOnlyOn | Sources/JNISwift/JNI.swift:17-24 | on a little-endian host the thread is attached only for the status −0x1000001, which is none of the four statuses a VM returns |
| JniEnvironment.BigEndianHostAgrees | Sources/JNISwift/JNI.swift:17 | on a big-endian host the swapped switch is the raw switch |
| JniEnvironment.OnLoad | Sources/JNI/SwiftJNI.swift:6-13 | `JNI_OnLoad` stores a new JNI for the VM in the global and returns JNI_VERSION_1_6 (0x00010006); `Sources/JNISwift/SwiftJNI.swift` 7-21 is the same |
| JniEnvironment.OnLoadChecked | SwiftJNI.swift:5-15 | with the nil-checking `init?` of `JNI.swift`, a nil VM is fatal and leaves the global alone; otherwise the global is set and version 1.6 is returned |
| JniObjects.ConstructorLookups | Sources/JNI/JNIObjects.swift:48 | `GetMethodID(for: targetClass, …)` resolves "<init>" on the class of the class object, and a lookup on `targetClass` itself resolves it on the class |
| JniObjects.ObjectClassLookupMissesConstructor | Sources/JNI/JNIObjects.swift:47-51 | in a world where Foo has a constructor "()V" and `java.lang.Class` has none with that descriptor, the lookup through the class object finds none, and the lookup on Foo finds it |
| JniObjects.ObjectClassLookupFindsWrongConstructor | Sources/JNI/JNIObjects.swift:47-51 | where `java.lang.Class` declares its own "()V" constructor, the lookup through the class object finds that constructor instead of Foo's |
| JniObjects.CallConstructorViaObjectClass | Sources/JNI/JNIObjects.swift:47-52 | this `callConstructor` throws `JNIError` when the lookup through the class object misses; on success it gives a new local reference to a fresh instance of the class |
| JniObjects.JNIObject.constructor | Sources/JNI/JNIObjects.swift:20-30 | the object holds the class and the instance it was built with |
| JniObjects.JNIObject.Call | Sources/JNI/JNIObjects.swift:33-35 | `call` forwards to `jni.call` on `instance` |
| JniObjects.JNIObject.CallReturning | Sources/JNI/JNIObjects.swift:37-39 | the typed `call<T>` forwards to `jni.call` on `instance` and returns a T; a Java method that raises throws `JNIError` for a primitive T and traps with the exception pending for an object or String T |
| JniObjects.JNIObject.CallStatic | Sources/JNI/JNIObjects.swift:41-43 | `callStatic` forwards to `jni.callStatic` on `javaClass`: a missing method throws `InvalidMethodID` with the exception pending, other throws are `JNIError` |
| JniObjects.GlobalClass | Sources/JNI/JNIObjects.swift:10-18 | the normalised name is looked up and promoted to a global reference to that class; the result is nil when the class is missing |
| JniObjects.GlobalInstance | Sources/JNI/JNIObjects.swift:22-28 | `try?` turns every throw of the constructor call into nil, and a pending exception or a missed "<init>" lookup is such a throw; it traps exactly when the constructor call traps; a non-nil result comes from a constructor that succeeded and is a new global reference to an instance of the class, allocated after every earlier reference |
| JniObjects.NewJNIObject | Sources/JNI/JNIObjects.swift:9-31 | `init?` is nil when the class is missing; once the class is found, a constructor that throws (among them one the lookup through the class of the class object misses, `ConstructorViaObjectClass` = 0) gives nil with the class global left behind, and it traps exactly when the constructor call traps; a nil result leaves in the global table exactly the class global the first guard made, if it made one; on success `javaClass` and `instance` are two fresh globals made in that order, with the class of `instance` being `javaClass` |
| JniObjects.NilInitLeaksClassGlobal | Sources/JNI/JNIObjects.swift:21-27 | once the first guard has made the class global, a nil result leaves it behind |
| JniObjects.NewJNIObjectReleasing | Sources/JNI/JNIObjects.swift:9-31 | the corrected `init?` deletes the class global when the second guard fails, so a nil result leaves the global table as it was; success is as in the source |
| JniCallableClass.CallConstructor | Sources/JNI/JavaCallableClass.swift:49-58 | "<init>" is looked up on `targetClass` itself; the call throws exactly when an exception was pending or the lookup missed, and then nothing was created; on success a new local reference to a fresh instance of the class |
| JniCallableClass.ConstructorID | Sources/JNI/JavaCallableClass.swift:53-56 | the lookup followed by its check: an id is returned exactly when nothing was pending and the lookup found it |
| JniCallableClass.Construct | Sources/JNI/JavaCallableClass.swift:57 | `NewObject` with the converted arguments: a fresh instance of the class |
| JniCallableClass.CallableClassType.constructor | Sources/JNI/JavaCallableClass.swift:30-31 | a subclass type has its class name and no resolved class yet |
| JniCallableClass.CallableClassType.FindJavaClass | Sources/JNI/JavaCallableClass.swift:33-36 | `findJavaClass` makes a global reference to the named class and never deletes the local it came from |
| JniCallableClass.CallableClassType.JavaClass | Sources/JNI/JavaCallableClass.swift:31 | `javaClass` is resolved on first use, kept from then on and never released; a failure traps in `try!` |
| JniCallableClass.CallableClassType.NewInstance | Sources/JNI/JavaCallableClass.swift:38-41 | `newInstance` constructs an instance of `javaClass` and promotes it to a global; the local is never deleted |
| JniCallableClass.CallableClassType.CallStatic | Sources/JNI/JavaCallableClass.swift:43-45 | the static `call` forwards to `jni.callStatic` on `javaClass`: a missing method throws `InvalidMethodID` with the exception pending, other throws are `JNIError` |
| JniCallableClass.JavaCallableClass.constructor | Sources/JNI/JavaCallableClass.swift:11-15 | a new object holds its instance reference, which is not released yet |
| JniCallableClass.JavaCallableClass.Deinit | Sources/JNI/JavaCallableClass.swift:25 | `deinit` deletes the instance global exactly once: it requires a live object and marks it released |
| JniCallableClass.JavaCallableClass.Call | Sources/JNI/JavaCallableClass.swift:17-19 | `call` forwards to `jni.call` on `instance` |
| JniCallableClass.JavaCallableClass.CallReturning | Sources/JNI/JavaCallableClass.swift:21-23 | the typed `call<T>` forwards to `jni.call` on `instance`; a Java method that raises throws `JNIError` for a primitive T and traps with the exception pending for an object or String T |
| JniCallableClass.MakeJavaCallableClass | Sources/JNI/JavaCallableClass.swift:13-15 | `init?` sets `instance` to a fresh global reference to a new instance of the subclass's Java class |
| LegacyJni.NilIfNull | Sources/JNISwift/SwiftJNI.swift:57-61 | a NULL result becomes nil, and any other result is passed on unchanged |
| LegacyJni.NewGlobalRefOrNil | Sources/JNISwift/SwiftJNI.swift:57-61 | nil, or a new global to the same object (`SwiftJNI.swift` 47-51 is the same) |
| LegacyJni.FindClassOrNil | Sources/JNISwift/SwiftJNI.swift:65-69 | the name reaches the runtime unnormalised; nil exactly when it is unknown, and the exception is then left pending (`SwiftJNI.swift` 61-65 is the same) |
| LegacyJni.GetObjectClassOrNil | SwiftJNI.swift:67-71 | nil exactly when the object has no class |
| LegacyJni.GetMethodIDOrNil | Sources/JNISwift/SwiftJNI.swift:71-81 | nil exactly when the class lacks the method, with NoSuchMethodError then left pending; otherwise the resolved id (`SwiftJNI.swift` 73-77 is the same) |
| LegacyJni.NewIntArrayOrNil | Sources/JNISwift/SwiftJNI.swift:118-122 | a count outside 32 bits traps in `jsize(count)`; a negative count gives nil; otherwise a zero-filled array (`SwiftJNI.swift` 94-98 is the same) |
| LegacyJni.GetObjectArrayElementOrFatal | Sources/JNISwift/SwiftJNI.swift:110-116 | a NULL element, including one from an index out of bounds, is fatal; otherwise a new local reference to the element |
| LegacyJni.UncheckedCall | Sources/JNISwift/SwiftJNI.swift:84-100 | the older call wrappers invoke the runtime and check nothing, so an exception stays pending (`SwiftJNI.swift` 80-84 is the same) |
| LegacyJni.UncheckedCallBreaksProtocol | Sources/JNISwift/SwiftJNI.swift:84-100 | a trace ending in such a call breaks "every call is followed by a check" |
| LegacyJni.EndsInVMeansVoid | Sources/JNISwift/SwiftJNI.swift:219-222 | on a well-formed descriptor, the last-character test accepts exactly the void methods |
| LegacyJni.EndsInVAcceptsMalformed | Sources/JNISwift/SwiftJNI.swift:219-222 | the test also accepts strings that are no descriptor ("V", "(IV"), and rejects the empty signature |
| LegacyJni.JavaCallback.constructor | Sources/JNISwift/SwiftJNI.swift:238-239 | the callback stores the object and the method id it is given |
| LegacyJni.JavaCallback.Apply | Sources/JNISwift/SwiftJNI.swift:242-244 | `apply` makes one unchecked void call of the stored method on the stored object with the given parameters |
| LegacyJni.JavaCallback.Call | Sources/JNISwift/SwiftJNI.swift:247-249 | `call` passes the same parameters, in the same order, to `apply` (`SwiftJNI.swift` 224-226 is the same) |
| LegacyJni.MakeJavaCallback | Sources/JNISwift/SwiftJNI.swift:217-240 | `init` succeeds exactly when the signature ends in `V`, the object's class is found and the class has the method; otherwise it is fatal; it stores the given object and the resolved id, and never deletes the local class reference (`SwiftJNI.swift` 194-217 is the same) |

## Left out

- Floating point: the `Float` and `Double` conversions and read paths, `NewFloatArray`, and
  `Get/SetFloatArrayRegion`. Only their tags `F` and `D` are modelled, and their union slots hold raw
  bit patterns.
- `Sources/CJNI/include/jni.h` is used only as data: the `jvalue` union (lines 154-164) and the status
  and version constants (lines 1436-1447). The function table itself becomes the abstract runtime, and
  the C++ wrappers and `va_list` variants are not modelled.
- One-line pass-throughs with no policy of their own are operations of the runtime class, not
  separate members:
  - `Sources/JNI/JNIRefs.swift` and `Sources/JNI/JNIExceptions.swift`;
  - the `JNIRefs`, `JNIStrings`, `JNIExceptions`, `JNIClassManipulation` and `JNIObjects` files of
    the older variants;
  - `DeleteLocalRef` of `SwiftJNI.swift`;
  - the other one-line wrappers of `Sources/JNI/JNIStrings.swift`.
- `Sources/JNISwift/JNIMethods.swift` is not modelled, because all of it is commented out.
- `Sources/JNI/JavaParameterConvertible.swift` declares the protocol only. It is mirrored by the
  `JavaType` and `JavaValue` datatypes and has no behaviour of its own.
- Threads are not modelled, because they are concurrency and system calls. This covers thread
  identity (`isMainThread`, `is-main-thread.c`), `JNI_DetachCurrentThread`, the thread-detach
  callback, and `MonitorEnter`/`MonitorExit`.
- Android logging, `RegisterNatives`, `ThrowNew`, `GetVersion` and `GetJavaVM` are plain I/O or
  runtime calls. `Package.swift` is build metadata.
- The `_env` lookup is modelled on its own in `JniEnvironment`. The runtime's methods do not
  re-derive the environment on every call: they assume an attached thread.
- `ExceptionDescribe` is taken, as the JNI specification describes it, to clear the exception as
  well. `JNIError`'s own clear then finds nothing to clear.
- The typed field getters (`GetStaticBooleanField` and the others) and `GetString(from:)` are called
  by the source but are not part of the visible source. They are modelled as a runtime read followed
  by the usual exception check, and as a read of the string's contents.
- The `JavaError` enum of `JavaCallback` is declared but never used, so it is not modelled.
- `assertionFailure` in `JNIObject.init?` is taken as in a release build, where it does nothing, so
  the initialiser returns nil.
- Places where the source would not compile are read as follows:
  - `replacingFullstopsWithSlashes` is file-private but called from other files. It is modelled as
    visible.
  - `checkAndThrowOnJNIError`/`JNIError` and `callConstructor` are each defined twice in one module:
    - the error helpers are modelled once;
    - the two `callConstructor` bodies are modelled separately (`JniObjects.CallConstructorViaObjectClass`
      and `JniCallableClass.CallConstructor`).
  - `guard let x = jni.FindClass(…)` without `try` in `JNIObject.init?` is read as `try?`.
  - Optionals returned as non-optional values are read as force unwraps, so NULL traps. This covers
    `findJavaClass`, `newInstance` and `callConstructor` of `JavaCallableClass.swift` (lines 35, 40 and
    57).
  - `SetArrayRegion`, which is not a JNI function, is read as `SetIntArrayRegion`/`SetByteArrayRegion`.
  - `chars!` on the result of `GetStringUTFChars`, which `jni.h` line 391 declares `_Nonnull` so that
    Swift sees a non-optional pointer, is read as a plain use of the pointer
    (`Sources/JNI/JNIStrings.swift` line 10, `SwiftJNI.swift` line 139).
  - `T.fromStaticField(of:id:)` and `T.fromField(of:id:)` in `Sources/JNI/JNIFields.swift` (lines 20
    and 29) do not match the protocol's `fromStaticField(_:of:)` and `fromField(_:on:)` in
    `Sources/JNI/JavaParameterConvertible.swift` (lines 17-18). They are read as calls of the protocol's
    requirements, with the field identifier and the class or object in the protocol's order.
  - `open static` in `Sources/JNI/JavaCallableClass.swift` (lines 30-31) cannot be overridden, since
    static members are final, so no subclass can supply its own class name. Taken literally, there
    would be one stored `javaClass` for the whole hierarchy, resolved from the base's empty name. The
    model follows the evident intent instead, as the next two lines say.
- JniCallableClass.CallableClassType.constructor: each subclass gets its own `javaClassName`, as an
  overridable class property would give it. As written the name is always the base's `""`.
- JniCallableClass.CallableClassType.JavaClass: each subclass gets its own lazily resolved
  `javaClass` cache. As written one stored static is shared by the whole hierarchy, and its
  initialiser `try! findJavaClass()` would look up `""`, throw, and trap.
- Convertible.ToJavaParameter: it requires a 32-bit `Int` instead of trapping. The trap of the checked
  narrowing is modelled where the binding converts arguments (`Marshalling.ToJavaParameterIn`).
- LegacySignature.ToJavaParameter: likewise, it requires a 32-bit `Int` instead of trapping.
- JniObjects.JNIObject.Call, JniObjects.JNIObject.CallStatic and JniCallableClass.JavaCallableClass.Call
  state that the resolved method was called with some parameter list after a passing check, not which
  parameters were used. `JniCalls.CallVoid` and `JniCalls.CallStaticVoid`, which they forward to,
  state the number of parameters.
- `GetStringUTFChars` running out of memory is not modelled: `jni.h` line 391 declares its result
  `_Nonnull`, and for a live string the runtime always hands out a buffer.

## Findings

| source | as written | input that shows it | evidently intended | confidence | as-written member | corrected member |
|---|---|---|---|---|---|---|
| Sources/JNI/SwiftJNI.swift:80 | `JavaByte($0)` is a checked conversion from `UInt8`, so any byte ≥ 128 traps | writing `[200]`, which `GetByteArrayRegion` returns for the stored byte −56 | convert by bit pattern, like the getter on line 75, so that reading and writing are inverse | not executed | SwiftJni.SetByteArrayRegionAsWritten, SwiftJni.ByteRegionAsWrittenRejectsHighBytes | SwiftJni.SetByteArrayRegion, SwiftJni.ByteRegionWriteThenRead |
| Sources/JNISwift/JNI.swift:17-24 | the switch is on `threadStatus.bigEndian`, which on a little-endian host turns −2 into −0x1000001 and −3 into −0x2000001 | a detached thread on a little-endian (Android ARM) host: `GetEnv` returns JNI_EDETACHED, no attach happens and `_env!` traps | switch on the raw status, as `JNI.swift` does | not executed | JniEnvironment.JNI.CurrentEnvBigEndian, JniEnvironment.LittleEndianStatuses | JniEnvironment.JNI.CurrentEnv |
| Sources/JNI/JNIMethods.swift:83-87 | a NULL id throws `InvalidMethodID` before `checkAndThrowOnJNIError`, so the NoSuchMethodError stays pending | a static method name the class does not have | check first, so that the exception is cleared and `JNIError` is thrown | not executed | JniMethods.GetStaticMethodIDAsWritten, JniMethods.StaticLookupMissLeavesExceptionPending | JniMethods.GetStaticMethodIDFor, JniMethods.StaticMethodIDCheckedClears |
| Sources/JNI/JNIMethods.swift:145-146 | the result is force-unwrapped before the check | an object-returning Java method that throws, so JNI returns NULL with an exception pending | check first, then unwrap, as `CallStaticObjectMethod` does on lines 158-160 | not executed | JniMethods.CallObjectMethodAsWritten, JniMethods.ObjectCallTrapsOnJavaException | JniMethods.CallObjectMethod, JniMethods.ObjectCallCheckedSurfacesExceptions |
| Sources/JNI/JNIObjects.swift:48 | "<init>" is resolved with `GetMethodID(for: targetClass)`, that is, on the class of the class object (`java.lang.Class`) | `JNIObject("Foo")` where Foo has a constructor "()V", on a VM whose `java.lang.Class` has no "<init>" with that descriptor: the lookup misses and `init?` returns nil. Where `java.lang.Class` declares a private "()V" constructor (Android's runtime does), the lookup finds that one, and `NewObject` runs a constructor of the wrong class | look "<init>" up on `targetClass` itself, as `JavaCallableClass.swift` lines 50-54 explain and do | not executed | JniObjects.CallConstructorViaObjectClass, JniObjects.NewJNIObject, JniObjects.ObjectClassLookupMissesConstructor, JniObjects.ObjectClassLookupFindsWrongConstructor | JniCallableClass.CallConstructor |
| Sources/JNI/JNIObjects.swift:21-27 | the second guard returns nil without deleting the class global that the first guard stored in `javaClass` | `JNIObject("Foo")` for a class Foo that exists but whose constructor throws or is not found | a failing initialiser leaves the global reference table as it was | not executed | JniObjects.NewJNIObject, JniObjects.NilInitLeaksClassGlobal | JniObjects.NewJNIObjectReleasing |

The `call` and `callStatic` overloads of `JniCalls`, and the classes that forward to them, model the
program as it is, so they use the as-written halves of the two `JNIMethods.swift` rows. The corrected
halves stand beside them with their own proofs.
