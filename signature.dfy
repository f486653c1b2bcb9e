/**
 * The method-descriptor codec of the JNI module: the descriptor of a Java
 * method is built from the ordered argument values, "(" + their tags + ")"
 * followed by the return type's tag, with "V" when no return type is given.
 * Class names written with dots are normalised to the slash-separated internal
 * form first.
 */
module Signature {
  import opened Wrappers
  import opened Jni
  import opened Convertible
  import DescriptorGrammar

  /** `replacingFullstopsWithSlashes`: the name with '.' mapped to '/', character by character. */
  function ReplacingFullstopsWithSlashes(s: string): string
  {
    if s == [] then [] else [if s[0] == '.' then '/' else s[0]] + ReplacingFullstopsWithSlashes(s[1..])
  }

  /** The rewrite keeps the length, turns exactly the dots into slashes and leaves every
      other character where it was. */
  lemma {:induction false} ReplacingPointwise(s: string)
    ensures |ReplacingFullstopsWithSlashes(s)| == |s|
    ensures forall i :: 0 <= i < |s| ==>
      ReplacingFullstopsWithSlashes(s)[i] == (if s[i] == '.' then '/' else s[i])
    decreases |s|
  {
    if s != [] {
      ReplacingPointwise(s[1..]);
      var r := ReplacingFullstopsWithSlashes(s);
      forall i | 0 < i < |s|
        ensures r[i] == (if s[i] == '.' then '/' else s[i])
      {
        assert r[i] == ReplacingFullstopsWithSlashes(s[1..])[i - 1];
        assert s[1..][i - 1] == s[i];
      }
    }
  }

  /** No dot survives the rewrite. */
  lemma {:induction false} ReplacingLeavesNoDots(s: string)
    ensures forall i :: 0 <= i < |ReplacingFullstopsWithSlashes(s)| ==> ReplacingFullstopsWithSlashes(s)[i] != '.'
  {
    ReplacingPointwise(s);
  }

  /** A name without dots is passed through unchanged. */
  lemma {:induction false} ReplacingWithoutDots(s: string)
    requires forall i :: 0 <= i < |s| ==> s[i] != '.'
    ensures ReplacingFullstopsWithSlashes(s) == s
  {
    ReplacingPointwise(s);
  }

  /** Normalising twice is normalising once. */
  lemma {:induction false} ReplacingIdempotent(s: string)
    ensures ReplacingFullstopsWithSlashes(ReplacingFullstopsWithSlashes(s)) == ReplacingFullstopsWithSlashes(s)
  {
    ReplacingLeavesNoDots(s);
    ReplacingWithoutDots(ReplacingFullstopsWithSlashes(s));
  }

  /** The rewrite works piece by piece over a concatenation. */
  lemma {:induction false} ReplacingAppend(a: string, b: string)
    ensures ReplacingFullstopsWithSlashes(a + b) == ReplacingFullstopsWithSlashes(a) + ReplacingFullstopsWithSlashes(b)
    decreases |a|
  {
    if a == [] {
      assert a + b == b;
    } else {
      assert (a + b)[0] == a[0];
      assert (a + b)[1..] == a[1..] + b;
      ReplacingAppend(a[1..], b);
    }
  }

  /** The tags of the arguments' dynamic types, in argument order. */
  function Tags(args: seq<JavaValue>): (ts: seq<string>)
    ensures |ts| == |args|
  {
    seq(|args|, i requires 0 <= i < |args| => Tag(TypeOf(args[i])))
  }

  /** String concatenation folded from the left over a list, as `reduce("", +)` does. */
  function Joined(ts: seq<string>): string
  {
    if ts == [] then "" else Joined(ts[..|ts| - 1]) + ts[|ts| - 1]
  }

  /** Folding a concatenation is concatenating the folds. */
  lemma {:induction false} JoinedAppend(a: seq<string>, b: seq<string>)
    ensures Joined(a + b) == Joined(a) + Joined(b)
    decreases |b|
  {
    if b == [] {
      assert a + b == a;
    } else {
      var ab, b' := a + b, b[..|b| - 1];
      assert ab[..|ab| - 1] == a + b';
      assert ab[|ab| - 1] == b[|b| - 1];
      JoinedAppend(a, b');
    }
  }

  /** The left fold and the right-nested concatenation of the descriptor grammar agree. */
  lemma {:induction false} JoinedIsConcat(ts: seq<string>)
    ensures Joined(ts) == DescriptorGrammar.Concat(ts)
    decreases |ts|
  {
    if ts != [] {
      var rest := ts[1..];
      assert ts == [ts[0]] + rest;
      JoinedAppend([ts[0]], rest);
      assert Joined([ts[0]]) == ts[0] by {
        assert [ts[0]][..0] == [];
      }
      JoinedIsConcat(rest);
    }
  }

  /** `argumentSignature`: each argument's tag appended in turn, starting from "". */
  function ArgumentSignature(args: seq<JavaValue>): string
  {
    Joined(Tags(args))
  }

  /** The argument signature of a concatenation is the concatenation of the signatures. */
  lemma {:induction false} ArgumentSignatureAppend(a: seq<JavaValue>, b: seq<JavaValue>)
    ensures ArgumentSignature(a + b) == ArgumentSignature(a) + ArgumentSignature(b)
  {
    assert Tags(a + b) == Tags(a) + Tags(b);
    JoinedAppend(Tags(a), Tags(b));
  }

  /** The argument signature is the in-order concatenation of the argument tags; the
      empty list gives the empty string. */
  lemma {:induction false} ArgumentSignatureIsConcat(args: seq<JavaValue>)
    ensures ArgumentSignature(args) == DescriptorGrammar.Concat(Tags(args))
    ensures args == [] ==> ArgumentSignature(args) == ""
  {
    JoinedIsConcat(Tags(args));
  }

  /** The descriptor returned for an optional return type: its tag, or "V" for none. */
  function ReturnTag(returnType: Option<JavaType>): string
  {
    match returnType
    case Some(t) => Tag(t)
    case None => "V"
  }

  /** `methodSignature(returnType:)`. */
  function MethodSignature(args: seq<JavaValue>, returnType: Option<JavaType>): string
  {
    "(" + ArgumentSignature(args) + ")" + ReturnTag(returnType)
  }

  /** `methodSignature(customReturnType:)`: the custom return string is normalised,
      the argument tags are not. */
  function MethodSignatureCustom(args: seq<JavaValue>, customReturnType: string): string
  {
    "(" + ArgumentSignature(args) + ")" + ReplacingFullstopsWithSlashes(customReturnType)
  }

  /** A method descriptor built by the codec parses, under the grammar of the Java Virtual
      Machine Specification, back into the argument tags in order and the return tag. */
  lemma {:induction false} MethodSignatureParses(args: seq<JavaValue>, returnType: Option<JavaType>)
    ensures DescriptorGrammar.ParseMethodDescriptor(MethodSignature(args, returnType))
      == Some((Tags(args), ReturnTag(returnType)))
  {
    var ret := ReturnTag(returnType);
    if returnType.Some? {
      TagIsFieldDescriptor(returnType.value);
    }
    ParsesWithReturn(args, ret);
  }

  /** Every argument tag is a field descriptor. */
  lemma {:induction false} TagsAreFieldDescriptors(args: seq<JavaValue>)
    ensures forall i :: 0 <= i < |Tags(args)| ==> DescriptorGrammar.IsFieldDescriptor(Tags(args)[i])
  {
    forall i | 0 <= i < |Tags(args)|
      ensures DescriptorGrammar.IsFieldDescriptor(Tags(args)[i])
    {
      TagIsFieldDescriptor(TypeOf(args[i]));
    }
  }

  /** Field descriptors joined inside brackets and followed by a return descriptor parse
      back into the same descriptors and that return descriptor. */
  lemma {:induction false} JoinedParses(ts: seq<string>, ret: string)
    requires forall i :: 0 <= i < |ts| ==> DescriptorGrammar.IsFieldDescriptor(ts[i])
    requires DescriptorGrammar.IsReturnDescriptor(ret)
    ensures DescriptorGrammar.ParseMethodDescriptor("(" + Joined(ts) + ")" + ret) == Some((ts, ret))
  {
    JoinedIsConcat(ts);
    DescriptorGrammar.MethodDescriptorConcat(ts, ret);
  }

  /** Any return descriptor after "(" + argument signature + ")" parses back into the
      argument tags and that return descriptor. */
  lemma {:induction false} ParsesWithReturn(args: seq<JavaValue>, ret: string)
    requires DescriptorGrammar.IsReturnDescriptor(ret)
    ensures DescriptorGrammar.ParseMethodDescriptor("(" + ArgumentSignature(args) + ")" + ret)
      == Some((Tags(args), ret))
  {
    TagsAreFieldDescriptors(args);
    JoinedParses(Tags(args), ret);
  }

  /** The descriptor is two brackets, the argument tags and the return tag, so its
      length is 2 + the sum of the argument tag lengths + the return tag length. */
  lemma {:induction false} MethodSignatureLength(args: seq<JavaValue>, returnType: Option<JavaType>)
    ensures |MethodSignature(args, returnType)| == 2 + |DescriptorGrammar.Concat(Tags(args))| + |ReturnTag(returnType)|
  {
    ArgumentSignatureIsConcat(args);
  }

  /** No arguments and no return type give "()V". */
  lemma EmptyVoidSignature()
    ensures MethodSignature([], None) == "()V"
  {
  }

  /** Two Int arguments and no return type give "(II)V", as the documentation says. */
  lemma {:induction false} TwoIntsVoidSignature(x: Int64, y: Int64)
    ensures MethodSignature([IntValue(x), IntValue(y)], None) == "(II)V"
  {
    var args := [IntValue(x), IntValue(y)];
    assert Tags(args) == ["I", "I"];
    assert ["I", "I"][..1] == ["I"];
    assert ["I"][..0] == [];
    assert Joined(["I", "I"]) == "II";
  }

  /** With a custom return type only the return part is rewritten: the part up to the
      closing bracket is the one `methodSignature(returnType:)` builds. */
  lemma {:induction false} CustomKeepsArguments(args: seq<JavaValue>, customReturnType: string)
    ensures var s := MethodSignatureCustom(args, customReturnType);
      var n := |ArgumentSignature(args)| + 2;
      n <= |s| && s[..n] == MethodSignature(args, None)[..n] &&
      s[n..] == ReplacingFullstopsWithSlashes(customReturnType)
  {
  }

  /** `returningObjectType`: a class name written with dots gives the object descriptor of
      its internal name, and the whole descriptor parses with that return. */
  lemma {:induction false} ReturningObjectTypeParses(args: seq<JavaValue>, objectType: string)
    requires DescriptorGrammar.IsInternalClassName(ReplacingFullstopsWithSlashes(objectType))
    ensures var ret := "L" + ReplacingFullstopsWithSlashes(objectType) + ";";
      ReplacingFullstopsWithSlashes("L" + objectType + ";") == ret &&
      DescriptorGrammar.ParseMethodDescriptor(MethodSignatureCustom(args, "L" + objectType + ";"))
        == Some((Tags(args), ret))
  {
    var n := ReplacingFullstopsWithSlashes(objectType);
    ReplacingAppend("L", objectType);
    ReplacingAppend("L" + objectType, ";");
    assert ReplacingFullstopsWithSlashes("L") == "L";
    assert ReplacingFullstopsWithSlashes(";") == ";";
    DescriptorGrammar.ObjectDescriptor(n);
    ParsesWithReturn(args, "L" + n + ";");
  }

  /** The String-array overload asks for the return "[Ljava/lang/String;", which is the
      descriptor of an array of strings. */
  lemma {:induction false} StringArrayReturnParses(args: seq<JavaValue>)
    ensures var ret := "[" + Tag(StringType);
      ReplacingFullstopsWithSlashes(ret) == ret &&
      DescriptorGrammar.ParseMethodDescriptor(MethodSignatureCustom(args, ret)) == Some((Tags(args), ret))
  {
    var ret := "[" + Tag(StringType);
    assert ret == "[Ljava/lang/String;";
    ReplacingWithoutDots(ret);
    TagIsFieldDescriptor(StringType);
    DescriptorGrammar.ArrayDescriptor(Tag(StringType));
    ParsesWithReturn(args, ret);
  }
}
