/**
 * The descriptor grammar of the Java Virtual Machine Specification, as an
 * independent reference for the signature codec: class names in internal form
 * (section 4.2.1), field descriptors (section 4.3.2) and method descriptors
 * (section 4.3.3).  A descriptor is recognised by a parser that reports how
 * many characters the leading field descriptor takes.
 */
module DescriptorGrammar {
  import opened Wrappers

  /** The one-letter base types of section 4.3.2. */
  predicate IsBaseType(c: char) {
    c == 'B' || c == 'C' || c == 'D' || c == 'F' || c == 'I' || c == 'J' || c == 'S' || c == 'Z'
  }

  /** A binary class name in internal form: identifiers separated by single slashes,
      none of them holding '.', ';' or '['. */
  predicate IsInternalClassName(s: string) {
    && |s| > 0
    && s[0] != '/'
    && s[|s| - 1] != '/'
    && (forall i :: 0 <= i < |s| ==> s[i] != '.' && s[i] != ';' && s[i] != '[')
    && (forall i :: 0 <= i < |s| - 1 ==> !(s[i] == '/' && s[i + 1] == '/'))
  }

  /** The index of the first ';' at or after `from`, if any. */
  function IndexOfSemicolon(s: string, from: nat): (r: Option<nat>)
    ensures r.Some? ==> from <= r.value < |s| && s[r.value] == ';'
    ensures r.Some? ==> forall i :: from <= i < r.value ==> s[i] != ';'
    ensures r.None? ==> forall i :: from <= i < |s| ==> s[i] != ';'
    decreases |s| - from
  {
    if from >= |s| then None
    else if s[from] == ';' then Some(from)
    else IndexOfSemicolon(s, from + 1)
  }

  /** The length of the field descriptor at the start of `s`, if one starts there. */
  function FieldLength(s: string): (r: Option<nat>)
    ensures r.Some? ==> 0 < r.value <= |s|
    decreases |s|
  {
    if |s| == 0 then None
    else if IsBaseType(s[0]) then Some(1)
    else if s[0] == 'L' then
      match IndexOfSemicolon(s, 1)
      case Some(k) => if IsInternalClassName(s[1..k]) then Some(k + 1) else None
      case None => None
    else if s[0] == '[' then
      match FieldLength(s[1..])
      case Some(n) => Some(n + 1)
      case None => None
    else None
  }

  predicate IsFieldDescriptor(s: string) {
    FieldLength(s) == Some(|s|)
  }

  /** A return descriptor is a field descriptor or the void descriptor "V". */
  predicate IsReturnDescriptor(s: string) {
    s == "V" || IsFieldDescriptor(s)
  }

  /** Parses parameter descriptors up to the closing ')': the descriptors and what follows. */
  function ParseParameters(s: string): Option<(seq<string>, string)>
    decreases |s|
  {
    if |s| == 0 then None
    else if s[0] == ')' then Some(([], s[1..]))
    else
      match FieldLength(s)
      case None => None
      case Some(n) =>
        match ParseParameters(s[n..])
        case None => None
        case Some(pr) => Some(([s[..n]] + pr.0, pr.1))
  }

  /** Parses "(" ParameterDescriptor* ")" ReturnDescriptor into its parts. */
  function ParseMethodDescriptor(s: string): Option<(seq<string>, string)>
  {
    if |s| > 0 && s[0] == '(' then
      match ParseParameters(s[1..])
      case Some(pr) => if IsReturnDescriptor(pr.1) then Some(pr) else None
      case None => None
    else None
  }

  /** In-order concatenation of descriptors. */
  function Concat(ds: seq<string>): (r: string)
    ensures ds == [] ==> r == ""
  {
    if ds == [] then "" else ds[0] + Concat(ds[1..])
  }

  lemma {:induction false} ConcatAppend(a: seq<string>, b: seq<string>)
    ensures Concat(a + b) == Concat(a) + Concat(b)
    decreases |a|
  {
    if a == [] {
      assert a + b == b;
    } else {
      assert (a + b)[1..] == a[1..] + b;
      ConcatAppend(a[1..], b);
    }
  }

  /** The first ';' is found in the prefix that holds one, whatever follows. */
  lemma {:induction false} IndexOfSemicolonPrefix(d: string, rest: string, from: nat)
    requires IndexOfSemicolon(d, from).Some?
    ensures IndexOfSemicolon(d + rest, from) == IndexOfSemicolon(d, from)
    decreases |d| - from
  {
    if d[from] != ';' {
      IndexOfSemicolonPrefix(d, rest, from + 1);
    }
  }

  /** Field descriptors are prefix-free: a descriptor is recognised in full whatever follows it. */
  lemma {:induction false} FieldLengthPrefix(d: string, rest: string)
    requires IsFieldDescriptor(d)
    ensures FieldLength(d + rest) == Some(|d|)
    decreases |d|
  {
    var s := d + rest;
    assert s[0] == d[0];
    if IsBaseType(d[0]) {
    } else if d[0] == 'L' {
      var k := IndexOfSemicolon(d, 1).value;
      IndexOfSemicolonPrefix(d, rest, 1);
      assert s[1..k] == d[1..k];
    } else {
      assert d[0] == '[';
      FieldLengthPrefix(d[1..], rest);
      assert s[1..] == d[1..] + rest;
    }
  }

  /** Concatenated parameter descriptors followed by ')' parse back into the same list. */
  lemma {:induction false} ParseParametersConcat(ds: seq<string>, rest: string)
    requires forall i :: 0 <= i < |ds| ==> IsFieldDescriptor(ds[i])
    ensures ParseParameters(Concat(ds) + ")" + rest) == Some((ds, rest))
    decreases |ds|
  {
    var s := Concat(ds) + ")" + rest;
    if ds == [] {
      assert s == ")" + rest;
      assert s[1..] == rest;
    } else {
      var d := ds[0];
      var tail := Concat(ds[1..]) + ")" + rest;
      assert s == d + tail;
      FieldLengthPrefix(d, tail);
      assert s[0] == d[0];
      assert s[0] != ')' by {
        assert FieldLength(d).Some?;
      }
      assert s[..|d|] == d;
      assert s[|d|..] == tail;
      ParseParametersConcat(ds[1..], rest);
      assert [d] + ds[1..] == ds;
    }
  }

  /** "(" + the concatenated parameter descriptors + ")" + a return descriptor is a method
      descriptor whose parts are those descriptors. */
  lemma {:induction false} MethodDescriptorConcat(ds: seq<string>, ret: string)
    requires forall i :: 0 <= i < |ds| ==> IsFieldDescriptor(ds[i])
    requires IsReturnDescriptor(ret)
    ensures ParseMethodDescriptor("(" + Concat(ds) + ")" + ret) == Some((ds, ret))
  {
    var params := Concat(ds) + ")" + ret;
    var s := "(" + params;
    assert s == "(" + Concat(ds) + ")" + ret;
    assert s[0] == '(' && s[1..] == params;
    ParseParametersConcat(ds, ret);
    assert ParseParameters(s[1..]) == Some((ds, ret));
  }

  /** A field descriptor ends in a base type letter or in ';', never in 'V'. */
  lemma {:induction false} FieldDescriptorLast(s: string)
    requires IsFieldDescriptor(s)
    ensures IsBaseType(s[|s| - 1]) || s[|s| - 1] == ';'
    decreases |s|
  {
    if IsBaseType(s[0]) {
    } else if s[0] == 'L' {
    } else {
      FieldDescriptorLast(s[1..]);
    }
  }

  /** For a well-formed method descriptor, ending in 'V' is the same as returning void. */
  lemma {:induction false} EndsInVIffVoid(s: string)
    requires ParseMethodDescriptor(s).Some?
    ensures s[|s| - 1] == 'V' <==> ParseMethodDescriptor(s).value.1 == "V"
  {
    var pr := ParseMethodDescriptor(s).value;
    ParseParametersSuffix(s[1..]);
    var r := pr.1;
    assert s[|s| - |r|..] == r;
    if r != "V" {
      FieldDescriptorLast(r);
    }
  }

  /** What follows the parameters is a suffix of the input. */
  lemma {:induction false} ParseParametersSuffix(s: string)
    requires ParseParameters(s).Some?
    ensures var r := ParseParameters(s).value.1; |r| < |s| && s[|s| - |r|..] == r
    decreases |s|
  {
    if s[0] != ')' {
      var n := FieldLength(s).value;
      ParseParametersSuffix(s[n..]);
    }
  }

  /** The search stops at the first ';' and nowhere before it. */
  lemma {:induction false} IndexOfSemicolonAt(s: string, from: nat, k: nat)
    requires from <= k < |s| && s[k] == ';'
    requires forall i :: from <= i < k ==> s[i] != ';'
    ensures IndexOfSemicolon(s, from) == Some(k)
    decreases k - from
  {
    if from < k {
      IndexOfSemicolonAt(s, from + 1, k);
    }
  }

  /** An object descriptor over an internal class name is a field descriptor. */
  lemma {:induction false} ObjectDescriptor(name: string)
    requires IsInternalClassName(name)
    ensures IsFieldDescriptor("L" + name + ";")
  {
    var s := "L" + name + ";";
    assert forall i :: 1 <= i < |s| - 1 ==> s[i] == name[i - 1];
    IndexOfSemicolonAt(s, 1, |s| - 1);
    assert s[1..|s| - 1] == name;
  }

  /** An array descriptor over a field descriptor is a field descriptor. */
  lemma {:induction false} ArrayDescriptor(d: string)
    requires IsFieldDescriptor(d)
    ensures IsFieldDescriptor("[" + d)
  {
    assert ("[" + d)[1..] == d;
  }
}
