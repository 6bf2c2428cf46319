/**
  The test cases of the test program, as clients of the model: each method
  builds the strings its test builds and asserts what the test checks, so
  that the verifier shows the contracts above are strong enough to pass
  them. Also the worked examples of the free operations, and the two
  inputs on which the draft's length computations go wrong.
 */
module StringTests {
  import opened CStrings
  import opened Strings
  import opened StringOps

  /** The sentences of the two substring tests, in pieces short enough for the verifier to check byte by byte. */
  const Nobody: string := "Nobody thinks " + "that Joe is " + "awesome."
  const Widely: string := "It is widely " + "accepted that " + "C++ is fantastic" + "ally hard " + "to use."

  /** A C string literal: the characters of `s` followed by a nul. */
  method Literal(s: string) returns (a: array<byte>)
    requires forall i :: 0 <= i < |s| ==> 0 < s[i] as int < 256
    ensures fresh(a) && a[..] == Ascii(s) + [0]
    ensures NulFree(Ascii(s)) && 0 in a[..] && FirstNul(a[..]) == |s|
  {
    a := new byte[|s| + 1](i requires 0 <= i < |s| + 1 => if i < |s| then s[i] as int as byte else 0);
    assert a[..] == Ascii(s) + [0];
    FirstNulOfTerminated(Ascii(s), []);
    assert Ascii(s) + [0] + [] == a[..];
  }

  /** `String{literal}`: a string made by the nul-terminated constructor. */
  method FromLiteral(s: string) returns (r: String)
    requires forall i :: 0 <= i < |s| ==> 0 < s[i] as int < 256
    ensures fresh(r) && fresh(r.buf) && r.Valid() && r.contents == Ascii(s)
  {
    var lit := Literal(s);
    r := new String.FromTerminated(lit);
    assert lit[..][..|s|] == Ascii(s);
  }

  /** `EmptyString`: the empty string has length 0 and its first byte is the terminator. */
  method EmptyString() returns (length: nat, first: byte)
    ensures length == 0 && first == 0
  {
    var empty := new String.Empty();
    length, first := empty.Length(), empty.Data()[0];
  }

  /** `FilledString`: `String{'a', 3}` has length 3, reads "aaa", and byte 3 is the terminator. */
  method FilledString() returns (length: nat, text: seq<byte>, terminator: byte)
    ensures length == 3 && text == Ascii("aaa") && terminator == 0
  {
    var filled := new String.Repeated('a' as int as byte, 3);
    length, text, terminator := filled.Length(), filled.Data()[..filled.Length()], filled.Data()[3];
  }

  /** `NulTerminatedString`: the string reads as its input and has a buffer other than the input. */
  method NulTerminatedString() returns (text: seq<byte>, ownBuffer: bool)
    ensures text == Ascii("Hello, World!") && ownBuffer
  {
    var input := Literal("Hello, World!");
    var cstring := new String.FromTerminated(input);
    assert input[..][..13] == Ascii("Hello, World!");
    text, ownBuffer := cstring.Data()[..cstring.Length()], cstring.Data() != input;
  }

  /** `StringCopy`: both strings read "foo", from two different buffers. */
  method StringCopy() returns (fooText: seq<byte>, copyText: seq<byte>, distinct: bool)
    ensures fooText == Ascii("foo") && copyText == Ascii("foo") && distinct
  {
    var foo := FromLiteral("foo");
    var copy := new String.Copy(foo);
    fooText, copyText := foo.Data()[..foo.Length()], copy.Data()[..copy.Length()];
    distinct := foo.Data() != copy.Data();
  }

  /** `StringMove`: the moved-to string has the very buffer the source had. */
  method StringMove() returns (stolen: bool, text: seq<byte>)
    ensures stolen && text == Ascii("foo")
  {
    var foo := FromLiteral("foo");
    var data := foo.Data();
    var moved := String.Move(foo, false);
    stolen, text := moved.Data() == data, moved.Data()[..moved.Length()];
  }

  /** `StringMoveWithFailedAllocation`: the move throws, and the source is still a valid "foo". */
  method StringMoveWithFailedAllocation() returns (hadException: bool, fooText: seq<byte>)
    ensures hadException && fooText == Ascii("foo")
  {
    var foo := FromLiteral("foo");
    var moved := String.Move(foo, true);
    hadException, fooText := moved == null, foo.Data()[..foo.Length()];
  }

  /** `CopyAssign`: after `bar = foo` both read "foo", from two different buffers. */
  method CopyAssign() returns (fooText: seq<byte>, barText: seq<byte>, distinct: bool)
    ensures fooText == Ascii("foo") && barText == Ascii("foo") && distinct
  {
    var foo := FromLiteral("foo");
    var bar := new String.Empty();
    var ok := bar.CopyAssign(foo, false);
    fooText, barText := foo.Data()[..foo.Length()], bar.Data()[..bar.Length()];
    distinct := foo.Data() != bar.Data();
  }

  /** `CopyAssignSelf`: `foo = x` with `x` referring to `foo` leaves "foo"; no allocation is needed. */
  method CopyAssignSelf() returns (text: seq<byte>)
    ensures text == Ascii("foo")
  {
    var foo := FromLiteral("foo");
    var ok := foo.CopyAssign(foo, true);
    text := foo.Data()[..foo.Length()];
  }

  /** `CopyAssignWithFailedAllocation`: the assignment throws and the destination keeps its buffer. */
  method CopyAssignWithFailedAllocation() returns (hadException: bool, sameData: bool)
    ensures hadException && sameData
  {
    var foo := new String.Empty();
    var bar := new String.Repeated('#' as int as byte, 128);
    var fooData := foo.Data();
    var ok := foo.CopyAssign(bar, true);
    hadException, sameData := !ok, foo.Data() == fooData;
  }

  /** `MoveAssign`: after `bar = std::move(foo)`, `bar` has the very buffer `foo` had. */
  method MoveAssign() returns (stolen: bool, text: seq<byte>)
    ensures stolen && text == Ascii("foo")
  {
    var foo := FromLiteral("foo");
    var data := foo.Data();
    var bar := new String.Empty();
    var ok := bar.MoveAssign(foo, false);
    stolen, text := bar.Data() == data, bar.Data()[..bar.Length()];
  }

  /**
    `MoveAssignSelf`: the test assigns `foo = x` with `x` a plain reference,
    a copy-assignment; a real self move-assignment is checked as well. Both
    leave "foo".
   */
  method MoveAssignSelf() returns (copied: seq<byte>, moved: seq<byte>)
    ensures copied == Ascii("foo") && moved == Ascii("foo")
  {
    var foo := FromLiteral("foo");
    var ok := foo.CopyAssign(foo, false);
    copied := foo.Data()[..foo.Length()];
    ok := foo.MoveAssign(foo, true);
    moved := foo.Data()[..foo.Length()];
  }

  /** `MoveAssignWithFailedAllocation`: the assignment throws and both strings keep their buffers. */
  method MoveAssignWithFailedAllocation() returns (hadException: bool, fooKept: bool, barKept: bool)
    ensures hadException && fooKept && barKept
  {
    var foo := new String.Empty();
    var bar := new String.Repeated('!' as int as byte, 128);
    var fooData, barData := foo.Data(), bar.Data();
    var ok := foo.MoveAssign(bar, true);
    hadException, fooKept, barKept := !ok, foo.Data() == fooData, bar.Data() == barData;
  }

  /** `StringsWithZeros`: `String('\0', 3)` has length 3. */
  method StringsWithZeros() returns (length: nat)
    ensures length == 3
  {
    var foo := new String.Repeated(0, 3);
    length := foo.Length();
  }

  /** `Output`: writing a string to an empty stream writes its bytes, the embedded zero included. */
  method OutputTest() returns (fooOutput: seq<byte>, barOutput: seq<byte>)
    ensures fooOutput == Ascii("Hello, World!")
    ensures barOutput == Ascii("Hello") + [0] + Ascii("World")
  {
    var text := Literal("Hello, World!");
    var foo := new String.FromBytes(text, 0, 13);
    fooOutput := Output([], foo.Data()[..foo.Length()]);
    var withZero := Ascii("Hello") + [0] + Ascii("World");
    var textWithZero := new byte[11](i requires 0 <= i < 11 => withZero[i]);
    var bar := new String.FromBytes(textWithZero, 0, 11);
    barOutput := Output([], bar.Data()[..bar.Length()]);
    assert textWithZero[..] == withZero;
  }

  /** `BasicSubstring`: the substring from 19 reads "Joe is awesome.". */
  method BasicSubstring() returns (text: seq<byte>)
    ensures text == Ascii("Joe is awesome.")
  {
    var foo := FromLiteral(Nobody);
    var bar := SubstringOf(foo, 19);
    BasicSubstringExample();
    text := bar.Data()[..bar.Length()];
  }

  /** `DualSubstring`: the substring of 16 bytes from 27 reads "C++ is fantastic". */
  method DualSubstring() returns (text: seq<byte>)
    ensures text == Ascii("C++ is fantastic")
  {
    var foo := FromLiteral(Widely);
    var bar := SubstringRangeOf(foo, 27, 16);
    DualSubstringExample();
    text := bar.Data()[..bar.Length()];
  }

  /** `SubstringWithZeros`: the substring from 5 of twenty zeros has length 15. */
  method SubstringWithZeros() returns (length: nat)
    ensures length == 15
  {
    var zeros := new String.Repeated(0, 20);
    var tail := SubstringOf(zeros, 5);
    length := tail.Length();
  }

  /** `Concat`: "Hello, " + "World!" reads "Hello, World!". */
  method ConcatTest() returns (text: seq<byte>)
    ensures text == Ascii("Hello, World!")
  {
    var hello := FromLiteral("Hello, ");
    var world := FromLiteral("World!");
    var both := Plus(hello, world);
    ConcatExample();
    text := both.Data()[..both.Length()];
  }

  /** `ConcatWithZeros`: five zeros plus five zeros has length 10. */
  method ConcatWithZeros() returns (length: nat)
    ensures length == 10
  {
    var a := new String.Repeated(0, 5);
    var b := new String.Repeated(0, 5);
    var both := Plus(a, b);
    length := both.Length();
  }

  lemma BasicSubstringExample()
    ensures Substring(Ascii(Nobody), 19) == Ascii("Joe is awesome.")
  {
    var s := Ascii(Nobody);
    assert forall i :: 0 <= i < 15 ==> s[19 + i] == Ascii("Joe is awesome.")[i];
  }

  lemma DualSubstringExample()
    ensures SubstringRange(Ascii(Widely), 27, 16)
         == Ascii("C++ is fantastic")
  {
    var s := Ascii(Widely);
    assert forall i :: 0 <= i < 16 ==> s[27 + i] == Ascii("C++ is fantastic")[i];
  }

  lemma ConcatExample()
    ensures Concat(Ascii("Hello, "), Ascii("World!")) == Ascii("Hello, World!")
  {
    var r := Concat(Ascii("Hello, "), Ascii("World!"));
    assert forall i :: 0 <= i < 13 ==> r[i] == Ascii("Hello, World!")[i];
  }

  /**
    The draft's terminator scan on "Hello!": it counts from one and reports
    7, where the documented answer is 6.
   */
  method LengthFromPointerCounterexample() returns (asWritten: nat, intended: nat)
    ensures asWritten == 7 && intended == 6
  {
    var hello := Literal("Hello!");
    asWritten := LengthFromPointerAsWritten(hello);
    intended := LengthFromPointer(hello);
  }

  /**
    The draft's `length()` on `String('\0', 3)`: the scan stops at the first
    embedded zero and reports 1, where the test expects 3.
   */
  method LengthOfZerosCounterexample() returns (asWritten: nat, intended: nat)
    ensures asWritten == 1 && intended == 3
  {
    var foo := new String.Repeated(0, 3);
    assert foo.buf[..][0] == 0;
    asWritten := foo.LengthAsWritten();
    intended := foo.Length();
  }
}
