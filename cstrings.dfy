/**
  Bytes and nul-terminated byte buffers: the `char` data that the string
  type stores, the scan that measures a nul-terminated buffer, and the
  byte-copy loop shared by the constructors and by copy-assignment.
 */
module CStrings {

  /** A C++ `char`, taken as an unsigned 8-bit value. */
  newtype byte = x: int | 0 <= x < 256

  /** The index of the first nul byte of `s`. */
  function FirstNul(s: seq<byte>): (i: nat)
    requires 0 in s
    ensures i < |s| && s[i] == 0
    ensures forall j :: 0 <= j < i ==> s[j] != 0
  {
    if s[0] == 0 then 0 else 1 + FirstNul(s[1..])
  }

  /** A literal of the test cases, one byte per character. */
  function Ascii(s: string): (r: seq<byte>)
    requires forall i :: 0 <= i < |s| ==> s[i] as int < 256
    ensures |r| == |s|
    ensures forall i :: 0 <= i < |s| ==> r[i] as int == s[i] as int
  {
    seq(|s|, i requires 0 <= i < |s| => s[i] as int as byte)
  }

  /** True when no byte of `s` is nul. */
  predicate NulFree(s: seq<byte>) {
    forall i :: 0 <= i < |s| ==> s[i] != 0
  }

  /** A nul-free prefix followed by a terminator is measured as exactly that prefix. */
  lemma {:induction false} FirstNulOfTerminated(s: seq<byte>, rest: seq<byte>)
    requires NulFree(s)
    ensures 0 in s + [0] + rest
    ensures FirstNul(s + [0] + rest) == |s|
  {
    var t := s + [0] + rest;
    assert t[|s|] == 0;
    if s != [] {
      assert t[1..] == s[1..] + [0] + rest;
      FirstNulOfTerminated(s[1..], rest);
    }
  }

  /**
    The terminator scan: walks `c` from its start until the first nul and
    returns how many bytes it passed, never reading past that nul.
   */
  method LengthFromPointer(c: array<byte>) returns (length: nat)
    requires 0 in c[..]
    ensures length == FirstNul(c[..])
    ensures length < c.Length && c[length] == 0 && NulFree(c[..length])
  {
    ghost var nul := FirstNul(c[..]);
    length := 0;
    while c[length] != 0
      invariant length <= nul
      invariant forall j :: 0 <= j < length ==> c[j] != 0
      decreases nul - length
    {
      length := length + 1;
    }
  }

  /**
    The scan as the draft writes it, with the counter starting at one
    instead of zero: it reports one more than the number of bytes before
    the nul.
   */
  method LengthFromPointerAsWritten(c: array<byte>) returns (length: nat)
    requires 0 in c[..]
    ensures length == FirstNul(c[..]) + 1
  {
    ghost var nul := FirstNul(c[..]);
    length := 1;
    var current := 0;
    while c[current] != 0
      invariant current <= nul && length == current + 1
      decreases nul - current
    {
      length := length + 1;
      current := current + 1;
    }
  }

  /**
    The byte-copy loop: a fresh buffer of `n + 1` bytes whose first `n`
    bytes are `src[from..from + n]`, in order and including any zeros, and
    whose last byte is the terminator.
   */
  method AllocCopy(src: array<byte>, from: nat, n: nat) returns (b: array<byte>)
    requires from + n <= src.Length
    ensures fresh(b) && b.Length == n + 1
    ensures b[..n] == src[from..from + n] && b[n] == 0
  {
    b := new byte[n + 1];
    var i := 0;
    while i < n
      invariant 0 <= i <= n
      invariant forall k :: 0 <= k < i ==> b[k] == src[from + k]
    {
      b[i] := src[from + i];
      i := i + 1;
    }
    b[n] := 0;
    assert b[..n] == src[from..from + n];
  }
}
