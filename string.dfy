/**
  The string value type: an exact byte count and an owned buffer of one
  more byte than that, whose last byte is a nul terminator. Bytes before
  the terminator may themselves be zero; the stored length, not a scan,
  says where the contents end.

  Allocation failure is an explicit input `allocFails` of every operation
  whose allocation the tests force to fail; a buffer's identity is the
  identity of its Dafny array, so "owns its own buffer" is `fresh` and
  "steals the buffer" is reference equality with the old one.
 */
module Strings {
  import opened CStrings

  class String {
    /** The number of content bytes (`length_`). */
    var length: nat
    /** The owned buffer (`first_char_`): the contents, then a nul. */
    var buf: array<byte>
    /** The contents, as the public interface shows them. */
    ghost var contents: seq<byte>

    ghost predicate Valid()
      reads this, buf
    {
      buf.Length == length + 1 && buf[length] == 0 && contents == buf[..length]
    }

    /** The empty string: length 0 and a one-byte buffer holding the terminator. */
    constructor Empty()
      ensures Valid() && fresh(buf)
      ensures length == 0 && contents == [] && buf[0] == 0
    {
      length := 0;
      buf := new byte[1](_ => 0);
      contents := [];
    }

    /** `size` copies of `c`, followed by the terminator at index `size`. */
    constructor Repeated(c: byte, size: nat)
      ensures Valid() && fresh(buf)
      ensures length == size && contents == seq(size, _ => c)
      ensures forall i :: 0 <= i < size ==> buf[i] == c
    {
      var b := new byte[size + 1];
      var i := 0;
      while i < size
        invariant 0 <= i <= size
        invariant forall k :: 0 <= k < i ==> b[k] == c
      {
        b[i] := c;
        i := i + 1;
      }
      b[size] := 0;
      assert b[..size] == seq(size, _ => c);
      length, buf := size, b;
      contents := b[..size];
    }

    /**
      A copy of the nul-terminated buffer `cStr`: the length is the index
      of its first nul, and that many bytes are copied into a buffer of the
      string's own.
     */
    constructor FromTerminated(cStr: array<byte>)
      requires 0 in cStr[..]
      ensures Valid() && fresh(buf)
      ensures length == FirstNul(cStr[..]) && contents == cStr[..length]
      ensures NulFree(contents)
    {
      var n := LengthFromPointer(cStr);
      var b := AllocCopy(cStr, 0, n);
      length, buf := n, b;
      contents := cStr[..n];
    }

    /**
      A copy of exactly `size` bytes starting at `data + offset`, zeros
      included; the caller guarantees that those bytes exist.
     */
    constructor FromBytes(data: array<byte>, offset: nat, size: nat)
      requires offset + size <= data.Length
      ensures Valid() && fresh(buf)
      ensures length == size && contents == data[offset..offset + size]
    {
      var b := AllocCopy(data, offset, size);
      length, buf := size, b;
      contents := data[offset..offset + size];
    }

    /** The copy constructor: the same contents in a buffer of its own; `other` is untouched. */
    constructor Copy(other: String)
      requires other.Valid()
      ensures Valid() && fresh(buf)
      ensures length == other.length && contents == other.contents
      ensures unchanged(other) && unchanged(other.buf)
    {
      var b := AllocCopy(other.buf, 0, other.length);
      length, buf := other.length, b;
      contents := other.contents;
    }

    /**
      A string made from a buffer it takes over. It exists only for `Move`,
      which hands it the buffer it has just taken from the moved-from string;
      it is not one of the type's own constructors.
     */
    constructor Adopt(b: array<byte>, n: nat, ghost c: seq<byte>)
      requires b.Length == n + 1 && b[n] == 0 && c == b[..n]
      ensures Valid() && buf == b && length == n && contents == c
    {
      length, buf, contents := n, b, c;
    }

    /**
      The move constructor. The new string takes `other`'s buffer without
      copying it, and `other` is left holding a fresh empty buffer, so that
      it stays valid. That one-byte allocation is made before anything is
      taken: when it fails, no string is made and `other` is untouched.
     */
    static method Move(other: String, allocFails: bool) returns (r: String?)
      requires other.Valid()
      modifies other
      ensures other.Valid()
      ensures allocFails ==> r == null && unchanged(other)
      ensures !allocFails ==> r != null && fresh(r) && r.Valid()
      ensures !allocFails ==> r.buf == old(other.buf) && r.contents == old(other.contents)
      ensures !allocFails ==> fresh(other.buf) && other.contents == []
    {
      if allocFails {
        return null;
      }
      var empty := new byte[1](_ => 0);
      r := new String.Adopt(other.buf, other.length, other.contents);
      other.length, other.buf, other.contents := 0, empty, [];
    }

    /**
      Copy-assignment. Assigning a string to itself changes nothing.
      Otherwise the copy goes into a newly allocated buffer before the old
      one is given up; when that allocation fails, this string keeps its
      buffer and its contents (strong exception safety).
     */
    method CopyAssign(other: String, allocFails: bool) returns (ok: bool)
      requires Valid() && other.Valid()
      modifies this
      ensures Valid()
      ensures ok <==> this == other || !allocFails
      ensures !ok || this == other ==> unchanged(this)
      ensures ok && this != other ==> fresh(buf) && length == other.length && contents == other.contents
      ensures unchanged(other.buf) && other.contents == old(other.contents)
    {
      if this == other {
        return true;
      }
      if allocFails {
        return false;
      }
      var b := AllocCopy(other.buf, 0, other.length);
      length, buf, contents := other.length, b, other.contents;
      ok := true;
    }

    /**
      Move-assignment. Assigning a string to itself changes nothing.
      Otherwise this string takes `other`'s buffer and `other` is given a
      fresh empty buffer; that allocation comes first, and when it fails
      neither string changes.
     */
    method MoveAssign(other: String, allocFails: bool) returns (ok: bool)
      requires Valid() && other.Valid()
      modifies this, other
      ensures Valid() && other.Valid()
      ensures ok <==> this == other || !allocFails
      ensures !ok || this == other ==> unchanged(this) && unchanged(other)
      ensures ok && this != other ==> buf == old(other.buf) && contents == old(other.contents)
      ensures ok && this != other ==> fresh(other.buf) && other.contents == []
    {
      if this == other {
        return true;
      }
      if allocFails {
        return false;
      }
      var empty := new byte[1](_ => 0);
      length, buf, contents := other.length, other.buf, other.contents;
      other.length, other.buf, other.contents := 0, empty, [];
      ok := true;
    }

    /**
      `data()`: the buffer, `Length() + 1` bytes of which the first
      `Length()` are the contents and the last is the terminator. The
      const and the non-const overloads return this same buffer.
     */
    function Data(): (p: array<byte>)
      requires Valid()
      reads this, buf
      ensures p.Length == |contents| + 1
      ensures p[..|contents|] == contents && p[|contents|] == 0
    {
      buf
    }

    /** `length()`: the number of content bytes, read from the stored count. */
    function Length(): (n: nat)
      requires Valid()
      reads this, buf
      ensures n == |contents| && n + 1 == Data().Length
    {
      length
    }

    /**
      `length()` as the draft writes it: a scan of the buffer for its first
      nul with the counter starting at one. It ignores the stored count.
     */
    method LengthAsWritten() returns (n: nat)
      requires Valid()
      ensures n == FirstNul(buf[..]) + 1
    {
      assert buf[length] == 0 && buf[..][length] == 0;
      n := LengthFromPointerAsWritten(buf);
    }

    /**
      A write `data()[i] = b` through the non-const `data()`, at a content
      position: the contents change at `i` only, the buffer stays the same.
     */
    method Store(i: nat, b: byte)
      requires Valid() && i < length
      modifies buf, this`contents
      ensures Valid() && buf == old(buf) && length == old(length)
      ensures contents == old(contents)[i := b]
    {
      buf[i] := b;
      contents := contents[i := b];
    }
  }
}
