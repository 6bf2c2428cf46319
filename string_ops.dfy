/**
  The free operations on strings, written only against the public
  interface: the two substrings, concatenation (`operator+`) and output
  (`operator<<`). Each is a function on contents, and the substring and
  concatenation operations also as methods that build a new `String`.
 */
module StringOps {
  import opened CStrings
  import opened Strings

  /** `substring(s, start)`: the bytes of `s` from `start` to the end; `start <= |s|` is the caller's duty. */
  function Substring(s: seq<byte>, start: nat): (r: seq<byte>)
    requires start <= |s|
    ensures |r| == |s| - start
    ensures forall i :: 0 <= i < |r| ==> r[i] == s[start + i]
  {
    s[start..]
  }

  /** `substring(s, start, length)`: the bytes `[start, start + length)`, which must lie inside `s`. */
  function SubstringRange(s: seq<byte>, start: nat, length: nat): (r: seq<byte>)
    requires start + length <= |s|
    ensures |r| == length
    ensures forall i :: 0 <= i < length ==> r[i] == s[start + i]
  {
    s[start..start + length]
  }

  /** `a + b`: every byte of `a`, then every byte of `b`, zeros included. */
  function Concat(a: seq<byte>, b: seq<byte>): (r: seq<byte>)
    ensures |r| == |a| + |b|
    ensures forall i :: 0 <= i < |a| ==> r[i] == a[i]
    ensures forall j :: 0 <= j < |b| ==> r[|a| + j] == b[j]
  {
    a + b
  }

  /**
    `output << s`: the stream's bytes so far, `sink`, followed by all the
    bytes of `s`, zeros included and no terminator.
   */
  function Output(sink: seq<byte>, s: seq<byte>): (r: seq<byte>)
    ensures |r| == |sink| + |s|
    ensures r[..|sink|] == sink && r[|sink|..] == s
  {
    sink + s
  }

  /** The one-argument substring is the range that runs to the end. */
  lemma SubstringIsRangeToEnd(s: seq<byte>, start: nat)
    requires start <= |s|
    ensures Substring(s, start) == SubstringRange(s, start, |s| - start)
  {
  }

  /** Cutting a string at any `k` and concatenating the two halves gives it back. */
  lemma SplitThenConcat(s: seq<byte>, k: nat)
    requires k <= |s|
    ensures Concat(SubstringRange(s, 0, k), Substring(s, k)) == s
  {
    var r := Concat(SubstringRange(s, 0, k), Substring(s, k));
    assert forall i :: 0 <= i < |s| ==> r[i] == s[i] by {
      forall i | 0 <= i < |s| ensures r[i] == s[i] {
        if i >= k { assert r[k + (i - k)] == Substring(s, k)[i - k]; }
      }
    }
  }

  /** Concatenation is undone by the substrings at the seam. */
  lemma ConcatThenSplit(a: seq<byte>, b: seq<byte>)
    ensures SubstringRange(Concat(a, b), 0, |a|) == a
    ensures Substring(Concat(a, b), |a|) == b
  {
  }

  /** Writing `a` and then `b` to a stream writes their concatenation. */
  lemma OutputTwice(sink: seq<byte>, a: seq<byte>, b: seq<byte>)
    ensures Output(Output(sink, a), b) == Output(sink, Concat(a, b))
  {
  }

  /** A substring of a substring is a substring of the original. */
  lemma SubstringOfSubstring(s: seq<byte>, start: nat, length: nat, inner: nat)
    requires start + length <= |s| && inner <= length
    ensures Substring(SubstringRange(s, start, length), inner)
         == SubstringRange(s, start + inner, length - inner)
  {
  }

  /** The new string holding `substring(s, start)`, copied by the fixed-size constructor from `s.data() + start`. */
  method SubstringOf(s: String, start: nat) returns (r: String)
    requires s.Valid() && start <= s.Length()
    ensures fresh(r) && fresh(r.buf) && r.Valid()
    ensures r.contents == Substring(s.contents, start)
    ensures unchanged(s) && unchanged(s.buf)
  {
    var data := s.Data();
    r := new String.FromBytes(data, start, s.Length() - start);
    assert data[start..start + (s.Length() - start)] == s.contents[start..];
  }

  /** The new string holding `substring(s, start, length)`, copied from `s.data() + start`. */
  method SubstringRangeOf(s: String, start: nat, length: nat) returns (r: String)
    requires s.Valid() && start + length <= s.Length()
    ensures fresh(r) && fresh(r.buf) && r.Valid()
    ensures r.contents == SubstringRange(s.contents, start, length)
    ensures unchanged(s) && unchanged(s.buf)
  {
    var data := s.Data();
    r := new String.FromBytes(data, start, length);
    assert data[start..start + length] == s.contents[start..start + length];
  }

  /**
    `a + b` as a new string: a string of `|a| + |b|` zeros is made, then
    `a`'s bytes and `b`'s bytes are written into it through `data()`.
   */
  method Plus(a: String, b: String) returns (r: String)
    requires a.Valid() && b.Valid()
    ensures fresh(r) && fresh(r.buf) && r.Valid()
    ensures r.contents == Concat(a.contents, b.contents)
    ensures unchanged(a) && unchanged(a.buf) && unchanged(b) && unchanged(b.buf)
  {
    var n, m := a.Length(), b.Length();
    r := new String.Repeated(0, n + m);
    var i := 0;
    while i < n
      invariant 0 <= i <= n
      invariant r.Valid() && fresh(r.buf) && r.length == n + m
      invariant forall k :: 0 <= k < i ==> r.contents[k] == a.contents[k]
      invariant unchanged(a) && unchanged(a.buf) && unchanged(b) && unchanged(b.buf)
    {
      r.Store(i, a.Data()[i]);
      i := i + 1;
    }
    var j := 0;
    while j < m
      invariant 0 <= j <= m
      invariant r.Valid() && fresh(r.buf) && r.length == n + m
      invariant forall k :: 0 <= k < n ==> r.contents[k] == a.contents[k]
      invariant forall k :: 0 <= k < j ==> r.contents[n + k] == b.contents[k]
      invariant unchanged(a) && unchanged(a.buf) && unchanged(b) && unchanged(b.buf)
    {
      r.Store(n + j, b.Data()[j]);
      j := j + 1;
    }
    assert r.contents == a.contents + b.contents;
  }
}
