/** Octets, substring search and the text operations of the Rust standard library that the
    modelled code relies on. Text is its UTF-8 bytes; white space is the ASCII white space. */
module Bytes {
  import opened Prelude

  type byte = b: int | 0 <= b < 256

  const CR: byte := 13
  const LF: byte := 10
  const SP: byte := 32
  const COLON: byte := 58

  const CRLF: seq<byte> := [13, 10]
  const CRLFCRLF: seq<byte> := [13, 10, 13, 10]

  /** An ASCII literal as bytes. */
  function Ascii(s: string): (bs: seq<byte>)
    requires forall i :: 0 <= i < |s| ==> s[i] < 128 as char
    ensures |bs| == |s|
    ensures forall i :: 0 <= i < |s| ==> bs[i] == s[i] as int
  {
    seq(|s|, i requires 0 <= i < |s| => s[i] as int)
  }

  predicate Occurs(s: seq<byte>, pat: seq<byte>, i: nat) {
    i + |pat| <= |s| && s[i..i + |pat|] == pat
  }

  /** Offset of the first occurrence of `pat`. */
  function Find(s: seq<byte>, pat: seq<byte>): (r: Option<nat>)
    ensures r.Some? ==> Occurs(s, pat, r.value) && forall j: nat :: j < r.value ==> !Occurs(s, pat, j)
    ensures r.None? ==> forall j: nat :: !Occurs(s, pat, j)
  {
    FindFrom(s, pat, 0)
  }

  function FindFrom(s: seq<byte>, pat: seq<byte>, i: nat): (r: Option<nat>)
    requires i <= |s|
    ensures r.Some? ==> i <= r.value && Occurs(s, pat, r.value) && forall j: nat :: i <= j < r.value ==> !Occurs(s, pat, j)
    ensures r.None? ==> forall j: nat :: i <= j ==> !Occurs(s, pat, j)
    decreases |s| - i
  {
    if Occurs(s, pat, i) then Some(i)
    else if i == |s| then None
    else FindFrom(s, pat, i + 1)
  }

  /** An occurrence inside a prefix is an occurrence that ends there. */
  lemma {:induction false} OccursInPrefix(s: seq<byte>, n: nat, pat: seq<byte>, i: nat)
    requires n <= |s|
    ensures Occurs(s[..n], pat, i) <==> i + |pat| <= n && Occurs(s, pat, i)
  {
  }

  /** Searching a prefix finds the first occurrence of the whole as soon as it is complete. */
  lemma {:induction false} FindInPrefix(s: seq<byte>, n: nat, pat: seq<byte>)
    requires n <= |s|
    ensures Find(s[..n], pat) ==
            (if Find(s, pat).Some? && Find(s, pat).value + |pat| <= n then Find(s, pat) else None)
  {
    var whole := Find(s, pat);
    forall j: nat
      ensures Occurs(s[..n], pat, j) <==> j + |pat| <= n && Occurs(s, pat, j)
    {
      OccursInPrefix(s, n, pat, j);
    }
    if whole.Some? && whole.value + |pat| <= n {
      assert Occurs(s[..n], pat, whole.value);
    }
  }
}
