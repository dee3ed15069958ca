/** Small general-purpose definitions shared by the other modules. */
module Prelude {

  datatype Option<+T> = None | Some(value: T)

  function Min(a: int, b: int): int {
    if a <= b then a else b
  }

  /** What Rust's `rotate_left` leaves in a vector. */
  function Rotated<T>(s: seq<T>, start: nat): (r: seq<T>)
    requires start <= |s|
    ensures |r| == |s|
  {
    s[start..] + s[..start]
  }

  /** Entry `k` of a rotation is entry `(start + k) mod n` of the original. */
  lemma {:induction false} RotatedAt<T>(s: seq<T>, start: nat, k: nat)
    requires start < |s| && k < |s|
    ensures Rotated(s, start)[k] == s[(start + k) % |s|]
  {
    Wrap(start + k, |s|);
  }

  lemma {:induction false} Wrap(x: nat, n: nat)
    requires 0 < n && x < 2 * n
    ensures x % n == if x < n then x else x - n
  {
  }

  lemma {:induction false} Slices<T>(s: seq<T>, a: nat, b: nat)
    requires a <= b <= |s|
    ensures s[..a] + s[a..b] == s[..b] && s[..b] + s[b..] == s
  {
  }

  lemma {:induction false} SlicesAndLast<T>(s: seq<T>, a: nat, b: nat, c: nat)
    requires a <= b <= c < |s|
    ensures s[a..c + 1] == s[a..b] + s[b..c] + [s[c]]
  {
  }

  lemma {:induction false} Regroup<T>(a: seq<T>, b: seq<T>, c: seq<T>, d: seq<T>)
    ensures a + b + c + d == a + (b + c + d)
  {
  }
}
