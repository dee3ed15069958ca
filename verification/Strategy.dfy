/** Where the fallback order starts (src/strategy.rs). The SHA-256 digest of the target
    key is an input: the hash itself is not part of this model. */
module Strategies {
  import opened Bytes

  datatype Strategy = Order | Hash

  /** `u64::from_le_bytes`, for any number of bytes. */
  function LittleEndian(bs: seq<byte>): (n: nat)
  {
    if bs == [] then 0 else bs[0] as int + 256 * LittleEndian(bs[1..])
  }

  function HashIndex(total: nat, digest: seq<byte>): (k: nat)
    requires |digest| >= 8
    ensures total > 0 ==> k < total
  {
    if total == 0 then 0 else LittleEndian(digest[..8]) % total
  }

  function StartIndex(strategy: Strategy, total: nat, digest: seq<byte>): (k: nat)
    requires |digest| >= 8
    ensures k < total || k == 0
  {
    match strategy
    case Order => 0
    case Hash => HashIndex(total, digest)
  }

  /** Which channel is the start: channel 0 in order, else the one that is left when whole rounds of
      all channels are taken off the number in the first eight digest bytes. */
  lemma {:induction false} StartIndexIff(strategy: Strategy, total: nat, digest: seq<byte>, k: nat)
    requires |digest| >= 8 && k < total
    ensures StartIndex(strategy, total, digest) == k <==>
            match strategy
            case Order => k == 0
            case Hash => exists rounds: nat :: LittleEndian(digest[..8]) == Times(rounds, total) + k
  {
    var n := LittleEndian(digest[..8]);
    Rounds(n, total);
    forall rounds: nat | n == Times(rounds, total) + k
      ensures n % total == k
    {
      AfterRounds(rounds, total, k);
    }
  }

  function Times(rounds: nat, total: nat): nat {
    if rounds == 0 then 0 else Times(rounds - 1, total) + total
  }

  lemma {:induction false} Rounds(n: nat, total: nat)
    requires total > 0
    ensures exists rounds: nat :: n == Times(rounds, total) + n % total
  {
    if n < total {
      SmallMod(n, total);
      assert n == Times(0, total) + n % total;
    } else {
      Rounds(n - total, total);
      OneRound(n - total, total);
      var rounds: nat :| n - total == Times(rounds, total) + (n - total) % total;
      assert n == Times(rounds + 1, total) + n % total;
    }
  }

  lemma {:induction false} OneRound(n: nat, total: nat)
    requires total > 0
    ensures (n + total) % total == n % total
  {
    var d := (n + total) / total - n / total - 1;
    assert d * total == n % total - (n + total) % total;
    SmallMultiple(d, total);
  }

  lemma {:induction false} SmallMultiple(d: int, total: int)
    requires total > 0 && 0 - total < d * total < total
    ensures d == 0
  {
    assert (-d) * total == -(d * total);
    if d > 0 {
      AtLeastOnce(d, total);
    } else if d < 0 {
      AtLeastOnce(-d, total);
    }
  }

  lemma {:induction false} AtLeastOnce(d: int, total: int)
    requires d > 0 && total > 0
    ensures d * total >= total
    decreases d
  {
    if d > 1 {
      AtLeastOnce(d - 1, total);
      assert (d - 1) * total == d * total - total;
    }
  }

  lemma {:induction false} AfterRounds(rounds: nat, total: nat, k: nat)
    requires k < total
    ensures (Times(rounds, total) + k) % total == k
  {
    if rounds == 0 {
      SmallMod(k, total);
    } else {
      AfterRounds(rounds - 1, total, k);
      OneRound(Times(rounds - 1, total) + k, total);
    }
  }

  /** The little-endian encoding of `n` on `width` bytes. */
  function LittleEndianBytes(n: nat, width: nat): (bs: seq<byte>)
    ensures |bs| == width
  {
    if width == 0 then [] else [(n % 256) as byte] + LittleEndianBytes(n / 256, width - 1)
  }

  function Pow256(k: nat): nat {
    if k == 0 then 1 else 256 * Pow256(k - 1)
  }

  /** Reading back an encoded number gives it modulo 256^width, so the first eight digest
      bytes can select every channel. */
  lemma {:induction false} LittleEndianRoundTrip(n: nat, width: nat)
    requires n < Pow256(width)
    ensures LittleEndian(LittleEndianBytes(n, width)) == n
  {
    if width > 0 {
      LittleEndianRoundTrip(n / 256, width - 1);
      var bs := LittleEndianBytes(n, width);
      assert bs[1..] == LittleEndianBytes(n / 256, width - 1);
    }
  }

  /** Every channel is the start for some digest: no channel is unreachable by hashing. */
  lemma {:induction false} EveryChannelIsSomeStart(total: nat, k: nat) returns (digest: seq<byte>)
    requires k < total <= Pow256(8)
    ensures |digest| >= 8 && StartIndex(Hash, total, digest) == k
  {
    digest := LittleEndianBytes(k, 8);
    assert digest[..8] == digest;
    LittleEndianRoundTrip(k, 8);
    SmallMod(k, total);
  }

  lemma {:induction false} SmallMod(k: nat, n: nat)
    requires k < n
    ensures k % n == k
  {
  }
}
