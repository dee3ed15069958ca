/** An upstream connection as the code sees it: reads that deliver some bytes, in chunks the
    environment chooses, and writes. */
module Streams {
  import opened Prelude
  import opened Bytes

  /** How a stream ends once its bytes are used up: end of file, or an error
      (a failed read, or the deadline running out). */
  datatype Ending = Eof | Broken

  datatype ReadResult = Data(bytes: seq<byte>) | End | Failed

  function Flat(arrivals: seq<seq<byte>>): seq<byte> {
    if arrivals == [] then [] else arrivals[0] + Flat(arrivals[1..])
  }

  /** A read of zero bytes means end of file, so what arrives is never empty. */
  predicate Proper(arrivals: seq<seq<byte>>) {
    forall i :: 0 <= i < |arrivals| ==> |arrivals[i]| > 0
  }

  /** One read into a buffer of `max` bytes: what is available, or as much of it as fits. */
  function NextRead(arrivals: seq<seq<byte>>, max: nat): (r: (seq<byte>, seq<seq<byte>>))
    requires Proper(arrivals) && arrivals != [] && max > 0
    ensures 1 <= |r.0| <= max && Proper(r.1)
    ensures Flat(arrivals) == r.0 + Flat(r.1)
  {
    var head := arrivals[0];
    if |head| <= max then (head, arrivals[1..])
    else
      assert ([head[max..]] + arrivals[1..])[1..] == arrivals[1..];
      (head[..max], [head[max..]] + arrivals[1..])
  }

  lemma {:induction false} FlatConcat(a: seq<seq<byte>>, b: seq<seq<byte>>)
    ensures Flat(a + b) == Flat(a) + Flat(b)
  {
    if a == [] {
      assert a + b == b;
    } else {
      assert (a + b)[1..] == a[1..] + b;
      FlatConcat(a[1..], b);
    }
  }

  /** A read moves a position in the whole stream forward by what it returns. */
  lemma {:induction false} ReadAdvances(s: seq<byte>, at: nat, arrivals: seq<seq<byte>>, max: nat)
    requires Proper(arrivals) && arrivals != [] && max > 0 && at <= |s| && s[at..] == Flat(arrivals)
    ensures var (chunk, rest) := NextRead(arrivals, max);
            && at + |chunk| <= |s|
            && s[..at] + chunk == s[..at + |chunk|]
            && s[at + |chunk|..] == Flat(rest)
  {
  }

  class Conn {
    var arrivals: seq<seq<byte>>
    const ending: Ending
    var sent: seq<byte>

    ghost predicate Valid() reads this {
      Proper(arrivals)
    }

    /** The bytes the peer will still deliver. */
    ghost function Unread(): seq<byte> reads this {
      Flat(arrivals)
    }

    constructor (arrivals: seq<seq<byte>>, ending: Ending)
      requires Proper(arrivals)
      ensures Valid() && this.arrivals == arrivals && this.ending == ending && sent == []
    {
      this.arrivals := arrivals;
      this.ending := ending;
      this.sent := [];
    }

    method Read(max: nat) returns (r: ReadResult)
      requires Valid() && max > 0
      modifies this`arrivals
      ensures Valid()
      ensures old(arrivals) == [] ==> arrivals == [] && r == (if ending == Eof then End else Failed)
      ensures old(arrivals) != [] ==>
        r == Data(NextRead(old(arrivals), max).0) && arrivals == NextRead(old(arrivals), max).1
    {
      if |arrivals| == 0 {
        return if ending == Eof then End else Failed;
      }
      var (chunk, rest) := NextRead(arrivals, max);
      arrivals := rest;
      return Data(chunk);
    }

    /** `read_exact`: all `n` bytes, or an error when the stream ends before them. */
    method ReadExact(n: nat) returns (r: Option<seq<byte>>)
      requires Valid()
      modifies this`arrivals
      ensures Valid()
      ensures r.Some? <==> n <= |old(Unread())|
      ensures r.Some? ==> r.value == old(Unread())[..n] && Unread() == old(Unread())[n..]
    {
      var buf: seq<byte> := [];
      while |buf| < n
        invariant Valid() && |buf| <= n
        invariant buf + Unread() == old(Unread())
        decreases n - |buf|
      {
        var chunk := Read(n - |buf|);
        match chunk
        case Data(bytes) => buf := buf + bytes;
        case _ => return None;
      }
      return Some(buf);
    }

    method WriteAll(bytes: seq<byte>)
      modifies this`sent
      ensures sent == old(sent) + bytes
    {
      sent := sent + bytes;
    }
  }
}
