/** Reading the head of an upstream response from a chunked stream: the first phase of
    `read_streaming_response` (src/proxy.rs). */
module ResponseHead {
  import opened Prelude
  import opened Bytes
  import opened Streams

  /** `Panic` is the slice `header_buf[sep_idx + 4..]` out of range; for the whole reader it is also
      the unwrap of a response that the http library refused to build. */
  datatype HeadResult = Head(head: seq<byte>, leading: seq<byte>) | TooLarge | ReadFailed | Panic

  const CHUNK: nat := 4096
  const LIMIT: nat := 65536

  function Split(buf: seq<byte>): HeadResult {
    match Find(buf, CRLFCRLF)
    case Some(sep) => Head(buf[..sep], buf[sep + 4..])
    case None => Panic
  }

  /** The scan, read by read; also what is left of the stream. */
  function Scan(buf: seq<byte>, arrivals: seq<seq<byte>>, ending: Ending): (HeadResult, seq<seq<byte>>)
    requires Proper(arrivals)
    decreases |Flat(arrivals)|
  {
    if arrivals == [] then (if ending == Eof then Split(buf) else ReadFailed, [])
    else
      var (chunk, rest) := NextRead(arrivals, CHUNK);
      var more := buf + chunk;
      if Find(more, CRLFCRLF).Some? then (Split(more), rest)
      else if |more| > LIMIT then (TooLarge, rest)
      else Scan(more, rest, ending)
  }

  method ReadHead(conn: Conn) returns (r: HeadResult)
    requires conn.Valid()
    modifies conn`arrivals
    ensures conn.Valid()
    ensures (r, conn.arrivals) == Scan([], old(conn.arrivals), conn.ending)
  {
    var buf: seq<byte> := [];
    while true
      invariant conn.Valid() && |buf| <= LIMIT
      invariant Scan(buf, conn.arrivals, conn.ending) == Scan([], old(conn.arrivals), conn.ending)
      decreases LIMIT - |buf|
    {
      var chunk := conn.Read(CHUNK);
      match chunk
      case End => break;
      case Failed => return ReadFailed;
      case Data(bytes) =>
        buf := buf + bytes;
        if Find(buf, CRLFCRLF).Some? {
          break;
        }
        if |buf| > LIMIT {
          return TooLarge;
        }
    }
    var sep := Find(buf, CRLFCRLF);
    if sep.None? {
      return Panic;
    }
    return Head(buf[..sep.value], buf[sep.value + 4..]);
  }

  // ---------------------------------------------------------------------
  // Agreement with the whole stream
  // ---------------------------------------------------------------------

  /** Some read ends at an offset strictly between `lo` and `hi`. */
  ghost predicate PausesWithin(arrivals: seq<seq<byte>>, at: nat, lo: nat, hi: nat)
    requires Proper(arrivals)
    decreases |Flat(arrivals)|
  {
    arrivals != [] &&
    var (chunk, rest) := NextRead(arrivals, CHUNK);
    var end := at + |chunk|;
    lo < end < hi || PausesWithin(rest, end, lo, hi)
  }

  /** Cutting a prefix that holds the separator cuts the whole stream there. */
  lemma {:induction false} SplitOfPrefix(s: seq<byte>, n: nat)
    requires n <= |s| && Find(s, CRLFCRLF).Some? && Find(s, CRLFCRLF).value + 4 <= n
    ensures var p := Find(s, CRLFCRLF).value + 4;
            Split(s[..n]) == Head(s[..p - 4], s[p..n])
  {
    FindInPrefix(s, n, CRLFCRLF);
  }

  /** One round of the loop, told by positions in the whole stream. */
  lemma {:induction false} ScanRound(s: seq<byte>, at: nat, arrivals: seq<seq<byte>>, ending: Ending)
    returns (end: nat, rest: seq<seq<byte>>)
    requires Proper(arrivals) && arrivals != [] && at <= |s| && s[at..] == Flat(arrivals)
    ensures Proper(rest) && at < end <= at + CHUNK && end <= |s| && s[end..] == Flat(rest)
    ensures |Flat(rest)| < |Flat(arrivals)|
    ensures Scan(s[..at], arrivals, ending) ==
            if Find(s[..end], CRLFCRLF).Some? then (Split(s[..end]), rest)
            else if end > LIMIT then (TooLarge, rest)
            else Scan(s[..end], rest, ending)
    ensures forall lo: nat, hi: nat :: PausesWithin(arrivals, at, lo, hi) <==> lo < end < hi || PausesWithin(rest, end, lo, hi)
  {
    var (chunk, more) := NextRead(arrivals, CHUNK);
    ReadAdvances(s, at, arrivals, CHUNK);
    end, rest := at + |chunk|, more;
  }

  lemma {:induction false} ScanWithSeparator(s: seq<byte>, at: nat, arrivals: seq<seq<byte>>, ending: Ending)
    requires Proper(arrivals) && at <= |s| && s[at..] == Flat(arrivals)
    requires Find(s, CRLFCRLF).Some? && at < Find(s, CRLFCRLF).value + 4 && at <= LIMIT
    ensures var p := Find(s, CRLFCRLF).value + 4;
            var (r, rest) := Scan(s[..at], arrivals, ending);
            && Proper(rest)
            && (PausesWithin(arrivals, at, LIMIT, p) ==> r == TooLarge)
            && (!PausesWithin(arrivals, at, LIMIT, p) ==> HeadOf(s, r, rest))
    decreases |Flat(arrivals)|
  {
    var p := Find(s, CRLFCRLF).value + 4;
    var end, rest := ScanRound(s, at, arrivals, ending);
    FindInPrefix(s, end, CRLFCRLF);
    if p <= end {
      SplitOfPrefix(s, end);
      SplitRest(s, p, end);
      NoPausePast(rest, end, LIMIT, p);
    } else if end <= LIMIT {
      ScanWithSeparator(s, end, rest, ending);
    }
  }

  lemma {:induction false} SplitRest(s: seq<byte>, p: nat, end: nat)
    requires p <= end <= |s|
    ensures s[p..end] + s[end..] == s[p..]
  {
  }

  /** `r` is the head of the whole stream `s`, with the body split over `leading` and `rest`. */
  ghost predicate HeadOf(s: seq<byte>, r: HeadResult, rest: seq<seq<byte>>)
    requires Find(s, CRLFCRLF).Some?
  {
    var p := Find(s, CRLFCRLF).value + 4;
    r.Head? && r.head == s[..p - 4] && r.leading + Flat(rest) == s[p..]
  }

  lemma {:induction false} NoPausePast(arrivals: seq<seq<byte>>, at: nat, lo: nat, hi: nat)
    requires Proper(arrivals) && at >= hi
    ensures !PausesWithin(arrivals, at, lo, hi)
    decreases |Flat(arrivals)|
  {
    if arrivals != [] {
      var (chunk, rest) := NextRead(arrivals, CHUNK);
      NoPausePast(rest, at + |chunk|, lo, hi);
    }
  }

  /** Exactly when the head is accepted: no read may end beyond the limit and before the end of
      the separator. When it is, head and body start are those of the whole stream. */
  lemma {:induction false} HeadAcceptedIff(arrivals: seq<seq<byte>>, ending: Ending)
    requires Proper(arrivals) && Find(Flat(arrivals), CRLFCRLF).Some?
    ensures var s := Flat(arrivals);
            var p := Find(s, CRLFCRLF).value + 4;
            var (r, rest) := Scan([], arrivals, ending);
            && Proper(rest)
            && (r.Head? <==> !PausesWithin(arrivals, 0, LIMIT, p))
            && (r.Head? ==> HeadOf(s, r, rest))
            && (!r.Head? ==> r == TooLarge)
  {
    var s := Flat(arrivals);
    assert s[..0] == [] && s[0..] == s;
    ScanWithSeparator(s, 0, arrivals, ending);
  }

  /** Without a separator the outcome depends on the length alone; a short stream that ends
      cleanly reaches the out-of-range slice. */
  lemma {:induction false} ScanWithoutSeparator(s: seq<byte>, at: nat, arrivals: seq<seq<byte>>, ending: Ending)
    requires Proper(arrivals) && at <= |s| && s[at..] == Flat(arrivals)
    requires Find(s, CRLFCRLF).None? && at <= LIMIT
    ensures Scan(s[..at], arrivals, ending).0 ==
            if |s| > LIMIT then TooLarge else if ending == Eof then Panic else ReadFailed
    decreases |Flat(arrivals)|
  {
    FindInPrefix(s, at, CRLFCRLF);
    if arrivals != [] {
      var end, rest := ScanRound(s, at, arrivals, ending);
      FindInPrefix(s, end, CRLFCRLF);
      if end <= LIMIT {
        ScanWithoutSeparator(s, end, rest, ending);
      }
    }
  }

  lemma {:induction false} NoHeadWithoutSeparator(arrivals: seq<seq<byte>>, ending: Ending)
    requires Proper(arrivals) && Find(Flat(arrivals), CRLFCRLF).None?
    ensures var s := Flat(arrivals);
            Scan([], arrivals, ending).0 == if |s| > LIMIT then TooLarge else if ending == Eof then Panic else ReadFailed
  {
    var s := Flat(arrivals);
    assert s[..0] == [] && s[0..] == s;
    ScanWithoutSeparator(s, 0, arrivals, ending);
  }

  /** The slice behind the head is out of range exactly on a stream that ends cleanly, within the
      limit, with no separator. */
  lemma {:induction false} PanicsIff(arrivals: seq<seq<byte>>, ending: Ending)
    requires Proper(arrivals)
    ensures Scan([], arrivals, ending).0 == Panic <==>
            ending == Eof && |Flat(arrivals)| <= LIMIT && Find(Flat(arrivals), CRLFCRLF).None?
  {
    if Find(Flat(arrivals), CRLFCRLF).Some? {
      HeadAcceptedIff(arrivals, ending);
    } else {
      NoHeadWithoutSeparator(arrivals, ending);
    }
  }

  // ---------------------------------------------------------------------
  // The three size regimes
  // ---------------------------------------------------------------------

  lemma {:induction false} EmptyWindow(arrivals: seq<seq<byte>>, at: nat, lo: nat, hi: nat)
    requires Proper(arrivals) && hi <= lo + 1
    ensures !PausesWithin(arrivals, at, lo, hi)
    decreases |Flat(arrivals)|
  {
    if arrivals != [] {
      var (chunk, rest) := NextRead(arrivals, CHUNK);
      EmptyWindow(rest, at + |chunk|, lo, hi);
    }
  }

  /** A window wider than one read cannot be jumped over. */
  lemma {:induction false} WideWindow(arrivals: seq<seq<byte>>, at: nat, lo: nat, hi: nat)
    requires Proper(arrivals) && at <= lo && lo + CHUNK < hi <= at + |Flat(arrivals)|
    ensures PausesWithin(arrivals, at, lo, hi)
    decreases |Flat(arrivals)|
  {
    var (chunk, rest) := NextRead(arrivals, CHUNK);
    if at + |chunk| <= lo {
      WideWindow(rest, at + |chunk|, lo, hi);
    }
  }

  /** Up to 65537 bytes of head and separator, every chunking gives the split of the whole stream. */
  lemma {:induction false} SmallHeadAlwaysAccepted(arrivals: seq<seq<byte>>, ending: Ending)
    requires Proper(arrivals) && Find(Flat(arrivals), CRLFCRLF).Some?
    requires Find(Flat(arrivals), CRLFCRLF).value + 4 <= 65537
    ensures var (r, rest) := Scan([], arrivals, ending);
            Proper(rest) && HeadOf(Flat(arrivals), r, rest)
  {
    HeadAcceptedIff(arrivals, ending);
    EmptyWindow(arrivals, 0, LIMIT, Find(Flat(arrivals), CRLFCRLF).value + 4);
  }

  /** Beyond 69632 bytes, every chunking is rejected. */
  lemma {:induction false} LargeHeadAlwaysRejected(arrivals: seq<seq<byte>>, ending: Ending)
    requires Proper(arrivals) && Find(Flat(arrivals), CRLFCRLF).Some?
    requires Find(Flat(arrivals), CRLFCRLF).value + 4 > 69632
    ensures Scan([], arrivals, ending).0 == TooLarge
  {
    HeadAcceptedIff(arrivals, ending);
    WideWindow(arrivals, 0, LIMIT, Find(Flat(arrivals), CRLFCRLF).value + 4);
  }

  /** `s` cut into pieces of one full read each (the last may be shorter). */
  function Pieces(s: seq<byte>): (ps: seq<seq<byte>>)
    ensures Proper(ps) && Flat(ps) == s
    ensures forall i :: 0 <= i < |ps| ==> |ps[i]| <= CHUNK
    decreases |s|
  {
    if s == [] then []
    else
      var n := Min(CHUNK, |s|);
      var tail := Pieces(s[n..]);
      assert ([s[..n]] + tail)[1..] == tail;
      [s[..n]] + tail
  }

  lemma {:induction false} FirstRead(piece: seq<byte>, rest: seq<seq<byte>>, at: nat, lo: nat, hi: nat)
    requires Proper([piece] + rest) && Proper(rest) && |piece| <= CHUNK
    ensures PausesWithin([piece] + rest, at, lo, hi) <==>
            lo < at + |piece| < hi || PausesWithin(rest, at + |piece|, lo, hi)
  {
    assert ([piece] + rest)[1..] == rest;
  }

  lemma {:induction false} ProperConcat(a: seq<seq<byte>>, b: seq<seq<byte>>)
    requires Proper(a) && Proper(b)
    ensures Proper(a + b)
  {
  }

  lemma {:induction false} FirstPiece(s: seq<byte>, tail: seq<seq<byte>>)
    requires s != []
    ensures var n := Min(CHUNK, |s|); Pieces(s) + tail == [s[..n]] + (Pieces(s[n..]) + tail)
  {
  }

  lemma {:induction false} PieceBeforeWindow(s: seq<byte>, tail: seq<seq<byte>>, at: nat, lo: nat, hi: nat)
    requires Proper(tail) && Proper(Pieces(s) + tail) && s != [] && at + |s| <= lo
    ensures var n := Min(CHUNK, |s|);
            && Proper(Pieces(s[n..]) + tail)
            && (PausesWithin(Pieces(s) + tail, at, lo, hi) <==> PausesWithin(Pieces(s[n..]) + tail, at + n, lo, hi))
  {
    var n := Min(CHUNK, |s|);
    FirstPiece(s, tail);
    ProperConcat(Pieces(s[n..]), tail);
    FirstRead(s[..n], Pieces(s[n..]) + tail, at, lo, hi);
  }

  /** Reads that stop before the window decide nothing: the rest does. */
  lemma {:induction false} PausesAfter(s: seq<byte>, tail: seq<seq<byte>>, at: nat, lo: nat, hi: nat)
    requires Proper(tail) && Proper(Pieces(s) + tail) && at + |s| <= lo
    ensures PausesWithin(Pieces(s) + tail, at, lo, hi) <==> PausesWithin(tail, at + |s|, lo, hi)
    decreases |s|
  {
    if s == [] {
      assert Pieces(s) + tail == tail;
    } else {
      var n := Min(CHUNK, |s|);
      PieceBeforeWindow(s, tail, at, lo, hi);
      PausesAfter(s[n..], tail, at + n, lo, hi);
      assert at + n + |s[n..]| == at + |s|;
    }
  }

  /** Full reads up to the limit, then one read up to `cut`, then the rest. */
  function Cut(s: seq<byte>, cut: nat): (arrivals: seq<seq<byte>>)
    requires LIMIT < cut <= |s|
    ensures Proper(arrivals)
  {
    Pieces(s[..LIMIT]) + ([s[LIMIT..cut]] + Pieces(s[cut..]))
  }

  lemma {:induction false} CutIsWhole(s: seq<byte>, cut: nat)
    requires LIMIT < cut <= |s|
    ensures Flat(Cut(s, cut)) == s
  {
    var tail := [s[LIMIT..cut]] + Pieces(s[cut..]);
    FlatConcat(Pieces(s[..LIMIT]), tail);
    assert tail[1..] == Pieces(s[cut..]);
    assert s == s[..LIMIT] + (s[LIMIT..cut] + s[cut..]);
  }

  lemma {:induction false} CutPauses(s: seq<byte>, cut: nat, p: nat)
    requires LIMIT < cut <= p <= |s| && cut <= LIMIT + CHUNK
    ensures PausesWithin(Cut(s, cut), 0, LIMIT, p) <==> cut < p
  {
    var tail := [s[LIMIT..cut]] + Pieces(s[cut..]);
    FirstRead(s[LIMIT..cut], Pieces(s[cut..]), LIMIT, LIMIT, p);
    PausesAfter(s[..LIMIT], tail, 0, LIMIT, p);
    if cut == p {
      NoPausePast(Pieces(s[cut..]), cut, LIMIT, p);
    }
  }

  /** In between, the chunking decides: every such stream has a chunking that is accepted and
      one that is rejected. */
  lemma {:induction false} MiddleHeadDependsOnChunking(s: seq<byte>, ending: Ending)
    returns (good: seq<seq<byte>>, bad: seq<seq<byte>>)
    requires Find(s, CRLFCRLF).Some? && 65538 <= Find(s, CRLFCRLF).value + 4 <= 69632
    ensures Proper(good) && Flat(good) == s && Scan([], good, ending).0.Head?
    ensures Proper(bad) && Flat(bad) == s && Scan([], bad, ending).0 == TooLarge
  {
    var p := Find(s, CRLFCRLF).value + 4;
    good, bad := Cut(s, p), Cut(s, LIMIT + 1);
    assert Scan([], good, ending).0.Head? by {
      CutIsWhole(s, p);
      CutPauses(s, p, p);
      HeadAcceptedIff(good, ending);
    }
    assert Scan([], bad, ending).0 == TooLarge by {
      CutIsWhole(s, LIMIT + 1);
      CutPauses(s, LIMIT + 1, p);
      HeadAcceptedIff(bad, ending);
    }
    CutIsWhole(s, p);
    CutIsWhole(s, LIMIT + 1);
  }
}
