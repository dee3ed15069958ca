/** The CONNECT client (`establish_http` in src/proxy.rs): the request it writes, read back by a
    server, and its verdict on the status line, read in chunks. */
module HttpConnect {
  import opened Prelude
  import opened Bytes
  import opened Text
  import opened WordPositions
  import opened Streams
  import opened Headers
  import opened Authority
  import opened RequestHead
  import Response

  const CHUNK: nat := 256
  const LIMIT: nat := 1024

  // ---------------------------------------------------------------------
  // The request
  // ---------------------------------------------------------------------

  /** `token` is the encoded "user:pass", when both are configured. */
  function ConnectFields(host: seq<byte>, port: nat, token: Option<seq<byte>>): seq<Field> {
    [Field(Ascii("Host"), HostPort(host, port))] +
    if token.Some? then [Field(Ascii("Proxy-Authorization"), Ascii("Basic ") + token.value)] else []
  }

  function ConnectRequest(host: seq<byte>, port: nat, token: Option<seq<byte>>): seq<byte> {
    Terminated([RequestLine(Ascii("CONNECT"), HostPort(host, port))] + PrintFields(ConnectFields(host, port, token))) + CRLF
  }

  // ---------------------------------------------------------------------
  // The verdict
  // ---------------------------------------------------------------------

  /** "Connection failed" */
  function FailureText(): seq<byte> {
    Ascii("Connection") + [SP] + Ascii("failed")
  }

  /** Second word of the first line is "200"; an empty buffer counts as a failure message. */
  function Accepts(buf: seq<byte>): bool {
    var ls := Lines(buf);
    var words := Words(Trim(if ls == [] then FailureText() else ls[0]));
    |words| >= 2 && words[1] == Ascii("200")
  }

  /** Read until a CRLF is in the buffer, more than LIMIT bytes are, or the stream ends.
      None is a failed read. */
  function Collect(buf: seq<byte>, arrivals: seq<seq<byte>>, ending: Ending): Option<seq<byte>>
    requires Proper(arrivals)
    decreases |Flat(arrivals)|
  {
    if arrivals == [] then (if ending == Eof then Some(buf) else None)
    else
      var (chunk, rest) := NextRead(arrivals, CHUNK);
      var more := buf + chunk;
      if Find(more, CRLF).Some? || |more| > LIMIT then Some(more) else Collect(more, rest, ending)
  }

  function Verdict(arrivals: seq<seq<byte>>, ending: Ending): bool
    requires Proper(arrivals)
  {
    var buf := Collect([], arrivals, ending);
    buf.Some? && Accepts(buf.value)
  }

  /** `encode` is Base64. */
  method EstablishHttp(conn: Conn, host: seq<byte>, port: nat, user: Option<seq<byte>>, pass: Option<seq<byte>>,
                       encode: seq<byte> -> seq<byte>)
    returns (ok: bool)
    requires conn.Valid()
    modifies conn`arrivals, conn`sent
    ensures conn.Valid()
    ensures conn.sent == old(conn.sent) +
            ConnectRequest(host, port,
              if user.Some? && pass.Some? then Some(encode(user.value + Ascii(":") + pass.value)) else None)
    ensures ok == Verdict(old(conn.arrivals), conn.ending)
  {
    var token := None;
    if user.Some? && pass.Some? {
      token := Some(encode(user.value + Ascii(":") + pass.value));
    }
    var request := BuildConnect(host, port, token);
    conn.WriteAll(request);
    var buf: seq<byte> := [];
    while true
      invariant conn.Valid() && |buf| <= LIMIT
      invariant conn.sent == old(conn.sent) + ConnectRequest(host, port, token)
      invariant Collect(buf, conn.arrivals, conn.ending) == Collect([], old(conn.arrivals), conn.ending)
      decreases LIMIT - |buf|
    {
      var r := conn.Read(CHUNK);
      match r
      case Failed => return false;
      case End => break;
      case Data(bytes) =>
        buf := buf + bytes;
        if Find(buf, CRLF).Some? || |buf| > LIMIT {
          break;
        }
    }
    return Accepts(buf);
  }

  method BuildConnect(host: seq<byte>, port: nat, token: Option<seq<byte>>) returns (request: seq<byte>)
    ensures request == ConnectRequest(host, port, token)
  {
    var target := HostPort(host, port);
    request := RequestLine(Ascii("CONNECT"), target) + CRLF + (Ascii("Host: ") + target + CRLF);
    ghost var to := Field(Ascii("Host"), target);
    PrintedOne(Ascii("Host: "), to);
    HeadOfTwo(RequestLine(Ascii("CONNECT"), target), to);
    if token.Some? {
      ghost var auth := Field(Ascii("Proxy-Authorization"), Ascii("Basic ") + token.value);
      request := request + (Ascii("Proxy-Authorization: ") + (Ascii("Basic ") + token.value) + CRLF);
      PrintedOne(Ascii("Proxy-Authorization: "), auth);
      HeadOfThree(RequestLine(Ascii("CONNECT"), target), to, auth);
    }
    request := request + CRLF;
  }

  lemma {:induction false} HeadOfThree(l: seq<byte>, f: Field, g: Field)
    ensures Terminated([l] + PrintFields([f] + [g])) == l + CRLF + Terminated(PrintFields([f])) + Terminated(PrintFields([g]))
  {
    FieldsAppend([f], [g]);
    TerminatedConcat([l], PrintFields([f] + [g]));
  }

  lemma {:induction false} PrintedOne(prefix: seq<byte>, f: Field)
    requires prefix == f.name + [COLON, SP]
    ensures prefix + f.value + CRLF == Terminated(PrintFields([f]))
  {
  }

  lemma {:induction false} HeadOfTwo(l: seq<byte>, f: Field)
    ensures Terminated([l] + PrintFields([f])) == l + CRLF + Terminated(PrintFields([f]))
  {
  }

  // ---------------------------------------------------------------------
  // What the proxy reads
  // ---------------------------------------------------------------------

  lemma {:induction false} HostPortIsWord(host: seq<byte>, port: nat)
    requires IsWord(host)
    ensures IsWord(HostPort(host, port))
  {
  }

  lemma {:induction false} WordFieldIsClean(name: seq<byte>, value: seq<byte>)
    requires IsWord(name) && COLON !in name && IsWord(value)
    ensures CleanField(Field(name, value))
  {
  }

  lemma {:induction false} BasicFieldIsClean(token: seq<byte>)
    requires IsWord(token)
    ensures CleanField(Field(Ascii("Proxy-Authorization"), Ascii("Basic ") + token))
  {
  }

  /** A proxy that parses the request finds the method CONNECT, one Host field, one
      Proxy-Authorization field exactly if there is a token, no other field, no body, and a target.
      An authority-form reader finds the same host and port in it exactly when the host is a
      registered name or a bracketed literal; `parse_authority` exactly when it opens no bracket. */
  lemma {:induction false} ConnectTargetRoundTrip(host: seq<byte>, port: nat, token: Option<seq<byte>>)
    requires IsWord(host) && port <= 65535 && (token.Some? ==> IsWord(token.value))
    ensures var target := host + Ascii(":") + PrintNat(port);
            ParseRequest(ConnectRequest(host, port, token)) ==
            Some(Request(Ascii("CONNECT"), target, Ascii("HTTP/1.1"),
                         [Field(Ascii("Host"), target)] +
                         (if token.Some? then [Field(Ascii("Proxy-Authorization"), Ascii("Basic ") + token.value)] else []),
                         []))
    ensures ReadAuthority(host + Ascii(":") + PrintNat(port)) == Some((host, port)) <==> IsUriHost(host)
    ensures ParseAuthority(host + Ascii(":") + PrintNat(port)) == Ok(host, port) <==> host[0] != 91
  {
    ConnectParses(host, port, token);
    TargetReadsBackIff(host, port);
    PrintParseInverse(host, port);
    TargetText(host, port);
  }

  lemma {:induction false} TargetText(host: seq<byte>, port: nat)
    ensures HostPort(host, port) == host + Ascii(":") + PrintNat(port)
  {
  }

  lemma {:induction false} ConnectParses(host: seq<byte>, port: nat, token: Option<seq<byte>>)
    requires IsWord(host) && (token.Some? ==> IsWord(token.value))
    ensures ParseRequest(ConnectRequest(host, port, token)) ==
            Some(Request(Ascii("CONNECT"), HostPort(host, port), HTTP11(), ConnectFields(host, port, token), []))
  {
    ConnectFieldsAreClean(host, port, token);
    HostPortIsWord(host, port);
    VisibleIsWord("CONNECT");
    PrintedRequestParses(Ascii("CONNECT"), HostPort(host, port), ConnectFields(host, port, token), []);
    assert ConnectRequest(host, port, token) == ConnectRequest(host, port, token) + [];
  }

  lemma {:induction false} ConnectFieldsAreClean(host: seq<byte>, port: nat, token: Option<seq<byte>>)
    requires IsWord(host) && (token.Some? ==> IsWord(token.value))
    ensures forall i :: 0 <= i < |ConnectFields(host, port, token)| ==> CleanField(ConnectFields(host, port, token)[i])
  {
    HostPortIsWord(host, port);
    WordFieldIsClean(Ascii("Host"), HostPort(host, port));
    if token.Some? {
      BasicFieldIsClean(token.value);
    }
  }

  // ---------------------------------------------------------------------
  // Chunking and the verdict
  // ---------------------------------------------------------------------

  /** A line end (CR, LF) is complete within the first 1025 bytes. */
  predicate EarlyCrlf(s: seq<byte>) {
    Find(s, [13, 10]).Some? && Find(s, [13, 10]).value + 2 <= 1025
  }

  /** What the loop can have collected from stream `s`. */
  ghost predicate Collected(s: seq<byte>, ending: Ending, r: Option<seq<byte>>) {
    if r.None? then !EarlyCrlf(s) && |s| <= LIMIT && ending == Broken
    else
      var n := |r.value|;
      && n <= |s| && r.value == s[..n]
      && (if EarlyCrlf(s) then Find(s, CRLF).value + 2 <= n
          else if |s| <= LIMIT then n == |s| && ending == Eof
          else LIMIT < n <= LIMIT + CHUNK)
  }

  /** A read that ends at `end` and stops the loop. */
  lemma {:induction false} StopsAt(s: seq<byte>, at: nat, end: nat, ending: Ending)
    requires at <= LIMIT && at < end <= at + CHUNK && end <= |s| && Find(s[..at], CRLF).None?
    requires Find(s[..end], CRLF).Some? || end > LIMIT
    ensures Collected(s, ending, Some(s[..end]))
  {
    FindInPrefix(s, at, CRLF);
    FindInPrefix(s, end, CRLF);
  }

  /** One round of the loop, told by positions in the whole stream. */
  lemma {:induction false} CollectRound(s: seq<byte>, at: nat, arrivals: seq<seq<byte>>, ending: Ending)
    returns (end: nat, rest: seq<seq<byte>>)
    requires Proper(arrivals) && arrivals != [] && at <= |s| && s[at..] == Flat(arrivals)
    ensures Proper(rest) && at < end <= at + CHUNK && end <= |s| && s[end..] == Flat(rest)
    ensures |Flat(rest)| < |Flat(arrivals)|
    ensures Collect(s[..at], arrivals, ending) ==
            if Find(s[..end], CRLF).Some? || end > LIMIT then Some(s[..end]) else Collect(s[..end], rest, ending)
  {
    var (chunk, more) := NextRead(arrivals, CHUNK);
    ReadAdvances(s, at, arrivals, CHUNK);
    end, rest := at + |chunk|, more;
  }

  lemma {:induction false} CollectStops(s: seq<byte>, at: nat, arrivals: seq<seq<byte>>, ending: Ending)
    requires Proper(arrivals) && at <= |s| && s[at..] == Flat(arrivals)
    requires Find(s[..at], CRLF).None? && at <= LIMIT
    ensures Collected(s, ending, Collect(s[..at], arrivals, ending))
    decreases |Flat(arrivals)|
  {
    if arrivals == [] {
      assert s[..at] == s;
    } else {
      var end, rest := CollectRound(s, at, arrivals, ending);
      if Find(s[..end], CRLF).None? && end <= LIMIT {
        CollectStops(s, end, rest, ending);
      } else {
        StopsAt(s, at, end, ending);
      }
    }
  }

  lemma {:induction false} FirstLineStable(s: seq<byte>, n: nat)
    requires n <= |s| && Find(s, [LF]).Some? && Find(s, [LF]).value < n
    ensures Accepts(s[..n]) == Accepts(s)
  {
    FindInPrefix(s, n, [LF]);
    var f := Find(s, [LF]).value;
    assert s[..n][..f] == s[..f];
  }

  lemma {:induction false} CrlfHasLf(s: seq<byte>)
    requires Find(s, CRLF).Some?
    ensures Find(s, [LF]).Some? && Find(s, [LF]).value < Find(s, CRLF).value + 2
  {
    var i := Find(s, CRLF).value;
    assert s[i..i + 2][1] == LF;
    assert s[i + 1..i + 2] == [LF];
    assert Occurs(s, [LF], i + 1);
  }

  /** If the first line ends within the first 1025 bytes, or the stream has no more than 1025, the
      verdict is that of the first line of the whole stream, under every chunking; but a stream that
      fails before the loop has stopped is refused. */
  lemma {:induction false} VerdictIsFirstLine(arrivals: seq<seq<byte>>, ending: Ending)
    requires Proper(arrivals)
    requires var s := Flat(arrivals);
             (Find(s, [LF]).Some? && Find(s, [LF]).value < 1025) || |s| <= 1025
    ensures var s := Flat(arrivals);
            Verdict(arrivals, ending) <==> Accepts(s) && (ending == Eof || |s| > 1024 || EarlyCrlf(s))
  {
    var s := Flat(arrivals);
    StartCollecting(arrivals, ending);
    var r := Collect([], arrivals, ending);
    if r.Some? {
      var buf := r.value;
      if EarlyCrlf(s) {
        CrlfHasLf(s);
        FirstLineStable(s, |buf|);
      } else if Find(s, [LF]).Some? && Find(s, [LF]).value < |buf| {
        FirstLineStable(s, |buf|);
      } else {
        assert buf == s[..|s|] == s;
      }
    }
  }

  lemma {:induction false} StartCollecting(arrivals: seq<seq<byte>>, ending: Ending)
    requires Proper(arrivals)
    ensures Collected(Flat(arrivals), ending, Collect([], arrivals, ending))
  {
    var s := Flat(arrivals);
    assert s[..0] == [] && s[0..] == s;
    NothingIn(CRLF);
    CollectStops(s, 0, arrivals, ending);
  }

  lemma {:induction false} NothingIn(pat: seq<byte>)
    requires pat != []
    ensures Find([], pat).None?
  {
  }

  /** Four full reads, one read up to `n`, then the rest. */
  function CutAt(s: seq<byte>, n: nat): (arrivals: seq<seq<byte>>)
    requires LIMIT < n <= |s|
    ensures Proper(arrivals)
  {
    var first := [s[..256], s[256..512], s[512..768], s[768..LIMIT], s[LIMIT..n]];
    if n == |s| then first else first + [s[n..]]
  }

  lemma {:induction false} CutAtIsWhole(s: seq<byte>, n: nat)
    requires LIMIT < n <= |s|
    ensures Flat(CutAt(s, n)) == s
  {
    var a := CutAt(s, n);
    var tail := if n == |s| then [] else [s[n..]];
    assert a == [s[..256], s[256..512], s[512..768], s[768..LIMIT], s[LIMIT..n]] + tail;
    assert Flat(tail) == s[n..];
    FlatFive(s[..256], s[256..512], s[512..768], s[768..LIMIT], s[LIMIT..n], tail);
    assert s[..256] + (s[256..512] + (s[512..768] + (s[768..LIMIT] + (s[LIMIT..n] + s[n..])))) == s;
  }

  lemma {:induction false} FlatFive(a: seq<byte>, b: seq<byte>, c: seq<byte>, d: seq<byte>, e: seq<byte>, tail: seq<seq<byte>>)
    ensures Flat([a, b, c, d, e] + tail) == a + (b + (c + (d + (e + Flat(tail)))))
  {
    FlatCons(a, [b, c, d, e] + tail);
    FlatCons(b, [c, d, e] + tail);
    FlatCons(c, [d, e] + tail);
    FlatCons(d, [e] + tail);
    FlatCons(e, tail);
    assert [a] + ([b, c, d, e] + tail) == [a, b, c, d, e] + tail;
    assert [b] + ([c, d, e] + tail) == [b, c, d, e] + tail;
    assert [c] + ([d, e] + tail) == [c, d, e] + tail;
    assert [d] + ([e] + tail) == [d, e] + tail;
  }

  lemma {:induction false} FlatCons(a: seq<byte>, tail: seq<seq<byte>>)
    ensures Flat([a] + tail) == a + Flat(tail)
  {
  }

  /** A read that fits is the next segment. */
  lemma {:induction false} CollectSegment(buf: seq<byte>, arrivals: seq<seq<byte>>, ending: Ending)
    requires Proper(arrivals) && arrivals != [] && |arrivals[0]| <= CHUNK
    ensures Collect(buf, arrivals, ending) ==
            var more := buf + arrivals[0];
            if Find(more, CRLF).Some? || |more| > LIMIT then Some(more) else Collect(more, arrivals[1..], ending)
  {
  }

  /** Every prefix in the window is what some chunking collects. */
  lemma {:induction false} CutAtCollects(s: seq<byte>, n: nat, ending: Ending)
    requires !EarlyCrlf(s) && LIMIT < n <= |s| && n <= LIMIT + CHUNK
    ensures Collect([], CutAt(s, n), ending) == Some(s[..n])
  {
    var a := CutAt(s, n);
    FindInPrefix(s, 256, CRLF);
    FindInPrefix(s, 512, CRLF);
    FindInPrefix(s, 768, CRLF);
    FindInPrefix(s, LIMIT, CRLF);
    assert [] + a[0] == s[..256] && s[..256] + a[1] == s[..512] && s[..512] + a[2] == s[..768];
    assert s[..768] + a[3] == s[..LIMIT] && s[..LIMIT] + a[4] == s[..n];
    assert a[1..][0] == a[1] && a[2..][0] == a[2] && a[3..][0] == a[3] && a[4..][0] == a[4];
    CollectSegment([], a, ending);
    CollectSegment(s[..256], a[1..], ending);
    CollectSegment(s[..512], a[2..], ending);
    CollectSegment(s[..768], a[3..], ending);
    CollectSegment(s[..LIMIT], a[4..], ending);
    assert a[1..][1..] == a[2..] && a[2..][1..] == a[3..] && a[3..][1..] == a[4..];
  }

  // ---------------------------------------------------------------------
  // The verdict, byte by byte
  // ---------------------------------------------------------------------

  /** The second word of the first line of `s` begins at offset `a`, with "200". */
  ghost predicate CodeAt(s: seq<byte>, a: nat) {
    SecondWordAt(s, a) && LF !in s[..a] && a + 3 <= |s| && s[a..a + 3] == Ascii("200")
  }

  /** The three bytes at `a` are a whole word of the first `n` bytes: these end there, or white
      space follows. */
  predicate CodeEndsBy(s: seq<byte>, a: nat, n: nat) {
    a + 3 == n || (a + 3 < n <= |s| && IsWhite(s[a + 3]))
  }

  /** The first line with its line end cut off. */
  function FirstLine(s: seq<byte>): seq<byte> {
    match Find(s, [LF])
    case None => s
    case Some(f) => s[..f]
  }

  lemma {:induction false} TwoWords(first: seq<byte>, second: seq<byte>)
    requires IsWord(first) && IsWord(second)
    ensures Words(first + [SP] + second) == [first, second]
  {
    assert first + [SP] + second == first + ([SP] + second);
    WordsFirst(first, [SP] + second);
    WordsSkipSpace(second);
    WordsFirst(second, []);
    assert second + [] == second;
  }

  lemma {:induction false} FailureIsNoCode()
    ensures |Words(FailureText())| == 2 && |Words(FailureText())[1]| == 6
  {
    VisibleIsWord("Connection");
    VisibleIsWord("failed");
    TwoWords(Ascii("Connection"), Ascii("failed"));
  }

  lemma {:induction false} FirstLineWords(s: seq<byte>)
    requires s != []
    ensures Lines(s) != [] && Words(Trim(Lines(s)[0])) == Words(FirstLine(s))
  {
    var line := FirstLine(s);
    WordsOfTrim(Lines(s)[0]);
    if Find(s, [LF]).Some? && line != [] && line[|line| - 1] == CR {
      WordsDropWhite(line);
    }
  }

  lemma {:induction false} EmptyIsRefused()
    ensures !Accepts([])
  {
    FindAbsent([], LF);
    WordsOfTrim(FailureText());
    FailureIsNoCode();
  }

  lemma {:induction false} AcceptsByWords(s: seq<byte>)
    ensures Accepts(s) <==> |Words(FirstLine(s))| >= 2 && Words(FirstLine(s))[1] == Ascii("200")
  {
    if s == [] {
      EmptyIsRefused();
      FindAbsent(s, LF);
    } else {
      FirstLineWords(s);
    }
  }

  /** In the first line, "200" as second word is a word of the whole text. */
  lemma {:induction false} CodeInFirstLine(s: seq<byte>, a: nat)
    ensures CodeAt(s, a) && CodeEndsBy(s, a, |s|) <==> IsCode(FirstLine(s), a)
  {
    ByteAt(s, LF);
    var n := |FirstLine(s)|;
    assert FirstLine(s) == s[..n];
    SecondWordInPrefix(s, n, a);
    if a + 3 <= |s| && s[a..a + 3] == Ascii("200") {
      assert s[a] == s[a..a + 3][0] == 50 && s[a + 1] == s[a..a + 3][1] == 48 && s[a + 2] == s[a..a + 3][2] == 48;
    }
    if a + 3 <= n {
      assert s[..n][a..a + 3] == s[a..a + 3];
      assert s[..a] == s[..n][..a];
    }
  }

  /** What is accepted, exactly: the bytes "200" standing as second word of the first line. */
  lemma {:induction false} AcceptsIff(s: seq<byte>)
    ensures Accepts(s) <==> exists a: nat :: CodeAt(s, a) && CodeEndsBy(s, a, |s|)
  {
    AcceptsByWords(s);
    SecondWordIff(FirstLine(s), Ascii("200"));
    forall a: nat
      ensures CodeAt(s, a) && CodeEndsBy(s, a, |s|) <==> IsCode(FirstLine(s), a)
    {
      CodeInFirstLine(s, a);
    }
    CodeOfLine(FirstLine(s));
  }

  ghost predicate IsCode(line: seq<byte>, a: nat) {
    SecondWordAt(line, a) && WordSpan(line, a, a + 3) && line[a..a + 3] == Ascii("200")
  }

  lemma {:induction false} CodeOfLine(line: seq<byte>)
    ensures (exists a: nat, e: nat :: SecondWordAt(line, a) && WordSpan(line, a, e) && line[a..e] == Ascii("200")) <==>
            exists a: nat :: IsCode(line, a)
  {
    if a: nat, e: nat :| SecondWordAt(line, a) && WordSpan(line, a, e) && line[a..e] == Ascii("200") {
      assert e == a + 3;
      assert IsCode(line, a);
    }
    if a: nat :| IsCode(line, a) {
      assert WordSpan(line, a, a + 3);
    }
  }

  /** For the prefix of `n` bytes. */
  lemma {:induction false} PrefixAcceptsIff(s: seq<byte>, n: nat)
    requires n <= |s|
    ensures Accepts(s[..n]) <==> exists a: nat :: CodeAt(s, a) && CodeEndsBy(s, a, n)
  {
    AcceptsIff(s[..n]);
    forall a: nat
      ensures CodeAt(s[..n], a) && CodeEndsBy(s[..n], a, n) <==> CodeAt(s, a) && CodeEndsBy(s, a, n)
    {
      CodeInPrefix(s, n, a);
    }
  }

  lemma {:induction false} CodeInPrefix(s: seq<byte>, n: nat, a: nat)
    requires n <= |s|
    ensures CodeAt(s[..n], a) && CodeEndsBy(s[..n], a, n) <==> CodeAt(s, a) && CodeEndsBy(s, a, n)
  {
    SecondWordInPrefix(s, n, a);
    if a + 3 <= n {
      assert s[..n][..a] == s[..a] && s[..n][a..a + 3] == s[a..a + 3];
    }
  }

  // ---------------------------------------------------------------------
  // Streams whose first line is late
  // ---------------------------------------------------------------------

  /** "200" begins the second word of the first line, and where the reads end decides: its three
      bytes are complete only behind byte 1025, or they end there and the word goes on. */
  ghost predicate StraddlesAt(s: seq<byte>, a: nat) {
    && CodeAt(s, a) && a + 3 <= 1280
    && (a + 3 > 1025 || (a + 3 == 1025 < |s| && !IsWhite(s[1025])))
  }

  ghost predicate Straddles(s: seq<byte>) {
    exists a: nat :: StraddlesAt(s, a)
  }

  /** Prefixes of 1025 to 1280 bytes agree when nothing straddles. */
  lemma {:induction false} WindowAgrees(s: seq<byte>, n: nat)
    requires LIMIT < n <= Min(LIMIT + CHUNK, |s|) && !Straddles(s)
    ensures Accepts(s[..n]) == Accepts(s[..LIMIT + 1])
  {
    PrefixAcceptsIff(s, n);
    PrefixAcceptsIff(s, LIMIT + 1);
    forall a: nat | CodeAt(s, a)
      ensures CodeEndsBy(s, a, n) <==> CodeEndsBy(s, a, LIMIT + 1)
    {
      assert !StraddlesAt(s, a);
    }
  }

  /** Two prefixes that differ when something does. */
  lemma {:induction false} WindowDiffers(s: seq<byte>) returns (n: nat)
    requires |s| > LIMIT && Straddles(s)
    ensures LIMIT < n <= Min(LIMIT + CHUNK, |s|) && Accepts(s[..n]) != Accepts(s[..LIMIT + 1])
  {
    var a: nat :| StraddlesAt(s, a);
    n := if a + 3 > LIMIT + 1 then a + 3 else LIMIT + 2;
    PrefixAcceptsIff(s, n);
    PrefixAcceptsIff(s, LIMIT + 1);
    forall b: nat | CodeAt(s, b)
      ensures b == a
    {
      SecondWordIsUnique(s, a, b);
    }
  }

  /** Every stream in which a "200" straddles has a chunking that is accepted and one that is rejected. */
  lemma {:induction false} VerdictDependsOnChunking(s: seq<byte>, ending: Ending)
    returns (yes: seq<seq<byte>>, no: seq<seq<byte>>)
    requires |s| > LIMIT && !EarlyCrlf(s) && Straddles(s)
    ensures Proper(yes) && Flat(yes) == s && Verdict(yes, ending)
    ensures Proper(no) && Flat(no) == s && !Verdict(no, ending)
  {
    var n := WindowDiffers(s);
    CutAtIsWhole(s, n);
    CutAtIsWhole(s, LIMIT + 1);
    CutAtCollects(s, n, ending);
    CutAtCollects(s, LIMIT + 1, ending);
    yes, no := CutAt(s, n), CutAt(s, LIMIT + 1);
    if !Accepts(s[..n]) {
      yes, no := no, yes;
    }
  }

  /** For a long stream with no CRLF in its first 1025 bytes, the verdict is independent of the
      chunking exactly when no "200" in second place straddles byte 1025. */
  lemma {:induction false} LongLineIndependentIff(s: seq<byte>, ending: Ending)
    requires |s| > 1024 && !EarlyCrlf(s)
    ensures (forall arrivals :: Proper(arrivals) && Flat(arrivals) == s ==>
               Verdict(arrivals, ending) == Accepts(s[..1025])) <==> !Straddles(s)
  {
    if !Straddles(s) {
      forall arrivals | Proper(arrivals) && Flat(arrivals) == s
        ensures Verdict(arrivals, ending) == Accepts(s[..LIMIT + 1])
      {
        StartCollecting(arrivals, ending);
        WindowAgrees(s, |Collect([], arrivals, ending).value|);
      }
    } else {
      var yes, no := VerdictDependsOnChunking(s, ending);
      assert Verdict(yes, ending) != Verdict(no, ending);
    }
  }

  /** "H", 1021 spaces, then "2000" is one: cut after 1025 bytes it reads 200. */
  lemma {:induction false} LongLineStraddles() returns (s: seq<byte>)
    ensures |s| > LIMIT && !EarlyCrlf(s) && Straddles(s)
  {
    s := [72] + seq(1021, i => SP) + Ascii("2000");
    NoCrlf(s);
    assert Spans(s, 0, 1, 1022);
    assert s[1022..1025] == Ascii("200");
    assert StraddlesAt(s, 1022);
  }

  // ---------------------------------------------------------------------
  // What the verdict means
  // ---------------------------------------------------------------------

  lemma {:induction false} CodeOfStatus(status: nat)
    ensures PrintNat(status) == Ascii("200") <==> status == 200
  {
    PrintNatValue(status);
    PrintNatValue(200);
    assert PrintNat(200) == Ascii("200") by { assert PrintNat(20) == PrintNat(2) + [48]; }
  }

  /** A first line that is a status line decides by its status. */
  lemma {:induction false} StatusLineDecides(s: seq<byte>, status: nat, reason: seq<byte>)
    requires 100 <= status <= 999
    requires Lines(s) != [] && Lines(s)[0] == Response.StatusLine(status, reason)
    ensures Accepts(s) <==> status == 200
  {
    WordsOfTrim(Lines(s)[0]);
    Response.StatusRoundTrip(status, reason);
    CodeOfStatus(status);
  }

  lemma {:induction false} StatusLineIsClean(status: nat, reason: seq<byte>)
    requires CR !in reason && LF !in reason
    ensures CleanLine(Response.StatusLine(status, reason))
  {
    Response.HeadLinesClean(status, reason, []);
    assert CleanLine(([Response.StatusLine(status, reason)] + PrintFields([]))[0]);
  }

  lemma {:induction false} StatusLineFirst(l: seq<byte>, more: seq<byte>)
    requires CleanLine(l) && |l| <= 1023
    ensures EarlyCrlf(l + CRLF + more)
    ensures Lines(l + CRLF + more) != [] && Lines(l + CRLF + more)[0] == l
  {
    var s := l + CRLF + more;
    FindCrlf(l, more);
    FindFirst(s, LF, |l| + 1);
    assert s[..|l| + 1] == l + [CR];
    assert DropLast(l + [CR]) == l;
  }

  /** For every chunking, a reply that begins with a status line of at most 1023 bytes is
      accepted exactly when its status is 200. */
  lemma {:induction false} AcceptedIffStatus200(arrivals: seq<seq<byte>>, ending: Ending,
                                                status: nat, reason: seq<byte>, more: seq<byte>)
    requires 100 <= status <= 999 && CR !in reason && LF !in reason
    requires |Response.StatusLine(status, reason)| <= 1023
    requires Proper(arrivals) && Flat(arrivals) == Response.StatusLine(status, reason) + CRLF + more
    ensures Verdict(arrivals, ending) <==> status == 200
  {
    var l := Response.StatusLine(status, reason);
    StatusLineIsClean(status, reason);
    StatusLineFirst(l, more);
    VerdictIsFirstLine(arrivals, ending);
    StatusLineDecides(l + CRLF + more, status, reason);
  }
}
