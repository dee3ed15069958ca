/** Re-serialising a path-style request for the upstream (`handle_path_forward` in src/proxy.rs),
    against a parser for sections 3 and 5 of RFC 9112. */
module RequestHead {
  import opened Prelude
  import opened Bytes
  import opened Text
  import opened Headers
  import opened Authority

  // ---------------------------------------------------------------------
  // Building
  // ---------------------------------------------------------------------

  function HTTP11(): seq<byte> {
    Ascii("HTTP/1.1")
  }

  predicate IsHost(name: seq<byte>) {
    SameIgnoringCase(name, Ascii("host"))
  }

  /** The connection management fields that are not forwarded. */
  predicate IsHopByHop(name: seq<byte>) {
    || SameIgnoringCase(name, ConnectionName())
    || SameIgnoringCase(name, Ascii("keep-alive"))
    || SameIgnoringCase(name, Ascii("proxy-connection"))
  }

  function HostValue(host: seq<byte>, port: nat): seq<byte> {
    if port == 443 then host else HostPort(host, port)
  }

  /** What becomes of one field. */
  function RewrittenField(f: Field, host: seq<byte>, port: nat): seq<Field> {
    if IsHost(f.name) then [Field(Ascii("Host"), HostValue(host, port))]
    else if IsHopByHop(f.name) then []
    else [f]
  }

  /** The fields the upstream is sent, before the final Connection field. */
  function Rewritten(fs: seq<Field>, host: seq<byte>, port: nat): seq<Field> {
    if fs == [] then []
    else Rewritten(fs[..|fs| - 1], host, port) + RewrittenField(fs[|fs| - 1], host, port)
  }

  function RequestLine(verb: seq<byte>, path: seq<byte>): seq<byte> {
    verb + [SP] + path + [SP] + HTTP11()
  }

  function Close(): Field {
    Field(Ascii("Connection"), Ascii("close"))
  }

  /** Each line ended by CRLF. */
  function Terminated(ls: seq<seq<byte>>): seq<byte> {
    if ls == [] then [] else Terminated(ls[..|ls| - 1]) + ls[|ls| - 1] + CRLF
  }

  function HeadLines(verb: seq<byte>, path: seq<byte>, fs: seq<Field>, host: seq<byte>, port: nat): seq<seq<byte>> {
    [RequestLine(verb, path)] + PrintFields(Rewritten(fs, host, port) + [Close()])
  }

  method BuildRequest(verb: seq<byte>, path: seq<byte>, fs: seq<Field>, host: seq<byte>, port: nat, body: seq<byte>)
    returns (bytes: seq<byte>)
    ensures bytes == Terminated(HeadLines(verb, path, fs, host, port)) + CRLF + body
  {
    bytes := verb + [SP] + path + [SP] + HTTP11() + CRLF;
    var fields := WriteFields(fs, host, port);
    bytes := bytes + fields;
    HeadLinesPrinted(verb, path, fs, host, port);
    bytes := bytes + (Ascii("Connection: close") + CRLFCRLF);
    bytes := bytes + body;
  }

  /** The loop over the request's fields. */
  method WriteFields(fs: seq<Field>, host: seq<byte>, port: nat) returns (bytes: seq<byte>)
    ensures bytes == Terminated(PrintFields(Rewritten(fs, host, port)))
  {
    bytes := [];
    for k := 0 to |fs|
      invariant bytes == Terminated(PrintFields(Rewritten(fs[..k], host, port)))
    {
      var line := WriteField(fs[k], host, port);
      bytes := bytes + line;
      assert fs[..k + 1][..k] == fs[..k];
      FieldsAppend(Rewritten(fs[..k], host, port), RewrittenField(fs[k], host, port));
    }
    assert fs[..|fs|] == fs;
  }

  lemma {:induction false} FieldsAppend(fs: seq<Field>, more: seq<Field>)
    ensures Terminated(PrintFields(fs + more)) == Terminated(PrintFields(fs)) + Terminated(PrintFields(more))
  {
    assert PrintFields(fs + more) == PrintFields(fs) + PrintFields(more);
    TerminatedConcat(PrintFields(fs), PrintFields(more));
  }

  lemma {:induction false} HeadLinesPrinted(verb: seq<byte>, path: seq<byte>, fs: seq<Field>, host: seq<byte>, port: nat)
    ensures Terminated(HeadLines(verb, path, fs, host, port)) + CRLF ==
            RequestLine(verb, path) + CRLF + Terminated(PrintFields(Rewritten(fs, host, port))) +
            (Ascii("Connection: close") + CRLFCRLF)
  {
    var fields := Terminated(PrintFields(Rewritten(fs, host, port)));
    TerminatedConcat([RequestLine(verb, path)], PrintFields(Rewritten(fs, host, port) + [Close()]));
    TerminatedOne(RequestLine(verb, path));
    FieldsAppend(Rewritten(fs, host, port), [Close()]);
    CloseLine();
    var close := Terminated(PrintFields([Close()]));
    assert RequestLine(verb, path) + CRLF + (fields + close) + CRLF == RequestLine(verb, path) + CRLF + fields + (close + CRLF);
  }

  method WriteField(f: Field, host: seq<byte>, port: nat) returns (line: seq<byte>)
    ensures line == Terminated(PrintFields(RewrittenField(f, host, port)))
  {
    if IsHost(f.name) {
      var value := if port == 443 then host else HostPort(host, port);
      line := Ascii("Host: ") + value + CRLF;
      TerminatedOne(PrintField(Field(Ascii("Host"), value)));
      assert Ascii("Host: ") == Ascii("Host") + [COLON, SP];
      assert PrintFields([Field(Ascii("Host"), value)]) == [PrintField(Field(Ascii("Host"), value))];
    } else if IsHopByHop(f.name) {
      line := [];
    } else {
      line := f.name + [COLON, SP] + f.value + CRLF;
      TerminatedOne(PrintField(f));
      assert PrintFields([f]) == [PrintField(f)];
    }
  }

  lemma {:induction false} CloseText()
    ensures Ascii("Connection: close") == PrintField(Close())
  {
  }

  lemma {:induction false} CloseLine()
    ensures Terminated(PrintFields([Close()])) + CRLF == Ascii("Connection: close") + CRLFCRLF
  {
    CloseText();
    TerminatedOne(PrintField(Close()));
    assert PrintFields([Close()]) == [PrintField(Close())];
    assert CRLF + CRLF == CRLFCRLF;
  }

  lemma {:induction false} TerminatedOne(l: seq<byte>)
    ensures Terminated([l]) == l + CRLF
  {
  }

  lemma {:induction false} TerminatedConcat(a: seq<seq<byte>>, b: seq<seq<byte>>)
    ensures Terminated(a + b) == Terminated(a) + Terminated(b)
  {
    if b == [] {
      assert a + b == a;
    } else {
      var n := |b| - 1;
      assert (a + b)[..|a| + n] == a + b[..n];
      TerminatedConcat(a, b[..n]);
      Regroup(Terminated(a), Terminated(b[..n]), b[n], CRLF);
    }
  }

  // ---------------------------------------------------------------------
  // A request parser
  // ---------------------------------------------------------------------

  datatype Request = Request(verb: seq<byte>, target: seq<byte>, version: seq<byte>, fields: seq<Field>, body: seq<byte>)

  function SplitCrlf(s: seq<byte>): (ls: seq<seq<byte>>)
    ensures ls != []
    decreases |s|
  {
    match Find(s, CRLF)
    case None => [s]
    case Some(i) => [s[..i]] + SplitCrlf(s[i + 2..])
  }

  predicate IsOws(b: byte) {
    b == 32 || b == 9
  }

  function TrimOws(s: seq<byte>): seq<byte>
    decreases |s|
  {
    if s == [] then []
    else if IsOws(s[0]) then TrimOws(s[1..])
    else if IsOws(s[|s| - 1]) then TrimOws(s[..|s| - 1])
    else s
  }

  /** field-name ":" OWS field-value OWS; no white space in the name. */
  function ParseField(l: seq<byte>): Option<Field> {
    match Find(l, [COLON])
    case None => None
    case Some(i) =>
      if i == 0 || exists j :: 0 <= j < i && IsWhite(l[j]) then None
      else Some(Field(l[..i], TrimOws(l[i + 1..])))
  }

  function ParseFields(ls: seq<seq<byte>>): Option<seq<Field>> {
    if ls == [] then Some([])
    else
      match ParseFields(ls[..|ls| - 1])
      case None => None
      case Some(fs) =>
        match ParseField(ls[|ls| - 1])
        case None => None
        case Some(f) => Some(fs + [f])
  }

  /** method SP request-target SP HTTP-version. */
  function ParseRequestLine(l: seq<byte>): Option<(seq<byte>, seq<byte>, seq<byte>)> {
    match Find(l, [SP])
    case None => None
    case Some(i) =>
      var rest := l[i + 1..];
      match Find(rest, [SP])
      case None => None
      case Some(j) => if i == 0 || j == 0 || SP in rest[j + 1..] then None else Some((l[..i], rest[..j], rest[j + 1..]))
  }

  function ParseRequest(bytes: seq<byte>): Option<Request> {
    match Find(bytes, CRLFCRLF)
    case None => None
    case Some(end) =>
      var ls := SplitCrlf(bytes[..end]);
      match ParseRequestLine(ls[0])
      case None => None
      case Some((verb, target, version)) =>
        match ParseFields(ls[1..])
        case None => None
        case Some(fs) => Some(Request(verb, target, version, fs, bytes[end + 4..]))
  }

  // ---------------------------------------------------------------------
  // Round trip
  // ---------------------------------------------------------------------

  lemma {:induction false} TerminatedIsJoined(ls: seq<seq<byte>>)
    requires ls != []
    ensures Terminated(ls) == Joined(ls) + CRLF
  {
    TerminatedOne(ls[0]);
    if |ls| == 1 {
      assert ls == [ls[0]];
    } else {
      TerminatedIsJoined(ls[1..]);
      TerminatedConcat([ls[0]], ls[1..]);
      assert ls == [ls[0]] + ls[1..];
    }
  }

  lemma {:induction false} FindCrlf(l: seq<byte>, rest: seq<byte>)
    requires CR !in l
    ensures Find(l + CRLF + rest, CRLF) == Some(|l|)
  {
    var s := l + CRLF + rest;
    assert s[|l|..|l| + 2] == CRLF;
    assert Occurs(s, CRLF, |l|);
    forall j: nat | j < |l|
      ensures !Occurs(s, CRLF, j)
    {
      assert s[j..j + 2][0] == l[j];
    }
  }

  lemma {:induction false} NoCrlf(l: seq<byte>)
    requires CR !in l
    ensures Find(l, CRLF) == None
  {
    forall j: nat
      ensures !Occurs(l, CRLF, j)
    {
      if j + 2 <= |l| {
        assert l[j..j + 2][0] == l[j];
      }
    }
  }

  lemma {:induction false} SplitOfJoined(ls: seq<seq<byte>>)
    requires CleanLines(ls)
    ensures SplitCrlf(Joined(ls)) == ls
  {
    if |ls| == 1 {
      NoCrlf(ls[0]);
      assert ls == [ls[0]];
    } else {
      var tail := Joined(ls[1..]);
      var s := ls[0] + CRLF + tail;
      FindCrlf(ls[0], tail);
      assert s[..|ls[0]|] == ls[0] && s[|ls[0]| + 2..] == tail;
      SplitOfJoined(ls[1..]);
      assert ls == [ls[0]] + ls[1..];
    }
  }

  lemma {:induction false} WordHasNoSpace(w: seq<byte>)
    requires IsWord(w)
    ensures SP !in w && CR !in w && LF !in w
  {
  }

  lemma {:induction false} CutAtSpace(w: seq<byte>, rest: seq<byte>)
    requires IsWord(w)
    ensures var s := w + [SP] + rest;
            Find(s, [SP]) == Some(|w|) && s[..|w|] == w && s[|w| + 1..] == rest
  {
    WordHasNoSpace(w);
    FindFirst(w + [SP] + rest, SP, |w|);
  }

  lemma {:induction false} RequestLineRoundTrip(verb: seq<byte>, path: seq<byte>)
    requires IsWord(verb) && IsWord(path)
    ensures ParseRequestLine(RequestLine(verb, path)) == Some((verb, path, HTTP11()))
  {
    var rest := path + [SP] + HTTP11();
    assert RequestLine(verb, path) == verb + [SP] + rest;
    CutAtSpace(verb, rest);
    CutAtSpace(path, HTTP11());
    VersionIsWord();
    WordHasNoSpace(HTTP11());
  }

  lemma {:induction false} VersionIsWord()
    ensures IsWord(HTTP11())
  {
    VisibleIsWord("HTTP/1.1");
  }

  lemma {:induction false} RequestLineIsClean(verb: seq<byte>, path: seq<byte>)
    requires IsWord(verb) && IsWord(path)
    ensures CleanLine(RequestLine(verb, path))
  {
  }

  lemma {:induction false} FieldParsesBack(f: Field)
    requires CleanField(f)
    ensures ParseField(PrintField(f)) == Some(f)
  {
    var l := PrintField(f);
    FindFirst(l, COLON, |f.name|);
    assert l[..|f.name|] == f.name;
    assert l[|f.name| + 1..] == [SP] + f.value;
    assert ([SP] + f.value)[1..] == f.value;
    assert TrimOws([SP] + f.value) == TrimOws(f.value) == f.value;
    forall j | 0 <= j < |f.name|
      ensures !IsWhite(l[j])
    {
      assert l[j] == f.name[j];
    }
  }

  lemma {:induction false} LinesParseBack(ls: seq<seq<byte>>, fs: seq<Field>)
    requires |ls| == |fs|
    requires forall i :: 0 <= i < |fs| ==> ParseField(ls[i]) == Some(fs[i])
    ensures ParseFields(ls) == Some(fs)
  {
    if fs != [] {
      var n := |fs| - 1;
      LinesParseBack(ls[..n], fs[..n]);
      assert ParseField(ls[n]) == Some(fs[n]) && fs == fs[..n] + [fs[n]];
    }
  }

  lemma {:induction false} FieldsParseBack(fs: seq<Field>)
    requires forall i :: 0 <= i < |fs| ==> CleanField(fs[i])
    ensures ParseFields(PrintFields(fs)) == Some(fs)
  {
    forall i | 0 <= i < |fs|
      ensures ParseField(PrintFields(fs)[i]) == Some(fs[i])
    {
      FieldParsesBack(fs[i]);
    }
    LinesParseBack(PrintFields(fs), fs);
  }

  /** Clean lines, an empty line and a body come apart again. */
  lemma {:induction false} HeadComesApart(ls: seq<seq<byte>>, body: seq<byte>)
    requires CleanLines(ls)
    ensures var head := Terminated(ls);
            var s := head + CRLF + body;
            && |head| >= 2 && Find(s, CRLFCRLF) == Some(|head| - 2)
            && SplitCrlf(s[..|head| - 2]) == ls && s[|head| + 2..] == body
  {
    var t := Joined(ls);
    TerminatedIsJoined(ls);
    HeadEndsAtEmptyLine(ls, body);
    HeadAndBody(t, body);
    SplitOfJoined(ls);
  }

  lemma {:induction false} HeadAndBody(t: seq<byte>, body: seq<byte>)
    ensures var s := t + CRLF + CRLF + body;
            s == t + CRLFCRLF + body && s[..|t|] == t && s[|t| + 4..] == body
  {
  }

  /** Any head printed line by line, followed by an empty line and a body, parses back; the first
      empty line ends exactly where the body begins. */
  lemma {:induction false} PrintedRequestParses(verb: seq<byte>, path: seq<byte>, fs: seq<Field>, body: seq<byte>)
    requires IsWord(verb) && IsWord(path)
    requires forall i :: 0 <= i < |fs| ==> CleanField(fs[i])
    ensures var head := Terminated([RequestLine(verb, path)] + PrintFields(fs));
            && Find(head + CRLF + body, CRLFCRLF) == Some(|head| - 2)
            && ParseRequest(head + CRLF + body) == Some(Request(verb, path, HTTP11(), fs, body))
  {
    var ls := [RequestLine(verb, path)] + PrintFields(fs);
    RequestLineRoundTrip(verb, path);
    RequestLineIsClean(verb, path);
    PrintedFieldsAreClean(fs);
    HeadComesApart(ls, body);
    assert ls[1..] == PrintFields(fs);
    FieldsParseBack(fs);
    var head := Terminated(ls);
    ParsesAs(head + CRLF + body, |head| - 2, verb, path, fs);
  }

  lemma {:induction false} ParsesAs(s: seq<byte>, end: nat, verb: seq<byte>, path: seq<byte>, fs: seq<Field>)
    requires Find(s, CRLFCRLF) == Some(end)
    requires ParseRequestLine(SplitCrlf(s[..end])[0]) == Some((verb, path, HTTP11()))
    requires ParseFields(SplitCrlf(s[..end])[1..]) == Some(fs)
    ensures ParseRequest(s) == Some(Request(verb, path, HTTP11(), fs, s[end + 4..]))
  {
  }

  lemma {:induction false} RewrittenIsClean(fs: seq<Field>, host: seq<byte>, port: nat)
    requires IsWord(host) && forall i :: 0 <= i < |fs| ==> CleanField(fs[i])
    ensures forall i :: 0 <= i < |Rewritten(fs, host, port)| ==> CleanField(Rewritten(fs, host, port)[i])
  {
    if fs != [] {
      RewrittenIsClean(fs[..|fs| - 1], host, port);
      HostFieldIsClean(host, port);
    }
  }

  lemma {:induction false} HostFieldIsClean(host: seq<byte>, port: nat)
    requires IsWord(host)
    ensures CleanField(Field(Ascii("Host"), HostValue(host, port)))
  {
  }

  /** The upstream reads back the method, the path, the rewritten fields in order, one final
      Connection field, and the body. */
  lemma {:induction false} RequestRoundTrip(verb: seq<byte>, path: seq<byte>, fs: seq<Field>,
                                            host: seq<byte>, port: nat, body: seq<byte>)
    requires IsWord(verb) && IsWord(path) && IsWord(host)
    requires forall i :: 0 <= i < |fs| ==> CleanField(fs[i])
    ensures var head := Terminated(HeadLines(verb, path, fs, host, port));
            && Find(head + CRLF + body, CRLFCRLF) == Some(|head| - 2)
            && ParseRequest(head + CRLF + body) ==
               Some(Request(verb, path, Ascii("HTTP/1.1"),
                            Rewritten(fs, host, port) + [Field(Ascii("Connection"), Ascii("close"))], body))
  {
    RewrittenIsClean(fs, host, port);
    CleanWithClose(Rewritten(fs, host, port));
    PrintedRequestParses(verb, path, Rewritten(fs, host, port) + [Close()], body);
  }

  lemma {:induction false} CleanWithClose(fs: seq<Field>)
    requires forall i :: 0 <= i < |fs| ==> CleanField(fs[i])
    ensures forall i :: 0 <= i < |fs + [Close()]| ==> CleanField((fs + [Close()])[i])
  {
    CloseIsClean();
  }

  lemma {:induction false} CloseIsClean()
    ensures CleanField(Close())
    ensures SameIgnoringCase(Close().name, ConnectionName())
  {
  }

  // ---------------------------------------------------------------------
  // What the rewriting means
  // ---------------------------------------------------------------------

  /** The fields that are forwarded: all but three connection management fields. */
  function Survivors(fs: seq<Field>): seq<Field> {
    if fs == [] then []
    else
      var name := fs[|fs| - 1].name;
      if SameIgnoringCase(name, Ascii("connection")) || SameIgnoringCase(name, Ascii("keep-alive")) ||
         SameIgnoringCase(name, Ascii("proxy-connection"))
      then Survivors(fs[..|fs| - 1])
      else Survivors(fs[..|fs| - 1]) + [fs[|fs| - 1]]
  }

  /** What becomes of a forwarded field: a Host field names the origin, any other stays. */
  function Forwarded(f: Field, host: seq<byte>, port: nat): Field {
    if SameIgnoringCase(f.name, Ascii("host")) then
      Field(Ascii("Host"), if port == 443 then host else host + Ascii(":") + PrintNat(port))
    else f
  }

  lemma {:induction false} NamesDiffer(name: seq<byte>)
    requires SameIgnoringCase(name, Ascii("host"))
    ensures !SameIgnoringCase(name, Ascii("connection"))
    ensures !SameIgnoringCase(name, Ascii("keep-alive"))
    ensures !SameIgnoringCase(name, Ascii("proxy-connection"))
  {
    assert |name| == |LowerAll(name)| == |LowerAll(Ascii("host"))| == 4;
    assert |LowerAll(Ascii("connection"))| == 10;
    assert |LowerAll(Ascii("keep-alive"))| == 10;
    assert |LowerAll(Ascii("proxy-connection"))| == 16;
  }

  lemma {:induction false} OneFieldRewritten(f: Field, host: seq<byte>, port: nat)
    ensures RewrittenField(f, host, port) ==
            if SameIgnoringCase(f.name, Ascii("connection")) || SameIgnoringCase(f.name, Ascii("keep-alive")) ||
               SameIgnoringCase(f.name, Ascii("proxy-connection"))
            then [] else [Forwarded(f, host, port)]
  {
    if SameIgnoringCase(f.name, Ascii("host")) {
      NamesDiffer(f.name);
      assert HostPort(host, port) == host + Ascii(":") + PrintNat(port);
    }
  }

  /** No connection management field is forwarded, in whatever case it is spelled; every other field
      is, in order and unchanged, but every Host field carries the origin. */
  lemma {:induction false} RewritingMeans(fs: seq<Field>, host: seq<byte>, port: nat)
    ensures var (r, s) := (Rewritten(fs, host, port), Survivors(fs));
            |r| == |s| && forall i :: 0 <= i < |r| ==> r[i] == Forwarded(s[i], host, port)
  {
    if fs != [] {
      var n := |fs| - 1;
      RewritingMeans(fs[..n], host, port);
      OneFieldRewritten(fs[n], host, port);
    }
  }

  lemma {:induction false} SurvivorsAre(fs: seq<Field>)
    ensures forall i :: 0 <= i < |Survivors(fs)| ==> !SameIgnoringCase(Survivors(fs)[i].name, Ascii("connection"))
  {
    if fs != [] {
      SurvivorsAre(fs[..|fs| - 1]);
    }
  }

  /** Exactly one Connection field is forwarded: the last field. */
  lemma {:induction false} OneConnectionField(fs: seq<Field>, host: seq<byte>, port: nat, i: nat)
    requires i < |Rewritten(fs, host, port) + [Field(Ascii("Connection"), Ascii("close"))]|
    ensures var r := Rewritten(fs, host, port) + [Field(Ascii("Connection"), Ascii("close"))];
            SameIgnoringCase(r[i].name, Ascii("connection")) <==> i == |r| - 1
  {
    RewritingMeans(fs, host, port);
    SurvivorsAre(fs);
    CloseIsClean();
    if i < |Survivors(fs)| && SameIgnoringCase(Survivors(fs)[i].name, Ascii("host")) {
      SameIgnoringCaseIff(Ascii("Host"), Ascii("host"));
      NamesDiffer(Ascii("Host"));
    }
  }
}
