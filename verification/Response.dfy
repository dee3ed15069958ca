/** Parsing the response head and streaming the body: the second phase of
    `read_streaming_response`, and `ReaderBody` (src/proxy.rs). */
module Response {
  import opened Prelude
  import opened Bytes
  import opened Streams
  import opened Text
  import opened WordPositions
  import opened Headers
  import opened ResponseHead

  // ---------------------------------------------------------------------
  // Status line and fields
  // ---------------------------------------------------------------------

  /** Second word of the first line as a status in 100..=999; 200 when there is none. */
  function StatusOf(ls: seq<seq<byte>>): (status: nat)
    ensures 100 <= status <= 999
  {
    var words := if ls == [] then [] else Words(ls[0]);
    var code := if |words| < 2 then None else ParseU16(words[1]);
    if code.Some? && 100 <= code.value <= 999 then code.value else 200
  }

  /** Which status is chosen, byte by byte: one other than 200 exactly when the second word of the
      first line is its numeral. */
  lemma {:induction false} StatusIff(ls: seq<seq<byte>>, status: nat)
    requires status != 200
    ensures StatusOf(ls) == status <==>
            && ls != [] && 100 <= status <= 999
            && exists a: nat, e: nat :: SecondWordAt(ls[0], a) && WordSpan(ls[0], a, e) && Numeral(ls[0][a..e], status)
  {
    if ls != [] {
      if |Words(ls[0])| >= 2 {
        var a, e := SecondWordExists(ls[0]);
        NumeralIff(ls[0][a..e], status);
      }
      forall a: nat, e: nat | SecondWordAt(ls[0], a) && WordSpan(ls[0], a, e)
        ensures |Words(ls[0])| >= 2 && Words(ls[0])[1] == ls[0][a..e]
        ensures ParseU16(ls[0][a..e]) == Some(status) <==> Numeral(ls[0][a..e], status)
      {
        SecondWordFound(ls[0], a, e);
        NumeralIff(ls[0][a..e], status);
      }
    }
  }

  /** What a header line hands to the response builder, if anything. */
  function FieldOf(line: seq<byte>): Option<Field> {
    var l := Trim(line);
    match Find(l, [COLON])
    case None => None
    case Some(col) =>
      var name := Trim(l[..col]);
      if SameIgnoringCase(name, ConnectionName()) then None
      else Some(Field(name, Trim(l[col + 1..])))
  }

  function FieldsOf(ls: seq<seq<byte>>): seq<Field> {
    if ls == [] then []
    else FieldsOf(ls[..|ls| - 1]) + match FieldOf(ls[|ls| - 1]) { case None => [] case Some(f) => [f] }
  }

  /** The fields a head hands to the response builder. */
  function HeadFields(head: seq<byte>): seq<Field> {
    var ls := Lines(head);
    FieldsOf(ls[Min(1, |ls|)..])
  }

  /** The library's test of a name and a value. */
  predicate Accepted(f: Field) {
    IsFieldName(f.name) && IsText(f.value)
  }

  predicate AllAccepted(fs: seq<Field>) {
    forall i :: 0 <= i < |fs| ==> Accepted(fs[i])
  }

  /** What the builder holds: the fields, or nothing once one has been refused. */
  function Built(fs: seq<Field>): Option<seq<Field>> {
    if AllAccepted(fs) then Some(fs) else None
  }

  lemma {:induction false} BuiltAppend(fs: seq<Field>, f: Field)
    ensures Built(fs + [f]) == if Built(fs).Some? && Accepted(f) then Some(fs + [f]) else None
  {
    var all := fs + [f];
    assert all[|fs|] == f;
    assert forall i :: 0 <= i < |fs| ==> all[i] == fs[i];
  }

  /** What one more line does to the builder. */
  lemma {:induction false} BuiltStep(ls: seq<seq<byte>>, line: seq<byte>)
    ensures var fs := FieldsOf(ls);
            Built(FieldsOf(ls + [line])) ==
            match FieldOf(line)
            case None => Built(fs)
            case Some(f) => if Built(fs).Some? && Accepted(f) then Some(fs + [f]) else None
  {
    assert (ls + [line])[..|ls|] == ls;
    assert FieldsOf(ls) + [] == FieldsOf(ls);
    if FieldOf(line).Some? {
      BuiltAppend(FieldsOf(ls), FieldOf(line).value);
    }
  }

  method ParseHead(head: seq<byte>) returns (status: nat, builder: Option<seq<Field>>)
    ensures status == StatusOf(Lines(head))
    ensures builder == Built(HeadFields(head))
  {
    var ls := Lines(head);
    status := StatusOf(ls);
    builder := AddLines(ls[Min(1, |ls|)..]);
  }

  /** The loop over header lines. */
  method AddLines(ls: seq<seq<byte>>) returns (builder: Option<seq<Field>>)
    ensures builder == Built(FieldsOf(ls))
  {
    builder := Some([]);
    for k := 0 to |ls|
      invariant builder == Built(FieldsOf(ls[..k]))
    {
      assert ls[..k + 1] == ls[..k] + [ls[k]];
      BuiltStep(ls[..k], ls[k]);
      var field := ParseLine(ls[k]);
      if field.Some? {
        builder := AddField(builder, field.value);
      }
    }
    assert ls[..|ls|] == ls;
  }

  /** `builder.header(name, value)`: a refused field leaves an error that no later call repairs. */
  method AddField(builder: Option<seq<Field>>, f: Field) returns (r: Option<seq<Field>>)
    ensures r == if builder.Some? && Accepted(f) then Some(builder.value + [f]) else None
  {
    if builder.None? || !Accepted(f) {
      return None;
    }
    return Some(builder.value + [f]);
  }

  /** Body of the loop over header lines; None is `continue`. */
  method ParseLine(raw: seq<byte>) returns (field: Option<Field>)
    ensures field == FieldOf(raw)
  {
    var line := Trim(raw);
    if |line| == 0 {
      FindAbsent(line, COLON);
      return None;
    }
    var col := Find(line, [COLON]);
    if col.None? {
      return None;
    }
    var name := Trim(line[..col.value]);
    var value := Trim(line[col.value + 1..]);
    if SameIgnoringCase(name, ConnectionName()) {
      return None;
    }
    return Some(Field(name, value));
  }

  // ---------------------------------------------------------------------
  // Round trip of a printed head
  // ---------------------------------------------------------------------

  /** "HTTP/1.1 <status> <reason>" */
  function StatusLine(status: nat, reason: seq<byte>): seq<byte> {
    Ascii("HTTP/1.1") + [SP] + PrintNat(status) + [SP] + reason
  }

  function PrintHead(status: nat, reason: seq<byte>, fs: seq<Field>): seq<byte> {
    Joined([StatusLine(status, reason)] + PrintFields(fs))
  }

  /** The fields a client is meant to see. */
  function WithoutConnection(fs: seq<Field>): seq<Field> {
    if fs == [] then []
    else
      var f := fs[|fs| - 1];
      WithoutConnection(fs[..|fs| - 1]) + if SameIgnoringCase(f.name, Ascii("connection")) then [] else [f]
  }

  lemma {:induction false} FieldRoundTrip(f: Field)
    requires CleanField(f)
    ensures FieldOf(PrintField(f)) == if SameIgnoringCase(f.name, ConnectionName()) then None else Some(f)
  {
    var l := PrintField(f);
    var n := |f.name|;
    assert l[n] == COLON && l[n + 1] == SP && l[0] == f.name[0];
    if f.value == [] {
      var t := f.name + [COLON];
      assert l == t + [SP];
      assert TrimEnd(l) == TrimEnd(t) by { assert l[..|l| - 1] == t; }
      assert Trim(l) == t;
      FieldSplit(f.name, [], t);
    } else {
      assert l[|l| - 1] == f.value[|f.value| - 1];
      TrimTrimmed(l);
      assert l == f.name + [COLON] + ([SP] + f.value);
      FieldSplit(f.name, [SP] + f.value, l);
      TrimLeadingSpace(f.value);
    }
  }

  lemma {:induction false} FieldSplit(name: seq<byte>, rest: seq<byte>, l: seq<byte>)
    requires IsWord(name) && COLON !in name && l == name + [COLON] + rest
    ensures Find(l, [COLON]) == Some(|name|) && Trim(l[..|name|]) == name && l[|name| + 1..] == rest
  {
    FindFirst(l, COLON, |name|);
    TrimTrimmed(name);
    assert l[..|name|] == name;
  }

  lemma {:induction false} FieldsRoundTrip(fs: seq<Field>)
    requires forall i :: 0 <= i < |fs| ==> CleanField(fs[i])
    ensures FieldsOf(PrintFields(fs)) == WithoutConnection(fs)
  {
    if fs != [] {
      var n := |fs| - 1;
      PrintFieldsLast(fs);
      assert PrintFields(fs)[..n] == PrintFields(fs[..n]);
      FieldsRoundTrip(fs[..n]);
      FieldRoundTrip(fs[n]);
    }
  }

  lemma {:induction false} StatusRoundTrip(status: nat, reason: seq<byte>)
    requires 100 <= status <= 999
    ensures Words(StatusLine(status, reason)) == [Ascii("HTTP/1.1"), PrintNat(status)] + Words([SP] + reason)
    ensures ParseU16(PrintNat(status)) == Some(status)
  {
    VisibleIsWord("HTTP/1.1");
    ParsePrinted(status);
    StatusLineParts(Ascii("HTTP/1.1"), PrintNat(status), reason);
  }

  lemma {:induction false} StatusLineParts(version: seq<byte>, code: seq<byte>, reason: seq<byte>)
    requires IsWord(version) && IsWord(code)
    ensures Words(version + [SP] + code + [SP] + reason) == [version, code] + Words([SP] + reason)
  {
    assert version + [SP] + code + [SP] + reason == [] + (version + ([SP] + (code + ([SP] + reason))));
    WordsFromParts([], version, [SP], code, [SP] + reason);
    assert [version] + ([code] + Words([SP] + reason)) == [version, code] + Words([SP] + reason);
  }

  lemma {:induction false} HeadLinesClean(status: nat, reason: seq<byte>, fs: seq<Field>)
    requires CR !in reason && LF !in reason
    requires forall i :: 0 <= i < |fs| ==> CleanField(fs[i])
    ensures CleanLines([StatusLine(status, reason)] + PrintFields(fs))
  {
  }

  /** Printing a head and parsing it with the reader's line, colon and trim rules gives back the
      status and the fields in order, without any spelling of Connection; the library refuses none. */
  lemma {:induction false} HeadRoundTrip(status: nat, reason: seq<byte>, fs: seq<Field>)
    requires 100 <= status <= 999 && IsText(reason)
    requires forall i :: 0 <= i < |fs| ==> WellFormed(fs[i])
    ensures var head := PrintHead(status, reason, fs);
            && StatusOf(Lines(head)) == status
            && HeadFields(head) == WithoutConnection(fs)
            && Built(HeadFields(head)) == Some(WithoutConnection(fs))
  {
    var ls := [StatusLine(status, reason)] + PrintFields(fs);
    HeadIsClean(status, reason, fs);
    LinesOfJoined(ls);
    StatusRoundTrip(status, reason);
    assert ls[1..] == PrintFields(fs);
    FieldsRoundTrip(fs);
    SomeOfThese(fs);
  }

  lemma {:induction false} HeadIsClean(status: nat, reason: seq<byte>, fs: seq<Field>)
    requires IsText(reason) && forall i :: 0 <= i < |fs| ==> WellFormed(fs[i])
    ensures CleanLines([StatusLine(status, reason)] + PrintFields(fs))
    ensures forall i :: 0 <= i < |fs| ==> CleanField(fs[i])
  {
    forall i | 0 <= i < |fs|
      ensures CleanField(fs[i])
    {
      WellFormedIsClean(fs[i]);
    }
    HeadLinesClean(status, reason, fs);
  }

  lemma {:induction false} SomeOfThese(fs: seq<Field>)
    requires forall i :: 0 <= i < |fs| ==> WellFormed(fs[i])
    ensures AllAccepted(WithoutConnection(fs))
  {
    if fs != [] {
      SomeOfThese(fs[..|fs| - 1]);
    }
  }

  // ---------------------------------------------------------------------
  // The body
  // ---------------------------------------------------------------------

  /** What one poll of the body answers. */
  datatype Poll = Pending | Frame(bytes: seq<byte>) | Error | EndOfBody

  datatype BodyState = BodyState(leading: Option<seq<byte>>, arrivals: seq<seq<byte>>, ending: Ending)

  const BODY_BUFFER: nat := 16384

  predicate WellFormedBody(b: BodyState) {
    Proper(b.arrivals) && (b.leading.Some? ==> b.leading.value != [])
  }

  function NewBody(leading: seq<byte>, arrivals: seq<seq<byte>>, ending: Ending): BodyState {
    BodyState(if leading == [] then None else Some(leading), arrivals, ending)
  }

  /** The bytes not yet handed over. */
  function Rest(b: BodyState): seq<byte> {
    (if b.leading.Some? then b.leading.value else []) + Flat(b.arrivals)
  }

  /** One poll; `ready` says whether the reader has something to say yet. */
  function Polled(b: BodyState, ready: bool): (r: (Poll, BodyState))
    requires WellFormedBody(b)
    ensures WellFormedBody(r.1)
  {
    if b.leading.Some? then (Frame(b.leading.value), b.(leading := None))
    else if !ready then (Pending, b)
    else if b.arrivals == [] then (if b.ending == Eof then EndOfBody else Error, b)
    else
      var (chunk, rest) := NextRead(b.arrivals, BODY_BUFFER);
      (Frame(chunk), b.(arrivals := rest))
  }

  class ReaderBody {
    const reader: Conn
    var leading: Option<seq<byte>>

    ghost predicate Valid() reads this, reader {
      WellFormedBody(Value())
    }

    ghost function Value(): BodyState reads this, reader {
      BodyState(leading, reader.arrivals, reader.ending)
    }

    constructor (leading: seq<byte>, reader: Conn)
      requires reader.Valid()
      ensures this.reader == reader && Valid()
      ensures Value() == NewBody(leading, reader.arrivals, reader.ending)
    {
      this.reader := reader;
      this.leading := if |leading| == 0 then None else Some(leading);
    }

    method PollFrame(ready: bool) returns (p: Poll)
      requires Valid()
      modifies this`leading, reader`arrivals
      ensures Valid() && (p, Value()) == Polled(old(Value()), ready)
    {
      if leading.Some? {
        p := Frame(leading.value);
        leading := None;
        return;
      }
      if !ready {
        return Pending;
      }
      var r := reader.Read(BODY_BUFFER);
      match r
      case Failed => return Error;
      case End => return EndOfBody;
      case Data(bytes) => return Frame(bytes);
    }
  }

  /** Any sequence of polls. */
  function PollAll(b: BodyState, readies: seq<bool>): (r: (seq<Poll>, BodyState))
    requires WellFormedBody(b)
    ensures |r.0| == |readies| && WellFormedBody(r.1)
  {
    if readies == [] then ([], b)
    else
      var (ps, b1) := PollAll(b, readies[..|readies| - 1]);
      var (p, b2) := Polled(b1, readies[|readies| - 1]);
      (ps + [p], b2)
  }

  /** The data of the frames, concatenated. */
  function Delivered(ps: seq<Poll>): seq<byte> {
    if ps == [] then []
    else Delivered(ps[..|ps| - 1]) + if ps[|ps| - 1].Frame? then ps[|ps| - 1].bytes else []
  }

  /** Answers `ps` leave body `b` in state `b'` with no byte lost, repeated or reordered and no
      empty frame; the end of the body, or an error, is reported only after every byte. */
  ghost predicate Conserved(b: BodyState, ps: seq<Poll>, b': BodyState) {
    && Delivered(ps) + Rest(b') == Rest(b)
    && (forall j :: 0 <= j < |ps| && ps[j].Frame? ==> ps[j].bytes != [])
    && (forall j :: 0 <= j < |ps| && (ps[j].EndOfBody? || ps[j].Error?) ==> Delivered(ps[..j]) == Rest(b))
  }

  /** Every sequence of polls conserves the body. */
  lemma {:induction false} BodyConservation(b: BodyState, readies: seq<bool>)
    requires WellFormedBody(b)
    ensures Conserved(b, PollAll(b, readies).0, PollAll(b, readies).1)
  {
    if readies != [] {
      var n := |readies| - 1;
      BodyConservation(b, readies[..n]);
      var (ps, b1) := PollAll(b, readies[..n]);
      PollKeepsBytes(b1, readies[n]);
      ConservedStep(b, ps, b1, Polled(b1, readies[n]).0, Polled(b1, readies[n]).1);
    }
  }

  lemma {:induction false} ConservedStep(b: BodyState, ps: seq<Poll>, b1: BodyState, p: Poll, b2: BodyState)
    requires Conserved(b, ps, b1)
    requires (if p.Frame? then p.bytes else []) + Rest(b2) == Rest(b1)
    requires (p.Frame? ==> p.bytes != []) && (p.EndOfBody? || p.Error? ==> Rest(b1) == [])
    ensures Conserved(b, ps + [p], b2)
  {
    var qs := ps + [p];
    DeliveredAppend(ps, p);
    forall j | 0 <= j < |qs| && (qs[j].EndOfBody? || qs[j].Error?)
      ensures Delivered(qs[..j]) == Rest(b)
    {
      assert qs[..j] == ps[..j];
      assert j == |ps| ==> ps[..j] == ps;
    }
  }

  lemma {:induction false} DeliveredAppend(ps: seq<Poll>, p: Poll)
    ensures Delivered(ps + [p]) == Delivered(ps) + if p.Frame? then p.bytes else []
  {
  }

  lemma {:induction false} PollKeepsBytes(b: BodyState, ready: bool)
    requires WellFormedBody(b)
    ensures var (p, b') := Polled(b, ready);
            && (if p.Frame? then p.bytes else []) + Rest(b') == Rest(b)
            && (p.Frame? ==> p.bytes != [])
            && (p.EndOfBody? || p.Error? ==> Rest(b) == [])
            && (ready && Rest(b) != [] ==> |Rest(b')| < |Rest(b)|)
            && (ready && Rest(b) == [] ==> p == (if b.ending == Eof then EndOfBody else Error))
            && b'.ending == b.ending
  {
  }

  lemma {:induction false} PollLast(b: BodyState, readies: seq<bool>)
    requires WellFormedBody(b) && readies != []
    ensures var n := |readies| - 1;
            var (ps, b1) := PollAll(b, readies[..n]);
            PollAll(b, readies).0 == ps + [Polled(b1, readies[n]).0] && |ps| == n
  {
  }

  lemma {:induction false} EarlierPolls(b: BodyState, readies: seq<bool>, n: nat)
    requires WellFormedBody(b) && n <= |readies|
    ensures PollAll(b, readies[..n]).0 == PollAll(b, readies).0[..n]
  {
    if n == |readies| {
      assert readies[..n] == readies;
    } else {
      var m := |readies| - 1;
      PollLast(b, readies);
      EarlierPolls(b, readies[..m], n);
      assert readies[..m][..n] == readies[..n];
    }
  }

  /** Poll `j` of a sequence is one poll of the state the polls before it leave. */
  lemma {:induction false} PollAt(b: BodyState, readies: seq<bool>, j: nat)
    requires WellFormedBody(b) && j < |readies|
    ensures PollAll(b, readies).0[j] == Polled(PollAll(b, readies[..j]).1, readies[j]).0
  {
    EarlierPolls(b, readies, j + 1);
    PollLast(b, readies[..j + 1]);
    assert readies[..j + 1][..j] == readies[..j];
  }

  lemma {:induction false} LeadingGoesFirst(b: BodyState, readies: seq<bool>)
    requires WellFormedBody(b)
    ensures PollAll(b, readies).1.leading == if readies == [] then b.leading else None
    ensures PollAll(b, readies).1.ending == b.ending
  {
    if readies != [] {
      LeadingGoesFirst(b, readies[..|readies| - 1]);
    }
  }

  /** What each poll answers. Leading bytes are the answer of the very first poll, ready or not;
      after that a poll is pending exactly when the reader is not ready, and else a frame of at most
      16384 bytes, or the end, or an error, once nothing is left. */
  lemma {:induction false} PollAnswers(b: BodyState, readies: seq<bool>, j: nat)
    requires WellFormedBody(b) && j < |readies|
    ensures var p := PollAll(b, readies).0[j];
            var flush := j == 0 && b.leading.Some?;
            var left := Rest(PollAll(b, readies[..j]).1);
            && (flush ==> p == Frame(b.leading.value))
            && (p == Pending <==> !flush && !readies[j])
            && (p == EndOfBody <==> !flush && readies[j] && left == [] && b.ending == Eof)
            && (p == Error <==> !flush && readies[j] && left == [] && b.ending == Broken)
            && (p.Frame? && !flush ==> |p.bytes| <= 16384)
  {
    PollAt(b, readies, j);
    LeadingGoesFirst(b, readies[..j]);
    PollKeepsBytes(PollAll(b, readies[..j]).1, readies[j]);
  }

  /** How often the reader was ready. */
  function ReadyPolls(readies: seq<bool>): nat {
    if readies == [] then 0
    else ReadyPolls(readies[..|readies| - 1]) + if readies[|readies| - 1] then 1 else 0
  }

  /** Progress: once the reader has been ready as often as there are bytes, whatever polls found it
      pending in between, all are delivered and the end is reported. */
  lemma {:induction false} BodyCompletes(b: BodyState, readies: seq<bool>)
    requires WellFormedBody(b) && ReadyPolls(readies) >= |Rest(b)|
    ensures var (ps, b') := PollAll(b, readies);
            && Delivered(ps) == Rest(b) && Rest(b') == []
            && Polled(b', true).0 == (if b.ending == Eof then EndOfBody else Error)
  {
    BodyShrinks(b, readies);
    BodyConservation(b, readies);
    PollKeepsBytes(PollAll(b, readies).1, true);
  }

  lemma {:induction false} BodyShrinks(b: BodyState, readies: seq<bool>)
    requires WellFormedBody(b)
    ensures var b' := PollAll(b, readies).1;
            (Rest(b') == [] || |Rest(b')| + ReadyPolls(readies) <= |Rest(b)|) && b'.ending == b.ending
  {
    if readies != [] {
      var n := |readies| - 1;
      BodyShrinks(b, readies[..n]);
      PollKeepsBytes(PollAll(b, readies[..n]).1, readies[n]);
      RestShrinks(PollAll(b, readies[..n]).1, readies[n]);
    }
  }

  lemma {:induction false} RestShrinks(b: BodyState, ready: bool)
    requires WellFormedBody(b)
    ensures |Rest(Polled(b, ready).1)| <= |Rest(b)|
  {
    PollKeepsBytes(b, ready);
  }

  // ---------------------------------------------------------------------
  // The whole reader
  // ---------------------------------------------------------------------

  /** How reading a response ends: a head one of whose fields the library refuses is a panic too. */
  function Outcome(arrivals: seq<seq<byte>>, ending: Ending): HeadResult
    requires Proper(arrivals)
  {
    var r := Scan([], arrivals, ending).0;
    if r.Head? && !AllAccepted(HeadFields(r.head)) then Panic else r
  }

  /** Read the head, parse it, and hand the open stream to the body. The response of a panic or
      a refused head is none. */
  method ReadStreamingResponse(conn: Conn)
    returns (outcome: HeadResult, status: nat, fields: seq<Field>, body: ReaderBody?)
    requires conn.Valid()
    modifies conn`arrivals
    ensures outcome == Outcome(old(conn.arrivals), conn.ending)
    ensures body != null <==> outcome.Head?
    ensures body != null ==>
      && fresh(body) && body.reader == conn && body.Valid()
      && status == StatusOf(Lines(outcome.head))
      && fields == HeadFields(outcome.head)
      && body.Value() == NewBody(outcome.leading, Scan([], old(conn.arrivals), conn.ending).1, conn.ending)
  {
    outcome := ReadHead(conn);
    status, fields, body := 200, [], null;
    if outcome.Head? {
      var builder;
      status, builder := ParseHead(outcome.head);
      if builder.None? {
        outcome := Panic;
        return;
      }
      fields := builder.value;
      body := new ReaderBody(outcome.leading, conn);
    }
  }

  /** The field of a line, cut at its first colon without trimming the line first. */
  function RawField(line: seq<byte>): Option<Field> {
    match Find(line, [COLON])
    case None => None
    case Some(c) =>
      var name := Trim(line[..c]);
      if SameIgnoringCase(name, ConnectionName()) then None else Some(Field(name, Trim(line[c + 1..])))
  }

  /** A header line on which the library refuses the response: what stands before its first colon is
      no spelling of Connection, and it is empty, too long or no token, or what stands behind holds
      a byte that is not visible ASCII, space or tab. */
  predicate RefusedLine(line: seq<byte>) {
    match Find(line, [COLON])
    case None => false
    case Some(c) =>
      var (name, value) := (Trim(line[..c]), Trim(line[c + 1..]));
      && !SameIgnoringCase(name, Ascii("connection"))
      && (name == [] || |name| > 65535 ||
          (exists i :: 0 <= i < |name| && !IsTokenByte(name[i])) ||
          (exists i :: 0 <= i < |value| && !(value[i] == 9 || 32 <= value[i] <= 126)))
  }

  lemma {:induction false} FindBehindWhite(line: seq<byte>)
    requires line != [] && IsWhite(line[0])
    ensures Find(line, [COLON]) == match Find(line[1..], [COLON]) { case None => None case Some(c) => Some(c + 1) }
  {
    match Find(line[1..], [COLON])
    case None => ColonIff(line[1..]); FindAbsent(line, COLON);
    case Some(c) =>
      ColonIff(line[1..]);
      FindFirst(line, COLON, c + 1);
  }

  /** Where the first colon is. */
  lemma {:induction false} ColonIff(line: seq<byte>)
    ensures match Find(line, [COLON])
            case None => COLON !in line
            case Some(c) => c < |line| && line[c] == COLON && COLON !in line[..c]
  {
    ByteAt(line, COLON);
  }

  lemma {:induction false} RawFieldBehindWhite(line: seq<byte>)
    requires line != [] && IsWhite(line[0])
    ensures RawField(line) == RawField(line[1..])
  {
    FindBehindWhite(line);
    ColonIff(line[1..]);
    if Find(line[1..], [COLON]).Some? {
      var c := Find(line[1..], [COLON]).value;
      assert line[..c + 1][1..] == line[1..][..c];
      assert line[c + 2..] == line[1..][c + 1..];
    }
  }

  lemma {:induction false} RawFieldBeforeWhite(line: seq<byte>)
    requires line != [] && IsWhite(line[|line| - 1])
    ensures RawField(line) == RawField(DropLast(line))
  {
    var n := |line| - 1;
    FindInPrefix(line, n, [COLON]);
    ColonIff(line);
    if Find(line, [COLON]).Some? {
      var c := Find(line, [COLON]).value;
      assert line[..n][..c] == line[..c];
      assert line[c + 1..] == line[..n][c + 1..] + [line[n]];
      TrimAppendWhite(line[..n][c + 1..], line[n]);
    }
  }

  lemma {:induction false} RawFieldOfTrimStart(line: seq<byte>)
    ensures RawField(TrimStart(line)) == RawField(line)
  {
    if line != [] && IsWhite(line[0]) {
      RawFieldBehindWhite(line);
      RawFieldOfTrimStart(line[1..]);
    }
  }

  lemma {:induction false} RawFieldOfTrimEnd(line: seq<byte>)
    ensures RawField(TrimEnd(line)) == RawField(line)
  {
    if line != [] && IsWhite(line[|line| - 1]) {
      RawFieldBeforeWhite(line);
      RawFieldOfTrimEnd(DropLast(line));
    }
  }

  /** Trimming a line first makes no difference. */
  lemma {:induction false} FieldIsRaw(line: seq<byte>)
    ensures FieldOf(line) == RawField(line)
  {
    RawFieldOfTrimStart(line);
    RawFieldOfTrimEnd(TrimStart(line));
    assert FieldOf(line) == RawField(Trim(line));
  }

  /** A refused line is one that hands over a refused field. */
  lemma {:induction false} RefusedLineIff(line: seq<byte>)
    ensures RefusedLine(line) <==> FieldOf(line).Some? && !Accepted(FieldOf(line).value)
  {
    FieldIsRaw(line);
  }

  /** A line that reads as a field, whatever white space stands around its name and its value. */
  ghost predicate FieldLine(line: seq<byte>, name: seq<byte>, value: seq<byte>) {
    && Trimmed(name) && Trimmed(value) && COLON !in name
    && exists c: nat :: c < |line| && line[c] == COLON && Padded(line[..c], name) && Padded(line[c + 1..], value)
  }

  /** What every header line hands over, exactly: with a space behind the colon, with none, or more. */
  lemma {:induction false} FieldOfIff(line: seq<byte>, name: seq<byte>, value: seq<byte>)
    ensures FieldOf(line) == Some(Field(name, value)) <==>
            FieldLine(line, name, value) && !SameIgnoringCase(name, Ascii("connection"))
    ensures FieldOf(line) == None <==>
            COLON !in line || exists n: seq<byte>, v: seq<byte> :: FieldLine(line, n, v) && SameIgnoringCase(n, Ascii("connection"))
  {
    FieldIsRaw(line);
    ColonIff(line);
    if Find(line, [COLON]).Some? {
      var c := Find(line, [COLON]).value;
      var (n, v) := (Trim(line[..c]), Trim(line[c + 1..]));
      TrimIs(line[..c]);
      TrimIs(line[c + 1..]);
      NoColonInside(line[..c], n);
      assert FieldLine(line, n, v);
      forall n': seq<byte>, v': seq<byte> | FieldLine(line, n', v')
        ensures n' == n && v' == v
      {
        FieldLineIsUnique(line, c, n', v');
      }
    } else {
      forall n': seq<byte>, v': seq<byte>
        ensures !FieldLine(line, n', v')
      {
      }
    }
  }

  lemma {:induction false} NoColonInside(s: seq<byte>, core: seq<byte>)
    requires Padded(s, core)
    ensures COLON in s <==> COLON in core
  {
    var a: seq<byte>, b: seq<byte> :| AllWhite(a) && AllWhite(b) && s == a + core + b;
    assert COLON in s <==> COLON in a || COLON in core || COLON in b;
  }

  lemma {:induction false} FieldLineIsUnique(line: seq<byte>, c: nat, name: seq<byte>, value: seq<byte>)
    requires Find(line, [COLON]) == Some(c) && FieldLine(line, name, value)
    ensures c < |line| && name == Trim(line[..c]) && value == Trim(line[c + 1..])
  {
    var d: nat :| d < |line| && line[d] == COLON && Padded(line[..d], name) && Padded(line[d + 1..], value);
    NoColonInside(line[..d], name);
    forall j | 0 <= j < d
      ensures line[j] != COLON
    {
      assert line[..d][j] == line[j];
    }
    FindFirst(line, COLON, d);
    TrimIff(line[..c], name);
    TrimIff(line[c + 1..], value);
  }

  lemma {:induction false} RefusedFieldIff(ls: seq<seq<byte>>)
    ensures Built(FieldsOf(ls)).Some? <==> forall i :: 0 <= i < |ls| ==> !RefusedLine(ls[i])
  {
    if ls != [] {
      var n := |ls| - 1;
      RefusedFieldIff(ls[..n]);
      RefusedLineIff(ls[n]);
      BuiltStep(ls[..n], ls[n]);
      assert ls == ls[..n] + [ls[n]];
      LastLine(ls);
    }
  }

  lemma {:induction false} LastLine(ls: seq<seq<byte>>)
    requires ls != []
    ensures var n := |ls| - 1;
            (forall i :: 0 <= i < |ls| ==> !RefusedLine(ls[i])) <==>
            (forall i :: 0 <= i < n ==> !RefusedLine(ls[..n][i])) && !RefusedLine(ls[n])
  {
    assert forall i :: 0 <= i < |ls| - 1 ==> ls[..|ls| - 1][i] == ls[i];
  }

  /** A line behind the status line is refused. */
  ghost predicate HasRefusedLine(ls: seq<seq<byte>>) {
    exists i :: 1 <= i < |ls| && RefusedLine(ls[i])
  }

  /** Exactly when the whole reader panics, for heads in ASCII: a stream that ends cleanly, within
      the limit, with no empty line; or an accepted head with a line the library refuses. */
  lemma {:induction false} ReaderPanicsIff(arrivals: seq<seq<byte>>, ending: Ending)
    requires Proper(arrivals)
    requires var sep := Find(Flat(arrivals), CRLFCRLF);
             sep.Some? ==> forall i :: 0 <= i < sep.value ==> Flat(arrivals)[i] < 128
    ensures var s := Flat(arrivals);
            var sep := Find(s, CRLFCRLF);
            Outcome(arrivals, ending) == Panic <==>
              match sep
              case None => ending == Eof && |s| <= LIMIT
              case Some(p) =>
                && !PausesWithin(arrivals, 0, LIMIT, p + 4)
                && HasRefusedLine(Lines(s[..p]))
  {
    if Find(Flat(arrivals), CRLFCRLF).Some? {
      RefusedHeadIff(arrivals, ending);
    } else {
      NoHeadWithoutSeparator(arrivals, ending);
    }
  }

  lemma {:induction false} RefusedHeadIff(arrivals: seq<seq<byte>>, ending: Ending)
    requires Proper(arrivals) && Find(Flat(arrivals), CRLFCRLF).Some?
    ensures var p := Find(Flat(arrivals), CRLFCRLF).value;
            var ls := Lines(Flat(arrivals)[..p]);
            Outcome(arrivals, ending) == Panic <==>
              !PausesWithin(arrivals, 0, LIMIT, p + 4) && HasRefusedLine(ls)
  {
    HeadAcceptedIff(arrivals, ending);
    var r := Scan([], arrivals, ending).0;
    if r.Head? {
      BuilderFailsIff(Lines(r.head));
    }
  }

  lemma {:induction false} BuilderFailsIff(ls: seq<seq<byte>>)
    ensures !AllAccepted(FieldsOf(ls[Min(1, |ls|)..])) <==> HasRefusedLine(ls)
  {
    RefusedFieldIff(ls[Min(1, |ls|)..]);
    RefusedBehindFirst(ls);
  }

  lemma {:induction false} RefusedBehindFirst(ls: seq<seq<byte>>)
    ensures var tail := ls[Min(1, |ls|)..];
            (forall i :: 0 <= i < |tail| ==> !RefusedLine(tail[i])) <==> !HasRefusedLine(ls)
  {
    var tail := ls[Min(1, |ls|)..];
    if HasRefusedLine(ls) {
      var i :| 1 <= i < |ls| && RefusedLine(ls[i]);
      assert tail[i - 1] == ls[i];
    }
    forall i | 0 <= i < |tail| && !HasRefusedLine(ls)
      ensures !RefusedLine(tail[i])
    {
      assert tail[i] == ls[i + 1];
    }
  }

  // ---------------------------------------------------------------------
  // The whole response
  // ---------------------------------------------------------------------

  /** Head and body together: for every chunking of the upstream bytes and every poll schedule,
      a well-formed response within the limit is accepted, parsed as sent, and its payload is
      relayed byte for byte. */
  lemma {:induction false} ResponseIsRelayed(status: nat, reason: seq<byte>, fs: seq<Field>, payload: seq<byte>,
                                             arrivals: seq<seq<byte>>, ending: Ending, readies: seq<bool>)
    requires 100 <= status <= 999 && IsText(reason)
    requires forall i :: 0 <= i < |fs| ==> WellFormed(fs[i])
    requires Proper(arrivals) && Flat(arrivals) == PrintHead(status, reason, fs) + CRLFCRLF + payload
    requires |PrintHead(status, reason, fs)| + 4 <= 65537
    ensures var (r, rest) := (Outcome(arrivals, ending), Scan([], arrivals, ending).1);
            && r.Head? && Proper(rest)
            && StatusOf(Lines(r.head)) == status
            && HeadFields(r.head) == WithoutConnection(fs)
            && var (ps, b) := PollAll(NewBody(r.leading, rest, ending), readies);
               && Delivered(ps) + Rest(b) == payload
               && (forall j :: 0 <= j < |ps| && ps[j].EndOfBody? ==> Delivered(ps) == payload)
               && (r.leading != [] && readies != [] ==> ps[0] == Frame(r.leading))
  {
    HeadArrives(status, reason, fs, payload, arrivals, ending);
    var (r, rest) := Scan([], arrivals, ending);
    var b := NewBody(r.leading, rest, ending);
    BodyConservation(b, readies);
    EndMeansAll(b, readies);
    if readies != [] {
      PollAnswers(b, readies, 0);
    }
  }

  lemma {:induction false} HeadArrives(status: nat, reason: seq<byte>, fs: seq<Field>, payload: seq<byte>,
                                       arrivals: seq<seq<byte>>, ending: Ending)
    requires 100 <= status <= 999 && IsText(reason)
    requires forall i :: 0 <= i < |fs| ==> WellFormed(fs[i])
    requires Proper(arrivals) && Flat(arrivals) == PrintHead(status, reason, fs) + CRLFCRLF + payload
    requires |PrintHead(status, reason, fs)| + 4 <= 65537
    ensures var (r, rest) := Scan([], arrivals, ending);
            && r.Head? && Proper(rest) && Outcome(arrivals, ending) == r
            && StatusOf(Lines(r.head)) == status && HeadFields(r.head) == WithoutConnection(fs)
            && Rest(NewBody(r.leading, rest, ending)) == payload
  {
    var head := PrintHead(status, reason, fs);
    HeadIsClean(status, reason, fs);
    HeadEndsAtEmptyLine([StatusLine(status, reason)] + PrintFields(fs), payload);
    SmallHeadAlwaysAccepted(arrivals, ending);
    HeadAndPayload(head, payload);
    HeadRoundTrip(status, reason, fs);
  }

  lemma {:induction false} HeadAndPayload(head: seq<byte>, payload: seq<byte>)
    ensures var s := head + CRLFCRLF + payload;
            s[..|head|] == head && s[|head| + 4..] == payload
  {
  }

  lemma {:induction false} EndMeansAll(b: BodyState, readies: seq<bool>)
    requires WellFormedBody(b)
    ensures var ps := PollAll(b, readies).0;
            (exists j :: 0 <= j < |ps| && ps[j].EndOfBody?) ==> Delivered(ps) == Rest(b)
  {
    BodyConservation(b, readies);
    var (ps, b') := PollAll(b, readies);
    if j :| 0 <= j < |ps| && ps[j].EndOfBody? {
      DeliveredGrows(ps, j);
    }
  }

  lemma {:induction false} DeliveredGrows(ps: seq<Poll>, j: nat)
    requires j <= |ps|
    ensures Delivered(ps[..j]) <= Delivered(ps)
  {
    if j < |ps| {
      DeliveredGrows(ps[..|ps| - 1], j);
      assert ps[..|ps| - 1][..j] == ps[..j];
    } else {
      assert ps[..j] == ps;
    }
  }
}
