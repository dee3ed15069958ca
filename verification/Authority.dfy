/** `parse_authority` (src/proxy.rs): "host:port" or "[v6]:port". */
module Authority {
  import opened Prelude
  import opened Bytes
  import opened Text

  const OPEN: byte := 91
  const CLOSE: byte := 93

  datatype AuthorityError = UnclosedBracket | MissingPort | InvalidPort | EmptyHost

  datatype Parsed = Ok(host: seq<byte>, port: nat) | Err(error: AuthorityError)

  /** `trim_start_matches(':')`: all leading colons go. */
  function TrimColons(s: seq<byte>): seq<byte> {
    if s != [] && s[0] == COLON then TrimColons(s[1..]) else s
  }

  /** `rfind`. */
  function FindLast(s: seq<byte>, b: byte): (r: Option<nat>)
    ensures r.Some? ==> r.value < |s| && s[r.value] == b && b !in s[r.value + 1..]
    ensures r.None? ==> b !in s
  {
    if s == [] then None
    else if s[|s| - 1] == b then Some(|s| - 1)
    else
      var r := FindLast(s[..|s| - 1], b);
      assert s == s[..|s| - 1] + [s[|s| - 1]];
      assert r.Some? ==> s[r.value + 1..] == s[..|s| - 1][r.value + 1..] + [s[|s| - 1]];
      r
  }

  function ParseAuthority(authority: seq<byte>): Parsed {
    if authority != [] && authority[0] == OPEN then
      match Find(authority, [CLOSE])
      case None => Err(UnclosedBracket)
      case Some(close) =>
        var rest := authority[close + 1..];
        if rest == [] then Err(MissingPort)
        else
          match ParseU16(TrimColons(rest))
          case None => Err(InvalidPort)
          case Some(port) => Ok(authority[1..close], port)
    else
      match FindLast(authority, COLON)
      case None => Err(MissingPort)
      case Some(colon) =>
        match ParseU16(authority[colon + 1..])
        case None => Err(InvalidPort)
        case Some(port) => if colon == 0 then Err(EmptyHost) else Ok(authority[..colon], port)
  }

  function HostPort(host: seq<byte>, port: nat): seq<byte> {
    host + [COLON] + PrintNat(port)
  }

  function Bracketed(host: seq<byte>): seq<byte> {
    [OPEN] + host + [CLOSE]
  }

  lemma {:induction false} NumeralsHaveNoColon(s: seq<byte>)
    requires ParseU16(s).Some?
    ensures s != [] && COLON !in s && OPEN !in s && TrimColons(s) == s
  {
  }

  lemma {:induction false} TrimColonsAll(colons: seq<byte>, t: seq<byte>)
    requires forall i :: 0 <= i < |colons| ==> colons[i] == COLON
    ensures TrimColons(colons + t) == TrimColons(t)
  {
    if colons == [] {
      assert colons + t == t;
    } else {
      assert (colons + t)[1..] == colons[1..] + t;
      TrimColonsAll(colons[1..], t);
    }
  }

  /** The colons that were trimmed. */
  lemma {:induction false} TrimmedColons(s: seq<byte>) returns (colons: seq<byte>)
    ensures s == colons + TrimColons(s)
    ensures forall i :: 0 <= i < |colons| ==> colons[i] == COLON
  {
    if s != [] && s[0] == COLON {
      var more := TrimmedColons(s[1..]);
      colons := [COLON] + more;
      assert s == [COLON] + s[1..];
    } else {
      colons := [];
    }
  }

  lemma {:induction false} LastIs(s: seq<byte>, b: byte, i: nat)
    requires i < |s| && s[i] == b && b !in s[i + 1..]
    ensures FindLast(s, b) == Some(i)
  {
  }

  lemma {:induction false} FindLastColon(host: seq<byte>, numeral: seq<byte>)
    requires COLON !in numeral
    ensures FindLast(host + [COLON] + numeral, COLON) == Some(|host|)
  {
    var s := host + [COLON] + numeral;
    assert s[|host| + 1..] == numeral;
    LastIs(s, COLON, |host|);
  }

  /** The plain form: a non-empty host that does not open a bracket, a colon, a u16 numeral. Bytes 58, 91 and
      93 are the colon and the brackets. */
  ghost predicate PlainForm(authority: seq<byte>, host: seq<byte>, port: nat) {
    && host != [] && host[0] != 91
    && exists numeral: seq<byte> :: Numeral(numeral, port) && authority == host + [58] + numeral
  }

  /** The bracket form: any number of colons, even none, may stand before the numeral. */
  ghost predicate BracketForm(authority: seq<byte>, host: seq<byte>, port: nat) {
    && 93 !in host
    && exists colons: seq<byte>, numeral: seq<byte> ::
         && (forall i :: 0 <= i < |colons| ==> colons[i] == 58)
         && Numeral(numeral, port)
         && authority == [91] + host + [93] + (colons + numeral)
  }

  lemma {:induction false} PlainFormParses(authority: seq<byte>, host: seq<byte>, port: nat)
    requires PlainForm(authority, host, port)
    ensures ParseAuthority(authority) == Ok(host, port)
  {
    var numeral: seq<byte> :| Numeral(numeral, port) && authority == host + [58] + numeral;
    NumeralIff(numeral, port);
    NumeralsHaveNoColon(numeral);
    FindLastColon(host, numeral);
    assert authority[0] == host[0];
    assert authority[|host| + 1..] == numeral && authority[..|host|] == host;
  }

  lemma {:induction false} BracketFormParses(authority: seq<byte>, host: seq<byte>, port: nat)
    requires BracketForm(authority, host, port)
    ensures ParseAuthority(authority) == Ok(host, port)
  {
    var colons: seq<byte>, numeral: seq<byte> :|
      && (forall i :: 0 <= i < |colons| ==> colons[i] == 58)
      && Numeral(numeral, port)
      && authority == [91] + host + [93] + (colons + numeral);
    NumeralIff(numeral, port);
    BracketPartsParse(authority, host, colons, numeral, port);
  }

  lemma {:induction false} BracketPartsParse(authority: seq<byte>, host: seq<byte>, colons: seq<byte>, numeral: seq<byte>, port: nat)
    requires CLOSE !in host && authority == Bracketed(host) + (colons + numeral)
    requires forall i :: 0 <= i < |colons| ==> colons[i] == COLON
    requires ParseU16(numeral) == Some(port)
    ensures ParseAuthority(authority) == Ok(host, port)
  {
    NumeralsHaveNoColon(numeral);
    TrimColonsAll(colons, numeral);
    BracketCut(authority, host, colons + numeral);
  }

  /** Where the bracket closes. */
  lemma {:induction false} BracketCut(authority: seq<byte>, host: seq<byte>, rest: seq<byte>)
    requires CLOSE !in host && authority == Bracketed(host) + rest
    ensures authority[0] == OPEN && Find(authority, [CLOSE]) == Some(|host| + 1)
    ensures authority[1..|host| + 1] == host && authority[|host| + 2..] == rest
  {
    forall j | 0 <= j < |host| + 1
      ensures authority[j] != CLOSE
    {
      assert j > 0 ==> authority[j] == host[j - 1];
    }
    FindFirst(authority, CLOSE, |host| + 1);
  }

  lemma {:induction false} BracketUncut(authority: seq<byte>, close: nat)
    requires authority != [] && authority[0] == OPEN && Find(authority, [CLOSE]) == Some(close)
    ensures 1 <= close < |authority| && CLOSE !in authority[1..close]
    ensures authority == Bracketed(authority[1..close]) + authority[close + 1..]
  {
    assert authority[close..close + 1] == [CLOSE];
    assert authority[close] == CLOSE;
    forall j | 1 <= j < close
      ensures authority[j] != CLOSE
    {
      assert !Occurs(authority, [CLOSE], j);
      assert authority[j..j + 1] == [authority[j]];
    }
  }

  lemma {:induction false} ParsedForm(authority: seq<byte>)
    requires ParseAuthority(authority).Ok?
    ensures var p := ParseAuthority(authority);
            PlainForm(authority, p.host, p.port) || BracketForm(authority, p.host, p.port)
  {
    var p := ParseAuthority(authority);
    if authority != [] && authority[0] == OPEN {
      var close := Find(authority, [CLOSE]).value;
      BracketUncut(authority, close);
      IsBracketForm(authority, p.host, authority[close + 1..], p.port);
    } else {
      IsPlainForm(authority, FindLast(authority, COLON).value, p.port);
    }
  }

  lemma {:induction false} IsPlainForm(authority: seq<byte>, colon: nat, port: nat)
    requires 0 < colon < |authority| && authority[0] != OPEN && authority[colon] == COLON
    requires ParseU16(authority[colon + 1..]) == Some(port)
    ensures PlainForm(authority, authority[..colon], port)
  {
    NumeralIff(authority[colon + 1..], port);
    assert authority == authority[..colon] + [58] + authority[colon + 1..];
  }

  lemma {:induction false} IsBracketForm(authority: seq<byte>, host: seq<byte>, rest: seq<byte>, port: nat)
    requires CLOSE !in host && authority == Bracketed(host) + rest && ParseU16(TrimColons(rest)) == Some(port)
    ensures BracketForm(authority, host, port)
  {
    var colons := TrimmedColons(rest);
    NumeralIff(TrimColons(rest), port);
    assert authority == [91] + host + [93] + (colons + TrimColons(rest));
  }

  /** What is accepted, exactly, and with which result. */
  lemma {:induction false} AcceptedIff(authority: seq<byte>, host: seq<byte>, port: nat)
    ensures ParseAuthority(authority) == Ok(host, port) <==>
            PlainForm(authority, host, port) || BracketForm(authority, host, port)
    ensures ParseAuthority(authority) == Ok(host, port) ==> port <= 65535
  {
    if ParseAuthority(authority) == Ok(host, port) {
      ParsedForm(authority);
    } else {
      if PlainForm(authority, host, port) {
        PlainFormParses(authority, host, port);
      }
      if BracketForm(authority, host, port) {
        BracketFormParses(authority, host, port);
      }
    }
  }

  /** Printing and parsing are inverse for every u16 port, in both forms. */
  lemma {:induction false} PrintParseInverse(host: seq<byte>, port: nat)
    requires port <= 65535
    ensures CLOSE !in host ==> ParseAuthority(HostPort(Bracketed(host), port)) == Ok(host, port)
    ensures ParseAuthority(HostPort(host, port)) == Ok(host, port) <==> host != [] && host[0] != OPEN
  {
    ParsePrinted(port);
    var numeral := PrintNat(port);
    if CLOSE !in host {
      NumeralIff(numeral, port);
      assert HostPort(Bracketed(host), port) == [91] + host + [93] + ([58] + numeral);
      assert BracketForm(HostPort(Bracketed(host), port), host, port);
      BracketFormParses(HostPort(Bracketed(host), port), host, port);
    }
    if host != [] && host[0] != OPEN {
      NumeralIff(numeral, port);
      assert HostPort(host, port) == host + [58] + numeral;
      assert PlainForm(HostPort(host, port), host, port);
      PlainFormParses(HostPort(host, port), host, port);
    } else if host != [] {
      BracketHostDiffers(host, port);
    } else {
      NumeralsHaveNoColon(numeral);
      FindLastColon(host, numeral);
      assert HostPort(host, port)[1..] == numeral;
    }
  }

  /** A host that opens a bracket never comes back: the byte where its bracket would close is
      the first digit of the port. */
  lemma {:induction false} BracketHostDiffers(host: seq<byte>, port: nat)
    requires host != [] && host[0] == OPEN
    ensures ParseAuthority(HostPort(host, port)) != Ok(host, port)
  {
    var authority := HostPort(host, port);
    assert authority[0] == OPEN;
    assert authority[|host| + 1] == PrintNat(port)[0];
    if Find(authority, [CLOSE]).Some? {
      var close := Find(authority, [CLOSE]).value;
      BracketUncut(authority, close);
      assert authority[close] == CLOSE;
      assert |authority[1..close]| == close - 1;
    }
  }

  // ---------------------------------------------------------------------
  // The authority-form of RFC 9112, read independently
  // ---------------------------------------------------------------------

  /** A byte of a registered name: section 3.2.2 of RFC 3986. */
  predicate IsNameByte(b: byte) {
    || b == 33 || b == 36 || b == 37 || 38 <= b <= 46 || 48 <= b <= 57 || b == 59 || b == 61
    || 65 <= b <= 90 || b == 95 || 97 <= b <= 122 || b == 126
  }

  /** A registered name or an IPv4 address. */
  predicate IsRegName(host: seq<byte>) {
    host != [] && forall i :: 0 <= i < |host| ==> IsNameByte(host[i])
  }

  /** An IP literal, brackets included. */
  predicate IsLiteral(host: seq<byte>) {
    && |host| >= 3 && host[0] == OPEN && host[|host| - 1] == CLOSE
    && forall i :: 1 <= i < |host| - 1 ==> IsNameByte(host[i]) || host[i] == COLON
  }

  predicate IsUriHost(host: seq<byte>) {
    IsRegName(host) || IsLiteral(host)
  }

  function ReadPort(s: seq<byte>): Option<nat> {
    if s == [] || !AllDigits(s) || DigitsValue(s) > 65535 then None else Some(DigitsValue(s))
  }

  function ReadAfter(authority: seq<byte>, colon: nat): Option<(seq<byte>, nat)>
    requires colon < |authority|
  {
    match ReadPort(authority[colon + 1..])
    case None => None
    case Some(port) => Some((authority[..colon], port))
  }

  /** uri-host ":" port, section 3.2.3 of RFC 9112, with the port that CONNECT demands. */
  function ReadAuthority(authority: seq<byte>): Option<(seq<byte>, nat)> {
    if authority != [] && authority[0] == OPEN then
      match Find(authority, [CLOSE])
      case None => None
      case Some(close) =>
        if close + 1 < |authority| && authority[close + 1] == COLON && IsLiteral(authority[..close + 1])
        then ReadAfter(authority, close + 1) else None
    else
      match Find(authority, [COLON])
      case None => None
      case Some(colon) => if colon < |authority| && IsRegName(authority[..colon]) then ReadAfter(authority, colon) else None
  }

  lemma {:induction false} PortReadsBack(host: seq<byte>, port: nat)
    requires port <= 65535
    ensures ReadAfter(HostPort(host, port), |host|) == Some((host, port))
  {
    PrintNatValue(port);
    assert HostPort(host, port)[..|host|] == host;
    assert HostPort(host, port)[|host| + 1..] == PrintNat(port);
  }

  lemma {:induction false} NameReadsBack(host: seq<byte>, port: nat)
    requires port <= 65535 && IsRegName(host)
    ensures ReadAuthority(HostPort(host, port)) == Some((host, port))
  {
    FindFirst(HostPort(host, port), COLON, |host|);
    PortReadsBack(host, port);
    assert HostPort(host, port)[0] == host[0];
    assert HostPort(host, port)[..|host|] == host;
  }

  lemma {:induction false} LiteralReadsBack(host: seq<byte>, port: nat)
    requires port <= 65535 && IsLiteral(host)
    ensures ReadAuthority(HostPort(host, port)) == Some((host, port))
  {
    FindFirst(HostPort(host, port), CLOSE, |host| - 1);
    PortReadsBack(host, port);
    assert HostPort(host, port)[0] == host[0] && HostPort(host, port)[|host|] == COLON;
    assert HostPort(host, port)[..|host|] == host;
  }

  /** What a target of the form "host:port" is read back as: the same host and port, exactly for
      registered names without a colon and for bracketed literals. */
  lemma {:induction false} TargetReadsBackIff(host: seq<byte>, port: nat)
    requires port <= 65535
    ensures ReadAuthority(HostPort(host, port)) == Some((host, port)) <==> IsUriHost(host)
  {
    if IsRegName(host) {
      NameReadsBack(host, port);
    } else if IsLiteral(host) {
      LiteralReadsBack(host, port);
    }
  }

  lemma {:induction false} ColonSplitsEarly(host: seq<byte>, port: nat)
    requires COLON in host
    ensures var colon := Find(HostPort(host, port), [COLON]);
            colon.Some? && colon.value < |host|
  {
    var i :| 0 <= i < |host| && host[i] == COLON;
    assert HostPort(host, port)[i..i + 1] == [COLON];
    assert Occurs(HostPort(host, port), [COLON], i);
  }

  /** An IPv6 host without its brackets is not read at all, and `parse_authority` strips them: the
      target written for a client's "[h]:port" is not in authority-form. */
  lemma {:induction false} BracketsAreLost(host: seq<byte>, port: nat)
    requires port <= 65535 && COLON in host && CLOSE !in host && host[0] != OPEN
    ensures ParseAuthority(HostPort(Bracketed(host), port)) == Ok(host, port)
    ensures ReadAuthority(HostPort(host, port)) == None
  {
    PrintParseInverse(host, port);
    ColonSplitsEarly(host, port);
    var colon := Find(HostPort(host, port), [COLON]).value;
    var rest := HostPort(host, port)[colon + 1..];
    assert HostPort(host, port)[0] == host[0];
    assert rest[|host| - colon - 1] == COLON;
    assert !AllDigits(rest);
  }
}
