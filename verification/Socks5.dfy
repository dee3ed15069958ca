/** The SOCKS5 client handshake (`establish_socks5` in src/proxy.rs), against the server's side
    of RFC 1928 sections 3, 4 and 6 and RFC 1929 section 2. */
module Socks5 {
  import opened Prelude
  import opened Bytes
  import opened Streams

  datatype Credentials = Credentials(user: Option<seq<byte>>, pass: Option<seq<byte>>) {
    predicate Complete() {
      user.Some? && pass.Some?
    }
  }

  /** `Panic` is the unwrap of missing credentials, `Lost` a stream that ends too early. */
  datatype Outcome = Connected | Refused | Lost | Panic

  // ---------------------------------------------------------------------
  // Client messages
  // ---------------------------------------------------------------------

  /** `len() as u8`. */
  function LengthByte(s: seq<byte>): byte {
    (|s| % 256) as byte
  }

  function Methods(c: Credentials): seq<byte> {
    if c.Complete() then [2, 0] else [0]
  }

  function Greeting(c: Credentials): seq<byte> {
    [5, LengthByte(Methods(c))] + Methods(c)
  }

  function AuthMessage(user: seq<byte>, pass: seq<byte>): seq<byte> {
    [1, LengthByte(user)] + user + [LengthByte(pass)] + pass
  }

  function PortBytes(port: nat): seq<byte>
    requires port <= 65535
  {
    [(port / 256) as byte, (port % 256) as byte]
  }

  function ConnectMessage(host: seq<byte>, port: nat): seq<byte>
    requires port <= 65535
  {
    [5, 1, 0, 3, LengthByte(host)] + host + PortBytes(port)
  }

  // ---------------------------------------------------------------------
  // The conversation
  // ---------------------------------------------------------------------

  /** How it ended, what the client wrote, how much of the server's bytes it consumed. */
  datatype Talk = Talk(outcome: Outcome, sent: seq<byte>, used: nat)

  function RequestPhase(host: seq<byte>, port: nat, input: seq<byte>, at: nat, sent: seq<byte>): Talk
    requires port <= 65535 && at <= |input|
  {
    var wrote := sent + ConnectMessage(host, port);
    if |input| < at + 10 then Talk(Lost, wrote, |input|)
    else Talk(if input[at + 1] == 0 then Connected else Refused, wrote, at + 10)
  }

  function Converse(c: Credentials, host: seq<byte>, port: nat, input: seq<byte>): (t: Talk)
    requires port <= 65535
    ensures t.used <= |input|
  {
    var g := Greeting(c);
    if |input| < 2 then Talk(Lost, g, |input|)
    else if input[0] != 5 then Talk(Refused, g, 2)
    else if input[1] == 0 then RequestPhase(host, port, input, 2, g)
    else if input[1] == 2 then
      if !c.Complete() then Talk(Panic, g, 2)
      else
        var wrote := g + AuthMessage(c.user.value, c.pass.value);
        if |input| < 4 then Talk(Lost, wrote, |input|)
        else if input[3] != 0 then Talk(Refused, wrote, 4)
        else RequestPhase(host, port, input, 4, wrote)
    else Talk(Refused, g, 2)
  }

  method EstablishSocks5(conn: Conn, c: Credentials, host: seq<byte>, port: nat) returns (outcome: Outcome)
    requires conn.Valid() && port <= 65535
    modifies conn`arrivals, conn`sent
    ensures conn.Valid()
    ensures var t := Converse(c, host, port, old(conn.Unread()));
            && outcome == t.outcome
            && conn.sent == old(conn.sent) + t.sent
            && (outcome == Connected ==> conn.Unread() == old(conn.Unread())[t.used..])
  {
    ghost var input, before := conn.Unread(), conn.sent;
    Greet(conn, c);
    var reply := conn.ReadExact(2);
    if reply.None? {
      return Lost;
    }
    if reply.value[0] != 5 {
      return Refused;
    }
    if reply.value[1] == 0 {
      outcome := RequestConnection(conn, host, port);
      Tail(input, 2, 10);
    } else if reply.value[1] == 2 {
      if c.user.None? || c.pass.None? {
        return Panic;
      }
      var auth := Authenticate(conn, c.user.value, c.pass.value);
      Tail(input, 2, 2);
      if auth != Connected {
        return auth;
      }
      outcome := RequestConnection(conn, host, port);
      Tail(input, 4, 10);
    } else {
      return Refused;
    }
  }

  lemma {:induction false} Tail(s: seq<byte>, at: nat, n: nat)
    requires n >= 2
    ensures at + n <= |s| ==> s[at..][n..] == s[at + n..] && s[at..][1] == s[at + 1]
  {
  }

  method Greet(conn: Conn, c: Credentials)
    modifies conn`sent
    ensures conn.sent == old(conn.sent) + Greeting(c)
  {
    var methods: seq<byte> := if c.user.Some? && c.pass.Some? then [2, 0] else [0];
    conn.WriteAll([5, LengthByte(methods)]);
    conn.WriteAll(methods);
    assert old(conn.sent) + [5, LengthByte(methods)] + methods == old(conn.sent) + Greeting(c);
  }

  /** User name and password, RFC 1929; `Connected` means accepted. */
  method Authenticate(conn: Conn, user: seq<byte>, pass: seq<byte>) returns (outcome: Outcome)
    requires conn.Valid()
    modifies conn`arrivals, conn`sent
    ensures conn.Valid()
    ensures conn.sent == old(conn.sent) + AuthMessage(user, pass)
    ensures outcome == Lost <==> |old(conn.Unread())| < 2
    ensures outcome != Lost ==>
      && outcome == (if old(conn.Unread())[1] == 0 then Connected else Refused)
      && conn.Unread() == old(conn.Unread())[2..]
  {
    var buf: seq<byte> := [1];
    buf := buf + [LengthByte(user)];
    buf := buf + user;
    buf := buf + [LengthByte(pass)];
    buf := buf + pass;
    assert buf == AuthMessage(user, pass);
    conn.WriteAll(buf);
    var reply := conn.ReadExact(2);
    if reply.None? {
      return Lost;
    }
    return if reply.value[1] == 0 then Connected else Refused;
  }

  /** The connect command and its reply, read as exactly ten bytes. */
  method RequestConnection(conn: Conn, host: seq<byte>, port: nat) returns (outcome: Outcome)
    requires conn.Valid() && port <= 65535
    modifies conn`arrivals, conn`sent
    ensures conn.Valid()
    ensures conn.sent == old(conn.sent) + ConnectMessage(host, port)
    ensures outcome == Lost <==> |old(conn.Unread())| < 10
    ensures outcome != Lost ==>
      && outcome == (if old(conn.Unread())[1] == 0 then Connected else Refused)
      && conn.Unread() == old(conn.Unread())[10..]
  {
    var request: seq<byte> := [5, 1, 0, 3];
    request := request + [LengthByte(host)];
    request := request + host;
    request := request + PortBytes(port);
    assert request == ConnectMessage(host, port);
    conn.WriteAll(request);
    var reply := conn.ReadExact(10);
    if reply.None? {
      return Lost;
    }
    return if reply.value[1] == 0 then Connected else Refused;
  }

  /** The client panics exactly when the server picks password authentication that it was not
      offered. */
  lemma {:induction false} PanicIff(c: Credentials, host: seq<byte>, port: nat, input: seq<byte>)
    requires port <= 65535
    ensures Converse(c, host, port, input).outcome == Panic <==>
            |input| >= 2 && input[0] == 5 && input[1] == 2 && input[1] !in Methods(c)
  {
  }

  /** A server that selects an offered method, or 0xFF, never makes the client panic. */
  lemma {:induction false} HonestServerNeverPanics(c: Credentials, host: seq<byte>, port: nat, input: seq<byte>)
    requires port <= 65535
    requires |input| >= 2 ==> input[1] in Methods(c) || input[1] == 255
    ensures Converse(c, host, port, input).outcome != Panic
  {
  }

  /** When the client takes itself to be connected, exactly. */
  lemma {:induction false} ConnectedIff(c: Credentials, host: seq<byte>, port: nat, input: seq<byte>)
    requires port <= 65535
    ensures var t := Converse(c, host, port, input);
            && (t.outcome == Connected <==>
                  && |input| >= 12 && input[0] == 5
                  && ((input[1] == 0 && input[3] == 0) ||
                      (input[1] == 2 && c.Complete() && |input| >= 14 && input[3] == 0 && input[5] == 0)))
            && (t.outcome == Connected ==> t.used == if input[1] == 0 then 12 else 14)
  {
  }

  /** What is written and how it ends, for every server: credentials only to a server that picks
      password authentication, the connect command only once authentication is settled. */
  lemma {:induction false} ConversationIff(c: Credentials, host: seq<byte>, port: nat, input: seq<byte>)
    requires port <= 65535
    ensures var t := Converse(c, host, port, input);
            var greeted := |input| >= 2 && input[0] == 5;
            var login := greeted && input[1] == 2 && c.user.Some? && c.pass.Some?;
            var go := greeted && (input[1] == 0 || (login && |input| >= 4 && input[3] == 0));
            && t.sent ==
               (if c.user.Some? && c.pass.Some? then [5, 2, 2, 0] else [5, 1, 0]) +
               (if login then
                  [1, (|c.user.value| % 256) as byte] + c.user.value + [(|c.pass.value| % 256) as byte] + c.pass.value
                else []) +
               (if go then
                  [5, 1, 0, 3, (|host| % 256) as byte] + host + [(port / 256) as byte, (port % 256) as byte]
                else [])
            && (t.outcome == Lost <==>
                  |input| < 2 || (login && |input| < 4) || (go && |input| < if login then 14 else 12))
            && (t.outcome == Panic <==> greeted && input[1] == 2 && !login)
            && (t.outcome == Connected <==>
                  go && |input| >= (if login then 14 else 12) && input[if login then 5 else 3] == 0)
  {
  }

  // ---------------------------------------------------------------------
  // The server's replies
  // ---------------------------------------------------------------------

  /** BND.ADDR of a reply, section 6 of RFC 1928. */
  datatype Address = V4(octets: seq<byte>) | Domain(name: seq<byte>) | V6(octets: seq<byte>)

  predicate WellFormedAddress(a: Address) {
    match a
    case V4(octets) => |octets| == 4
    case Domain(name) => 1 <= |name| <= 255
    case V6(octets) => |octets| == 16
  }

  function AddressBytes(a: Address): seq<byte>
    requires WellFormedAddress(a)
  {
    match a
    case V4(octets) => [1] + octets
    case Domain(name) => [3, |name| as byte] + name
    case V6(octets) => [4] + octets
  }

  function Reply(rep: byte, a: Address, port: nat): seq<byte>
    requires WellFormedAddress(a) && port <= 65535
  {
    [5, rep, 0] + AddressBytes(a) + PortBytes(port)
  }

  /** Everything a well-behaved server sends before the tunnelled bytes. */
  function ServerScript(usePassword: bool, rep: byte, a: Address, port: nat): seq<byte>
    requires WellFormedAddress(a) && port <= 65535
  {
    (if usePassword then [5, 2, 1, 0] else [5, 0]) + Reply(rep, a, port)
  }

  /** The tunnel starts at the first tunnelled byte exactly when the reply is ten bytes long:
      an IPv4 address, or a domain name of three bytes. */
  lemma {:induction false} TunnelStartsRightIff(c: Credentials, host: seq<byte>, port: nat, usePassword: bool,
                                                a: Address, boundPort: nat, tunnel: seq<byte>)
    requires port <= 65535 && boundPort <= 65535 && WellFormedAddress(a)
    requires usePassword ==> c.Complete()
    ensures var input := ServerScript(usePassword, 0, a, boundPort) + tunnel;
            var t := Converse(c, host, port, input);
            (t.outcome == Connected && input[t.used..] == tunnel) <==>
            (a.V4? || (a.Domain? && |a.name| == 3))
  {
  }

  /** A refusal with a well-formed IPv4 reply is reported as one. */
  lemma {:induction false} RefusalIsReported(c: Credentials, host: seq<byte>, port: nat, usePassword: bool,
                                             rep: byte, a: Address, boundPort: nat, more: seq<byte>)
    requires port <= 65535 && boundPort <= 65535 && WellFormedAddress(a) && a.V4? && rep != 0
    requires usePassword ==> c.Complete()
    ensures Converse(c, host, port, ServerScript(usePassword, rep, a, boundPort) + more).outcome == Refused
  {
  }

  // ---------------------------------------------------------------------
  // The server's reading of the client script
  // ---------------------------------------------------------------------

  /** A length byte (1..255) and that many bytes. */
  function ParseCounted(s: seq<byte>): Option<(seq<byte>, seq<byte>)> {
    if s == [] then None
    else
      var n := s[0] as int;
      if n == 0 || |s| < 1 + n then None else Some((s[1..1 + n], s[1 + n..]))
  }

  /** VER NMETHODS METHODS. */
  function ParseGreeting(s: seq<byte>): Option<(seq<byte>, seq<byte>)> {
    if s == [] || s[0] != 5 then None else ParseCounted(s[1..])
  }

  /** VER ULEN UNAME PLEN PASSWD. */
  function ParseAuth(s: seq<byte>): Option<(seq<byte>, seq<byte>, seq<byte>)> {
    if s == [] || s[0] != 1 then None
    else
      match ParseCounted(s[1..])
      case None => None
      case Some((user, rest)) =>
        match ParseCounted(rest)
        case None => None
        case Some((pass, rest2)) => Some((user, pass, rest2))
  }

  /** VER CMD RSV ATYP=domain LEN NAME PORT, and nothing after it. */
  function ParseConnect(s: seq<byte>): Option<(seq<byte>, nat)> {
    if |s| < 4 || s[..4] != [5, 1, 0, 3] then None
    else
      match ParseCounted(s[4..])
      case None => None
      case Some((host, rest)) => if |rest| != 2 then None else Some((host, 256 * (rest[0] as int) + rest[1] as int))
  }

  datatype ServerView = ServerView(
    methods: seq<byte>, login: Option<(seq<byte>, seq<byte>)>, host: seq<byte>, port: nat)

  /** What a server that chose password authentication or not makes of all the client's bytes. */
  function ServerReads(script: seq<byte>, usePassword: bool): Option<ServerView> {
    match ParseGreeting(script)
    case None => None
    case Some((methods, rest)) =>
      if usePassword then
        match ParseAuth(rest)
        case None => None
        case Some((user, pass, rest2)) =>
          (match ParseConnect(rest2)
           case None => None
           case Some((host, port)) => Some(ServerView(methods, Some((user, pass)), host, port)))
      else
        match ParseConnect(rest)
        case None => None
        case Some((host, port)) => Some(ServerView(methods, None, host, port))
  }

  predicate Countable(s: seq<byte>) {
    1 <= |s| <= 255
  }

  lemma {:induction false} CountedRoundTrip(s: seq<byte>, rest: seq<byte>)
    requires Countable(s)
    ensures ParseCounted([LengthByte(s)] + s + rest) == Some((s, rest))
  {
  }

  lemma {:induction false} GreetingRoundTrip(c: Credentials, rest: seq<byte>)
    ensures ParseGreeting(Greeting(c) + rest) == Some((Methods(c), rest))
  {
    CountedRoundTrip(Methods(c), rest);
    assert (Greeting(c) + rest)[1..] == [LengthByte(Methods(c))] + Methods(c) + rest;
  }

  lemma {:induction false} AuthRoundTrip(user: seq<byte>, pass: seq<byte>, rest: seq<byte>)
    requires Countable(user) && Countable(pass)
    ensures ParseAuth(AuthMessage(user, pass) + rest) == Some((user, pass, rest))
  {
    var tail := [LengthByte(pass)] + pass + rest;
    CountedRoundTrip(user, tail);
    CountedRoundTrip(pass, rest);
    assert (AuthMessage(user, pass) + rest)[1..] == [LengthByte(user)] + user + tail;
  }

  lemma {:induction false} ConnectRoundTrip(host: seq<byte>, port: nat)
    requires Countable(host) && port <= 65535
    ensures ParseConnect(ConnectMessage(host, port)) == Some((host, port))
  {
    var m := ConnectMessage(host, port);
    CountedRoundTrip(host, PortBytes(port));
    assert m[..4] == [5, 1, 0, 3];
    assert m[4..] == [LengthByte(host)] + host + PortBytes(port);
  }

  /** What the client writes on the way to a connection. */
  function ClientScript(c: Credentials, host: seq<byte>, port: nat, usePassword: bool): seq<byte>
    requires port <= 65535 && (usePassword ==> c.Complete())
  {
    Greeting(c) + ((if usePassword then AuthMessage(c.user.value, c.pass.value) else []) + ConnectMessage(host, port))
  }

  function View(c: Credentials, host: seq<byte>, port: nat, usePassword: bool): ServerView
    requires usePassword ==> c.Complete()
  {
    ServerView(Methods(c), if usePassword then Some((c.user.value, c.pass.value)) else None, host, port)
  }

  lemma {:induction false} ScriptIsRead(c: Credentials, host: seq<byte>, port: nat, usePassword: bool)
    requires port <= 65535 && (usePassword ==> c.Complete())
    requires Countable(host) && (usePassword ==> Countable(c.user.value) && Countable(c.pass.value))
    ensures ServerReads(ClientScript(c, host, port, usePassword), usePassword) == Some(View(c, host, port, usePassword))
  {
    var connect := ConnectMessage(host, port);
    ConnectRoundTrip(host, port);
    if usePassword {
      AuthRoundTrip(c.user.value, c.pass.value, connect);
      GreetingRoundTrip(c, AuthMessage(c.user.value, c.pass.value) + connect);
    } else {
      assert [] + connect == connect;
      GreetingRoundTrip(c, connect);
    }
  }

  lemma {:induction false} ReadsAreCountable(script: seq<byte>, usePassword: bool)
    requires ServerReads(script, usePassword).Some?
    ensures var v := ServerReads(script, usePassword).value;
            Countable(v.host) && (v.login.Some? ==> Countable(v.login.value.0) && Countable(v.login.value.1))
  {
  }

  /** The script is read back, whole, exactly when every counted string has 1 to 255 bytes:
      `len() as u8` loses longer ones. */
  lemma {:induction false} ScriptRoundTripIff(c: Credentials, host: seq<byte>, port: nat, usePassword: bool)
    requires port <= 65535 && (usePassword ==> c.Complete())
    ensures ServerReads(ClientScript(c, host, port, usePassword), usePassword) == Some(View(c, host, port, usePassword)) <==>
            Countable(host) && (usePassword ==> Countable(c.user.value) && Countable(c.pass.value))
  {
    if Countable(host) && (usePassword ==> Countable(c.user.value) && Countable(c.pass.value)) {
      ScriptIsRead(c, host, port, usePassword);
    } else if ServerReads(ClientScript(c, host, port, usePassword), usePassword).Some? {
      ReadsAreCountable(ClientScript(c, host, port, usePassword), usePassword);
    }
  }

  /** Whenever the handshake gets past its replies, the bytes written are that script. */
  lemma {:induction false} ConnectedWroteScript(c: Credentials, host: seq<byte>, port: nat, input: seq<byte>)
    requires port <= 65535 && Converse(c, host, port, input).outcome == Connected
    ensures (input[1] == 2 ==> c.Complete())
    ensures Converse(c, host, port, input).sent == ClientScript(c, host, port, input[1] == 2)
  {
  }
}
