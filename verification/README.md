# multi-proxy: a verified model

multi-proxy accepts HTTP requests and sends each one to its origin through one of several
upstream channels (HTTP CONNECT, SOCKS5 or SSH), trying them in a rotated order, with a direct
connection before or after them. This project models that behaviour in Dafny and proves what it
guarantees.

## What is modelled

* **Circuit breaker, routing and health checking** — `Upstream.dfy` has the channel record, the
  locked vector (`LiveChannel`, `ChannelManager`) and the log of all marks made on it.
  `ProxySystem.dfy` is the interleaved system: any number of requests, health passes and the
  clock, one step per lock acquisition. `Breaker.dfy` proves what the breaker guarantees over whole
  runs, `Routing.dfy` has the two request paths as methods and the one specification they share,
  `RequestRuns.dfy` proves that every request of every run decides and marks as that specification
  says (and, while other tasks are idle, that every decision is a run), `HealthCheck.dfy` has a
  health pass, its confluence, and what a pass does within a run, `Strategy.dfy` the start index.
* **Streaming response reader** — `Streams.dfy` is a connection whose reads deliver chunks of the
  environment's choosing; `ResponseHead.dfy` scans for the end of the head, `Response.dfy` parses
  it and streams the body.
* **Wire formats** — `Socks5.dfy`, `HttpConnect.dfy`, `RequestHead.dfy` and `Authority.dfy`, each
  against an independent parser for the receiving side; `Bytes.dfy`, `Text.dfy`, `WordPositions.dfy`
  and `Headers.dfy` hold the byte and text operations they use.
* **SSH session pool** — `SshPool.dfy` is the slot with its critical sections, `SshPoolRuns.dfy`
  the interleavings of connecting tasks and the reaper.

Conventions. Instants are nanoseconds. What the code cannot determine is an input: whether an
attempt succeeds, when a step happens, which marks other tasks make while a task is suspended, how
the bytes of a stream are cut into reads, the SHA-256 digest of a target, the Base64 text of
credentials. Text is its bytes, taken as ASCII: where the code decodes heads lossily and trims by
Unicode rules, the model speaks of heads in ASCII. A failed read and an expired deadline are one
ending, `Broken`. Imperative code is a class or a method proved equal to a
specification function; the properties are lemmas about that function or about runs. Automatic
induction is switched off in every lemma, so each inductive proof is written out.

## Where the code meets its promises only under a condition

* The breaker acts on a request's snapshot. An attempt can fall inside the live backoff window
  (`StaleSnapshotCanViolateBreaker`); `AttemptViolatesBreakerIff` says exactly when.
* A stream that ends cleanly within 65536 bytes and without an empty line makes the reader slice out
  of range (`PanicsIff`), and a head with a name or a value that the http library refuses makes it
  unwrap an error: `ReaderPanicsIff` has both.
* A response head of 65538 to 69632 bytes is accepted or refused depending on how reads fall:
  `HeadAcceptedIff`, `MiddleHeadDependsOnChunking`.
* The verdict on a CONNECT reply with no line end in its first 1025 bytes depends on the reads exactly
  when a "200" in second place straddles byte 1025: `LongLineIndependentIff`, `VerdictDependsOnChunking`.
* The CONNECT target of an IPv6 host is written without its brackets, which is not the authority-form
  of section 3.2.3 of RFC 9112: `TargetReadsBackIff`, `BracketsAreLost`.
* The SOCKS5 client reads its last reply as ten bytes: `TunnelStartsRightIff`. It does not look at
  the version bytes of the authentication reply and of the last reply (`ConnectedIff`). Lengths are
  cut to one byte: `ScriptRoundTripIff`. It unwraps missing credentials when a server picks a method
  it was not offered: `PanicIff`.
* `parse_authority` accepts `[h]80` and `[h]::80`, and a plus sign before the port: `AcceptedIff`.
* The comment at src/upstream/ssh.rs:76 promises one pool entry per DSN; the code has one slot for
  all: `ReuseMatchesIff`, `TwoDsnsCanMix`.
* The repository's README gives the SSH key priority over the password; src/upstream/ssh.rs:126-139
  tries the password first. Authentication is an oracle here, so the model takes no side.
* src/proxy.rs:7 says nothing is buffered whole; the request body is, at src/proxy.rs:489-497, and
  the model follows the code.

## Model

| member | source | states |
|---|---|---|
| Upstream.BackoffIsCappedPower | src/upstream/mod.rs:96-100 | the backoff is min(300, 3^n) seconds for every failure count n, so it never shrinks as failures accumulate |
| Upstream.EligibleIff | src/upstream/mod.rs:90-105 | a channel is eligible exactly unless its last mark is a failure less than min(300, 3^n) seconds old, at nanosecond grain |
| Upstream.RestedChannelIsEligible | src/upstream/mod.rs:94-104 | a channel without a failure in the last 300 seconds is always eligible |
| Upstream.LiveChannel.constructor | src/upstream/mod.rs:63-72 | a new channel is Unknown with no failures and no time stamps |
| Upstream.LiveChannel.MarkHealthy | src/upstream/mod.rs:75-79 | the whole record after a healthy mark, id, DSN and last failure untouched |
| Upstream.LiveChannel.MarkUnhealthy | src/upstream/mod.rs:82-86 | the whole record after an unhealthy mark, the u32 count saturating |
| Upstream.Replay | src/main.rs:49-53 | after any log of marks channel i still has id i and its own DSN |
| Upstream.LedgerDeterminesChannel | src/upstream/mod.rs:75-86 | health, failure count (saturated, since the last success) and both time stamps are exactly what the log of marks says |
| Upstream.UsableIffLastMarkSucceeded | src/upstream/mod.rs:133-140 | a channel counts as healthy exactly when its last mark is a success |
| Upstream.UsableParts | src/upstream/mod.rs:133-140 | each healthy channel is listed once, in order, and no other |
| Upstream.ReplayIsPerChannel | src/upstream/mod.rs:143-154 | a live channel depends on its own marks only, whatever is interleaved with them |
| Upstream.InterleavingsAgree | src/upstream/mod.rs:143-154 | interleavings that keep each channel's own order leave the same vector: marks on different channels commute |
| Upstream.ChannelManager.constructor | src/upstream/mod.rs:120-125 | a fresh manager is the initial vector with an empty log |
| Upstream.ChannelManager.Channels | src/upstream/mod.rs:128-130 | a snapshot is the value of all live channels at one moment |
| Upstream.ChannelManager.HealthyChannels | src/upstream/mod.rs:133-140 | the channels last marked healthy, in order (a healthy channel is never in backoff) |
| Upstream.ChannelManager.MarkHealthy | src/upstream/mod.rs:143-147 | one healthy mark is logged and the vector stays the replay of the log; an id out of range changes nothing |
| Upstream.ChannelManager.MarkUnhealthy | src/upstream/mod.rs:150-154 | one unhealthy mark is logged and the vector stays the replay of the log |
| Strategies.StartIndexIff | src/strategy.rs:21-40 | the start is channel 0 in order; by hash it is exactly the channel left when whole rounds of all channels are taken off the little-endian number of the first eight digest bytes |
| Strategies.LittleEndianRoundTrip | src/strategy.rs:37 | the little-endian reading of a number's little-endian bytes is the number |
| Strategies.EveryChannelIsSomeStart | src/strategy.rs:29-39 | every channel is the start for some digest |
| ProxySystem.Reachable | src/proxy.rs:329-373 | every state of every interleaving keeps the ledger, each request's trail, each pass's account, and one owner per mark |
| Breaker.LiveChannelsMatchLedger | src/upstream/mod.rs:75-86 | in every reachable state each live channel is what its marks say and marks are in time order |
| Breaker.SetAsideIff | src/upstream/mod.rs:88-105 | in every reachable state a channel is set aside exactly while its last mark is the k-th failure in a row and less than min(300, 3^k) seconds old |
| Breaker.AttemptViolatesBreakerIff | src/proxy.rs:345-348 | an attempt breaks the live breaker exactly when the channel's last mark is a failure made after the request's snapshot whose backoff has not run out |
| Breaker.FreshSnapshotRespectsBreaker | src/proxy.rs:316-348 | a request whose snapshot holds the channel's latest failure never breaks the breaker |
| Breaker.StaleSnapshotCanViolateBreaker | src/proxy.rs:345-348 | a run in which an overlapping request attempts a channel inside its live backoff window |
| Breaker.RestSumClosedForm | src/upstream/mod.rs:94-100 | five or more backoffs sum to 363 + 300 (m - 5) seconds |
| Breaker.SnapshotRests | src/upstream/mod.rs:90-105 | a snapshot holding j failures since the last success is not eligible until Backoff(j) after the last of them |
| Breaker.ThrottlingBound | src/proxy.rs:345-359 | m failed attempts on a channel, each by a request that had seen the one before, with no success between, span at least the sum of the first m-1 backoffs, whatever health passes add |
| Breaker.SequentialRequestsAreThrottled | src/proxy.rs:345-359 | the same bound, and 363 + 300 (m - 6) seconds for m >= 6, for requests that do not overlap |
| Breaker.OneMarkPerChannel | src/proxy.rs:345-359 | a request marks each channel at most once |
| Routing.OrderIsCyclic | src/proxy.rs:311-323 | the order is the cyclic order from the start index, entry k being channel (start + k) mod n, and a permutation |
| Routing.OrderedChannels | src/proxy.rs:311-323 | the rotated snapshot, nothing for no channels |
| Routing.FirstPick | src/proxy.rs:345-360 | the first turn whose entry is eligible and whose attempt succeeds, or the number of channels |
| Routing.ConnectInOrder | src/proxy.rs:345-360 | the loop settles on the first eligible success and logs exactly one mark per eligible turn up to it, around the marks of other tasks |
| Routing.AcquireTunnel | src/proxy.rs:329-373 | winner and log are those of the routing specification, for every environment |
| Routing.ForwardInOrder | src/proxy.rs:512-534 | the path-style loop settles on the first eligible turn that both connects and forwards, and marks each turn by whether it did both |
| Routing.ForwardRequest | src/proxy.rs:499-551 | a channel wins exactly when it is the first eligible one that is established and forwards, and direct did not win before it; direct wins only by connecting and forwarding; no upstream exactly when nothing delivers; every earlier eligible turn left one failure mark, whether connecting or forwarding failed |
| Routing.ForwardInTurn | src/proxy.rs:499-551 | path-style forwarding has the winner and the log of the tunnel path's specification, with "establish and then forward" as the attempt |
| RequestRuns.MarksOfDecision | src/proxy.rs:349-359 | a request's own marks are one failure per earlier eligible channel, in order, then one success for the winner if there is one |
| RequestRuns.DecisionIff | src/proxy.rs:338-372 | no upstream exactly when direct and every eligible channel fail; a channel wins exactly when it is the first eligible success and direct did not win before it |
| RequestRuns.SystemRequestsFollowRoute | src/proxy.rs:329-373 | under every interleaving a finished request has won as the specification does on its own snapshot and outcomes, with direct tried last only after every channel |
| RequestRuns.RunsLogOwnMarks | src/proxy.rs:345-359 | in every reachable state the log is what the snapshot saw, then the journal of the request's turns as the specification defines it (other tasks' marks in between), then marks of other tasks; its own marks are exactly the specification's |
| RequestRuns.DecisionIsRun | src/proxy.rs:329-373 | conversely every decision of the specification, other tasks being idle, is the outcome of a run of the system |
| RequestRuns.AttemptsAreBounded | src/proxy.rs:329-366 | at most one turn per channel and one direct attempt under every interleaving |
| RequestRuns.RequestsTerminate | src/proxy.rs:329-373 | a request takes at most 2n + 5 steps of its own |
| RequestRuns.NoRequestIsStuck | src/proxy.rs:329-373 | an unfinished request can always take a step |
| HealthCheck.RunCheck | src/upstream/health.rs:42-69 | in whatever order tasks are joined, a pass logs exactly one mark per answered probe, stamped with the time it is made, and none for a panicked one, around the marks of other tasks |
| HealthCheck.ProbeDeterminesStatus | src/upstream/health.rs:54-65 | a channel touched only by its probe ends in the health and failure count its verdict gives |
| HealthCheck.PassConfluence | src/upstream/health.rs:42-65 | any two completion orders, with any marks of concurrent requests on other channels, end in the same health and failure count |
| HealthCheck.ProbeSetsRecord | src/upstream/health.rs:56-61 | on the log of a pass a probe that fails at time t sets lastFailure to t and the channel aside until exactly min(300, 3^k) seconds after t; one that succeeds sets lastSuccess and makes it eligible |
| HealthCheck.PassesMarkOnce | src/upstream/health.rs:46-65 | in every reachable state a pass has marked each answered id exactly once and nothing else, and accounts for every channel before the next pass |
| HealthCheck.ProbesAreAccountedFor | src/upstream/health.rs:42-65 | in any run a probe of the pass that goes on has answered, is lost or is still out exactly as the run's steps since its start say, and the next pass starts only when none is out |
| HealthCheck.PassDeterminesChannel | src/upstream/health.rs:42-65 | in any run a channel that no request marks while a pass goes on is exactly what its probe's answer makes of it, at the time of that answer, and unchanged until there is one |
| Streams.Conn.ReadExact | src/proxy.rs:220 | read_exact under any chunking: the next n bytes, or an error exactly when fewer remain |
| ResponseHead.ReadHead | src/proxy.rs:600-626 | the reading loop equals the scan specification, and its buffer never exceeds the limit before a read |
| ResponseHead.HeadAcceptedIff | src/proxy.rs:601-626 | the head is accepted exactly when no read ends beyond 65536 bytes and before the end of the first empty line; then head and body start are those of the whole stream |
| ResponseHead.SmallHeadAlwaysAccepted | src/proxy.rs:601-626 | up to 65537 bytes every chunking gives the split of the whole stream |
| ResponseHead.LargeHeadAlwaysRejected | src/proxy.rs:612-614 | beyond 69632 bytes every chunking is rejected |
| ResponseHead.MiddleHeadDependsOnChunking | src/proxy.rs:607-614 | between the two, every stream has a chunking that is accepted and one that is rejected |
| ResponseHead.PanicsIff | src/proxy.rs:621-626 | the slice is out of range exactly when the stream ends cleanly, within the limit, without an empty line |
| Response.StatusIff | src/proxy.rs:631-636 | a status other than 200 is chosen exactly when the second word of the first line, found byte by byte, is its numeral in 100..=999 |
| Response.FieldOfIff | src/proxy.rs:639-651 | what every header line hands over: name and value around the first colon, without the white space around them, whatever it is; nothing for Connection in any case or without a colon |
| Response.ParseHead | src/proxy.rs:629-654 | the line loop computes the status and the builder of the line-by-line specification; one field the http library refuses spoils the builder for good |
| Response.HeadRoundTrip | src/proxy.rs:629-654 | a printed head parses back to its status and its fields in order, without any spelling of Connection, and the library refuses none of them |
| Response.ReaderBody.constructor | src/proxy.rs:59-65 | empty leading bytes become none |
| Response.ReaderBody.PollFrame | src/proxy.rs:72-92 | one poll is one step of the body specification |
| Response.PollAnswers | src/proxy.rs:72-92 | leading bytes are the answer of the first poll, ready or not; after that a poll is pending exactly when the reader is not ready, else a frame of at most 16384 bytes, or the end or an error once nothing is left |
| Response.BodyConservation | src/proxy.rs:58-93 | under any sequence of polls no byte is lost, repeated or reordered, no frame is empty, and end or error comes only after every byte |
| Response.BodyCompletes | src/proxy.rs:72-92 | once the reader has been ready as often as there are bytes, with any number of pending polls in between, the body has delivered all of them and reports its end |
| Response.ReadStreamingResponse | src/proxy.rs:594-658 | head, parsed fields and a body that starts exactly after the head, or the panic of a response that cannot be built |
| Response.ReaderPanicsIff | src/proxy.rs:621-657 | the whole reader panics exactly on a clean, short stream without an empty line and on an accepted head with a line whose name is no token or whose value is no visible text |
| Response.ResponseIsRelayed | src/proxy.rs:594-658 | for every chunking and poll schedule a well-formed response is accepted, parsed as sent, and its payload relayed byte for byte, what came with the head at the first poll |
| Socks5.EstablishSocks5 | src/proxy.rs:207-274 | outcome, bytes written and bytes left are those of the conversation specification, under any chunking |
| Socks5.PanicIff | src/proxy.rs:226-230 | the unwrap of missing credentials is reached exactly when the server picks an unoffered password method |
| Socks5.HonestServerNeverPanics | src/proxy.rs:225-245 | a server that picks an offered method or 0xFF never makes the client panic |
| Socks5.ConnectedIff | src/proxy.rs:219-268 | the client is connected exactly when version, method, authentication status and reply status allow it, having consumed 12 or 14 bytes |
| Socks5.ConversationIff | src/proxy.rs:213-268 | for every server the bytes written and the outcome: credentials only to a server that picks password authentication, the command only once authentication is settled |
| Socks5.TunnelStartsRightIff | src/proxy.rs:254-255 | the tunnel starts at the first tunnelled byte exactly for ten-byte replies: IPv4, or a domain of three bytes |
| Socks5.RefusalIsReported | src/proxy.rs:256-268 | a well-formed IPv4 refusal is reported as one |
| Socks5.ScriptRoundTripIff | src/proxy.rs:208-252 | a server parser of RFC 1928 and RFC 1929 recovers methods, credentials, host and port with no bytes left exactly when every counted string has 1 to 255 bytes |
| Socks5.ConnectedWroteScript | src/proxy.rs:213-252 | a connected client has written exactly that script |
| HttpConnect.EstablishHttp | src/proxy.rs:154-192 | the bytes written are the CONNECT request, with a token exactly if user and password are configured, and the answer is the verdict specification |
| HttpConnect.ConnectTargetRoundTrip | src/proxy.rs:154-162 | a parser of RFC 9112 finds CONNECT, "host:port", HTTP/1.1, one Host field, one Proxy-Authorization field exactly if there is a token, no other field and no body; an authority-form reader finds the same host and port exactly for registered names and bracketed literals |
| HttpConnect.VerdictIsFirstLine | src/proxy.rs:170-188 | with a line end in the first 1025 bytes, or at most 1025 bytes, every chunking gives the verdict of the whole stream's first line, but a stream that fails too early is refused |
| HttpConnect.LongLineIndependentIff | src/proxy.rs:170-188 | otherwise the verdict is independent of chunking exactly when no "200" begins the second word of the first line so that it is complete only behind byte 1025, or ends there while its word goes on |
| HttpConnect.VerdictDependsOnChunking | src/proxy.rs:170-188 | every such stream has a chunking that is accepted and one that is rejected |
| HttpConnect.LongLineStraddles | src/proxy.rs:178-185 | there is such a stream |
| HttpConnect.AcceptsIff | src/proxy.rs:183-185 | a buffer is accepted exactly when the bytes "200" stand as second word of its first line |
| HttpConnect.AcceptedIffStatus200 | src/proxy.rs:183-188 | under every chunking a reply with a status line of up to 1023 bytes is accepted exactly for status 200 |
| RequestHead.BuildRequest | src/proxy.rs:463-497 | the bytes built are the request line, the rewritten fields, one Connection: close, an empty line and the body |
| RequestHead.RequestRoundTrip | src/proxy.rs:463-497 | a parser of RFC 9112 recovers method, path, rewritten fields in order and body, and the first empty line ends where the body begins |
| RequestHead.RewritingMeans | src/proxy.rs:465-486 | Connection, Keep-Alive and Proxy-Connection in any case are dropped; every other field is forwarded in order and unchanged, but every Host field carries the origin, without the port exactly for 443 |
| RequestHead.OneConnectionField | src/proxy.rs:475-487 | exactly one Connection field is sent, the last |
| Authority.AcceptedIff | src/proxy.rs:100-124 | the accepted texts and their results, exactly, with ports up to 65535 |
| Authority.PrintParseInverse | src/proxy.rs:100-124 | both printed forms parse back for every u16 port; the plain form exactly when the host is not empty and does not open a bracket |
| Authority.TargetReadsBackIff | src/proxy.rs:154-155 | a reader of section 3.2.3 of RFC 9112 finds the host and port of "host:port" exactly when the host is a registered name or a bracketed literal |
| Authority.BracketsAreLost | src/proxy.rs:100-155 | an IPv6 host given in brackets is written without them, and then not read back at all |
| Text.NumeralIff | src/proxy.rs:109-119 | what `parse::<u16>` accepts: an optional plus sign, zeros, and the printed number up to 65535 |
| Text.LinesAre | src/proxy.rs:630 | the lines of a text are what its line feeds separate, without one carriage return before each |
| Text.SameIgnoringCaseIff | src/proxy.rs:648 | `eq_ignore_ascii_case`: the same letters in either case |
| Text.WhiteIff | src/proxy.rs:640 | the ASCII white space that is trimmed |
| Headers.TokenByteIff | src/proxy.rs:651-657 | the bytes of a field name that the http library takes |
| SshPool.SharedPool.LookUp | src/upstream/ssh.rs:89-108 | the first critical section: reuse and touch, or drop a closed entry |
| SshPool.SharedPool.Put | src/upstream/ssh.rs:162-167 | the second critical section: replace whatever is in the slot |
| SshPool.SharedPool.CheckIdle | src/upstream/ssh.rs:173-186 | the reaper's critical section |
| SshPool.SharedPool.GetOrConnect | src/upstream/ssh.rs:84-170 | both critical sections with any operations of other tasks between them; with the slot empty or closed any handle is the dialled session; nothing is stored without authentication |
| SshPoolRuns.ReachableInv | src/upstream/ssh.rs:84-186 | every interleaving of connects and reaper ticks keeps the ledger, the task and the time invariants |
| SshPoolRuns.SessionLedger | src/upstream/ssh.rs:89-186 | sessions inserted = in the slot + overwritten + dropped as closed + reaped, disjointly, and all were authenticated |
| SshPoolRuns.OnlyAuthenticatedEnter | src/upstream/ssh.rs:126-167 | every session that ever entered the slot had its credentials accepted by a step of the run |
| SshPoolRuns.OverwriterLookedBeforeInsertion | src/upstream/ssh.rs:162-167 | an entry is overwritten only by a task whose own lookup, a step of the run, found nothing and came before that entry was inserted |
| SshPoolRuns.IdleBound | src/upstream/ssh.rs:173-195 | with ticks at most 30 seconds apart the entry is never idle for more than 90 seconds |
| SshPoolRuns.IdleBoundIsTight | src/upstream/ssh.rs:252-259 | the 90 seconds are reached |
| SshPoolRuns.FateIff | src/upstream/ssh.rs:89-186 | over whole runs: a session was reaped exactly if some tick found it in the slot closed or not handed out for more than 60 seconds, dropped exactly if some lookup found it there closed, overwritten exactly if some insertion found it there |
| SshPoolRuns.LookIff | src/upstream/ssh.rs:89-108 | at any step of any run a lookup hands out the pooled session exactly if there is one and it is not closed; otherwise the slot is empty and the task dials |
| SshPoolRuns.GoneForGood | src/upstream/ssh.rs:89-186 | a session that has left the slot keeps its fate and is never handed out again |
| SshPoolRuns.RecentlyHandedOutSurvives | src/upstream/ssh.rs:100-103 | a session handed out within 60 seconds survives a tick that does not see it closed |
| SshPoolRuns.OneDsnNeverMixes | src/upstream/ssh.rs:84-170 | in a run that uses one DSN every task holds a session opened for its DSN |
| SshPoolRuns.ReuseMatchesIff | src/upstream/ssh.rs:89-104 | a reuse hands out a session of the task's own DSN exactly when the entry was stored for it |
| SshPoolRuns.TwoDsnsCanMix | src/upstream/ssh.rs:76-80 | with two DSNs a task can be handed a session to the other server |

## Left out

- Sockets, TLS, SSH and signals (`TcpStream`, `make_tls`, russh, `serve`, `copy_bidirectional`, the hyper upgrade): foreign calls, here oracles or byte streams.
- hyper's framing of outgoing bodies: claims stop at the frames of `ReaderBody`.
- The http crate beyond its tests of one name and one value: the size limit of its header map and the lower case it gives to names.
- src/dsn.rs, src/config.rs and URL parsing in `handle_path_forward`: almost all of it is the url, clap and serde crates; `parse_path_target` is a prefix test.
- SHA-256 and Base64: foreign.
- Response.ReaderPanicsIff: speaks of heads in ASCII; lossy UTF-8 decoding and the trimming of other Unicode white space are not modelled, here and wherever else heads are read.
- Bytes after the status line of a CONNECT reply: the client discards what it over-reads, and only the verdict is claimed.
- Chunked request bodies: the collected body is appended while Transfer-Encoding is copied; claims are about the bytes only.
- Wording of errors and logs, the text of the /health answer, time limits of single reads and of connects.
- The period of health passes and of the reaper's timer beyond what is stated: passes do not overlap, and ticks come at most 30 seconds apart.
- Aliasing of pooled SSH handles after they are handed out: a session is a number.
- RequestRuns.DecisionIsRun: other tasks are idle in the constructed run, because the marks of other tasks are free inputs of the specification while the system ties each to a request or a pass.
