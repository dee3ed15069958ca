/** The upstream channels and their circuit breaker (src/upstream/mod.rs). */
module Upstream {
  import opened Prelude

  /** Instants are counted in nanoseconds, the grain of the monotonic clock. */
  type Instant = nat

  function Seconds(n: nat): Instant {
    n * 1_000_000_000
  }

  const U32_MAX: nat := 0xFFFF_FFFF
  const U64_MAX: nat := 0xFFFF_FFFF_FFFF_FFFF

  /** Which proxy a channel leads to; the routing code never looks inside. */
  datatype Dsn = Http(address: string) | Socks5(address: string) | Ssh(address: string)

  datatype Health = Healthy | Unhealthy | Unknown

  /** The value of a channel at one moment: what cloning the vector gives. */
  datatype Channel = Channel(
    id: nat, dsn: Dsn, health: Health, failureCount: nat,
    lastSuccess: Option<Instant>, lastFailure: Option<Instant>)

  function NewChannel(id: nat, dsn: Dsn): Channel {
    Channel(id, dsn, Unknown, 0, None, None)
  }

  function Marked(c: Channel, ok: bool, now: Instant): Channel {
    if ok then
      c.(health := Healthy, failureCount := 0, lastSuccess := Some(now))
    else
      c.(health := Unhealthy, failureCount := Min(U32_MAX, c.failureCount + 1), lastFailure := Some(now))
  }

  function Pow3(n: nat): (p: nat)
    ensures p >= 1
  {
    if n == 0 then 1 else 3 * Pow3(n - 1)
  }

  /** Seconds a channel rests after its `n`-th failure in a row. */
  function Backoff(n: nat): (secs: nat)
    ensures 1 <= secs <= 300
  {
    if n > 5 then 300 else Min(Min(U64_MAX, Pow3(Min(n, 6))), 300)
  }

  /** Whole seconds since `since`; a clock that has not advanced gives zero. */
  function ElapsedSecs(since: Instant, now: Instant): nat {
    if now < since then 0 else (now - since) / 1_000_000_000
  }

  lemma {:induction false} ElapsedAtLeast(since: Instant, now: Instant, n: nat)
    requires n > 0
    ensures ElapsedSecs(since, now) >= n <==> now >= since + Seconds(n)
  {
  }

  predicate ShouldRetry(c: Channel, now: Instant) {
    || c.health != Unhealthy
    || c.lastFailure.None?
    || ElapsedSecs(c.lastFailure.value, now) >= Backoff(c.failureCount)
  }

  /** Backoff is min(300, 3^n) for every n, so it never shrinks as failures accumulate. */
  lemma {:induction false} BackoffIsCappedPower(n: nat)
    ensures Backoff(n) == Min(300, Pow3(n))
    ensures forall m: nat :: m <= n ==> Backoff(m) <= Backoff(n)
  {
    assert Pow3(0) == 1 && Pow3(1) == 3 && Pow3(2) == 9;
    assert Pow3(3) == 27 && Pow3(4) == 81 && Pow3(5) == 243;
    if n > 5 {
      Pow3Grows(n);
    }
  }

  lemma {:induction false} Pow3Grows(n: nat)
    requires n > 5
    ensures Pow3(n) >= 300
  {
    if n == 6 {
      assert Pow3(1) == 3 && Pow3(2) == 9 && Pow3(3) == 27;
      assert Pow3(4) == 81 && Pow3(5) == 243;
    } else {
      Pow3Grows(n - 1);
    }
  }

  /** When a channel is eligible, in terms of instants: unless its last mark was a failure, always;
      then from min(300, 3^n) seconds after the failure on. */
  lemma {:induction false} EligibleIff(c: Channel, now: Instant)
    ensures ShouldRetry(c, now) <==>
            (c.health == Unhealthy && c.lastFailure.Some? ==>
               now >= c.lastFailure.value + Seconds(Min(300, Pow3(c.failureCount))))
  {
    BackoffIsCappedPower(c.failureCount);
    if c.lastFailure.Some? {
      ElapsedAtLeast(c.lastFailure.value, now, Backoff(c.failureCount));
    }
  }

  /** A channel with no failure in the last 300 seconds is always eligible. */
  lemma {:induction false} RestedChannelIsEligible(c: Channel, now: Instant)
    requires c.lastFailure.Some? ==> c.lastFailure.value + Seconds(300) <= now
    ensures ShouldRetry(c, now)
  {
  }

  // ---------------------------------------------------------------------
  // The mark log: every call of mark_healthy / mark_unhealthy, in order
  // ---------------------------------------------------------------------

  /** Who made a mark: visit number `visit` of a request, or a health pass. */
  datatype Actor = ByRequest(request: nat, visit: nat) | ByPass(pass: nat)

  datatype Mark = Mark(actor: Actor, id: nat, ok: bool, at: Instant)

  function Applied(chs: seq<Channel>, m: Mark): (r: seq<Channel>)
    ensures |r| == |chs|
  {
    if m.id < |chs| then chs[m.id := Marked(chs[m.id], m.ok, m.at)] else chs
  }

  function Initial(dsns: seq<Dsn>): (r: seq<Channel>)
    ensures |r| == |dsns|
  {
    seq(|dsns|, i requires 0 <= i < |dsns| => NewChannel(i, dsns[i]))
  }

  /** The live vector after a log of marks: a left fold. */
  function Replay(dsns: seq<Dsn>, log: seq<Mark>): (r: seq<Channel>)
    ensures |r| == |dsns|
    ensures forall i :: 0 <= i < |r| ==> r[i].id == i && r[i].dsn == dsns[i]
  {
    if log == [] then Initial(dsns) else Applied(Replay(dsns, log[..|log| - 1]), log[|log| - 1])
  }

  lemma {:induction false} ReplayAppend(dsns: seq<Dsn>, log: seq<Mark>, m: Mark)
    ensures Replay(dsns, log + [m]) == Applied(Replay(dsns, log), m)
  {
  }

  /** Position of the last mark of the given kind on channel `i`, or -1. */
  function Last(log: seq<Mark>, i: nat, ok: bool): (k: int)
    ensures -1 <= k < |log|
    ensures k >= 0 ==> log[k].id == i && log[k].ok == ok
    ensures forall j :: k < j < |log| ==> !(log[j].id == i && log[j].ok == ok)
  {
    if log == [] then -1
    else
      var m := log[|log| - 1];
      if m.id == i && m.ok == ok then |log| - 1 else Last(log[..|log| - 1], i, ok)
  }

  /** Number of failures of channel `i` at positions `from` and later. */
  function Failures(log: seq<Mark>, i: nat, from: int): nat
  {
    if |log| == 0 || |log| <= from then 0
    else
      Failures(log[..|log| - 1], i, from) +
      if log[|log| - 1].id == i && !log[|log| - 1].ok then 1 else 0
  }

  /** Every field of `c` is a fact about the marks made on channel `i`. */
  ghost predicate Accounts(c: Channel, log: seq<Mark>, i: nat) {
    var f := Last(log, i, false);
    var g := Last(log, i, true);
    && (c.health == Unknown <==> f < 0 && g < 0)
    && (c.health == Unhealthy <==> f > g)
    && (c.health == Healthy <==> g > f)
    && c.failureCount == Min(4294967295, Failures(log, i, g + 1))
    && c.lastFailure == (if f < 0 then None else Some(log[f].at))
    && c.lastSuccess == (if g < 0 then None else Some(log[g].at))
  }

  /** The ledger theorem: the log determines every field of every live channel. */
  lemma {:induction false} LedgerDeterminesChannel(dsns: seq<Dsn>, log: seq<Mark>, i: nat)
    requires i < |dsns|
    ensures Accounts(Replay(dsns, log)[i], log, i)
  {
    if log == [] {
    } else {
      var n := |log| - 1;
      LedgerDeterminesChannel(dsns, log[..n], i);
      AccountsStep(Replay(dsns, log[..n])[i], log, i);
    }
  }

  lemma {:induction false} CountFits(dsns: seq<Dsn>, log: seq<Mark>, i: nat)
    requires i < |dsns|
    ensures Replay(dsns, log)[i].failureCount <= U32_MAX
  {
    LedgerDeterminesChannel(dsns, log, i);
  }

  /** The channels a status report counts as healthy. */
  function Usable(chs: seq<Channel>): seq<Channel> {
    if chs == [] then []
    else
      var c := chs[|chs| - 1];
      Usable(chs[..|chs| - 1]) + if c.health == Healthy then [c] else []
  }

  lemma {:induction false} UsableMembers(chs: seq<Channel>, c: Channel)
    ensures c in Usable(chs) <==> c in chs && c.health == Healthy
  {
    if chs != [] {
      var n := |chs| - 1;
      UsableMembers(chs[..n], c);
      assert c in chs <==> c in chs[..n] || c == chs[n];
    }
  }

  lemma {:induction false} UsableConcat(a: seq<Channel>, b: seq<Channel>)
    ensures Usable(a + b) == Usable(a) + Usable(b)
  {
    if b == [] {
      assert a + b == a;
    } else {
      var n := |b| - 1;
      var more := if b[n].health == Healthy then [b[n]] else [];
      UsableConcat(a, b[..n]);
      assert a + b == a + b[..n] + [b[n]] && b == b[..n] + [b[n]];
      UsableLast(a + b, a + b[..n], b[n]);
      UsableLast(b, b[..n], b[n]);
      assert Usable(a) + Usable(b[..n]) + more == Usable(a) + (Usable(b[..n]) + more);
    }
  }

  lemma {:induction false} UsableLast(all: seq<Channel>, past: seq<Channel>, c: Channel)
    requires all == past + [c]
    ensures Usable(all) == Usable(past) + if c.health == Healthy then [c] else []
  {
    assert all[..|all| - 1] == past;
  }

  /** Each healthy channel is counted once, in order, and no other. */
  lemma {:induction false} UsableParts(a: seq<Channel>, b: seq<Channel>, c: Channel)
    ensures Usable(a + b) == Usable(a) + Usable(b)
    ensures Usable([c]) == if c.health == Healthy then [c] else []
  {
    UsableConcat(a, b);
    UsableLast([c], [], c);
  }

  /** A channel counts as healthy exactly when the last mark made on it is a success. */
  lemma {:induction false} UsableIffLastMarkSucceeded(dsns: seq<Dsn>, log: seq<Mark>, i: nat)
    requires i < |dsns|
    ensures Replay(dsns, log)[i] in Usable(Replay(dsns, log)) <==> Last(log, i, true) > Last(log, i, false)
  {
    LedgerDeterminesChannel(dsns, log, i);
    UsableMembers(Replay(dsns, log), Replay(dsns, log)[i]);
  }

  lemma {:induction false} AccountsStep(c: Channel, log: seq<Mark>, i: nat)
    requires log != [] && Accounts(c, log[..|log| - 1], i)
    ensures var m := log[|log| - 1];
            Accounts(if m.id == i then Marked(c, m.ok, m.at) else c, log, i)
  {
    var m := log[|log| - 1];
    var past := log[..|log| - 1];
    assert forall k :: 0 <= k < |past| ==> past[k] == log[k];
    if m.id == i && m.ok {
      assert Last(log, i, true) == |log| - 1;
    }
  }

  // ---------------------------------------------------------------------
  // Marks on different channels commute
  // ---------------------------------------------------------------------

  /** The marks of one channel, in order. */
  function Of(log: seq<Mark>, i: nat): seq<Mark> {
    if log == [] then []
    else if log[|log| - 1].id == i then Of(log[..|log| - 1], i) + [log[|log| - 1]]
    else Of(log[..|log| - 1], i)
  }

  /** One channel's history, applied to that channel alone. */
  function Told(c: Channel, marks: seq<Mark>): Channel {
    if marks == [] then c
    else
      var m := marks[|marks| - 1];
      Marked(Told(c, marks[..|marks| - 1]), m.ok, m.at)
  }

  /** A live channel depends on its own marks only, whatever is interleaved with them. */
  lemma {:induction false} ReplayIsPerChannel(dsns: seq<Dsn>, log: seq<Mark>, i: nat)
    requires i < |dsns|
    ensures Replay(dsns, log)[i] == Told(NewChannel(i, dsns[i]), Of(log, i))
  {
    if log != [] {
      var m := log[|log| - 1];
      var past := log[..|log| - 1];
      ReplayIsPerChannel(dsns, past, i);
      if m.id == i {
        assert (Of(past, i) + [m])[..|Of(past, i)|] == Of(past, i);
      }
    }
  }

  /** Any two interleavings that keep each channel's own order leave the same vector. */
  lemma {:induction false} InterleavingsAgree(dsns: seq<Dsn>, log1: seq<Mark>, log2: seq<Mark>)
    requires forall i: nat :: i < |dsns| ==> Of(log1, i) == Of(log2, i)
    ensures Replay(dsns, log1) == Replay(dsns, log2)
  {
    forall i: nat | i < |dsns|
      ensures Replay(dsns, log1)[i] == Replay(dsns, log2)[i]
    {
      ReplayIsPerChannel(dsns, log1, i);
      ReplayIsPerChannel(dsns, log2, i);
    }
  }

  // ---------------------------------------------------------------------
  // The live objects
  // ---------------------------------------------------------------------

  /** One element of the shared vector, updated in place. */
  class LiveChannel {
    const id: nat
    const dsn: Dsn
    var health: Health
    var failureCount: nat
    var lastSuccess: Option<Instant>
    var lastFailure: Option<Instant>

    ghost function Value(): Channel reads this {
      Channel(id, dsn, health, failureCount, lastSuccess, lastFailure)
    }

    constructor (id: nat, dsn: Dsn)
      ensures Value() == NewChannel(id, dsn)
    {
      this.id := id;
      this.dsn := dsn;
      health := Unknown;
      failureCount := 0;
      lastSuccess := None;
      lastFailure := None;
    }

    method MarkHealthy(now: Instant)
      modifies this
      ensures Value() == Marked(old(Value()), true, now)
    {
      health := Healthy;
      failureCount := 0;
      lastSuccess := Some(now);
    }

    /** `saturating_add(1)` on a u32. */
    method MarkUnhealthy(now: Instant)
      requires failureCount <= U32_MAX
      modifies this
      ensures Value() == Marked(old(Value()), false, now)
    {
      health := Unhealthy;
      failureCount := if failureCount == U32_MAX then U32_MAX else failureCount + 1;
      lastFailure := Some(now);
    }

    method Clone() returns (c: Channel)
      ensures c == Value()
    {
      c := Channel(id, dsn, health, failureCount, lastSuccess, lastFailure);
    }
  }

  class ChannelManager {
    const channels: seq<LiveChannel>
    const directFirst: bool
    ghost const dsns: seq<Dsn>
    /** Every mark made through this manager, oldest first. */
    ghost var log: seq<Mark>

    /** The live vector is the replay of the log: the ledger kept by every method. */
    ghost predicate Valid()
      reads this, channels
    {
      && |channels| == |dsns|
      && (forall i, j :: 0 <= i < j < |channels| ==> channels[i] != channels[j])
      && (forall i :: 0 <= i < |channels| ==> channels[i].Value() == Replay(dsns, log)[i])
    }

    /** Ids are assigned by enumeration (src/main.rs). */
    constructor (dsns: seq<Dsn>, directFirst: bool)
      ensures Valid() && fresh(channels)
      ensures this.dsns == dsns && this.directFirst == directFirst && log == []
    {
      var chs: seq<LiveChannel> := [];
      for i := 0 to |dsns|
        invariant |chs| == i
        invariant fresh(chs)
        invariant forall j, k :: 0 <= j < k < i ==> chs[j] != chs[k]
        invariant forall j :: 0 <= j < i ==> chs[j].Value() == NewChannel(j, dsns[j])
      {
        var c := new LiveChannel(i, dsns[i]);
        chs := chs + [c];
      }
      this.channels := chs;
      this.dsns := dsns;
      this.directFirst := directFirst;
      this.log := [];
    }

    /** A snapshot: clones of all channels, taken under one read lock. */
    method Channels() returns (snapshot: seq<Channel>)
      requires Valid()
      ensures snapshot == Replay(dsns, log)
    {
      snapshot := [];
      for i := 0 to |channels|
        invariant |snapshot| == i
        invariant snapshot == Replay(dsns, log)[..i]
      {
        var c := channels[i].Clone();
        snapshot := snapshot + [c];
      }
    }

    method HealthyChannels(now: Instant) returns (usable: seq<Channel>)
      requires Valid()
      ensures usable == Usable(Replay(dsns, log))
    {
      var all := Channels();
      usable := [];
      for i := 0 to |all|
        invariant usable == Usable(all[..i])
      {
        assert all[..i + 1][..i] == all[..i];
        if all[i].health == Healthy && ShouldRetry(all[i], now) {
          usable := usable + [all[i]];
        }
      }
      assert all[..|all|] == all;
    }

    method MarkHealthy(id: nat, now: Instant, ghost actor: Actor)
      requires Valid()
      modifies this`log, channels
      ensures Valid() && log == old(log) + [Mark(actor, id, true, now)]
    {
      ghost var m, before := Mark(actor, id, true, now), Replay(dsns, log);
      if id < |channels| {
        channels[id].MarkHealthy(now);
      }
      assert forall i :: 0 <= i < |channels| ==> channels[i].Value() == Applied(before, m)[i];
      ReplayAppend(dsns, log, m);
      log := log + [m];
    }

    method MarkUnhealthy(id: nat, now: Instant, ghost actor: Actor)
      requires Valid()
      modifies this`log, channels
      ensures Valid() && log == old(log) + [Mark(actor, id, false, now)]
    {
      ghost var m, before := Mark(actor, id, false, now), Replay(dsns, log);
      if id < |channels| {
        CountFits(dsns, log, id);
        assert channels[id].failureCount == before[id].failureCount;
        channels[id].MarkUnhealthy(now);
      }
      assert forall i :: 0 <= i < |channels| ==> channels[i].Value() == Applied(before, m)[i];
      ReplayAppend(dsns, log, m);
      log := log + [m];
    }

    /** Marks made by other tasks while the caller is suspended at an await. */
    method Interfere(marks: seq<Mark>)
      requires Valid()
      modifies this`log, channels
      ensures Valid() && log == old(log) + marks
    {
      for i := 0 to |marks|
        invariant Valid() && log == old(log) + marks[..i]
      {
        var m := marks[i];
        if m.ok {
          MarkHealthy(m.id, m.at, m.actor);
        } else {
          MarkUnhealthy(m.id, m.at, m.actor);
        }
        assert marks[..i + 1] == marks[..i] + [m];
      }
      assert marks[..|marks|] == marks;
    }
  }
}
