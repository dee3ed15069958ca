/** Choosing an upstream for one request (src/proxy.rs): the tunnel path and the
    path-style path, and the one specification both meet. */
module Routing {
  import opened Prelude
  import opened Bytes
  import opened Upstream
  import opened Strategies
  import opened ProxySystem

  /** What the environment does during one channel attempt: when the turn comes, the marks
      other tasks make while the attempt is awaited, how it ends, and when it is marked. */
  datatype Attempt = Attempt(begun: Instant, during: seq<Mark>, ok: bool, ended: Instant)

  datatype DirectTry = DirectTry(during: seq<Mark>, ok: bool)

  /** Path-style attempts have two phases: establishing, then forwarding the request. */
  datatype TwoPhase = TwoPhase(
    begun: Instant, connecting: seq<Mark>, established: bool,
    forwarding: seq<Mark>, forwarded: bool, ended: Instant)

  /** The marks other tasks make while `t` is tried. */
  function Meanwhile(t: TwoPhase): seq<Mark> {
    t.connecting + if t.established then t.forwarding else []
  }

  /** The oracle "establish and then forward succeeds". */
  function Combined(t: TwoPhase): Attempt {
    Attempt(t.begun, Meanwhile(t), t.established && t.forwarded, t.ended)
  }

  function DirectOf(t: TwoPhase): DirectTry {
    DirectTry(Combined(t).during, Combined(t).ok)
  }

  function Attempts(tries: nat -> TwoPhase): nat -> Attempt {
    (k: nat) => Combined(tries(k))
  }

  predicate Eligible(order: seq<Channel>, attempts: nat -> Attempt, k: nat)
    requires k < |order|
  {
    ShouldRetry(order[k], attempts(k).begun)
  }

  /** `w` is the first turn whose entry is eligible and whose attempt succeeds, or |order|. */
  predicate Picks(order: seq<Channel>, attempts: nat -> Attempt, w: nat) {
    && w <= |order|
    && (forall k: nat :: k < w ==> !(Eligible(order, attempts, k) && attempts(k).ok))
    && (w < |order| ==> Eligible(order, attempts, w) && attempts(w).ok)
  }

  function OwnMark(r: nat, order: seq<Channel>, attempts: nat -> Attempt, k: nat): Mark
    requires k < |order|
  {
    Mark(ByRequest(r, k), order[k].id, attempts(k).ok, attempts(k).ended)
  }

  /** The request's own marks in its first `n` turns. */
  function OwnMarks(r: nat, order: seq<Channel>, attempts: nat -> Attempt, n: nat): seq<Mark>
    requires n <= |order|
  {
    if n == 0 then []
    else if Eligible(order, attempts, n - 1) then
      OwnMarks(r, order, attempts, n - 1) + [OwnMark(r, order, attempts, n - 1)]
    else OwnMarks(r, order, attempts, n - 1)
  }

  /** Everything logged during the first `n` turns, other tasks' marks included. */
  function Journal(r: nat, order: seq<Channel>, attempts: nat -> Attempt, n: nat): seq<Mark>
    requires n <= |order|
  {
    if n == 0 then []
    else if Eligible(order, attempts, n - 1) then
      Journal(r, order, attempts, n - 1) + attempts(n - 1).during + [OwnMark(r, order, attempts, n - 1)]
    else Journal(r, order, attempts, n - 1)
  }

  function FirstPick(order: seq<Channel>, attempts: nat -> Attempt, k: nat): (w: nat)
    requires k <= |order|
    requires forall j: nat :: j < k ==> !(Eligible(order, attempts, j) && attempts(j).ok)
    ensures Picks(order, attempts, w)
    decreases |order| - k
  {
    if k == |order| || (Eligible(order, attempts, k) && attempts(k).ok) then k
    else FirstPick(order, attempts, k + 1)
  }

  function OrderOf(chs: seq<Channel>, strategy: Strategy, digest: seq<byte>): (order: seq<Channel>)
    requires |digest| >= 8
    ensures |order| == |chs|
  {
    if chs == [] then [] else Rotated(chs, StartIndex(strategy, |chs|, digest))
  }

  /** The order is the cyclic order from the strategy's start, each channel exactly once. */
  lemma {:induction false} OrderIsCyclic(chs: seq<Channel>, strategy: Strategy, digest: seq<byte>)
    requires |digest| >= 8
    ensures var order := OrderOf(chs, strategy, digest);
            && multiset(order) == multiset(chs)
            && (forall k: nat :: k < |chs| ==> order[k] == chs[(StartIndex(strategy, |chs|, digest) + k) % |chs|])
  {
    if chs != [] {
      RotatedEntries(chs, StartIndex(strategy, |chs|, digest));
    }
  }

  lemma {:induction false} RotatedEntries<T>(s: seq<T>, start: nat)
    requires start < |s|
    ensures forall k: nat :: k < |s| ==> Rotated(s, start)[k] == s[(start + k) % |s|]
    ensures multiset(Rotated(s, start)) == multiset(s)
  {
    forall k: nat | k < |s|
      ensures Rotated(s, start)[k] == s[(start + k) % |s|]
    {
      RotatedAt(s, start, k);
    }
    assert s == s[..start] + s[start..];
  }

  /** Log when the fallback loop starts. */
  function Before(cfg: Config, direct: DirectTry, log: seq<Mark>): seq<Mark> {
    if cfg.directFirst then log + direct.during else log
  }

  /** The decision once the loop has settled on turn `w`. */
  function Settled(r: nat, cfg: Config, direct: DirectTry, order: seq<Channel>, attempts: nat -> Attempt,
                   w: nat, log1: seq<Mark>): (Winner, seq<Mark>)
    requires w <= |order|
  {
    var log2 := log1 + Journal(r, order, attempts, Min(w + 1, |order|));
    if w < |order| then (Via(order[w].id), log2)
    else if cfg.directFirst then (NoUpstream, log2)
    else (if direct.ok then Direct else NoUpstream, log2 + direct.during)
  }

  /** The whole routing decision: who wins, and the log when the decision falls. */
  function Route(r: nat, cfg: Config, strategy: Strategy, digest: seq<byte>,
                 direct: DirectTry, attempts: nat -> Attempt, log: seq<Mark>): (Winner, seq<Mark>)
    requires |digest| >= 8
  {
    var log1 := Before(cfg, direct, log);
    if cfg.directFirst && direct.ok then (Direct, log1)
    else
      var order := OrderOf(Replay(cfg.dsns, log1), strategy, digest);
      Settled(r, cfg, direct, order, attempts, FirstPick(order, attempts, 0), log1)
  }

  lemma {:induction false} RouteSettles(r: nat, cfg: Config, strategy: Strategy, digest: seq<byte>,
                                        direct: DirectTry, attempts: nat -> Attempt, log: seq<Mark>, w: nat)
    requires |digest| >= 8 && !(cfg.directFirst && direct.ok)
    requires Picks(OrderOf(Replay(cfg.dsns, Before(cfg, direct, log)), strategy, digest), attempts, w)
    ensures var order := OrderOf(Replay(cfg.dsns, Before(cfg, direct, log)), strategy, digest);
            Route(r, cfg, strategy, digest, direct, attempts, log) ==
            Settled(r, cfg, direct, order, attempts, w, Before(cfg, direct, log))
  {
  }

  // ---------------------------------------------------------------------
  // The two request paths
  // ---------------------------------------------------------------------

  /** Snapshot of all channels, rotated so the strategy's start comes first. */
  method OrderedChannels(m: ChannelManager, strategy: Strategy, digest: seq<byte>) returns (all: seq<Channel>)
    requires m.Valid() && |digest| >= 8
    ensures all == OrderOf(Replay(m.dsns, m.log), strategy, digest)
  {
    all := m.Channels();
    if |all| == 0 {
      return;
    }
    var start := StartIndex(strategy, |all|, digest);
    all := Rotated(all, start);
  }

  /** The fallback loop of the tunnel path. */
  method ConnectInOrder(r: nat, m: ChannelManager, order: seq<Channel>, attempts: nat -> Attempt)
    returns (w: nat)
    requires m.Valid()
    modifies m`log, m.channels
    ensures m.Valid() && Picks(order, attempts, w)
    ensures m.log == old(m.log) + Journal(r, order, attempts, Min(w + 1, |order|))
  {
    for k := 0 to |order|
      invariant m.Valid()
      invariant m.log == old(m.log) + Journal(r, order, attempts, k)
      invariant forall j: nat :: j < k ==> !(Eligible(order, attempts, j) && attempts(j).ok)
    {
      var ch, attempt := order[k], attempts(k);
      if !ShouldRetry(ch, attempt.begun) {
        continue;
      }
      m.Interfere(attempt.during);
      if attempt.ok {
        m.MarkHealthy(ch.id, attempt.ended, ByRequest(r, k));
        return k;
      }
      m.MarkUnhealthy(ch.id, attempt.ended, ByRequest(r, k));
    }
    return |order|;
  }

  method AcquireTunnel(r: nat, m: ChannelManager, strategy: Strategy, digest: seq<byte>,
                       direct: DirectTry, attempts: nat -> Attempt)
    returns (winner: Winner)
    requires m.Valid() && |digest| >= 8
    modifies m`log, m.channels
    ensures m.Valid()
    ensures (winner, m.log) ==
            Route(r, Config(m.dsns, m.directFirst), strategy, digest, direct, attempts, old(m.log))
  {
    if m.directFirst {
      m.Interfere(direct.during);
      if direct.ok {
        return Direct;
      }
    }
    var order := OrderedChannels(m, strategy, digest);
    var w := ConnectInOrder(r, m, order, attempts);
    RouteSettles(r, Config(m.dsns, m.directFirst), strategy, digest, direct,
                 attempts, old(m.log), w);
    if w < |order| {
      return Via(order[w].id);
    }
    if !m.directFirst {
      m.Interfere(direct.during);
      if direct.ok {
        return Direct;
      }
    }
    return NoUpstream;
  }

  /** Establish, then forward; other tasks may run during either wait. */
  method ForwardOnce(m: ChannelManager, t: TwoPhase) returns (ok: bool)
    requires m.Valid()
    modifies m`log, m.channels
    ensures m.Valid() && ok == (t.established && t.forwarded)
    ensures m.log == old(m.log) + Meanwhile(t)
  {
    m.Interfere(t.connecting);
    if t.established {
      m.Interfere(t.forwarding);
      return t.forwarded;
    }
    return false;
  }

  /** One turn of the path-style loop: forward through the channel and mark it. */
  method ForwardThrough(r: nat, k: nat, m: ChannelManager, ch: Channel, t: TwoPhase) returns (ok: bool)
    requires m.Valid()
    modifies m`log, m.channels
    ensures m.Valid() && ok == (t.established && t.forwarded)
    ensures m.log == old(m.log) + Meanwhile(t) +
                     [Mark(ByRequest(r, k), ch.id, t.established && t.forwarded, t.ended)]
  {
    ok := ForwardOnce(m, t);
    if ok {
      m.MarkHealthy(ch.id, t.ended, ByRequest(r, k));
    } else {
      m.MarkUnhealthy(ch.id, t.ended, ByRequest(r, k));
    }
  }

  /** The fallback loop of the path-style path: a channel wins only once the request has been
      forwarded through it, and either failure marks it unhealthy. */
  method ForwardInOrder(r: nat, m: ChannelManager, order: seq<Channel>, tries: nat -> TwoPhase)
    returns (w: nat)
    requires m.Valid()
    modifies m`log, m.channels
    ensures m.Valid() && Picks(order, Attempts(tries), w)
    ensures m.log == old(m.log) + Journal(r, order, Attempts(tries), Min(w + 1, |order|))
  {
    ghost var attempts := Attempts(tries);
    for k := 0 to |order|
      invariant m.Valid()
      invariant m.log == old(m.log) + Journal(r, order, attempts, k)
      invariant forall j: nat :: j < k ==> !(Eligible(order, attempts, j) && attempts(j).ok)
    {
      var ch, attempt := order[k], tries(k);
      if !ShouldRetry(ch, attempt.begun) {
        continue;
      }
      var ok := ForwardThrough(r, k, m, ch, attempt);
      if ok {
        return k;
      }
    }
    return |order|;
  }

  // ---------------------------------------------------------------------
  // What path-style forwarding promises, on its own terms
  // ---------------------------------------------------------------------

  /** Turn `k` delivers the response: its entry is eligible when the turn comes, the channel is
      established and the request is forwarded through it. */
  predicate Delivers(order: seq<Channel>, tries: nat -> TwoPhase, k: nat)
    requires k < |order|
  {
    ShouldRetry(order[k], tries(k).begun) && tries(k).established && tries(k).forwarded
  }

  /** `w` is the first turn that delivers, or the number of channels. */
  ghost predicate FirstDelivery(order: seq<Channel>, tries: nat -> TwoPhase, w: nat) {
    && w <= |order|
    && (forall k: nat :: k < w ==> !Delivers(order, tries, k))
    && (w < |order| ==> Delivers(order, tries, w))
  }

  predicate MadeByRequest(m: Mark, r: nat) {
    m.actor.ByRequest? && m.actor.request == r
  }

  /** The mark of an eligible turn before turn `n`: a success exactly if it both connected and forwarded. */
  predicate MarksTurn(r: nat, order: seq<Channel>, tries: nat -> TwoPhase, n: nat, m: Mark)
    requires n <= |order|
  {
    m.actor.ByRequest? &&
    var v := m.actor.visit;
    && v < n && ShouldRetry(order[v], tries(v).begun)
    && m == Mark(ByRequest(r, v), order[v].id, tries(v).established && tries(v).forwarded, tries(v).ended)
  }

  ghost predicate HasMarkOf(marks: seq<Mark>, actor: Actor) {
    exists j :: 0 <= j < |marks| && marks[j].actor == actor
  }

  /** The marks of request `r` among `added` mark eligible ones of the first `n` turns, in turn order. */
  ghost predicate OnlyTurns(r: nat, order: seq<Channel>, tries: nat -> TwoPhase, n: nat, added: seq<Mark>)
    requires n <= |order|
  {
    && (forall j :: 0 <= j < |added| && MadeByRequest(added[j], r) ==> MarksTurn(r, order, tries, n, added[j]))
    && (forall i, j :: 0 <= i < j < |added| && MadeByRequest(added[i], r) && MadeByRequest(added[j], r) ==>
          added[i].actor.visit < added[j].actor.visit)
  }

  /** They are one for each eligible one of the first `n` turns, in turn order. */
  ghost predicate TurnsMarked(r: nat, order: seq<Channel>, tries: nat -> TwoPhase, n: nat, added: seq<Mark>)
    requires n <= |order|
  {
    && OnlyTurns(r, order, tries, n, added)
    && (forall v: nat :: v < n && ShouldRetry(order[v], tries(v).begun) ==> HasMarkOf(added, ByRequest(r, v)))
  }

  /** No other task makes a mark in the name of request `r`. */
  ghost predicate OthersOnly(marks: seq<Mark>, r: nat) {
    forall j :: 0 <= j < |marks| ==> !MadeByRequest(marks[j], r)
  }

  ghost predicate NoImpostor(tries: nat -> TwoPhase, r: nat) {
    forall k: nat :: OthersOnly(MeanwhileAt(tries, k), r)
  }

  function MeanwhileAt(tries: nat -> TwoPhase, k: nat): seq<Mark> {
    Meanwhile(tries(k))
  }

  /** The outcome of forwarding a request, with `w` the first turn that delivers. */
  ghost predicate Forwarded(r: nat, cfg: Config, order: seq<Channel>, direct: TwoPhase, tries: nat -> TwoPhase,
                            w: nat, winner: Winner, added: seq<Mark>)
  {
    var directOk := direct.established && direct.forwarded;
    var early := cfg.directFirst && directOk;
    && FirstDelivery(order, tries, w)
    && winner == (if early then Direct
                  else if w < |order| then Via(order[w].id)
                  else if directOk then Direct
                  else NoUpstream)
    && (NoImpostor(tries, r) && OthersOnly(Meanwhile(direct), r) ==>
          TurnsMarked(r, order, tries, if early then 0 else Min(w + 1, |order|), added))
  }

  /** The promise: forwarding took log `log` to `after` and ended with `winner`. */
  ghost predicate Promised(r: nat, cfg: Config, strategy: Strategy, digest: seq<byte>, direct: TwoPhase,
                           tries: nat -> TwoPhase, log: seq<Mark>, winner: Winner, after: seq<Mark>)
    requires |digest| >= 8
  {
    var order := OrderOf(Replay(cfg.dsns, LogAtSnapshot(cfg, direct, log)), strategy, digest);
    log <= after && exists w: nat :: Forwarded(r, cfg, order, direct, tries, w, winner, after[|log|..])
  }

  /** What the log is when the snapshot is taken. */
  function LogAtSnapshot(cfg: Config, direct: TwoPhase, log: seq<Mark>): seq<Mark> {
    if cfg.directFirst then log + Meanwhile(direct) else log
  }

  /** What the log gains in turn `n`. */
  function TurnLog(r: nat, order: seq<Channel>, tries: nat -> TwoPhase, n: nat): seq<Mark>
    requires n < |order|
  {
    if !ShouldRetry(order[n], tries(n).begun) then []
    else Meanwhile(tries(n)) +
         [Mark(ByRequest(r, n), order[n].id, tries(n).established && tries(n).forwarded, tries(n).ended)]
  }

  lemma {:induction false} HasMarkAmong(before: seq<Mark>, marks: seq<Mark>, behind: seq<Mark>, actor: Actor)
    requires HasMarkOf(marks, actor)
    ensures HasMarkOf(before + marks + behind, actor)
  {
    var j :| 0 <= j < |marks| && marks[j].actor == actor;
    assert (before + marks + behind)[|before| + j] == marks[j];
  }

  /** One turn more. */
  lemma {:induction false} OneMoreTurn(r: nat, order: seq<Channel>, tries: nat -> TwoPhase, n: nat,
                                       added: seq<Mark>, more: seq<Mark>)
    requires n < |order| && OnlyTurns(r, order, tries, n, added) && OthersOnly(Meanwhile(tries(n)), r)
    requires more == added + TurnLog(r, order, tries, n)
    ensures OnlyTurns(r, order, tries, n + 1, more)
  {
    forall j | 0 <= j < |more| && MadeByRequest(more[j], r)
      ensures || (j < |added| && more[j] == added[j] && MarksTurn(r, order, tries, n, added[j]))
              || (j == |more| - 1 && more[j].actor.visit == n && MarksTurn(r, order, tries, n + 1, more[j]))
    {
    }
  }

  /** Marks of other tasks around the turns change nothing. */
  lemma {:induction false} TurnsMarkedAmong(r: nat, order: seq<Channel>, tries: nat -> TwoPhase, n: nat,
                                            before: seq<Mark>, added: seq<Mark>, behind: seq<Mark>)
    requires n <= |order| && TurnsMarked(r, order, tries, n, added) && OthersOnly(before, r) && OthersOnly(behind, r)
    ensures TurnsMarked(r, order, tries, n, before + added + behind)
  {
    var all := before + added + behind;
    forall v: nat | v < n && ShouldRetry(order[v], tries(v).begun)
      ensures HasMarkOf(all, ByRequest(r, v))
    {
      HasMarkAmong(before, added, behind, ByRequest(r, v));
    }
    forall i, j | 0 <= i < j < |all| && MadeByRequest(all[i], r) && MadeByRequest(all[j], r)
      ensures all[i].actor.visit < all[j].actor.visit
    {
      assert all[i] == added[i - |before|] && all[j] == added[j - |before|];
    }
  }

  lemma {:induction false} JournalTurn(r: nat, order: seq<Channel>, tries: nat -> TwoPhase, n: nat)
    requires n < |order|
    ensures Journal(r, order, Attempts(tries), n + 1) ==
            Journal(r, order, Attempts(tries), n) + TurnLog(r, order, tries, n)
  {
  }

  function TurnLogs(r: nat, order: seq<Channel>, tries: nat -> TwoPhase, n: nat): seq<Mark>
    requires n <= |order|
  {
    if n == 0 then [] else TurnLogs(r, order, tries, n - 1) + TurnLog(r, order, tries, n - 1)
  }

  lemma {:induction false} JournalIsTurnLogs(r: nat, order: seq<Channel>, tries: nat -> TwoPhase, n: nat)
    requires n <= |order|
    ensures Journal(r, order, Attempts(tries), n) == TurnLogs(r, order, tries, n)
  {
    if n > 0 {
      JournalIsTurnLogs(r, order, tries, n - 1);
      JournalTurn(r, order, tries, n - 1);
    }
  }

  lemma {:induction false} NoImpostorAt(tries: nat -> TwoPhase, r: nat, k: nat)
    requires NoImpostor(tries, r)
    ensures OthersOnly(Meanwhile(tries(k)), r)
  {
    assert OthersOnly(MeanwhileAt(tries, k), r);
  }

  lemma {:induction false} TurnLogsGrow(r: nat, order: seq<Channel>, tries: nat -> TwoPhase, n: nat)
    requires 0 < n <= |order|
    ensures TurnLogs(r, order, tries, n) == TurnLogs(r, order, tries, n - 1) + TurnLog(r, order, tries, n - 1)
  {
  }

  lemma {:induction false} TurnLogsHoldTurns(r: nat, order: seq<Channel>, tries: nat -> TwoPhase, n: nat)
    requires n <= |order| && NoImpostor(tries, r)
    ensures OnlyTurns(r, order, tries, n, TurnLogs(r, order, tries, n))
  {
    if n > 0 {
      var past, all := TurnLogs(r, order, tries, n - 1), TurnLogs(r, order, tries, n);
      TurnLogsGrow(r, order, tries, n);
      NoImpostorAt(tries, r, n - 1);
      assert OnlyTurns(r, order, tries, n, all) by {
        TurnLogsHoldTurns(r, order, tries, n - 1);
        OneMoreTurn(r, order, tries, n - 1, past, all);
      }
    }
  }

  lemma {:induction false} TurnIsLogged(r: nat, order: seq<Channel>, tries: nat -> TwoPhase, n: nat, v: nat)
    requires v < n <= |order| && ShouldRetry(order[v], tries(v).begun)
    ensures HasMarkOf(TurnLogs(r, order, tries, n), ByRequest(r, v))
  {
    var past, last := TurnLogs(r, order, tries, n - 1), TurnLog(r, order, tries, n - 1);
    if v == n - 1 {
      var all := past + last;
      assert all[|all| - 1].actor == ByRequest(r, v);
    } else {
      TurnIsLogged(r, order, tries, n - 1, v);
      HasMarkAmong([], past, last, ByRequest(r, v));
      assert [] + past + last == past + last;
    }
  }

  lemma {:induction false} TurnLogsMarkTurns(r: nat, order: seq<Channel>, tries: nat -> TwoPhase, n: nat)
    requires n <= |order| && NoImpostor(tries, r)
    ensures TurnsMarked(r, order, tries, n, TurnLogs(r, order, tries, n))
  {
    TurnLogsHoldTurns(r, order, tries, n);
    forall v: nat | v < n && ShouldRetry(order[v], tries(v).begun)
      ensures HasMarkOf(TurnLogs(r, order, tries, n), ByRequest(r, v))
    {
      TurnIsLogged(r, order, tries, n, v);
    }
  }

  lemma {:induction false} PicksIsDelivery(order: seq<Channel>, tries: nat -> TwoPhase, w: nat)
    requires Picks(order, Attempts(tries), w)
    ensures FirstDelivery(order, tries, w)
  {
    forall k: nat | k < |order|
      ensures Delivers(order, tries, k) <==> Eligible(order, Attempts(tries), k) && Attempts(tries)(k).ok
    {
    }
  }

  /** What the routing specification does once the first delivery is known: the winner, and the log
      as marks of others, the journal of the turns, and marks of others. */
  lemma {:induction false} RouteUnfolds(r: nat, cfg: Config, strategy: Strategy, digest: seq<byte>,
                                        direct: DirectTry, attempts: nat -> Attempt, log: seq<Mark>, w: nat)
    requires |digest| >= 8
    requires Picks(OrderOf(Replay(cfg.dsns, Before(cfg, direct, log)), strategy, digest), attempts, w)
    ensures var order := OrderOf(Replay(cfg.dsns, Before(cfg, direct, log)), strategy, digest);
            var (winner, after) := Route(r, cfg, strategy, digest, direct, attempts, log);
            var early := cfg.directFirst && direct.ok;
            && winner == (if early then Direct else if w < |order| then Via(order[w].id)
                          else if direct.ok then Direct else NoUpstream)
            && after == Before(cfg, direct, log) +
                        (if early then [] else Journal(r, order, attempts, Min(w + 1, |order|))) +
                        (if early || cfg.directFirst || w < |order| then [] else direct.during)
  {
    var order := OrderOf(Replay(cfg.dsns, Before(cfg, direct, log)), strategy, digest);
    var log1 := Before(cfg, direct, log);
    if cfg.directFirst && direct.ok {
      assert log1 + [] + [] == log1;
    } else {
      RouteSettles(r, cfg, strategy, digest, direct, attempts, log, w);
      var journal := Journal(r, order, attempts, Min(w + 1, |order|));
      assert log1 + journal + [] == log1 + journal;
    }
  }

  lemma {:induction false} MarksForward(r: nat, cfg: Config, order: seq<Channel>, direct: TwoPhase,
                                        tries: nat -> TwoPhase, n: nat, behind: seq<Mark>)
    requires n <= |order| && OthersOnly(behind, r)
    requires NoImpostor(tries, r) && OthersOnly(Meanwhile(direct), r)
    ensures TurnsMarked(r, order, tries, n,
              (if cfg.directFirst then Meanwhile(direct) else []) + Journal(r, order, Attempts(tries), n) + behind)
  {
    JournalIsTurnLogs(r, order, tries, n);
    TurnLogsMarkTurns(r, order, tries, n);
    TurnsMarkedAmong(r, order, tries, n, if cfg.directFirst then Meanwhile(direct) else [],
                     Journal(r, order, Attempts(tries), n), behind);
  }

  lemma {:induction false} RouteForwards(r: nat, cfg: Config, strategy: Strategy, digest: seq<byte>,
                                         direct: TwoPhase, tries: nat -> TwoPhase, log: seq<Mark>) returns (w: nat)
    requires |digest| >= 8
    ensures var (winner, after) := Route(r, cfg, strategy, digest, DirectOf(direct), Attempts(tries), log);
            && log <= after
            && Forwarded(r, cfg, OrderOf(Replay(cfg.dsns, LogAtSnapshot(cfg, direct, log)), strategy, digest),
                         direct, tries, w, winner, after[|log|..])
  {
    var log1 := LogAtSnapshot(cfg, direct, log);
    assert Before(cfg, DirectOf(direct), log) == log1;
    var order := OrderOf(Replay(cfg.dsns, log1), strategy, digest);
    w := FirstPick(order, Attempts(tries), 0);
    PicksIsDelivery(order, tries, w);
    RouteUnfolds(r, cfg, strategy, digest, DirectOf(direct), Attempts(tries), log, w);
    var early := cfg.directFirst && direct.established && direct.forwarded;
    var n := if early then 0 else Min(w + 1, |order|);
    var behind := if early || cfg.directFirst || w < |order| then [] else Meanwhile(direct);
    var before := if cfg.directFirst then Meanwhile(direct) else [];
    var journal := Journal(r, order, Attempts(tries), n);
    assert log1 == log + before;
    AddedBehind(log, before, journal, behind);
    if NoImpostor(tries, r) && OthersOnly(Meanwhile(direct), r) {
      MarksForward(r, cfg, order, direct, tries, n, behind);
    }
  }

  /** The routing specification keeps the promise. */
  lemma {:induction false} RouteKeepsPromise(r: nat, cfg: Config, strategy: Strategy, digest: seq<byte>,
                                             direct: TwoPhase, tries: nat -> TwoPhase, log: seq<Mark>)
    requires |digest| >= 8
    ensures var (winner, after) := Route(r, cfg, strategy, digest, DirectOf(direct), Attempts(tries), log);
            Promised(r, cfg, strategy, digest, direct, tries, log, winner, after)
  {
    var w := RouteForwards(r, cfg, strategy, digest, direct, tries, log);
  }

  lemma {:induction false} AddedBehind<T>(log: seq<T>, a: seq<T>, b: seq<T>, c: seq<T>)
    ensures var all := log + a + b + c;
            log <= all && all[|log|..] == a + b + c
  {
  }

  /** Path-style forwarding makes the decision of the tunnel path, with "establish and then
      forward" as the attempt. */
  method ForwardInTurn(r: nat, m: ChannelManager, strategy: Strategy, digest: seq<byte>,
                        direct: TwoPhase, tries: nat -> TwoPhase)
    returns (winner: Winner)
    requires m.Valid() && |digest| >= 8
    modifies m`log, m.channels
    ensures m.Valid()
    ensures (winner, m.log) ==
            Route(r, Config(m.dsns, m.directFirst), strategy, digest,
                  DirectOf(direct), Attempts(tries), old(m.log))
  {
    if m.directFirst {
      var ok := ForwardOnce(m, direct);
      if ok {
        return Direct;
      }
    }
    var order := OrderedChannels(m, strategy, digest);
    var w := ForwardInOrder(r, m, order, tries);
    ghost var attempts := Attempts(tries);
    RouteSettles(r, Config(m.dsns, m.directFirst), strategy, digest, DirectOf(direct),
                 Attempts(tries), old(m.log), w);
    if w < |order| {
      return Via(order[w].id);
    }
    if !m.directFirst {
      var ok := ForwardOnce(m, direct);
      if ok {
        return Direct;
      }
    }
    return NoUpstream;
  }

  /** Path-style forwarding: the winner and the marks it promises. */
  method ForwardRequest(r: nat, m: ChannelManager, strategy: Strategy, digest: seq<byte>,
                        direct: TwoPhase, tries: nat -> TwoPhase)
    returns (winner: Winner)
    requires m.Valid() && |digest| >= 8
    modifies m`log, m.channels
    ensures m.Valid()
    ensures Promised(r, Config(m.dsns, m.directFirst), strategy, digest, direct, tries, old(m.log), winner, m.log)
  {
    RouteKeepsPromise(r, Config(m.dsns, m.directFirst), strategy, digest, direct, tries, m.log);
    winner := ForwardInTurn(r, m, strategy, digest, direct, tries);
  }
}
