/** What the circuit breaker guarantees over whole runs. */
module Breaker {
  import opened Prelude
  import opened Upstream
  import opened ProxySystem

  /** In every reachable state each live channel is exactly what its marks say, at its own
      index, and the marks are in time order. */
  lemma {:induction false} LiveChannelsMatchLedger(cfg: Config, run: seq<Label>, i: nat)
    requires Legal(cfg, run) && i < |cfg.dsns|
    ensures var s := Exec(cfg, run);
            && |s.live| == |cfg.dsns|
            && s.live[i].id == i && s.live[i].dsn == cfg.dsns[i]
            && Accounts(s.live[i], s.log, i)
            && (forall j, k :: 0 <= j < k < |s.log| ==> s.log[j].at <= s.log[k].at <= s.clock)
  {
    Reachable(cfg, run);
    LedgerDeterminesChannel(cfg.dsns, Exec(cfg, run).log, i);
  }

  /** When a failing channel is set aside and when it is back, in every reachable state: exactly
      while its last mark is the k-th failure in a row and less than min(300, 3^k) seconds old. */
  lemma {:induction false} SetAsideIff(cfg: Config, run: seq<Label>, i: nat)
    requires Legal(cfg, run) && i < |cfg.dsns|
    ensures var s := Exec(cfg, run);
            var f := Last(s.log, i, false);
            var g := Last(s.log, i, true);
            && |s.live| == |cfg.dsns|
            && (!ShouldRetry(s.live[i], s.clock) <==>
                  f > g && s.clock < s.log[f].at + Seconds(Min(300, Pow3(Failures(s.log, i, g + 1)))))
  {
    var s := Exec(cfg, run);
    LiveChannelsMatchLedger(cfg, run, i);
    EligibleIff(s.live[i], s.clock);
    var k := Failures(s.log, i, Last(s.log, i, true) + 1);
    BackoffIsCappedPower(k);
    BackoffIsCappedPower(s.live[i].failureCount);
  }

  // ---------------------------------------------------------------------
  // Stale snapshots
  // ---------------------------------------------------------------------

  /** Request `r`'s next turn starts an attempt. */
  ghost predicate StartsAttempt(cfg: Config, s: State, r: nat) {
    && Enabled(cfg, s, Turn(r))
    && After(cfg, s, Turn(r)).requests[r].stage.Attempting?
  }

  /** The channel that request `r` looks at next. */
  ghost function NextChannel(s: State, r: nat): Channel
    requires r in s.requests && s.requests[r].snap.Some?
    requires |s.requests[r].trail| < |s.requests[r].snap.value.order|
  {
    s.requests[r].snap.value.order[|s.requests[r].trail|]
  }

  /** A clone differs from the live channel only by marks made after it was taken. */
  lemma {:induction false} UntouchedSince(dsns: seq<Dsn>, log: seq<Mark>, seen: nat, i: nat)
    requires i < |dsns| && seen <= |log|
    requires forall k :: seen <= k < |log| ==> log[k].id != i
    ensures Replay(dsns, log)[i] == Replay(dsns, log[..seen])[i]
  {
    if |log| == seen {
      assert log[..seen] == log;
    } else {
      UntouchedSince(dsns, log[..|log| - 1], seen, i);
      assert log[..|log| - 1][..seen] == log[..seen];
    }
  }

  lemma {:induction false} NextChannelIsClone(cfg: Config, s: State, r: nat)
    requires Inv(cfg, s) && StartsAttempt(cfg, s, r)
    ensures var snap := s.requests[r].snap.value;
            var id := NextChannel(s, r).id;
            && id < |cfg.dsns| && snap.seen <= |s.log|
            && NextChannel(s, r) == Replay(cfg.dsns, s.log[..snap.seen])[id]
  {
    var snap := s.requests[r].snap.value;
    EntryOfSnapshot(cfg, s, r, |s.requests[r].trail|);
  }

  /** Exactly when an attempt breaks the live breaker: the channel's last mark is a failure
      made after the snapshot, and its backoff has not run out. */
  lemma {:induction false} AttemptViolatesBreakerIff(cfg: Config, run: seq<Label>, r: nat)
    requires Legal(cfg, run) && StartsAttempt(cfg, Exec(cfg, run), r)
    ensures var s := Exec(cfg, run);
            var id := NextChannel(s, r).id;
            var f := Last(s.log, id, false);
            && id < |s.live|
            && (!ShouldRetry(s.live[id], s.clock) <==>
                  && f >= s.requests[r].snap.value.seen
                  && f > Last(s.log, id, true)
                  && ElapsedSecs(s.log[f].at, s.clock) < Backoff(s.live[id].failureCount))
  {
    Reachable(cfg, run);
    var s := Exec(cfg, run);
    var id := NextChannel(s, r).id;
    var seen := s.requests[r].snap.value.seen;
    NextChannelIsClone(cfg, s, r);
    LedgerDeterminesChannel(cfg.dsns, s.log, id);
    var f := Last(s.log, id, false);
    if f < seen && f > Last(s.log, id, true) {
      UntouchedSince(cfg.dsns, s.log, seen, id);
    }
  }

  /** A request whose snapshot already holds every mark of the channel never breaks the breaker. */
  lemma {:induction false} FreshSnapshotRespectsBreaker(cfg: Config, run: seq<Label>, r: nat)
    requires Legal(cfg, run) && StartsAttempt(cfg, Exec(cfg, run), r)
    requires var s := Exec(cfg, run);
             Last(s.log, NextChannel(s, r).id, false) < s.requests[r].snap.value.seen
    ensures var s := Exec(cfg, run);
            var id := NextChannel(s, r).id;
            id < |s.live| && ShouldRetry(s.live[id], s.clock)
  {
    AttemptViolatesBreakerIff(cfg, run, r);
  }

  /** Two requests with the same snapshot of one fresh channel, and the first one's attempt begun. */
  lemma {:induction false} TwoSnapshots(dsn: Dsn) returns (run: seq<Label>)
    ensures var cfg := Config([dsn], false);
            && Legal(cfg, run)
            && var fresh0 := Initial([dsn]);
               var q := Request(Scanning, Some(Snapshot(0, 0, Rotated(fresh0, 0))), [], []);
               Exec(cfg, run) == State(0, fresh0, [], map[0 := q, 1 := q], [])
  {
    var cfg := Config([dsn], false);
    run := [];
    LegalAppend(cfg, run, Arrive(0));
    run := run + [Arrive(0)];
    LegalAppend(cfg, run, Arrive(1));
    run := run + [Arrive(1)];
    LegalAppend(cfg, run, TakeSnapshot(0, 0));
    run := run + [TakeSnapshot(0, 0)];
    LegalAppend(cfg, run, TakeSnapshot(1, 0));
    run := run + [TakeSnapshot(1, 0)];
  }

  /** The breaker is not absolute: of two requests with the same snapshot, the second
      attempts the channel right after the first one failed on it. */
  lemma {:induction false} StaleSnapshotCanViolateBreaker(dsn: Dsn) returns (cfg: Config, run: seq<Label>)
    ensures Legal(cfg, run) && StartsAttempt(cfg, Exec(cfg, run), 1)
    ensures var s := Exec(cfg, run);
            NextChannel(s, 1).id < |s.live| && !ShouldRetry(s.live[NextChannel(s, 1).id], s.clock)
  {
    cfg := Config([dsn], false);
    run := TwoSnapshots(dsn);
    LegalAppend(cfg, run, Turn(0));
    run := run + [Turn(0)];
    LegalAppend(cfg, run, AttemptResult(0, false));
    run := run + [AttemptResult(0, false)];
    BackoffIsCappedPower(1);
  }

  // ---------------------------------------------------------------------
  // Throttling
  // ---------------------------------------------------------------------

  /** Sum of the first `m` backoffs, in seconds. */
  function RestSum(m: nat): nat {
    if m == 0 then 0 else RestSum(m - 1) + Min(300, Pow3(m))
  }

  /** 3 + 9 + 27 + 81 + 243 = 363, then 300 for each further failure. */
  lemma {:induction false} RestSumClosedForm(m: nat)
    requires m >= 5
    ensures RestSum(m) == 363 + 300 * (m - 5)
  {
    if m == 5 {
      assert Pow3(1) == 3 && Pow3(2) == 9 && Pow3(3) == 27;
      assert Pow3(4) == 81 && Pow3(5) == 243;
      assert RestSum(2) == 12 && RestSum(4) == 120;
    } else {
      RestSumClosedForm(m - 1);
      Pow3Grows(m);
    }
  }

  /** `ps` lists positions of failed attempts of channel `i` by requests, each by a request that
      took its snapshot after the one before; the channel is not marked healthy in between. */
  ghost predicate FailedAttempts(s: State, i: nat, ps: seq<nat>) {
    && (forall j :: 0 <= j < |ps| ==>
          ps[j] < |s.log| && s.log[ps[j]].id == i && !s.log[ps[j]].ok && s.log[ps[j]].actor.ByRequest?)
    && (forall j :: 0 < j < |ps| ==>
          && s.log[ps[j]].actor.request in s.requests
          && s.requests[s.log[ps[j]].actor.request].snap.Some?
          && ps[j - 1] < s.requests[s.log[ps[j]].actor.request].snap.value.seen)
    && (forall j, k :: 0 <= j < |ps| && ps[0] <= k <= ps[j] ==> !(s.log[k].id == i && s.log[k].ok))
  }

  lemma {:induction false} FailuresAtLeast(log: seq<Mark>, i: nat, from: nat, ps: seq<nat>)
    requires forall j :: 0 <= j < |ps| ==> from <= ps[j] < |log| && log[ps[j]].id == i && !log[ps[j]].ok
    requires forall j :: 0 < j < |ps| ==> ps[j - 1] < ps[j]
    ensures Failures(log, i, from) >= |ps|
    decreases |log|
  {
    if |ps| == 0 {
    } else {
      assert ps[0] < |log|;
      var n := |log| - 1;
      var last := |ps| - 1;
      forall j | 0 <= j < last
        ensures ps[j] < ps[last]
      {
        Sorted(ps, j, last);
      }
      FailuresAtLeast(log[..n], i, from, if ps[last] == n then ps[..last] else ps);
    }
  }

  lemma {:induction false} Sorted(ps: seq<nat>, a: nat, b: nat)
    requires forall j :: 0 < j < |ps| ==> ps[j - 1] < ps[j]
    requires a <= b < |ps|
    ensures ps[a] <= ps[b] && (a < b ==> ps[a] < ps[b])
  {
    if a < b {
      Sorted(ps, a, b - 1);
    }
  }


  /** The visit behind a request's mark. */
  ghost predicate MadeBy(s: State, pos: nat, r: nat, v: nat)
    requires pos < |s.log|
  {
    && r in s.requests && s.requests[r].snap.Some?
    && v < |s.requests[r].trail| && v < |s.requests[r].snap.value.order|
    && s.requests[r].trail[v].Tried? && s.requests[r].trail[v].pos == pos
    && s.requests[r].snap.value.seen <= pos
    && s.requests[r].snap.value.order[v].id == s.log[pos].id
    && ShouldRetry(s.requests[r].snap.value.order[v], s.requests[r].trail[v].begun)
    && s.requests[r].trail[v].begun <= s.log[pos].at
    && s.requests[r].trail[v].ok == s.log[pos].ok
  }

  lemma {:induction false} VisitBehind(cfg: Config, s: State, pos: nat)
    requires Inv(cfg, s) && pos < |s.log| && s.log[pos].actor.ByRequest?
    ensures MadeBy(s, pos, s.log[pos].actor.request, s.log[pos].actor.visit)
  {
    assert Owned(s, pos);
    var r, v := s.log[pos].actor.request, s.log[pos].actor.visit;
    assert RequestInv(cfg, s.log, s.clock, r, s.requests[r]);
    assert VisitInv(s.log, s.clock, r, s.requests[r].snap.value, v, s.requests[r].trail[v]);
  }

  /** Entry `v` of a rotation of `n` entries, in the original. */
  function Around(start: nat, v: nat, n: nat): nat
    requires start < n && v < n
  {
    if start + v < n then start + v else start + v - n
  }

  /** Where an entry of a snapshot comes from. */
  lemma {:induction false} EntryOfSnapshot(cfg: Config, s: State, r: nat, v: nat)
    requires Inv(cfg, s) && r in s.requests && s.requests[r].snap.Some? && v < |s.requests[r].snap.value.order|
    ensures var snap := s.requests[r].snap.value;
            && |snap.order| == |cfg.dsns| && snap.start < |cfg.dsns| && snap.seen <= |s.log|
            && var i := Around(snap.start, v, |cfg.dsns|);
               snap.order[v] == Replay(cfg.dsns, s.log[..snap.seen])[i] && snap.order[v].id == i
  {
    assert RequestInv(cfg, s.log, s.clock, r, s.requests[r]);
  }

  lemma {:induction false} TurnsAreDistinct(cfg: Config, s: State, r: nat, v: nat, w: nat)
    requires Inv(cfg, s) && r in s.requests && s.requests[r].snap.Some?
    requires var order := s.requests[r].snap.value.order;
             v < |order| && w < |order| && order[v].id == order[w].id
    ensures v == w
  {
    EntryOfSnapshot(cfg, s, r, v);
    EntryOfSnapshot(cfg, s, r, w);
  }

  /** The visit behind a failed attempt: its snapshot entry was eligible when it began. */
  lemma {:induction false} AttemptBehind(cfg: Config, s: State, i: nat, pos: nat)
    requires Inv(cfg, s) && i < |cfg.dsns|
    requires pos < |s.log| && s.log[pos].id == i && s.log[pos].actor.ByRequest?
    ensures var r := s.log[pos].actor.request;
            && r in s.requests && s.requests[r].snap.Some?
            && s.requests[r].snap.value.seen <= pos
            && (exists begun: nat :: begun <= s.log[pos].at &&
                  ShouldRetry(Replay(cfg.dsns, s.log[..s.requests[r].snap.value.seen])[i], begun))
  {
    var r, v := s.log[pos].actor.request, s.log[pos].actor.visit;
    VisitBehind(cfg, s, pos);
    EntryOfSnapshot(cfg, s, r, v);
    var begun := s.requests[r].trail[v].begun;
    assert ShouldRetry(Replay(cfg.dsns, s.log[..s.requests[r].snap.value.seen])[i], begun);
  }

  lemma {:induction false} FailedAttemptsIncrease(cfg: Config, s: State, i: nat, ps: seq<nat>)
    requires Inv(cfg, s) && i < |cfg.dsns| && FailedAttempts(s, i, ps)
    ensures forall j :: 0 < j < |ps| ==> ps[j - 1] < ps[j]
  {
    forall j | 0 < j < |ps|
      ensures ps[j - 1] < ps[j]
    {
      AttemptBehind(cfg, s, i, ps[j]);
    }
  }

  /** A snapshot that holds `j` failures since the last success rests at least Backoff(j). */
  lemma {:induction false} SnapshotRests(dsns: seq<Dsn>, log: seq<Mark>, i: nat, ps: seq<nat>, begun: Instant)
    requires i < |dsns| && |ps| > 0
    requires forall j, k :: 0 <= j < k < |log| ==> log[j].at <= log[k].at
    requires forall j :: 0 <= j < |ps| ==> ps[j] < |log| && log[ps[j]].id == i && !log[ps[j]].ok
    requires forall j :: 0 < j < |ps| ==> ps[j - 1] < ps[j]
    requires Last(log, i, true) < ps[0]
    requires ShouldRetry(Replay(dsns, log)[i], begun)
    ensures begun >= log[ps[|ps| - 1]].at + Seconds(Backoff(|ps|))
  {
    var c := Replay(dsns, log)[i];
    LedgerDeterminesChannel(dsns, log, i);
    forall j | 0 <= j < |ps|
      ensures ps[0] <= ps[j]
    {
      Sorted(ps, 0, j);
    }
    var last := ps[|ps| - 1];
    var f := Last(log, i, false);
    FailuresAtLeast(log, i, Last(log, i, true) + 1, ps);
    assert f >= last;
    assert log[f].at >= log[last].at;
    BackoffIsCappedPower(c.failureCount);
    if c.failureCount == U32_MAX {
      BackoffIsCappedPower(|ps|);
    }
    assert c.failureCount >= Min(U32_MAX, |ps|);
    assert Backoff(c.failureCount) >= Backoff(|ps|);
    ElapsedAtLeast(log[f].at, begun, Backoff(|ps|));
  }

  /** In a snapshot taken before the `j`-th failed attempt, no success follows the first one. */
  lemma {:induction false} NoSuccessSeen(s: State, i: nat, ps: seq<nat>, j: nat, seen: nat)
    requires FailedAttempts(s, i, ps) && 0 < j < |ps| && seen <= ps[j]
    ensures Last(s.log[..seen], i, true) < ps[0]
  {
  }

  /** The first `j` failures, all held by the snapshot. */
  lemma {:induction false} SeenBySnapshot(s: State, i: nat, ps: seq<nat>, j: nat, seen: nat) returns (qs: seq<nat>)
    requires FailedAttempts(s, i, ps) && 0 < j < |ps| && ps[j - 1] < seen <= |s.log|
    requires forall k :: 0 < k < |ps| ==> ps[k - 1] < ps[k]
    ensures qs == ps[..j]
    ensures forall k :: 0 <= k < j ==> qs[k] < seen && s.log[..seen][qs[k]].id == i && !s.log[..seen][qs[k]].ok
    ensures forall k :: 0 < k < j ==> qs[k - 1] < qs[k]
  {
    qs := ps[..j];
    forall k | 0 <= k < j
      ensures qs[k] < seen
    {
      Sorted(ps, k, j - 1);
    }
  }

  lemma {:induction false} NextFailureWaits(cfg: Config, s: State, i: nat, ps: seq<nat>, j: nat)
    requires Inv(cfg, s) && i < |cfg.dsns| && FailedAttempts(s, i, ps)
    requires 0 < j < |ps|
    ensures s.log[ps[j]].at >= s.log[ps[j - 1]].at + Seconds(Backoff(j))
  {
    FailedAttemptsIncrease(cfg, s, i, ps);
    AttemptBehind(cfg, s, i, ps[j]);
    var seen := s.requests[s.log[ps[j]].actor.request].snap.value.seen;
    var begun: nat :| begun <= s.log[ps[j]].at && ShouldRetry(Replay(cfg.dsns, s.log[..seen])[i], begun);
    NoSuccessSeen(s, i, ps, j, seen);
    var qs := SeenBySnapshot(s, i, ps, j, seen);
    SnapshotRests(cfg.dsns, s.log[..seen], i, qs, begun);
  }

  lemma {:induction false} FailedAttemptsPrefix(s: State, i: nat, ps: seq<nat>, m: nat)
    requires FailedAttempts(s, i, ps) && m <= |ps|
    ensures FailedAttempts(s, i, ps[..m])
  {
  }

  /** The throttling bound: m failed attempts on a channel that does not recover in between,
      each by a request that had seen the one before, span at least
      min(300, 3^1) + ... + min(300, 3^(m-1)) seconds, whatever health passes add. */
  lemma {:induction false} ThrottlingBound(cfg: Config, run: seq<Label>, i: nat, ps: seq<nat>)
    requires Legal(cfg, run) && i < |cfg.dsns| && |ps| > 0
    requires FailedAttempts(Exec(cfg, run), i, ps)
    ensures var log := Exec(cfg, run).log;
            log[ps[|ps| - 1]].at >= log[ps[0]].at + Seconds(RestSum(|ps| - 1))
  {
    if |ps| > 1 {
      var m := |ps| - 1;
      FailedAttemptsPrefix(Exec(cfg, run), i, ps, m);
      ThrottlingBound(cfg, run, i, ps[..m]);
      Reachable(cfg, run);
      NextFailureWaits(cfg, Exec(cfg, run), i, ps, m);
      BackoffIsCappedPower(m);
    }
  }

  // ---------------------------------------------------------------------
  // Requests that do not overlap
  // ---------------------------------------------------------------------

  predicate Active(q: Request) {
    !q.stage.Done?
  }

  predicate Alone(s: State) {
    forall r, r' :: r in s.requests && r' in s.requests && Active(s.requests[r]) && Active(s.requests[r']) ==> r == r'
  }

  /** At most one request is in flight at every moment of the run. */
  ghost predicate OneAtATime(cfg: Config, run: seq<Label>)
    requires Legal(cfg, run)
    decreases |run|
  {
    && Alone(Exec(cfg, run))
    && (run == [] || OneAtATime(cfg, run[..|run| - 1]))
  }

  /** Request marks after a snapshot are the snapshot holder's own, up to its own last mark
      (and, while it is in flight, up to now). */
  ghost predicate Undisturbed(s: State) {
    && (forall r, k :: r in s.requests && s.requests[r].snap.Some? && Active(s.requests[r]) &&
          s.requests[r].snap.value.seen <= k < |s.log| && s.log[k].actor.ByRequest?
          ==> s.log[k].actor.request == r)
    && (forall j, k :: 0 <= k <= j < |s.log| && s.log[j].actor.ByRequest? && s.log[k].actor.ByRequest? &&
          SeenBefore(s, s.log[j].actor.request, k)
          ==> s.log[k].actor.request == s.log[j].actor.request)
  }

  ghost predicate SeenBefore(s: State, r: nat, k: int) {
    r in s.requests && s.requests[r].snap.Some? && s.requests[r].snap.value.seen <= k
  }

  lemma {:induction false} OneAtATimeIsUndisturbed(cfg: Config, run: seq<Label>)
    requires Legal(cfg, run) && OneAtATime(cfg, run)
    ensures Undisturbed(Exec(cfg, run))
    decreases |run|
  {
    if run != [] {
      var past := run[..|run| - 1];
      OneAtATimeIsUndisturbed(cfg, past);
      Reachable(cfg, past);
      UndisturbedStep(cfg, Exec(cfg, past), run[|run| - 1]);
    }
  }

  lemma {:induction false} UndisturbedStep(cfg: Config, s: State, l: Label)
    requires Inv(cfg, s) && Enabled(cfg, s, l) && Undisturbed(s) && Alone(s)
    ensures Undisturbed(After(cfg, s, l))
  {
    var s' := After(cfg, s, l);
    LogGrows(cfg, s, l);
    forall r | r in s'.requests && s'.requests[r].snap.Some?
      ensures SnapshotOrigin(s, s', r)
    {
      SnapshotKept(cfg, s, l, r);
    }
    forall k | 0 <= k < |s.log| && s.log[k].actor.ByRequest?
      ensures s.log[k].actor.request in s'.requests
    {
      assert Owned(s, k);
    }
    UndisturbedNext(s, s');
  }

  lemma {:induction false} UndisturbedNext(s: State, s': State)
    requires Undisturbed(s) && Alone(s) && Grown(s, s')
    requires forall k :: 0 <= k < |s.log| && s.log[k].actor.ByRequest? ==> s.log[k].actor.request in s'.requests
    requires forall r :: r in s'.requests && s'.requests[r].snap.Some? ==> SnapshotOrigin(s, s', r)
    ensures Undisturbed(s')
  {
    forall r, k | r in s'.requests && s'.requests[r].snap.Some? && Active(s'.requests[r]) &&
                  s'.requests[r].snap.value.seen <= k < |s'.log| && s'.log[k].actor.ByRequest?
      ensures s'.log[k].actor.request == r
    {
      assert SnapshotOrigin(s, s', r);
    }
    forall j, k | 0 <= k <= j < |s'.log| && s'.log[j].actor.ByRequest? && s'.log[k].actor.ByRequest? &&
                  SeenBefore(s', s'.log[j].actor.request, k)
      ensures s'.log[k].actor.request == s'.log[j].actor.request
    {
      MarksAlone(s, s', j, k);
    }
  }

  lemma {:induction false} MarksAlone(s: State, s': State, j: nat, k: nat)
    requires Undisturbed(s) && Grown(s, s') && k <= j < |s'.log|
    requires s'.log[j].actor.ByRequest? && s'.log[k].actor.ByRequest?
    requires var r := s'.log[j].actor.request; SeenBefore(s', r, k) && SnapshotOrigin(s, s', r)
    ensures s'.log[k].actor.request == s'.log[j].actor.request
  {
    assert SeenBefore(s, s'.log[j].actor.request, k);
  }

  /** Where a snapshot of the next state comes from. */
  ghost predicate SnapshotOrigin(s: State, s': State, r: nat)
    requires r in s'.requests && s'.requests[r].snap.Some?
  {
    || (s'.requests[r].snap.value.seen == |s.log| == |s'.log|)
    || (r in s.requests && s.requests[r].snap == s'.requests[r].snap && (Active(s'.requests[r]) ==> Active(s.requests[r])))
  }

  /** A step adds at most one mark; a request's mark comes from a request in flight. */
  ghost predicate Grown(s: State, s': State) {
    && s.log <= s'.log && |s'.log| <= |s.log| + 1
    && (|s.log| < |s'.log| && s'.log[|s.log|].actor.ByRequest? ==>
          var r := s'.log[|s.log|].actor.request;
          r in s.requests && Active(s.requests[r]) && s.requests[r].snap.Some?)
  }

  lemma {:induction false} LogGrows(cfg: Config, s: State, l: Label)
    requires Enabled(cfg, s, l)
    ensures Grown(s, After(cfg, s, l))
  {
  }

  lemma {:induction false} SnapshotKept(cfg: Config, s: State, l: Label, r: nat)
    requires Inv(cfg, s) && Enabled(cfg, s, l)
    requires r in After(cfg, s, l).requests && After(cfg, s, l).requests[r].snap.Some?
    ensures SnapshotOrigin(s, After(cfg, s, l), r)
  {
    if r in s.requests {
      assert RequestInv(cfg, s.log, s.clock, r, s.requests[r]);
      SnapshotStays(cfg, s, l, r);
    }
  }

  lemma {:induction false} SnapshotStays(cfg: Config, s: State, l: Label, r: nat)
    requires Enabled(cfg, s, l) && r in s.requests
    requires s.requests[r].stage.Ready? ==> s.requests[r].snap.None?
    ensures var s' := After(cfg, s, l);
            && r in s'.requests
            && (s'.requests[r].snap.Some? ==> SnapshotOrigin(s, s', r))
  {
  }

  lemma {:induction false} FreshWhenAlone(cfg: Config, s: State, i: nat, j: nat, k: nat)
    requires Inv(cfg, s) && Undisturbed(s) && i < |cfg.dsns|
    requires j < k < |s.log| && s.log[j].id == i && s.log[k].id == i
    requires s.log[j].actor.ByRequest? && s.log[k].actor.ByRequest?
    ensures var r := s.log[k].actor.request;
            r in s.requests && s.requests[r].snap.Some? && j < s.requests[r].snap.value.seen
  {
    AttemptBehind(cfg, s, i, k);
    if SeenBefore(s, s.log[k].actor.request, j) {
      OneMarkPerChannel(cfg, s, j, k);
    }
  }

  lemma {:induction false} SequentialRequestsAreFresh(cfg: Config, run: seq<Label>, i: nat, ps: seq<nat>)
    requires Legal(cfg, run) && OneAtATime(cfg, run) && i < |cfg.dsns|
    requires FailedBetween(Exec(cfg, run), i, ps)
    ensures FailedAttempts(Exec(cfg, run), i, ps)
  {
    Reachable(cfg, run);
    OneAtATimeIsUndisturbed(cfg, run);
    var s := Exec(cfg, run);
    forall j | 0 < j < |ps|
      ensures s.log[ps[j]].actor.request in s.requests
      ensures s.requests[s.log[ps[j]].actor.request].snap.Some?
      ensures ps[j - 1] < s.requests[s.log[ps[j]].actor.request].snap.value.seen
    {
      FreshWhenAlone(cfg, s, i, ps[j - 1], ps[j]);
    }
  }

  /** `ps` lists, in order, failed attempts of channel `i` by requests, with no success of `i` between. */
  ghost predicate FailedBetween(s: State, i: nat, ps: seq<nat>) {
    && (forall j :: 0 <= j < |ps| ==>
          ps[j] < |s.log| && s.log[ps[j]].id == i && !s.log[ps[j]].ok && s.log[ps[j]].actor.ByRequest?)
    && (forall j :: 0 < j < |ps| ==> ps[j - 1] < ps[j])
    && (forall j, k :: 0 <= j < |ps| && ps[0] <= k <= ps[j] ==> !(s.log[k].id == i && s.log[k].ok))
  }

  /** A request marks each channel at most once. */
  lemma {:induction false} OneMarkPerChannel(cfg: Config, s: State, j: nat, k: nat)
    requires Inv(cfg, s)
    requires j < |s.log| && k < |s.log| && s.log[j].id == s.log[k].id
    requires s.log[j].actor.ByRequest? && s.log[k].actor.ByRequest?
    requires s.log[j].actor.request == s.log[k].actor.request
    ensures j == k
  {
    var r, v, w := s.log[j].actor.request, s.log[j].actor.visit, s.log[k].actor.visit;
    VisitBehind(cfg, s, j);
    VisitBehind(cfg, s, k);
    TurnsAreDistinct(cfg, s, r, v, w);
  }

  /** The throttling bound for requests that do not overlap, stated on the log alone. */
  lemma {:induction false} SequentialRequestsAreThrottled(cfg: Config, run: seq<Label>, i: nat, ps: seq<nat>)
    requires Legal(cfg, run) && OneAtATime(cfg, run) && i < |cfg.dsns| && |ps| > 0
    requires FailedBetween(Exec(cfg, run), i, ps)
    ensures var log := Exec(cfg, run).log;
            && log[ps[|ps| - 1]].at >= log[ps[0]].at + Seconds(RestSum(|ps| - 1))
            && (|ps| >= 6 ==> log[ps[|ps| - 1]].at >= log[ps[0]].at + Seconds(363 + 300 * (|ps| - 6)))
  {
    SequentialRequestsAreFresh(cfg, run, i, ps);
    ThrottlingBound(cfg, run, i, ps);
    if |ps| >= 6 {
      RestSumClosedForm(|ps| - 1);
    }
  }
}
