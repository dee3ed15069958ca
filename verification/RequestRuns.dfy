/** What one request does, read off the routing specification and off system runs. */
module RequestRuns {
  import opened Prelude
  import opened Bytes
  import opened Upstream
  import opened Strategies
  import opened ProxySystem
  import opened Routing

  /** The marks of one request, in order. */
  function By(log: seq<Mark>, r: nat): seq<Mark> {
    if log == [] then []
    else
      var m := log[|log| - 1];
      if m.actor.ByRequest? && m.actor.request == r then By(log[..|log| - 1], r) + [m]
      else By(log[..|log| - 1], r)
  }

  predicate Foreign(marks: seq<Mark>, r: nat) {
    forall k :: 0 <= k < |marks| ==> !(marks[k].actor.ByRequest? && marks[k].actor.request == r)
  }

  lemma {:induction false} ByForeign(log: seq<Mark>, more: seq<Mark>, r: nat)
    requires Foreign(more, r)
    ensures By(log + more, r) == By(log, r)
  {
    if more == [] {
      assert log + more == log;
    } else {
      var n := |more| - 1;
      assert (log + more)[..|log| + n] == log + more[..n];
      ByForeign(log, more[..n], r);
    }
  }

  lemma {:induction false} ByAppend(log: seq<Mark>, m: Mark, r: nat)
    ensures By(log + [m], r) == if m.actor.ByRequest? && m.actor.request == r then By(log, r) + [m] else By(log, r)
  {
  }

  /** Whatever other tasks log meanwhile, the request itself logs exactly its own marks. */
  lemma {:induction false} JournalHoldsOwnMarks(r: nat, order: seq<Channel>, attempts: nat -> Attempt, n: nat)
    requires n <= |order| && forall k: nat :: k < n ==> Foreign(attempts(k).during, r)
    ensures By(Journal(r, order, attempts, n), r) == OwnMarks(r, order, attempts, n)
  {
    if n > 0 {
      JournalHoldsOwnMarks(r, order, attempts, n - 1);
      if Eligible(order, attempts, n - 1) {
        ByForeign(Journal(r, order, attempts, n - 1), attempts(n - 1).during, r);
        ByAppend(Journal(r, order, attempts, n - 1) + attempts(n - 1).during, OwnMark(r, order, attempts, n - 1), r);
      }
    }
  }

  /** Own marks are one per eligible turn, in turn order. */
  lemma {:induction false} OwnMarksPerTurn(r: nat, order: seq<Channel>, attempts: nat -> Attempt, n: nat)
    requires n <= |order|
    ensures var ms := OwnMarks(r, order, attempts, n);
            && (forall j :: 0 <= j < |ms| ==>
                  && ms[j].actor.ByRequest? && ms[j].actor.visit < n
                  && Eligible(order, attempts, ms[j].actor.visit)
                  && ms[j] == OwnMark(r, order, attempts, ms[j].actor.visit))
            && (forall i, j :: 0 <= i < j < |ms| ==> ms[i].actor.visit < ms[j].actor.visit)
            && (forall k: nat :: k < n && Eligible(order, attempts, k) ==> OwnMark(r, order, attempts, k) in ms)
  {
    if n > 0 {
      OwnMarksPerTurn(r, order, attempts, n - 1);
    }
  }

  /** The marks a decision emits: one failure per earlier eligible channel, in cyclic order,
      and one success for the winner at the end, if there is a winner. */
  lemma {:induction false} MarksOfDecision(r: nat, order: seq<Channel>, attempts: nat -> Attempt, w: nat)
    requires Picks(order, attempts, w)
    requires forall k: nat :: Foreign(attempts(k).during, r)
    ensures var ms := By(Journal(r, order, attempts, Min(w + 1, |order|)), r);
            && (forall j :: 0 <= j < |ms| ==> (ms[j].ok <==> w < |order| && j == |ms| - 1))
            && (w < |order| ==> |ms| > 0 && ms[|ms| - 1].id == order[w].id)
            && (forall k: nat :: k < w && Eligible(order, attempts, k) ==>
                  exists j :: 0 <= j < |ms| && ms[j].actor == ByRequest(r, k) && ms[j].id == order[k].id)
            && (forall j :: 0 <= j < |ms| ==>
                  ms[j].actor.ByRequest? && ms[j].actor.visit < |order| && Eligible(order, attempts, ms[j].actor.visit))
            && (forall i, j :: 0 <= i < j < |ms| ==> ms[i].actor.visit < ms[j].actor.visit)
  {
    var n := Min(w + 1, |order|);
    JournalHoldsOwnMarks(r, order, attempts, n);
    OwnMarksPerTurn(r, order, attempts, n);
    var ms := OwnMarks(r, order, attempts, n);
    forall k: nat | k < w && Eligible(order, attempts, k)
      ensures exists j :: 0 <= j < |ms| && ms[j].actor == ByRequest(r, k) && ms[j].id == order[k].id
    {
      var m := OwnMark(r, order, attempts, k);
      assert m in ms;
      var j :| 0 <= j < |ms| && ms[j] == m;
      assert ms[j].actor == ByRequest(r, k);
    }
    if w < |order| {
      assert ms == OwnMarks(r, order, attempts, w) + [OwnMark(r, order, attempts, w)];
    }
  }

  /** No upstream is found exactly when direct and every eligible channel fail; a channel wins
      exactly when it is the first eligible success and direct did not win before it. */
  lemma {:induction false} DecisionIff(r: nat, cfg: Config, strategy: Strategy, digest: seq<byte>,
                                       direct: DirectTry, attempts: nat -> Attempt, log: seq<Mark>)
    requires |digest| >= 8
    ensures var log1 := if cfg.directFirst then log + direct.during else log;
            var order := OrderOf(Replay(cfg.dsns, log1), strategy, digest);
            var winner := Route(r, cfg, strategy, digest, direct, attempts, log).0;
            && (winner == NoUpstream <==>
                  !direct.ok && forall k: nat :: k < |order| && Eligible(order, attempts, k) ==> !attempts(k).ok)
            && (winner.Via? <==>
                  !(cfg.directFirst && direct.ok) &&
                  exists k: nat :: k < |order| && Eligible(order, attempts, k) && attempts(k).ok)
            && (winner.Via? ==> exists w: nat :: w < |order| && Picks(order, attempts, w) && winner.id == order[w].id)
            && winner != Gone
  {
  }

  // ---------------------------------------------------------------------
  // Requests of the interleaved system
  // ---------------------------------------------------------------------

  /** Log position up to which the first `v` turns reach: behind the last mark they made, or where
      the snapshot was taken. */
  function Reached(seen: nat, trail: seq<Visit>, v: nat): nat
    requires v <= |trail|
  {
    if v == 0 then seen
    else
      match trail[v - 1]
      case Skipped(_) => Reached(seen, trail, v - 1)
      case Tried(_, _, pos) => pos + 1
  }

  /** What happened to a request of the system, told as an oracle: what other tasks did during an
      attempt is what the log holds between the request's marks. */
  function OracleOf(seen: nat, trail: seq<Visit>, log: seq<Mark>): nat -> Attempt {
    (k: nat) =>
      if k < |trail| then
        match trail[k]
        case Skipped(at) => Attempt(at, [], false, at)
        case Tried(begun, ok, pos) =>
          if Reached(seen, trail, k) <= pos < |log| then
            Attempt(begun, log[Reached(seen, trail, k)..pos], ok, log[pos].at)
          else Attempt(begun, [], ok, 0)
      else Attempt(0, [], false, 0)
  }

  ghost function Oracle(s: State, r: nat): nat -> Attempt
    requires r in s.requests && s.requests[r].snap.Some?
  {
    OracleOf(s.requests[r].snap.value.seen, s.requests[r].trail, s.log)
  }

  lemma {:induction false} TrailIsOracle(log: seq<Mark>, clock: Instant, r: nat, q: Request)
    requires q.snap.Some? && TrailInv(log, clock, r, q)
    ensures var order := q.snap.value.order;
            var oracle := OracleOf(q.snap.value.seen, q.trail, log);
            && |q.trail| <= |order|
            && forall v: nat :: v < |q.trail| ==>
                 && (Eligible(order, oracle, v) <==> q.trail[v].Tried?)
                 && oracle(v).ok == (q.trail[v].Tried? && q.trail[v].ok)
  {
    forall v: nat | v < |q.trail|
      ensures Eligible(q.snap.value.order, OracleOf(q.snap.value.seen, q.trail, log), v) <==> q.trail[v].Tried?
    {
      assert VisitInv(log, clock, r, q.snap.value, v, q.trail[v]);
    }
  }

  // ---------------------------------------------------------------------
  // The marks of a request, in the log of a run
  // ---------------------------------------------------------------------

  /** Every mark of request `r` belongs to a turn of its trail. */
  ghost predicate AllFromTrail(log: seq<Mark>, r: nat, trail: seq<Visit>) {
    forall k :: 0 <= k < |log| && log[k].actor.ByRequest? && log[k].actor.request == r ==>
      log[k].actor.visit < |trail| && trail[log[k].actor.visit].Tried? && trail[log[k].actor.visit].pos == k
  }

  /** Marks of earlier turns lie before the position reached, marks of later turns behind it. */
  lemma {:induction false} ReachedBetween(log: seq<Mark>, clock: Instant, r: nat, q: Request, v: nat)
    requires q.snap.Some? && TrailInv(log, clock, r, q) && v <= |q.trail| && q.snap.value.seen <= |log|
    ensures var reached := Reached(q.snap.value.seen, q.trail, v);
            && q.snap.value.seen <= reached <= |log|
            && (forall w :: 0 <= w < v && q.trail[w].Tried? ==> q.trail[w].pos < reached)
            && (forall w :: v <= w < |q.trail| && q.trail[w].Tried? ==> reached <= q.trail[w].pos)
  {
    forall w | 0 <= w < |q.trail|
      ensures q.trail[w].Tried? ==> q.snap.value.seen <= q.trail[w].pos < |log|
    {
      assert VisitInv(log, clock, r, q.snap.value, w, q.trail[w]);
    }
    if v > 0 {
      ReachedBetween(log, clock, r, q, v - 1);
    }
  }

  /** Between the marks of two turns there are marks of other tasks only. */
  lemma {:induction false} GapIsForeign(log: seq<Mark>, clock: Instant, r: nat, q: Request, v: nat, end: nat)
    requires q.snap.Some? && TrailInv(log, clock, r, q) && q.snap.value.seen <= |log| && AllFromTrail(log, r, q.trail)
    requires v <= |q.trail| && Reached(q.snap.value.seen, q.trail, v) <= end <= |log|
    requires forall w :: v <= w < |q.trail| && q.trail[w].Tried? ==> end <= q.trail[w].pos
    ensures Foreign(log[Reached(q.snap.value.seen, q.trail, v)..end], r)
  {
    ReachedBetween(log, clock, r, q, v);
    var lo := Reached(q.snap.value.seen, q.trail, v);
    forall k | 0 <= k < end - lo
      ensures !(log[lo..end][k].actor.ByRequest? && log[lo..end][k].actor.request == r)
    {
      assert log[lo..end][k] == log[lo + k];
    }
  }

  lemma {:induction false} LaterTurns(log: seq<Mark>, clock: Instant, r: nat, q: Request, v: nat)
    requires q.snap.Some? && TrailInv(log, clock, r, q) && v < |q.trail| && q.trail[v].Tried?
    ensures forall w :: v <= w < |q.trail| && q.trail[w].Tried? ==> q.trail[v].pos <= q.trail[w].pos
    ensures q.trail[v].pos < |log|
    ensures log[q.trail[v].pos].actor == ByRequest(r, v) && log[q.trail[v].pos].id == q.snap.value.order[v].id
    ensures log[q.trail[v].pos].ok == q.trail[v].ok
  {
    assert VisitInv(log, clock, r, q.snap.value, v, q.trail[v]);
  }

  /** Turn `v` made the piece of log that the routing specification gives it. */
  ghost predicate TurnLogged(log: seq<Mark>, r: nat, seen: nat, trail: seq<Visit>, order: seq<Channel>,
                             attempts: nat -> Attempt, v: nat)
    requires v < |trail| <= |order|
  {
    var lo := Reached(seen, trail, v);
    && Foreign(attempts(v).during, r)
    && (Eligible(order, attempts, v) <==> trail[v].Tried?)
    && (trail[v].Tried? ==>
          && seen <= lo <= trail[v].pos < |log|
          && log[seen..trail[v].pos + 1] == log[seen..lo] + attempts(v).during + [OwnMark(r, order, attempts, v)])
  }

  lemma {:induction false} TurnsLogJournal(log: seq<Mark>, r: nat, seen: nat, trail: seq<Visit>, order: seq<Channel>,
                                           attempts: nat -> Attempt, n: nat)
    requires seen <= |log| && n <= |trail| <= |order|
    requires forall v :: 0 <= v < n ==> TurnLogged(log, r, seen, trail, order, attempts, v)
    ensures seen <= Reached(seen, trail, n) <= |log|
    ensures log[seen..Reached(seen, trail, n)] == Journal(r, order, attempts, n)
  {
    if n > 0 {
      TurnsLogJournal(log, r, seen, trail, order, attempts, n - 1);
      assert TurnLogged(log, r, seen, trail, order, attempts, n - 1);
    }
  }

  /** The piece of log one attempt adds. */
  lemma {:induction false} AttemptIsLogged(log: seq<Mark>, clock: Instant, r: nat, q: Request, v: nat)
    requires q.snap.Some? && TrailInv(log, clock, r, q) && q.snap.value.seen <= |log| && AllFromTrail(log, r, q.trail)
    requires v < |q.trail| && q.trail[v].Tried?
    ensures var seen := q.snap.value.seen;
            var oracle := OracleOf(seen, q.trail, log);
            var lo := Reached(seen, q.trail, v);
            && seen <= lo <= q.trail[v].pos < |log|
            && log[seen..q.trail[v].pos + 1] ==
               log[seen..lo] + oracle(v).during + [OwnMark(r, q.snap.value.order, oracle, v)]
            && Foreign(oracle(v).during, r)
  {
    ReachedBetween(log, clock, r, q, v);
    LaterTurns(log, clock, r, q, v);
    GapIsForeign(log, clock, r, q, v, q.trail[v].pos);
    SlicesAndLast(log, q.snap.value.seen, Reached(q.snap.value.seen, q.trail, v), q.trail[v].pos);
  }

  lemma {:induction false} TrailIsLogged(log: seq<Mark>, clock: Instant, r: nat, q: Request)
    requires q.snap.Some? && TrailInv(log, clock, r, q) && q.snap.value.seen <= |log| && AllFromTrail(log, r, q.trail)
    ensures |q.trail| <= |q.snap.value.order|
    ensures var seen := q.snap.value.seen;
            forall v :: 0 <= v < |q.trail| ==>
              TurnLogged(log, r, seen, q.trail, q.snap.value.order, OracleOf(seen, q.trail, log), v)
  {
    var oracle := OracleOf(q.snap.value.seen, q.trail, log);
    TrailIsOracle(log, clock, r, q);
    forall v | 0 <= v < |q.trail|
      ensures TurnLogged(log, r, q.snap.value.seen, q.trail, q.snap.value.order, oracle, v)
    {
      if q.trail[v].Tried? {
        AttemptIsLogged(log, clock, r, q, v);
      }
    }
  }

  /** The log is: what was there when request `r` took its snapshot, then the journal of its first
      `n` turns as the routing specification defines it, then marks of other tasks. */
  ghost predicate Unfolds(log: seq<Mark>, r: nat, snap: Snapshot, n: nat, attempts: nat -> Attempt)
    requires n <= |snap.order|
  {
    var journal := Journal(r, snap.order, attempts, n);
    && snap.seen <= |log|
    && log[..snap.seen] + journal <= log
    && Foreign(log[..snap.seen], r)
    && Foreign(log[snap.seen + |journal|..], r)
    && By(log, r) == OwnMarks(r, snap.order, attempts, n)
  }

  /** In every reachable state, under every interleaving, the log unfolds into the journal of a
      request's turns, so its own marks are exactly those of the routing specification. */
  lemma {:induction false} RunsLogOwnMarks(cfg: Config, run: seq<Label>, r: nat)
    requires Legal(cfg, run) && r in Exec(cfg, run).requests && Exec(cfg, run).requests[r].snap.Some?
    ensures var s := Exec(cfg, run);
            var q := s.requests[r];
            && |q.trail| <= |q.snap.value.order|
            && Unfolds(s.log, r, q.snap.value, |q.trail|, Oracle(s, r))
  {
    Reachable(cfg, run);
    var s := Exec(cfg, run);
    RequestInvOf(cfg, s, r);
    MarksFromTrail(cfg, s, r);
    LogOfTrail(s.log, s.clock, r, s.requests[r]);
  }

  lemma {:induction false} LogOfTrail(log: seq<Mark>, clock: Instant, r: nat, q: Request)
    requires q.snap.Some? && TrailInv(log, clock, r, q) && q.snap.value.seen <= |log| && AllFromTrail(log, r, q.trail)
    ensures |q.trail| <= |q.snap.value.order|
    ensures Unfolds(log, r, q.snap.value, |q.trail|, OracleOf(q.snap.value.seen, q.trail, log))
  {
    var n, seen := |q.trail|, q.snap.value.seen;
    TrailIsLogged(log, clock, r, q);
    ReachedBetween(log, clock, r, q, n);
    GapIsForeign(log, clock, r, q, n, |log|);
    NoMarkBefore(log, clock, r, q);
    LogOfTurns(log, r, q.snap.value, q.trail, OracleOf(seen, q.trail, log));
  }

  lemma {:induction false} LogOfTurns(log: seq<Mark>, r: nat, snap: Snapshot, trail: seq<Visit>, attempts: nat -> Attempt)
    requires |trail| <= |snap.order| && snap.seen <= Reached(snap.seen, trail, |trail|) <= |log|
    requires forall v :: 0 <= v < |trail| ==> TurnLogged(log, r, snap.seen, trail, snap.order, attempts, v)
    requires Foreign(log[..snap.seen], r) && Foreign(log[Reached(snap.seen, trail, |trail|)..], r)
    ensures Unfolds(log, r, snap, |trail|, attempts)
  {
    TurnsLogJournal(log, r, snap.seen, trail, snap.order, attempts, |trail|);
    forall v: nat | v < |trail|
      ensures Foreign(attempts(v).during, r)
    {
      assert TurnLogged(log, r, snap.seen, trail, snap.order, attempts, v);
    }
    JournalHoldsOwnMarks(r, snap.order, attempts, |trail|);
    SplitLog(log, snap.seen, Reached(snap.seen, trail, |trail|), r);
  }

  lemma {:induction false} SplitLog(log: seq<Mark>, seen: nat, reached: nat, r: nat)
    requires seen <= reached <= |log| && Foreign(log[..seen], r) && Foreign(log[reached..], r)
    ensures var journal := log[seen..reached];
            && By(log, r) == By(journal, r)
            && log[..seen] + journal == log[..reached]
  {
    Slices(log, seen, reached);
    ByConcat(log[..seen], log[seen..reached], r);
    ByForeign([], log[..seen], r);
    assert By([] + log[..seen], r) == [] by { assert [] + log[..seen] == log[..seen]; }
    ByForeign(log[..reached], log[reached..], r);
  }

  lemma {:induction false} ByConcat(log: seq<Mark>, more: seq<Mark>, r: nat)
    ensures By(log + more, r) == By(log, r) + By(more, r)
  {
    if more == [] {
      assert log + more == log;
    } else {
      var n := |more| - 1;
      assert (log + more)[..|log| + n] == log + more[..n];
      ByConcat(log, more[..n], r);
    }
  }

  /** A request makes no mark before its snapshot. */
  lemma {:induction false} NoMarkBefore(log: seq<Mark>, clock: Instant, r: nat, q: Request)
    requires q.snap.Some? && TrailInv(log, clock, r, q) && q.snap.value.seen <= |log| && AllFromTrail(log, r, q.trail)
    ensures Foreign(log[..q.snap.value.seen], r)
  {
    forall v | 0 <= v < |q.trail| && q.trail[v].Tried?
      ensures q.snap.value.seen <= q.trail[v].pos
    {
      assert VisitInv(log, clock, r, q.snap.value, v, q.trail[v]);
    }
  }

  lemma {:induction false} MarksFromTrail(cfg: Config, s: State, r: nat)
    requires Inv(cfg, s) && r in s.requests
    ensures AllFromTrail(s.log, r, s.requests[r].trail)
  {
    forall k | 0 <= k < |s.log| && s.log[k].actor.ByRequest? && s.log[k].actor.request == r
      ensures var v := s.log[k].actor.visit;
              v < |s.requests[r].trail| && s.requests[r].trail[v].Tried? && s.requests[r].trail[v].pos == k
    {
      assert Owned(s, k);
    }
  }

  /** The end of a request that took a snapshot is the decision of the routing specification. */
  ghost predicate DecidedByRoute(q: Request, log: seq<Mark>)
    requires q.snap.Some? && q.stage.Done?
  {
    var order := q.snap.value.order;
    var oracle := OracleOf(q.snap.value.seen, q.trail, log);
    match q.stage.winner
    case Via(id) => 0 < |q.trail| <= |order| && Picks(order, oracle, |q.trail| - 1) && id == order[|q.trail| - 1].id
    case NoUpstream => |q.trail| == |order| && Picks(order, oracle, |order|) && q.direct == [false]
    case Direct => |q.trail| == |order| && Picks(order, oracle, |order|) && q.direct == [true]
    case Gone => true
  }

  /** However the other tasks interleave, a finished request of the system has decided as the
      routing specification does on its own snapshot and its own outcomes. */
  lemma {:induction false} SystemRequestsFollowRoute(cfg: Config, run: seq<Label>, r: nat)
    requires Legal(cfg, run) && r in Exec(cfg, run).requests
    requires Exec(cfg, run).requests[r].stage.Done? && Exec(cfg, run).requests[r].snap.Some?
    ensures var s := Exec(cfg, run);
            && SnapshotInv(cfg, s.log, s.requests[r].snap.value)
            && DecidedByRoute(s.requests[r], s.log)
  {
    Reachable(cfg, run);
    var s := Exec(cfg, run);
    RequestInvOf(cfg, s, r);
    TrailIsOracle(s.log, s.clock, r, s.requests[r]);
    DecisionOf(cfg, s.log, s.clock, r, s.requests[r]);
  }

  lemma {:induction false} DecisionOf(cfg: Config, log: seq<Mark>, clock: Instant, r: nat, q: Request)
    requires q.snap.Some? && q.stage.Done?
    requires DirectInv(cfg, q) && StageInv(q, clock) && TrailInv(log, clock, r, q)
    requires forall v: nat :: v < |q.trail| ==>
               && (Eligible(q.snap.value.order, OracleOf(q.snap.value.seen, q.trail, log), v) <==> q.trail[v].Tried?)
               && OracleOf(q.snap.value.seen, q.trail, log)(v).ok == (q.trail[v].Tried? && q.trail[v].ok)
    ensures DecidedByRoute(q, log)
  {
  }

  lemma {:induction false} RequestInvOf(cfg: Config, s: State, r: nat)
    requires Inv(cfg, s) && r in s.requests && s.requests[r].snap.Some?
    ensures var q := s.requests[r];
            DirectInv(cfg, q) && StageInv(q, s.clock) && SnapshotInv(cfg, s.log, q.snap.value) &&
            TrailInv(s.log, s.clock, r, q)
  {
  }

  /** At most one attempt per channel and one direct attempt, under every interleaving. */
  lemma {:induction false} AttemptsAreBounded(cfg: Config, run: seq<Label>, r: nat)
    requires Legal(cfg, run) && r in Exec(cfg, run).requests
    ensures |Exec(cfg, run).requests[r].trail| <= |cfg.dsns|
    ensures |Exec(cfg, run).requests[r].direct| <= 1
  {
    Reachable(cfg, run);
    TrailFits(cfg, Exec(cfg, run), r);
    assert RequestInv(cfg, Exec(cfg, run).log, Exec(cfg, run).clock, r, Exec(cfg, run).requests[r]);
  }

  /** Labels that are steps of request `r`. */
  predicate IsStepOf(l: Label, r: nat) {
    match l
    case Wait(_) => false
    case PassStart => false
    case ProbeResult(_, _) => false
    case ProbeLost(_) => false
    case _ => l.r == r
  }

  function OwnSteps(run: seq<Label>, r: nat): nat {
    if run == [] then 0
    else OwnSteps(run[..|run| - 1], r) + if IsStepOf(run[|run| - 1], r) then 1 else 0
  }

  /** Steps left for a request in state `q`. */
  function StepsLeft(n: nat, q: Request): int {
    match q.stage
    case FirstDirect => 2 * n + 4
    case Ready => 2 * n + 3
    case Scanning => 2 * (n - |q.trail|) + 2
    case Attempting(_) => 2 * (n - |q.trail|) + 1
    case LastDirect => 1
    case Done(_) => 0
  }

  /** How many own steps a request still has before it. */
  function Budget(n: nat, s: State, r: nat): int {
    if r !in s.requests then 2 * n + 5
    else StepsLeft(n, s.requests[r])
  }

  lemma {:induction false} OthersLeaveRequestAlone(cfg: Config, s: State, l: Label, r: nat)
    requires Enabled(cfg, s, l) && !IsStepOf(l, r)
    ensures var s' := After(cfg, s, l);
            (r in s.requests <==> r in s'.requests) && (r in s.requests ==> s'.requests[r] == s.requests[r])
  {
  }

  lemma {:induction false} BudgetStep(cfg: Config, s: State, l: Label, r: nat)
    requires Inv(cfg, s) && Enabled(cfg, s, l)
    ensures Budget(|cfg.dsns|, After(cfg, s, l), r) <=
            Budget(|cfg.dsns|, s, r) - if IsStepOf(l, r) then 1 else 0
  {
    if !IsStepOf(l, r) {
      OthersLeaveRequestAlone(cfg, s, l, r);
    } else if l.AttemptResult? {
      AttemptSpends(cfg, s, l.r, l.ok);
    } else {
      QuietStepSpends(cfg, s, l);
    }
  }

  lemma {:induction false} AttemptSpends(cfg: Config, s: State, r: nat, ok: bool)
    requires Inv(cfg, s) && Enabled(cfg, s, AttemptResult(r, ok))
    ensures Budget(|cfg.dsns|, After(cfg, s, AttemptResult(r, ok)), r) < Budget(|cfg.dsns|, s, r)
  {
    TrailFits(cfg, s, r);
    AttemptFrame(cfg, s, r, ok);
    OneTurnLess(|cfg.dsns|, s.requests[r], ok, |s.log|);
  }

  lemma {:induction false} OneTurnLess(n: nat, q: Request, ok: bool, pos: nat)
    requires InAttempt(q) && |q.trail| < n
    ensures StepsLeft(n, AfterAttempt(q, ok, pos)) < StepsLeft(n, q)
  {
  }

  lemma {:induction false} QuietStepSpends(cfg: Config, s: State, l: Label)
    requires Inv(cfg, s) && Enabled(cfg, s, l) && Quiet(l)
    ensures Budget(|cfg.dsns|, After(cfg, s, l), l.r) < Budget(|cfg.dsns|, s, l.r)
  {
    if l.r in s.requests {
      TrailFits(cfg, s, l.r);
    }
    QuietSpends(cfg, s, l);
  }

  lemma {:induction false} QuietSpends(cfg: Config, s: State, l: Label)
    requires Enabled(cfg, s, l) && Quiet(l)
    requires l.r in s.requests ==>
               && |s.requests[l.r].trail| <= |cfg.dsns|
               && (s.requests[l.r].snap.Some? ==> |s.requests[l.r].snap.value.order| == |cfg.dsns|)
               && (s.requests[l.r].snap.None? ==> s.requests[l.r].trail == [])
               && (s.requests[l.r].stage.Attempting? ==> |s.requests[l.r].trail| < |cfg.dsns|)
    ensures Budget(|cfg.dsns|, After(cfg, s, l), l.r) < Budget(|cfg.dsns|, s, l.r)
  {
    if l.Turn? {
      TurnSpends(cfg, s.clock, s.requests[l.r]);
    } else if l.DirectResult? {
      assert StepsLeft(|cfg.dsns|, AfterDirect(s.requests[l.r], l.ok)) < StepsLeft(|cfg.dsns|, s.requests[l.r]);
    }
  }

  lemma {:induction false} TurnSpends(cfg: Config, clock: Instant, q: Request)
    requires q.stage.Scanning? && q.snap.Some? && |q.trail| <= |q.snap.value.order| == |cfg.dsns|
    ensures StepsLeft(|cfg.dsns|, AfterTurn(cfg, clock, q)) < StepsLeft(|cfg.dsns|, q)
  {
  }

  lemma {:induction false} TrailFits(cfg: Config, s: State, r: nat)
    requires Inv(cfg, s) && r in s.requests
    ensures var q := s.requests[r];
            && |q.trail| <= |cfg.dsns|
            && (q.snap.Some? ==> |q.snap.value.order| == |cfg.dsns|)
            && (q.snap.None? ==> q.trail == [])
            && (q.stage.Attempting? ==> |q.trail| < |cfg.dsns|)
  {
  }

  /** Every request ends: it takes at most 2n + 5 steps of its own in any run. */
  lemma {:induction false} RequestsTerminate(cfg: Config, run: seq<Label>, r: nat)
    requires Legal(cfg, run)
    ensures OwnSteps(run, r) + Budget(|cfg.dsns|, Exec(cfg, run), r) <= 2 * |cfg.dsns| + 5
    ensures OwnSteps(run, r) <= 2 * |cfg.dsns| + 5
  {
    if run != [] {
      var past := run[..|run| - 1];
      RequestsTerminate(cfg, past, r);
      Reachable(cfg, past);
      BudgetStep(cfg, Exec(cfg, past), run[|run| - 1], r);
    }
    Reachable(cfg, run);
    BudgetNonNegative(cfg, Exec(cfg, run), r);
  }

  lemma {:induction false} BudgetNonNegative(cfg: Config, s: State, r: nat)
    requires Inv(cfg, s)
    ensures Budget(|cfg.dsns|, s, r) >= 0
  {
  }

  /** No request is ever stuck: one that is not done can take a step other than being dropped. */
  lemma {:induction false} NoRequestIsStuck(cfg: Config, run: seq<Label>, r: nat) returns (l: Label)
    requires Legal(cfg, run) && r in Exec(cfg, run).requests
    requires !Exec(cfg, run).requests[r].stage.Done?
    ensures Enabled(cfg, Exec(cfg, run), l) && IsStepOf(l, r) && !l.Abandon?
  {
    Reachable(cfg, run);
    var s := Exec(cfg, run);
    assert RequestInv(cfg, s.log, s.clock, r, s.requests[r]);
    match s.requests[r].stage
    case FirstDirect => l := DirectResult(r, true);
    case LastDirect => l := DirectResult(r, true);
    case Ready => l := TakeSnapshot(r, 0);
    case Scanning => l := Turn(r);
    case Attempting(_) => l := AttemptResult(r, true);
  }

  // ---------------------------------------------------------------------
  // Decisions are runs
  // ---------------------------------------------------------------------

  /** Attempts that other tasks leave alone, one after the other, from time `now` on. */
  ghost predicate OneByOne(attempts: nat -> Attempt, now: Instant) {
    && now <= attempts(0).begun
    && (forall k: nat :: attempts(k).during == [] && attempts(k).begun <= attempts(k).ended <= attempts(k + 1).begun)
  }

  /** Request `r` is about to take turn `k` of `order`. */
  ghost predicate AtTurn(s: State, r: nat, order: seq<Channel>, k: nat) {
    && r in s.requests && s.requests[r].stage == Scanning && |s.requests[r].trail| == k <= |order|
    && s.requests[r].snap.Some? && s.requests[r].snap.value.order == order
  }

  /** Request `r` waits for the attempt of turn `k`, begun at `begun`. */
  ghost predicate InTurn(s: State, r: nat, order: seq<Channel>, k: nat, begun: Instant) {
    && r in s.requests && s.requests[r].stage == Attempting(begun) && |s.requests[r].trail| == k < |order|
    && s.requests[r].snap.Some? && s.requests[r].snap.value.order == order
  }

  lemma {:induction false} TurnBegins(cfg: Config, run: seq<Label>, r: nat, order: seq<Channel>, k: nat, begun: Instant)
    returns (next: seq<Label>)
    requires Legal(cfg, run) && AtTurn(Exec(cfg, run), r, order, k) && k < |order| && Exec(cfg, run).clock <= begun
    ensures Legal(cfg, next) && Exec(cfg, next).clock == begun && Exec(cfg, next).log == Exec(cfg, run).log
    ensures if ShouldRetry(order[k], begun) then InTurn(Exec(cfg, next), r, order, k, begun)
            else AtTurn(Exec(cfg, next), r, order, k + 1)
  {
    var wait := Wait(begun - Exec(cfg, run).clock);
    LegalAppend(cfg, run, wait);
    next := run + [wait];
    LegalAppend(cfg, next, Turn(r));
    next := next + [Turn(r)];
  }

  lemma {:induction false} AttemptEnds(cfg: Config, run: seq<Label>, r: nat, order: seq<Channel>, k: nat,
                                       ok: bool, ended: Instant)
    returns (next: seq<Label>)
    requires Legal(cfg, run) && Exec(cfg, run).clock <= ended
    requires InTurn(Exec(cfg, run), r, order, k, Exec(cfg, run).clock)
    ensures Legal(cfg, next) && Exec(cfg, next).clock == ended
    ensures Exec(cfg, next).log == Exec(cfg, run).log + [Mark(ByRequest(r, k), order[k].id, ok, ended)]
    ensures if ok then r in Exec(cfg, next).requests && Exec(cfg, next).requests[r].stage == Done(Via(order[k].id))
            else AtTurn(Exec(cfg, next), r, order, k + 1)
  {
    var wait := Wait(ended - Exec(cfg, run).clock);
    LegalAppend(cfg, run, wait);
    next := run + [wait];
    LegalAppend(cfg, next, AttemptResult(r, ok));
    next := next + [AttemptResult(r, ok)];
  }

  /** One turn of the loop as a piece of run. */
  lemma {:induction false} TurnIsRun(cfg: Config, run: seq<Label>, r: nat, order: seq<Channel>,
                                     attempts: nat -> Attempt, k: nat)
    returns (next: seq<Label>)
    requires Legal(cfg, run) && AtTurn(Exec(cfg, run), r, order, k) && k < |order|
    requires Exec(cfg, run).clock <= attempts(k).begun <= attempts(k).ended
    ensures Legal(cfg, next) && Exec(cfg, next).clock <= attempts(k).ended
    ensures Exec(cfg, next).log == Exec(cfg, run).log +
            if Eligible(order, attempts, k) then [OwnMark(r, order, attempts, k)] else []
    ensures if Eligible(order, attempts, k) && attempts(k).ok
            then r in Exec(cfg, next).requests && Exec(cfg, next).requests[r].stage == Done(Via(order[k].id))
            else AtTurn(Exec(cfg, next), r, order, k + 1)
  {
    next := TurnBegins(cfg, run, r, order, k, attempts(k).begun);
    if Eligible(order, attempts, k) {
      next := AttemptEnds(cfg, next, r, order, k, attempts(k).ok, attempts(k).ended);
    }
  }

  /** The first `w` turns, none of which wins. */
  lemma {:induction false} TurnsAreRun(cfg: Config, run: seq<Label>, r: nat, order: seq<Channel>,
                                       attempts: nat -> Attempt, w: nat)
    returns (next: seq<Label>)
    requires Legal(cfg, run) && AtTurn(Exec(cfg, run), r, order, 0) && w <= |order|
    requires OneByOne(attempts, Exec(cfg, run).clock)
    requires forall k: nat :: k < w ==> !(Eligible(order, attempts, k) && attempts(k).ok)
    ensures Legal(cfg, next) && AtTurn(Exec(cfg, next), r, order, w)
    ensures Exec(cfg, next).clock <= attempts(w).begun
    ensures Exec(cfg, next).log == Exec(cfg, run).log + Journal(r, order, attempts, w)
  {
    next := run;
    if w > 0 {
      next := TurnsAreRun(cfg, run, r, order, attempts, w - 1);
      next := TurnIsRun(cfg, next, r, order, attempts, w - 1);
      assert attempts(w - 1).during == [] && attempts(w - 1).ended <= attempts(w - 1 + 1).begun;
    }
  }

  /** The whole loop, up to the winning turn `w` or to the end. */
  lemma {:induction false} LoopIsRun(cfg: Config, run: seq<Label>, r: nat, order: seq<Channel>,
                                     attempts: nat -> Attempt, w: nat)
    returns (next: seq<Label>)
    requires Legal(cfg, run) && AtTurn(Exec(cfg, run), r, order, 0) && Picks(order, attempts, w)
    requires OneByOne(attempts, Exec(cfg, run).clock)
    ensures Legal(cfg, next)
    ensures Exec(cfg, next).log == Exec(cfg, run).log + Journal(r, order, attempts, Min(w + 1, |order|))
    ensures if w < |order| then r in Exec(cfg, next).requests && Exec(cfg, next).requests[r].stage == Done(Via(order[w].id))
            else AtTurn(Exec(cfg, next), r, order, |order|)
  {
    next := TurnsAreRun(cfg, run, r, order, attempts, w);
    if w < |order| {
      next := TurnIsRun(cfg, next, r, order, attempts, w);
      assert attempts(w).during == [];
    }
  }

  /** Every decision of the routing specification is the outcome of a run of the system. */
  lemma {:induction false} DecisionIsRun(cfg: Config, run: seq<Label>, r: nat, strategy: Strategy, digest: seq<byte>,
                                         directOk: bool, attempts: nat -> Attempt)
    returns (next: seq<Label>)
    requires Legal(cfg, run) && r !in Exec(cfg, run).requests && |digest| >= 8
    requires OneByOne(attempts, Exec(cfg, run).clock)
    ensures Legal(cfg, next) && r in Exec(cfg, next).requests && Exec(cfg, next).requests[r].stage.Done?
    ensures (Exec(cfg, next).requests[r].stage.winner, Exec(cfg, next).log) ==
            Route(r, cfg, strategy, digest, DirectTry([], directOk), attempts, Exec(cfg, run).log)
  {
    LegalAppend(cfg, run, Arrive(r));
    next := run + [Arrive(r)];
    var log := Exec(cfg, run).log;
    assert Before(cfg, DirectTry([], directOk), log) == log;
    if cfg.directFirst {
      LegalAppend(cfg, next, DirectResult(r, directOk));
      next := next + [DirectResult(r, directOk)];
    }
    if !(cfg.directFirst && directOk) {
      next := FallbackIsRun(cfg, next, r, strategy, digest, directOk, attempts);
    }
  }

  lemma {:induction false} SnapshotIsRun(cfg: Config, run: seq<Label>, r: nat, strategy: Strategy, digest: seq<byte>)
    returns (next: seq<Label>)
    requires Legal(cfg, run) && r in Exec(cfg, run).requests && Exec(cfg, run).requests[r].stage.Ready?
    requires Exec(cfg, run).requests[r].trail == [] && |digest| >= 8
    ensures Legal(cfg, next)
    ensures Exec(cfg, next).log == Exec(cfg, run).log && Exec(cfg, next).clock == Exec(cfg, run).clock
    ensures AtTurn(Exec(cfg, next), r, OrderOf(Replay(cfg.dsns, Exec(cfg, run).log), strategy, digest), 0)
  {
    var n := |cfg.dsns|;
    var start := if n == 0 then 0 else StartIndex(strategy, n, digest);
    Reachable(cfg, run);
    LegalAppend(cfg, run, TakeSnapshot(r, start));
    next := run + [TakeSnapshot(r, start)];
  }

  lemma {:induction false} FallbackIsRun(cfg: Config, run: seq<Label>, r: nat, strategy: Strategy, digest: seq<byte>,
                                         directOk: bool, attempts: nat -> Attempt)
    returns (next: seq<Label>)
    requires Legal(cfg, run) && r in Exec(cfg, run).requests && Exec(cfg, run).requests[r].stage.Ready?
    requires Exec(cfg, run).requests[r].trail == [] && |digest| >= 8 && !(cfg.directFirst && directOk)
    requires OneByOne(attempts, Exec(cfg, run).clock)
    ensures Legal(cfg, next) && r in Exec(cfg, next).requests && Exec(cfg, next).requests[r].stage.Done?
    ensures (Exec(cfg, next).requests[r].stage.winner, Exec(cfg, next).log) ==
            Route(r, cfg, strategy, digest, DirectTry([], directOk), attempts, Exec(cfg, run).log)
  {
    var log := Exec(cfg, run).log;
    var direct := DirectTry([], directOk);
    var order := OrderOf(Replay(cfg.dsns, log), strategy, digest);
    next := SnapshotIsRun(cfg, run, r, strategy, digest);
    assert Before(cfg, direct, log) == log;
    var w := FirstPick(order, attempts, 0);
    RouteSettles(r, cfg, strategy, digest, direct, attempts, log, w);
    next := LoopIsRun(cfg, next, r, order, attempts, w);
    if w == |order| {
      next := LastStepsAreRun(cfg, next, r, order, directOk);
      assert Exec(cfg, next).log + [] == Exec(cfg, next).log;
    }
  }

  lemma {:induction false} LastStepsAreRun(cfg: Config, run: seq<Label>, r: nat, order: seq<Channel>, directOk: bool)
    returns (next: seq<Label>)
    requires Legal(cfg, run) && AtTurn(Exec(cfg, run), r, order, |order|)
    ensures Legal(cfg, next) && r in Exec(cfg, next).requests
    ensures Exec(cfg, next).log == Exec(cfg, run).log
    ensures Exec(cfg, next).requests[r].stage == Done(if !cfg.directFirst && directOk then Direct else NoUpstream)
  {
    LegalAppend(cfg, run, Turn(r));
    next := run + [Turn(r)];
    if !cfg.directFirst {
      LegalAppend(cfg, next, DirectResult(r, directOk));
      next := next + [DirectResult(r, directOk)];
    }
  }
}
