/** Requests, health passes and the clock, interleaved step by step
    (src/proxy.rs, src/upstream/mod.rs, src/upstream/health.rs).

    Every access of the shared vector happens under one lock acquisition, so it is
    one step here. Between two steps of a task any steps of other tasks may occur. */
module ProxySystem {
  import opened Prelude
  import opened Upstream

  datatype Config = Config(dsns: seq<Dsn>, directFirst: bool)

  datatype Winner = Direct | Via(id: nat) | NoUpstream | Gone

  /** Where a request stands: `Ready` is about to take its snapshot, `Scanning` is at the
      head of the fallback loop, `Attempting` waits for a channel. */
  datatype Stage =
    | FirstDirect
    | Ready
    | Scanning
    | Attempting(begun: Instant)
    | LastDirect
    | Done(winner: Winner)

  /** One turn of the fallback loop. `pos` is the log position of the mark it made. */
  datatype Visit = Skipped(at: Instant) | Tried(begun: Instant, ok: bool, pos: nat)

  /** The rotated clone of the vector, and how many marks had been made when it was taken. */
  datatype Snapshot = Snapshot(start: nat, seen: nat, order: seq<Channel>)

  datatype Request = Request(stage: Stage, snap: Option<Snapshot>, trail: seq<Visit>, direct: seq<bool>)

  /** A health pass: probes still out, probes that answered (with the position of
      their mark), probes whose task panicked. */
  datatype Pass = Pass(pending: set<nat>, heard: map<nat, nat>, lost: set<nat>)

  datatype State = State(
    clock: Instant, live: seq<Channel>, log: seq<Mark>, requests: map<nat, Request>, passes: seq<Pass>)

  datatype Label =
    | Wait(d: nat)
    | Arrive(r: nat)
    | DirectResult(r: nat, ok: bool)
    | TakeSnapshot(r: nat, start: nat)
    | Turn(r: nat)
    | AttemptResult(r: nat, ok: bool)
    | Abandon(r: nat)
    | PassStart
    | ProbeResult(id: nat, ok: bool)
    | ProbeLost(id: nat)

  function Init(cfg: Config): State {
    State(0, Initial(cfg.dsns), [], map[], [])
  }

  predicate Idle(s: State) {
    s.passes == [] || s.passes[|s.passes| - 1].pending == {}
  }

  predicate Enabled(cfg: Config, s: State, l: Label) {
    match l
    case Wait(_) => true
    case Arrive(r) => r !in s.requests
    case DirectResult(r, _) => r in s.requests && (s.requests[r].stage.FirstDirect? || s.requests[r].stage.LastDirect?)
    case TakeSnapshot(r, start) =>
      r in s.requests && s.requests[r].stage.Ready? && (start < |cfg.dsns| || start == 0) && |s.live| == |cfg.dsns|
    case Turn(r) => r in s.requests && s.requests[r].stage.Scanning? && s.requests[r].snap.Some?
    case AttemptResult(r, _) => r in s.requests && InAttempt(s.requests[r])
    case Abandon(r) => r in s.requests && !s.requests[r].stage.Done?
    case PassStart => Idle(s)
    case ProbeResult(id, _) => s.passes != [] && id in s.passes[|s.passes| - 1].pending
    case ProbeLost(id) => s.passes != [] && id in s.passes[|s.passes| - 1].pending
  }

  function Ids(n: nat): (ids: set<nat>)
    ensures forall i: nat :: i in ids <==> i < n
  {
    if n == 0 then {} else Ids(n - 1) + {n - 1}
  }

  function WithMark(s: State, m: Mark): State {
    s.(live := Applied(s.live, m), log := s.log + [m])
  }

  function AfterTurn(cfg: Config, clock: Instant, q: Request): Request
    requires q.snap.Some?
  {
    var k := |q.trail|;
    var order := q.snap.value.order;
    if k < |order| then
      if ShouldRetry(order[k], clock) then q.(stage := Attempting(clock))
      else q.(trail := q.trail + [Skipped(clock)])
    else q.(stage := if cfg.directFirst then Done(NoUpstream) else LastDirect)
  }

  function AfterDirect(q: Request, ok: bool): Request {
    q.(direct := q.direct + [ok],
       stage := if ok then Done(Direct) else if q.stage.FirstDirect? then Ready else Done(NoUpstream))
  }

  predicate InAttempt(q: Request) {
    q.stage.Attempting? && q.snap.Some? && |q.trail| < |q.snap.value.order|
  }

  /** The mark that ends an attempt of request `r`. */
  function AttemptMark(q: Request, r: nat, ok: bool, now: Instant): Mark
    requires InAttempt(q)
  {
    Mark(ByRequest(r, |q.trail|), q.snap.value.order[|q.trail|].id, ok, now)
  }

  function AfterAttempt(q: Request, ok: bool, pos: nat): Request
    requires InAttempt(q)
  {
    q.(trail := q.trail + [Tried(q.stage.begun, ok, pos)],
       stage := if ok then Done(Via(q.snap.value.order[|q.trail|].id)) else Scanning)
  }

  function After(cfg: Config, s: State, l: Label): State
    requires Enabled(cfg, s, l)
  {
    match l
    case Wait(d) => s.(clock := s.clock + d)
    case Arrive(r) =>
      s.(requests := s.requests[r := Request(if cfg.directFirst then FirstDirect else Ready, None, [], [])])
    case DirectResult(r, ok) => s.(requests := s.requests[r := AfterDirect(s.requests[r], ok)])
    case TakeSnapshot(r, start) =>
      var snap := Snapshot(start, |s.log|, Rotated(s.live, start));
      s.(requests := s.requests[r := s.requests[r].(stage := Scanning, snap := Some(snap))])
    case Turn(r) => s.(requests := s.requests[r := AfterTurn(cfg, s.clock, s.requests[r])])
    case AttemptResult(r, ok) =>
      var q := s.requests[r];
      WithMark(s, AttemptMark(q, r, ok, s.clock)).(requests := s.requests[r := AfterAttempt(q, ok, |s.log|)])
    case Abandon(r) => s.(requests := s.requests[r := s.requests[r].(stage := Done(Gone))])
    case PassStart => s.(passes := s.passes + [Pass(Ids(|s.live|), map[], {})])
    case ProbeResult(id, ok) =>
      var n := |s.passes| - 1;
      var p := s.passes[n].(pending := s.passes[n].pending - {id}, heard := s.passes[n].heard[id := |s.log|]);
      WithMark(s, Mark(ByPass(n), id, ok, s.clock)).(passes := s.passes[n := p])
    case ProbeLost(id) =>
      var n := |s.passes| - 1;
      var p := s.passes[n].(pending := s.passes[n].pending - {id}, lost := s.passes[n].lost + {id});
      s.(passes := s.passes[n := p])
  }

  /** A run is a sequence of labels, each enabled where it occurs. */
  ghost predicate Legal(cfg: Config, run: seq<Label>)
    decreases |run|, 0
  {
    run == [] ||
    (Legal(cfg, run[..|run| - 1]) && Enabled(cfg, Exec(cfg, run[..|run| - 1]), run[|run| - 1]))
  }

  ghost function Exec(cfg: Config, run: seq<Label>): State
    requires Legal(cfg, run)
    decreases |run|, 1
  {
    if run == [] then Init(cfg)
    else After(cfg, Exec(cfg, run[..|run| - 1]), run[|run| - 1])
  }

  lemma {:induction false} LegalAppend(cfg: Config, run: seq<Label>, l: Label)
    requires Legal(cfg, run) && Enabled(cfg, Exec(cfg, run), l)
    ensures Legal(cfg, run + [l])
    ensures Exec(cfg, run + [l]) == After(cfg, Exec(cfg, run), l)
  {
  }

  // ---------------------------------------------------------------------
  // The invariant
  // ---------------------------------------------------------------------

  ghost predicate Ledger(cfg: Config, s: State) {
    && s.live == Replay(cfg.dsns, s.log)
    && (forall k :: 0 <= k < |s.log| ==> s.log[k].at <= s.clock)
    && (forall j, k :: 0 <= j < k < |s.log| ==> s.log[j].at <= s.log[k].at)
  }

  /** Direct is tried on one side only, at most once, and `stage` says how it went. */
  ghost predicate DirectInv(cfg: Config, q: Request) {
    match q.stage
    case FirstDirect => cfg.directFirst && q.direct == []
    case LastDirect => !cfg.directFirst && q.direct == []
    case Done(Direct) =>
      && q.direct == [true] && (q.snap.Some? <==> !cfg.directFirst)
      && (q.snap.Some? ==> |q.trail| == |q.snap.value.order|)
    case Done(NoUpstream) => q.direct == [false]
    case Done(Gone) => q.direct == [] || q.direct == [false]
    case _ => q.direct == (if cfg.directFirst then [false] else [])
  }

  /** A turn looked at channel `v` of the order, and did what its snapshot allowed. */
  ghost predicate VisitInv(log: seq<Mark>, clock: Instant, r: nat, snap: Snapshot, v: nat, visit: Visit)
    requires v < |snap.order|
  {
    match visit
    case Skipped(at) => at <= clock && !ShouldRetry(snap.order[v], at)
    case Tried(begun, ok, pos) =>
      && ShouldRetry(snap.order[v], begun)
      && snap.seen <= pos < |log|
      && log[pos].actor == ByRequest(r, v)
      && log[pos].id == snap.order[v].id
      && log[pos].ok == ok
      && begun <= log[pos].at
  }

  ghost predicate SnapshotInv(cfg: Config, log: seq<Mark>, snap: Snapshot) {
    && snap.seen <= |log|
    && (snap.start < |cfg.dsns| || snap.start == 0)
    && snap.order == Rotated(Replay(cfg.dsns, log[..snap.seen]), snap.start)
  }

  ghost predicate StageInv(q: Request, clock: Instant) {
    match q.stage
    case FirstDirect => q.snap.None?
    case Ready => q.snap.None?
    case Scanning => q.snap.Some?
    case Attempting(begun) =>
      && q.snap.Some? && begun <= clock
      && |q.trail| < |q.snap.value.order| && ShouldRetry(q.snap.value.order[|q.trail|], begun)
    case LastDirect => q.snap.Some? && |q.trail| == |q.snap.value.order|
    case Done(NoUpstream) => q.snap.Some? && |q.trail| == |q.snap.value.order|
    case Done(Via(id)) => q.snap.Some? && |q.trail| > 0 && q.trail[|q.trail| - 1].Tried? && q.trail[|q.trail| - 1].ok
    case Done(_) => true
  }

  ghost predicate TrailInv(log: seq<Mark>, clock: Instant, r: nat, q: Request)
    requires q.snap.Some?
  {
    var order := q.snap.value.order;
    && |q.trail| <= |order|
    && (forall v :: 0 <= v < |q.trail| ==> VisitInv(log, clock, r, q.snap.value, v, q.trail[v]))
    && (forall v :: 0 <= v < |q.trail| && q.trail[v].Tried? && q.trail[v].ok ==>
          v == |q.trail| - 1 && q.stage == Done(Via(order[v].id)))
    && (forall v, w :: 0 <= v < w < |q.trail| && q.trail[v].Tried? && q.trail[w].Tried? ==>
          q.trail[v].pos < q.trail[w].pos)
  }

  ghost predicate RequestInv(cfg: Config, log: seq<Mark>, clock: Instant, r: nat, q: Request) {
    && DirectInv(cfg, q)
    && StageInv(q, clock)
    && (q.snap.None? ==> q.trail == [])
    && (q.snap.Some? ==> SnapshotInv(cfg, log, q.snap.value) && TrailInv(log, clock, r, q))
  }

  /** Every mark in the log is accounted for by exactly one visit or one probe. */
  ghost predicate Owned(s: State, k: nat)
    requires k < |s.log|
  {
    match s.log[k].actor
    case ByRequest(r, v) =>
      && r in s.requests && v < |s.requests[r].trail|
      && s.requests[r].trail[v].Tried? && s.requests[r].trail[v].pos == k
    case ByPass(p) =>
      p < |s.passes| && s.log[k].id in s.passes[p].heard && s.passes[p].heard[s.log[k].id] == k
  }

  ghost predicate PassInv(cfg: Config, log: seq<Mark>, n: nat, p: Pass) {
    && p.pending !! p.heard.Keys && p.pending !! p.lost && p.heard.Keys !! p.lost
    && p.pending + p.heard.Keys + p.lost == Ids(|cfg.dsns|)
    && (forall i :: i in p.heard ==>
          p.heard[i] < |log| && log[p.heard[i]].actor == ByPass(n) && log[p.heard[i]].id == i)
  }

  ghost predicate Inv(cfg: Config, s: State) {
    && Ledger(cfg, s)
    && (forall r :: r in s.requests ==> RequestInv(cfg, s.log, s.clock, r, s.requests[r]))
    && (forall k :: 0 <= k < |s.log| ==> Owned(s, k))
    && (forall n :: 0 <= n < |s.passes| ==> PassInv(cfg, s.log, n, s.passes[n]))
    && (forall n :: 0 <= n < |s.passes| - 1 ==> s.passes[n].pending == {})
  }

  /** What is known of a request survives other tasks' marks and the passing of time. */
  lemma {:induction false} RequestFrame(cfg: Config, log: seq<Mark>, clock: Instant, log': seq<Mark>, clock': Instant, r: nat, q: Request)
    requires RequestInv(cfg, log, clock, r, q)
    requires log <= log' && clock <= clock'
    ensures RequestInv(cfg, log', clock', r, q)
  {
    if q.snap.Some? {
      assert log'[..q.snap.value.seen] == log[..q.snap.value.seen];
      forall v | 0 <= v < |q.trail|
        ensures VisitInv(log', clock', r, q.snap.value, v, q.trail[v])
      {
        assert VisitInv(log, clock, r, q.snap.value, v, q.trail[v]);
      }
    }
  }

  lemma {:induction false} RequestsFrame(cfg: Config, s: State, s': State, r: nat)
    requires Inv(cfg, s)
    requires s.log <= s'.log && s.clock <= s'.clock
    requires forall x :: x in s'.requests && x != r ==> x in s.requests && s'.requests[x] == s.requests[x]
    requires r in s'.requests ==> RequestInv(cfg, s'.log, s'.clock, r, s'.requests[r])
    ensures forall x :: x in s'.requests ==> RequestInv(cfg, s'.log, s'.clock, x, s'.requests[x])
  {
    forall x | x in s'.requests && x != r
      ensures RequestInv(cfg, s'.log, s'.clock, x, s'.requests[x])
    {
      RequestFrame(cfg, s.log, s.clock, s'.log, s'.clock, x, s.requests[x]);
    }
  }

  lemma {:induction false} PassesFrame(cfg: Config, s: State, s': State)
    requires Inv(cfg, s) && s.log <= s'.log
    ensures forall n :: 0 <= n < |s.passes| ==> PassInv(cfg, s'.log, n, s.passes[n])
  {
  }

  /** The invariant of a next state that leaves the passes alone, part by part. */
  lemma {:induction false} InvFrom(cfg: Config, s: State, s': State)
    requires Inv(cfg, s) && s.log <= s'.log && s'.passes == s.passes
    requires Ledger(cfg, s')
    requires forall r :: r in s'.requests ==> RequestInv(cfg, s'.log, s'.clock, r, s'.requests[r])
    requires forall k :: 0 <= k < |s'.log| ==> Owned(s', k)
    ensures Inv(cfg, s')
  {
    PassesFrame(cfg, s, s');
  }

  lemma {:induction false} InitInv(cfg: Config)
    ensures Inv(cfg, Init(cfg))
  {
  }

  /** Steps of a request that make no mark. */
  predicate Quiet(l: Label) {
    l.Arrive? || l.DirectResult? || l.TakeSnapshot? || l.Turn? || l.Abandon?
  }

  lemma {:induction false} QuietRequestStep(cfg: Config, s: State, l: Label)
    requires Inv(cfg, s) && Enabled(cfg, s, l) && Quiet(l)
    ensures Inv(cfg, After(cfg, s, l))
  {
    var s' := After(cfg, s, l);
    QuietFrame(cfg, s, l);
    OwnersKept(s, s');
    QuietRequestInv(cfg, s, l);
    RequestsFrame(cfg, s, s', l.r);
    InvFrom(cfg, s, s');
  }

  lemma {:induction false} QuietFrame(cfg: Config, s: State, l: Label)
    requires Enabled(cfg, s, l) && Quiet(l)
    ensures var s' := After(cfg, s, l);
            && s'.clock == s.clock && s'.live == s.live && s'.log == s.log && s'.passes == s.passes
            && l.r in s'.requests
            && (forall x :: x in s'.requests && x != l.r ==> x in s.requests && s'.requests[x] == s.requests[x])
            && TrailsGrow(s, s')
  {
  }

  ghost predicate TrailsGrow(s: State, s': State) {
    forall x :: x in s.requests ==> x in s'.requests && s.requests[x].trail <= s'.requests[x].trail
  }

  /** A mark keeps its owner when trails only grow and the passes stay. */
  lemma {:induction false} OwnersKept(s: State, s': State)
    requires forall k :: 0 <= k < |s.log| ==> Owned(s, k)
    requires s'.log == s.log && s'.passes == s.passes && TrailsGrow(s, s')
    ensures forall k :: 0 <= k < |s'.log| ==> Owned(s', k)
  {
    forall k | 0 <= k < |s'.log|
      ensures Owned(s', k)
    {
      assert Owned(s, k);
    }
  }

  lemma {:induction false} QuietRequestInv(cfg: Config, s: State, l: Label)
    requires Inv(cfg, s) && Enabled(cfg, s, l)
    requires Quiet(l)
    ensures var s' := After(cfg, s, l);
            RequestInv(cfg, s'.log, s'.clock, l.r, s'.requests[l.r])
  {
    if l.TakeSnapshot? {
      assert s.log[..|s.log|] == s.log;
    } else if l.Turn? {
      TurnInv(cfg, s.log, s.clock, l.r, s.requests[l.r]);
    }
  }

  lemma {:induction false} TurnInv(cfg: Config, log: seq<Mark>, clock: Instant, r: nat, q: Request)
    requires RequestInv(cfg, log, clock, r, q) && q.stage.Scanning?
    ensures RequestInv(cfg, log, clock, r, AfterTurn(cfg, clock, q))
  {
    var q' := AfterTurn(cfg, clock, q);
    NoneWonYet(log, clock, r, q);
    if q'.trail == q.trail {
      SameTrail(log, clock, r, q, q');
    } else {
      SkipTrail(log, clock, r, q, q');
    }
  }

  lemma {:induction false} NoneWonYet(log: seq<Mark>, clock: Instant, r: nat, q: Request)
    requires q.snap.Some? && TrailInv(log, clock, r, q) && !q.stage.Done?
    ensures forall v :: 0 <= v < |q.trail| && q.trail[v].Tried? ==> !q.trail[v].ok
  {
  }

  lemma {:induction false} SameTrail(log: seq<Mark>, clock: Instant, r: nat, q: Request, q': Request)
    requires q.snap.Some? && TrailInv(log, clock, r, q)
    requires forall v :: 0 <= v < |q.trail| && q.trail[v].Tried? ==> !q.trail[v].ok
    requires q'.snap == q.snap && q'.trail == q.trail
    ensures TrailInv(log, clock, r, q')
  {
  }

  lemma {:induction false} SkipTrail(log: seq<Mark>, clock: Instant, r: nat, q: Request, q': Request)
    requires q.snap.Some? && TrailInv(log, clock, r, q) && |q.trail| < |q.snap.value.order|
    requires forall v :: 0 <= v < |q.trail| && q.trail[v].Tried? ==> !q.trail[v].ok
    requires q'.snap == q.snap && q'.trail == q.trail + [Skipped(clock)]
    requires !ShouldRetry(q.snap.value.order[|q.trail|], clock)
    ensures TrailInv(log, clock, r, q')
  {
  }

  lemma {:induction false} LedgerStep(cfg: Config, s: State, m: Mark, s': State)
    requires Ledger(cfg, s) && m.at == s.clock
    requires s'.live == Applied(s.live, m) && s'.log == s.log + [m] && s'.clock == s.clock
    ensures Ledger(cfg, s')
  {
    ReplayAppend(cfg.dsns, s.log, m);
  }

  lemma {:induction false} AttemptVisits(cfg: Config, log: seq<Mark>, clock: Instant, r: nat, q: Request, ok: bool)
    requires RequestInv(cfg, log, clock, r, q) && InAttempt(q)
    ensures var trail := AfterAttempt(q, ok, |log|).trail;
            var log' := log + [AttemptMark(q, r, ok, clock)];
            && (forall v :: 0 <= v < |trail| ==> VisitInv(log', clock, r, q.snap.value, v, trail[v]))
            && (forall v :: 0 <= v < |q.trail| && q.trail[v].Tried? ==> q.trail[v].pos < |log|)
  {
  }

  /** What the end of an attempt leaves alone. */
  lemma {:induction false} AttemptFrame(cfg: Config, s: State, r: nat, ok: bool)
    requires Enabled(cfg, s, AttemptResult(r, ok))
    ensures var s' := After(cfg, s, AttemptResult(r, ok));
            var m := AttemptMark(s.requests[r], r, ok, s.clock);
            && s'.clock == s.clock && s'.passes == s.passes
            && s'.log == s.log + [m] && s'.live == Applied(s.live, m)
            && s'.requests == s.requests[r := AfterAttempt(s.requests[r], ok, |s.log|)]
  {
  }

  lemma {:induction false} AttemptOwned(cfg: Config, s: State, r: nat, ok: bool, k: nat)
    requires Enabled(cfg, s, AttemptResult(r, ok)) && k <= |s.log| && (k < |s.log| ==> Owned(s, k))
    ensures var s' := After(cfg, s, AttemptResult(r, ok));
            |s'.log| == |s.log| + 1 && Owned(s', k)
  {
  }

  /** The request after its attempt. */
  lemma {:induction false} AttemptInv(cfg: Config, log: seq<Mark>, clock: Instant, r: nat, q: Request, ok: bool)
    requires RequestInv(cfg, log, clock, r, q) && InAttempt(q)
    ensures RequestInv(cfg, log + [AttemptMark(q, r, ok, clock)], clock, r, AfterAttempt(q, ok, |log|))
  {
    AttemptVisits(cfg, log, clock, r, q, ok);
    assert (log + [AttemptMark(q, r, ok, clock)])[..q.snap.value.seen] == log[..q.snap.value.seen];
    NoneWonYet(log, clock, r, q);
  }

  lemma {:induction false} AttemptStep(cfg: Config, s: State, r: nat, ok: bool)
    requires Inv(cfg, s) && Enabled(cfg, s, AttemptResult(r, ok))
    ensures Inv(cfg, After(cfg, s, AttemptResult(r, ok)))
  {
    var s' := After(cfg, s, AttemptResult(r, ok));
    AttemptFrame(cfg, s, r, ok);
    LedgerStep(cfg, s, AttemptMark(s.requests[r], r, ok, s.clock), s');
    AttemptInv(cfg, s.log, s.clock, r, s.requests[r], ok);
    RequestsFrame(cfg, s, s', r);
    forall k | 0 <= k < |s'.log|
      ensures Owned(s', k)
    {
      AttemptOwned(cfg, s, r, ok, k);
    }
    InvFrom(cfg, s, s');
  }

  /** What a step of a pass leaves alone. */
  lemma {:induction false} PassFrame(cfg: Config, s: State, l: Label)
    requires Enabled(cfg, s, l)
    requires l.PassStart? || l.ProbeResult? || l.ProbeLost?
    ensures var s' := After(cfg, s, l);
            && s'.clock == s.clock && s'.requests == s.requests && s.log <= s'.log
            && (!l.ProbeResult? ==> s'.live == s.live && s'.log == s.log)
            && (l.ProbeResult? ==>
                  var m := Mark(ByPass(|s.passes| - 1), l.id, l.ok, s.clock);
                  s'.live == Applied(s.live, m) && s'.log == s.log + [m])
  {
  }

  lemma {:induction false} PassStep(cfg: Config, s: State, l: Label)
    requires Inv(cfg, s) && Enabled(cfg, s, l)
    requires l.PassStart? || l.ProbeResult? || l.ProbeLost?
    ensures Inv(cfg, After(cfg, s, l))
  {
    var s' := After(cfg, s, l);
    PassFrame(cfg, s, l);
    if l.ProbeResult? {
      LedgerStep(cfg, s, Mark(ByPass(|s.passes| - 1), l.id, l.ok, s.clock), s');
    }
    RequestsKept(cfg, s, s');
    PassOwned(cfg, s, l);
    PassInvStep(cfg, s, l);
  }

  lemma {:induction false} RequestsKept(cfg: Config, s: State, s': State)
    requires Inv(cfg, s) && s'.requests == s.requests && s.log <= s'.log && s.clock <= s'.clock
    ensures forall r :: r in s'.requests ==> RequestInv(cfg, s'.log, s'.clock, r, s'.requests[r])
  {
    forall r | r in s'.requests
      ensures RequestInv(cfg, s'.log, s'.clock, r, s'.requests[r])
    {
      RequestFrame(cfg, s.log, s.clock, s'.log, s'.clock, r, s.requests[r]);
    }
  }

  lemma {:induction false} PassOwned(cfg: Config, s: State, l: Label)
    requires Inv(cfg, s) && Enabled(cfg, s, l)
    requires l.PassStart? || l.ProbeResult? || l.ProbeLost?
    ensures var s' := After(cfg, s, l); forall k :: 0 <= k < |s'.log| ==> Owned(s', k)
  {
    var s' := After(cfg, s, l);
    if l.ProbeResult? {
      assert PassInv(cfg, s.log, |s.passes| - 1, s.passes[|s.passes| - 1]);
    }
    PassesGrow(cfg, s, l);
    forall k | 0 <= k < |s'.log|
      ensures Owned(s', k)
    {
      if k < |s.log| {
        PassOwnerKept(s, s', k);
      }
    }
  }

  /** Answers already heard stay where they are. */
  ghost predicate HeardGrows(s: State, s': State) {
    forall n :: 0 <= n < |s.passes| ==>
      n < |s'.passes| && forall i :: i in s.passes[n].heard ==> i in s'.passes[n].heard && s'.passes[n].heard[i] == s.passes[n].heard[i]
  }

  lemma {:induction false} PassesGrow(cfg: Config, s: State, l: Label)
    requires Enabled(cfg, s, l)
    requires l.PassStart? || l.ProbeResult? || l.ProbeLost?
    requires l.ProbeResult? ==> l.id !in s.passes[|s.passes| - 1].heard
    ensures var s' := After(cfg, s, l);
            && HeardGrows(s, s') && s.log <= s'.log && s'.requests == s.requests
            && |s'.log| <= |s.log| + 1 && (|s'.log| > |s.log| ==> Owned(s', |s.log|))
  {
  }

  lemma {:induction false} PassOwnerKept(s: State, s': State, k: nat)
    requires k < |s.log| && Owned(s, k)
    requires s.log <= s'.log && s'.requests == s.requests && HeardGrows(s, s')
    ensures Owned(s', k)
  {
  }

  lemma {:induction false} PassInvStep(cfg: Config, s: State, l: Label)
    requires Inv(cfg, s) && Enabled(cfg, s, l)
    requires l.PassStart? || l.ProbeResult? || l.ProbeLost?
    ensures var s' := After(cfg, s, l);
            && (forall n :: 0 <= n < |s'.passes| ==> PassInv(cfg, s'.log, n, s'.passes[n]))
            && (forall n :: 0 <= n < |s'.passes| - 1 ==> s'.passes[n].pending == {})
  {
    var s' := After(cfg, s, l);
    PassesFrame(cfg, s, s');
    if l.PassStart? {
      NewPass(cfg, s.log, |s.passes|);
    } else {
      var last := |s.passes| - 1;
      LastPassStep(cfg, s, l);
      forall n | 0 <= n < |s'.passes|
        ensures PassInv(cfg, s'.log, n, s'.passes[n])
      {
        assert n != last ==> s'.passes[n] == s.passes[n];
      }
    }
  }

  lemma {:induction false} NewPass(cfg: Config, log: seq<Mark>, n: nat)
    ensures PassInv(cfg, log, n, Pass(Ids(|cfg.dsns|), map[], {}))
  {
  }

  lemma {:induction false} LastPassStep(cfg: Config, s: State, l: Label)
    requires Inv(cfg, s) && Enabled(cfg, s, l) && (l.ProbeResult? || l.ProbeLost?)
    ensures var s' := After(cfg, s, l);
            |s'.passes| == |s.passes| && PassInv(cfg, s'.log, |s.passes| - 1, s'.passes[|s.passes| - 1])
  {
    var last := |s.passes| - 1;
    assert PassInv(cfg, s.log, last, s.passes[last]);
    if l.ProbeResult? {
      ProbeHeard(cfg, s.log, last, s.passes[last], l.id, Mark(ByPass(last), l.id, l.ok, s.clock));
    } else {
      ProbeGone(cfg, s.log, last, s.passes[last], l.id);
    }
  }

  lemma {:induction false} ProbeHeard(cfg: Config, log: seq<Mark>, n: nat, p: Pass, id: nat, m: Mark)
    requires PassInv(cfg, log, n, p) && id in p.pending && m.actor == ByPass(n) && m.id == id
    ensures PassInv(cfg, log + [m], n, p.(pending := p.pending - {id}, heard := p.heard[id := |log|]))
  {
  }

  lemma {:induction false} ProbeGone(cfg: Config, log: seq<Mark>, n: nat, p: Pass, id: nat)
    requires PassInv(cfg, log, n, p) && id in p.pending
    ensures PassInv(cfg, log, n, p.(pending := p.pending - {id}, lost := p.lost + {id}))
  {
  }

  lemma {:induction false} WaitStep(cfg: Config, s: State, d: nat)
    requires Inv(cfg, s)
    ensures Inv(cfg, After(cfg, s, Wait(d)))
  {
    var s' := After(cfg, s, Wait(d));
    RequestsKept(cfg, s, s');
    OwnersKept(s, s');
    InvFrom(cfg, s, s');
  }

  lemma {:induction false} StepInv(cfg: Config, s: State, l: Label)
    requires Inv(cfg, s) && Enabled(cfg, s, l)
    ensures Inv(cfg, After(cfg, s, l))
  {
    match l
    case Wait(d) => WaitStep(cfg, s, d);
    case AttemptResult(r, ok) => AttemptStep(cfg, s, r, ok);
    case PassStart => PassStep(cfg, s, l);
    case ProbeResult(_, _) => PassStep(cfg, s, l);
    case ProbeLost(_) => PassStep(cfg, s, l);
    case _ => QuietRequestStep(cfg, s, l);
  }

  /** Every state of every run, under any interleaving, satisfies the invariant. */
  lemma {:induction false} Reachable(cfg: Config, run: seq<Label>)
    requires Legal(cfg, run)
    ensures Inv(cfg, Exec(cfg, run))
  {
    if run == [] {
      InitInv(cfg);
    } else {
      Reachable(cfg, run[..|run| - 1]);
      StepInv(cfg, Exec(cfg, run[..|run| - 1]), run[|run| - 1]);
    }
  }
}
