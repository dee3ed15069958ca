/** Interleavings of connecting tasks, reaper ticks and the clock over the SSH pool
    (src/upstream/ssh.rs). */
module SshPoolRuns {
  import opened Prelude
  import opened Upstream
  import opened SshPool

  /** A task: `seen` counts the insertions made before its lookup found nothing to reuse. */
  datatype Task =
    | Dialing(seen: nat, key: string)
    | Connected(seen: nat, key: string, session: nat)
    | Ready(seen: nat, key: string, session: nat)
    | Holding(session: nat, key: string)
    | Finished

  /** `total` sessions have been opened, numbered from 0; `keys` tells for which DSN each was opened.
      `handed` logs each hand-out of a session. `lastTick` is the reaper's latest tick; the
      first comes at start-up. */
  datatype State = State(
    clock: Instant, lastTick: Instant, pool: Pool, tasks: map<nat, Task>,
    total: nat, keys: seq<string>, authenticated: set<nat>, handed: seq<(nat, Instant)>)

  datatype Label =
    | Wait(d: nat)
    | Look(task: nat, key: string, closed: bool)
    | Connect(task: nat)
    | Authenticate(task: nat, ok: bool)
    | Give(task: nat)
    | Store(task: nat)
    | Tick(closed: bool)

  function Init(): State {
    State(0, 0, Pool(None, [], map[]), map[], 0, [], {}, [])
  }

  /** The clock does not pass the reaper's next tick. `Give` is an error return, or a dropped task. */
  predicate Enabled(s: State, l: Label) {
    match l
    case Wait(d) => s.clock + d <= s.lastTick + Seconds(REAP_PERIOD)
    case Look(t, _, _) => t !in s.tasks
    case Connect(t) => t in s.tasks && s.tasks[t].Dialing?
    case Authenticate(t, _) => t in s.tasks && s.tasks[t].Connected?
    case Give(t) => t in s.tasks && !s.tasks[t].Holding?
    case Store(t) => t in s.tasks && s.tasks[t].Ready?
    case Tick(_) => true
  }

  function WithTask(s: State, t: nat, task: Task): State {
    s.(tasks := s.tasks[t := task])
  }

  function After(s: State, l: Label): State
    requires Enabled(s, l)
  {
    match l
    case Wait(d) => s.(clock := s.clock + d)
    case Look(t, key, closed) =>
      var (handle, pool) := AfterLookup(s.pool, closed, s.clock);
      if handle.Some? then
        WithTask(s.(pool := pool, handed := s.handed + [(handle.value, s.clock)]), t, Holding(handle.value, key))
      else WithTask(s.(pool := pool), t, Dialing(|s.pool.inserted|, key))
    case Connect(t) =>
      var task := s.tasks[t];
      WithTask(s.(total := s.total + 1, keys := s.keys + [task.key]), t, Connected(task.seen, task.key, s.total))
    case Authenticate(t, ok) =>
      var task := s.tasks[t];
      if ok then
        WithTask(s.(authenticated := s.authenticated + {task.session}), t, Ready(task.seen, task.key, task.session))
      else WithTask(s, t, Finished)
    case Give(t) => WithTask(s, t, Finished)
    case Store(t) =>
      var task := s.tasks[t];
      WithTask(s.(pool := AfterInsert(s.pool, task.session, task.key, s.clock),
                  handed := s.handed + [(task.session, s.clock)]), t, Holding(task.session, task.key))
    case Tick(closed) => s.(pool := AfterReap(s.pool, closed, s.clock), lastTick := s.clock)
  }

  ghost predicate Legal(run: seq<Label>)
    decreases |run|, 0
  {
    run == [] || (Legal(run[..|run| - 1]) && Enabled(Exec(run[..|run| - 1]), run[|run| - 1]))
  }

  ghost function Exec(run: seq<Label>): State
    requires Legal(run)
    decreases |run|, 1
  {
    if run == [] then Init() else After(Exec(run[..|run| - 1]), run[|run| - 1])
  }

  // ---------------------------------------------------------------------
  // The invariant
  // ---------------------------------------------------------------------

  /** The ledger: each inserted session is in the slot or has exactly one fate. The occupant is
      the session inserted last. */
  ghost predicate Ledger(p: Pool) {
    && (forall j, k :: 0 <= j < k < |p.inserted| ==> p.inserted[j] != p.inserted[k])
    && (p.slot.Some? ==> |p.inserted| > 0 && p.slot.value.session == p.inserted[|p.inserted| - 1])
    && (forall x :: x in p.fates ==> x in p.inserted)
    && (forall x :: x in p.inserted ==> (x in p.fates <==> !(p.slot.Some? && p.slot.value.session == x)))
    && |p.inserted| == |p.fates| + (if p.slot.Some? then 1 else 0)
  }

  ghost predicate HasSession(task: Task) {
    task.Connected? || task.Ready?
  }

  ghost predicate TaskInv(s: State, t: nat)
    requires t in s.tasks
  {
    var task := s.tasks[t];
    && (task.Dialing? || HasSession(task) ==>
          task.seen <= |s.pool.inserted| && (s.pool.slot.Some? ==> task.seen < |s.pool.inserted|))
    && (HasSession(task) ==>
          task.session < |s.keys| && s.keys[task.session] == task.key && task.session !in s.pool.inserted)
    && (task.Ready? ==> task.session in s.authenticated)
  }

  ghost predicate SessionsInv(s: State) {
    && |s.keys| == s.total
    && (forall x :: x in s.authenticated ==> x < s.total)
    && (forall x :: x in s.pool.inserted ==> x in s.authenticated)
    && (forall t, u :: t in s.tasks && u in s.tasks && t != u && HasSession(s.tasks[t]) && HasSession(s.tasks[u]) ==>
          s.tasks[t].session != s.tasks[u].session)
    && (s.pool.slot.Some? ==>
          s.pool.slot.value.session < s.total && s.pool.slot.value.key == s.keys[s.pool.slot.value.session])
  }

  ghost predicate TimeInv(s: State) {
    && s.lastTick <= s.clock <= s.lastTick + Seconds(REAP_PERIOD)
    && (s.pool.slot.Some? ==>
          s.pool.slot.value.lastUsed <= s.clock && s.lastTick <= s.pool.slot.value.lastUsed + Seconds(IDLE_TIMEOUT))
    && (forall k :: 0 <= k < |s.handed| ==>
          s.handed[k].1 <= s.clock && s.handed[k].0 < s.total && s.handed[k].0 in s.pool.inserted)
    && (forall k :: 0 <= k < |s.handed| && s.pool.slot.Some? && s.handed[k].0 == s.pool.slot.value.session ==>
          s.handed[k].1 <= s.pool.slot.value.lastUsed)
  }

  /** The entry was last used when its session was last handed out. */
  ghost predicate LastUseIsHandOut(s: State) {
    s.pool.slot.Some? ==> (s.pool.slot.value.session, s.pool.slot.value.lastUsed) in s.handed
  }

  ghost predicate Inv(s: State) {
    && Ledger(s.pool)
    && SessionsInv(s)
    && TimeInv(s)
    && LastUseIsHandOut(s)
    && (forall t :: t in s.tasks ==> TaskInv(s, t))
  }

  lemma {:induction false} GoneKeepsLedger(p: Pool, fate: Fate)
    requires Ledger(p)
    ensures Ledger(Gone(p, fate)) && Gone(p, fate).slot.None?
  {
  }

  lemma {:induction false} InsertKeepsLedger(p: Pool, session: nat, key: string, now: Instant)
    requires Ledger(p) && session !in p.inserted
    ensures Ledger(AfterInsert(p, session, key, now))
  {
  }

  lemma {:induction false} LookupKeepsLedger(p: Pool, closed: bool, now: Instant)
    requires Ledger(p)
    ensures Ledger(AfterLookup(p, closed, now).1)
  {
  }

  lemma {:induction false} LedgerStep(s: State, l: Label)
    requires Inv(s) && Enabled(s, l)
    ensures Ledger(After(s, l).pool)
  {
    match l
    case Look(_, _, closed) => LookupKeepsLedger(s.pool, closed, s.clock);
    case Tick(_) => GoneKeepsLedger(s.pool, Reaped);
    case Store(t) =>
      assert TaskInv(s, t);
      InsertKeepsLedger(s.pool, s.tasks[t].session, s.tasks[t].key, s.clock);
    case _ =>
  }

  /** What a step may change: insertions are only appended, and only a Store appends. */
  lemma {:induction false} PoolStep(s: State, l: Label)
    requires Inv(s) && Enabled(s, l)
    ensures var s' := After(s, l);
            && (!l.Store? ==> s'.pool.inserted == s.pool.inserted)
            && (!l.Store? && s'.pool.slot.Some? ==>
                  s.pool.slot.Some? && s'.pool.slot.value.session == s.pool.slot.value.session
                  && s'.pool.slot.value.key == s.pool.slot.value.key
                  && s'.pool.slot.value.lastUsed >= s.pool.slot.value.lastUsed)
            && (l.Store? ==> s'.pool.inserted == s.pool.inserted + [s.tasks[l.task].session])
            && s.authenticated <= s'.authenticated && s.keys <= s'.keys && s.total <= s'.total
            && (l.Look? && s'.tasks[l.task].Dialing? ==> s'.pool.slot.None?)
  {
  }

  /** Where a task of the next state has its session from. */
  lemma {:induction false} SessionOrigin(s: State, l: Label, t: nat)
    requires Enabled(s, l) && t in After(s, l).tasks && HasSession(After(s, l).tasks[t])
    requires t in s.tasks ==> TaskInv(s, t)
    ensures var session := After(s, l).tasks[t].session;
            || (t in s.tasks && HasSession(s.tasks[t]) && s.tasks[t].session == session < |s.keys|)
            || (l == Connect(t) && session == s.total)
  {
  }

  lemma {:induction false} SessionsStep(s: State, l: Label)
    requires Inv(s) && Enabled(s, l)
    ensures SessionsInv(After(s, l))
  {
    var s' := After(s, l);
    PoolStep(s, l);
    SessionsGrow(s, l);
    forall t, u | t in s'.tasks && u in s'.tasks && t != u && HasSession(s'.tasks[t]) && HasSession(s'.tasks[u])
      ensures s'.tasks[t].session != s'.tasks[u].session
    {
      SessionOrigin(s, l, t);
      SessionOrigin(s, l, u);
    }
  }

  lemma {:induction false} SessionsGrow(s: State, l: Label)
    requires Inv(s) && Enabled(s, l)
    ensures var s' := After(s, l);
            && |s'.keys| == s'.total
            && (forall x :: x in s'.authenticated ==> x < s'.total)
            && (forall x :: x in s'.pool.inserted ==> x in s'.authenticated)
            && (s'.pool.slot.Some? ==>
                  s'.pool.slot.value.session < s'.total && s'.pool.slot.value.key == s'.keys[s'.pool.slot.value.session])
  {
    PoolStep(s, l);
    if l.Connect? || l.Authenticate? || l.Give? || l.Store? {
      assert TaskInv(s, l.task);
    }
  }

  lemma {:induction false} TaskStep(s: State, l: Label, t: nat)
    requires Inv(s) && Enabled(s, l) && t in After(s, l).tasks
    ensures TaskInv(After(s, l), t)
  {
    var s' := After(s, l);
    PoolStep(s, l);
    if t in s.tasks && s'.tasks[t] == s.tasks[t] {
      assert TaskInv(s, t);
      if l.Store? {
        assert TaskInv(s, l.task) && l.task != t;
      }
      TaskKept(s, s', t);
    } else {
      TaskMoves(s, l);
    }
  }

  lemma {:induction false} TaskMoves(s: State, l: Label)
    requires Inv(s) && Enabled(s, l) && !l.Wait? && !l.Tick?
    ensures TaskInv(After(s, l), l.task)
  {
    PoolStep(s, l);
    if l.task in s.tasks {
      assert TaskInv(s, l.task);
    }
  }

  /** A task that does not move keeps what is known of it. */
  lemma {:induction false} TaskKept(s: State, s': State, t: nat)
    requires t in s.tasks && t in s'.tasks && s'.tasks[t] == s.tasks[t] && TaskInv(s, t)
    requires s.keys <= s'.keys && s.authenticated <= s'.authenticated && s.pool.inserted <= s'.pool.inserted
    requires HasSession(s.tasks[t]) ==> s.tasks[t].session !in s'.pool.inserted
    requires s'.pool.slot.Some? ==> s.pool.slot.Some? || |s.pool.inserted| < |s'.pool.inserted|
    ensures TaskInv(s', t)
  {
  }

  lemma {:induction false} TimeStep(s: State, l: Label)
    requires Inv(s) && Enabled(s, l)
    ensures TimeInv(After(s, l))
  {
    var s' := After(s, l);
    PoolStep(s, l);
    if l.Store? {
      assert TaskInv(s, l.task);
    }
    HandedStep(s, l);
    assert s'.pool.slot.Some? && !l.Store? ==> s'.pool.slot.value.lastUsed >= s.pool.slot.value.lastUsed;
  }

  /** What hand-outs say about times is kept. */
  lemma {:induction false} HandedStep(s: State, l: Label)
    requires Inv(s) && Enabled(s, l)
    ensures var s' := After(s, l);
            && (forall k :: 0 <= k < |s'.handed| ==>
                  s'.handed[k].1 <= s'.clock && s'.handed[k].0 < s'.total && s'.handed[k].0 in s'.pool.inserted)
            && (forall k :: 0 <= k < |s'.handed| && s'.pool.slot.Some? && s'.handed[k].0 == s'.pool.slot.value.session ==>
                  s'.handed[k].1 <= s'.pool.slot.value.lastUsed)
  {
    PoolStep(s, l);
    if l.Store? {
      assert TaskInv(s, l.task);
    }
  }

  lemma {:induction false} HandOutStep(s: State, l: Label)
    requires LastUseIsHandOut(s) && Enabled(s, l)
    ensures LastUseIsHandOut(After(s, l))
  {
  }

  lemma {:induction false} StepInv(s: State, l: Label)
    requires Inv(s) && Enabled(s, l)
    ensures Inv(After(s, l))
  {
    LedgerStep(s, l);
    SessionsStep(s, l);
    TimeStep(s, l);
    HandOutStep(s, l);
    forall t | t in After(s, l).tasks
      ensures TaskInv(After(s, l), t)
    {
      TaskStep(s, l, t);
    }
  }

  lemma {:induction false} ReachableInv(run: seq<Label>)
    requires Legal(run)
    ensures Inv(Exec(run))
  {
    if run != [] {
      ReachableInv(run[..|run| - 1]);
      StepInv(Exec(run[..|run| - 1]), run[|run| - 1]);
    }
  }

  // ---------------------------------------------------------------------
  // The ledger
  // ---------------------------------------------------------------------

  /** Sessions that met the given fate. */
  function Ended(p: Pool, fate: Fate): set<nat> {
    set x | x in p.fates && p.fates[x] == fate
  }

  function InSlot(p: Pool): set<nat> {
    if p.slot.Some? then {p.slot.value.session} else {}
  }

  lemma {:induction false} DisjointSum(a: set<nat>, b: set<nat>)
    requires a !! b
    ensures |a + b| == |a| + |b|
  {
  }

  lemma {:induction false} FatesPartition(p: Pool)
    ensures |p.fates| == |Ended(p, Overwritten)| + |Ended(p, DroppedClosed)| + |Ended(p, Reaped)|
  {
    var a, b, c := Ended(p, Overwritten), Ended(p, DroppedClosed), Ended(p, Reaped);
    assert p.fates.Keys == a + b + c;
    DisjointSum(a, b);
    DisjointSum(a + b, c);
  }

  /** In every reachable state: sessions inserted = in the slot + overwritten + dropped as closed
      + reaped, the four being disjoint, and all of them were authenticated. */
  lemma {:induction false} SessionLedger(run: seq<Label>)
    requires Legal(run)
    ensures var p := Exec(run).pool;
            && |p.inserted| == |InSlot(p)| + |Ended(p, Overwritten)| + |Ended(p, DroppedClosed)| + |Ended(p, Reaped)|
            && (forall x :: x in p.inserted <==>
                  x in InSlot(p) || x in Ended(p, Overwritten) || x in Ended(p, DroppedClosed) || x in Ended(p, Reaped))
            && (forall x :: x in InSlot(p) ==> x !in p.fates)
            && (forall x :: x in p.inserted ==> x in Exec(run).authenticated)
  {
    ReachableInv(run);
    var p := Exec(run).pool;
    FatesPartition(p);
    forall x
      ensures x in p.inserted <==>
              x in InSlot(p) || x in Ended(p, Overwritten) || x in Ended(p, DroppedClosed) || x in Ended(p, Reaped)
    {
      if x in p.fates {
        assert p.fates[x] == Overwritten || p.fates[x] == DroppedClosed || p.fates[x] == Reaped;
      }
    }
  }

  // ---------------------------------------------------------------------
  // Idle times
  // ---------------------------------------------------------------------

  /** The pooled entry is never idle for more than 90 seconds. */
  lemma {:induction false} IdleBound(run: seq<Label>)
    requires Legal(run) && Exec(run).pool.slot.Some?
    ensures var s := Exec(run);
            s.pool.slot.value.lastUsed <= s.clock <= s.pool.slot.value.lastUsed + Seconds(90)
  {
    ReachableInv(run);
  }

  lemma {:induction false} LegalPrefix(run: seq<Label>, n: nat)
    requires Legal(run) && n <= |run|
    ensures Legal(run[..n])
  {
    if n == |run| {
      assert run[..n] == run;
    } else {
      LegalPrefix(run[..|run| - 1], n);
      assert run[..|run| - 1][..n] == run[..n];
    }
  }

  /** The state of a run after its first `n` steps. */
  ghost function StateAt(run: seq<Label>, n: nat): State
    requires Legal(run) && n <= |run|
  {
    LegalPrefix(run, n);
    Exec(run[..n])
  }

  /** Every hand-out of session `x` is more than 60 seconds old. */
  ghost predicate LongUnused(s: State, x: nat) {
    forall k :: 0 <= k < |s.handed| && s.handed[k].0 == x ==> s.handed[k].1 + Seconds(60) < s.clock
  }

  /** Session `x` is in the slot. */
  predicate Occupies(s: State, x: nat) {
    s.pool.slot.Some? && s.pool.slot.value.session == x
  }

  /** The steps that end a session's time in the slot: a tick that finds it closed or long unused, a
      lookup that finds it closed, an insertion. */
  ghost predicate EndsAt(run: seq<Label>, n: nat, x: nat, fate: Fate)
    requires Legal(run)
  {
    n < |run| && Occupies(StateAt(run, n), x) &&
    match fate
    case Reaped => run[n].Tick? && (run[n].closed || LongUnused(StateAt(run, n), x))
    case DroppedClosed => run[n].Look? && run[n].closed
    case Overwritten => run[n].Store?
  }

  /** What one step does to the fate of a session. */
  lemma {:induction false} FateStep(s: State, l: Label, x: nat)
    requires Inv(s) && Enabled(s, l)
    ensures var s' := After(s, l);
            && (x in s.pool.fates ==> x in s'.pool.fates && s'.pool.fates[x] == s.pool.fates[x] && !Occupies(s, x))
            && (x !in s.pool.fates && x in s'.pool.fates ==> Occupies(s, x))
            && (Occupies(s, x) && l.Tick? ==>
                  (x in s'.pool.fates <==> l.closed || s.clock > s.pool.slot.value.lastUsed + Seconds(60)) &&
                  (x in s'.pool.fates ==> s'.pool.fates[x] == Reaped))
            && (Occupies(s, x) && l.Look? ==>
                  (x in s'.pool.fates <==> l.closed) && (x in s'.pool.fates ==> s'.pool.fates[x] == DroppedClosed))
            && (Occupies(s, x) && l.Store? ==> x in s'.pool.fates && s'.pool.fates[x] == Overwritten)
            && (Occupies(s, x) && !l.Tick? && !l.Look? && !l.Store? ==> x !in s'.pool.fates)
  {
  }

  /** The idle test of the reaper is about hand-outs. */
  lemma {:induction false} IdleMeansUnused(s: State)
    requires Inv(s) && s.pool.slot.Some?
    ensures s.clock > s.pool.slot.value.lastUsed + Seconds(60) <==> LongUnused(s, s.pool.slot.value.session)
  {
    var e := s.pool.slot.value;
    var k :| 0 <= k < |s.handed| && s.handed[k] == (e.session, e.lastUsed);
  }

  lemma {:induction false} EndsEarlierOrLast(run: seq<Label>, x: nat, fate: Fate)
    requires Legal(run) && run != []
    ensures var last := |run| - 1;
            && Legal(run[..last]) && StateAt(run, last) == Exec(run[..last])
            && ((exists n: nat :: EndsAt(run, n, x, fate)) <==>
                (exists n: nat :: EndsAt(run[..last], n, x, fate)) || EndsAt(run, last, x, fate))
  {
    var last := |run| - 1;
    var past := run[..last];
    forall n: nat | n < last
      ensures EndsAt(run, n, x, fate) <==> EndsAt(past, n, x, fate)
    {
      assert past[..n] == run[..n];
    }
    if n: nat :| EndsAt(past, n, x, fate) {
      assert EndsAt(run, n, x, fate);
    }
    if n: nat :| EndsAt(run, n, x, fate) {
      assert n < last ==> EndsAt(past, n, x, fate);
    }
  }

  /** Over whole runs: a session was reaped exactly if some tick found it in the slot closed or not
      handed out for more than 60 seconds, dropped exactly if some lookup found it there closed,
      overwritten exactly if some insertion found it there. */
  lemma {:induction false} FateIff(run: seq<Label>, x: nat, fate: Fate)
    requires Legal(run)
    ensures x in Ended(Exec(run).pool, fate) <==> exists n: nat :: EndsAt(run, n, x, fate)
  {
    if run != [] {
      var last := |run| - 1;
      var s := Exec(run[..last]);
      FateIff(run[..last], x, fate);
      EndsEarlierOrLast(run, x, fate);
      ReachableInv(run[..last]);
      FateStep(s, run[last], x);
      if s.pool.slot.Some? {
        IdleMeansUnused(s);
      }
    }
  }

  /** What a lookup does, at any step of any run: the task holds the pooled session exactly if there
      is one and it is not closed; otherwise the slot is empty and the task dials. */
  lemma {:induction false} LookIff(run: seq<Label>, n: nat)
    requires Legal(run) && n < |run| && run[n].Look?
    ensures var (before, after, t) := (StateAt(run, n), StateAt(run, n + 1), run[n].task);
            && t in after.tasks
            && (after.tasks[t].Holding? <==> before.pool.slot.Some? && !run[n].closed)
            && (after.tasks[t].Holding? ==>
                  && after.tasks[t].session == before.pool.slot.value.session
                  && after.pool.slot == Some(before.pool.slot.value.(lastUsed := before.clock)))
            && (!after.tasks[t].Holding? ==> after.tasks[t].Dialing? && after.pool.slot == None)
  {
    LegalPrefix(run, n + 1);
    assert run[..n + 1][..n] == run[..n];
  }

  /** Step `m` is the lookup of task `t`, which found nothing to reuse. */
  ghost predicate LookedAt(run: seq<Label>, m: nat, t: nat)
    requires Legal(run)
  {
    m < |run| && run[m].Look? && run[m].task == t && StateAt(run, m + 1).pool.slot == None
  }

  /** Insertions are only appended. */
  lemma {:induction false} InsertedGrows(run: seq<Label>, m: nat)
    requires Legal(run) && m <= |run|
    ensures StateAt(run, m).pool.inserted <= Exec(run).pool.inserted
  {
    if m == |run| {
      assert run[..m] == run;
    } else {
      var past := run[..|run| - 1];
      assert past[..m] == run[..m];
      InsertedGrows(past, m);
      ReachableInv(past);
      PoolStep(Exec(past), run[|run| - 1]);
    }
  }

  ghost predicate Waiting(task: Task) {
    task.Dialing? || HasSession(task)
  }

  /** A task that connects has looked before, and counts the insertions made until then. */
  lemma {:induction false} LookBehind(run: seq<Label>, t: nat) returns (m: nat)
    requires Legal(run) && t in Exec(run).tasks && Waiting(Exec(run).tasks[t])
    ensures LookedAt(run, m, t) && |StateAt(run, m + 1).pool.inserted| == Exec(run).tasks[t].seen
  {
    var last := |run| - 1;
    var past := run[..last];
    ReachableInv(past);
    if t in Exec(past).tasks && Waiting(Exec(past).tasks[t]) {
      m := LookBehind(past, t);
      assert past[..m + 1] == run[..m + 1];
      SeenStays(Exec(past), run[last], t);
    } else {
      m := last;
      assert run[..m + 1] == run;
      FreshLook(Exec(past), run[last], t);
    }
  }

  lemma {:induction false} SeenStays(s: State, l: Label, t: nat)
    requires Enabled(s, l) && t in s.tasks && Waiting(s.tasks[t]) && Waiting(After(s, l).tasks[t])
    ensures After(s, l).tasks[t].seen == s.tasks[t].seen
  {
  }

  lemma {:induction false} FreshLook(s: State, l: Label, t: nat)
    requires Enabled(s, l) && t in After(s, l).tasks && Waiting(After(s, l).tasks[t])
    requires t in s.tasks ==> !Waiting(s.tasks[t])
    ensures l.Look? && l.task == t && After(s, l).pool.slot == None
    ensures |After(s, l).pool.inserted| == After(s, l).tasks[t].seen
  {
  }

  /** A session is overwritten only by a task that looked, and found nothing, before that session
      was inserted. */
  lemma {:induction false} OverwriterLookedBeforeInsertion(run: seq<Label>, t: nat, x: nat)
    requires Legal(run) && Enabled(Exec(run), Store(t)) && Occupies(Exec(run), x)
    ensures x in Exec(run).pool.inserted
    ensures exists m: nat :: LookedAt(run, m, t) && x !in StateAt(run, m + 1).pool.inserted
  {
    var s := Exec(run);
    ReachableInv(run);
    assert TaskInv(s, t);
    var m := LookBehind(run, t);
    InsertedGrows(run, m + 1);
    var early := StateAt(run, m + 1).pool.inserted;
    assert forall k :: 0 <= k < |early| ==> early[k] == s.pool.inserted[k];
  }

  /** A step at which the server accepts the credentials for session `x`. */
  ghost predicate AuthenticatedAt(run: seq<Label>, n: nat, x: nat)
    requires Legal(run)
  {
    && n < |run| && run[n].Authenticate? && run[n].ok
    && run[n].task in StateAt(run, n).tasks
    && StateAt(run, n).tasks[run[n].task].Connected?
    && StateAt(run, n).tasks[run[n].task].session == x
  }

  /** Every session that ever entered the slot had its credentials accepted by a step of the run. */
  lemma {:induction false} OnlyAuthenticatedEnter(run: seq<Label>, x: nat)
    requires Legal(run) && x in Exec(run).pool.inserted
    ensures exists n: nat :: AuthenticatedAt(run, n, x)
  {
    ReachableInv(run);
    WasAuthenticated(run, x);
  }

  lemma {:induction false} WasAuthenticated(run: seq<Label>, x: nat)
    requires Legal(run) && x in Exec(run).authenticated
    ensures exists n: nat :: AuthenticatedAt(run, n, x)
  {
    if run != [] {
      var last := |run| - 1;
      var past := run[..last];
      if x in Exec(past).authenticated {
        WasAuthenticated(past, x);
        var n: nat :| AuthenticatedAt(past, n, x);
        assert past[..n] == run[..n];
        assert AuthenticatedAt(run, n, x);
      } else {
        assert StateAt(run, last) == Exec(past);
        assert AuthenticatedAt(run, last, x);
      }
    }
  }

  /** A session that has left the slot keeps its fate and is never handed out again. */
  lemma {:induction false} GoneForGood(run: seq<Label>, n: nat, x: nat)
    requires Legal(run) && n <= |run| && x in StateAt(run, n).pool.fates
    ensures var (early, late) := (StateAt(run, n), Exec(run));
            && x in late.pool.fates && late.pool.fates[x] == early.pool.fates[x]
            && early.handed <= late.handed
            && forall k :: |early.handed| <= k < |late.handed| ==> late.handed[k].0 != x
  {
    if n == |run| {
      assert run[..n] == run;
    } else {
      var past := run[..|run| - 1];
      assert past[..n] == run[..n];
      GoneForGood(past, n, x);
      ReachableInv(past);
      FateStep(Exec(past), run[|run| - 1], x);
      HandOutsStep(Exec(past), run[|run| - 1], x);
    }
  }

  lemma {:induction false} HandOutsStep(s: State, l: Label, x: nat)
    requires Inv(s) && Enabled(s, l) && x in s.pool.fates
    ensures var s' := After(s, l);
            && s.handed <= s'.handed
            && forall k :: |s.handed| <= k < |s'.handed| ==> s'.handed[k].0 != x
  {
    if l.Store? {
      assert TaskInv(s, l.task);
    }
  }

  /** A session handed out within the last 60 seconds survives a tick that does not see it closed. */
  lemma {:induction false} RecentlyHandedOutSurvives(run: seq<Label>, k: nat)
    requires Legal(run) && Exec(run).pool.slot.Some? && k < |Exec(run).handed|
    requires var s := Exec(run);
             s.handed[k].0 == s.pool.slot.value.session && s.clock <= s.handed[k].1 + Seconds(60)
    ensures After(Exec(run), Tick(false)).pool == Exec(run).pool
  {
    ReachableInv(run);
  }

  lemma {:induction false} LegalAppend(run: seq<Label>, l: Label)
    requires Legal(run) && Enabled(Exec(run), l)
    ensures Legal(run + [l]) && Exec(run + [l]) == After(Exec(run), l)
  {
  }

  /** A run in which one task opens and stores a session. */
  lemma {:induction false} FirstSession(key: string) returns (run: seq<Label>)
    ensures Legal(run)
    ensures Exec(run) == State(0, 0, Pool(Some(Entry(0, 0, key)), [0], map[]), map[0 := Holding(0, key)],
                               1, [key], {0}, [(0, 0)])
  {
    run := [];
    LegalAppend(run, Look(0, key, false));
    run := run + [Look(0, key, false)];
    LegalAppend(run, Connect(0));
    run := run + [Connect(0)];
    LegalAppend(run, Authenticate(0, true));
    run := run + [Authenticate(0, true)];
    LegalAppend(run, Store(0));
    run := run + [Store(0)];
  }

  /** One period of the reaper in which nothing else happens. */
  lemma {:induction false} QuietPeriod(run: seq<Label>) returns (next: seq<Label>)
    requires Legal(run) && Exec(run).clock == Exec(run).lastTick
    requires Exec(run).pool.slot.Some? && Exec(run).clock + Seconds(30) <= Exec(run).pool.slot.value.lastUsed + Seconds(60)
    ensures Legal(next)
    ensures var s := Exec(run);
            Exec(next) == s.(clock := s.clock + Seconds(30), lastTick := s.clock + Seconds(30))
  {
    LegalAppend(run, Wait(Seconds(30)));
    next := run + [Wait(Seconds(30))];
    LegalAppend(next, Tick(false));
    next := next + [Tick(false)];
  }

  /** The 90 second bound is attained. */
  lemma {:induction false} IdleBoundIsTight(key: string) returns (run: seq<Label>)
    ensures Legal(run) && Exec(run).pool.slot.Some?
    ensures Exec(run).clock == Exec(run).pool.slot.value.lastUsed + Seconds(90)
  {
    run := FirstSession(key);
    run := QuietPeriod(run);
    run := QuietPeriod(run);
    LegalAppend(run, Wait(Seconds(30)));
    run := run + [Wait(Seconds(30))];
  }

  // ---------------------------------------------------------------------
  // One slot for all DSNs
  // ---------------------------------------------------------------------

  /** Every lookup of the run asks for `key`. */
  predicate OneKey(run: seq<Label>, key: string) {
    forall i :: 0 <= i < |run| && run[i].Look? ==> run[i].key == key
  }

  ghost predicate KeyInv(s: State, key: string) {
    && (forall k :: 0 <= k < |s.keys| ==> s.keys[k] == key)
    && (forall t :: t in s.tasks && s.tasks[t] != Finished ==> s.tasks[t].key == key)
    && (forall t :: t in s.tasks && s.tasks[t].Holding? ==> s.tasks[t].session < |s.keys|)
  }

  lemma {:induction false} KeyStep(s: State, l: Label, key: string)
    requires Inv(s) && Enabled(s, l) && KeyInv(s, key) && (l.Look? ==> l.key == key)
    ensures KeyInv(After(s, l), key)
  {
    var s' := After(s, l);
    assert forall k :: 0 <= k < |s'.keys| ==> s'.keys[k] == key;
    forall t | t in s'.tasks && s'.tasks[t] != Finished
      ensures s'.tasks[t].key == key && (s'.tasks[t].Holding? ==> s'.tasks[t].session < |s'.keys|)
    {
      KeyOfTask(s, l, key, t);
    }
  }

  lemma {:induction false} KeyOfTask(s: State, l: Label, key: string, t: nat)
    requires Enabled(s, l) && KeyInv(s, key) && (l.Look? ==> l.key == key)
    requires s.pool.slot.Some? ==> s.pool.slot.value.session < |s.keys|
    requires t in s.tasks ==> TaskInv(s, t)
    requires t in After(s, l).tasks && After(s, l).tasks[t] != Finished
    ensures var s' := After(s, l);
            s'.tasks[t].key == key && (s'.tasks[t].Holding? ==> s'.tasks[t].session < |s'.keys|)
  {
  }

  /** In a run that uses one DSN, every task is handed a session opened for its own DSN. */
  lemma {:induction false} OneDsnNeverMixes(run: seq<Label>, key: string, t: nat)
    requires Legal(run) && OneKey(run, key)
    requires t in Exec(run).tasks && Exec(run).tasks[t].Holding?
    ensures var s := Exec(run);
            s.tasks[t].session < |s.keys| && s.keys[s.tasks[t].session] == s.tasks[t].key
  {
    KeysStay(run, key);
  }

  lemma {:induction false} KeysStay(run: seq<Label>, key: string)
    requires Legal(run) && OneKey(run, key)
    ensures KeyInv(Exec(run), key)
  {
    if run != [] {
      KeysStay(run[..|run| - 1], key);
      ReachableInv(run[..|run| - 1]);
      KeyStep(Exec(run[..|run| - 1]), run[|run| - 1], key);
    }
  }

  /** A lookup that reuses the entry hands out a session of the task's own DSN exactly when the
      entry was stored for that DSN: the slot is not keyed. */
  lemma {:induction false} ReuseMatchesIff(run: seq<Label>, t: nat, key: string)
    requires Legal(run) && t !in Exec(run).tasks && Exec(run).pool.slot.Some?
    ensures var s := Exec(run);
            var s' := After(s, Look(t, key, false));
            && s'.tasks[t].Holding? && s'.tasks[t].session < |s'.keys|
            && (s'.keys[s'.tasks[t].session] == key <==> s.pool.slot.value.key == key)
  {
    ReachableInv(run);
  }

  /** With two DSNs, a task can be handed a session to the other server. */
  lemma {:induction false} TwoDsnsCanMix(key: string, other: string) returns (run: seq<Label>)
    requires key != other
    ensures Legal(run)
    ensures var s := Exec(run);
            && 1 in s.tasks && s.tasks[1].Holding? && s.tasks[1].key == other
            && s.tasks[1].session < |s.keys| && s.keys[s.tasks[1].session] == key
  {
    run := FirstSession(key);
    LegalAppend(run, Look(1, other, false));
    run := run + [Look(1, other, false)];
  }
}
