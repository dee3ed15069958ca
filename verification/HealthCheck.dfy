/** Health passes: concurrent probes whose results arrive in any order (src/upstream/health.rs). */
module HealthCheck {
  import opened Prelude
  import opened Upstream
  import opened ProxySystem

  /** How the probe task of a channel ends. */
  datatype Verdict = Up | Down | Panicked

  /** What a pass may change for routing: everything but the time stamps. */
  function Status(c: Channel): (Health, nat) {
    (c.health, c.failureCount)
  }

  function StatusAfter(before: (Health, nat), verdict: Verdict): (Health, nat) {
    match verdict
    case Up => (Healthy, 0)
    case Down => (Unhealthy, Min(U32_MAX, before.1 + 1))
    case Panicked => before
  }

  /** Marks of pass `p` over channels 0..n with the probes in `out` still running: one mark
      per answered probe, in some order. */
  ghost predicate Delivered(p: nat, n: nat, verdicts: nat -> Verdict, ms: seq<Mark>, out: set<nat>) {
    && (forall j :: 0 <= j < |ms| ==>
          && ms[j].actor == ByPass(p) && ms[j].id < n && ms[j].id !in out
          && verdicts(ms[j].id) != Panicked && ms[j].ok == verdicts(ms[j].id).Up?)
    && (forall i, j :: 0 <= i < j < |ms| ==> ms[i].id != ms[j].id)
    && (forall id: nat :: id < n && id !in out && verdicts(id) != Panicked ==> exists j :: 0 <= j < |ms| && ms[j].id == id)
  }

  ghost predicate PassMarks(p: nat, n: nat, verdicts: nat -> Verdict, ms: seq<Mark>) {
    Delivered(p, n, verdicts, ms, {})
  }

  /** The marks of a pass with the marks other tasks make before each of them. */
  function Woven(others: nat -> seq<Mark>, ms: seq<Mark>): seq<Mark> {
    if ms == [] then []
    else Woven(others, ms[..|ms| - 1]) + others(|ms| - 1) + [ms[|ms| - 1]]
  }

  /** One pass. The order in which tasks are joined is arbitrary; `stamps` gives the time of
      each mark and `others` what other tasks do before it. */
  method RunCheck(p: nat, m: ChannelManager, verdicts: nat -> Verdict,
                  stamps: nat -> Instant, others: nat -> seq<Mark>)
    returns (ghost ms: seq<Mark>)
    requires m.Valid()
    modifies m`log, m.channels
    ensures m.Valid()
    ensures PassMarks(p, |m.dsns|, verdicts, ms)
    ensures Stamped(stamps, ms)
    ensures m.log == old(m.log) + Woven(others, ms)
  {
    var tasks := SpawnProbes(m);
    var delivered := 0;
    ms := [];
    while tasks != {}
      invariant m.Valid() && delivered == |ms|
      invariant m.log == old(m.log) + Woven(others, ms)
      invariant tasks <= Ids(|m.dsns|)
      invariant Delivered(p, |m.dsns|, verdicts, ms, tasks)
      invariant Stamped(stamps, ms)
      decreases tasks
    {
      var id: nat :| id in tasks;
      ghost var added := HandleJoined(p, m, id, verdicts(id), stamps(delivered), others(delivered));
      JoinedStep(p, |m.dsns|, verdicts, stamps, ms, tasks, id, added);
      WovenJoined(old(m.log), others, ms, added);
      tasks := tasks - {id};
      ms := ms + added;
      if verdicts(id) != Panicked {
        delivered := delivered + 1;
      }
    }
  }

  /** One probe task per channel of a snapshot. */
  method SpawnProbes(m: ChannelManager) returns (tasks: set<nat>)
    requires m.Valid()
    ensures tasks == Ids(|m.dsns|)
  {
    var channels := m.Channels();
    tasks := {};
    for k := 0 to |channels|
      invariant tasks == Ids(k)
    {
      tasks := tasks + {channels[k].id};
    }
  }

  /** One result of a joined probe, after what other tasks did while it was awaited. */
  method HandleJoined(p: nat, m: ChannelManager, id: nat, verdict: Verdict, now: Instant, others: seq<Mark>)
    returns (ghost added: seq<Mark>)
    requires m.Valid()
    modifies m`log, m.channels
    ensures m.Valid()
    ensures added == if verdict == Panicked then [] else [Mark(ByPass(p), id, verdict == Up, now)]
    ensures m.log == if verdict == Panicked then old(m.log) else old(m.log) + others + added
  {
    if verdict == Panicked {
      return [];
    }
    m.Interfere(others);
    if verdict == Up {
      m.MarkHealthy(id, now, ByPass(p));
    } else {
      m.MarkUnhealthy(id, now, ByPass(p));
    }
    return [Mark(ByPass(p), id, verdict == Up, now)];
  }

  /** Each mark carries the time at which it was made. */
  ghost predicate Stamped(stamps: nat -> Instant, ms: seq<Mark>) {
    forall j :: 0 <= j < |ms| ==> ms[j].at == stamps(j)
  }

  lemma {:induction false} JoinedStep(p: nat, n: nat, verdicts: nat -> Verdict, stamps: nat -> Instant,
                                      ms: seq<Mark>, tasks: set<nat>, id: nat, added: seq<Mark>)
    requires Delivered(p, n, verdicts, ms, tasks) && Stamped(stamps, ms) && id in tasks && id < n
    requires added == if verdicts(id) == Panicked then [] else [Mark(ByPass(p), id, verdicts(id) == Up, stamps(|ms|))]
    ensures Delivered(p, n, verdicts, ms + added, tasks - {id}) && Stamped(stamps, ms + added)
  {
    if verdicts(id) == Panicked {
      DeliveredLost(p, n, verdicts, ms, tasks, id);
      assert ms + added == ms;
    } else {
      assert tasks - {id} + {id} == tasks;
      DeliveredStep(p, n, verdicts, ms, tasks - {id}, added[0]);
    }
  }

  lemma {:induction false} WovenJoined(log: seq<Mark>, others: nat -> seq<Mark>, ms: seq<Mark>, added: seq<Mark>)
    requires |added| <= 1
    ensures |added| == 1 ==> log + Woven(others, ms) + others(|ms|) + added == log + Woven(others, ms + added)
    ensures |added| == 0 ==> ms + added == ms
  {
    if |added| == 1 {
      WovenBehind(log, others, ms, added[0]);
      assert added == [added[0]];
    }
  }

  lemma {:induction false} WovenStep(others: nat -> seq<Mark>, ms: seq<Mark>, m: Mark)
    ensures Woven(others, ms + [m]) == Woven(others, ms) + others(|ms|) + [m]
  {
  }

  lemma {:induction false} WovenBehind(log: seq<Mark>, others: nat -> seq<Mark>, ms: seq<Mark>, m: Mark)
    ensures log + Woven(others, ms) + others(|ms|) + [m] == log + Woven(others, ms + [m])
  {
    WovenStep(others, ms, m);
    Regroup(log, Woven(others, ms), others(|ms|), [m]);
  }

  lemma {:induction false} DeliveredLost(p: nat, n: nat, verdicts: nat -> Verdict, ms: seq<Mark>, out: set<nat>, id: nat)
    requires Delivered(p, n, verdicts, ms, out) && verdicts(id) == Panicked
    ensures Delivered(p, n, verdicts, ms, out - {id})
  {
  }

  lemma {:induction false} DeliveredStep(p: nat, n: nat, verdicts: nat -> Verdict, ms: seq<Mark>, tasks: set<nat>, m: Mark)
    requires Delivered(p, n, verdicts, ms, tasks + {m.id})
    requires m.id !in tasks && m.id < n && m.actor == ByPass(p)
    requires verdicts(m.id) != Panicked && m.ok == verdicts(m.id).Up?
    ensures Delivered(p, n, verdicts, ms + [m], tasks)
  {
    var ms' := ms + [m];
    forall id: nat | id < n && id !in tasks && verdicts(id) != Panicked
      ensures exists j :: 0 <= j < |ms'| && ms'[j].id == id
    {
      if id == m.id {
        assert ms'[|ms|].id == id;
      } else {
        var j :| 0 <= j < |ms| && ms[j].id == id;
        assert ms'[j].id == id;
      }
    }
  }

  // ---------------------------------------------------------------------
  // Confluence
  // ---------------------------------------------------------------------

  /** The suffix holds, for channel `i`, exactly the marks its probe justifies. */
  ghost predicate OnlyProbed(suffix: seq<Mark>, i: nat, verdict: Verdict) {
    if verdict == Panicked then Of(suffix, i) == []
    else |Of(suffix, i)| == 1 && Of(suffix, i)[0].ok == verdict.Up?
  }

  lemma {:induction false} OfConcat(log: seq<Mark>, more: seq<Mark>, i: nat)
    ensures Of(log + more, i) == Of(log, i) + Of(more, i)
  {
    if more == [] {
      assert log + more == log;
    } else {
      var n := |more| - 1;
      assert (log + more)[..|log| + n] == log + more[..n];
      OfConcat(log, more[..n], i);
    }
  }

  /** A channel touched only by its probe ends in the status its verdict gives. */
  lemma {:induction false} ProbeDeterminesStatus(dsns: seq<Dsn>, log: seq<Mark>, suffix: seq<Mark>, i: nat, verdict: Verdict)
    requires i < |dsns| && OnlyProbed(suffix, i, verdict)
    ensures Status(Replay(dsns, log + suffix)[i]) == StatusAfter(Status(Replay(dsns, log)[i]), verdict)
  {
    OfConcat(log, suffix, i);
    ReplayIsPerChannel(dsns, log, i);
    ReplayIsPerChannel(dsns, log + suffix, i);
    var start := NewChannel(i, dsns[i]);
    var past, more := Of(log, i), Of(suffix, i);
    if verdict == Panicked {
      assert past + more == past;
    } else {
      assert more == [more[0]];
      ToldAppend(start, past, more[0]);
    }
  }

  lemma {:induction false} ToldAppend(c: Channel, marks: seq<Mark>, m: Mark)
    ensures Upstream.Told(c, marks + [m]) == Marked(Upstream.Told(c, marks), m.ok, m.at)
  {
  }

  lemma {:induction false} NotIn(ms: seq<Mark>, i: nat)
    requires forall j :: 0 <= j < |ms| ==> ms[j].id != i
    ensures Of(ms, i) == []
  {
    if ms != [] {
      NotIn(ms[..|ms| - 1], i);
    }
  }

  /** In a woven pass, a channel that other tasks leave alone holds its probe's mark only. */
  lemma {:induction false} WovenProjects(others: nat -> seq<Mark>, ms: seq<Mark>, i: nat)
    requires forall k: nat, j :: k < |ms| && 0 <= j < |others(k)| ==> others(k)[j].id != i
    ensures Of(Woven(others, ms), i) == Of(ms, i)
  {
    if ms != [] {
      var n := |ms| - 1;
      WovenProjects(others, ms[..n], i);
      NotIn(others(n), i);
      OfConcat(Woven(others, ms[..n]), others(n), i);
      OfConcat(Woven(others, ms[..n]) + others(n), [ms[n]], i);
      OfConcat(ms[..n], [ms[n]], i);
      assert ms[..n] + [ms[n]] == ms;
    }
  }

  lemma {:induction false} DistinctProjects(ms: seq<Mark>, j: nat)
    requires j < |ms| && forall a, b :: 0 <= a < b < |ms| ==> ms[a].id != ms[b].id
    ensures Of(ms, ms[j].id) == [ms[j]]
  {
    var n := |ms| - 1;
    if j == n {
      NotIn(ms[..n], ms[j].id);
    } else {
      DistinctProjects(ms[..n], j);
    }
  }

  lemma {:induction false} PassProbesOnly(p: nat, n: nat, verdicts: nat -> Verdict, ms: seq<Mark>,
                                          others: nat -> seq<Mark>, i: nat)
    requires PassMarks(p, n, verdicts, ms) && i < n
    requires forall k: nat, j :: k < |ms| && 0 <= j < |others(k)| ==> others(k)[j].id != i
    ensures OnlyProbed(Woven(others, ms), i, verdicts(i))
  {
    WovenProjects(others, ms, i);
    if verdicts(i) == Panicked {
      NotIn(ms, i);
    } else {
      var j :| 0 <= j < |ms| && ms[j].id == i;
      DistinctProjects(ms, j);
    }
  }

  /** Confluence: whatever the completion orders and the time stamps of two executions of a
      pass, and whatever concurrent requests do to other channels, every channel they leave
      alone ends with the same health and failure count. */
  lemma {:induction false} PassConfluence(dsns: seq<Dsn>, log: seq<Mark>, verdicts: nat -> Verdict,
                                          p1: nat, ms1: seq<Mark>, others1: nat -> seq<Mark>,
                                          p2: nat, ms2: seq<Mark>, others2: nat -> seq<Mark>, i: nat)
    requires i < |dsns|
    requires PassMarks(p1, |dsns|, verdicts, ms1) && PassMarks(p2, |dsns|, verdicts, ms2)
    requires forall k: nat, j :: k < |ms1| && 0 <= j < |others1(k)| ==> others1(k)[j].id != i
    requires forall k: nat, j :: k < |ms2| && 0 <= j < |others2(k)| ==> others2(k)[j].id != i
    ensures Status(Replay(dsns, log + Woven(others1, ms1))[i]) == Status(Replay(dsns, log + Woven(others2, ms2))[i])
    ensures Status(Replay(dsns, log + Woven(others1, ms1))[i]) == StatusAfter(Status(Replay(dsns, log)[i]), verdicts(i))
  {
    PassProbesOnly(p1, |dsns|, verdicts, ms1, others1, i);
    PassProbesOnly(p2, |dsns|, verdicts, ms2, others2, i);
    ProbeDeterminesStatus(dsns, log, Woven(others1, ms1), i, verdicts(i));
    ProbeDeterminesStatus(dsns, log, Woven(others2, ms2), i, verdicts(i));
  }

  // ---------------------------------------------------------------------
  // A pass arms the breaker
  // ---------------------------------------------------------------------

  /** What the one probe mark of a pass does to a channel that other tasks leave alone: the whole
      record. A failure seen at time `t` sets the channel aside until min(300, 3^k) seconds after
      `t`, for its k-th failure in a row; a success clears it. */
  lemma {:induction false} ProbeSetsRecord(dsns: seq<Dsn>, log: seq<Mark>, verdicts: nat -> Verdict, p: nat,
                                           ms: seq<Mark>, others: nat -> seq<Mark>, j: nat, now: Instant)
    requires PassMarks(p, |dsns|, verdicts, ms) && j < |ms|
    requires forall k: nat, l :: k < |ms| && 0 <= l < |others(k)| ==> others(k)[l].id != ms[j].id
    ensures var (i, t) := (ms[j].id, ms[j].at);
            var (c, c') := (Replay(dsns, log)[i], Replay(dsns, log + Woven(others, ms))[i]);
            && (verdicts(i) == Up ==>
                  c' == Channel(i, dsns[i], Healthy, 0, Some(t), c.lastFailure) && ShouldRetry(c', now))
            && (verdicts(i) == Down ==>
                  && c' == Channel(i, dsns[i], Unhealthy, Min(4294967295, c.failureCount + 1), c.lastSuccess, Some(t))
                  && (ShouldRetry(c', now) <==> now >= t + Seconds(Min(300, Pow3(c'.failureCount)))))
            && verdicts(i) != Panicked
  {
    var i := ms[j].id;
    var past, more := Of(log, i), Of(Woven(others, ms), i);
    WovenProjects(others, ms, i);
    DistinctProjects(ms, j);
    OfConcat(log, Woven(others, ms), i);
    ReplayIsPerChannel(dsns, log, i);
    ReplayIsPerChannel(dsns, log + Woven(others, ms), i);
    ToldAppend(NewChannel(i, dsns[i]), past, ms[j]);
    EligibleIff(Replay(dsns, log + Woven(others, ms))[i], now);
  }

  // ---------------------------------------------------------------------
  // Passes of the interleaved system
  // ---------------------------------------------------------------------

  /** In every reachable state a pass has marked each probe that answered exactly once and
      no other channel; a pass with no probe out has accounted for every channel. */
  lemma {:induction false} PassesMarkOnce(cfg: Config, run: seq<Label>, p: nat)
    requires Legal(cfg, run) && p < |Exec(cfg, run).passes|
    ensures var s := Exec(cfg, run);
            var pass := s.passes[p];
            && (forall i: nat :: i < |cfg.dsns| <==> i in pass.pending || i in pass.heard || i in pass.lost)
            && (forall i :: i in pass.heard ==>
                  pass.heard[i] < |s.log| && s.log[pass.heard[i]].actor == ByPass(p) && s.log[pass.heard[i]].id == i)
            && (forall k :: 0 <= k < |s.log| && s.log[k].actor == ByPass(p) ==>
                  s.log[k].id in pass.heard && pass.heard[s.log[k].id] == k)
            && (p + 1 < |s.passes| ==> pass.heard.Keys + pass.lost == Ids(|cfg.dsns|))
  {
    Reachable(cfg, run);
    var s := Exec(cfg, run);
    var pass := s.passes[p];
    assert PassInv(cfg, s.log, p, pass);
    forall i: nat
      ensures i < |cfg.dsns| <==> i in pass.pending || i in pass.heard || i in pass.lost
    {
      assert i < |cfg.dsns| <==> i in pass.pending + pass.heard.Keys + pass.lost;
    }
    forall k | 0 <= k < |s.log| && s.log[k].actor == ByPass(p)
      ensures s.log[k].id in pass.heard && pass.heard[s.log[k].id] == k
    {
      assert Owned(s, k);
    }
  }

  // ---------------------------------------------------------------------
  // What a pass of the system does to a channel
  // ---------------------------------------------------------------------

  lemma {:induction false} LegalPrefix(cfg: Config, run: seq<Label>, n: nat)
    requires Legal(cfg, run) && n <= |run|
    ensures Legal(cfg, run[..n])
  {
    if n == |run| {
      assert run[..n] == run;
    } else {
      LegalPrefix(cfg, run[..|run| - 1], n);
      assert run[..|run| - 1][..n] == run[..n];
    }
  }

  /** The state of a run after its first `n` steps. */
  ghost function StateAt(cfg: Config, run: seq<Label>, n: nat): State
    requires Legal(cfg, run) && n <= |run|
  {
    LegalPrefix(cfg, run, n);
    Exec(cfg, run[..n])
  }

  /** A step appends at most one mark; a pass that marks is the last one. */
  lemma {:induction false} StepMarks(cfg: Config, s: State, l: Label)
    requires Enabled(cfg, s, l)
    ensures var s' := After(cfg, s, l);
            && s.log <= s'.log && |s.passes| <= |s'.passes|
            && forall k :: |s.log| <= k < |s'.log| && s'.log[k].actor.ByPass? ==> s'.log[k].actor.pass == |s.passes| - 1
  {
  }

  /** After pass `p` has started, passes before it make no more marks. */
  lemma {:induction false} MarksSince(cfg: Config, run: seq<Label>, n: nat, p: nat)
    requires Legal(cfg, run) && n <= |run| && p < |StateAt(cfg, run, n).passes|
    ensures var (early, late) := (StateAt(cfg, run, n), Exec(cfg, run));
            && early.log <= late.log && |early.passes| <= |late.passes|
            && forall k :: |early.log| <= k < |late.log| && late.log[k].actor.ByPass? ==> p <= late.log[k].actor.pass
  {
    if |run| == n {
      assert run[..n] == run;
    } else {
      var past := run[..|run| - 1];
      assert past[..n] == run[..n];
      MarksSince(cfg, past, n, p);
      StepMarks(cfg, Exec(cfg, past), run[|run| - 1]);
    }
  }

  /** No mark of pass `p` is in the log when the pass starts. */
  lemma {:induction false} NoMarkYet(cfg: Config, s: State, k: nat)
    requires Inv(cfg, s) && k < |s.log| && s.log[k].actor.ByPass?
    ensures s.log[k].actor.pass < |s.passes|
  {
    assert Owned(s, k);
  }

  /** Between two positions, the only mark on channel `i` is the one its probe in pass `p` made. */
  ghost predicate ProbedOnceSince(late: State, from: nat, p: nat, i: nat)
    requires p < |late.passes| && from <= |late.log|
  {
    && (forall k :: from <= k < |late.log| && late.log[k].id == i ==>
          i in late.passes[p].heard && late.passes[p].heard[i] == k)
    && (i in late.passes[p].heard ==>
          from <= late.passes[p].heard[i] < |late.log| && late.log[late.passes[p].heard[i]].id == i)
  }

  lemma {:induction false} SuffixIsProbed(late: State, from: nat, p: nat, i: nat)
    requires p < |late.passes| && from <= |late.log| && ProbedOnceSince(late, from, p, i)
    ensures Of(late.log[from..], i) ==
            if i in late.passes[p].heard then [late.log[late.passes[p].heard[i]]] else []
  {
    var suffix := late.log[from..];
    if i in late.passes[p].heard {
      var k := late.passes[p].heard[i] - from;
      assert suffix == suffix[..k] + [suffix[k]] + suffix[k + 1..];
      NotIn(suffix[..k], i);
      NotIn(suffix[k + 1..], i);
      OfConcat(suffix[..k], [suffix[k]], i);
      OfConcat(suffix[..k] + [suffix[k]], suffix[k + 1..], i);
      assert Of([suffix[k]], i) == [suffix[k]];
    } else {
      NotIn(suffix, i);
    }
  }

  lemma {:induction false} ProbedOnce(cfg: Config, run: seq<Label>, n: nat, i: nat)
    requires Legal(cfg, run) && n < |run| && run[n].PassStart?
    requires |Exec(cfg, run).passes| == |StateAt(cfg, run, n).passes| + 1
    requires NoRequestMarksSince(Exec(cfg, run).log, |StateAt(cfg, run, n).log|, i)
    ensures var (early, late) := (StateAt(cfg, run, n), Exec(cfg, run));
            && early.log <= late.log
            && ProbedOnceSince(late, |early.log|, |early.passes|, i)
  {
    var early, late, p := StateAt(cfg, run, n), Exec(cfg, run), |StateAt(cfg, run, n).passes|;
    LegalPrefix(cfg, run, n + 1);
    assert run[..n + 1][..n] == run[..n];
    assert StateAt(cfg, run, n + 1) == After(cfg, early, PassStart);
    MarksSince(cfg, run, n + 1, p);
    PassesMarkOnce(cfg, run, p);
    LegalPrefix(cfg, run, n);
    Reachable(cfg, run[..n]);
    Reachable(cfg, run);
    forall k | |early.log| <= k < |late.log| && late.log[k].id == i
      ensures i in late.passes[p].heard && late.passes[p].heard[i] == k
    {
      NoMarkYet(cfg, late, k);
    }
    if i in late.passes[p].heard && late.passes[p].heard[i] < |early.log| {
      NoMarkYet(cfg, early, late.passes[p].heard[i]);
    }
  }

  /** No request marks channel `i` from log position `from` on. */
  ghost predicate NoRequestMarksSince(log: seq<Mark>, from: nat, i: nat) {
    forall k :: from <= k < |log| && log[k].id == i ==> log[k].actor.ByPass?
  }

  /** Step `k` of the run is the answer of channel `i`'s probe, in the pass started by step `n`. */
  predicate Answers(run: seq<Label>, n: nat, i: nat, k: nat) {
    n < k < |run| && run[k].ProbeResult? && run[k].id == i
  }

  /** An answer of the last pass is in the log as it was given, with the time of its step. */
  ghost predicate AnswerLogged(cfg: Config, run: seq<Label>, k: nat, p: nat)
    requires Legal(cfg, run) && k < |run| && run[k].ProbeResult? && p < |Exec(cfg, run).passes|
  {
    var late := Exec(cfg, run);
    var (i, pos) := (run[k].id, |StateAt(cfg, run, k).log|);
    && i in late.passes[p].heard && late.passes[p].heard[i] == pos < |late.log|
    && late.log[pos] == Mark(ByPass(p), i, run[k].ok, StateAt(cfg, run, k).clock)
  }

  lemma {:induction false} StepAnswers(cfg: Config, s: State, l: Label, p: nat)
    requires Enabled(cfg, s, l) && |s.passes| == p + 1 == |After(cfg, s, l).passes|
    ensures var s' := After(cfg, s, l);
            && s.log <= s'.log
            && (!l.ProbeResult? ==> s'.passes[p].heard == s.passes[p].heard)
            && (l.ProbeResult? ==>
                  && s'.passes[p].heard == s.passes[p].heard[l.id := |s.log|]
                  && s'.log == s.log + [Mark(ByPass(p), l.id, l.ok, s.clock)]
                  && l.id in s.passes[p].pending)
  {
  }

  /** While the pass started by step `n` is the last one, it was so one step before. */
  lemma {:induction false} PassOpenBefore(cfg: Config, run: seq<Label>, n: nat)
    requires Legal(cfg, run) && n + 1 < |run| && run[n].PassStart?
    requires |Exec(cfg, run).passes| == |StateAt(cfg, run, n).passes| + 1
    ensures var past := run[..|run| - 1];
            && Legal(cfg, past) && StateAt(cfg, past, n) == StateAt(cfg, run, n)
            && |Exec(cfg, past).passes| == |StateAt(cfg, run, n).passes| + 1
  {
    var past := run[..|run| - 1];
    LegalPrefix(cfg, run, n + 1);
    assert run[..n + 1][..n] == run[..n];
    assert StateAt(cfg, run, n + 1) == After(cfg, StateAt(cfg, run, n), PassStart);
    assert past[..n] == run[..n] && past[..n + 1] == run[..n + 1];
    MarksSince(cfg, past, n + 1, |StateAt(cfg, run, n).passes|);
    StepMarks(cfg, Exec(cfg, past), run[|run| - 1]);
  }

  lemma {:induction false} NoAnswerYet(cfg: Config, run: seq<Label>, n: nat)
    requires Legal(cfg, run) && |run| == n + 1 && run[n].PassStart?
    ensures |Exec(cfg, run).passes| == |StateAt(cfg, run, n).passes| + 1
    ensures Exec(cfg, run).passes[|StateAt(cfg, run, n).passes|].heard == map[]
    ensures Exec(cfg, run).passes[|StateAt(cfg, run, n).passes|].lost == {}
  {
    LegalPrefix(cfg, run, n);
    assert run[..|run| - 1] == run[..n];
  }

  /** The answers a pass has heard are exactly the answers given in the run since it started. */
  lemma {:induction false} AnswersAreHeard(cfg: Config, run: seq<Label>, n: nat, i: nat)
    requires Legal(cfg, run) && n < |run| && run[n].PassStart?
    requires |Exec(cfg, run).passes| == |StateAt(cfg, run, n).passes| + 1
    ensures var p := |StateAt(cfg, run, n).passes|;
            && (i in Exec(cfg, run).passes[p].heard <==> exists k: nat :: Answers(run, n, i, k))
            && (forall k: nat :: Answers(run, n, i, k) ==> AnswerLogged(cfg, run, k, p))
  {
    if |run| == n + 1 {
      NoAnswerYet(cfg, run, n);
    } else {
      PassOpenBefore(cfg, run, n);
      AnswersAreHeard(cfg, run[..|run| - 1], n, i);
      OneMoreAnswer(cfg, run, n, i);
    }
  }

  lemma {:induction false} OneMoreAnswer(cfg: Config, run: seq<Label>, n: nat, i: nat)
    requires Legal(cfg, run) && n + 1 < |run| && run[n].PassStart? && Legal(cfg, run[..|run| - 1])
    requires var past := run[..|run| - 1];
             var p := |StateAt(cfg, run, n).passes|;
             && StateAt(cfg, past, n) == StateAt(cfg, run, n)
             && |Exec(cfg, run).passes| == |Exec(cfg, past).passes| == p + 1
             && (i in Exec(cfg, past).passes[p].heard <==> exists k: nat :: Answers(past, n, i, k))
             && (forall k: nat :: Answers(past, n, i, k) ==> AnswerLogged(cfg, past, k, p))
    ensures var p := |StateAt(cfg, run, n).passes|;
            && (i in Exec(cfg, run).passes[p].heard <==> exists k: nat :: Answers(run, n, i, k))
            && (forall k: nat :: Answers(run, n, i, k) ==> AnswerLogged(cfg, run, k, p))
  {
    var last := |run| - 1;
    var past := run[..last];
    var p := |StateAt(cfg, run, n).passes|;
    var s := Exec(cfg, past);
    StepAnswers(cfg, s, run[last], p);
    AnswersBefore(run, n, i);
    forall k: nat | Answers(run, n, i, k)
      ensures AnswerLogged(cfg, run, k, p)
    {
      if k < last {
        assert Answers(past, n, i, k);
        AnswerStays(cfg, run, k, p);
      } else {
        assert StateAt(cfg, run, last) == s;
      }
    }
  }

  lemma {:induction false} AnswersBefore(run: seq<Label>, n: nat, i: nat)
    requires run != []
    ensures var last := |run| - 1;
            (exists k: nat :: Answers(run, n, i, k)) <==>
            (exists k: nat :: Answers(run[..last], n, i, k)) || Answers(run, n, i, last)
  {
    var last := |run| - 1;
    if k: nat :| Answers(run[..last], n, i, k) {
      assert Answers(run, n, i, k);
    }
    if k: nat :| Answers(run, n, i, k) {
      assert k < last ==> Answers(run[..last], n, i, k);
    }
  }

  /** An answer once logged is kept: its channel is asked no second time in the pass. */
  lemma {:induction false} AnswerStays(cfg: Config, run: seq<Label>, k: nat, p: nat)
    requires Legal(cfg, run) && k < |run| - 1 && run[k].ProbeResult? && Legal(cfg, run[..|run| - 1])
    requires var past := run[..|run| - 1];
             && |Exec(cfg, past).passes| == p + 1 == |Exec(cfg, run).passes|
             && AnswerLogged(cfg, past, k, p)
    ensures AnswerLogged(cfg, run, k, p)
  {
    var past := run[..|run| - 1];
    var s := Exec(cfg, past);
    assert past[..k] == run[..k];
    StepAnswers(cfg, s, run[|run| - 1], p);
    Reachable(cfg, past);
    assert PassInv(cfg, s.log, p, s.passes[p]);
  }

  /** Step `k` of the run is the loss of channel `i`'s probe, in the pass started by step `n`. */
  predicate Loses(run: seq<Label>, n: nat, i: nat, k: nat) {
    n < k < |run| && run[k] == ProbeLost(i)
  }

  lemma {:induction false} StepLoses(cfg: Config, s: State, l: Label, p: nat)
    requires Enabled(cfg, s, l) && |s.passes| == p + 1 == |After(cfg, s, l).passes|
    ensures After(cfg, s, l).passes[p].lost == s.passes[p].lost + if l.ProbeLost? then {l.id} else {}
  {
  }

  lemma {:induction false} LosesBefore(run: seq<Label>, n: nat, i: nat)
    requires run != []
    ensures var last := |run| - 1;
            (exists k: nat :: Loses(run, n, i, k)) <==>
            (exists k: nat :: Loses(run[..last], n, i, k)) || Loses(run, n, i, last)
  {
    var last := |run| - 1;
    if k: nat :| Loses(run[..last], n, i, k) {
      assert Loses(run, n, i, k);
    }
    if k: nat :| Loses(run, n, i, k) {
      assert k < last ==> Loses(run[..last], n, i, k);
    }
  }

  lemma {:induction false} LossesAreKept(cfg: Config, run: seq<Label>, n: nat, i: nat)
    requires Legal(cfg, run) && n < |run| && run[n].PassStart?
    requires |Exec(cfg, run).passes| == |StateAt(cfg, run, n).passes| + 1
    ensures i in Exec(cfg, run).passes[|StateAt(cfg, run, n).passes|].lost <==> exists k: nat :: Loses(run, n, i, k)
  {
    if |run| == n + 1 {
      NoAnswerYet(cfg, run, n);
    } else {
      var last := |run| - 1;
      PassOpenBefore(cfg, run, n);
      LossesAreKept(cfg, run[..last], n, i);
      LosesBefore(run, n, i);
      StepLoses(cfg, Exec(cfg, run[..last]), run[last], |StateAt(cfg, run, n).passes|);
    }
  }

  /** While a pass goes on, the probe of a channel has answered, is lost or is still out exactly as
      the steps of the run since the start say; a pass ends only when none is out. */
  lemma {:induction false} ProbesAreAccountedFor(cfg: Config, run: seq<Label>, n: nat, i: nat)
    requires Legal(cfg, run) && n < |run| && run[n].PassStart? && i < |cfg.dsns|
    requires |Exec(cfg, run).passes| == |StateAt(cfg, run, n).passes| + 1
    ensures var pass := Exec(cfg, run).passes[|StateAt(cfg, run, n).passes|];
            var answered := exists k: nat :: Answers(run, n, i, k);
            var lost := exists k: nat :: Loses(run, n, i, k);
            && (i in pass.heard <==> answered)
            && (i in pass.lost <==> lost)
            && (i in pass.pending <==> !answered && !lost)
            && (Enabled(cfg, Exec(cfg, run), PassStart) ==> answered || lost)
  {
    AnswersAreHeard(cfg, run, n, i);
    LossesAreKept(cfg, run, n, i);
    PassesMarkOnce(cfg, run, |StateAt(cfg, run, n).passes|);
    Reachable(cfg, run);
    var p := |StateAt(cfg, run, n).passes|;
    assert PassInv(cfg, Exec(cfg, run).log, p, Exec(cfg, run).passes[p]);
  }

  /** Passes of the system: a channel that no request marks while a pass goes on is, in the run,
      exactly what its own probe's answer makes of it, at the time of that answer, and as it was
      as long as there is none. */
  lemma {:induction false} PassDeterminesChannel(cfg: Config, run: seq<Label>, n: nat, i: nat)
    requires Legal(cfg, run) && n < |run| && run[n].PassStart? && i < |cfg.dsns|
    requires |Exec(cfg, run).passes| == |StateAt(cfg, run, n).passes| + 1
    requires NoRequestMarksSince(Exec(cfg, run).log, |StateAt(cfg, run, n).log|, i)
    ensures var (early, late) := (StateAt(cfg, run, n), Exec(cfg, run));
            && |early.live| == |late.live| == |cfg.dsns|
            && ((forall k: nat :: !Answers(run, n, i, k)) ==> late.live[i] == early.live[i])
            && forall k: nat :: Answers(run, n, i, k) ==>
                 var (c, t) := (early.live[i], StateAt(cfg, run, k).clock);
                 late.live[i] ==
                 if run[k].ok then c.(health := Healthy, failureCount := 0, lastSuccess := Some(t))
                 else c.(health := Unhealthy, failureCount := Min(4294967295, c.failureCount + 1), lastFailure := Some(t))
  {
    AnswersAreHeard(cfg, run, n, i);
    HeardDecides(cfg, run, n, i);
    forall k: nat | Answers(run, n, i, k)
      ensures AnswerLogged(cfg, run, k, |StateAt(cfg, run, n).passes|)
    {
    }
  }

  lemma {:induction false} HeardDecides(cfg: Config, run: seq<Label>, n: nat, i: nat)
    requires Legal(cfg, run) && n < |run| && run[n].PassStart? && i < |cfg.dsns|
    requires |Exec(cfg, run).passes| == |StateAt(cfg, run, n).passes| + 1
    requires NoRequestMarksSince(Exec(cfg, run).log, |StateAt(cfg, run, n).log|, i)
    ensures var (early, late) := (StateAt(cfg, run, n), Exec(cfg, run));
            var heard := late.passes[|early.passes|].heard;
            && |early.live| == |late.live| == |cfg.dsns|
            && (i in heard ==> heard[i] < |late.log|)
            && late.live[i] ==
               if i in heard then Marked(early.live[i], late.log[heard[i]].ok, late.log[heard[i]].at) else early.live[i]
  {
    var early, late, p := StateAt(cfg, run, n), Exec(cfg, run), |StateAt(cfg, run, n).passes|;
    LegalPrefix(cfg, run, n);
    ProbedOnce(cfg, run, n, i);
    SuffixIsProbed(late, |early.log|, p, i);
    Reachable(cfg, run[..n]);
    Reachable(cfg, run);
    LiveSince(cfg.dsns, early.log, late.log, i);
  }

  lemma {:induction false} LiveSince(dsns: seq<Dsn>, early: seq<Mark>, late: seq<Mark>, i: nat)
    requires i < |dsns| && early <= late
    ensures var more := Of(late[|early|..], i);
            && (more == [] ==> Replay(dsns, late)[i] == Replay(dsns, early)[i])
            && (|more| == 1 ==> Replay(dsns, late)[i] == Marked(Replay(dsns, early)[i], more[0].ok, more[0].at))
  {
    var suffix := late[|early|..];
    var past, more := Of(early, i), Of(suffix, i);
    assert late == early + suffix;
    OfConcat(early, suffix, i);
    ReplayIsPerChannel(dsns, early, i);
    ReplayIsPerChannel(dsns, late, i);
    if more == [] {
      assert past + more == past;
    } else if |more| == 1 {
      assert more == [more[0]];
      ToldAppend(NewChannel(i, dsns[i]), past, more[0]);
    }
  }
}
