/** The one-slot SSH session pool and its idle reaper (src/upstream/ssh.rs).

    Looking a session up and inserting a new one are two critical sections of the write lock;
    the connection is made between them, while other tasks use the pool. */
module SshPool {
  import opened Prelude
  import opened Upstream

  /** `key` is the "user@host:port" text kept for logs; lookups never read it. */
  datatype Entry = Entry(session: nat, lastUsed: Instant, key: string)

  /** Why a session is no longer in the slot. */
  datatype Fate = Overwritten | DroppedClosed | Reaped

  /** The slot, and what became of every session that was inserted: in insertion order,
      `inserted` holds the sessions and `fates` says how those that left did. */
  datatype Pool = Pool(slot: Option<Entry>, inserted: seq<nat>, fates: map<nat, Fate>)

  const IDLE_TIMEOUT: nat := 60
  const REAP_PERIOD: nat := 30

  /** The first critical section: a live entry is handed out and touched, a closed one dropped.
      `closed` is what `is_closed` answers if the session's own lock is free, else false. */
  function AfterLookup(p: Pool, closed: bool, now: Instant): (Option<nat>, Pool) {
    match p.slot
    case None => (None, p)
    case Some(e) =>
      if !closed then (Some(e.session), p.(slot := Some(e.(lastUsed := now))))
      else (None, Gone(p, DroppedClosed))
  }

  /** The occupant of the slot leaves. */
  function Gone(p: Pool, fate: Fate): Pool {
    if p.slot.None? then p
    else p.(slot := None, fates := p.fates[p.slot.value.session := fate])
  }

  /** The second critical section: the new session replaces whatever is there. */
  function AfterInsert(p: Pool, session: nat, key: string, now: Instant): Pool {
    var q := Gone(p, Overwritten);
    q.(slot := Some(Entry(session, now, key)), inserted := q.inserted + [session])
  }

  /** `check_idle`. */
  function AfterReap(p: Pool, closed: bool, now: Instant): Pool {
    match p.slot
    case None => p
    case Some(e) => if closed || now > e.lastUsed + Seconds(IDLE_TIMEOUT) then Gone(p, Reaped) else p
  }

  /** What other tasks may do to the pool. */
  datatype Op = Lookup(closed: bool, now: Instant) | Insert(session: nat, key: string, now: Instant) | Reap(closed: bool, now: Instant)

  function Performed(p: Pool, op: Op): Pool {
    match op
    case Lookup(closed, now) => AfterLookup(p, closed, now).1
    case Insert(session, key, now) => AfterInsert(p, session, key, now)
    case Reap(closed, now) => AfterReap(p, closed, now)
  }

  function PerformedAll(p: Pool, ops: seq<Op>): Pool {
    if ops == [] then p else Performed(PerformedAll(p, ops[..|ops| - 1]), ops[|ops| - 1])
  }

  /** How connecting and authenticating ends: with an authenticated session, or not. */
  datatype Dial = Failed | Unauthenticated | Authenticated(session: nat, key: string)

  class SharedPool {
    var inner: Option<Entry>
    ghost var inserted: seq<nat>
    ghost var fates: map<nat, Fate>

    ghost function Value(): Pool reads this {
      Pool(inner, inserted, fates)
    }

    constructor ()
      ensures Value() == Pool(None, [], map[])
    {
      inner, inserted, fates := None, [], map[];
    }

    method LookUp(closed: bool, now: Instant) returns (handle: Option<nat>)
      modifies this
      ensures (handle, Value()) == AfterLookup(old(Value()), closed, now)
      ensures handle.Some? <==> old(inner).Some? && !closed
      ensures handle.Some? ==>
        handle.value == old(inner).value.session && inner == Some(old(inner).value.(lastUsed := now)) && fates == old(fates)
      ensures handle.None? ==>
        inner == None &&
        fates == if old(inner).Some? then old(fates)[old(inner).value.session := DroppedClosed] else old(fates)
    {
      if inner.Some? {
        var entry := inner.value;
        if !closed {
          inner := Some(entry.(lastUsed := now));
          return Some(entry.session);
        }
        fates := fates[entry.session := DroppedClosed];
        inner := None;
      }
      return None;
    }

    method Put(session: nat, key: string, now: Instant)
      modifies this
      ensures Value() == AfterInsert(old(Value()), session, key, now)
      ensures inner == Some(Entry(session, now, key)) && inserted == old(inserted) + [session]
      ensures fates == if old(inner).Some? then old(fates)[old(inner).value.session := Overwritten] else old(fates)
    {
      if inner.Some? {
        fates := fates[inner.value.session := Overwritten];
      }
      inner := Some(Entry(session, now, key));
      inserted := inserted + [session];
    }

    method CheckIdle(closed: bool, now: Instant)
      modifies this
      ensures Value() == AfterReap(old(Value()), closed, now)
      ensures inner == if old(inner).Some? && (closed || now > old(inner).value.lastUsed + Seconds(60)) then None else old(inner)
    {
      if inner.Some? {
        var entry := inner.value;
        if closed || now > entry.lastUsed + Seconds(IDLE_TIMEOUT) {
          fates := fates[entry.session := Reaped];
          inner := None;
        }
      }
    }

    method Interfere(ops: seq<Op>)
      modifies this
      ensures Value() == PerformedAll(old(Value()), ops)
    {
      for i := 0 to |ops|
        invariant Value() == PerformedAll(old(Value()), ops[..i])
      {
        match ops[i] {
          case Lookup(closed, now) => var _ := LookUp(closed, now);
          case Insert(session, key, now) => Put(session, key, now);
          case Reap(closed, now) => CheckIdle(closed, now);
        }
        assert ops[..i + 1][..i] == ops[..i];
      }
      assert ops[..|ops|] == ops;
    }

    /** Both critical sections, with the other tasks' operations in the gap. */
    method GetOrConnect(closed: bool, now: Instant, gap: seq<Op>, dial: Dial, later: Instant)
      returns (handle: Option<nat>)
      modifies this
      ensures var (found, p) := AfterLookup(old(Value()), closed, now);
              && (found.Some? ==> handle == found && Value() == p)
              && (found.None? && dial.Authenticated? ==>
                    handle == Some(dial.session) && Value() == AfterInsert(PerformedAll(p, gap), dial.session, dial.key, later))
              && (found.None? && !dial.Authenticated? ==> handle == None && Value() == PerformedAll(p, gap))
      ensures old(inner).Some? && !closed ==> handle == Some(old(inner).value.session)
      ensures old(inner).None? || closed ==> handle == if dial.Authenticated? then Some(dial.session) else None
      ensures (old(inner).None? || closed) && dial.Authenticated? ==> inner == Some(Entry(dial.session, later, dial.key))
    {
      handle := LookUp(closed, now);
      if handle.Some? {
        return;
      }
      Interfere(gap);
      match dial
      case Authenticated(session, key) =>
        Put(session, key, later);
        return Some(session);
      case _ => return None;
    }
  }
}
