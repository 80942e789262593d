/**
 * The lock client, `DistLockConsulApp`: it acquires and releases locks on
 * keys through a connection to the store, creating a session of its own when
 * the caller supplies none, and polls the store until a deadline when asked to
 * wait for a contended lock.
 */
module DistLock {
  import opened Wrappers
  import opened Consul
  import opened Time

  /**
   * Whether `acquire` takes the caller's session: Python's `if session_id:`
   * is false both for None and for the empty string.
   */
  predicate Supplied(sessionId: Option<SessionId>) {
    sessionId.Some? && sessionId.value != ""
  }

  /**
   * The session `acquire` uses and the store as its first write finds it:
   * the caller's session and the store untouched, or a session created for
   * the call, without a TTL.
   */
  function Opened(st: StoreState, sessionId: Option<SessionId>, now: int): (SessionId, StoreState) {
    if Supplied(sessionId) then (sessionId.value, st) else OpenSession(st, None, now)
  }

  /** `Tally` of a log extended by three segments, kind by kind. */
  lemma TallyOfSegments(log: seq<Call>, a: seq<Call>, b: seq<Call>, c: seq<Call>, kind: CallKind)
    ensures Tally(log + a + b + c, kind) == Tally(log, kind) + Tally(a, kind) + Tally(b, kind) + Tally(c, kind)
  {
    TallyAppend(log + a + b, c, kind);
    TallyAppend(log + a, b, kind);
    TallyAppend(log, a, kind);
  }

  lemma TallyOne(c: Call, kind: CallKind)
    ensures Tally([c], kind) == if IsKind(c, kind) then 1 else 0
  {
    assert [c][..0] == [];
  }

  /**
   * An `acquire` call adds one create and one destroy when it opens its own
   * session and none otherwise, one acquire write per attempt, and no release
   * write.
   */
  lemma AcquireTallies(log: seq<Call>, supplied: bool, sid: SessionId, writes: seq<Call>)
    requires forall i :: 0 <= i < |writes| ==> writes[i].AcquirePut?
    ensures var full := log + (if supplied then [] else [CreateCall(sid)]) + writes
                            + (if supplied then [] else [DestroyCall(sid)]);
      && Tally(full, Creates) == Tally(log, Creates) + (if supplied then 0 else 1)
      && Tally(full, Destroys) == Tally(log, Destroys) + (if supplied then 0 else 1)
      && Tally(full, AcquirePuts) == Tally(log, AcquirePuts) + |writes|
      && Tally(full, ReleasePuts) == Tally(log, ReleasePuts)
  {
    var pre: seq<Call> := if supplied then [] else [CreateCall(sid)];
    var post: seq<Call> := if supplied then [] else [DestroyCall(sid)];
    TallyUniform(writes, AcquirePuts, Creates);
    TallyUniform(writes, AcquirePuts, Destroys);
    TallyUniform(writes, AcquirePuts, ReleasePuts);
    TallyUniform(writes, AcquirePuts, AcquirePuts);
    if !supplied {
      TallyOne(CreateCall(sid), Creates);
      TallyOne(CreateCall(sid), Destroys);
      TallyOne(CreateCall(sid), AcquirePuts);
      TallyOne(CreateCall(sid), ReleasePuts);
      TallyOne(DestroyCall(sid), Creates);
      TallyOne(DestroyCall(sid), Destroys);
      TallyOne(DestroyCall(sid), AcquirePuts);
      TallyOne(DestroyCall(sid), ReleasePuts);
    }
    TallyOfSegments(log, pre, writes, post, Creates);
    TallyOfSegments(log, pre, writes, post, Destroys);
    TallyOfSegments(log, pre, writes, post, AcquirePuts);
    TallyOfSegments(log, pre, writes, post, ReleasePuts);
  }

  /**
   * A `release` call adds one release write, and one destroy exactly when it
   * is asked to destroy the session.
   */
  lemma ReleaseTallies(log: seq<Call>, write: Call, destroy: bool, sid: SessionId)
    requires write.ReleasePut?
    ensures var full := log + [write] + (if destroy then [DestroyCall(sid)] else []);
      && Tally(full, ReleasePuts) == Tally(log, ReleasePuts) + 1
      && Tally(full, Destroys) == Tally(log, Destroys) + (if destroy then 1 else 0)
      && Tally(full, Creates) == Tally(log, Creates)
      && Tally(full, AcquirePuts) == Tally(log, AcquirePuts)
  {
    var post: seq<Call> := if destroy then [DestroyCall(sid)] else [];
    assert log + [write] + post == log + [write] + post + [];
    TallyOne(write, Creates);
    TallyOne(write, Destroys);
    TallyOne(write, AcquirePuts);
    TallyOne(write, ReleasePuts);
    if destroy {
      TallyOne(DestroyCall(sid), Creates);
      TallyOne(DestroyCall(sid), Destroys);
      TallyOne(DestroyCall(sid), AcquirePuts);
      TallyOne(DestroyCall(sid), ReleasePuts);
    }
    TallyOfSegments(log, [write], post, [], Creates);
    TallyOfSegments(log, [write], post, [], Destroys);
    TallyOfSegments(log, [write], post, [], AcquirePuts);
    TallyOfSegments(log, [write], post, [], ReleasePuts);
  }

  /**
   * The acquire writes of one `acquire` call, made for `key` and `sid` against
   * a store that is in state `st` when the first of them is made, at instant
   * `t0`, with `waitMillis` asked for; `acquired` is the outcome and `end` the
   * clock when the writes are over:
   * - every write is for `key` and `sid` and has the outcome the store gives
   *   it at its instant;
   * - the first is made at once, and further ones only when it failed and a
   *   non-zero wait was asked for;
   * - the second comes at once after the first, each further one a sleep
   *   after the one before, and all before the deadline;
   * - the writes stop at the first success, which is the outcome;
   * - without success after a non-zero wait the deadline has been reached;
   * - a sleep follows each failed retry, and nothing else.
   */
  ghost predicate AcquireAttempts(writes: seq<Call>, key: string, sid: SessionId, st: StoreState,
                                  t0: int, waitMillis: int, acquired: bool, end: int)
  {
    && |writes| >= 1
    && (forall i :: 0 <= i < |writes| ==>
          writes[i].AcquirePut? && writes[i].key == key && writes[i].session == sid
          && writes[i].ok == CanAcquire(st, key, sid, writes[i].at))
    && writes[0].at == t0
    && (|writes| > 1 ==> !writes[0].ok && waitMillis != 0)
    && (|writes| > 1 ==> writes[1].at == t0)
    && (forall i :: 1 <= i < |writes| - 1 ==> writes[i + 1].at == writes[i].at + SleepInterval)
    && (forall i :: 1 <= i < |writes| ==> writes[i].at < t0 + waitMillis)
    && (forall i :: 0 <= i < |writes| - 1 ==> !writes[i].ok)
    && (acquired <==> writes[|writes| - 1].ok)
    && (!acquired && waitMillis != 0 ==> end >= t0 + waitMillis)
    && end == writes[|writes| - 1].at + (if |writes| > 1 && !acquired then SleepInterval else 0)
  }

  /**
   * What the writes of one `acquire` call leave behind: the call reports
   * success exactly when one of its writes succeeded, and afterwards its
   * session holds the key exactly when it reports success, until that session
   * is destroyed, after which it holds nothing. A wait of zero or less makes a
   * single write and takes no time; a positive wait ends before the deadline
   * plus one sleep. The first retry comes at the first write's instant and,
   * the store being unchanged, fails as it did.
   */
  lemma AttemptsOutcome(writes: seq<Call>, key: string, sid: SessionId, st: StoreState,
                        t0: int, waitMillis: int, acquired: bool, end: int)
    requires AcquireAttempts(writes, key, sid, st, t0, waitMillis, acquired, end)
    ensures acquired <==> exists i :: 0 <= i < |writes| && writes[i].ok
    ensures var after := if acquired then TryAcquire(st, key, sid, end).1 else st;
      && (Holder(after, key, end) == Some(sid) <==> acquired)
      && forall t :: Holder(CloseSession(after, sid), key, t) != Some(sid)
    ensures waitMillis <= 0 ==> |writes| == 1 && end == t0
    ensures waitMillis > 0 ==> end < t0 + waitMillis + SleepInterval
    ensures |writes| > 1 ==> writes[1].at == writes[0].at && !writes[1].ok
  {
    var last := writes[|writes| - 1];
    if acquired {
      assert last.ok;
    } else {
      assert !CanAcquire(st, key, sid, last.at);
      assert last.at <= end;
    }
  }

  /**
   * An `acquire` that waits and never gets the lock polls exactly on the
   * schedule `PollTimes` describes: one retry at once, then one a sleep
   * after each failure, up to the deadline.
   */
  lemma ContendedAcquireSchedule(writes: seq<Call>, key: string, sid: SessionId, st: StoreState,
                                 t0: int, waitMillis: int, end: int)
    requires AcquireAttempts(writes, key, sid, st, t0, waitMillis, false, end)
    requires waitMillis != 0
    ensures var p := PollTimes(t0, t0 + waitMillis, SleepInterval);
      |writes| == 1 + |p| && forall i :: 0 <= i < |p| ==> writes[i + 1].at == p[i]
  {
    var ats := seq(|writes| - 1, i requires 0 <= i < |writes| - 1 => writes[i + 1].at);
    ScheduleOfSpacedInstants(ats, t0, t0 + waitMillis, SleepInterval);
  }

  class DistLockConsulApp {
    /** The store connection (`self.connection`). */
    const connection: ConsulStore
    /** The clock `time.time()` reads and `time.sleep` advances. */
    const clock: Clock

    /** A client over an open connection; opening it is not modelled. */
    constructor (connection: ConsulStore, clock: Clock)
      ensures this.connection == connection && this.clock == clock
    {
      this.connection := connection;
      this.clock := clock;
    }

    /** `_create_session()`: a new session with the store's defaults. */
    method CreateSession() returns (sid: SessionId)
      requires connection.Valid()
      modifies connection
      ensures connection.Valid()
      ensures (sid, connection.State()) == OpenSession(old(connection.State()), None, clock.now)
      ensures sid != "" && sid !in old(connection.sessions)
      ensures connection.calls == old(connection.calls) + [CreateCall(sid)]
    {
      sid := connection.CreateSession(None, clock.now);
    }

    /** `_destroy_session(session_id)`. */
    method DestroySession(sid: SessionId)
      requires connection.Valid()
      modifies connection
      ensures connection.Valid()
      ensures connection.State() == CloseSession(old(connection.State()), sid)
      ensures connection.calls == old(connection.calls) + [DestroyCall(sid)]
    {
      connection.DestroySession(sid);
    }

    /**
     * `acquire(key, session_id=None, wait_seconds=0)`, with the wait in
     * milliseconds. The result pair is `(acquired, heldBy)`; the ghost results
     * name the session used and the acquire writes made, in order.
     */
    method Acquire(key: string, sessionId: Option<SessionId> := None, waitMillis: int := 0)
      returns (acquired: bool, heldBy: Option<SessionId>, ghost used: SessionId, ghost writes: seq<Call>)
      requires connection.Valid()
      modifies connection, clock
      ensures connection.Valid()
      // The session: the caller's when supplied, otherwise a new one.
      ensures used == Opened(old(connection.State()), sessionId, old(clock.now)).0
      ensures !Supplied(sessionId) ==> used !in old(connection.sessions)
      // The calls: a create and a destroy of the new session around the writes.
      ensures connection.calls == old(connection.calls)
        + (if Supplied(sessionId) then [] else [CreateCall(used)])
        + writes
        + (if Supplied(sessionId) then [] else [DestroyCall(used)])
      ensures Tally(connection.calls, Creates) == old(Tally(connection.calls, Creates)) + (if Supplied(sessionId) then 0 else 1)
      ensures Tally(connection.calls, Destroys) == old(Tally(connection.calls, Destroys)) + (if Supplied(sessionId) then 0 else 1)
      ensures Tally(connection.calls, AcquirePuts) == old(Tally(connection.calls, AcquirePuts)) + |writes|
      ensures Tally(connection.calls, ReleasePuts) == old(Tally(connection.calls, ReleasePuts))
      // The writes.
      ensures AcquireAttempts(writes, key, used, Opened(old(connection.State()), sessionId, old(clock.now)).1,
                              old(clock.now), waitMillis, acquired, clock.now)
      // The result.
      ensures acquired <==> exists i :: 0 <= i < |writes| && writes[i].ok
      ensures heldBy == if acquired then Some(used) else None
      // The store afterwards.
      ensures var s1 := Opened(old(connection.State()), sessionId, old(clock.now)).1;
        var s2 := if acquired then TryAcquire(s1, key, used, clock.now).1 else s1;
        connection.State() == if Supplied(sessionId) then s2 else CloseSession(s2, used)
      ensures Supplied(sessionId) ==> (Holder(connection.State(), key, clock.now) == Some(used) <==> acquired)
      ensures !Supplied(sessionId) ==> forall t :: Holder(connection.State(), key, t) != Some(used)
    {
      ghost var t0 := clock.now;
      var sid: SessionId;
      var sessionCreated: bool;
      if Supplied(sessionId) {
        sid := sessionId.value;
        sessionCreated := false;
      } else {
        sid := CreateSession();
        sessionCreated := true;
      }
      used := sid;
      ghost var s1 := connection.State();
      ghost var calls1 := connection.calls;
      assert (sid, s1) == Opened(old(connection.State()), sessionId, t0);

      acquired, writes := AttemptAcquire(key, sid, waitMillis);
      AttemptsOutcome(writes, key, sid, s1, t0, waitMillis, acquired, clock.now);

      ghost var pre: seq<Call> := if Supplied(sessionId) then [] else [CreateCall(sid)];
      ghost var post: seq<Call> := if Supplied(sessionId) then [] else [DestroyCall(sid)];
      assert calls1 == old(connection.calls) + pre;
      if sessionCreated {
        DestroySession(sid);
      }
      assert connection.calls == old(connection.calls) + pre + writes + post;
      heldBy := if acquired then Some(sid) else None;

      AcquireTallies(old(connection.calls), Supplied(sessionId), sid, writes);
    }

    /**
     * The writes of `acquire` once its session is settled: one write, then,
     * when it failed and a wait was asked for, the polling loop. The ghost
     * result lists the writes made.
     */
    method AttemptAcquire(key: string, sid: SessionId, waitMillis: int)
      returns (acquired: bool, ghost writes: seq<Call>)
      requires connection.Valid()
      modifies connection, clock
      ensures connection.Valid()
      ensures connection.calls == old(connection.calls) + writes
      ensures AcquireAttempts(writes, key, sid, old(connection.State()), old(clock.now), waitMillis, acquired, clock.now)
      ensures connection.State()
        == if acquired then TryAcquire(old(connection.State()), key, sid, clock.now).1 else old(connection.State())
    {
      ghost var s1 := connection.State();
      ghost var t0 := clock.now;
      acquired := connection.PutAcquire(key, sid, clock.now);
      writes := [AcquirePut(key, sid, t0, acquired)];

      if !acquired && waitMillis != 0 {
        var start := clock.Time();
        ghost var retries;
        acquired, retries := Poll(key, sid, start + waitMillis);
        writes := writes + retries;
      }
    }

    /**
     * The loop of `acquire`: while the clock is short of `deadline`, one
     * write, and a sleep after each failed one. The ghost result lists the
     * writes made, in order.
     */
    method Poll(key: string, sid: SessionId, deadline: int)
      returns (acquired: bool, ghost retries: seq<Call>)
      requires connection.Valid()
      modifies connection, clock
      ensures connection.Valid()
      ensures connection.calls == old(connection.calls) + retries
      ensures forall i :: 0 <= i < |retries| ==>
        retries[i].AcquirePut? && retries[i].key == key && retries[i].session == sid
        && retries[i].ok == CanAcquire(old(connection.State()), key, sid, retries[i].at)
      ensures |retries| > 0 ==> retries[0].at == old(clock.now)
      ensures forall i :: 0 <= i < |retries| - 1 ==> retries[i + 1].at == retries[i].at + SleepInterval
      ensures forall i :: 0 <= i < |retries| ==> retries[i].at < deadline
      ensures forall i :: 0 <= i < |retries| - 1 ==> !retries[i].ok
      ensures acquired <==> |retries| > 0 && retries[|retries| - 1].ok
      ensures !acquired ==> clock.now >= deadline
      ensures clock.now == if |retries| == 0 then old(clock.now)
                          else retries[|retries| - 1].at + (if acquired then 0 else SleepInterval)
      ensures connection.State()
        == if acquired then TryAcquire(old(connection.State()), key, sid, clock.now).1 else old(connection.State())
    {
      ghost var s1 := connection.State();
      acquired := false;
      retries := [];
      while clock.now < deadline
        invariant connection.Valid() && connection.State() == s1 && !acquired
        invariant connection.calls == old(connection.calls) + retries
        invariant forall i :: 0 <= i < |retries| ==>
          retries[i].AcquirePut? && retries[i].key == key && retries[i].session == sid
          && retries[i].ok == CanAcquire(s1, key, sid, retries[i].at) && !retries[i].ok
        invariant |retries| > 0 ==> retries[0].at == old(clock.now)
        invariant forall i :: 0 <= i < |retries| - 1 ==> retries[i + 1].at == retries[i].at + SleepInterval
        invariant forall i :: 0 <= i < |retries| ==> retries[i].at < deadline
        invariant clock.now == if |retries| == 0 then old(clock.now) else retries[|retries| - 1].at + SleepInterval
        decreases deadline - clock.now
      {
        acquired := connection.PutAcquire(key, sid, clock.now);
        retries := retries + [AcquirePut(key, sid, clock.now, acquired)];
        if acquired {
          break;
        }
        clock.Sleep();
      }
    }

    /**
     * `release(key, session_id, destroy_session=True)`: one release write,
     * whose outcome the source ignores, then the session is destroyed when
     * asked.
     */
    method Release(key: string, sessionId: SessionId, destroySession: bool := true)
      requires connection.Valid()
      modifies connection
      ensures connection.Valid()
      ensures var r := TryRelease(old(connection.State()), key, sessionId, clock.now);
        && connection.calls == old(connection.calls) + [ReleasePut(key, sessionId, clock.now, r.0)]
             + (if destroySession then [DestroyCall(sessionId)] else [])
        && connection.State() == if destroySession then CloseSession(r.1, sessionId) else r.1
      ensures Tally(connection.calls, ReleasePuts) == old(Tally(connection.calls, ReleasePuts)) + 1
      ensures Tally(connection.calls, Destroys) == old(Tally(connection.calls, Destroys)) + (if destroySession then 1 else 0)
      ensures Tally(connection.calls, Creates) == old(Tally(connection.calls, Creates))
      ensures Tally(connection.calls, AcquirePuts) == old(Tally(connection.calls, AcquirePuts))
      ensures Holder(connection.State(), key, clock.now) != Some(sessionId)
      ensures destroySession ==> forall k, t :: Holder(connection.State(), k, t) != Some(sessionId)
    {
      var released := connection.PutRelease(key, sessionId, clock.now);
      if destroySession {
        DestroySession(sessionId);
      }
      ReleaseTallies(old(connection.calls), ReleasePut(key, sessionId, clock.now, released), destroySession, sessionId);
    }
  }
}
