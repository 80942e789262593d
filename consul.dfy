/**
 * The coordination store the lock client talks to (Consul's key/value store
 * and session API), reduced to what the client relies on: each key is either
 * held by a session or free, a compare-and-swap write acquires or releases it,
 * and sessions are created and destroyed. A session created with a TTL stops
 * being live once the clock reaches its expiry instant, and the keys it holds
 * become free from that instant on.
 *
 * The pure functions below say what each call does to a `StoreState`; the
 * class `ConsulStore` is the mutable store whose methods the client calls, and
 * it logs every call it receives.
 */
module Consul {
  import opened Wrappers
  import Decimal

  type SessionId = string

  /**
   * `kv` maps each key that has been written to the session recorded as its
   * holder (None once released); `sessions` maps each session that has not been
   * destroyed to the instant its TTL runs out (None: no TTL); `created` counts
   * the sessions issued so far, so that new ones get new names.
   */
  datatype StoreState = StoreState(
    kv: map<string, Option<SessionId>>,
    sessions: map<SessionId, Option<int>>,
    created: nat)

  const SessionPrefix: string := "session-"

  /** The name of the `n`-th session the store issues. */
  function SessionName(n: nat): (sid: SessionId)
    ensures sid != ""
    ensures SessionNumber(sid) == Some(n)
  {
    var sid := SessionPrefix + Decimal.FromNat(n);
    assert sid[|SessionPrefix|..] == Decimal.FromNat(n);
    Decimal.ValueOfFromNat(n);
    sid
  }

  /** The issue number a session name carries, if it is shaped like one. */
  function SessionNumber(sid: SessionId): Option<nat> {
    if |sid| > |SessionPrefix| && sid[..|SessionPrefix|] == SessionPrefix
       && Decimal.AllDigits(sid[|SessionPrefix|..])
    then Some(Decimal.ValueOf(sid[|SessionPrefix|..]))
    else None
  }

  predicate IssuedBefore(sid: SessionId, n: nat) {
    SessionNumber(sid).Some? && SessionNumber(sid).value < n
  }

  /**
   * The store's own invariant: every session it knows was issued by it, and
   * every recorded holder is a session it knows.
   */
  ghost predicate WellFormed(st: StoreState) {
    && (forall sid :: sid in st.sessions ==> IssuedBefore(sid, st.created))
    && (forall key :: key in st.kv && st.kv[key].Some? ==> st.kv[key].value in st.sessions)
  }

  /** Whether `sid` names a session that exists and has not timed out at `now`. */
  predicate Live(st: StoreState, sid: SessionId, now: int) {
    sid in st.sessions && (st.sessions[sid].None? || now < st.sessions[sid].value)
  }

  /** The session that holds `key` at `now`, if any. */
  function Holder(st: StoreState, key: string, now: int): Option<SessionId> {
    if key in st.kv && st.kv[key].Some? && Live(st, st.kv[key].value, now) then st.kv[key]
    else None
  }

  /**
   * Whether an acquire write for `sid` on `key` succeeds at `now`: `sid` is
   * live and the key is free or already held by `sid`.
   */
  predicate CanAcquire(st: StoreState, key: string, sid: SessionId, now: int) {
    var holder := Holder(st, key, now);
    Live(st, sid, now) && (holder.None? || holder == Some(sid))
  }

  /**
   * `kv.put(key, value=None, acquire=sid)`: when the write succeeds `sid`
   * becomes the holder; otherwise nothing changes.
   */
  function TryAcquire(st: StoreState, key: string, sid: SessionId, now: int): (r: (bool, StoreState))
    ensures r.0 == CanAcquire(st, key, sid, now)
    ensures r.0 <==> Holder(r.1, key, now) == Some(sid)
    ensures r.0 ==> Holder(st, key, now) == None || Holder(st, key, now) == Some(sid)
    ensures !r.0 ==> r.1 == st
    ensures r.1.sessions == st.sessions && r.1.created == st.created
    ensures forall k, t :: k != key ==> Holder(r.1, k, t) == Holder(st, k, t)
  {
    if CanAcquire(st, key, sid, now) then
      (true, st.(kv := st.kv[key := Some(sid)]))
    else
      (false, st)
  }

  /**
   * `kv.put(key, value=None, release=sid)`: frees the key when `sid` holds
   * it and reports whether it did; otherwise nothing changes.
   */
  function TryRelease(st: StoreState, key: string, sid: SessionId, now: int): (r: (bool, StoreState))
    ensures r.0 <==> Holder(st, key, now) == Some(sid)
    ensures r.0 ==> Holder(r.1, key, now) == None
    ensures !r.0 ==> r.1 == st
    ensures r.1.sessions == st.sessions && r.1.created == st.created
    ensures forall k, t :: k != key ==> Holder(r.1, k, t) == Holder(st, k, t)
  {
    if Holder(st, key, now) == Some(sid) then (true, st.(kv := st.kv[key := None]))
    else (false, st)
  }

  /**
   * `session.create(...)`: issues a new session, live from `now` on, that
   * expires `ttl` later when a TTL is given and never otherwise.
   */
  function OpenSession(st: StoreState, ttl: Option<nat>, now: int): (r: (SessionId, StoreState))
    ensures r.0 != "" && SessionNumber(r.0) == Some(st.created)
    ensures ttl.None? ==> forall t :: Live(r.1, r.0, t)
    ensures ttl.Some? ==> forall t :: Live(r.1, r.0, t) <==> t < now + ttl.value
    ensures r.1.kv == st.kv && r.1.created == st.created + 1
    ensures forall s, t :: s != r.0 ==> Live(r.1, s, t) == Live(st, s, t)
  {
    var sid := SessionName(st.created);
    var expiry := match ttl
      case None => None
      case Some(d) => Some(now + d);
    (sid, st.(sessions := st.sessions[sid := expiry], created := st.created + 1))
  }

  /**
   * `session.destroy(sid)`: the session is gone and every key it held is
   * free; keys held by other sessions are untouched.
   */
  function CloseSession(st: StoreState, sid: SessionId): (r: StoreState)
    ensures forall t :: !Live(r, sid, t)
    ensures forall k, t :: Holder(r, k, t) != Some(sid)
    ensures forall k, t :: Holder(st, k, t) != Some(sid) ==> Holder(r, k, t) == Holder(st, k, t)
    ensures r.created == st.created
    ensures forall s, t :: s != sid ==> Live(r, s, t) == Live(st, s, t)
  {
    st.(sessions := st.sessions - {sid},
        kv := map k | k in st.kv :: if st.kv[k] == Some(sid) then None else st.kv[k])
  }

  /**
   * A session the store issues is new to it and holds no key; issuing it
   * changes no key's holder.
   */
  lemma OpenSessionIsFresh(st: StoreState, ttl: Option<nat>, now: int)
    requires WellFormed(st)
    ensures var (sid, st') := OpenSession(st, ttl, now);
      && sid !in st.sessions
      && (forall k, t :: Holder(st', k, t) == Holder(st, k, t))
      && (forall k, t :: Holder(st', k, t) != Some(sid))
  {
    var (sid, st') := OpenSession(st, ttl, now);
    assert SessionNumber(sid) == Some(st.created);
    forall k, t ensures Holder(st', k, t) == Holder(st, k, t) {
      if k in st.kv && st.kv[k].Some? {
        assert st.kv[k].value != sid;
      }
    }
  }

  /** Every call the store serves keeps its invariant. */
  lemma WellFormedPreserved(st: StoreState, key: string, sid: SessionId, ttl: Option<nat>, now: int)
    requires WellFormed(st)
    ensures WellFormed(TryAcquire(st, key, sid, now).1)
    ensures WellFormed(TryRelease(st, key, sid, now).1)
    ensures WellFormed(OpenSession(st, ttl, now).1)
    ensures WellFormed(CloseSession(st, sid))
  {
    var st' := OpenSession(st, ttl, now).1;
    forall s | s in st'.sessions ensures IssuedBefore(s, st'.created) {
      if s !in st.sessions {
        assert s == SessionName(st.created);
      }
    }
  }

  /** A session that acquires a key and then releases it leaves the key free. */
  lemma AcquireThenRelease(st: StoreState, key: string, sid: SessionId, now: int)
    requires TryAcquire(st, key, sid, now).0
    ensures var st' := TryAcquire(st, key, sid, now).1;
      TryRelease(st', key, sid, now).0 && Holder(TryRelease(st', key, sid, now).1, key, now) == None
  {
  }

  /** A key a live session holds cannot be acquired by any other session. */
  lemma MutualExclusion(st: StoreState, key: string, holder: SessionId, other: SessionId, now: int)
    requires Holder(st, key, now) == Some(holder) && other != holder
    ensures !TryAcquire(st, key, other, now).0
  {
  }

  /**
   * Time only frees keys: with no write in between, a session that could take
   * a key at some instant can still take it later, as long as it stays live.
   */
  lemma AcquireStaysPossible(st: StoreState, key: string, sid: SessionId, t: int, t': int)
    requires t <= t' && TryAcquire(st, key, sid, t).0 && Live(st, sid, t')
    ensures TryAcquire(st, key, sid, t').0
  {
  }

  /** One call the store served, as the store's log records it. */
  datatype Call =
    | CreateCall(session: SessionId)
    | DestroyCall(session: SessionId)
    | AcquirePut(key: string, session: SessionId, at: int, ok: bool)
    | ReleasePut(key: string, session: SessionId, at: int, ok: bool)

  datatype CallKind = Creates | Destroys | AcquirePuts | ReleasePuts

  predicate IsKind(c: Call, kind: CallKind) {
    match kind
    case Creates => c.CreateCall?
    case Destroys => c.DestroyCall?
    case AcquirePuts => c.AcquirePut?
    case ReleasePuts => c.ReleasePut?
  }

  /** How many calls of one kind a log holds. */
  function Tally(log: seq<Call>, kind: CallKind): (n: nat)
    ensures n <= |log|
  {
    if log == [] then 0
    else Tally(log[..|log| - 1], kind) + (if IsKind(log[|log| - 1], kind) then 1 else 0)
  }

  lemma {:induction false} TallyAppend(a: seq<Call>, b: seq<Call>, kind: CallKind)
    ensures Tally(a + b, kind) == Tally(a, kind) + Tally(b, kind)
    decreases |b|
  {
    if b != [] {
      assert (a + b)[..|a + b| - 1] == a + b[..|b| - 1];
      TallyAppend(a, b[..|b| - 1], kind);
    } else {
      assert a + b == a;
    }
  }

  /** A log of calls of one kind only counts them all, and nothing of the others. */
  lemma {:induction false} TallyUniform(log: seq<Call>, kind: CallKind, other: CallKind)
    requires forall i :: 0 <= i < |log| ==> IsKind(log[i], kind)
    ensures Tally(log, kind) == |log|
    ensures other != kind ==> Tally(log, other) == 0
  {
    if log != [] {
      TallyUniform(log[..|log| - 1], kind, other);
      assert IsKind(log[|log| - 1], kind);
    }
  }

  /**
   * The store as the client sees it through its connection: the current
   * holders and sessions, and a log of every call served so far.
   */
  class ConsulStore {
    var kv: map<string, Option<SessionId>>
    var sessions: map<SessionId, Option<int>>
    var created: nat
    ghost var calls: seq<Call>

    function State(): StoreState
      reads this
    {
      StoreState(kv, sessions, created)
    }

    ghost predicate Valid()
      reads this
    {
      WellFormed(State())
    }

    /** A store in the given state, with an empty log. */
    constructor (st: StoreState)
      requires WellFormed(st)
      ensures Valid() && State() == st && calls == []
    {
      kv, sessions, created := st.kv, st.sessions, st.created;
      calls := [];
    }

    method PutAcquire(key: string, sid: SessionId, now: int) returns (ok: bool)
      requires Valid()
      modifies this
      ensures Valid()
      ensures (ok, State()) == TryAcquire(old(State()), key, sid, now)
      ensures calls == old(calls) + [AcquirePut(key, sid, now, ok)]
    {
      WellFormedPreserved(State(), key, sid, None, now);
      var r := TryAcquire(State(), key, sid, now);
      ok, kv := r.0, r.1.kv;
      calls := calls + [AcquirePut(key, sid, now, ok)];
    }

    method PutRelease(key: string, sid: SessionId, now: int) returns (ok: bool)
      requires Valid()
      modifies this
      ensures Valid()
      ensures (ok, State()) == TryRelease(old(State()), key, sid, now)
      ensures calls == old(calls) + [ReleasePut(key, sid, now, ok)]
    {
      WellFormedPreserved(State(), key, sid, None, now);
      var r := TryRelease(State(), key, sid, now);
      ok, kv := r.0, r.1.kv;
      calls := calls + [ReleasePut(key, sid, now, ok)];
    }

    method CreateSession(ttl: Option<nat>, now: int) returns (sid: SessionId)
      requires Valid()
      modifies this
      ensures Valid()
      ensures (sid, State()) == OpenSession(old(State()), ttl, now)
      ensures sid !in old(sessions)
      ensures calls == old(calls) + [CreateCall(sid)]
    {
      WellFormedPreserved(State(), "", "", ttl, now);
      OpenSessionIsFresh(State(), ttl, now);
      var r := OpenSession(State(), ttl, now);
      sid, sessions, created := r.0, r.1.sessions, r.1.created;
      calls := calls + [CreateCall(sid)];
    }

    method DestroySession(sid: SessionId)
      requires Valid()
      modifies this
      ensures Valid()
      ensures State() == CloseSession(old(State()), sid)
      ensures calls == old(calls) + [DestroyCall(sid)]
    {
      WellFormedPreserved(State(), "", sid, None, 0);
      var r := CloseSession(State(), sid);
      kv, sessions := r.kv, r.sessions;
      calls := calls + [DestroyCall(sid)];
    }
  }
}
