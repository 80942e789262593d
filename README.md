# DistLock, modelled in Dafny

DistLock is a small client library for distributed locks kept in Consul's
key/value store. One class, `DistLockConsulApp`, holds a connection to the
store. Its operations are:

- `acquire(key, session_id=None, wait_seconds=0)` takes the lock on `key`.
  It writes to the key with Consul's `acquire=` flag, bound to a session. It
  uses the caller's session, or creates one of its own when the caller gives
  none. If the first write fails and a wait was asked for, it polls until a
  deadline, sleeping a third of a second after each failed retry. It destroys
  a session it created itself before returning, and returns `(True, session)`
  or `(False, None)`.
- `release(key, session_id, destroy_session=True)` writes to the key with the
  `release=` flag, then destroys the session when asked.
- `get_key(obj, version=1)` derives a lock key,
  `distlock/key/v{version}-{class name}-{identifier}`. The identifier is the
  object's `xid` attribute, or its `repr` when it has none.
- `_create_session` and `_destroy_session` open and close store sessions.

The project models this core as follows.

- `wrappers.dfy`: the `Option` type.
- `decimal.dfy`: Python's `str(int)`, used to format the key version, and a
  parser that reads it back.
- `keys.dfy`: `get_key` and `GLOBAL_PREFIX`, with a parser for derived keys
  that proves a key can be split back into its version and its name part.
- `time.dfy`: the clock that `time.time()` reads and `time.sleep` advances,
  and `PollTimes`, the poll schedule of a loop that checks a deadline before
  each poll.
- `consul.dfy`: the store.
  - The pure functions `TryAcquire`, `TryRelease`, `OpenSession` and
    `CloseSession` say what each call does to a `StoreState`.
  - A `StoreState` holds the holder of each key and each session's expiry.
  - A key's holder counts only while that holder's session is live.
  - The class `ConsulStore` is the mutable connection. It keeps a log of
    every call it serves, so the client's contracts can count creates,
    destroys and writes.
- `distlock.dfy`: the class `DistLockConsulApp`, imperative like the source.
  - `Acquire` follows the source's branches in order.
  - The session choice uses Python truthiness: an empty session id counts
    as none.
  - The first write is made at once.
  - The retry loop runs only when `wait_seconds` is non-zero. A negative wait
    gives a deadline already passed.
  - The loop is the method `Poll`.
  - A created session is destroyed on every path.

Proved behaviour includes:

- Every derived key starts with `distlock/key/v`.
- Two keys are equal exactly when their versions and their
  `{class}-{identifier}` parts are equal.
- Because segments are not escaped, two different subjects can share a key
  (`DashesCollide`).
- A successful acquire write leaves the writer as the key's holder, and no
  other session can then take the key.
- `acquire` reports success exactly when one of its writes succeeded. When it
  fails after waiting, its retries fall exactly on `PollTimes` and it returns
  less than one sleep past the deadline.
- The exact number of store calls is proved for both operations. `acquire`
  adds one create and one destroy when it opens its own session, and one
  write per attempt. `release` adds one write, plus one destroy exactly when
  `destroy_session` is set.

Because `acquire` destroys the session it created even after a successful
write, a lock taken without a caller's session is no longer held when
`acquire` returns. `DistLock.DistLockConsulApp.Acquire` states this in its
last `ensures`.

## Model

| member | source | states |
|---|---|---|
| Decimal.FromInt | distlock/__init__.py:58 | the version text is one or more digits, led by `-` exactly for negative versions, with no leading zero except for the version 0 itself |
| Decimal.FromNatIsCanonical | distlock/__init__.py:58 | any digit text without a leading zero is exactly the text written for the number it denotes, so the version text is Python's `str` of the version and no zero-padded variant |
| Decimal.ValueOfFromNat | distlock/__init__.py:58 | the digits written for a natural number denote that number |
| Decimal.ParseIntPrefixFromInt | distlock/__init__.py:58 | the version text, followed by a non-digit, reads back as the same integer and leaves the rest untouched |
| Decimal.FromIntInjective | distlock/__init__.py:58 | distinct versions are written as distinct texts |
| Keys.GLOBAL_PREFIX | distlock/__init__.py:4 | the namespace `distlock/key` every derived key lives under |
| Keys.Identifier | distlock/__init__.py:53-56 | the identifier segment: the object's `xid` when it has one, its `repr` otherwise |
| Keys.GetKey | distlock/__init__.py:44-58 | the key `{GLOBAL_PREFIX}/v{version}-{class name}-{identifier}`, version 1 by default; its properties are the lemmas below |
| Keys.GetKeyShape | distlock/__init__.py:4-58 | every key starts with `GLOBAL_PREFIX` and `/v`, and ends with `-{class name}-{identifier}` |
| Keys.ParseGetKey | distlock/__init__.py:58 | a derived key splits back into its version and its `{class name}-{identifier}` part |
| Keys.GetKeySameExactly | distlock/__init__.py:44-58 | two keys are equal if and only if their versions and their name parts are equal |
| Keys.GetKeyVersionMatters | distlock/__init__.py:44-58 | for one subject, different versions always give different keys |
| Keys.IdentifierResolution | distlock/__init__.py:53-58 | the key's name part is the class name and `xid` whenever the object has one, whatever its `repr`, and the class name and `repr` otherwise |
| Keys.DashesCollide | distlock/__init__.py:58 | two subjects whose segments differ only in where a `-` falls share a key |
| Keys.GetKeyOfXidExample | distlock/__init__.py:44-58 | an object of class `MyTestClass` with `xid` `my-xid` gets `distlock/key/v1-MyTestClass-my-xid` |
| Keys.GetKeyOfIntExample | distlock/__init__.py:44-58 | the integer `1` gets `distlock/key/v1-int-1` |
| Keys.GetKeyOfVersionedExample | distlock/__init__.py:44-58 | the string `'my-special-key'` at version 5 gets `distlock/key/v5-str-'my-special-key'` |
| Time.Clock.Time | distlock/__init__.py:23-24 | reading the clock returns the current instant and changes nothing |
| Time.Clock.Sleep | distlock/__init__.py:29 | a sleep advances the clock by one sleep interval |
| Time.PollTimes | distlock/__init__.py:22-29 | the instants at which a loop that tests `now < deadline` before each poll and sleeps one interval after it polls, when every poll fails |
| Time.PollTimesShape | distlock/__init__.py:22-29 | polls are one interval apart and all before the deadline; there are just enough to reach it, so the loop overshoots by less than one interval |
| Time.ScheduleOfSpacedInstants | distlock/__init__.py:22-29 | instants that start at the first poll, stay one interval apart and stop once the next would reach the deadline are exactly the poll schedule |
| Consul.SessionName | distlock/__init__.py:66 | a session id issued by the store is non-empty and carries its issue number |
| Consul.TryAcquire | distlock/__init__.py:20 | an acquire write succeeds exactly when the session is live and the key is free or already its own; on success the session holds the key, on failure nothing changes; other keys and sessions are untouched |
| Consul.TryRelease | distlock/__init__.py:39 | a release write succeeds exactly when the session holds the key, and then frees it; on failure nothing changes; other keys and sessions are untouched |
| Consul.OpenSession | distlock/__init__.py:66 | a new session has an id carrying the next issue number; with no TTL it stays live forever, with a TTL it is live until the TTL runs out; every other session stays live exactly when it was, and no key's recorded holder changes |
| Consul.CloseSession | distlock/__init__.py:69 | a destroyed session is never live again and holds nothing; every other session stays live exactly when it was, and keys held by other sessions keep their holders |
| Consul.OpenSessionIsFresh | distlock/__init__.py:66 | in a well-formed store a new session id is not already a session, and opening it changes no key's holder |
| Consul.WellFormedPreserved | distlock/__init__.py:20-69 | every store call keeps the store well formed: sessions were issued by it, and holders are known sessions |
| Consul.AcquireThenRelease | distlock/__init__.py:20-42 | a session that has acquired a key can release it, and the key is then free |
| Consul.MutualExclusion | distlock/__init__.py:20 | a key held by a live session cannot be acquired by any other session |
| Consul.AcquireStaysPossible | distlock/__init__.py:22-27 | with no write in between, a session that could take a key can still take it later while it stays live |
| Consul.Tally | distlock/__init__.py:12-42 | a count of calls of one kind never exceeds the length of the log |
| Consul.TallyAppend | distlock/__init__.py:12-42 | counts of calls add up over concatenated logs |
| Consul.TallyUniform | distlock/__init__.py:12-42 | a log of one kind of call counts all of them as that kind and none as any other |
| Consul.ConsulStore.PutAcquire | distlock/__init__.py:20 | the store's state moves as `TryAcquire` says, and the write is logged with its instant and outcome |
| Consul.ConsulStore.PutRelease | distlock/__init__.py:39 | the store's state moves as `TryRelease` says, and the write is logged |
| Consul.ConsulStore.CreateSession | distlock/__init__.py:66 | the store's state moves as `OpenSession` says, the id is new, and the create is logged |
| Consul.ConsulStore.DestroySession | distlock/__init__.py:69 | the store's state moves as `CloseSession` says, and the destroy is logged |
| DistLock.Supplied | distlock/__init__.py:14-18 | Python's `if session_id:`: a session is taken from the caller only when it is given and not the empty string |
| DistLock.AcquireAttempts | distlock/__init__.py:20-29 | the writes of one acquire: each for the key and session with the store's outcome at its instant; the first at once, more only after a failure with a non-zero wait; spaced one sleep apart and before the deadline; stopping at the first success; the deadline reached without one |
| DistLock.AcquireTallies | distlock/__init__.py:12-35 | an acquire adds one create and one destroy exactly when it opens its own session, one acquire write per attempt, and no release write |
| DistLock.ReleaseTallies | distlock/__init__.py:37-42 | a release adds one release write, and one destroy exactly when asked to destroy |
| DistLock.AttemptsOutcome | distlock/__init__.py:20-35 | acquire reports success iff one of its writes succeeded; the session then holds the key iff it reports success, and nothing after its session is destroyed; a wait of zero or less makes one write; a positive wait ends less than one sleep past the deadline; the first retry, made at the first write's instant, fails like it |
| DistLock.ContendedAcquireSchedule | distlock/__init__.py:22-29 | an acquire that waits and never succeeds makes one first write and then exactly one retry per instant of `PollTimes` up to the deadline |
| DistLock.DistLockConsulApp.CreateSession | distlock/__init__.py:60-66 | creates one session with the store's defaults (no TTL) and returns its new, non-empty id |
| DistLock.DistLockConsulApp.DestroySession | distlock/__init__.py:68-69 | destroys the session and logs exactly that call |
| DistLock.DistLockConsulApp.Acquire | distlock/__init__.py:12-35 | uses the caller's session when it is given and non-empty, else a new one; makes the writes `AcquireAttempts` describes; destroys a created session on every path; returns `(true, session)` iff a write succeeded and `(false, None)` otherwise; afterwards a caller's session holds the key iff acquired, and a created one holds nothing |
| DistLock.DistLockConsulApp.AttemptAcquire | distlock/__init__.py:20-29 | one write at once, then the polling loop only when it failed and the wait is non-zero; the writes, their instants and outcomes, and the store afterwards |
| DistLock.DistLockConsulApp.Poll | distlock/__init__.py:23-29 | while the clock is short of the deadline, one write and a sleep after each failure; stops at the first success; writes are one interval apart and before the deadline; without success the deadline has been reached |
| DistLock.DistLockConsulApp.Release | distlock/__init__.py:37-42 | one release write for the key and session, then a destroy exactly when `destroy_session` is set; the session no longer holds the key, and with the destroy it holds nothing |

## Left out

- The Consul connection itself is not modelled. That covers the constructor's host and port (distlock/__init__.py:9-10), HTTP, and the `python-consul` client. The client is built over a `ConsulStore` value instead.
- Store or transport errors are not modelled. In the source they raise out of `acquire` and `release`; here every call is served.
- Other clients do not write during a call. Contention comes from the store's initial state: rival sessions holding keys, which free them when their TTL runs out.
- Consul's lock-delay, node health checks and TTL slack are not modelled. A session is live until its TTL runs out.
- Time is whole milliseconds, not a float of seconds. `wait_seconds` becomes `waitMillis`. Under Python 3 the sleep of `float(1/3)` seconds is a third of a second, modelled as 333 milliseconds. Under Python 2, whose `/` truncates (the source's `(object)` base class and the testing module's Python 2 import allow for it), `1/3` is `0` and the loop would poll without sleeping; the model does not cover that reading.
- Store calls take no time. Only sleeps advance the clock.
- Together with the absence of rival writes, this makes the first retry of the loop run at the same instant, against the same store, as the first write, so it always fails as that write did (`DistLock.AttemptsOutcome` proves it). In the source time passes between the two writes and another client may act, so the first retry can succeed.
- `acquire` reads `time.time()` twice, once for the deadline and again in the loop test. Both reads see the same instant, because nothing in between advances the clock.
- The `value=None` payload of each write is not modelled. The store keeps holders, not values.
- `get_key` reads the object through Python introspection (distlock/__init__.py:48-56). The model takes the class name, the `xid` in its `str` form, and the `repr` as given, in `Keys.Subject`.
  - The `str(obj)` fallback for an object without `__class__` (distlock/__init__.py:50-51) is not modelled. Every Python object has a class.
- `_create_session`'s `session_params` is always left at its default by the source's callers. The model creates client sessions with the store's defaults. A TTL appears only for sessions the store model is given.
- Session ids are `session-N` strings issued in order, not Consul's UUIDs. Only their freshness matters to the client.
- The `distlock/testing` module, `setup.py` and the test file are not part of this model. They target a later revision of the library, with other class names and key options.

