/**
 The durable replay ledger: one table of rows, changed only by whole transactions.

 Each operation is given twice: as a function from the old table to the new one (the Step
 functions), and as a method of the class `Ledger` that performs the transaction on its
 field the way the SQL does. The method is proved equal to the function, and the protocol
 results are proved about the function.
 */
module ReplayLedger {
  import opened Clock
  import opened Wrappers

  const RUNNING_LEASE_SECONDS: Time := 300 * SECOND
  const RESULT_REPLAY_TTL_SECONDS: Time := 900 * SECOND
  const MAX_REQUEST_ATTEMPTS: int := 2

  type Key = string
  type Token = string
  type Secret = Option<string>

  datatype Kind = Request | Result

  datatype State = Running | Completed | RetryableFailure | FinalFailure | Consumed

  /** Everything the integrity MAC covers, apart from the key. */
  datatype Body = Body(
    kind: Kind,
    state: State,
    attempts: int,
    maxAttempts: int,
    firstSeenAt: Time,
    updatedAt: Time,
    expiresAt: Time,
    owner: string,
    delegationId: string,
    fingerprint: string,
    lastError: Option<string>,
    token: Option<Token>)

  datatype Row = Row(body: Body, mac: Option<string>)

  type Table = map<Key, Row>

  /** Hex HMAC of a record under a secret. Left uninterpreted. */
  type Hmac = (string, Key, Body) -> string

  /** What a caller says about a request, copied into the row. */
  datatype Meta = Meta(owner: string, delegationId: string, fingerprint: string)

  datatype BeginOutcome =
    | KeyMissing
    | Granted(token: Token)
    | ReplayDetected
    | ReachedFinalFailure
    | AlreadyRunning
    | RetryLimitExceeded
    | BeginIntegrityError

  datatype WriteOutcome = Written | Refused | IntegrityError

  datatype ConsumeOutcome =
    | Accepted
    | ResultKeyMissing
    | IntegrityKeyMissing
    | AlreadyConsumed
    | ConsumeIntegrityError

  // ---------------------------------------------------------------- integrity

  /** Python's truth value of an optional string: None and "" are both false. */
  predicate Present(s: Option<string>) {
    s.Some? && s.value != ""
  }

  function ComputeMac(hmac: Hmac, secret: Secret, key: Key, body: Body): Option<string> {
    if Present(secret) then Some(hmac(secret.value, key, body)) else None
  }

  function Seal(hmac: Hmac, secret: Secret, key: Key, body: Body): Row {
    Row(body, ComputeMac(hmac, secret, key, body))
  }

  predicate Verified(hmac: Hmac, secret: Secret, key: Key, row: Row) {
    !Present(secret) || (Present(row.mac) && row.mac == ComputeMac(hmac, secret, key, row.body))
  }

  // ---------------------------------------------------------------- transactions as functions

  function Min(a: Time, b: Time): Time {
    if b < a then b else a
  }

  function Purge(t: Table, now: Time): Table {
    map k | k in t && now < t[k].body.expiresAt :: t[k]
  }

  /** A stored token blocks a caller who shows another one; an absent token blocks nobody. */
  predicate Fenced(stored: Option<Token>, shown: Option<Token>) {
    Present(stored) && stored != shown
  }

  function FirstAttempt(expiry: Time, meta: Meta, now: Time, token: Token): Body {
    Body(Request, Running, 1, MAX_REQUEST_ATTEMPTS, now, now, expiry,
         meta.owner, meta.delegationId, meta.fingerprint, None, Some(token))
  }

  function NextAttempt(b: Body, expiry: Time, meta: Meta, now: Time, token: Token): Body {
    Body(Request, Running, b.attempts + 1, b.maxAttempts, b.firstSeenAt, now, Min(b.expiresAt, expiry),
         meta.owner, meta.delegationId, meta.fingerprint, None, Some(token))
  }

  function GivenUp(b: Body, expiry: Time, meta: Meta, now: Time): Body {
    Body(Request, FinalFailure, b.attempts, b.maxAttempts, b.firstSeenAt, now, Min(b.expiresAt, expiry),
         meta.owner, meta.delegationId, meta.fingerprint,
         Some("Delegation request retry limit exceeded"), None)
  }

  /** An integrity error aborts the transaction, so the purge is rolled back with it. */
  function BeginStep(hmac: Hmac, t: Table, key: Key, expiry: Time, meta: Meta, secret: Secret,
                     now: Time, token: Token): (Table, BeginOutcome)
  {
    var p := Purge(t, now);
    if key == "" then
      (t, KeyMissing)
    else if key !in p then
      (p[key := Seal(hmac, secret, key, FirstAttempt(expiry, meta, now, token))], Granted(token))
    else if !Verified(hmac, secret, key, p[key]) then
      (t, BeginIntegrityError)
    else
      var b := p[key].body;
      if b.state == Completed then
        (p, ReplayDetected)
      else if b.state == FinalFailure then
        (p, ReachedFinalFailure)
      else if b.state == Running && now - b.updatedAt < RUNNING_LEASE_SECONDS then
        (p, AlreadyRunning)
      else if b.attempts >= b.maxAttempts then
        (p[key := Seal(hmac, secret, key, GivenUp(b, expiry, meta, now))], RetryLimitExceeded)
      else
        (p[key := Seal(hmac, secret, key, NextAttempt(b, expiry, meta, now, token))], Granted(token))
  }

  function HeartbeatStep(hmac: Hmac, t: Table, key: Key, secret: Secret, now: Time,
                         token: Option<Token>): (Table, WriteOutcome)
  {
    if key == "" || key !in t then
      (t, Refused)
    else if !Verified(hmac, secret, key, t[key]) then
      (t, IntegrityError)
    else
      var b := t[key].body;
      if b.state != Running || Fenced(b.token, token) then
        (t, Refused)
      else
        (t[key := Seal(hmac, secret, key, b.(kind := Request, updatedAt := now))], Written)
  }

  function NextState(b: Body, final: State): State {
    if final == RetryableFailure && b.attempts >= b.maxAttempts then FinalFailure else final
  }

  function FinalError(b: Body, final: State, error: Option<string>): Option<string> {
    if NextState(b, final) == final || Present(error) then error
    else Some("Delegation request retry limit exceeded")
  }

  function FinalizeStep(hmac: Hmac, t: Table, key: Key, final: State, error: Option<string>,
                        secret: Secret, now: Time, token: Option<Token>): (Table, WriteOutcome)
  {
    if key == "" || key !in t then
      (t, Refused)
    else if !Verified(hmac, secret, key, t[key]) then
      (t, IntegrityError)
    else
      var b := t[key].body;
      if Fenced(b.token, token) then
        (t, Refused)
      else
        (t[key := Seal(hmac, secret, key,
                       b.(kind := Request, state := NextState(b, final), updatedAt := now,
                          lastError := FinalError(b, final, error), token := None))],
         Written)
  }

  function ConsumedBody(meta: Meta, expires: Option<Time>, now: Time): Body {
    Body(Result, Consumed, 1, 1, now, now, EffectiveExpiry(expires, now),
         meta.owner, meta.delegationId, meta.fingerprint, None, None)
  }

  /** `expires_at or (now + ttl)`: an expiry of zero counts as none. */
  function EffectiveExpiry(expires: Option<Time>, now: Time): Time {
    if expires.Some? && expires.value != 0 then expires.value else now + RESULT_REPLAY_TTL_SECONDS
  }

  function ConsumeStep(hmac: Hmac, t: Table, key: Key, meta: Meta, expires: Option<Time>,
                       secret: Secret, now: Time): (Table, ConsumeOutcome)
  {
    var p := Purge(t, now);
    if key == "" then
      (t, ResultKeyMissing)
    else if !Present(secret) then
      (t, IntegrityKeyMissing)
    else if key in p then
      if Verified(hmac, secret, key, p[key]) then (p, AlreadyConsumed) else (t, ConsumeIntegrityError)
    else
      (p[key := Seal(hmac, secret, key, ConsumedBody(meta, expires, now))], Accepted)
  }

  // ---------------------------------------------------------------- transactions as methods

  class Ledger {
    const hmac: Hmac
    var entries: Table

    constructor (hmac: Hmac)
      ensures this.hmac == hmac && entries == map[]
    {
      this.hmac := hmac;
      entries := map[];
    }

    /** INSERT ... ON CONFLICT DO UPDATE of one sealed record. */
    method WriteRecord(key: Key, body: Body, secret: Secret)
      modifies this`entries
      ensures entries == old(entries)[key := Seal(hmac, secret, key, body)]
    {
      entries := entries[key := Row(body, ComputeMac(hmac, secret, key, body))];
    }

    method Begin(key: Key, expiry: Time, meta: Meta, secret: Secret, now: Time, token: Token)
      returns (outcome: BeginOutcome)
      modifies this`entries
      ensures (entries, outcome) == BeginStep(hmac, old(entries), key, expiry, meta, secret, now, token)
    {
      if key == "" {
        return KeyMissing;
      }
      var beforeTransaction := entries;
      entries := Purge(entries, now);
      if key !in entries {
        WriteRecord(key, FirstAttempt(expiry, meta, now, token), secret);
        return Granted(token);
      }
      if !Verified(hmac, secret, key, entries[key]) {
        entries := beforeTransaction;
        return BeginIntegrityError;
      }
      var existing := entries[key].body;
      if existing.state == Completed {
        return ReplayDetected;
      }
      if existing.state == FinalFailure {
        return ReachedFinalFailure;
      }
      if existing.state == Running && now - existing.updatedAt < RUNNING_LEASE_SECONDS {
        return AlreadyRunning;
      }
      if existing.attempts >= existing.maxAttempts {
        WriteRecord(key, GivenUp(existing, expiry, meta, now), secret);
        return RetryLimitExceeded;
      }
      WriteRecord(key, NextAttempt(existing, expiry, meta, now, token), secret);
      return Granted(token);
    }

    method Heartbeat(key: Key, secret: Secret, now: Time, token: Option<Token>)
      returns (outcome: WriteOutcome)
      modifies this`entries
      ensures (entries, outcome) == HeartbeatStep(hmac, old(entries), key, secret, now, token)
    {
      if key == "" || key !in entries {
        return Refused;
      }
      if !Verified(hmac, secret, key, entries[key]) {
        return IntegrityError;
      }
      var existing := entries[key].body;
      if existing.state != Running {
        return Refused;
      }
      if Fenced(existing.token, token) {
        return Refused;
      }
      WriteRecord(key, existing.(kind := Request, updatedAt := now), secret);
      return Written;
    }

    method Finalize(key: Key, final: State, error: Option<string>, secret: Secret, now: Time,
                    token: Option<Token>)
      returns (outcome: WriteOutcome)
      modifies this`entries
      ensures (entries, outcome) == FinalizeStep(hmac, old(entries), key, final, error, secret, now, token)
    {
      if key == "" || key !in entries {
        return Refused;
      }
      if !Verified(hmac, secret, key, entries[key]) {
        return IntegrityError;
      }
      var existing := entries[key].body;
      if Fenced(existing.token, token) {
        return Refused;
      }
      var nextState, lastError := final, error;
      if final == RetryableFailure && existing.attempts >= existing.maxAttempts {
        nextState := FinalFailure;
        if !Present(lastError) {
          lastError := Some("Delegation request retry limit exceeded");
        }
      }
      WriteRecord(key,
                  existing.(kind := Request, state := nextState, updatedAt := now,
                            lastError := lastError, token := None),
                  secret);
      return Written;
    }

    method ConsumeResult(key: Key, meta: Meta, expires: Option<Time>, secret: Secret, now: Time)
      returns (outcome: ConsumeOutcome)
      modifies this`entries
      ensures (entries, outcome) == ConsumeStep(hmac, old(entries), key, meta, expires, secret, now)
    {
      if key == "" {
        return ResultKeyMissing;
      }
      if !Present(secret) {
        return IntegrityKeyMissing;
      }
      var beforeTransaction := entries;
      entries := Purge(entries, now);
      if key in entries {
        if !Verified(hmac, secret, key, entries[key]) {
          entries := beforeTransaction;
          return ConsumeIntegrityError;
        }
        return AlreadyConsumed;
      }
      WriteRecord(key, ConsumedBody(meta, expires, now), secret);
      return Accepted;
    }
  }
}
