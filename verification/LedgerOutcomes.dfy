/**
 How the ledger answers, and what it then holds, said of the fields of the rows: when a begin is granted and when
 it is refused and why, what a finalize stores, what a heartbeat renews and what a consume records. Rows other
 than the transaction's own are the subject of `LedgerGuarantees.TransactionFrame`.
 */
module LedgerOutcomes {
  import opened Clock
  import opened Wrappers
  import opened ReplayLedger
  import opened LedgerProtocol
  import opened LedgerGuarantees

  /** The table has a row for the key at this instant, and the row is authentic. */
  predicate HasRow(hmac: Hmac, t: Table, key: Key, secret: Secret, now: Time) {
    key != "" && key in t && now < t[key].body.expiresAt && Verified(hmac, secret, key, t[key])
  }

  /** A row verifies if and only if no secret is asked of it, or it carries the MAC made with the secret. */
  lemma VerifiesExactly(hmac: Hmac, secret: Secret, key: Key, row: Row)
    ensures Verified(hmac, secret, key, row) <==>
              || secret == None || secret == Some("")
              || (row.mac == Some(hmac(secret.value, key, row.body)) && row.mac != Some(""))
  {
  }

  // ---------------------------------------------------------------- begin

  /** Nobody renewed or wrote the row for five minutes. */
  predicate LeaseIsOut(b: Body, now: Time) {
    300 * SECOND <= now - b.updatedAt
  }

  /** The execution that the row stands for is over without success, or nobody is known to be at work on it. */
  predicate Abandoned(b: Body, now: Time) {
    b.state == RetryableFailure || b.state == Consumed || (b.state == Running && LeaseIsOut(b, now))
  }

  /** A request with a row is granted if and only if it is abandoned and has an attempt left; each refusal has its
      own reason. */
  lemma BeginAnswers(hmac: Hmac, t: Table, key: Key, expiry: Time, meta: Meta, secret: Secret, now: Time, token: Token)
    requires HasRow(hmac, t, key, secret, now)
    ensures var b, answer := t[key].body, BeginStep(hmac, t, key, expiry, meta, secret, now, token).1;
            && (answer.Granted? <==> Abandoned(b, now) && b.attempts < b.maxAttempts)
            && (answer.Granted? ==> answer.token == token)
            && (answer == RetryLimitExceeded <==> Abandoned(b, now) && b.maxAttempts <= b.attempts)
            && (answer == AlreadyRunning <==> b.state == Running && !LeaseIsOut(b, now))
            && (answer == ReplayDetected <==> b.state == Completed)
            && (answer == ReachedFinalFailure <==> b.state == FinalFailure)
  {
  }

  /** What is said about the request, as it came with the begin. */
  predicate Describes(b: Body, meta: Meta) {
    b.owner == meta.owner && b.delegationId == meta.delegationId && b.fingerprint == meta.fingerprint
  }

  predicate Lesser(x: Time, y: Time, least: Time) {
    least <= x && least <= y && (least == x || least == y)
  }

  /** A granted row is running under the new token, one attempt further; a row whose attempts are used up is given
      up, with the reason; any other row is left as it is. The expiry is the sooner of the two. */
  lemma BeginLeaves(hmac: Hmac, t: Table, key: Key, expiry: Time, meta: Meta, secret: Secret, now: Time, token: Token)
    requires HasRow(hmac, t, key, secret, now)
    ensures var b := t[key].body; var (t', answer) := BeginStep(hmac, t, key, expiry, meta, secret, now, token);
            && key in t'
            && var b' := t'[key].body;
               && (if answer.Granted? then
                     && b'.state == Running && b'.token == Some(token) && b'.attempts == b.attempts + 1
                     && b'.lastError == None
                   else if answer == RetryLimitExceeded then
                     && b'.state == FinalFailure && b'.token == None && b'.attempts == b.attempts
                     && b'.lastError == Some("Delegation request retry limit exceeded")
                   else t'[key] == t[key])
               && (answer.Granted? || answer == RetryLimitExceeded ==>
                     && b'.kind == Request && b'.maxAttempts == b.maxAttempts && b'.firstSeenAt == b.firstSeenAt
                     && b'.updatedAt == now && Lesser(b.expiresAt, expiry, b'.expiresAt) && Describes(b', meta)
                     && t'[key].mac == ComputeMac(hmac, secret, key, b'))
  {
  }

  /** A request without a row, or whose row has run out, is granted its first of two attempts. */
  lemma FirstBegin(hmac: Hmac, t: Table, key: Key, expiry: Time, meta: Meta, secret: Secret, now: Time, token: Token)
    requires key != "" && (key in t ==> t[key].body.expiresAt <= now)
    ensures var (t', answer) := BeginStep(hmac, t, key, expiry, meta, secret, now, token);
            && answer == Granted(token) && key in t'
            && var b := t'[key].body;
               && b.kind == Request && b.state == Running && b.token == Some(token) && b.lastError == None
               && b.attempts == 1 && b.maxAttempts == 2 && b.firstSeenAt == now && b.updatedAt == now
               && b.expiresAt == expiry && Describes(b, meta) && t'[key].mac == ComputeMac(hmac, secret, key, b)
  {
  }

  lemma BeginWithoutKey(hmac: Hmac, t: Table, expiry: Time, meta: Meta, secret: Secret, now: Time, token: Token)
    ensures BeginStep(hmac, t, "", expiry, meta, secret, now, token) == (t, KeyMissing)
  {
  }

  /** In terms of what happened: in every run, a request with a row is granted if and only if it has an attempt left
      and the last thing recorded is a retryable failure, or a grant or renewal five minutes ago or more. So the
      request of a worker that died is taken over by the first begin after its lease. */
  lemma TakenOverExactly(hmac: Hmac, k: Key, terms: Terms, w: World, e: Event)
    requires Reachable(hmac, k, terms, w) && e.Begin? && e.key == k && HasRow(hmac, w.table, k, e.secret, e.now)
    ensures w.history != []
    ensures var last := w.history[|w.history| - 1];
            IsGranted(hmac, w.table, e) <==>
              && w.table[k].body.attempts < 2
              && (if last.Finish? then last.state == RetryableFailure else 300 * SECOND <= e.now - last.at)
  {
    ReachableInv(hmac, k, terms, w);
    BeginAnswers(hmac, w.table, k, e.expiry, e.meta, e.secret, e.now, e.issued);
  }

  // ---------------------------------------------------------------- finalize

  /** Whoever shows the row's token, or anybody when it has none, passes. */
  predicate Admits(hmac: Hmac, t: Table, key: Key, secret: Secret, shown: Option<Token>) {
    && key != "" && key in t && Verified(hmac, secret, key, t[key])
    && (t[key].body.token == None || t[key].body.token == Some("") || t[key].body.token == shown)
  }

  /** A retryable failure of the last attempt. */
  predicate UsedUp(b: Body, final: State) {
    final == RetryableFailure && b.maxAttempts <= b.attempts
  }

  /** A finalize that is let through stores what the caller said: success as success at any attempt, and a failure as
      final when it was said to be or no attempt is left. The token is gone, and the error is the caller's, unless
      there was none for a failure of the last attempt. Everything else in the row stays. */
  lemma FinalizeStores(hmac: Hmac, t: Table, key: Key, final: State, error: Option<string>, secret: Secret, now: Time,
                       shown: Option<Token>)
    requires Admits(hmac, t, key, secret, shown)
    ensures var b := t[key].body; var (t', answer) := FinalizeStep(hmac, t, key, final, error, secret, now, shown);
            && answer == Written && key in t'
            && var b' := t'[key].body;
               && (b'.state == Completed <==> final == Completed)
               && (b'.state == FinalFailure <==> final == FinalFailure || UsedUp(b, final))
               && (b'.state == RetryableFailure <==> final == RetryableFailure && !UsedUp(b, final))
               && (final == Running || final == Consumed ==> b'.state == final)
               && b'.token == None && b'.updatedAt == now && b'.kind == Request
               && (UsedUp(b, final) && !Present(error) ==>
                     b'.lastError == Some("Delegation request retry limit exceeded"))
               && (!UsedUp(b, final) || Present(error) ==> b'.lastError == error)
               && SameRequest(b, b') && t'[key].mac == ComputeMac(hmac, secret, key, b')
  {
  }

  /** The fields that neither a finalize nor a heartbeat touches. */
  predicate SameRequest(b: Body, b': Body) {
    && b'.attempts == b.attempts && b'.maxAttempts == b.maxAttempts && b'.firstSeenAt == b.firstSeenAt
    && b'.expiresAt == b.expiresAt && b'.owner == b.owner && b'.delegationId == b.delegationId
    && b'.fingerprint == b.fingerprint
  }

  /** Any other finalize changes nothing; it raises exactly when the row does not verify. */
  lemma FinalizeRefuses(hmac: Hmac, t: Table, key: Key, final: State, error: Option<string>, secret: Secret, now: Time,
                        shown: Option<Token>)
    requires !Admits(hmac, t, key, secret, shown)
    ensures FinalizeStep(hmac, t, key, final, error, secret, now, shown)
         == (t, if key != "" && key in t && !Verified(hmac, secret, key, t[key]) then IntegrityError else Refused)
  {
  }

  // ---------------------------------------------------------------- heartbeat

  /** A heartbeat that is let through renews a running row, which keeps its token and its error; any other
      changes nothing. */
  lemma HeartbeatRenews(hmac: Hmac, t: Table, key: Key, secret: Secret, now: Time, shown: Option<Token>)
    ensures var (t', answer) := HeartbeatStep(hmac, t, key, secret, now, shown);
            && (answer == Written <==> Admits(hmac, t, key, secret, shown) && t[key].body.state == Running)
            && (answer == IntegrityError <==> key != "" && key in t && !Verified(hmac, secret, key, t[key]))
            && (answer != Written ==> t' == t)
            && (answer == Written ==>
                  && key in t'
                  && var b, b' := t[key].body, t'[key].body;
                     && b'.updatedAt == now && b'.state == Running && b'.token == b.token && b'.kind == Request
                     && b'.lastError == b.lastError && SameRequest(b, b')
                     && t'[key].mac == ComputeMac(hmac, secret, key, b'))
  {
  }

  // ---------------------------------------------------------------- consume

  /** A result is accepted if and only if it has a key, the coordinator has a secret and there is no row for it;
      it is then on record for a quarter of an hour, or until the expiry that was given. */
  lemma ConsumeRecords(hmac: Hmac, t: Table, key: Key, meta: Meta, expires: Option<Time>, secret: Secret, now: Time)
    ensures var (t', answer) := ConsumeStep(hmac, t, key, meta, expires, secret, now);
            var found := key in t && now < t[key].body.expiresAt;
            && (answer == ResultKeyMissing <==> key == "")
            && (answer == IntegrityKeyMissing <==> key != "" && !Present(secret))
            && (answer == Accepted <==> key != "" && Present(secret) && !found)
            && (answer == AlreadyConsumed <==>
                  key != "" && Present(secret) && found && Verified(hmac, secret, key, t[key]))
            && (answer == ConsumeIntegrityError <==>
                  key != "" && Present(secret) && found && !Verified(hmac, secret, key, t[key]))
            && (answer == AlreadyConsumed ==> key in t' && t'[key] == t[key])
            && (answer == Accepted ==>
                  && key in t'
                  && var b := t'[key].body;
                     && b.kind == Result && b.state == Consumed && b.attempts == 1 && b.maxAttempts == 1
                     && b.firstSeenAt == now && b.updatedAt == now && b.lastError == None && b.token == None
                     && (expires == None || expires == Some(0) ==> b.expiresAt == now + 900 * SECOND)
                     && (expires != None && expires != Some(0) ==> expires == Some(b.expiresAt))
                     && Describes(b, meta) && t'[key].mac == ComputeMac(hmac, secret, key, b))
  {
  }
}
