/**
 The coordinator's side of a result (src/result_verifier.py): a chain of checks on the signed message, then
 the nonce cache of the process, then the durable ledger.
 */
module ResultVerifier {
  import opened Clock
  import opened Wrappers
  import opened Messages
  import opened Receipts
  import opened DelegationRequests
  import opened DelegationWorker
  import L = ReplayLedger
  import P = LedgerProtocol
  import R = ResultReplay

  /** What the coordinator expects of a result; Null stands for a missing expectation. */
  datatype Wanted = Wanted(
    workerId: string,
    workerKey: string,
    delegationId: Value,
    coordinator: string,
    receipt: Value,
    gatewayKey: string,
    gatewayKeyId: string,
    action: string,
    parameters: Value,
    buildId: string)

  datatype Fault =
    | Unspecified | SignatureInvalid(why: Failure) | WrongKey | WrongSigner | DataHashDiffers | NotADictionary
    | NonceDiffers | WrongWorker | WrongCoordinator | WrongDelegation | NotCompleted | ReceiptAbsent
    | ReceiptDiffers | ReceiptRejected(refusal: Refusal) | NonceConsumed | ResultConsumed

  predicate Specified(w: Wanted) {
    w.receipt != Null && w.gatewayKey != "" && w.gatewayKeyId != "" && w.buildId != "" && w.action != ""
    && w.parameters != Null
  }

  function ResultOf(proof: Doc): Value {
    OrEmpty(Get(proof, ResultData))
  }

  // ---------------------------------------------------------------- the checks

  function CheckEnvelope(c: Crypto, proof: Doc, w: Wanted, now: Time): Option<Fault> {
    if !Specified(w) then Some(Unspecified)
    else
      match VerifyAction(c, proof, TASK_RESULT, now)
      case Some(why) => Some(SignatureInvalid(why))
      case None =>
        if Get(proof, PublicKeyHex) != Text(w.workerKey) then Some(WrongKey)
        else if Get(proof, AgentId) != Text(w.workerId) then Some(WrongSigner)
        else if Get(proof, DataHash) != Text(c.digest(ResultOf(proof))) then Some(DataHashDiffers)
        else if !ResultOf(proof).Dict? then Some(NotADictionary)
        else None
  }

  function CheckResult(c: Crypto, nonce: Value, rd: Doc, w: Wanted): Option<Fault> {
    var receipt := Get(rd, TeeAuthorization);
    if nonce != Get(rd, Nonce) then Some(NonceDiffers)
    else if Get(rd, FromAgentId) != Text(w.workerId) then Some(WrongWorker)
    else if Get(rd, ToAgentId) != Text(w.coordinator) then Some(WrongCoordinator)
    else if Get(rd, DelegationId) != w.delegationId then Some(WrongDelegation)
    else if Get(rd, Status) != Text(COMPLETED) then Some(NotCompleted)
    else if !Truthy(receipt) then Some(ReceiptAbsent)
    else if !receipt.Dict? || !w.receipt.Dict? then Some(NotADictionary)
    else if Fingerprint(c, receipt.doc) != Fingerprint(c, w.receipt.doc) then Some(ReceiptDiffers)
    else None
  }

  function ExpectedOf(w: Wanted): Expected {
    Expected(w.gatewayKey, w.gatewayKeyId, w.buildId, w.delegationId, Text(w.workerId), Text(w.action), w.parameters)
  }

  /** The result data, when every check on the message passes. */
  function Checked(c: Crypto, proof: Doc, w: Wanted, now: Time): Result<Doc, Fault> {
    var envelope := CheckEnvelope(c, proof, w, now);
    if envelope.Some? then Err(envelope.value)
    else if !ResultOf(proof).Dict? then Err(NotADictionary)
    else
      var rd := ResultOf(proof).doc;
      var result := CheckResult(c, Get(proof, Nonce), rd, w);
      if result.Some? then Err(result.value)
      else
        match VerifyReceipt(c, Get(rd, TeeAuthorization), ExpectedOf(w), now)
        case Some(refusal) => Err(ReceiptRejected(refusal))
        case None => Ok(rd)
  }

  // ---------------------------------------------------------------- the checks, field by field

  /** Everything the coordinator must expect of a result is there. */
  predicate Expects(w: Wanted) {
    && w.receipt != Null && w.parameters != Null
    && w.gatewayKey != "" && w.gatewayKeyId != "" && w.buildId != "" && w.action != ""
  }

  /** The message is the wanted worker's, signed for a result over this data, which is beside it. */
  ghost predicate Brings(c: Crypto, proof: Doc, w: Wanted, rd: Doc, now: Time) {
    && VerifyAction(c, proof, "TASK_RESULT", now) == None
    && Get(proof, PublicKeyHex) == Text(w.workerKey) && Get(proof, AgentId) == Text(w.workerId)
    && Get(proof, ResultData) == Dict(rd) && Get(proof, DataHash) == Text(c.digest(Dict(rd)))
  }

  /** The data is a success of the wanted delegation, from the worker to the coordinator, under the nonce of the
      message. */
  ghost predicate Succeeded(proof: Doc, w: Wanted, rd: Doc) {
    && Get(rd, Status) == Text("COMPLETED") && Get(rd, DelegationId) == w.delegationId
    && Get(rd, FromAgentId) == Text(w.workerId) && Get(rd, ToAgentId) == Text(w.coordinator)
    && Get(rd, Nonce) == Get(proof, Nonce)
  }

  /** It carries the receipt that was delegated with, or one with the same body. */
  ghost predicate Matches(c: Crypto, w: Wanted, rd: Doc) {
    exists receipt: Doc, wanted: Doc ::
      && receipt != map[] && Get(rd, TeeAuthorization) == Dict(receipt) && w.receipt == Dict(wanted)
      && Fingerprint(c, receipt) == Fingerprint(c, wanted)
  }

  /** ... and the receipt is good for what was delegated. */
  ghost predicate Covered(c: Crypto, w: Wanted, rd: Doc, now: Time) {
    && Matches(c, w, rd)
    && VerifyReceipt(c, Get(rd, TeeAuthorization),
                     Expected(w.gatewayKey, w.gatewayKeyId, w.buildId, w.delegationId, Text(w.workerId), Text(w.action),
                              w.parameters), now) == None
  }

  lemma EnvelopeExactly(c: Crypto, proof: Doc, w: Wanted, rd: Doc, now: Time)
    requires rd != map[]
    ensures CheckEnvelope(c, proof, w, now) == None && ResultOf(proof) == Dict(rd)
       <==> Expects(w) && Brings(c, proof, w, rd, now)
  {
  }

  lemma ResultExactly(c: Crypto, proof: Doc, w: Wanted, rd: Doc)
    ensures CheckResult(c, Get(proof, Nonce), rd, w) == None <==> Succeeded(proof, w, rd) && Matches(c, w, rd)
  {
  }

  /** A message passes every check, with this data, if and only if the data is a covered success that the wanted
      worker's message brings. */
  lemma CheckedExactly(c: Crypto, proof: Doc, w: Wanted, rd: Doc, now: Time)
    ensures Checked(c, proof, w, now) == Ok(rd)
       <==> Expects(w) && Brings(c, proof, w, rd, now) && Succeeded(proof, w, rd) && Covered(c, w, rd, now)
  {
    if rd == map[] {
      assert Get(rd, Status) == Null;
    }
    CheckedInStages(c, proof, w, rd, now);
    if rd != map[] {
      EnvelopeExactly(c, proof, w, rd, now);
    }
    ResultExactly(c, proof, w, rd);
  }

  lemma CheckedInStages(c: Crypto, proof: Doc, w: Wanted, rd: Doc, now: Time)
    ensures Checked(c, proof, w, now) == Ok(rd)
       <==> && CheckEnvelope(c, proof, w, now) == None && ResultOf(proof) == Dict(rd)
            && CheckResult(c, Get(proof, Nonce), rd, w) == None
            && VerifyReceipt(c, Get(rd, TeeAuthorization), ExpectedOf(w), now) == None
  {
  }

  /** A message whose data says anything but COMPLETED is refused. */
  lemma FailuresAreRefused(c: Crypto, proof: Doc, w: Wanted, rd: Doc, now: Time)
    requires Get(proof, ResultData) == Dict(rd) && Get(rd, Status) != Text("COMPLETED")
    ensures Checked(c, proof, w, now).Err?
  {
    if Checked(c, proof, w, now).Ok? {
      CheckedExactly(c, proof, w, Checked(c, proof, w, now).value, now);
    }
  }

  // ---------------------------------------------------------------- the durable record

  function TextOrEmpty(v: Value): string {
    if v.Text? then v.s else ""
  }

  function ResultKeyDoc(c: Crypto, w: Wanted, rd: Doc): Doc {
    map[WorkerPublicKeyHex := Text(w.workerKey), CoordinatorId := Text(w.coordinator),
        DelegationId := Get(rd, DelegationId), ResultNonce := Get(rd, Nonce),
        ReceiptFingerprint := Text(Fingerprint(c, ReceiptIn(Get(rd, TeeAuthorization))))]
  }

  function ResultKey(c: Crypto, w: Wanted, rd: Doc): string {
    c.digest(Dict(ResultKeyDoc(c, w, rd)))
  }

  /** The consume that a checked result leads to; no expiry is given. */
  function ConsumeEvent(c: Crypto, proof: Doc, w: Wanted, rd: Doc, secret: L.Secret, now: Time): P.Event {
    P.Consume(ResultKey(c, w, rd), secret, now,
              L.Meta(w.coordinator, TextOrEmpty(Get(rd, DelegationId)), TextOrEmpty(Get(proof, DataHash))), None)
  }

  /** The nonce is there, and not in the window of those accepted so far. */
  ghost predicate Unseen(nonce: Value, accepted: seq<R.Stamp>, now: Time) {
    R.Usable(nonce) && forall window :: R.IsWindow(window, accepted, now) ==> nonce !in R.Nonces(window)
  }

  /** The message passes every check and brings a nonce that is new to the process. */
  ghost predicate Arrives(c: Crypto, proof: Doc, w: Wanted, now: Time, accepted: seq<R.Stamp>, monotonic: Time) {
    Checked(c, proof, w, now).Ok? && Unseen(Get(Checked(c, proof, w, now).value, Nonce), accepted, monotonic)
  }

  /** The consume of a message that passes every check. */
  function ConsumeOf(c: Crypto, proof: Doc, w: Wanted, secret: L.Secret, now: Time): P.Event
    requires Checked(c, proof, w, now).Ok?
  {
    ConsumeEvent(c, proof, w, Checked(c, proof, w, now).value, secret, now)
  }

  /** The row that is kept for it names the coordinator, the delegation and the hash of the message's data. */
  lemma ConsumeNames(c: Crypto, proof: Doc, w: Wanted, rd: Doc, secret: L.Secret, now: Time)
    requires Brings(c, proof, w, rd, now)
    ensures var e := ConsumeEvent(c, proof, w, rd, secret, now);
            && e.key == ResultKey(c, w, rd) && e.secret == secret && e.now == now && e.expires == None
            && e.meta.owner == w.coordinator && e.meta.fingerprint == c.digest(Dict(rd))
            && (Get(rd, DelegationId).Text? ==> Get(rd, DelegationId) == Text(e.meta.delegationId))
  {
  }

  class Coordinator {
    const crypto: Crypto
    const ledger: L.Ledger
    const cache: R.NonceCache
    const secret: L.Secret

    constructor (crypto: Crypto, ledger: L.Ledger, cache: R.NonceCache, secret: L.Secret)
      ensures this.crypto == crypto && this.ledger == ledger && this.cache == cache && this.secret == secret
    {
      this.crypto, this.ledger, this.cache, this.secret := crypto, ledger, cache, secret;
    }

    /** A message is accepted exactly when it passes every check, brings a new nonce, and the ledger accepts
        it. A message that fails a check leaves no trace, nor does one with an old nonce; a new nonce is used
        up even if the ledger refuses. */
    method VerifyWorkerResult(proof: Doc, w: Wanted, now: Time, monotonic: Time) returns (r: Result<Doc, Fault>)
      requires cache.Valid() && cache.clock <= monotonic
      modifies cache, ledger`entries
      ensures cache.Valid() && cache.clock <= monotonic
      ensures Arrives(crypto, proof, w, now, old(cache.accepted), monotonic) ==>
                var rd, e := Checked(crypto, proof, w, now).value, ConsumeOf(crypto, proof, w, secret, now);
                && cache.accepted == old(cache.accepted) + [R.Stamp(Get(rd, Nonce), monotonic)]
                && ledger.entries == P.TableAfter(ledger.hmac, old(ledger.entries), e)
                && r == if R.IsAccepted(ledger.hmac, e.key, old(ledger.entries), e) then Ok(rd) else Err(ResultConsumed)
      ensures r.Ok? ==>
                && Expects(w) && Brings(crypto, proof, w, r.value, now)
                && Succeeded(proof, w, r.value) && Covered(crypto, w, r.value, now)
      ensures !Arrives(crypto, proof, w, now, old(cache.accepted), monotonic) ==>
                && cache.accepted == old(cache.accepted) && ledger.entries == old(ledger.entries)
                && r == var checked := Checked(crypto, proof, w, now);
                        if checked.Err? then checked else Err(NonceConsumed)
    {
      var checked := Checked(crypto, proof, w, now);
      if checked.Err? {
        return checked;
      }
      var rd := checked.value;
      var isNew := ConsumeNonce(Get(rd, Nonce), monotonic);
      if !isNew {
        return Err(NonceConsumed);
      }
      var consumed := ConsumeResult(proof, w, rd, now);
      CheckedExactly(crypto, proof, w, rd, now);
      return if consumed then Ok(rd) else Err(ResultConsumed);
    }

    method ConsumeNonce(nonce: Value, monotonic: Time) returns (isNew: bool)
      requires cache.Valid() && cache.clock <= monotonic
      modifies cache
      ensures cache.Valid() && cache.clock <= monotonic
      ensures isNew <==> Unseen(nonce, old(cache.accepted), monotonic)
      ensures isNew ==> cache.accepted == old(cache.accepted) + [R.Stamp(nonce, monotonic)]
      ensures !isNew ==> cache.accepted == old(cache.accepted)
    {
      isNew := cache.ConsumeNonce(nonce, monotonic);
      if isNew {
        assert cache.accepted[|old(cache.accepted)|] == R.Stamp(nonce, monotonic);
      } else {
        assert R.IsWindow(cache.order, old(cache.accepted), monotonic);
      }
    }

    method ConsumeResult(proof: Doc, w: Wanted, rd: Doc, now: Time) returns (accepted: bool)
      modifies ledger`entries
      ensures var e := ConsumeEvent(crypto, proof, w, rd, secret, now);
              && ledger.entries == P.TableAfter(ledger.hmac, old(ledger.entries), e)
              && (accepted <==> R.IsAccepted(ledger.hmac, e.key, old(ledger.entries), e))
    {
      var e := ConsumeEvent(crypto, proof, w, rd, secret, now);
      var outcome := ledger.ConsumeResult(e.key, e.meta, None, secret, now);
      return outcome == L.Accepted;
    }
  }

  // ---------------------------------------------------------------- accepted results were issued

  /** One result a worker signed, under the nonce it carries. */
  datatype Issue = Issue(result: Doc, at: Time)

  function IssuePayload(c: Crypto, worker: Identity, i: Issue): Doc {
    NewPayload(c, worker, TASK_RESULT, Get(i.result, Nonce), Some(Dict(i.result)), i.at)
  }

  /** The result payloads signed under the worker's key are those of the results it issued. */
  ghost predicate SignsResults(c: Crypto, worker: Identity, issued: Issue -> bool) {
    SignsOnly(c, worker.publicKey, (payload: Doc) => FromIssue(c, worker, issued, payload))
  }

  ghost predicate FromIssue(c: Crypto, worker: Identity, issued: Issue -> bool, payload: Doc) {
    Get(payload, Action) == Text(TASK_RESULT) ==>
      exists i: Issue :: issued(i) && payload == IssuePayload(c, worker, i)
  }

  lemma CheckedParts(c: Crypto, proof: Doc, w: Wanted, now: Time)
    requires Checked(c, proof, w, now).Ok?
    ensures var rd := Checked(c, proof, w, now).value;
            && VerifyAction(c, proof, TASK_RESULT, now) == None && Get(proof, PublicKeyHex) == Text(w.workerKey)
            && Get(proof, DataHash) == Text(c.digest(Dict(rd))) && Get(proof, Nonce) == Get(rd, Nonce)
  {
  }

  /** Whatever is accepted as a worker's result, the worker issued it, as it is, no longer than the proof's
      lifetime ago. */
  lemma CheckedWasIssued(c: Crypto, proof: Doc, w: Wanted, worker: Identity, issued: Issue -> bool, now: Time)
    returns (i: Issue)
    requires InjectiveDigest(c) && IsoRoundTrips(c) && SignsResults(c, worker, issued)
    requires w.workerKey == worker.publicKey && Checked(c, proof, w, now).Ok?
    ensures issued(i) && i.result == Checked(c, proof, w, now).value
    ensures now <= i.at + Messages.PROOF_TTL_SECONDS
  {
    CheckedParts(c, proof, w, now);
    i := ResultWasIssued(c, proof, worker, issued, now);
    assert Dict(i.result) == Dict(Checked(c, proof, w, now).value);
  }

  lemma ResultWasIssued(c: Crypto, proof: Doc, worker: Identity, issued: Issue -> bool, now: Time) returns (i: Issue)
    requires InjectiveDigest(c) && IsoRoundTrips(c) && SignsResults(c, worker, issued)
    requires VerifyAction(c, proof, TASK_RESULT, now) == None && Get(proof, PublicKeyHex) == Text(worker.publicKey)
    ensures issued(i) && Get(proof, DataHash) == Text(c.digest(Dict(i.result)))
    ensures now <= i.at + Messages.PROOF_TTL_SECONDS
  {
    var made := (payload: Doc) => FromIssue(c, worker, issued, payload);
    VerifiedWasMade(c, proof, TASK_RESULT, now, made);
    i :| issued(i) && Payload(proof) == IssuePayload(c, worker, i);
    VerifiedMade(c, proof, worker, TASK_RESULT, Get(i.result, Nonce), Dict(i.result), i.at, now);
  }

  /** Whatever passes as a result of the wanted worker is a success that this worker issued, no longer than the
      proof's lifetime ago, for a delegation that the gateway decided on: for this worker, action, parameters and
      build, in its window, as the receipt that was delegated with says. */
  lemma ResultIsVouchedFor(c: Crypto, proof: Doc, w: Wanted, rd: Doc, worker: Identity, issued: Issue -> bool,
                           gateway: Identity, decided: Decision -> bool, now: Time) returns (i: Issue, d: Decision)
    requires InjectiveDigest(c) && IsoRoundTrips(c)
    requires SignsResults(c, worker, issued) && w.workerKey == worker.publicKey
    requires SignsDecisions(c, gateway, w.gatewayKeyId, decided) && w.gatewayKey == gateway.publicKey
    requires Checked(c, proof, w, now) == Ok(rd)
    ensures Succeeded(proof, w, rd)
    ensures issued(i) && i.result == rd && now <= i.at + 300 * SECOND
    ensures decided(d) && Authorizes(c, d, ExpectedOf(w), now)
    ensures Get(rd, TeeAuthorization).Dict? && w.receipt.Dict?
    ensures SameBody(Get(rd, TeeAuthorization).doc, w.receipt.doc)
    ensures Body(w.receipt.doc) == NewBody(c, w.gatewayKeyId, d.tee, d.action, d.parameters, d.at)
  {
    CheckedExactly(c, proof, w, rd, now);
    i := CheckedWasIssued(c, proof, w, worker, issued, now);
    var receipt := Get(rd, TeeAuthorization);
    d := AcceptedReceiptIsAuthorized(c, receipt, ExpectedOf(w), gateway, decided, now);
    FingerprintDecidesBody(c, receipt.doc, w.receipt.doc);
    SameDocument(c, Body(receipt.doc), Body(w.receipt.doc));
  }

  // ---------------------------------------------------------------- one acceptance

  lemma ResultKeyBinds(c: Crypto, w1: Wanted, rd1: Doc, w2: Wanted, rd2: Doc)
    requires InjectiveDigest(c) && ResultKey(c, w1, rd1) == ResultKey(c, w2, rd2)
    ensures w1.workerKey == w2.workerKey && w1.coordinator == w2.coordinator
    ensures Get(rd1, Nonce) == Get(rd2, Nonce) && Get(rd1, DelegationId) == Get(rd2, DelegationId)
    ensures SameBody(ReceiptIn(Get(rd1, TeeAuthorization)), ReceiptIn(Get(rd2, TeeAuthorization)))
  {
    var m, n := ResultKeyDoc(c, w1, rd1), ResultKeyDoc(c, w2, rd2);
    assert Dict(m) == Dict(n);
    assert m[WorkerPublicKeyHex] == n[WorkerPublicKeyHex] && m[CoordinatorId] == n[CoordinatorId];
    assert m[DelegationId] == n[DelegationId] && m[ResultNonce] == n[ResultNonce];
    assert m[ReceiptFingerprint] == n[ReceiptFingerprint];
    FingerprintDecidesBody(c, ReceiptIn(Get(rd1, TeeAuthorization)), ReceiptIn(Get(rd2, TeeAuthorization)));
  }

  /** Requests and results share one table but never a key. */
  lemma KeysAreDisjoint(c: Crypto, w: Wanted, rd: Doc, data: Doc)
    requires InjectiveDigest(c)
    ensures ResultKey(c, w, rd) != DataKey(c, data)
  {
    assert CoordinatorId in ResultKeyDoc(c, w, rd);
    assert Dict(ResultKeyDoc(c, w, rd))
        != Dict(ReplayKeyDoc(c, GetOr(data, DelegationId, Text("")), Text(c.digest(Dict(data))),
                             ReceiptIn(Get(data, TeeAuthorization))));
  }

  /** One transaction on the shared ledger; a consume comes with the message that led to it. */
  datatype Attempt = Attempt(event: P.Event, proof: Doc, wanted: Wanted)

  ghost predicate Plausible(c: Crypto, issued: Issue -> bool, clock: Time, a: Attempt) {
    var e := a.event;
    && clock <= e.now
    && (e.Begin? ==> exists data: Doc :: e.key == DataKey(c, data))
    && (e.Consume? ==>
          var checked := Checked(c, a.proof, a.wanted, e.now);
          && checked.Ok? && e == ConsumeEvent(c, a.proof, a.wanted, checked.value, e.secret, e.now)
          && forall i: Issue :: issued(i) && i.result == checked.value ==> i.at <= e.now)
  }

  /** Begins are made under request keys, consumes after the checks, and no message is presented before its
      result is issued. Coordinators, processes, restarts and other workers are as they like. */
  ghost predicate PlausibleRun(c: Crypto, issued: Issue -> bool, clock: Time, run: seq<Attempt>)
    decreases |run|
  {
    run == [] || (Plausible(c, issued, clock, run[0]) && PlausibleRun(c, issued, run[0].event.now, run[1..]))
  }

  function Events(run: seq<Attempt>): seq<P.Event> {
    if run == [] then [] else [run[0].event] + Events(run[1..])
  }

  /** A worker never uses a result nonce at two instants. */
  ghost predicate NoncesFresh(issued: Issue -> bool) {
    forall i: Issue, j: Issue :: issued(i) && issued(j) && Get(i.result, Nonce) == Get(j.result, Nonce) ==> i.at == j.at
  }

  lemma ConsumeInWindow(c: Crypto, worker: Identity, issued: Issue -> bool, w: Wanted, rd: Doc, clock: Time, a: Attempt)
    returns (i: Issue)
    requires InjectiveDigest(c) && IsoRoundTrips(c) && SignsResults(c, worker, issued)
    requires w.workerKey == worker.publicKey
    requires Plausible(c, issued, clock, a) && a.event.Consume? && a.event.key == ResultKey(c, w, rd)
    ensures issued(i) && Get(i.result, Nonce) == Get(rd, Nonce)
    ensures i.at <= a.event.now <= i.at + Messages.PROOF_TTL_SECONDS && a.event.expires == None
  {
    var accepted := Checked(c, a.proof, a.wanted, a.event.now).value;
    ResultKeyBinds(c, w, rd, a.wanted, accepted);
    i := CheckedWasIssued(c, a.proof, a.wanted, worker, issued, a.event.now);
  }

  lemma {:induction false} PlausibleIsPresented(c: Crypto, worker: Identity, issued: Issue -> bool, w: Wanted, rd: Doc,
                                                issue: Time, clock: Time, run: seq<Attempt>)
    requires InjectiveDigest(c) && IsoRoundTrips(c) && SignsResults(c, worker, issued)
    requires w.workerKey == worker.publicKey && PlausibleRun(c, issued, clock, run)
    requires forall i: Issue :: issued(i) && Get(i.result, Nonce) == Get(rd, Nonce) ==> i.at == issue
    ensures R.Presented(ResultKey(c, w, rd), issue, issue + Messages.PROOF_TTL_SECONDS, clock, Events(run))
    decreases |run|
  {
    if run != [] {
      var a, e := run[0], run[0].event;
      if e.key == ResultKey(c, w, rd) {
        if e.Begin? {
          var data: Doc :| e.key == DataKey(c, data);
          KeysAreDisjoint(c, w, rd, data);
          assert false;
        } else if e.Consume? {
          var i := ConsumeInWindow(c, worker, issued, w, rd, clock, a);
        }
      }
      PlausibleIsPresented(c, worker, issued, w, rd, issue, e.now, run[1..]);
      assert Events(run)[0] == e && Events(run)[1..] == Events(run[1..]);
    }
  }

  /** A result of an honest worker is accepted at most once, over any run of any number of coordinator
      processes that share the ledger, whatever became of their caches. */
  lemma ResultIsAcceptedOnce(c: Crypto, hmac: L.Hmac, worker: Identity, issued: Issue -> bool, w: Wanted, rd: Doc,
                             clock: Time, t: L.Table, run: seq<Attempt>)
    requires InjectiveDigest(c) && IsoRoundTrips(c) && SignsResults(c, worker, issued) && NoncesFresh(issued)
    requires w.workerKey == worker.publicKey && PlausibleRun(c, issued, clock, run)
    ensures R.Acceptances(hmac, ResultKey(c, w, rd), t, Events(run)) <= 1
  {
    var issue := RunIsPresented(c, worker, issued, w, rd, clock, run);
    R.HonestResultIsAcceptedOnce(hmac, ResultKey(c, w, rd), issue, clock, t, Events(run));
  }

  /** ... and on a ledger without a row for it, exactly once, if any process with a secret gets as far as
      consuming it. */
  lemma ResultIsAcceptedExactlyOnce(c: Crypto, hmac: L.Hmac, worker: Identity, issued: Issue -> bool, w: Wanted,
                                    rd: Doc, clock: Time, t: L.Table, run: seq<Attempt>)
    requires InjectiveDigest(c) && NonEmptyDigest(c) && IsoRoundTrips(c)
    requires SignsResults(c, worker, issued) && NoncesFresh(issued)
    requires w.workerKey == worker.publicKey && PlausibleRun(c, issued, clock, run) && ResultKey(c, w, rd) !in t
    ensures R.Acceptances(hmac, ResultKey(c, w, rd), t, Events(run))
         == if R.Tried(ResultKey(c, w, rd), Events(run)) then 1 else 0
  {
    var key := ResultKey(c, w, rd);
    var issue := RunIsPresented(c, worker, issued, w, rd, clock, run);
    assert c.digest(Dict(ResultKeyDoc(c, w, rd))) != "";
    R.AcceptedWhenTried(hmac, key, issue, issue + Messages.PROOF_TTL_SECONDS, clock, t, Events(run));
    R.HonestResultIsAcceptedOnce(hmac, key, issue, clock, t, Events(run));
  }

  lemma RunIsPresented(c: Crypto, worker: Identity, issued: Issue -> bool, w: Wanted, rd: Doc, clock: Time,
                       run: seq<Attempt>) returns (issue: Time)
    requires InjectiveDigest(c) && IsoRoundTrips(c) && SignsResults(c, worker, issued) && NoncesFresh(issued)
    requires w.workerKey == worker.publicKey && PlausibleRun(c, issued, clock, run)
    ensures R.Presented(ResultKey(c, w, rd), issue, issue + Messages.PROOF_TTL_SECONDS, clock, Events(run))
  {
    issue := 0;
    if i: Issue :| issued(i) && Get(i.result, Nonce) == Get(rd, Nonce) {
      issue := i.at;
    }
    PlausibleIsPresented(c, worker, issued, w, rd, issue, clock, run);
  }
}
