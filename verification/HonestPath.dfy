/**
 The whole way of an honest delegation: the gateway's receipt, the delegator's request, the worker's
 validation and grant, the handler's result and the coordinator's acceptance.
 */
module HonestPath {
  import opened Clock
  import opened Wrappers
  import opened Messages
  import opened Receipts
  import opened DelegationRequests
  import opened DelegationWorker
  import opened ResultVerifier
  import L = ReplayLedger
  import P = LedgerProtocol

  // ---------------------------------------------------------------- making requests

  const REQUEST: set<Field> :=
    {DelegationId, FromAgentId, ToAgentId, Action, TaskDescription, Parameters, Deadline, RequiredCapabilities, Nonce,
     IssuedAt, ExpiresAt, TeeAuthorization}

  /** What a delegator asks for; absent parameters are Null. */
  datatype Task = Task(to: string, action: string, description: string, parameters: Value, deadline: Value,
                       capabilities: seq<Value>, receipt: Value)

  /** The receipt's delegation id when there is one, as text, else a generated one. The text that stands for an id
      that is not text is left open, as the generated one is. */
  function IdFor(task: Task, generated: string): Value {
    var id := if task.receipt.Dict? then Get(task.receipt.doc, DelegationId) else Null;
    if Truthy(id) && id.Text? then id else Text(generated)
  }

  function GivenParameters(task: Task): Value {
    if task.parameters == Null then Dict(map[]) else task.parameters
  }

  function RequestEntry(from: string, task: Task, generated: string, nonce: string, now: Time, f: Field): Value {
    match f
    case DelegationId => IdFor(task, generated)
    case FromAgentId => Text(from)
    case ToAgentId => Text(task.to)
    case Action => Text(task.action)
    case TaskDescription => Text(task.description)
    case Parameters => GivenParameters(task)
    case Deadline => task.deadline
    case RequiredCapabilities => List(task.capabilities)
    case Nonce => Text(nonce)
    case IssuedAt => Num(now)
    case ExpiresAt => Num(now + DEFAULT_LIFETIME)
    case TeeAuthorization => task.receipt
    case _ => Null
  }

  function NewRequest(from: string, task: Task, generated: string, nonce: string, now: Time): Doc {
    map f | f in REQUEST && (f == TeeAuthorization ==> task.receipt != Null) ::
      RequestEntry(from, task, generated, nonce, now, f)
  }

  function SignRequest(c: Crypto, who: Identity, data: Doc, now: Time): Doc {
    SignAction(c, who, DELEGATE_TASK, Get(data, Nonce), Some(Dict(data)), now)[DelegationData := Dict(data)]
  }

  // ---------------------------------------------------------------- the honest parties

  /** A task the gateway authorized at one instant and the delegator signed at another. */
  datatype Setup = Setup(
    boss: Identity,
    gateway: Identity,
    worker: Identity,
    keyId: string,
    buildId: string,
    tee: Doc,
    task: Task,
    authorized: Time,
    expires: Time,
    delegated: Time,
    generated: string,
    nonce: string)

  /** The three parties sign with their own keys, the authorization is the gateway's, and the receipt and the
      request are among the payloads that were made. */
  ghost predicate Honest(c: Crypto, made: Doc -> bool, x: Setup) {
    && IsoRoundTrips(c) && NonEmptyDigest(c)
    && Genuine(c, x.boss, made) && Genuine(c, x.gateway, made) && Genuine(c, x.worker, made)
    && x.gateway.publicKey != "" && x.keyId != "" && x.task.action != ""
    && Enforced(c, x.tee, x.buildId, x.expires)
    && Get(x.tee, RoutedTo) == Text(x.worker.agentId)
    && Prepared(c, x)
    && made(DecisionPayload(c, x.gateway, x.keyId, DecisionOf(x))) && made(RequestPayload(c, x))
  }

  function DecisionOf(x: Setup): Decision {
    Decision(x.tee, x.task.action, x.task.parameters, x.authorized)
  }

  function RequestPayload(c: Crypto, x: Setup): Doc {
    NewPayload(c, x.boss, DELEGATE_TASK, Get(DataOfTask(x), Nonce), Some(Dict(DataOfTask(x))), x.delegated)
  }

  /** The job is meant for the worker and carries the receipt the gateway built for it. */
  ghost predicate Prepared(c: Crypto, x: Setup) {
    && x.task.to == x.worker.agentId && 0 < x.delegated
    && x.task.receipt.Dict? && Get(x.tee, DelegationId).Text?
    && BuildReceipt(c, x.gateway, x.keyId, x.tee, x.task.action, x.task.parameters, x.authorized)
    == Ok(x.task.receipt.doc)
  }

  /** Within the receipt's proof and the authorization. */
  predicate Authorized(x: Setup, now: Time) {
    now <= x.authorized + Messages.PROOF_TTL_SECONDS && now <= x.expires
  }

  function DataOfTask(x: Setup): Doc {
    NewRequest(x.boss.agentId, x.task, x.generated, x.nonce, x.delegated)
  }

  function RequestOfTask(x: Setup): Request {
    Request(Get(x.tee, DelegationId), Text(x.boss.agentId), Text(x.worker.agentId), Text(x.task.action),
            GivenParameters(x.task), x.delegated + DEFAULT_LIFETIME, x.task.receipt)
  }

  function GateOf(x: Setup, mode: Mode, flag: bool): Gate {
    TrustedGate(mode, x.gateway.publicKey, x.keyId, x.buildId, flag)
  }

  // ---------------------------------------------------------------- the request is admitted

  /** The receipt and the request name the same delegation and target. */
  ghost predicate Named(x: Setup) {
    && x.task.receipt.Dict? && Truthy(x.task.receipt)
    && Truthy(Get(x.tee, DelegationId)) && Get(x.tee, DelegationId).Text?
    && Get(x.task.receipt.doc, DelegationId) == Get(x.tee, DelegationId)
    && x.task.to == x.worker.agentId && 0 < x.delegated
  }

  lemma WithProofKeeps(body: Doc, proof: Doc, f: Field)
    requires f != GatewayPublicKeyHex && f != GatewayProof && f in body
    ensures f in WithProof(body, proof) && WithProof(body, proof)[f] == body[f]
  {
  }

  /** The receipt repeats the copied fields of the authorization. */
  lemma ReceiptCopies(c: Crypto, x: Setup, f: Field)
    requires Prepared(c, x) && f in COPIED
    ensures Get(x.task.receipt.doc, f) == Get(x.tee, f)
  {
    var body := NewBody(c, x.keyId, x.tee, x.task.action, x.task.parameters, x.authorized);
    BuiltParts(c, x.gateway, x.keyId, x.tee, x.task.action, x.task.parameters, x.authorized, x.task.receipt.doc);
    CopiedAreKept(f);
    NewBodyAt(c, x.keyId, x.tee, x.task.action, x.task.parameters, x.authorized, f);
    BodyFieldIs(c, x.keyId, x.tee, x.task.action, x.task.parameters, x.authorized, f);
    WithProofKeeps(body, SignAction(c, x.gateway, RECEIPT_ACTION, Get(x.tee, DelegationId), Some(Dict(body)),
                                    x.authorized), f);
  }

  lemma CopiedAreKept(f: Field)
    requires f in COPIED
    ensures f in BODY && f != GatewayPublicKeyHex && f != GatewayProof
  {
  }

  lemma BuiltHasId(c: Crypto, gateway: Identity, keyId: string, tee: Doc, action: string, parameters: Value, at: Time)
    requires BuildReceipt(c, gateway, keyId, tee, action, parameters, at).Ok?
    ensures Truthy(Get(tee, DelegationId))
  {
  }

  lemma NamedBy(x: Setup, r: Doc)
    requires x.task.receipt == Dict(r) && Get(r, DelegationId) == Get(x.tee, DelegationId)
    requires Truthy(Get(x.tee, DelegationId)) && Get(x.tee, DelegationId).Text?
    requires x.task.to == x.worker.agentId && 0 < x.delegated
    ensures Named(x)
  {
  }

  lemma ReceiptNamesTheTask(c: Crypto, x: Setup)
    requires Prepared(c, x)
    ensures Named(x)
  {
    BuiltHasId(c, x.gateway, x.keyId, x.tee, x.task.action, x.task.parameters, x.authorized);
    ReceiptCopies(c, x, DelegationId);
    NamedBy(x, x.task.receipt.doc);
  }

  lemma TaskReceiptAccepted(c: Crypto, made: Doc -> bool, x: Setup, now: Time)
    requires Honest(c, made, x) && Authorized(x, now)
    ensures VerifyReceipt(c, x.task.receipt,
                          Expected(x.gateway.publicKey, x.keyId, x.buildId, Get(x.tee, DelegationId),
                                   Text(x.worker.agentId), Text(x.task.action), GivenParameters(x.task)), now) == None
  {
    TaskReceiptInTime(c, made, x);
    AcceptedNow(c, x.task.receipt.doc, x.gateway, x.keyId, x.tee, x.task.action, x.task.parameters, x.authorized,
                x.expires, x.buildId, GivenParameters(x.task), now);
  }

  lemma TaskReceiptInTime(c: Crypto, made: Doc -> bool, x: Setup)
    requires Honest(c, made, x)
    ensures AcceptedInTime(c, x.task.receipt.doc, x.gateway, x.keyId, x.tee, x.task.action, x.task.parameters,
                           x.authorized, x.expires, x.buildId)
  {
    HonestReceiptAccepted(c, x.gateway, made, x.keyId, x.tee, x.task.action, x.task.parameters, x.authorized, x.expires,
                          x.buildId, x.task.receipt.doc);
  }

  lemma AcceptedNow(c: Crypto, r: Doc, gateway: Identity, keyId: string, tee: Doc, action: string, parameters: Value,
                    issued: Time, expires: Time, buildId: string, asked: Value, now: Time)
    requires AcceptedInTime(c, r, gateway, keyId, tee, action, parameters, issued, expires, buildId)
    requires OrEmpty(asked) == OrEmpty(parameters) && now <= issued + Messages.PROOF_TTL_SECONDS && now <= expires
    ensures VerifyReceipt(c, Dict(r), ExpectedFor(gateway, keyId, tee, action, asked, buildId), now) == None
  {
  }

  /** The request as it is written, field by field. */
  ghost predicate Asks(data: Doc, from: string, task: Task, generated: string, nonce: string, at: Time) {
    && AsksWhom(data, from, task, generated) && AsksWhat(data, task) && AsksWhen(data, task, nonce, at)
  }

  ghost predicate AsksWhom(data: Doc, from: string, task: Task, generated: string) {
    && Get(data, FromAgentId) == Text(from) && Get(data, ToAgentId) == Text(task.to)
    && Get(data, TeeAuthorization) == task.receipt
    && (if exists id: string :: id != "" && task.receipt.Dict? && Get(task.receipt.doc, DelegationId) == Text(id) then
          Get(data, DelegationId) == Get(task.receipt.doc, DelegationId)
        else Get(data, DelegationId) == Text(generated))
  }

  ghost predicate AsksWhat(data: Doc, task: Task) {
    && Get(data, Action) == Text(task.action) && Get(data, TaskDescription) == Text(task.description)
    && Get(data, Parameters) == (if task.parameters == Null then Dict(map[]) else task.parameters)
    && Get(data, RequiredCapabilities) == List(task.capabilities)
  }

  ghost predicate AsksWhen(data: Doc, task: Task, nonce: string, at: Time) {
    && Get(data, Deadline) == task.deadline && Get(data, Nonce) == Text(nonce)
    && Get(data, IssuedAt) == Num(at) && Get(data, ExpiresAt) == Num(at + 3600 * SECOND)
  }

  lemma EntryAt(from: string, task: Task, generated: string, nonce: string, now: Time, f: Field)
    requires f in REQUEST
    ensures Get(NewRequest(from, task, generated, nonce, now), f) == RequestEntry(from, task, generated, nonce, now, f)
  {
  }

  ghost predicate Entered(data: Doc, from: string, task: Task, generated: string, nonce: string, now: Time) {
    forall f: Field {:trigger Get(data, f)} ::
      f in REQUEST ==> Get(data, f) == RequestEntry(from, task, generated, nonce, now, f)
  }

  lemma EnteredWhom(data: Doc, from: string, task: Task, generated: string, nonce: string, at: Time)
    requires Entered(data, from, task, generated, nonce, at)
    ensures AsksWhom(data, from, task, generated)
  {
  }

  lemma EnteredWhat(data: Doc, from: string, task: Task, generated: string, nonce: string, at: Time)
    requires Entered(data, from, task, generated, nonce, at)
    ensures AsksWhat(data, task)
  {
  }

  lemma EnteredWhen(data: Doc, from: string, task: Task, generated: string, nonce: string, at: Time)
    requires Entered(data, from, task, generated, nonce, at)
    ensures AsksWhen(data, task, nonce, at)
  {
  }

  /** A new request says all that was asked for. */
  lemma NewRequestAsks(from: string, task: Task, generated: string, nonce: string, at: Time)
    ensures Asks(NewRequest(from, task, generated, nonce, at), from, task, generated, nonce, at)
  {
    var data := NewRequest(from, task, generated, nonce, at);
    forall f: Field | f in REQUEST
      ensures Get(data, f) == RequestEntry(from, task, generated, nonce, at, f)
    {
      EntryAt(from, task, generated, nonce, at, f);
    }
    EnteredWhom(data, from, task, generated, nonce, at);
    EnteredWhat(data, from, task, generated, nonce, at);
    EnteredWhen(data, from, task, generated, nonce, at);
  }

  ghost predicate Says(data: Doc, r: Request, issued: Time) {
    && GetOr(data, DelegationId, Text("")) == r.delegationId && GetOr(data, FromAgentId, Text("")) == r.fromAgentId
    && GetOr(data, ToAgentId, Text("")) == r.toAgentId && GetOr(data, Action, Text("")) == r.action
    && GetOr(data, Parameters, Dict(map[])) == r.parameters && Get(data, TeeAuthorization) == r.tee
    && GetOr(data, IssuedAt, Num(0)) == Num(issued) && GetOr(data, ExpiresAt, Num(0)) == Num(r.expiresAt)
  }

  lemma SaidIsRead(data: Doc, r: Request, issued: Time, signed: Doc, now: Time)
    requires Says(data, r, issued) && r.expiresAt != 0 && Get(signed, DelegationData) == Dict(data)
    ensures RequestFrom(signed, now) == Some(r)
  {
  }

  function AskedFor(from: string, task: Task, generated: string, at: Time): Request {
    Request(IdFor(task, generated), Text(from), Text(task.to), Text(task.action), GivenParameters(task),
            at + DEFAULT_LIFETIME, task.receipt)
  }

  lemma AskedIsSaid(data: Doc, from: string, task: Task, generated: string, nonce: string, at: Time)
    requires Asks(data, from, task, generated, nonce, at)
    ensures Says(data, AskedFor(from, task, generated, at), at)
  {
  }

  lemma NewRequestSays(from: string, task: Task, generated: string, nonce: string, at: Time)
    ensures Says(NewRequest(from, task, generated, nonce, at), AskedFor(from, task, generated, at), at)
  {
    NewRequestAsks(from, task, generated, nonce, at);
    AskedIsSaid(NewRequest(from, task, generated, nonce, at), from, task, generated, nonce, at);
  }

  /** What the worker reads is what the delegator asked for. */
  lemma RequestRoundTrip(from: string, task: Task, generated: string, nonce: string, at: Time, signed: Doc, now: Time)
    requires at + DEFAULT_LIFETIME != 0
    requires Get(signed, DelegationData) == Dict(NewRequest(from, task, generated, nonce, at))
    ensures RequestFrom(signed, now) == Some(AskedFor(from, task, generated, at))
  {
    NewRequestSays(from, task, generated, nonce, at);
    SaidIsRead(NewRequest(from, task, generated, nonce, at), AskedFor(from, task, generated, at), at, signed, now);
  }

  lemma AskedIsRequest(x: Setup)
    requires Named(x)
    ensures AskedFor(x.boss.agentId, x.task, x.generated, x.delegated) == RequestOfTask(x)
  {
  }

  lemma RequestIsRead(x: Setup, signed: Doc, now: Time)
    requires Named(x) && Get(signed, DelegationData) == Dict(DataOfTask(x))
    ensures RequestFrom(signed, now) == Some(RequestOfTask(x)) && DataOf(signed) == Dict(DataOfTask(x))
  {
    RequestRoundTrip(x.boss.agentId, x.task, x.generated, x.nonce, x.delegated, signed, now);
    AskedIsRequest(x);
  }

  lemma ExtendKeeps(m: Doc, f: Field, v: Value, g: Field)
    requires g != f
    ensures Get(m[f := v], g) == Get(m, g)
  {
  }

  /** A message with data beside it that verifies for an action. */
  ghost predicate GoodMessage(c: Crypto, m: Doc, who: Identity, action: string, nonce: Value, data: Doc, f: Field,
                              now: Time)
  {
    && VerifyAction(c, m, action, now) == None && Get(m, f) == Dict(data)
    && Get(m, DataHash) == Text(c.digest(Dict(data))) && Get(m, Nonce) == nonce
    && Get(m, PublicKeyHex) == Text(who.publicKey) && Get(m, AgentId) == Text(who.agentId)
  }

  lemma SignedIsGood(c: Crypto, who: Identity, made: Doc -> bool, action: string, nonce: Value, data: Doc, f: Field,
                     issued: Time, now: Time)
    requires Genuine(c, who, made) && IsoRoundTrips(c) && f !in REQUIRED && f !in PAYLOAD
    requires made(NewPayload(c, who, action, nonce, Some(Dict(data)), issued))
    requires now <= issued + Messages.PROOF_TTL_SECONDS
    ensures GoodMessage(c, SignAction(c, who, action, nonce, Some(Dict(data)), issued)[f := Dict(data)], who, action,
                        nonce, data, f, now)
  {
    var p := SignAction(c, who, action, nonce, Some(Dict(data)), issued);
    SignedVerifies(c, who, made, action, nonce, Some(Dict(data)), issued, action, now);
    SignedBears(c, who, action, nonce, Some(Dict(data)), issued);
    BorneFields(p, c, who, action, nonce, Some(Dict(data)), issued);
    ExtendedIsGood(c, p, who, action, nonce, data, f, now);
  }

  lemma ExtendedIsGood(c: Crypto, p: Doc, who: Identity, action: string, nonce: Value, data: Doc, f: Field, now: Time)
    requires f !in REQUIRED && f !in PAYLOAD && VerifyAction(c, p, action, now) == None
    requires Get(p, DataHash) == Text(c.digest(Dict(data))) && Get(p, Nonce) == nonce
    requires Get(p, PublicKeyHex) == Text(who.publicKey) && Get(p, AgentId) == Text(who.agentId)
    ensures GoodMessage(c, p[f := Dict(data)], who, action, nonce, data, f, now)
  {
    ExtraFieldIgnored(c, p, f, Dict(data), action, now);
    ExtendKeeps(p, f, Dict(data), DataHash);
    ExtendKeeps(p, f, Dict(data), Nonce);
    ExtendKeeps(p, f, Dict(data), PublicKeyHex);
    ExtendKeeps(p, f, Dict(data), AgentId);
  }

  /** Within the windows the target validates the request; the key is the data's. */
  lemma HonestRequestValidates(c: Crypto, made: Doc -> bool, x: Setup, mode: Mode, flag: bool, now: Time)
    requires Honest(c, made, x) && Authorized(x, now) && now <= x.delegated + Messages.PROOF_TTL_SECONDS
    ensures Validate(c, SignRequest(c, x.boss, DataOfTask(x), x.delegated), x.worker.agentId, GateOf(x, mode, flag),
                     now)
         == Ok(DataKey(c, DataOfTask(x)))
  {
    ReceiptNamesTheTask(c, x);
    RequestIsExpected(c, made, x, GateOf(x, mode, flag), now);
    SignedRequestCarries(c, made, x, now);
    GoodRequestValidates(c, x, SignRequest(c, x.boss, DataOfTask(x), x.delegated), GateOf(x, mode, flag), now);
  }

  /** What the receipt check of the request needs. */
  ghost predicate Expectable(c: Crypto, x: Setup, gate: Gate, now: Time) {
    var r := RequestOfTask(x);
    Truthy(r.tee) && gate.publicKey != "" && gate.keyId != "" && gate.buildId != ""
    && VerifyReceipt(c, r.tee, ExpectedBy(r, x.worker.agentId, gate), now) == None
  }

  /** A message that verifies and carries the request data under its hash. */
  ghost predicate Carries(c: Crypto, x: Setup, signed: Doc, now: Time) {
    && VerifyAction(c, signed, DELEGATE_TASK, now) == None
    && Get(signed, DelegationData) == Dict(DataOfTask(x))
    && DataHash in signed && signed[DataHash] == Text(c.digest(Dict(DataOfTask(x))))
  }

  lemma SignedRequestCarries(c: Crypto, made: Doc -> bool, x: Setup, now: Time)
    requires Genuine(c, x.boss, made) && IsoRoundTrips(c) && made(RequestPayload(c, x))
    requires now <= x.delegated + Messages.PROOF_TTL_SECONDS
    ensures Carries(c, x, SignRequest(c, x.boss, DataOfTask(x), x.delegated), now)
  {
    SignedDataIsGood(c, x.boss, made, DataOfTask(x), x.delegated, now);
    GoodIsCarried(c, x, SignRequest(c, x.boss, DataOfTask(x), x.delegated), Get(DataOfTask(x), Nonce), now);
  }

  lemma SignedDataIsGood(c: Crypto, who: Identity, made: Doc -> bool, data: Doc, issued: Time, now: Time)
    requires Genuine(c, who, made) && IsoRoundTrips(c)
    requires made(NewPayload(c, who, DELEGATE_TASK, Get(data, Nonce), Some(Dict(data)), issued))
    requires now <= issued + Messages.PROOF_TTL_SECONDS
    ensures GoodMessage(c, SignRequest(c, who, data, issued), who, DELEGATE_TASK, Get(data, Nonce), data,
                        DelegationData, now)
  {
    SignedIsGood(c, who, made, DELEGATE_TASK, Get(data, Nonce), data, DelegationData, issued, now);
  }

  lemma GoodIsCarried(c: Crypto, x: Setup, signed: Doc, nonce: Value, now: Time)
    requires GoodMessage(c, signed, x.boss, DELEGATE_TASK, nonce, DataOfTask(x), DelegationData, now)
    ensures Carries(c, x, signed, now)
  {
  }

  lemma GoodRequestValidates(c: Crypto, x: Setup, signed: Doc, gate: Gate, now: Time)
    requires NonEmptyDigest(c) && Named(x) && Expectable(c, x, gate, now) && Carries(c, x, signed, now)
    requires now <= x.delegated + Messages.PROOF_TTL_SECONDS
    ensures Validate(c, signed, x.worker.agentId, gate, now) == Ok(DataKey(c, DataOfTask(x)))
  {
    RequestIsRead(x, signed, now);
    ValidatesFromParts(c, signed, x.worker.agentId, gate, now);
  }

  lemma RequestIsExpected(c: Crypto, made: Doc -> bool, x: Setup, gate: Gate, now: Time)
    requires Honest(c, made, x) && Authorized(x, now)
    requires gate.publicKey == x.gateway.publicKey && gate.keyId == x.keyId && gate.buildId == x.buildId
    ensures Expectable(c, x, gate, now)
  {
    ReceiptNamesTheTask(c, x);
    TaskReceiptAccepted(c, made, x, now);
  }

  lemma ValidatesFromParts(c: Crypto, signed: Doc, receiver: string, gate: Gate, now: Time)
    requires NonEmptyDigest(c)
    requires VerifyAction(c, signed, DELEGATE_TASK, now) == None
    requires DataOf(signed).Dict? && DataHash in signed && signed[DataHash] == Text(c.digest(DataOf(signed)))
    requires RequestFrom(signed, now).Some?
    requires var r := RequestFrom(signed, now).value;
             && now <= r.expiresAt && r.toAgentId == Text(receiver) && Truthy(r.tee)
             && gate.publicKey != "" && gate.keyId != "" && gate.buildId != ""
             && VerifyReceipt(c, r.tee, ExpectedBy(r, receiver, gate), now) == None
    ensures Validate(c, signed, receiver, gate, now) == Ok(DataKey(c, DataOf(signed).doc))
  {
  }

  /** A worker that serves the request: its own identity, the gateway's configuration, and a policy and a handler
      for the action. */
  ghost predicate Serves(x: Setup, site: Site, mode: Mode, flag: bool) {
    && site.agentId == x.worker.agentId && site.gate == GateOf(x, mode, flag)
    && CanDelegate(site.policy, x.boss.agentId, x.worker.agentId, x.task.action)
    && CanPerform(site.policy, x.worker.agentId, x.task.action) && x.task.action in site.actions
  }

  /** The worker begins the job: its message passes the screening, and the ledger grants it unless it has a
      live row for it. */
  lemma HonestRequestIsGranted(c: Crypto, hmac: L.Hmac, made: Doc -> bool, x: Setup, site: Site, mode: Mode,
                               flag: bool, t: L.Table, now: Time, token: L.Token)
    requires Honest(c, made, x) && Authorized(x, now) && now <= x.delegated + Messages.PROOF_TTL_SECONDS
    requires Serves(x, site, mode, flag) && DataKey(c, DataOfTask(x)) !in L.Purge(t, now)
    ensures var signed := SignRequest(c, x.boss, DataOfTask(x), x.delegated);
            && Screened(c, site, signed, now) == Some((RequestOfTask(x), DataKey(c, DataOfTask(x))))
            && P.IsGranted(hmac, t, BeginEvent(c, site, RequestOfTask(x), DataKey(c, DataOfTask(x)), now, token))
  {
    var signed := SignRequest(c, x.boss, DataOfTask(x), x.delegated);
    HonestRequestValidates(c, made, x, mode, flag, now);
    ReceiptNamesTheTask(c, x);
    SignedRequestCarries(c, made, x, now);
    ScreenedFromParts(c, x, site, signed, now);
  }

  lemma ScreenedFromParts(c: Crypto, x: Setup, site: Site, signed: Doc, now: Time)
    requires Named(x) && Carries(c, x, signed, now)
    requires Validate(c, signed, site.agentId, site.gate, now) == Ok(DataKey(c, DataOfTask(x)))
    requires Ready(site, RequestOfTask(x))
    ensures Screened(c, site, signed, now) == Some((RequestOfTask(x), DataKey(c, DataOfTask(x))))
  {
    RequestIsRead(x, signed, now);
  }

  // ---------------------------------------------------------------- the result is accepted

  /** What the coordinator, who delegated the job, expects of the result. */
  function WantedFor(x: Setup): Wanted {
    Wanted(x.worker.agentId, x.worker.publicKey, Get(x.tee, DelegationId), x.boss.agentId, x.task.receipt,
           x.gateway.publicKey, x.keyId, x.task.action, GivenParameters(x.task), x.buildId)
  }

  function ResultOfTask(x: Setup, value: Value, nonce: string, at: Time): Doc {
    NewResult(RequestOfTask(x), x.worker.agentId, COMPLETED, value, Null, nonce, at)
  }

  /** What each stage of the coordinator's checks needs of the message and the data in it. */
  ghost predicate GoodEnvelope(c: Crypto, proof: Doc, w: Wanted, rd: Doc, now: Time) {
    && CheckEnvelope(c, proof, w, now) == None
    && ResultOf(proof) == Dict(rd) && Get(proof, Nonce) == Get(rd, Nonce)
  }

  ghost predicate GoodResult(c: Crypto, w: Wanted, rd: Doc, receipt: Value) {
    CheckResult(c, Get(rd, Nonce), rd, w) == None && Get(rd, TeeAuthorization) == receipt
  }

  lemma CheckedFromParts(c: Crypto, proof: Doc, w: Wanted, rd: Doc, receipt: Value, now: Time)
    requires GoodEnvelope(c, proof, w, rd, now) && GoodResult(c, w, rd, receipt)
    requires VerifyReceipt(c, receipt, ExpectedOf(w), now) == None
    ensures Checked(c, proof, w, now) == Ok(rd)
  {
  }

  ghost predicate Reports(rd: Doc, w: Wanted, nonce: Value) {
    && Get(rd, Nonce) == nonce && Get(rd, FromAgentId) == Text(w.workerId) && Get(rd, ToAgentId) == Text(w.coordinator)
    && Get(rd, DelegationId) == w.delegationId && Get(rd, Status) == Text(COMPLETED)
    && Get(rd, TeeAuthorization) == w.receipt
  }

  lemma ReportedIsGood(c: Crypto, rd: Doc, w: Wanted, nonce: Value)
    requires Reports(rd, w, nonce) && w.receipt.Dict? && Truthy(w.receipt)
    ensures GoodResult(c, w, rd, w.receipt)
  {
  }

  lemma NewResultReports(r: Request, w: Wanted, value: Value, nonce: string, at: Time)
    requires r.tee != Null && r.tee == w.receipt && r.delegationId == w.delegationId
    requires r.fromAgentId == Text(w.coordinator)
    ensures var rd := NewResult(r, w.workerId, COMPLETED, value, Null, nonce, at);
            Nonce in rd && Reports(rd, w, Text(nonce))
  {
    NewResultTells(r, w.workerId, COMPLETED, value, Null, nonce, at);
  }

  lemma ResultNames(c: Crypto, x: Setup, value: Value, nonce: string, at: Time)
    requires Named(x)
    ensures Nonce in ResultOfTask(x, value, nonce, at) && Get(ResultOfTask(x, value, nonce, at), Nonce) == Text(nonce)
    ensures GoodResult(c, WantedFor(x), ResultOfTask(x, value, nonce, at), x.task.receipt)
  {
    NewResultReports(RequestOfTask(x), WantedFor(x), value, nonce, at);
    ReportedIsGood(c, ResultOfTask(x, value, nonce, at), WantedFor(x), Text(nonce));
  }

  lemma EnvelopeFromMessage(c: Crypto, m: Doc, worker: Identity, w: Wanted, rd: Doc, now: Time)
    requires GoodMessage(c, m, worker, TASK_RESULT, Get(rd, Nonce), rd, ResultData, now)
    requires Specified(w) && Nonce in rd && w.workerKey == worker.publicKey && w.workerId == worker.agentId
    ensures GoodEnvelope(c, m, w, rd, now)
  {
  }

  lemma EnvelopeIsGood(c: Crypto, worker: Identity, made: Doc -> bool, w: Wanted, rd: Doc, at: Time, now: Time)
    requires Genuine(c, worker, made) && IsoRoundTrips(c) && Specified(w) && Nonce in rd
    requires made(IssuePayload(c, worker, Issue(rd, at)))
    requires w.workerKey == worker.publicKey && w.workerId == worker.agentId
    requires now <= at + Messages.PROOF_TTL_SECONDS
    ensures GoodEnvelope(c, SignResult(c, worker, rd, at), w, rd, now)
  {
    SignedIsGood(c, worker, made, TASK_RESULT, Get(rd, Nonce), rd, ResultData, at, now);
    EnvelopeFromMessage(c, SignResult(c, worker, rd, at), worker, w, rd, now);
  }

  /** A result of the worker, as it is issued. */
  function IssueOf(x: Setup, value: Value, nonce: string, at: Time): Issue {
    Issue(ResultOfTask(x, value, nonce, at), at)
  }

  /** The signed reply of a handler that returned passes every check of the coordinator. */
  lemma HonestResultIsChecked(c: Crypto, made: Doc -> bool, x: Setup, value: Value, nonce: string, at: Time, now: Time)
    requires Honest(c, made, x) && Authorized(x, now) && now <= at + Messages.PROOF_TTL_SECONDS
    requires made(IssuePayload(c, x.worker, IssueOf(x, value, nonce, at)))
    ensures Checked(c, SignResult(c, x.worker, ResultOfTask(x, value, nonce, at), at), WantedFor(x), now)
         == Ok(ResultOfTask(x, value, nonce, at))
    ensures Get(ResultOfTask(x, value, nonce, at), Nonce) == Text(nonce)
  {
    var rd, w := ResultOfTask(x, value, nonce, at), WantedFor(x);
    ReceiptNamesTheTask(c, x);
    ResultNames(c, x, value, nonce, at);
    EnvelopeIsGood(c, x.worker, made, w, rd, at, now);
    TaskReceiptAccepted(c, made, x, now);
    CheckedFromParts(c, SignResult(c, x.worker, rd, at), w, rd, x.task.receipt, now);
  }
}
