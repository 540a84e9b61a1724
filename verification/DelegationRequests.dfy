/**
 Delegation requests as the worker reads and validates them (src/delegation_protocol.py), and the replay
 key and retention it derives from them.
 */
module DelegationRequests {
  import opened Clock
  import opened Wrappers
  import opened Messages
  import opened Receipts

  const DELEGATE_TASK: string := "DELEGATE_TASK"
  const DEFAULT_LIFETIME: Time := 3600 * SECOND

  /** The fields of a request that validation and dispatch look at. */
  datatype Request = Request(
    delegationId: Value,
    fromAgentId: Value,
    toAgentId: Value,
    action: Value,
    parameters: Value,
    expiresAt: Time,
    tee: Value)

  /** What the worker trusts its own configuration for. */
  datatype Gate = Gate(publicKey: string, keyId: string, buildId: string, requireReceipt: bool)

  datatype Mode = Live | Demo | TestMode

  /** Live mode, a configured gateway or the flag: any one makes the receipt mandatory. */
  function TrustedGate(mode: Mode, publicKey: string, keyId: string, buildId: string, flag: bool): Gate {
    Gate(publicKey, keyId, buildId, mode == Live || publicKey != "" || keyId != "" || buildId != "" || flag)
  }

  datatype Rejection =
    | Malformed | BadSignature(why: Failure) | Tampered | Expired | WrongAudience | ReceiptRequired
    | GatewayKeyRequired | GatewayKeyIdRequired | BuildIdRequired | BadReceipt(refusal: Refusal)
    | ReplayKeyMissing

  /** A Python number, in millionths: booleans count as 0 and 1. */
  function Number(v: Value): Option<int> {
    match v
    case Num(n) => Some(n)
    case Bool(b) => Some(if b then SECOND else 0)
    case _ => None
  }

  predicate IsZero(v: Value) {
    Number(v) == Some(0)
  }

  function DataOf(signed: Doc): Value {
    GetOr(signed, DelegationData, Dict(map[]))
  }

  /** The expiry the request object ends up with: a zero issue time is read as now, and a zero expiry as
      an hour after the issue. None when the fields are not numbers. */
  function ExpiryOf(data: Doc, now: Time): Option<Time> {
    var issued := GetOr(data, IssuedAt, Num(0));
    var expires := GetOr(data, ExpiresAt, Num(0));
    if !IsZero(expires) then Number(expires)
    else if IsZero(issued) then Some(now + DEFAULT_LIFETIME)
    else match Number(issued) case None => None case Some(t) => Some(t + DEFAULT_LIFETIME)
  }

  function RequestFrom(signed: Doc, now: Time): Option<Request> {
    if !DataOf(signed).Dict? then None
    else
      var data := DataOf(signed).doc;
      var text := Text("");
      match ExpiryOf(data, now)
      case None => None
      case Some(expires) =>
        Some(Request(GetOr(data, DelegationId, text), GetOr(data, FromAgentId, text), GetOr(data, ToAgentId, text),
                     GetOr(data, Action, text), GetOr(data, Parameters, Dict(map[])), expires,
                     Get(data, TeeAuthorization)))
  }

  function ReceiptIn(tee: Value): Doc {
    if Truthy(tee) && tee.Dict? then tee.doc else map[]
  }

  function ReceiptOf(r: Request): Doc {
    ReceiptIn(r.tee)
  }

  function ReplayKeyDoc(c: Crypto, delegationId: Value, requestHash: Value, receipt: Doc): Doc {
    map[DelegationId := delegationId, RequestHash := requestHash,
        GatewayReceiptFingerprint := Text(Fingerprint(c, receipt))]
  }

  function ReplayKey(c: Crypto, delegationId: Value, requestHash: Value, receipt: Doc): string {
    c.digest(Dict(ReplayKeyDoc(c, delegationId, requestHash, receipt)))
  }

  function ExpectedBy(r: Request, receiver: string, gate: Gate): Expected {
    Expected(gate.publicKey, gate.keyId, gate.buildId, r.delegationId, Text(receiver), r.action, r.parameters)
  }

  function CheckReceipt(c: Crypto, r: Request, receiver: string, gate: Gate, now: Time): Option<Rejection> {
    if !Truthy(r.tee) then (if gate.requireReceipt then Some(ReceiptRequired) else None)
    else if gate.publicKey == "" then Some(GatewayKeyRequired)
    else if gate.keyId == "" then Some(GatewayKeyIdRequired)
    else if gate.buildId == "" then Some(BuildIdRequired)
    else
      match VerifyReceipt(c, r.tee, ExpectedBy(r, receiver, gate), now)
      case Some(refusal) => Some(BadReceipt(refusal))
      case None => None
  }

  /** `validate_delegation_request`, read at one instant. */
  function Validate(c: Crypto, signed: Doc, receiver: string, gate: Gate, now: Time): Result<string, Rejection> {
    match VerifyAction(c, signed, DELEGATE_TASK, now)
    case Some(why) => Err(BadSignature(why))
    case None =>
      if DataHash in signed && signed[DataHash] != Text(c.digest(DataOf(signed))) then Err(Tampered)
      else
        match RequestFrom(signed, now)
        case None => Err(Malformed)
        case Some(r) =>
          if now > r.expiresAt then Err(Expired)
          else if r.toAgentId != Text(receiver) then Err(WrongAudience)
          else
            match CheckReceipt(c, r, receiver, gate, now)
            case Some(e) => Err(e)
            case None =>
              var requestHash := if Truthy(Get(signed, DataHash)) then Get(signed, DataHash)
                                 else Text(c.digest(DataOf(signed)));
              var key := ReplayKey(c, r.delegationId, requestHash, ReceiptOf(r));
              if key == "" then Err(ReplayKeyMissing) else Ok(key)
  }

  function Earlier(a: Time, b: Time): Time {
    if b < a then b else a
  }

  /** The shorter of a request's own expiry and its receipt's. */
  function Retention(c: Crypto, own: Time, receipt: Doc): Time {
    var authorized := Get(receipt, AuthorizationExpiresAt);
    if authorized.Text? && Truthy(authorized) && c.iso(authorized.s).Some? then
      Earlier(own, c.iso(authorized.s).value)
    else own
  }

  /** How long the ledger keeps the request. */
  function ReplayExpiry(c: Crypto, r: Request, now: Time): Time {
    Retention(c, if r.expiresAt != 0 then r.expiresAt else now, ReceiptOf(r))
  }

  // ---------------------------------------------------------------- validation, field by field

  /** A receipt is asked for in live mode, by the flag, and wherever anything of a gateway is configured. */
  lemma ReceiptAskedFor(mode: Mode, publicKey: string, keyId: string, buildId: string, flag: bool)
    ensures var gate := TrustedGate(mode, publicKey, keyId, buildId, flag);
            && (gate.requireReceipt <==> mode.Live? || flag || publicKey != "" || keyId != "" || buildId != "")
            && gate.publicKey == publicKey && gate.keyId == keyId && gate.buildId == buildId
  {
  }

  /** The times of the request: what is stated when it is not zero, an hour after the issue when no expiry is
      stated, an hour from now when neither is. */
  ghost predicate ExpiresAtTime(data: Doc, now: Time, at: Time) {
    var issued, expires := GetOr(data, IssuedAt, Num(0)), GetOr(data, ExpiresAt, Num(0));
    || (Number(expires) == Some(at) && at != 0)
    || (Number(expires) == Some(0) && Number(issued) == Some(at - 3600 * SECOND) && Number(issued) != Some(0))
    || (Number(expires) == Some(0) && Number(issued) == Some(0) && at == now + 3600 * SECOND)
  }

  lemma ExpiryExactly(data: Doc, now: Time, at: Time)
    ensures ExpiryOf(data, now) == Some(at) <==> ExpiresAtTime(data, now, at)
  {
  }

  /** The receipt, when there is one or one is asked for, is checked against this request and the configuration. */
  ghost predicate Receipted(c: Crypto, data: Doc, receiver: string, gate: Gate, now: Time) {
    var receipt := Get(data, TeeAuthorization);
    if Truthy(receipt) then
      && gate.publicKey != "" && gate.keyId != "" && gate.buildId != ""
      && VerifyReceipt(c, receipt,
                       Expected(gate.publicKey, gate.keyId, gate.buildId, GetOr(data, DelegationId, Text("")),
                                Text(receiver), GetOr(data, Action, Text("")), GetOr(data, Parameters, Dict(map[]))),
                       now) == None
    else !gate.requireReceipt
  }

  /** The message brings data under its hash, if it has one, addressed to the receiver and not late. */
  ghost predicate Deliverable(c: Crypto, signed: Doc, data: Doc, receiver: string, now: Time) {
    && DataOf(signed) == Dict(data) && (DataHash in signed ==> signed[DataHash] == Text(c.digest(Dict(data))))
    && GetOr(data, ToAgentId, Text("")) == Text(receiver)
    && exists at: Time :: ExpiresAtTime(data, now, at) && now <= at
  }

  lemma DeliverableExactly(c: Crypto, signed: Doc, data: Doc, receiver: string, now: Time)
    requires DataOf(signed) == Dict(data)
    ensures Deliverable(c, signed, data, receiver, now)
       <==> && (DataHash in signed ==> signed[DataHash] == Text(c.digest(Dict(data))))
            && RequestFrom(signed, now).Some? && now <= RequestFrom(signed, now).value.expiresAt
            && RequestFrom(signed, now).value.toAgentId == Text(receiver)
  {
    forall at: Time ensures ExpiryOf(data, now) == Some(at) <==> ExpiresAtTime(data, now, at) {
      ExpiryExactly(data, now, at);
    }
  }

  /** A message is valid, under the key of its data, if and only if it verifies as a delegation, is deliverable and
      receipted, and the key is not empty. */
  lemma ValidExactly(c: Crypto, signed: Doc, data: Doc, receiver: string, gate: Gate, now: Time)
    requires DataOf(signed) == Dict(data)
    ensures Validate(c, signed, receiver, gate, now) == Ok(DataKey(c, data))
       <==> && VerifyAction(c, signed, "DELEGATE_TASK", now) == None && Deliverable(c, signed, data, receiver, now)
            && Receipted(c, data, receiver, gate, now) && DataKey(c, data) != ""
    ensures Validate(c, signed, receiver, gate, now).Ok? ==>
              Validate(c, signed, receiver, gate, now) == Ok(DataKey(c, data))
  {
    DeliverableExactly(c, signed, data, receiver, now);
  }

  /** Without data there is nothing to validate. */
  lemma NothingToValidate(c: Crypto, signed: Doc, receiver: string, gate: Gate, now: Time)
    requires !DataOf(signed).Dict?
    ensures Validate(c, signed, receiver, gate, now).Err?
  {
  }

  // ---------------------------------------------------------------- keys and retention

  lemma ReplayKeyInjective(c: Crypto, d1: Value, h1: Value, r1: Doc, d2: Value, h2: Value, r2: Doc)
    requires InjectiveDigest(c) && ReplayKey(c, d1, h1, r1) == ReplayKey(c, d2, h2, r2)
    ensures d1 == d2 && h1 == h2
  {
    var m, n := ReplayKeyDoc(c, d1, h1, r1), ReplayKeyDoc(c, d2, h2, r2);
    assert Dict(m) == Dict(n);
    assert m[DelegationId] == n[DelegationId] && m[RequestHash] == n[RequestHash];
  }

  /** The replay key as a function of the delegation data alone. */
  function DataKey(c: Crypto, data: Doc): string {
    ReplayKey(c, GetOr(data, DelegationId, Text("")), Text(c.digest(Dict(data))),
              ReceiptIn(Get(data, TeeAuthorization)))
  }

  lemma KeyIsOfData(c: Crypto, signed: Doc, receiver: string, gate: Gate, now: Time)
    requires Validate(c, signed, receiver, gate, now).Ok?
    ensures DataOf(signed).Dict? && RequestFrom(signed, now).Some?
    ensures Validate(c, signed, receiver, gate, now).value == DataKey(c, DataOf(signed).doc)
  {
  }

  /** Two validated messages have the same replay key exactly when they carry the same delegation data,
      however, whenever and wherever they were signed and read. */
  lemma ReplayKeyIdentifiesData(c: Crypto, s1: Doc, s2: Doc, receiver1: string, receiver2: string, gate1: Gate,
                                gate2: Gate, t1: Time, t2: Time)
    requires InjectiveDigest(c)
    requires Validate(c, s1, receiver1, gate1, t1).Ok? && Validate(c, s2, receiver2, gate2, t2).Ok?
    ensures Validate(c, s1, receiver1, gate1, t1).value == Validate(c, s2, receiver2, gate2, t2).value
        <==> DataOf(s1) == DataOf(s2)
  {
    KeyIsOfData(c, s1, receiver1, gate1, t1);
    KeyIsOfData(c, s2, receiver2, gate2, t2);
    var data1, data2 := DataOf(s1).doc, DataOf(s2).doc;
    if DataKey(c, data1) == DataKey(c, data2) {
      DataKeyInjective(c, data1, data2);
    }
  }

  lemma DataKeyInjective(c: Crypto, data1: Doc, data2: Doc)
    requires InjectiveDigest(c) && DataKey(c, data1) == DataKey(c, data2)
    ensures data1 == data2
  {
    ReplayKeyInjective(c, GetOr(data1, DelegationId, Text("")), Text(c.digest(Dict(data1))),
                       ReceiptIn(Get(data1, TeeAuthorization)), GetOr(data2, DelegationId, Text("")),
                       Text(c.digest(Dict(data2))), ReceiptIn(Get(data2, TeeAuthorization)));
    assert Dict(data1) == Dict(data2);
  }

  /** The request says when it expires, or at least when it was issued. */
  predicate ExpiryStated(data: Doc) {
    !IsZero(GetOr(data, ExpiresAt, Num(0))) || !IsZero(GetOr(data, IssuedAt, Num(0)))
  }

  /** ... and that expiry is a number other than zero. */
  predicate ExpiryFixed(data: Doc) {
    ExpiryStated(data) && ExpiryOf(data, 0).Some? && ExpiryOf(data, 0).value != 0
  }

  /** The replay expiry of delegation data that is read at an instant. */
  function DataExpiry(c: Crypto, data: Doc, now: Time): Time {
    Retention(c, OwnExpiry(data, now), ReceiptIn(Get(data, TeeAuthorization)))
  }

  function OwnExpiry(data: Doc, now: Time): Time {
    match ExpiryOf(data, now)
    case Some(expires) => if expires != 0 then expires else now
    case None => now
  }

  /** Whoever admits a request, and whenever, computes the replay expiry of its data at that instant, and is
      not later than it. */
  lemma AdmittedWithinRetention(c: Crypto, signed: Doc, receiver: string, gate: Gate, now: Time)
    requires Validate(c, signed, receiver, gate, now).Ok?
    ensures DataOf(signed).Dict? && RequestFrom(signed, now).Some?
    ensures now <= ReplayExpiry(c, RequestFrom(signed, now).value, now) == DataExpiry(c, DataOf(signed).doc, now)
  {
  }

  /** A request is kept until its own expiry or until its receipt stops authorizing, whichever comes first. */
  ghost predicate KeptUntil(c: Crypto, own: Time, receipt: Doc, until: Time) {
    if exists text: string :: Get(receipt, AuthorizationExpiresAt) == Text(text) && text != "" && c.iso(text).Some? then
      var authorized := c.iso(Get(receipt, AuthorizationExpiresAt).s).value;
      until <= own && until <= authorized && (until == own || until == authorized)
    else until == own
  }

  lemma RetentionExactly(c: Crypto, own: Time, receipt: Doc)
    ensures KeptUntil(c, own, receipt, Retention(c, own, receipt))
  {
  }

  /** Data that fixes its expiry has one replay expiry. */
  lemma FixedExpiry(c: Crypto, data: Doc, t0: Time, t1: Time)
    requires ExpiryFixed(data)
    ensures DataExpiry(c, data, t0) == DataExpiry(c, data, t1)
  {
    assert ExpiryOf(data, t0) == ExpiryOf(data, 0) == ExpiryOf(data, t1);
  }

  /** When the receipt says until when it authorizes, if it does so readably. */
  function AuthorizedUntil(c: Crypto, data: Doc): Option<Time> {
    var until := Get(ReceiptIn(Get(data, TeeAuthorization)), AuthorizationExpiresAt);
    if until.Text? && Truthy(until) then c.iso(until.s) else None
  }

  /** Data that states neither time is given an hour from whenever it is read, or less by its receipt. */
  lemma UnstatedExpiry(c: Crypto, data: Doc, now: Time)
    requires !ExpiryStated(data) && now + DEFAULT_LIFETIME != 0
    ensures DataExpiry(c, data, now)
         == match AuthorizedUntil(c, data)
            case None => now + DEFAULT_LIFETIME
            case Some(until) => Earlier(now + DEFAULT_LIFETIME, until)
  {
  }

  /** A receipt that was accepted authorizes until an instant that has not passed. */
  lemma ReceiptIsReadable(c: Crypto, signed: Doc, receiver: string, gate: Gate, now: Time)
    requires Validate(c, signed, receiver, gate, now).Ok? && Truthy(RequestFrom(signed, now).value.tee)
    ensures DataOf(signed).Dict? && AuthorizedUntil(c, DataOf(signed).doc).Some?
    ensures now <= AuthorizedUntil(c, DataOf(signed).doc).value
  {
  }
}
