/**
 Gateway receipts (src/tee_authorization.py): a signed body that binds one authorization decision to one
 worker request.
 */
module Receipts {
  import opened Clock
  import opened Wrappers
  import opened Messages

  const RECEIPT_VERSION: string := "adn.tee_authorization/1"
  const RECEIPT_ACTION: string := "TEE_AUTHORIZATION"
  const ROUTED: string := "ROUTED"

  const BODY: set<Field> :=
    {Version, DelegationId, TeeDelegationId, Status, ToAgentId, Action, RequestHash, CredentialFingerprint,
     CredentialEnforced, BuildConfigId, TeeResultDigest, GatewayKeyId, AuthorizationExpiresAt, AuthorizedAt}

  /** All body fields, the absent ones as None. */
  function Body(receipt: Doc): Doc {
    map f | f in BODY :: Get(receipt, f)
  }

  function Fingerprint(c: Crypto, receipt: Doc): string {
    c.digest(Dict(Body(receipt)))
  }

  /** `parameters or {}` */
  function OrEmpty(v: Value): Value {
    if Truthy(v) then v else Dict(map[])
  }

  function RequestHashOf(c: Crypto, to: Value, action: Value, parameters: Value): string {
    c.digest(Dict(map[ToAgentId := to, Action := action, Parameters := OrEmpty(parameters)]))
  }

  function BodyField(c: Crypto, keyId: string, tee: Doc, action: string, parameters: Value, now: Time,
                     f: Field): Value
  {
    match f
    case Version => Text(RECEIPT_VERSION)
    case TeeDelegationId => Get(tee, DelegationId)
    case ToAgentId => Get(tee, RoutedTo)
    case Action => Text(action)
    case RequestHash => Text(RequestHashOf(c, Get(tee, RoutedTo), Text(action), parameters))
    case TeeResultDigest => Text(c.digest(Dict(tee)))
    case GatewayKeyId => Text(keyId)
    case AuthorizedAt => Text(c.printIso(now))
    case _ => Get(tee, f)
  }

  /** The body the gateway signs for an authorization result: delegation id, status, credential fields,
      build id and expiry are the result's own. */
  function NewBody(c: Crypto, keyId: string, tee: Doc, action: string, parameters: Value, now: Time): Doc {
    map f | f in BODY :: BodyField(c, keyId, tee, action, parameters, now, f)
  }

  datatype BuildError = NeedsIds | NeedsKeyId | NeedsExpiry

  /** Why there can be no receipt for an authorization result. */
  function Unbuildable(keyId: string, tee: Doc): Option<BuildError> {
    if !Truthy(Get(tee, DelegationId)) || !Truthy(Get(tee, RoutedTo)) then Some(NeedsIds)
    else if keyId == "" then Some(NeedsKeyId)
    else if !Truthy(Get(tee, AuthorizationExpiresAt)) then Some(NeedsExpiry)
    else None
  }

  function BuildReceipt(c: Crypto, gateway: Identity, keyId: string, tee: Doc, action: string, parameters: Value,
                        now: Time): Result<Doc, BuildError>
  {
    match Unbuildable(keyId, tee)
    case Some(e) => Err(e)
    case None =>
      Ok(SignedBody(c, gateway, Get(tee, DelegationId), NewBody(c, keyId, tee, action, parameters, now), now))
  }

  /** The body, and a proof by the gateway over it. */
  function SignedBody(c: Crypto, gateway: Identity, nonce: Value, body: Doc, at: Time): Doc {
    WithProof(body, SignAction(c, gateway, RECEIPT_ACTION, nonce, Some(Dict(body)), at))
  }

  function WithProof(body: Doc, proof: Doc): Doc {
    body[GatewayPublicKeyHex := Get(proof, PublicKeyHex)][GatewayProof := Dict(proof)]
  }

  /** What a party expects of a receipt. Parameters that are None are not checked. */
  datatype Expected = Expected(
    publicKey: string,
    keyId: string,
    buildId: string,
    delegationId: Value,
    toAgentId: Value,
    action: Value,
    parameters: Value)

  datatype Refusal =
    | ReceiptMissing | VersionInvalid | NotRouted | DelegationIdMismatch | TeeDelegationIdMismatch
    | TargetMismatch | ActionMismatch | FingerprintMissing | EnforcementMissing | BuildIdMissing
    | DigestMissing | KeyIdMissing | ExpectedKeyIdMissing | KeyIdMismatch | ExpiryMissing | ExpiryInvalid
    | AuthorizationExpired | ExpectedBuildIdMissing | BuildIdMismatch | RequestHashMismatch
    | ProofMissing | KeyMismatch | SignerMismatch | ProofInvalid(why: Failure) | BodyNotSigned

  function VerifyReceipt(c: Crypto, receipt: Value, e: Expected, now: Time): Option<Refusal> {
    if !receipt.Dict? then Some(ReceiptMissing)
    else
      var refusal := VerifyBody(c, Body(receipt.doc), e, now);
      if refusal.Some? then refusal else VerifyReceiptProof(c, receipt.doc, e.publicKey, now)
  }

  function VerifyBody(c: Crypto, b: Doc, e: Expected, now: Time): Option<Refusal> {
    if Get(b, Version) != Text(RECEIPT_VERSION) then Some(VersionInvalid)
    else if Get(b, Status) != Text(ROUTED) then Some(NotRouted)
    else if Get(b, DelegationId) != e.delegationId then Some(DelegationIdMismatch)
    else if Get(b, TeeDelegationId) != e.delegationId then Some(TeeDelegationIdMismatch)
    else if Get(b, ToAgentId) != e.toAgentId then Some(TargetMismatch)
    else if Get(b, Action) != e.action then Some(ActionMismatch)
    else if !Truthy(Get(b, CredentialFingerprint)) then Some(FingerprintMissing)
    else if Get(b, CredentialEnforced) != Bool(true) then Some(EnforcementMissing)
    else if !Truthy(Get(b, BuildConfigId)) then Some(BuildIdMissing)
    else if !Truthy(Get(b, TeeResultDigest)) then Some(DigestMissing)
    else if !Truthy(Get(b, GatewayKeyId)) then Some(KeyIdMissing)
    else if e.keyId == "" then Some(ExpectedKeyIdMissing)
    else if Get(b, GatewayKeyId) != Text(e.keyId) then Some(KeyIdMismatch)
    else if !Truthy(Get(b, AuthorizationExpiresAt)) then Some(ExpiryMissing)
    else if !Get(b, AuthorizationExpiresAt).Text? || c.iso(Get(b, AuthorizationExpiresAt).s).None? then
      Some(ExpiryInvalid)
    else if now > c.iso(Get(b, AuthorizationExpiresAt).s).value then Some(AuthorizationExpired)
    else if e.buildId == "" then Some(ExpectedBuildIdMissing)
    else if Get(b, BuildConfigId) != Text(e.buildId) then Some(BuildIdMismatch)
    else if e.parameters != Null &&
            Get(b, RequestHash) != Text(RequestHashOf(c, e.toAgentId, e.action, e.parameters)) then
      Some(RequestHashMismatch)
    else None
  }

  function VerifyReceiptProof(c: Crypto, r: Doc, publicKey: string, now: Time): Option<Refusal> {
    if !Get(r, GatewayProof).Dict? then Some(ProofMissing)
    else if Get(r, GatewayPublicKeyHex) != Text(publicKey) then Some(KeyMismatch)
    else if Get(Get(r, GatewayProof).doc, PublicKeyHex) != Text(publicKey) then Some(SignerMismatch)
    else
      var proof := Get(r, GatewayProof).doc;
      match VerifyAction(c, proof, RECEIPT_ACTION, now)
      case Some(why) => Some(ProofInvalid(why))
      case None => if Get(proof, DataHash) != Text(Fingerprint(c, r)) then Some(BodyNotSigned) else None
  }

  // ---------------------------------------------------------------- the check, field by field

  /** The receipt says of the decision what is expected. */
  ghost predicate Decides(c: Crypto, r: Doc, e: Expected) {
    && Get(r, Version) == Text("adn.tee_authorization/1") && Get(r, Status) == Text("ROUTED")
    && Get(r, DelegationId) == e.delegationId && Get(r, TeeDelegationId) == e.delegationId
    && Get(r, ToAgentId) == e.toAgentId && Get(r, Action) == e.action
    && (e.parameters != Null ==> Get(r, RequestHash) == Text(RequestHashOf(c, e.toAgentId, e.action, e.parameters)))
  }

  /** It was made by the expected gateway and build, under an enforced credential. */
  ghost predicate ComesFrom(r: Doc, e: Expected) {
    && e.keyId != "" && Get(r, GatewayKeyId) == Text(e.keyId)
    && e.buildId != "" && Get(r, BuildConfigId) == Text(e.buildId)
    && Truthy(Get(r, CredentialFingerprint)) && Get(r, CredentialEnforced) == Bool(true)
    && Truthy(Get(r, TeeResultDigest))
  }

  /** The authorization has not run out. */
  ghost predicate InForce(c: Crypto, r: Doc, now: Time) {
    exists until: string ::
      && Get(r, AuthorizationExpiresAt) == Text(until) && until != ""
      && c.iso(until).Some? && now <= c.iso(until).value
  }

  /** The gateway's proof in it is over its body. */
  ghost predicate Proven(c: Crypto, r: Doc, publicKey: string, now: Time) {
    && Get(r, GatewayPublicKeyHex) == Text(publicKey)
    && exists proof: Doc ::
         && Get(r, GatewayProof) == Dict(proof) && Get(proof, PublicKeyHex) == Text(publicKey)
         && VerifyAction(c, proof, "TEE_AUTHORIZATION", now) == None && Get(proof, DataHash) == Text(Fingerprint(c, r))
  }

  lemma BodyAt(r: Doc, f: Field)
    requires f in BODY
    ensures Get(Body(r), f) == Get(r, f)
  {
  }

  /** The body is of these fields. */
  lemma BodyHas(r: Doc)
    ensures forall f: Field :: f in BODY ==> Get(Body(r), f) == Get(r, f)
  {
    forall f: Field | f in BODY ensures Get(Body(r), f) == Get(r, f) {
      BodyAt(r, f);
    }
  }

  lemma BodyAcceptedExactly(c: Crypto, r: Doc, b: Doc, e: Expected, now: Time)
    requires forall f: Field :: f in BODY ==> Get(b, f) == Get(r, f)
    ensures VerifyBody(c, b, e, now) == None <==> Decides(c, r, e) && ComesFrom(r, e) && InForce(c, r, now)
  {
  }

  /** A receipt is accepted if and only if it is a dictionary that says what is expected, comes from where it is
      expected to, is in force and is proven. */
  lemma ReceiptAcceptedExactly(c: Crypto, receipt: Value, e: Expected, now: Time)
    ensures VerifyReceipt(c, receipt, e, now) == None
       <==> && receipt.Dict? && Decides(c, receipt.doc, e) && ComesFrom(receipt.doc, e) && InForce(c, receipt.doc, now)
            && Proven(c, receipt.doc, e.publicKey, now)
  {
    if receipt.Dict? {
      BodyHas(receipt.doc);
      BodyAcceptedExactly(c, receipt.doc, Body(receipt.doc), e, now);
    }
  }

  /** A receipt is built if and only if the result names delegation and target, the gateway has a key id, and the
      authorization an expiry. */
  lemma BuiltExactly(c: Crypto, gateway: Identity, keyId: string, tee: Doc, action: string, parameters: Value,
                     now: Time)
    ensures BuildReceipt(c, gateway, keyId, tee, action, parameters, now).Ok?
       <==> && Truthy(Get(tee, DelegationId)) && Truthy(Get(tee, RoutedTo)) && keyId != ""
            && Truthy(Get(tee, AuthorizationExpiresAt))
  {
  }

  /** Receipts with one fingerprint agree on all that the gateway signs. */
  ghost predicate SameBody(r: Doc, q: Doc) {
    && Get(r, Version) == Get(q, Version) && Get(r, DelegationId) == Get(q, DelegationId)
    && Get(r, TeeDelegationId) == Get(q, TeeDelegationId) && Get(r, Status) == Get(q, Status)
    && Get(r, ToAgentId) == Get(q, ToAgentId) && Get(r, Action) == Get(q, Action)
    && Get(r, RequestHash) == Get(q, RequestHash) && Get(r, CredentialFingerprint) == Get(q, CredentialFingerprint)
    && Get(r, CredentialEnforced) == Get(q, CredentialEnforced) && Get(r, BuildConfigId) == Get(q, BuildConfigId)
    && Get(r, TeeResultDigest) == Get(q, TeeResultDigest) && Get(r, GatewayKeyId) == Get(q, GatewayKeyId)
    && Get(r, AuthorizationExpiresAt) == Get(q, AuthorizationExpiresAt) && Get(r, AuthorizedAt) == Get(q, AuthorizedAt)
  }

  lemma FingerprintDecidesBody(c: Crypto, r: Doc, q: Doc)
    requires InjectiveDigest(c)
    ensures Fingerprint(c, r) == Fingerprint(c, q) <==> SameBody(r, q)
  {
    BodyHas(r);
    BodyHas(q);
    if Fingerprint(c, r) == Fingerprint(c, q) {
      SameDocument(c, Body(r), Body(q));
      SameEverywhere(Body(r), r, q);
    }
    if SameBody(r, q) {
      SameInBody(r, q);
      assert Body(r) == Body(q);
    }
  }

  lemma SameEverywhere(b: Doc, r: Doc, q: Doc)
    requires forall f: Field :: f in BODY ==> Get(b, f) == Get(r, f) && Get(b, f) == Get(q, f)
    ensures SameBody(r, q)
  {
    assert forall f: Field :: f in BODY ==> Get(r, f) == Get(q, f);
  }

  lemma SameInBody(r: Doc, q: Doc)
    requires SameBody(r, q)
    ensures forall f: Field :: f in BODY ==> Get(r, f) == Get(q, f)
  {
  }

  // ---------------------------------------------------------------- honest receipts are accepted

  lemma BodyOfReceipt(body: Doc, proof: Doc)
    requires body.Keys == BODY
    ensures Body(WithProof(body, proof)) == body
    ensures Get(WithProof(body, proof), GatewayProof) == Dict(proof)
    ensures Get(WithProof(body, proof), GatewayPublicKeyHex) == Get(proof, PublicKeyHex)
  {
    assert forall f :: f in BODY ==> Get(WithProof(body, proof), f) == body[f];
  }

  /** An authorization result that the gateway can answer for. */
  ghost predicate Enforced(c: Crypto, tee: Doc, buildId: string, expires: Time) {
    && Get(tee, Status) == Text(ROUTED)
    && Truthy(Get(tee, DelegationId)) && Truthy(Get(tee, RoutedTo))
    && Truthy(Get(tee, CredentialFingerprint)) && Get(tee, CredentialEnforced) == Bool(true)
    && Get(tee, BuildConfigId) == Text(buildId) && buildId != ""
    && Get(tee, AuthorizationExpiresAt) == Text(c.printIso(expires)) && c.printIso(expires) != ""
  }

  ghost predicate NonEmptyDigest(c: Crypto) {
    forall v :: c.digest(v) != ""
  }

  lemma HonestProof(c: Crypto, gateway: Identity, made: Doc -> bool, body: Doc, nonce: Value, issued: Time, now: Time)
    requires Genuine(c, gateway, made) && IsoRoundTrips(c) && body.Keys == BODY
    requires made(NewPayload(c, gateway, RECEIPT_ACTION, nonce, Some(Dict(body)), issued))
    requires now <= issued + PROOF_TTL_SECONDS
    ensures var proof := SignAction(c, gateway, RECEIPT_ACTION, nonce, Some(Dict(body)), issued);
            VerifyReceiptProof(c, WithProof(body, proof), gateway.publicKey, now) == None
  {
    var proof := SignAction(c, gateway, RECEIPT_ACTION, nonce, Some(Dict(body)), issued);
    SignedVerifies(c, gateway, made, RECEIPT_ACTION, nonce, Some(Dict(body)), issued, RECEIPT_ACTION, now);
    BodyOfReceipt(body, proof);
    SignedBears(c, gateway, RECEIPT_ACTION, nonce, Some(Dict(body)), issued);
    BorneFields(proof, c, gateway, RECEIPT_ACTION, nonce, Some(Dict(body)), issued);
  }

  /** What a body holds under each checked field. */
  predicate IsBodyField(v: Value, keyId: string, tee: Doc, action: string, requestHash: string, teeDigest: string,
                        f: Field)
  {
    && (f == Version ==> v == Text(RECEIPT_VERSION)) && (f == GatewayKeyId ==> v == Text(keyId))
    && (f == TeeDelegationId ==> v == Get(tee, DelegationId)) && (f == ToAgentId ==> v == Get(tee, RoutedTo))
    && (f == Action ==> v == Text(action))
    && (f == RequestHash ==> v == Text(requestHash)) && (f == TeeResultDigest ==> v == Text(teeDigest))
    && (f in COPIED ==> v == Get(tee, f))
  }

  const COPIED: set<Field> :=
    {DelegationId, Status, CredentialFingerprint, CredentialEnforced, BuildConfigId, AuthorizationExpiresAt}

  ghost predicate BodyIs(b: Doc, keyId: string, tee: Doc, action: string, requestHash: string, teeDigest: string) {
    forall f: Field {:trigger IsBodyField(Get(b, f), keyId, tee, action, requestHash, teeDigest, f)} ::
      f in BODY ==> IsBodyField(Get(b, f), keyId, tee, action, requestHash, teeDigest, f)
  }

  lemma NewBodyAt(c: Crypto, keyId: string, tee: Doc, action: string, parameters: Value, now: Time, f: Field)
    requires f in BODY
    ensures f in NewBody(c, keyId, tee, action, parameters, now)
    ensures NewBody(c, keyId, tee, action, parameters, now)[f] == BodyField(c, keyId, tee, action, parameters, now, f)
  {
  }

  lemma BodyFieldIs(c: Crypto, keyId: string, tee: Doc, action: string, parameters: Value, now: Time, f: Field)
    ensures IsBodyField(BodyField(c, keyId, tee, action, parameters, now, f), keyId, tee, action,
                        RequestHashOf(c, Get(tee, RoutedTo), Text(action), parameters), c.digest(Dict(tee)), f)
  {
    var v := BodyField(c, keyId, tee, action, parameters, now, f);
    if f in COPIED {
      assert v == Get(tee, f);
    }
  }

  lemma NewBodyIs(c: Crypto, keyId: string, tee: Doc, action: string, parameters: Value, now: Time)
    ensures BodyIs(NewBody(c, keyId, tee, action, parameters, now), keyId, tee, action,
                   RequestHashOf(c, Get(tee, RoutedTo), Text(action), parameters), c.digest(Dict(tee)))
  {
    forall f: Field | f in BODY
      ensures IsBodyField(Get(NewBody(c, keyId, tee, action, parameters, now), f), keyId, tee, action,
                          RequestHashOf(c, Get(tee, RoutedTo), Text(action), parameters), c.digest(Dict(tee)), f)
    {
      NewBodyAt(c, keyId, tee, action, parameters, now, f);
      BodyFieldIs(c, keyId, tee, action, parameters, now, f);
    }
  }

  lemma BodySpelled(b: Doc, keyId: string, tee: Doc, action: string, requestHash: string, teeDigest: string)
    requires BodyIs(b, keyId, tee, action, requestHash, teeDigest)
    ensures Get(b, Version) == Text(RECEIPT_VERSION) && Get(b, GatewayKeyId) == Text(keyId)
    ensures Get(b, TeeDelegationId) == Get(tee, DelegationId) && Get(b, ToAgentId) == Get(tee, RoutedTo)
    ensures Get(b, Action) == Text(action) && Get(b, RequestHash) == Text(requestHash)
    ensures Get(b, TeeResultDigest) == Text(teeDigest)
  {
    assert IsBodyField(Get(b, Version), keyId, tee, action, requestHash, teeDigest, Version);
    assert IsBodyField(Get(b, GatewayKeyId), keyId, tee, action, requestHash, teeDigest, GatewayKeyId);
    assert IsBodyField(Get(b, TeeDelegationId), keyId, tee, action, requestHash, teeDigest, TeeDelegationId);
    assert IsBodyField(Get(b, ToAgentId), keyId, tee, action, requestHash, teeDigest, ToAgentId);
    assert IsBodyField(Get(b, Action), keyId, tee, action, requestHash, teeDigest, Action);
    assert IsBodyField(Get(b, RequestHash), keyId, tee, action, requestHash, teeDigest, RequestHash);
    assert IsBodyField(Get(b, TeeResultDigest), keyId, tee, action, requestHash, teeDigest, TeeResultDigest);
  }

  lemma BodyCopies(b: Doc, keyId: string, tee: Doc, action: string, requestHash: string, teeDigest: string)
    requires BodyIs(b, keyId, tee, action, requestHash, teeDigest)
    ensures forall f: Field :: f in COPIED ==> Get(b, f) == Get(tee, f)
  {
    forall f: Field | f in COPIED ensures Get(b, f) == Get(tee, f) {
      assert IsBodyField(Get(b, f), keyId, tee, action, requestHash, teeDigest, f);
    }
  }

  lemma HonestBody(c: Crypto, b: Doc, keyId: string, tee: Doc, action: string, parameters: Value, asked: Value,
                   publicKey: string, teeDigest: string, expires: Time, buildId: string, now: Time)
    requires IsoRoundTrips(c) && teeDigest != "" && OrEmpty(asked) == OrEmpty(parameters)
    requires BodyIs(b, keyId, tee, action, RequestHashOf(c, Get(tee, RoutedTo), Text(action), parameters), teeDigest)
    requires Enforced(c, tee, buildId, expires) && keyId != "" && now <= expires
    ensures VerifyBody(c, b, Expected(publicKey, keyId, buildId, Get(tee, DelegationId), Get(tee, RoutedTo),
                                      Text(action), asked), now) == None
  {
    BodySpelled(b, keyId, tee, action, RequestHashOf(c, Get(tee, RoutedTo), Text(action), parameters), teeDigest);
    BodyCopies(b, keyId, tee, action, RequestHashOf(c, Get(tee, RoutedTo), Text(action), parameters), teeDigest);
    assert c.iso(c.printIso(expires)) == Some(expires);
  }

  lemma ReceiptFromParts(c: Crypto, r: Doc, e: Expected, now: Time)
    requires VerifyBody(c, Body(r), e, now) == None && VerifyReceiptProof(c, r, e.publicKey, now) == None
    ensures VerifyReceipt(c, Dict(r), e, now) == None
  {
  }

  lemma HonestParts(c: Crypto, gateway: Identity, made: Doc -> bool, keyId: string, body: Doc, tee: Doc, action: string,
                    parameters: Value, asked: Value, issued: Time, expires: Time, buildId: string, now: Time)
    requires Genuine(c, gateway, made) && IsoRoundTrips(c) && NonEmptyDigest(c) && body.Keys == BODY
    requires made(NewPayload(c, gateway, RECEIPT_ACTION, Get(tee, DelegationId), Some(Dict(body)), issued))
    requires BodyIs(body, keyId, tee, action, RequestHashOf(c, Get(tee, RoutedTo), Text(action), parameters),
                    c.digest(Dict(tee)))
    requires Enforced(c, tee, buildId, expires) && keyId != "" && OrEmpty(asked) == OrEmpty(parameters)
    requires now <= issued + PROOF_TTL_SECONDS && now <= expires
    ensures VerifyReceipt(c, Dict(SignedBody(c, gateway, Get(tee, DelegationId), body, issued)),
                          Expected(gateway.publicKey, keyId, buildId, Get(tee, DelegationId), Get(tee, RoutedTo),
                                   Text(action), asked), now) == None
  {
    var nonce := Get(tee, DelegationId);
    var proof := SignAction(c, gateway, RECEIPT_ACTION, nonce, Some(Dict(body)), issued);
    BodyOfReceipt(body, proof);
    HonestProof(c, gateway, made, body, nonce, issued, now);
    HonestBody(c, body, keyId, tee, action, parameters, asked, gateway.publicKey, c.digest(Dict(tee)), expires, buildId,
               now);
    ReceiptFromParts(c, WithProof(body, proof), Expected(gateway.publicKey, keyId, buildId, nonce, Get(tee, RoutedTo),
                                                         Text(action), asked), now);
  }

  /** An enforced result gets a receipt. */
  lemma EnforcedIsBuilt(c: Crypto, gateway: Identity, keyId: string, tee: Doc, action: string, parameters: Value,
                        at: Time, buildId: string, expires: Time)
    requires Enforced(c, tee, buildId, expires) && keyId != ""
    ensures BuildReceipt(c, gateway, keyId, tee, action, parameters, at).Ok?
  {
  }

  lemma BuiltParts(c: Crypto, gateway: Identity, keyId: string, tee: Doc, action: string, parameters: Value, at: Time,
                   r: Doc)
    requires BuildReceipt(c, gateway, keyId, tee, action, parameters, at) == Ok(r)
    ensures r == SignedBody(c, gateway, Get(tee, DelegationId), NewBody(c, keyId, tee, action, parameters, at), at)
  {
  }

  /** Within both windows the receipt is accepted by whoever expects what it is for; absent and empty
      parameters count as the same. */
  ghost predicate AcceptedInTime(c: Crypto, r: Doc, gateway: Identity, keyId: string, tee: Doc, action: string,
                                 parameters: Value, issued: Time, expires: Time, buildId: string)
  {
    forall asked: Value, now: Time
      {:trigger VerifyReceipt(c, Dict(r), ExpectedFor(gateway, keyId, tee, action, asked, buildId), now)} ::
      OrEmpty(asked) == OrEmpty(parameters) && now <= issued + PROOF_TTL_SECONDS && now <= expires ==>
        VerifyReceipt(c, Dict(r), ExpectedFor(gateway, keyId, tee, action, asked, buildId), now) == None
  }

  function ExpectedFor(gateway: Identity, keyId: string, tee: Doc, action: string, asked: Value, buildId: string)
    : Expected
  {
    Expected(gateway.publicKey, keyId, buildId, Get(tee, DelegationId), Get(tee, RoutedTo), Text(action), asked)
  }

  lemma HonestBodyAccepted(c: Crypto, gateway: Identity, made: Doc -> bool, keyId: string, body: Doc, tee: Doc,
                           action: string, parameters: Value, issued: Time, expires: Time, buildId: string)
    requires Genuine(c, gateway, made) && IsoRoundTrips(c) && NonEmptyDigest(c) && body.Keys == BODY
    requires made(NewPayload(c, gateway, RECEIPT_ACTION, Get(tee, DelegationId), Some(Dict(body)), issued))
    requires BodyIs(body, keyId, tee, action, RequestHashOf(c, Get(tee, RoutedTo), Text(action), parameters),
                    c.digest(Dict(tee)))
    requires Enforced(c, tee, buildId, expires) && keyId != ""
    ensures AcceptedInTime(c, SignedBody(c, gateway, Get(tee, DelegationId), body, issued), gateway, keyId, tee, action,
                           parameters, issued, expires, buildId)
  {
    forall asked: Value, now: Time
      | OrEmpty(asked) == OrEmpty(parameters) && now <= issued + PROOF_TTL_SECONDS && now <= expires
      ensures VerifyReceipt(c, Dict(SignedBody(c, gateway, Get(tee, DelegationId), body, issued)),
                            ExpectedFor(gateway, keyId, tee, action, asked, buildId), now) == None
    {
      HonestParts(c, gateway, made, keyId, body, tee, action, parameters, asked, issued, expires, buildId, now);
    }
  }

  lemma NewBodyKeys(c: Crypto, keyId: string, tee: Doc, action: string, parameters: Value, now: Time)
    ensures NewBody(c, keyId, tee, action, parameters, now).Keys == BODY
  {
  }

  lemma NewBodyAccepted(c: Crypto, gateway: Identity, made: Doc -> bool, keyId: string, tee: Doc, action: string,
                        parameters: Value, issued: Time, expires: Time, buildId: string)
    requires Genuine(c, gateway, made) && IsoRoundTrips(c) && NonEmptyDigest(c)
    requires made(DecisionPayload(c, gateway, keyId, Decision(tee, action, parameters, issued)))
    requires Enforced(c, tee, buildId, expires) && keyId != ""
    ensures AcceptedInTime(c, SignedBody(c, gateway, Get(tee, DelegationId),
                                         NewBody(c, keyId, tee, action, parameters, issued), issued),
                           gateway, keyId, tee, action, parameters, issued, expires, buildId)
  {
    NewBodyKeys(c, keyId, tee, action, parameters, issued);
    NewBodyIs(c, keyId, tee, action, parameters, issued);
    HonestBodyAccepted(c, gateway, made, keyId, NewBody(c, keyId, tee, action, parameters, issued), tee, action,
                       parameters, issued, expires, buildId);
  }

  /** The receipt of an enforced result is accepted, within both windows, by whoever expects what it is for. */
  lemma HonestReceiptAccepted(c: Crypto, gateway: Identity, made: Doc -> bool, keyId: string, tee: Doc, action: string,
                              parameters: Value, issued: Time, expires: Time, buildId: string, r: Doc)
    requires Genuine(c, gateway, made) && IsoRoundTrips(c) && NonEmptyDigest(c)
    requires made(DecisionPayload(c, gateway, keyId, Decision(tee, action, parameters, issued)))
    requires Enforced(c, tee, buildId, expires) && keyId != ""
    requires BuildReceipt(c, gateway, keyId, tee, action, parameters, issued) == Ok(r)
    ensures AcceptedInTime(c, r, gateway, keyId, tee, action, parameters, issued, expires, buildId)
  {
    BuiltParts(c, gateway, keyId, tee, action, parameters, issued, r);
    NewBodyAccepted(c, gateway, made, keyId, tee, action, parameters, issued, expires, buildId);
  }

  // ---------------------------------------------------------------- accepted receipts are the gateway's

  /** One authorization decision of the gateway, with the request it was made for. */
  datatype Decision = Decision(tee: Doc, action: string, parameters: Value, at: Time)

  /** The receipt payloads an honest gateway signs are those of the decisions it made; what else it signs
      is left open. */
  ghost predicate SignsDecisions(c: Crypto, gateway: Identity, keyId: string, decided: Decision -> bool) {
    SignsOnly(c, gateway.publicKey, (payload: Doc) => FromDecision(c, gateway, keyId, decided, payload))
  }

  ghost predicate FromDecision(c: Crypto, gateway: Identity, keyId: string, decided: Decision -> bool, payload: Doc) {
    Get(payload, Action) == Text(RECEIPT_ACTION) ==>
      exists d: Decision :: decided(d) && payload == DecisionPayload(c, gateway, keyId, d)
  }

  function DecisionPayload(c: Crypto, gateway: Identity, keyId: string, d: Decision): Doc {
    NewPayload(c, gateway, RECEIPT_ACTION, Get(d.tee, DelegationId),
               Some(Dict(NewBody(c, keyId, d.tee, d.action, d.parameters, d.at))), d.at)
  }

  /** The decision authorizes exactly this request. */
  ghost predicate Authorizes(c: Crypto, d: Decision, e: Expected, now: Time) {
    && Get(d.tee, Status) == Text(ROUTED) && Get(d.tee, CredentialEnforced) == Bool(true)
    && Get(d.tee, DelegationId) == e.delegationId && Get(d.tee, RoutedTo) == e.toAgentId
    && Text(d.action) == e.action && Get(d.tee, BuildConfigId) == Text(e.buildId)
    && (e.parameters != Null ==> OrEmpty(d.parameters) == OrEmpty(e.parameters))
    && Get(d.tee, AuthorizationExpiresAt).Text?
    && c.iso(Get(d.tee, AuthorizationExpiresAt).s).Some?
    && now <= c.iso(Get(d.tee, AuthorizationExpiresAt).s).value
  }

  /** The request hash stands for target, action and parameters; no parameters and empty ones are the same. */
  lemma RequestHashBinds(c: Crypto, to: Value, action: Value, p: Value, to': Value, action': Value, q: Value)
    requires InjectiveDigest(c)
    ensures RequestHashOf(c, to, action, p) == RequestHashOf(c, to', action', q)
       <==> to == to' && action == action' && (p == q || (!Truthy(p) && !Truthy(q)))
  {
    var m := map[ToAgentId := to, Action := action, Parameters := OrEmpty(p)];
    var n := map[ToAgentId := to', Action := action', Parameters := OrEmpty(q)];
    if c.digest(Dict(m)) == c.digest(Dict(n)) {
      assert Dict(m) == Dict(n);
      assert m[ToAgentId] == n[ToAgentId] && m[Action] == n[Action] && m[Parameters] == n[Parameters];
    }
  }

  /** The proof inside an accepted receipt signs, as one body, a decision of the gateway. */
  lemma AcceptedProofIsADecision(c: Crypto, r: Doc, gateway: Identity, keyId: string, decided: Decision -> bool,
                                 now: Time) returns (d: Decision)
    requires InjectiveDigest(c) && IsoRoundTrips(c) && SignsDecisions(c, gateway, keyId, decided)
    requires VerifyReceiptProof(c, r, gateway.publicKey, now) == None
    ensures decided(d) && Body(r) == NewBody(c, keyId, d.tee, d.action, d.parameters, d.at)
    ensures now <= d.at + PROOF_TTL_SECONDS
  {
    var proof := ProofIn(c, r, gateway.publicKey, now);
    d := DecisionBehind(c, proof, gateway, keyId, decided, now);
    var body := NewBody(c, keyId, d.tee, d.action, d.parameters, d.at);
    VerifiedMade(c, proof, gateway, RECEIPT_ACTION, Get(d.tee, DelegationId), Dict(body), d.at, now);
    SameDocument(c, Body(r), body);
  }

  lemma ProofIn(c: Crypto, r: Doc, publicKey: string, now: Time) returns (proof: Doc)
    requires VerifyReceiptProof(c, r, publicKey, now) == None
    ensures VerifyAction(c, proof, RECEIPT_ACTION, now) == None && Get(proof, PublicKeyHex) == Text(publicKey)
    ensures Get(proof, DataHash) == Text(c.digest(Dict(Body(r))))
  {
    proof := Get(r, GatewayProof).doc;
  }

  lemma DecisionBehind(c: Crypto, proof: Doc, gateway: Identity, keyId: string, decided: Decision -> bool, now: Time)
    returns (d: Decision)
    requires InjectiveDigest(c) && SignsDecisions(c, gateway, keyId, decided)
    requires VerifyAction(c, proof, RECEIPT_ACTION, now) == None && Get(proof, PublicKeyHex) == Text(gateway.publicKey)
    ensures decided(d) && Payload(proof) == DecisionPayload(c, gateway, keyId, d)
  {
    var made := (payload: Doc) => FromDecision(c, gateway, keyId, decided, payload);
    VerifiedWasMade(c, proof, RECEIPT_ACTION, now, made);
    d :| decided(d) && Payload(proof) == DecisionPayload(c, gateway, keyId, d);
  }

  lemma SameDocument(c: Crypto, a: Doc, b: Doc)
    requires InjectiveDigest(c) && c.digest(Dict(a)) == c.digest(Dict(b))
    ensures a == b
  {
    assert Dict(a) == Dict(b);
  }

  /** Whatever receipt is accepted under an honest gateway's key, the gateway decided exactly this request:
      same delegation, target, action, build and parameters, and still in its window. */
  lemma AcceptedReceiptIsAuthorized(c: Crypto, receipt: Value, e: Expected, gateway: Identity,
                                    decided: Decision -> bool, now: Time) returns (d: Decision)
    requires InjectiveDigest(c) && IsoRoundTrips(c)
    requires SignsDecisions(c, gateway, e.keyId, decided) && e.publicKey == gateway.publicKey
    requires VerifyReceipt(c, receipt, e, now) == None
    ensures decided(d) && Authorizes(c, d, e, now) && now <= d.at + PROOF_TTL_SECONDS
    ensures receipt.Dict? && Body(receipt.doc) == NewBody(c, e.keyId, d.tee, d.action, d.parameters, d.at)
  {
    d := AcceptedProofIsADecision(c, receipt.doc, gateway, e.keyId, decided, now);
    NewBodyIs(c, e.keyId, d.tee, d.action, d.parameters, d.at);
    AcceptedBodyAuthorizes(c, NewBody(c, e.keyId, d.tee, d.action, d.parameters, d.at), e, d, now);
  }

  lemma AcceptedBodyAuthorizes(c: Crypto, b: Doc, e: Expected, d: Decision, now: Time)
    requires InjectiveDigest(c)
    requires BodyIs(b, e.keyId, d.tee, d.action,
                    RequestHashOf(c, Get(d.tee, RoutedTo), Text(d.action), d.parameters), c.digest(Dict(d.tee)))
    requires VerifyBody(c, b, e, now) == None
    ensures Authorizes(c, d, e, now)
  {
    var requestHash := RequestHashOf(c, Get(d.tee, RoutedTo), Text(d.action), d.parameters);
    BodySpelled(b, e.keyId, d.tee, d.action, requestHash, c.digest(Dict(d.tee)));
    BodyCopies(b, e.keyId, d.tee, d.action, requestHash, c.digest(Dict(d.tee)));
    if e.parameters != Null {
      RequestHashBinds(c, e.toAgentId, e.action, d.parameters, e.toAgentId, e.action, e.parameters);
    }
  }
}
