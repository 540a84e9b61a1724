/**
 Signed action requests: dictionaries with a payload hash and a signature over it
 (src/terminal3_agent_auth_adapter.py). Hashing, keys and time stamps are fields of `Crypto`, left
 uninterpreted; the results state what is assumed of them.
 */
module Messages {
  import opened Clock
  import opened Wrappers

  const AUDIENCE: string := "t3n-adn-v1"
  const PROOF_TTL_SECONDS: Time := 300 * SECOND

  /** The dictionary keys the protocol knows by name. */
  datatype Field =
    | AgentId | Did | PublicKeyHex | Action | Nonce | IssuedAt | ExpiresAt | Audience | DataHash
    | PayloadHash | SignatureHex
    | DelegationId | FromAgentId | ToAgentId | TaskDescription | Parameters | Deadline
    | RequiredCapabilities | TeeAuthorization | DelegationData
    | ResultData | Status | ResultField | ErrorField
    | Version | TeeDelegationId | RequestHash | CredentialFingerprint | CredentialEnforced
    | BuildConfigId | TeeResultDigest | GatewayKeyId | AuthorizationExpiresAt | AuthorizedAt
    | GatewayPublicKeyHex | GatewayProof | RoutedTo
    | WorkerPublicKeyHex | CoordinatorId | ResultNonce | ReceiptFingerprint | GatewayReceiptFingerprint
    | Other(name: string)

  /** JSON values; numbers are counted in millionths, as time stamps are. */
  datatype Value =
    | Null
    | Bool(b: bool)
    | Num(n: int)
    | Text(s: string)
    | List(vs: seq<Value>)
    | Dict(doc: Doc)

  type Doc = map<Field, Value>

  datatype Crypto = Crypto(
    /** SHA-256 of the sorted JSON text of a value, in hex. */
    digest: Value -> string,
    /** The agent id that belongs to a public key. */
    fingerprint: string -> string,
    /** Hex of 32 bytes. */
    isKey: string -> bool,
    /** Ed25519: public key, message, signature of 64 bytes in hex. */
    verify: (string, string, string) -> bool,
    /** `datetime.fromisoformat`, as an instant. */
    iso: string -> Option<Time>,
    printIso: Time -> string)

  /** An agent's key pair. */
  datatype Identity = Identity(publicKey: string, agentId: string, did: string, sign: string -> string)

  datatype Failure = IdentityMissing | IdentityInvalid | ProofExpired | RaisesTypeError

  function Get(d: Doc, f: Field): Value {
    if f in d then d[f] else Null
  }

  function GetOr(d: Doc, f: Field, default: Value): Value {
    if f in d then d[f] else default
  }

  /** Python's truth value. */
  predicate Truthy(v: Value) {
    match v
    case Null => false
    case Bool(b) => b
    case Num(n) => n != 0
    case Text(s) => s != ""
    case List(vs) => vs != []
    case Dict(d) => d != map[]
  }

  /** Of each kind of value one is false. */
  lemma FalsyExactly(v: Value)
    ensures !Truthy(v)
       <==> v == Null || v == Bool(false) || v == Num(0) || v == Text("") || v == List([]) || v == Dict(map[])
  {
  }

  // ---------------------------------------------------------------- signing and verifying

  const REQUIRED: set<Field> :=
    {AgentId, Did, PublicKeyHex, Action, Nonce, IssuedAt, ExpiresAt, Audience, SignatureHex, PayloadHash}

  const PAYLOAD: set<Field> := {AgentId, Did, PublicKeyHex, Action, Nonce, IssuedAt, ExpiresAt, Audience, DataHash}

  /** The signed fields of a message: those of the payload that are present. */
  function Payload(proof: Doc): Doc {
    map f | f in proof && f in PAYLOAD :: proof[f]
  }

  function PayloadField(c: Crypto, who: Identity, action: string, nonce: Value, data: Option<Value>, now: Time,
                        f: Field): Value
  {
    match f
    case AgentId => Text(who.agentId)
    case Did => Text(who.did)
    case PublicKeyHex => Text(who.publicKey)
    case Action => Text(action)
    case Nonce => nonce
    case IssuedAt => Text(c.printIso(now))
    case ExpiresAt => Text(c.printIso(now + PROOF_TTL_SECONDS))
    case Audience => Text(AUDIENCE)
    case DataHash => if data.Some? then Text(c.digest(data.value)) else Null
    case _ => Null
  }

  /** The data hash is there only when there is data. */
  function NewPayload(c: Crypto, who: Identity, action: string, nonce: Value, data: Option<Value>, now: Time): Doc {
    map f | f in PAYLOAD && (f == DataHash ==> data.Some?) :: PayloadField(c, who, action, nonce, data, now, f)
  }

  function Sealed(c: Crypto, who: Identity, payload: Doc): Doc {
    var hash := c.digest(Dict(payload));
    payload[PayloadHash := Text(hash)][SignatureHex := Text(who.sign(hash))]
  }

  function SignAction(c: Crypto, who: Identity, action: string, nonce: Value, data: Option<Value>, now: Time): Doc {
    Sealed(c, who, NewPayload(c, who, action, nonce, data, now))
  }

  /** None when the message is good, else why not. Every required field is looked up only after its
      presence was checked. */
  function VerifyAction(c: Crypto, proof: Doc, action: string, now: Time): Option<Failure> {
    if !(REQUIRED <= proof.Keys) then Some(IdentityMissing)
    else if Get(proof, Action) != Text(action) then Some(IdentityInvalid)
    else if Get(proof, Audience) != Text(AUDIENCE) then Some(IdentityInvalid)
    else if !Get(proof, ExpiresAt).Text? then Some(RaisesTypeError)
    else if c.iso(Get(proof, ExpiresAt).s).None? then Some(IdentityInvalid)
    else if now > c.iso(Get(proof, ExpiresAt).s).value then Some(ProofExpired)
    else if Get(proof, PayloadHash) != Text(c.digest(Dict(Payload(proof)))) then Some(IdentityInvalid)
    else if !Get(proof, PublicKeyHex).Text? then Some(RaisesTypeError)
    else if !c.isKey(Get(proof, PublicKeyHex).s) then Some(IdentityInvalid)
    else if Get(proof, AgentId) != Text(c.fingerprint(Get(proof, PublicKeyHex).s)) then Some(IdentityInvalid)
    else if !Get(proof, SignatureHex).Text? then Some(IdentityInvalid)
    else if !c.verify(Get(proof, PublicKeyHex).s, c.digest(Dict(Payload(proof))), Get(proof, SignatureHex).s) then
      Some(IdentityInvalid)
    else None
  }

  // ---------------------------------------------------------------- what is assumed

  ghost predicate InjectiveDigest(c: Crypto) {
    forall v, w :: c.digest(v) == c.digest(w) ==> v == w
  }

  ghost predicate IsoRoundTrips(c: Crypto) {
    forall t :: c.iso(c.printIso(t)) == Some(t)
  }

  /** The agent id is the key's, and whatever payload the agent makes under its key, its signature over the
      payload's digest verifies. What else verifies under the key is left open. */
  ghost predicate Genuine(c: Crypto, who: Identity, made: Doc -> bool) {
    && c.isKey(who.publicKey) && who.agentId == c.fingerprint(who.publicKey)
    && forall payload: Doc {:trigger SignatureVerifies(c, who, payload)} ::
         made(payload) && Get(payload, PublicKeyHex) == Text(who.publicKey) ==> SignatureVerifies(c, who, payload)
  }

  predicate SignatureVerifies(c: Crypto, who: Identity, payload: Doc) {
    var hash := c.digest(Dict(payload));
    c.verify(who.publicKey, hash, who.sign(hash))
  }

  /** Unforgeability: whatever verifies under the key is the hash of a payload its holder made. */
  ghost predicate SignsOnly(c: Crypto, publicKey: string, made: Doc -> bool) {
    forall m, sig :: c.verify(publicKey, m, sig) ==>
      exists payload: Doc :: made(payload) && m == c.digest(Dict(payload))
  }

  // ---------------------------------------------------------------- the check, field by field

  /** Every field that a signed message must have. */
  predicate Complete(m: Doc) {
    && AgentId in m && Did in m && PublicKeyHex in m && Action in m && Nonce in m && IssuedAt in m && ExpiresAt in m
    && Audience in m && SignatureHex in m && PayloadHash in m
  }

  /** For this action and audience, and its expiry can be read. */
  ghost predicate Addressed(c: Crypto, m: Doc, action: string) {
    && Get(m, Action) == Text(action) && Get(m, Audience) == Text("t3n-adn-v1")
    && exists text: string :: Get(m, ExpiresAt) == Text(text) && c.iso(text).Some?
  }

  /** Under a key that belongs to the agent, over exactly the signed fields. */
  ghost predicate WellSigned(c: Crypto, m: Doc) {
    && Get(m, PayloadHash) == Text(c.digest(Dict(Payload(m))))
    && exists key: string, sig: string ::
         && Get(m, PublicKeyHex) == Text(key) && Get(m, SignatureHex) == Text(sig)
         && c.isKey(key) && Get(m, AgentId) == Text(c.fingerprint(key))
         && c.verify(key, c.digest(Dict(Payload(m))), sig)
  }

  lemma RequiredIsComplete(m: Doc)
    ensures REQUIRED <= m.Keys <==> Complete(m)
  {
  }

  /** For this action and audience, but without an expiry to read, or with all in order up to a key that is not
      text: the checks then raise. */
  ghost predicate Breaks(c: Crypto, m: Doc, action: string, now: Time) {
    && Get(m, Action) == Text(action) && Get(m, Audience) == Text("t3n-adn-v1")
    && (!Get(m, ExpiresAt).Text?
        || (Addressed(c, m, action) && now <= c.iso(Get(m, ExpiresAt).s).value
            && Get(m, PayloadHash) == Text(c.digest(Dict(Payload(m)))) && !Get(m, PublicKeyHex).Text?))
  }

  /** A message is accepted if and only if it is complete, addressed, not late and well signed; it is refused as
      incomplete or expired, or raises, exactly when it is so, and is otherwise invalid. */
  lemma AcceptedExactly(c: Crypto, m: Doc, action: string, now: Time)
    ensures var why := VerifyAction(c, m, action, now);
            && (why == None <==> && Complete(m) && Addressed(c, m, action)
                                 && now <= c.iso(Get(m, ExpiresAt).s).value && WellSigned(c, m))
            && (why == Some(IdentityMissing) <==> !Complete(m))
            && (why == Some(ProofExpired) <==>
                  Complete(m) && Addressed(c, m, action) && c.iso(Get(m, ExpiresAt).s).value < now)
            && (why == Some(RaisesTypeError) <==> Complete(m) && Breaks(c, m, action, now))
  {
    RequiredIsComplete(m);
  }

  // ---------------------------------------------------------------- results

  lemma SealLeavesPayload(payload: Doc, hash: Value, signature: Value)
    requires payload.Keys <= PAYLOAD
    ensures Payload(payload[PayloadHash := hash][SignatureHex := signature]) == payload
  {
    var m := payload[PayloadHash := hash][SignatureHex := signature];
    assert PayloadHash !in PAYLOAD && SignatureHex !in PAYLOAD;
    assert forall f :: f in Payload(m) <==> f in payload;
  }

  lemma PayloadKeys(c: Crypto, who: Identity, action: string, nonce: Value, data: Option<Value>, now: Time)
    ensures NewPayload(c, who, action, nonce, data, now).Keys == PAYLOAD - (if data.Some? then {} else {DataHash})
  {
  }

  lemma PayloadOfSealed(c: Crypto, who: Identity, action: string, nonce: Value, data: Option<Value>, now: Time)
    ensures Payload(SignAction(c, who, action, nonce, data, now)) == NewPayload(c, who, action, nonce, data, now)
  {
    var p := NewPayload(c, who, action, nonce, data, now);
    PayloadKeys(c, who, action, nonce, data, now);
    SealLeavesPayload(p, Text(c.digest(Dict(p))), Text(who.sign(c.digest(Dict(p)))));
  }

  lemma SealKeeps(payload: Doc, hash: Value, signature: Value, f: Field)
    requires f in payload && f in PAYLOAD
    ensures var m := payload[PayloadHash := hash][SignatureHex := signature]; f in m && m[f] == payload[f]
  {
  }

  lemma NewPayloadAt(c: Crypto, who: Identity, action: string, nonce: Value, data: Option<Value>, now: Time, f: Field)
    requires f in PAYLOAD && (f == DataHash ==> data.Some?)
    ensures f in NewPayload(c, who, action, nonce, data, now)
    ensures NewPayload(c, who, action, nonce, data, now)[f] == PayloadField(c, who, action, nonce, data, now, f)
  {
  }

  /** What a payload holds under each of its fields. */
  predicate IsField(v: Value, c: Crypto, who: Identity, action: string, nonce: Value, data: Option<Value>, now: Time,
                    f: Field)
  {
    && (f == AgentId ==> v == Text(who.agentId)) && (f == PublicKeyHex ==> v == Text(who.publicKey))
    && (f == Did ==> v == Text(who.did)) && (f == IssuedAt ==> v == Text(c.printIso(now)))
    && (f == Action ==> v == Text(action)) && (f == Nonce ==> v == nonce)
    && (f == ExpiresAt ==> v == Text(c.printIso(now + 300 * SECOND)))
    && (f == Audience ==> v == Text(AUDIENCE))
    && (f == DataHash && data.Some? ==> v == Text(c.digest(data.value)))
  }

  lemma PayloadFieldIs(c: Crypto, who: Identity, action: string, nonce: Value, data: Option<Value>, now: Time, f: Field)
    ensures IsField(PayloadField(c, who, action, nonce, data, now, f), c, who, action, nonce, data, now, f)
  {
  }

  /** The signed fields stand in the message as they were put into the payload. */
  lemma PayloadAt(c: Crypto, who: Identity, action: string, nonce: Value, data: Option<Value>, now: Time, f: Field)
    requires f in PAYLOAD && (f == DataHash ==> data.Some?)
    ensures IsField(Get(SignAction(c, who, action, nonce, data, now), f), c, who, action, nonce, data, now, f)
  {
    var p := NewPayload(c, who, action, nonce, data, now);
    NewPayloadAt(c, who, action, nonce, data, now, f);
    SealKeeps(p, Text(c.digest(Dict(p))), Text(who.sign(c.digest(Dict(p)))), f);
    PayloadFieldIs(c, who, action, nonce, data, now, f);
  }

  lemma RequiredArePresent(c: Crypto, who: Identity, action: string, nonce: Value, data: Option<Value>, now: Time)
    ensures REQUIRED <= SignAction(c, who, action, nonce, data, now).Keys
  {
    PayloadKeys(c, who, action, nonce, data, now);
  }

  /** The message holds, field by field, a payload made for this. */
  ghost predicate Bears(m: Doc, c: Crypto, who: Identity, action: string, nonce: Value, data: Option<Value>, now: Time)
  {
    forall f: Field {:trigger IsField(Get(m, f), c, who, action, nonce, data, now, f)} ::
      f in PAYLOAD && (f == DataHash ==> data.Some?) ==> IsField(Get(m, f), c, who, action, nonce, data, now, f)
  }

  lemma BorneFields(m: Doc, c: Crypto, who: Identity, action: string, nonce: Value, data: Option<Value>, now: Time)
    requires Bears(m, c, who, action, nonce, data, now)
    ensures Get(m, Action) == Text(action) && Get(m, Audience) == Text(AUDIENCE) && Get(m, Nonce) == nonce
    ensures Get(m, IssuedAt) == Text(c.printIso(now)) && Get(m, ExpiresAt) == Text(c.printIso(now + 300 * SECOND))
    ensures Get(m, Did) == Text(who.did)
    ensures Get(m, PublicKeyHex) == Text(who.publicKey) && Get(m, AgentId) == Text(who.agentId)
    ensures data.Some? ==> Get(m, DataHash) == Text(c.digest(data.value))
  {
    assert IsField(Get(m, Action), c, who, action, nonce, data, now, Action);
    assert IsField(Get(m, Audience), c, who, action, nonce, data, now, Audience);
    assert IsField(Get(m, Nonce), c, who, action, nonce, data, now, Nonce);
    assert IsField(Get(m, ExpiresAt), c, who, action, nonce, data, now, ExpiresAt);
    assert IsField(Get(m, Did), c, who, action, nonce, data, now, Did);
    assert IsField(Get(m, IssuedAt), c, who, action, nonce, data, now, IssuedAt);
    assert IsField(Get(m, PublicKeyHex), c, who, action, nonce, data, now, PublicKeyHex);
    assert IsField(Get(m, AgentId), c, who, action, nonce, data, now, AgentId);
    assert data.Some? ==> IsField(Get(m, DataHash), c, who, action, nonce, data, now, DataHash);
  }

  lemma VerifiesFromFields(c: Crypto, m: Doc, payload: Doc, publicKey: string, action: string, expires: Time,
                           signature: string, expected: string, now: Time)
    requires REQUIRED <= m.Keys && Payload(m) == payload
    requires Get(m, Action) == Text(action) && Get(m, Audience) == Text(AUDIENCE)
    requires Get(m, ExpiresAt) == Text(c.printIso(expires)) && c.iso(c.printIso(expires)) == Some(expires)
    requires Get(m, PayloadHash) == Text(c.digest(Dict(payload))) && Get(m, SignatureHex) == Text(signature)
    requires Get(m, PublicKeyHex) == Text(publicKey) && c.isKey(publicKey)
    requires Get(m, AgentId) == Text(c.fingerprint(publicKey))
    requires c.verify(publicKey, c.digest(Dict(payload)), signature)
    ensures VerifyAction(c, m, expected, now) == None <==> expected == action && now <= expires
  {
  }

  /** Such a message verifies, with a good signature, for its own action exactly until its proof expires. */
  lemma BearingVerifies(c: Crypto, m: Doc, payload: Doc, who: Identity, action: string, nonce: Value,
                        data: Option<Value>, issued: Time, expected: string, now: Time)
    requires Bears(m, c, who, action, nonce, data, issued) && REQUIRED <= m.Keys && Payload(m) == payload
    requires IsoRoundTrips(c) && c.isKey(who.publicKey) && who.agentId == c.fingerprint(who.publicKey)
    requires Get(m, PayloadHash) == Text(c.digest(Dict(payload)))
    requires Get(m, SignatureHex) == Text(who.sign(c.digest(Dict(payload)))) && SignatureVerifies(c, who, payload)
    ensures VerifyAction(c, m, expected, now) == None <==> expected == action && now <= issued + PROOF_TTL_SECONDS
  {
    BorneFields(m, c, who, action, nonce, data, issued);
    assert c.iso(c.printIso(issued + PROOF_TTL_SECONDS)) == Some(issued + PROOF_TTL_SECONDS);
    VerifiesFromFields(c, m, payload, who.publicKey, action, issued + PROOF_TTL_SECONDS,
                       who.sign(c.digest(Dict(payload))), expected, now);
  }

  /** A genuinely signed message verifies for its own action exactly until its proof expires, and for no
      other action ever. */
  lemma SignedVerifies(c: Crypto, who: Identity, made: Doc -> bool, action: string, nonce: Value, data: Option<Value>,
                       issued: Time, expected: string, now: Time)
    requires Genuine(c, who, made) && IsoRoundTrips(c) && made(NewPayload(c, who, action, nonce, data, issued))
    ensures VerifyAction(c, SignAction(c, who, action, nonce, data, issued), expected, now) == None
        <==> expected == action && now <= issued + 300 * SECOND
  {
    var payload := NewPayload(c, who, action, nonce, data, issued);
    MadeVerifies(c, who, made, action, nonce, data, issued);
    PayloadOfSealed(c, who, action, nonce, data, issued);
    RequiredArePresent(c, who, action, nonce, data, issued);
    SignedBears(c, who, action, nonce, data, issued);
    BearingVerifies(c, SignAction(c, who, action, nonce, data, issued), payload, who, action, nonce, data, issued,
                    expected, now);
  }

  lemma SignedBears(c: Crypto, who: Identity, action: string, nonce: Value, data: Option<Value>, now: Time)
    ensures Bears(SignAction(c, who, action, nonce, data, now), c, who, action, nonce, data, now)
  {
    forall f: Field | f in PAYLOAD && (f == DataHash ==> data.Some?)
      ensures IsField(Get(SignAction(c, who, action, nonce, data, now), f), c, who, action, nonce, data, now, f)
    {
      PayloadAt(c, who, action, nonce, data, now, f);
    }
  }

  lemma MadeVerifies(c: Crypto, who: Identity, made: Doc -> bool, action: string, nonce: Value, data: Option<Value>,
                     issued: Time)
    requires Genuine(c, who, made) && made(NewPayload(c, who, action, nonce, data, issued))
    ensures SignatureVerifies(c, who, NewPayload(c, who, action, nonce, data, issued))
  {
    NewPayloadAt(c, who, action, nonce, data, issued, PublicKeyHex);
    PayloadFieldIs(c, who, action, nonce, data, issued, PublicKeyHex);
  }

  /** Fields outside the payload and the signature play no part. */
  lemma ExtraFieldIgnored(c: Crypto, proof: Doc, f: Field, v: Value, action: string, now: Time)
    requires f !in REQUIRED && f !in PAYLOAD
    ensures VerifyAction(c, proof[f := v], action, now) == VerifyAction(c, proof, action, now)
  {
    var m := proof[f := v];
    assert Payload(m) == Payload(proof);
    assert forall g :: g in REQUIRED || g in PAYLOAD ==> (g in m <==> g in proof) && Get(m, g) == Get(proof, g);
    assert REQUIRED <= m.Keys <==> REQUIRED <= proof.Keys;
  }

  /** The signed fields of a message that verifies are, all together, a payload the key's holder made. */
  lemma VerifiedWasMade(c: Crypto, proof: Doc, action: string, now: Time, made: Doc -> bool)
    requires InjectiveDigest(c)
    requires VerifyAction(c, proof, action, now) == None
    requires SignsOnly(c, Get(proof, PublicKeyHex).s, made)
    ensures made(Payload(proof)) && Get(Payload(proof), Action) == Text(action)
    ensures forall f :: f in PAYLOAD ==> Get(Payload(proof), f) == Get(proof, f)
  {
    var hash := c.digest(Dict(Payload(proof)));
    var payload: Doc :| made(payload) && hash == c.digest(Dict(payload));
    assert Dict(payload) == Dict(Payload(proof));
  }

  /** No signed field of a good message can be changed, added or removed without the message failing, be the
      payload hash kept, or made anew for a payload that the holder of the stated key did not make. */
  lemma AlteredIsRejected(c: Crypto, proof: Doc, altered: Doc, action: string, now: Time, later: Time,
                          made: Doc -> bool)
    requires InjectiveDigest(c) && VerifyAction(c, proof, action, now) == None
    requires Get(altered, PublicKeyHex).Text? ==> SignsOnly(c, Get(altered, PublicKeyHex).s, made)
    requires Payload(altered) != Payload(proof)
    ensures Get(altered, PayloadHash) == Get(proof, PayloadHash) ==> VerifyAction(c, altered, action, later) != None
    ensures !made(Payload(altered)) ==> VerifyAction(c, altered, action, later) != None
  {
    assert Dict(Payload(altered)) != Dict(Payload(proof));
    if VerifyAction(c, altered, action, later) == None {
      VerifiedWasMade(c, altered, action, later, made);
    }
  }

  /** What a message says whose signed fields are, all together, a payload made for some data. */
  lemma MadeAt(c: Crypto, proof: Doc, who: Identity, action: string, nonce: Value, data: Value, at: Time, f: Field)
    requires Payload(proof) == NewPayload(c, who, action, nonce, Some(data), at) && f in PAYLOAD
    ensures IsField(Get(proof, f), c, who, action, nonce, Some(data), at, f)
  {
    NewPayloadAt(c, who, action, nonce, Some(data), at, f);
    PayloadFieldIs(c, who, action, nonce, Some(data), at, f);
    assert f in Payload(proof);
  }

  lemma VerifiedInTime(c: Crypto, proof: Doc, action: string, now: Time, expires: Time)
    requires IsoRoundTrips(c) && VerifyAction(c, proof, action, now) == None
    requires Get(proof, ExpiresAt) == Text(c.printIso(expires))
    ensures now <= expires
  {
    assert c.iso(c.printIso(expires)) == Some(expires);
  }

  /** A message that verifies, whose signed fields were made for some data: the hash is that data's, and it
      is presented within the lifetime of the proof. */
  lemma VerifiedMade(c: Crypto, proof: Doc, who: Identity, action: string, nonce: Value, data: Value, at: Time,
                     now: Time)
    requires IsoRoundTrips(c) && VerifyAction(c, proof, action, now) == None
    requires Payload(proof) == NewPayload(c, who, action, nonce, Some(data), at)
    ensures Get(proof, DataHash) == Text(c.digest(data)) && Get(proof, Nonce) == nonce
    ensures now <= at + PROOF_TTL_SECONDS
  {
    MadeAt(c, proof, who, action, nonce, data, at, DataHash);
    MadeAt(c, proof, who, action, nonce, data, at, Nonce);
    MadeAt(c, proof, who, action, nonce, data, at, ExpiresAt);
    VerifiedInTime(c, proof, action, now, at + PROOF_TTL_SECONDS);
  }
}
