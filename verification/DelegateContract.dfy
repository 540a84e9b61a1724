/**
 The contract's delegated-authority check. Decoding, hashing and signature primitives are fields of
 `Primitives`, left uninterpreted; the results state what is assumed of them.
 */
module DelegateContract {
  import opened Wrappers
  import opened Hex
  import CanonicalJson
  import JsonParser

  const U64: int := 0x1_0000_0000_0000_0000

  type Word = n: int | 0 <= n < U64

  /** One constructor per rejection. */
  datatype Rejection =
    | BadCredentialEncoding
    | BadCredentialBody
    | WrongDomain
    | WrongContract
    | WrongOrganization
    | WrongUser
    | VcIdMissing
    | AgentPubkeyMissing
    | BadNotBefore
    | BadNotAfter
    | WindowInverted
    | TtlExceedsMaximum
    | TooFarInFuture
    | NotYetValid
    | Expired
    | OutOfScope
    | NonceMissing
    | BadNonceEncoding
    | BadNonceLength
    | AgentSigMissing
    | BadAgentSigEncoding
    | RequestHashMissing
    | BadRequestHashEncoding
    | BadRequestHashLength
    | RequestHashMismatch
    | BadVcIdEncoding
    | BadVcIdLength
    | BadAgentPubkeyEncoding
    | AgentSigRejected
    | UserSigMissing
    | BadUserSigEncoding
    | UserSigRejected
    | IssuerNotPinned
    | WrongIssuer
    | PolicyMissing
    | BadPolicy
    | TargetNotAuthorized
    | ActionNotAuthorized
    | PolicyTtlOutOfRange
    | TtlExceedsPolicy
    | EnvelopeMissing
    | BadExpiry

  datatype Envelope = Envelope(
    credentialJcs: string,
    userSig: string,
    nonce: string,
    agentSig: string,
    requestHash: string)

  datatype Credential = Credential(
    v: string,
    functions: seq<string>,
    notBefore: string,
    notAfter: string,
    vcId: string,
    agentPubkey: string,
    userDid: string,
    orgDid: string,
    contract: string,
    metadata: map<string, string>)

  datatype Policy = Policy(toAgentId: string, actions: seq<string>, maxTtl: Word)

  datatype Request = Request(toAgentId: string, action: string, envelope: Option<Envelope>)

  datatype Config = Config(
    trustedIssuer: Option<Bytes>,
    tenantDid: Option<string>,
    now: Word,
    maxTtl: Word,
    clockSkew: Word)

  datatype Output = Output(
    delegationId: string,
    status: string,
    routedTo: string,
    credentialEnforced: bool,
    credentialFingerprint: string,
    userSigner: string,
    buildConfigId: string,
    authorizationExpiresAt: string)

  datatype Primitives = Primitives(
    base64: string -> Option<Bytes>,
    parseCredential: Bytes -> Option<Credential>,
    parsePolicy: string -> Option<Policy>,
    parseWord: string -> Option<Word>,
    utf8: string -> Bytes,
    sha256: Bytes -> Bytes,
    requestDigest: (string, string) -> Bytes,
    agentSigOk: (Bytes, Bytes, Bytes) -> bool,
    recover: (Bytes, Bytes) -> Option<Bytes>,
    rfc3339: Word -> Option<string>,
    buildConfigId: string)

  const INVOCATION_DOMAIN: string := "ot3.invocation/1"
  const CREDENTIAL_DOMAIN: string := "ot3.delegation/1"
  const CONTRACT_NAME: string := "adn-processor"
  const FUNCTION_NAME: string := "delegate-task"
  const POLICY_KEY: string := "adn_authorization_v1"

  /** The request text with its two field names left open. */
  function RequestText(key1: string, value1: string, key2: string, value2: string): string {
    "{" + (CanonicalJson.Quote(key1) + ":" + (CanonicalJson.Quote(value1) +
    ("," + (CanonicalJson.Quote(key2) + ":" + (CanonicalJson.Quote(value2) + "}")))))
  }

  /** serde writes the two fields in declaration order, escaping as the canonical printer does. */
  function CanonicalRequest(toAgentId: string, action: string): string {
    RequestText("to_agent_id", toAgentId, "action", action)
  }

  method BuildPreimage(domain: Bytes, vcId: Bytes, nonce: Bytes, requestHash: Bytes) returns (p: Bytes)
    ensures p == Preimage(domain, vcId, nonce, requestHash)
  {
    p := [];
    p := p + domain;
    p := p + vcId;
    p := p + nonce;
    p := p + requestHash;
  }

  function Preimage(domain: Bytes, vcId: Bytes, nonce: Bytes, requestHash: Bytes): Bytes {
    domain + vcId + nonce + requestHash
  }

  function WrappingAdd(a: Word, b: Word): Word {
    (a + b) % U64
  }

  /** Credential domain, tenant, window and scope. */
  function CheckCredential(p: Primitives, env: Envelope, cfg: Config)
    : Result<(Bytes, Credential, Word, Word), Rejection>
  {
    match p.base64(env.credentialJcs)
    case None => Err(BadCredentialEncoding)
    case Some(credentialBytes) =>
      match p.parseCredential(credentialBytes)
      case None => Err(BadCredentialBody)
      case Some(c) =>
        if c.v != CREDENTIAL_DOMAIN then Err(WrongDomain)
        else if c.contract != CONTRACT_NAME then Err(WrongContract)
        else if cfg.tenantDid.Some? && c.orgDid != cfg.tenantDid.value then
          Err(WrongOrganization)
        else if cfg.tenantDid.Some? && c.userDid != cfg.tenantDid.value then
          Err(WrongUser)
        else if c.vcId == "" then Err(VcIdMissing)
        else if c.agentPubkey == "" then Err(AgentPubkeyMissing)
        else
          match (p.parseWord(c.notBefore), p.parseWord(c.notAfter))
          case (None, _) => Err(BadNotBefore)
          case (_, None) => Err(BadNotAfter)
          case (Some(notBefore), Some(notAfter)) =>
            if notBefore >= notAfter then Err(WindowInverted)
            else if WindowLength(notBefore, notAfter) > cfg.maxTtl then Err(TtlExceedsMaximum)
            else if notBefore > WrappingAdd(cfg.now, cfg.clockSkew) then
              Err(TooFarInFuture)
            else if cfg.now < notBefore then Err(NotYetValid)
            else if cfg.now > notAfter then Err(Expired)
            else if FUNCTION_NAME !in c.functions then Err(OutOfScope)
            else Ok((credentialBytes, c, notBefore, notAfter))
  }

  /** The subtraction stays within the word: it is only made when the window is not inverted. */
  function WindowLength(notBefore: Word, notAfter: Word): Word
    requires notBefore < notAfter
  {
    notAfter - notBefore
  }

  /** The envelope's own fields and the agent's possession proof. */
  function CheckInvocation(p: Primitives, r: Request, env: Envelope, c: Credential)
    : Result<(Bytes, Bytes, Bytes), Rejection>
  {
    if env.nonce == "" then Err(NonceMissing)
    else
      match p.base64(env.nonce)
      case None => Err(BadNonceEncoding)
      case Some(nonce) =>
        if |nonce| != 16 then Err(BadNonceLength)
        else if env.agentSig == "" then Err(AgentSigMissing)
        else
          match p.base64(env.agentSig)
          case None => Err(BadAgentSigEncoding)
          case Some(agentSig) =>
            if env.requestHash == "" then Err(RequestHashMissing)
            else
              match p.base64(env.requestHash)
              case None => Err(BadRequestHashEncoding)
              case Some(requestHash) =>
                if |requestHash| != 32 then Err(BadRequestHashLength)
                else if p.requestDigest(r.toAgentId, r.action) != requestHash then
                  Err(RequestHashMismatch)
                else
                  match (p.base64(c.vcId), p.base64(c.agentPubkey))
                  case (None, _) => Err(BadVcIdEncoding)
                  case (Some(vcId), agentPubkey) =>
                    if |vcId| != 16 then Err(BadVcIdLength)
                    else if agentPubkey.None? then Err(BadAgentPubkeyEncoding)
                    else if !p.agentSigOk(agentPubkey.value,
                                          Preimage(p.utf8(INVOCATION_DOMAIN), vcId, nonce, requestHash),
                                          agentSig) then
                      Err(AgentSigRejected)
                    else Ok((vcId, nonce, requestHash))
  }

  /** The issuer's signature over the credential and the policy inside it. */
  function CheckIssuer(p: Primitives, r: Request, env: Envelope, cfg: Config, credentialBytes: Bytes, c: Credential,
                       length: Word): Result<Bytes, Rejection>
  {
    if env.userSig == "" then Err(UserSigMissing)
    else
      match p.base64(env.userSig)
      case None => Err(BadUserSigEncoding)
      case Some(userSig) =>
        match p.recover(credentialBytes, userSig)
        case None => Err(UserSigRejected)
        case Some(signer) =>
          if cfg.trustedIssuer.None? then Err(IssuerNotPinned)
          else if signer != cfg.trustedIssuer.value then Err(WrongIssuer)
          else if POLICY_KEY !in c.metadata then Err(PolicyMissing)
          else
            match p.parsePolicy(c.metadata[POLICY_KEY])
            case None => Err(BadPolicy)
            case Some(policy) =>
              if policy.toAgentId != r.toAgentId then Err(TargetNotAuthorized)
              else if r.action !in policy.actions then Err(ActionNotAuthorized)
              else if policy.maxTtl == 0 || policy.maxTtl > cfg.maxTtl then Err(PolicyTtlOutOfRange)
              else if length > policy.maxTtl then Err(TtlExceedsPolicy)
              else Ok(signer)
  }

  function DelegationId(p: Primitives, vcId: Bytes, nonce: Bytes, requestHash: Bytes): string {
    "tee-del-" + HexText(Truncated(p.sha256(vcId + nonce + requestHash)))
  }

  /** The first 16 bytes of a digest. */
  function Truncated(digest: Bytes): Bytes {
    if |digest| < 16 then digest else digest[..16]
  }

  function VerifyDelegateTask(p: Primitives, r: Request, cfg: Config): Result<Output, Rejection> {
    match r.envelope
    case None => Err(EnvelopeMissing)
    case Some(env) =>
      match CheckCredential(p, env, cfg)
      case Err(e) => Err(e)
      case Ok((credentialBytes, c, notBefore, notAfter)) =>
        match CheckInvocation(p, r, env, c)
        case Err(e) => Err(e)
        case Ok((vcId, nonce, requestHash)) =>
          if notBefore >= notAfter then Err(WindowInverted)
          else
            match CheckIssuer(p, r, env, cfg, credentialBytes, c, WindowLength(notBefore, notAfter))
            case Err(e) => Err(e)
            case Ok(signer) =>
              match p.rfc3339(notAfter)
              case None => Err(BadExpiry)
              case Some(expires) =>
                Ok(Output(DelegationId(p, vcId, nonce, requestHash), "ROUTED", r.toAgentId, true,
                          HexText(p.sha256(credentialBytes)), "0x" + HexText(signer), p.buildConfigId, expires))
  }

  // ---------------------------------------------------------------- what acceptance says

  /** The decoded parts of an accepted call. */
  datatype Parts = Parts(
    credentialBytes: Bytes,
    credential: Credential,
    notBefore: Word,
    notAfter: Word,
    vcId: Bytes,
    nonce: Bytes,
    requestHash: Bytes,
    signer: Bytes,
    policy: Policy)

  /** The credential: what it is for, whose it is, and its window. */
  ghost predicate CredentialHolds(p: Primitives, env: Envelope, cfg: Config, d: Parts) {
    var c := d.credential;
    && p.base64(env.credentialJcs) == Some(d.credentialBytes) && p.parseCredential(d.credentialBytes) == Some(c)
    && c.v == "ot3.delegation/1" && c.contract == "adn-processor" && "delegate-task" in c.functions
    && (cfg.tenantDid.Some? ==> c.orgDid == cfg.tenantDid.value && c.userDid == cfg.tenantDid.value)
    && c.vcId != "" && c.agentPubkey != ""
    && p.parseWord(c.notBefore) == Some(d.notBefore) && p.parseWord(c.notAfter) == Some(d.notAfter)
    && d.notBefore <= cfg.now <= d.notAfter && d.notBefore <= WrappingAdd(cfg.now, cfg.clockSkew)
    && d.notBefore < d.notAfter <= d.notBefore + cfg.maxTtl
  }

  /** The call: its nonce, the hash of target and action, and the agent's signature over both. */
  ghost predicate InvocationHolds(p: Primitives, r: Request, env: Envelope, d: Parts) {
    && env.nonce != "" && p.base64(env.nonce) == Some(d.nonce) && |d.nonce| == 16
    && p.base64(d.credential.vcId) == Some(d.vcId) && |d.vcId| == 16
    && env.requestHash != "" && p.base64(env.requestHash) == Some(d.requestHash) && |d.requestHash| == 32
    && p.requestDigest(r.toAgentId, r.action) == d.requestHash
    && env.agentSig != "" && p.base64(env.agentSig).Some? && p.base64(d.credential.agentPubkey).Some?
    && p.agentSigOk(p.base64(d.credential.agentPubkey).value,
                    Preimage(p.utf8("ot3.invocation/1"), d.vcId, d.nonce, d.requestHash), p.base64(env.agentSig).value)
  }

  /** The issuer: the pinned one signed the credential, whose policy names this target and action. */
  ghost predicate IssuerHolds(p: Primitives, r: Request, env: Envelope, cfg: Config, d: Parts) {
    && env.userSig != "" && p.base64(env.userSig).Some?
    && p.recover(d.credentialBytes, p.base64(env.userSig).value) == Some(d.signer)
    && cfg.trustedIssuer == Some(d.signer)
    && "adn_authorization_v1" in d.credential.metadata
    && p.parsePolicy(d.credential.metadata["adn_authorization_v1"]) == Some(d.policy)
    && d.policy.toAgentId == r.toAgentId && r.action in d.policy.actions
    && 1 <= d.policy.maxTtl <= cfg.maxTtl
    && d.notAfter - d.notBefore <= d.policy.maxTtl
  }

  /** The answer: routed to the target that was asked for, enforced, with the issuer and the end of the window. */
  ghost predicate Answers(p: Primitives, r: Request, d: Parts, out: Output) {
    && out.delegationId == "tee-del-" + HexText(Truncated(p.sha256(d.vcId + d.nonce + d.requestHash)))
    && out.status == "ROUTED" && out.routedTo == r.toAgentId && out.credentialEnforced
    && out.credentialFingerprint == HexText(p.sha256(d.credentialBytes))
    && out.userSigner == "0x" + HexText(d.signer) && out.buildConfigId == p.buildConfigId
    && p.rfc3339(d.notAfter) == Some(out.authorizationExpiresAt)
  }

  ghost predicate AcceptedWith(p: Primitives, r: Request, cfg: Config, d: Parts, out: Output) {
    && r.envelope.Some?
    && CredentialHolds(p, r.envelope.value, cfg, d)
    && InvocationHolds(p, r, r.envelope.value, d)
    && IssuerHolds(p, r, r.envelope.value, cfg, d)
    && Answers(p, r, d, out)
  }

  lemma CredentialExactly(p: Primitives, env: Envelope, cfg: Config, d: Parts)
    ensures CredentialHolds(p, env, cfg, d)
       <==> CheckCredential(p, env, cfg) == Ok((d.credentialBytes, d.credential, d.notBefore, d.notAfter))
  {
  }

  lemma InvocationExactly(p: Primitives, r: Request, env: Envelope, d: Parts)
    ensures InvocationHolds(p, r, env, d)
       <==> CheckInvocation(p, r, env, d.credential) == Ok((d.vcId, d.nonce, d.requestHash))
  {
  }

  lemma IssuerExactly(p: Primitives, r: Request, env: Envelope, cfg: Config, d: Parts)
    requires d.notBefore < d.notAfter && POLICY_KEY in d.credential.metadata
    requires p.parsePolicy(d.credential.metadata[POLICY_KEY]) == Some(d.policy)
    ensures IssuerHolds(p, r, env, cfg, d)
       <==> CheckIssuer(p, r, env, cfg, d.credentialBytes, d.credential, WindowLength(d.notBefore, d.notAfter))
            == Ok(d.signer)
  {
  }

  /** A call is accepted, with this answer, if and only if credential, invocation and issuer hold of some decoded
      parts and the answer is theirs. */
  lemma AcceptedExactly(p: Primitives, r: Request, cfg: Config, out: Output)
    ensures VerifyDelegateTask(p, r, cfg) == Ok(out) <==> exists d: Parts :: AcceptedWith(p, r, cfg, d, out)
  {
    if VerifyDelegateTask(p, r, cfg) == Ok(out) {
      assert AcceptedWith(p, r, cfg, PartsOf(p, r, cfg), out);
    }
    if d: Parts :| AcceptedWith(p, r, cfg, d, out) {
      AcceptedIsOk(p, r, cfg, d, out);
    }
  }

  lemma AcceptedIsOk(p: Primitives, r: Request, cfg: Config, d: Parts, out: Output)
    requires AcceptedWith(p, r, cfg, d, out)
    ensures VerifyDelegateTask(p, r, cfg) == Ok(out)
  {
    CredentialExactly(p, r.envelope.value, cfg, d);
    InvocationExactly(p, r, r.envelope.value, d);
    IssuerExactly(p, r, r.envelope.value, cfg, d);
  }

  ghost function PartsOf(p: Primitives, r: Request, cfg: Config): (d: Parts)
    requires VerifyDelegateTask(p, r, cfg).Ok?
    ensures AcceptedWith(p, r, cfg, d, VerifyDelegateTask(p, r, cfg).value)
  {
    var env := r.envelope.value;
    var (bytes, c, notBefore, notAfter) := CheckCredential(p, env, cfg).value;
    var (vcId, nonce, requestHash) := CheckInvocation(p, r, env, c).value;
    var signer := CheckIssuer(p, r, env, cfg, bytes, c, WindowLength(notBefore, notAfter)).value;
    var d := Parts(bytes, c, notBefore, notAfter, vcId, nonce, requestHash, signer,
                   p.parsePolicy(c.metadata[POLICY_KEY]).value);
    CredentialExactly(p, env, cfg, d);
    InvocationExactly(p, r, env, d);
    IssuerExactly(p, r, env, cfg, d);
    d
  }

  // ---------------------------------------------------------------- binding

  /** Two different inputs whose digests begin with the same 16 bytes. */
  predicate Collide(p: Primitives, a: Bytes, b: Bytes) {
    a != b && Truncated(p.sha256(a)) == Truncated(p.sha256(b))
  }

  /** UTF-8 is an encoding, and the request digest is that of the request text. */
  ghost predicate Encodes(p: Primitives) {
    && (forall s, t :: p.utf8(s) == p.utf8(t) ==> s == t)
    && (forall s, t :: p.requestDigest(s, t) == p.sha256(p.utf8(CanonicalRequest(s, t))))
  }

  lemma LastMember(key: string, value: string)
    ensures JsonParser.ParseMembers(CanonicalJson.Quote(key) + ":" + (CanonicalJson.Quote(value) + "}"))
         == JsonParser.Done([CanonicalJson.Entry(key, CanonicalJson.Str(value))], "")
  {
    JsonParser.KeyBack(key, CanonicalJson.Quote(value) + "}");
    JsonParser.ValueBack(CanonicalJson.Str(value), "}");
    assert "}"[1..] == "";
  }

  lemma EarlierMember(key: string, value: string, members: string, es: seq<CanonicalJson.Entry>)
    requires JsonParser.ParseMembers(members) == JsonParser.Done(es, "")
    ensures JsonParser.ParseMembers(CanonicalJson.Quote(key) + ":" + (CanonicalJson.Quote(value) + ("," + members)))
         == JsonParser.Done([CanonicalJson.Entry(key, CanonicalJson.Str(value))] + es, "")
  {
    JsonParser.KeyBack(key, CanonicalJson.Quote(value) + ("," + members));
    JsonParser.ValueBack(CanonicalJson.Str(value), "," + members);
    assert ("," + members)[1..] == members;
  }

  lemma RequestTextParses(key1: string, value1: string, key2: string, value2: string)
    ensures JsonParser.ParseValue(RequestText(key1, value1, key2, value2))
         == JsonParser.Done(CanonicalJson.Obj([CanonicalJson.Entry(key1, CanonicalJson.Str(value1)),
                                               CanonicalJson.Entry(key2, CanonicalJson.Str(value2))]), "")
  {
    var last := CanonicalJson.Entry(key2, CanonicalJson.Str(value2));
    var members := CanonicalJson.Quote(key2) + ":" + (CanonicalJson.Quote(value2) + "}");
    LastMember(key2, value2);
    EarlierMember(key1, value1, members, [last]);
    var first := CanonicalJson.Entry(key1, CanonicalJson.Str(value1));
    assert [first] + [last] == [first, last];
    JsonParser.ObjectStarts(CanonicalJson.Quote(key1) + ":" + (CanonicalJson.Quote(value1) + ("," + members)));
  }

  lemma RequestTextInjective(key1: string, key2: string, a1: string, b1: string, a2: string, b2: string)
    requires RequestText(key1, a1, key2, b1) == RequestText(key1, a2, key2, b2)
    ensures a1 == a2 && b1 == b2
  {
    RequestTextParses(key1, a1, key2, b1);
    RequestTextParses(key1, a2, key2, b2);
  }

  /** The request text determines target and action: it can be parsed back. */
  lemma CanonicalRequestInjective(to1: string, action1: string, to2: string, action2: string)
    requires CanonicalRequest(to1, action1) == CanonicalRequest(to2, action2)
    ensures to1 == to2 && action1 == action2
  {
    RequestTextInjective("to_agent_id", "action", to1, action1, to2, action2);
  }

  lemma MaterialInjective(v1: Bytes, n1: Bytes, h1: Bytes, v2: Bytes, n2: Bytes, h2: Bytes)
    requires |v1| == |v2| && |n1| == |n2| && v1 + n1 + h1 == v2 + n2 + h2
    ensures v1 == v2 && n1 == n2 && h1 == h2
  {
    var m1, m2 := v1 + n1 + h1, v2 + n2 + h2;
    var i, j := |v1|, |v1| + |n1|;
    assert m1[..i] == v1 && m1[i..j] == n1 && m1[j..] == h1;
    assert m2[..i] == v2 && m2[i..j] == n2 && m2[j..] == h2;
  }

  lemma DelegationIdInjective(p: Primitives, m1: Bytes, m2: Bytes)
    requires !Collide(p, m1, m2)
    requires "tee-del-" + HexText(Truncated(p.sha256(m1))) == "tee-del-" + HexText(Truncated(p.sha256(m2)))
    ensures m1 == m2
  {
    var x1, x2 := HexText(Truncated(p.sha256(m1))), HexText(Truncated(p.sha256(m2)));
    assert ("tee-del-" + x1)[8..] == x1 && ("tee-del-" + x2)[8..] == x2;
    HexInjective(Truncated(p.sha256(m1)), Truncated(p.sha256(m2)));
  }

  /** What a delegation id hashes. */
  function Material(d: Parts): Bytes {
    d.vcId + d.nonce + d.requestHash
  }

  function RequestBytes(p: Primitives, r: Request): Bytes {
    p.utf8(CanonicalRequest(r.toAgentId, r.action))
  }

  lemma PartsBind(p: Primitives, r1: Request, cfg1: Config, d1: Parts,
                  r2: Request, cfg2: Config, d2: Parts, out1: Output, out2: Output)
    requires Encodes(p) && !Collide(p, Material(d1), Material(d2))
    requires !Collide(p, RequestBytes(p, r1), RequestBytes(p, r2))
    requires AcceptedWith(p, r1, cfg1, d1, out1) && AcceptedWith(p, r2, cfg2, d2, out2)
    requires out1.delegationId == out2.delegationId
    ensures d1.vcId == d2.vcId && d1.nonce == d2.nonce && r1.toAgentId == r2.toAgentId && r1.action == r2.action
  {
    DelegationIdInjective(p, Material(d1), Material(d2));
    MaterialInjective(d1.vcId, d1.nonce, d1.requestHash, d2.vcId, d2.nonce, d2.requestHash);
    assert p.sha256(RequestBytes(p, r1)) == p.sha256(RequestBytes(p, r2));
    CanonicalRequestInjective(r1.toAgentId, r1.action, r2.toAgentId, r2.action);
  }

  /** Calls accepted at any times and under any configurations share a delegation id only if they agree on
      credential id, nonce, target and action, or show a collision of the truncated hash. */
  lemma DelegationIdBinds(p: Primitives, r1: Request, cfg1: Config, r2: Request, cfg2: Config)
    requires Encodes(p)
    requires VerifyDelegateTask(p, r1, cfg1).Ok? && VerifyDelegateTask(p, r2, cfg2).Ok?
    requires VerifyDelegateTask(p, r1, cfg1).value.delegationId == VerifyDelegateTask(p, r2, cfg2).value.delegationId
    ensures var d1, d2 := PartsOf(p, r1, cfg1), PartsOf(p, r2, cfg2);
            || (d1.vcId == d2.vcId && d1.nonce == d2.nonce && r1.toAgentId == r2.toAgentId && r1.action == r2.action)
            || Collide(p, Material(d1), Material(d2)) || Collide(p, RequestBytes(p, r1), RequestBytes(p, r2))
  {
    var d1, d2 := PartsOf(p, r1, cfg1), PartsOf(p, r2, cfg2);
    if !Collide(p, Material(d1), Material(d2)) && !Collide(p, RequestBytes(p, r1), RequestBytes(p, r2)) {
      PartsBind(p, r1, cfg1, d1, r2, cfg2, d2, VerifyDelegateTask(p, r1, cfg1).value,
                VerifyDelegateTask(p, r2, cfg2).value);
    }
  }

  // ---------------------------------------------------------------- the agent made the call

  /** Under credential ids and nonces of one length each, as they are checked to be, the preimage that the agent
      signs determines all its parts. */
  lemma PreimageDetermines(domain: Bytes, v1: Bytes, n1: Bytes, h1: Bytes, v2: Bytes, n2: Bytes, h2: Bytes)
    requires |v1| == |v2| == 16 && |n1| == |n2| == 16
    ensures Preimage(domain, v1, n1, h1) == Preimage(domain, v2, n2, h2) <==> v1 == v2 && n1 == n2 && h1 == h2
  {
    if Preimage(domain, v1, n1, h1) == Preimage(domain, v2, n2, h2) {
      assert Preimage(domain, v1, n1, h1)[|domain|..] == v1 + n1 + h1;
      assert Preimage(domain, v2, n2, h2)[|domain|..] == v2 + n2 + h2;
      MaterialInjective(v1, n1, h1, v2, n2, h2);
    }
  }

  /** Without the lengths it does not: any bytes could be taken from the one and put into the other. */
  lemma PreimageNeedsLengths(domain: Bytes, vcId: Bytes, moved: Bytes, nonce: Bytes, requestHash: Bytes)
    ensures Preimage(domain, vcId + moved, nonce, requestHash) == Preimage(domain, vcId, moved + nonce, requestHash)
  {
    assert domain + (vcId + moved) + nonce == domain + vcId + (moved + nonce);
  }

  /** One invocation by an agent. */
  datatype Invocation = Invocation(vcId: Bytes, nonce: Bytes, toAgentId: string, action: string)

  /** What verifies under the agent's key is the preimage of an invocation it made. */
  ghost predicate AgentSigns(p: Primitives, key: Bytes, made: Invocation -> bool) {
    forall m: Bytes, sig: Bytes :: p.agentSigOk(key, m, sig) ==>
      exists i: Invocation :: made(i) && |i.vcId| == |i.nonce| == 16 && m == InvocationPreimage(p, i)
  }

  function InvocationPreimage(p: Primitives, i: Invocation): Bytes {
    Preimage(p.utf8(INVOCATION_DOMAIN), i.vcId, i.nonce, p.requestDigest(i.toAgentId, i.action))
  }

  lemma InvocationIsSigned(p: Primitives, r: Request, env: Envelope, c: Credential) returns (key: Bytes, sig: Bytes)
    requires CheckInvocation(p, r, env, c).Ok?
    ensures var (vcId, nonce, requestHash) := CheckInvocation(p, r, env, c).value;
            && p.base64(c.agentPubkey) == Some(key) && |vcId| == |nonce| == 16
            && requestHash == p.requestDigest(r.toAgentId, r.action)
            && p.agentSigOk(key, Preimage(p.utf8(INVOCATION_DOMAIN), vcId, nonce, requestHash), sig)
  {
    key, sig := p.base64(c.agentPubkey).value, p.base64(env.agentSig).value;
  }

  /** Whatever call is accepted, the agent that the credential names made it: under this credential id and nonce,
      for this target and action, unless two request texts collide. */
  lemma AcceptedIsInvoked(p: Primitives, r: Request, cfg: Config, made: Invocation -> bool) returns (i: Invocation)
    requires Encodes(p) && VerifyDelegateTask(p, r, cfg).Ok?
    requires var agent := p.base64(PartsOf(p, r, cfg).credential.agentPubkey);
             agent.Some? ==> AgentSigns(p, agent.value, made)
    ensures made(i) && i.vcId == PartsOf(p, r, cfg).vcId && i.nonce == PartsOf(p, r, cfg).nonce
    ensures || (i.toAgentId == r.toAgentId && i.action == r.action)
            || Collide(p, p.utf8(CanonicalRequest(i.toAgentId, i.action)), RequestBytes(p, r))
  {
    var d, env := PartsOf(p, r, cfg), r.envelope.value;
    var key, sig := InvocationIsSigned(p, r, env, d.credential);
    i :| made(i) && |i.vcId| == |i.nonce| == 16
         && InvocationPreimage(p, i) == Preimage(p.utf8(INVOCATION_DOMAIN), d.vcId, d.nonce, d.requestHash);
    PreimageDetermines(p.utf8(INVOCATION_DOMAIN), i.vcId, i.nonce, p.requestDigest(i.toAgentId, i.action), d.vcId,
                       d.nonce, d.requestHash);
    DigestBinds(p, i, r);
  }

  lemma DigestBinds(p: Primitives, i: Invocation, r: Request)
    requires Encodes(p) && p.requestDigest(i.toAgentId, i.action) == p.requestDigest(r.toAgentId, r.action)
    ensures || (i.toAgentId == r.toAgentId && i.action == r.action)
            || Collide(p, p.utf8(CanonicalRequest(i.toAgentId, i.action)), RequestBytes(p, r))
  {
    if p.utf8(CanonicalRequest(i.toAgentId, i.action)) == RequestBytes(p, r) {
      CanonicalRequestInjective(i.toAgentId, i.action, r.toAgentId, r.action);
    }
  }

  // ---------------------------------------------------------------- the window

  /** All the times at which any call under one credential is accepted lie within an interval no longer
      than the policy's TTL, which is itself between 1 and the global maximum. */
  lemma AcceptanceTimesAreClose(p: Primitives, r1: Request, cfg1: Config, r2: Request, cfg2: Config)
    requires VerifyDelegateTask(p, r1, cfg1).Ok? && VerifyDelegateTask(p, r2, cfg2).Ok?
    requires r1.envelope.value.credentialJcs == r2.envelope.value.credentialJcs
    ensures var policy := PartsOf(p, r1, cfg1).policy;
            && policy == PartsOf(p, r2, cfg2).policy
            && 1 <= policy.maxTtl <= cfg1.maxTtl && policy.maxTtl <= cfg2.maxTtl
            && cfg1.now as int - cfg2.now as int <= policy.maxTtl as int
            && cfg2.now as int - cfg1.now as int <= policy.maxTtl as int
  {
    PartsClose(p, r1, cfg1, PartsOf(p, r1, cfg1), VerifyDelegateTask(p, r1, cfg1).value,
               r2, cfg2, PartsOf(p, r2, cfg2), VerifyDelegateTask(p, r2, cfg2).value);
  }

  lemma PartsClose(p: Primitives, r1: Request, cfg1: Config, d1: Parts, out1: Output,
                   r2: Request, cfg2: Config, d2: Parts, out2: Output)
    requires AcceptedWith(p, r1, cfg1, d1, out1) && AcceptedWith(p, r2, cfg2, d2, out2)
    requires r1.envelope.value.credentialJcs == r2.envelope.value.credentialJcs
    ensures d1.policy == d2.policy
    ensures cfg1.now as int - cfg2.now as int <= d1.policy.maxTtl as int
    ensures cfg2.now as int - cfg1.now as int <= d1.policy.maxTtl as int
  {
  }

  /** The sum of two words stays below 2^64, and wraps around only when it has to. */
  lemma SumWraps(a: Word, b: Word)
    ensures 0 <= WrappingAdd(a, b) < 0x1_0000_0000_0000_0000
    ensures WrappingAdd(a, b) == a + b || WrappingAdd(a, b) == a + b - 0x1_0000_0000_0000_0000
  {
  }

  lemma SkewInCredential(p: Primitives, env: Envelope, cfg: Config, skew: Word)
    requires cfg.now + cfg.clockSkew < U64 && cfg.now + skew < U64
    ensures var c1, c2 := CheckCredential(p, env, cfg), CheckCredential(p, env, cfg.(clockSkew := skew));
            c1.Ok? == c2.Ok? && (c1.Ok? ==> c1 == c2)
  {
  }

  /** The skew allowance decides nothing: as long as adding it does not wrap, acceptance is the same
      whatever it is, because a call before the window is rejected anyway. */
  lemma SkewDecidesNothing(p: Primitives, r: Request, cfg: Config, skew: Word)
    requires cfg.now + cfg.clockSkew < 0x1_0000_0000_0000_0000 && cfg.now + skew < 0x1_0000_0000_0000_0000
    ensures VerifyDelegateTask(p, r, cfg).Ok? <==> VerifyDelegateTask(p, r, cfg.(clockSkew := skew)).Ok?
  {
    if r.envelope.Some? {
      SkewInCredential(p, r.envelope.value, cfg, skew);
    }
  }

  /** Only what the trusted issuer signed is accepted, and without a pinned issuer nothing is. The signed bytes
      are a delegation credential for this contract and this function, of the tenant when one is configured, with a
      policy that names this target and this action; the answer repeats the target, the issuer and the end of the
      credential. */
  lemma AcceptedIsIssued(p: Primitives, r: Request, cfg: Config, issued: (Bytes, Bytes) -> bool)
    requires forall issuer, bytes, sig :: p.recover(bytes, sig) == Some(issuer) ==> issued(issuer, bytes)
    requires VerifyDelegateTask(p, r, cfg).Ok?
    ensures var d := PartsOf(p, r, cfg); var c := d.credential;
            && cfg.trustedIssuer.Some? && issued(cfg.trustedIssuer.value, d.credentialBytes)
            && p.parseCredential(d.credentialBytes) == Some(c)
            && c.v == "ot3.delegation/1" && c.contract == "adn-processor" && "delegate-task" in c.functions
            && (cfg.tenantDid.Some? ==> c.orgDid == cfg.tenantDid.value && c.userDid == cfg.tenantDid.value)
            && "adn_authorization_v1" in c.metadata
            && p.parsePolicy(c.metadata["adn_authorization_v1"]) == Some(d.policy)
            && d.policy.toAgentId == r.toAgentId && r.action in d.policy.actions
    ensures var d, out := PartsOf(p, r, cfg), VerifyDelegateTask(p, r, cfg).value;
            && out.status == "ROUTED" && out.routedTo == r.toAgentId && out.credentialEnforced
            && out.userSigner == "0x" + HexText(cfg.trustedIssuer.value)
            && p.parseWord(d.credential.notAfter) == Some(d.notAfter)
            && p.rfc3339(d.notAfter) == Some(out.authorizationExpiresAt)
  {
    var d := PartsOf(p, r, cfg);
    assert AcceptedWith(p, r, cfg, d, VerifyDelegateTask(p, r, cfg).value);
    assert p.recover(d.credentialBytes, p.base64(r.envelope.value.userSig).value) == Some(d.signer);
  }
}
