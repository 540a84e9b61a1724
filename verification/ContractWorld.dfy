/**
 What is assumed of the contract's primitives, and of the hashing of release proofs, can be met: an injective
 encoding of text, and an agent whose key verifies only its own invocations, in a world where a call is
 accepted.
 */
module ContractWorld {
  import opened Wrappers
  import opened Hex
  import opened DelegateContract
  import A = ProofArchive

  // ---------------------------------------------------------------- text as bytes

  function ByteOf(n: nat, i: nat): Byte
    requires n < 0x100_0000 && i < 3
  {
    if i == 0 then n / 0x1_0000 else if i == 1 then n / 0x100 % 0x100 else n % 0x100
  }

  /** Three bytes for each character. */
  function Wide(s: string): (r: Bytes)
    ensures |r| == 3 * |s|
  {
    seq(3 * |s|, i requires 0 <= i < 3 * |s| => ByteOf(s[i / 3] as int, i % 3))
  }

  lemma WideAt(s: string, k: nat)
    requires k < |s|
    ensures Wide(s)[3 * k] == s[k] as int / 0x1_0000 && Wide(s)[3 * k + 1] == s[k] as int / 0x100 % 0x100
    ensures Wide(s)[3 * k + 2] == s[k] as int % 0x100
  {
    assert 3 * k / 3 == k && (3 * k + 1) / 3 == k && (3 * k + 2) / 3 == k;
    assert 3 * k % 3 == 0 && (3 * k + 1) % 3 == 1 && (3 * k + 2) % 3 == 2;
  }

  lemma WideInjective(s: string, t: string)
    requires Wide(s) == Wide(t)
    ensures s == t
  {
    assert 3 * |s| == |Wide(s)| == |Wide(t)| == 3 * |t|;
    forall k | 0 <= k < |s| ensures s[k] == t[k] {
      WideAt(s, k);
      WideAt(t, k);
      SameChar(s[k] as int, t[k] as int);
    }
  }

  lemma SameChar(m: nat, n: nat)
    requires m / 0x1_0000 == n / 0x1_0000 && m / 0x100 % 0x100 == n / 0x100 % 0x100 && m % 0x100 == n % 0x100
    ensures m == n
  {
  }

  /** There is a hashing of release proofs without collisions. */
  lemma CollisionFreeIsPossible() returns (h: A.Hashing)
    ensures A.CollisionFree(h)
  {
    h := A.Hashing(HexText, Wide);
    forall a: Bytes, b: Bytes | h.sha(a) == h.sha(b) ensures a == b {
      HexInjective(a, b);
    }
    forall s: string, t: string | h.utf8(s) == h.utf8(t) ensures s == t {
      WideInjective(s, t);
    }
  }

  // ---------------------------------------------------------------- an accepted call

  function Zeros(n: nat): Bytes {
    seq(n, i => 0)
  }

  /** The texts of one call: the request hash is "h", and everything else decodes to sixteen bytes. */
  function Decode(text: string): Option<Bytes> {
    Some(Zeros(if text == "h" then 32 else 16))
  }

  function TheCredential(): Credential {
    Credential(CREDENTIAL_DOMAIN, [FUNCTION_NAME], "0", "1", "v", "k", "u", "o", CONTRACT_NAME, map[POLICY_KEY := "p"])
  }

  function Preimages(i: Invocation): Bytes {
    Preimage(Wide(INVOCATION_DOMAIN), i.vcId, i.nonce, Zeros(32))
  }

  ghost predicate SignedBy(made: Invocation -> bool, m: Bytes) {
    exists i: Invocation :: made(i) && |i.vcId| == |i.nonce| == 16 && m == Preimages(i)
  }

  /** A signature verifies exactly on what the agent made. */
  ghost function ThePrimitives(made: Invocation -> bool): Primitives {
    Primitives(Decode, bytes => Some(TheCredential()), text => Some(DelegateContract.Policy("w", ["x"], 1)),
               text => Some(if text == "0" then 0 else 1), Wide, bytes => Zeros(32), (s, t) => Zeros(32),
               (key, m, sig) => SignedBy(made, m), (m, sig) => Some(Zeros(20)), w => Some("t"), "b")
  }

  const CALL: Request := Request("w", "x", Some(Envelope("c", "s", "n", "a", "h")))
  const CONFIG: Config := Config(Some(Zeros(20)), None, 0, 1, 0)

  /** An agent that made this one invocation, and a call of it that is accepted. */
  lemma AcceptedIsPossible() returns (p: Primitives, made: Invocation -> bool)
    ensures Encodes(p) && (forall key: Bytes :: AgentSigns(p, key, made)) && VerifyDelegateTask(p, CALL, CONFIG).Ok?
  {
    var only := Invocation(Zeros(16), Zeros(16), "w", "x");
    made := i => i == only;
    p := ThePrimitives(made);
    ItEncodes(p, made);
    forall key: Bytes ensures AgentSigns(p, key, made) {
      SignsOnlyInvocations(p, key, made);
    }
    assert made(only) && SignedBy(made, Preimages(only));
    CallIsAccepted(p, made);
  }

  lemma ItEncodes(p: Primitives, made: Invocation -> bool)
    requires p == ThePrimitives(made)
    ensures Encodes(p)
  {
    forall s: string, t: string | p.utf8(s) == p.utf8(t) ensures s == t {
      WideInjective(s, t);
    }
  }

  lemma SignsOnlyInvocations(p: Primitives, key: Bytes, made: Invocation -> bool)
    requires p == ThePrimitives(made)
    ensures AgentSigns(p, key, made)
  {
    forall m: Bytes, sig: Bytes | p.agentSigOk(key, m, sig)
      ensures exists i: Invocation :: made(i) && |i.vcId| == |i.nonce| == 16 && m == InvocationPreimage(p, i)
    {
      var i: Invocation :| made(i) && |i.vcId| == |i.nonce| == 16 && m == Preimages(i);
      assert m == InvocationPreimage(p, i);
    }
  }

  lemma CallIsAccepted(p: Primitives, made: Invocation -> bool)
    requires p == ThePrimitives(made) && SignedBy(made, Preimages(Invocation(Zeros(16), Zeros(16), "w", "x")))
    ensures VerifyDelegateTask(p, CALL, CONFIG).Ok?
  {
    var d := TheParts();
    TheCredentialHolds(p, made);
    TheInvocationHolds(p, made);
    TheIssuerHolds(p, made);
    var out := Output("tee-del-" + HexText(Truncated(p.sha256(d.vcId + d.nonce + d.requestHash))), "ROUTED", "w", true,
                      HexText(p.sha256(d.credentialBytes)), "0x" + HexText(d.signer), "b", "t");
    AcceptedIsOk(p, CALL, CONFIG, d, out);
  }

  function TheParts(): Parts {
    Parts(Zeros(16), TheCredential(), 0, 1, Zeros(16), Zeros(16), Zeros(32), Zeros(20),
          DelegateContract.Policy("w", ["x"], 1))
  }

  lemma TheCredentialHolds(p: Primitives, made: Invocation -> bool)
    requires p == ThePrimitives(made)
    ensures CredentialHolds(p, CALL.envelope.value, CONFIG, TheParts())
  {
  }

  lemma TheInvocationHolds(p: Primitives, made: Invocation -> bool)
    requires p == ThePrimitives(made) && SignedBy(made, Preimages(Invocation(Zeros(16), Zeros(16), "w", "x")))
    ensures InvocationHolds(p, CALL, CALL.envelope.value, TheParts())
  {
  }

  lemma TheIssuerHolds(p: Primitives, made: Invocation -> bool)
    requires p == ThePrimitives(made)
    ensures IssuerHolds(p, CALL, CALL.envelope.value, CONFIG, TheParts())
  {
  }
}
