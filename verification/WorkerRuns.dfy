/**
 Runs of any number of workers on one ledger (src/agent_delegation_network.py). Their phases interleave:
 a message is delivered and perhaps granted, the handler is called, the job is finalized; heartbeats and
 transactions on other keys come in between, and a worker may stop at any point and do nothing more.

 The run is watched through the delegation data of one request. Which messages carry the data, how often
 and to whom they are delivered, and what else happens is left open.
 */
module WorkerRuns {
  import opened Clock
  import opened Wrappers
  import opened Messages
  import opened Receipts
  import opened DelegationRequests
  import opened DelegationWorker
  import L = ReplayLedger
  import P = LedgerProtocol

  /** A grant of the watched request, with the message it was granted for. */
  datatype Held = Held(site: Site, signed: Doc, at: Time, token: L.Token)

  datatype Step =
    | Deliver(site: Site, signed: Doc, now: Time, token: L.Token)
    | Call(held: Held)
    | Finish(held: Held, final: L.State, error: Option<string>, now: Time)
    | Elsewhere(event: P.Event)

  /** All grants so far, those not acted on yet, those whose handler was called and that are not finalized,
      and all handler calls so far. */
  datatype System = System(world: P.World, issued: set<Held>, granted: set<Held>, running: set<Held>, calls: seq<Held>)

  // ---------------------------------------------------------------- steps

  function Transact(hmac: L.Hmac, key: string, s: System, e: P.Event): System {
    s.(world := P.Apply(hmac, key, s.world, e))
  }

  function FinishEvent(key: string, held: Held, final: L.State, error: Option<string>, now: Time): P.Event {
    P.Finalize(key, held.site.secret, now, Some(held.token), final, error)
  }

  /** The begin a delivered message leads to, if any. */
  function BeginOf(c: Crypto, site: Site, signed: Doc, now: Time, token: L.Token): Option<P.Event> {
    match Screened(c, site, signed, now)
    case None => None
    case Some((r, key)) => Some(BeginEvent(c, site, r, key, now, token))
  }

  function Begun(hmac: L.Hmac, key: string, s: System, e: P.Event, held: Held): System {
    if e.key == key && P.IsGranted(hmac, s.world.table, e) then
      Transact(hmac, key, s, e).(issued := s.issued + {held}, granted := s.granted + {held})
    else
      Transact(hmac, key, s, e)
  }

  predicate Raises(hmac: L.Hmac, t: L.Table, e: P.Event) {
    e.Finalize? && L.FinalizeStep(hmac, t, e.key, e.final, e.error, e.secret, e.now, e.shown).1 == L.IntegrityError
  }

  /** A job stays with its worker after a finalize that raised, to be finalized again. */
  function Finished(hmac: L.Hmac, key: string, s: System, e: P.Event, held: Held): System {
    if Raises(hmac, s.world.table, e) then Transact(hmac, key, s, e)
    else Transact(hmac, key, s, e).(running := s.running - {held})
  }

  function Called(s: System, held: Held): System {
    s.(granted := s.granted - {held}, running := s.running + {held}, calls := s.calls + [held])
  }

  function After(c: Crypto, hmac: L.Hmac, key: string, s: System, step: Step): System {
    match step
    case Deliver(site, signed, now, token) =>
      (match BeginOf(c, site, signed, now, token)
       case None => s
       case Some(e) => Begun(hmac, key, s, e, Held(site, signed, now, token)))
    case Call(held) => Called(s, held)
    case Finish(held, final, error, now) => Finished(hmac, key, s, FinishEvent(key, held, final, error, now), held)
    case Elsewhere(e) => Transact(hmac, key, s, e)
  }

  function RunSystem(c: Crypto, hmac: L.Hmac, key: string, s: System, steps: seq<Step>): System
    decreases |steps|
  {
    if steps == [] then s else RunSystem(c, hmac, key, After(c, hmac, key, s, steps[0]), steps[1..])
  }

  /** A worker calls a handler only for a grant it has. Everything else may happen as it likes. */
  predicate Acts(s: System, step: Step) {
    step.Call? ==> step.held in s.granted
  }

  predicate ActingRun(c: Crypto, hmac: L.Hmac, key: string, s: System, steps: seq<Step>)
    decreases |steps|
  {
    steps == [] || (Acts(s, steps[0]) && ActingRun(c, hmac, key, After(c, hmac, key, s, steps[0]), steps[1..]))
  }

  ghost predicate Initial(key: string, s: System) {
    P.Start(key, s.world) && s.issued == {} && s.granted == {} && s.running == {} && s.calls == []
  }

  /** What one transaction adds to the history of its key. */
  lemma RecordedShape(hmac: L.Hmac, key: string, t: L.Table, e: P.Event)
    ensures var more := P.Recorded(hmac, key, t, e);
            && (e.key != key ==> more == [])
            && (e.key == key && e.Heartbeat? ==> more == [] || (|more| == 1 && more[0].Renewal?))
            && (e.key == key && e.Begin? ==> more == if P.IsGranted(hmac, t, e) then [P.Grant(e.issued, e.now)] else [])
            && (e.key == key && e.Finalize? ==>
                  || more == []
                  || (!Raises(hmac, t, e) && |more| == 1 && more[0].Finish? && more[0].shown == e.shown))
  {
  }

  // ---------------------------------------------------------------- what calls rest on

  /** A message with the watched data that passed the worker's screening. */
  ghost predicate Vouched(c: Crypto, data: Doc, held: Held) {
    Screened(c, held.site, held.signed, held.at).Some? && DataOf(held.signed) == Dict(data)
  }

  /** ... and a grant of the ledger. */
  ghost predicate Justified(c: Crypto, data: Doc, h: seq<P.Entry>, held: Held) {
    Vouched(c, data, held) && P.Grant(held.token, held.at) in h
  }

  ghost predicate AllJustified(c: Crypto, data: Doc, h: seq<P.Entry>, all: set<Held>) {
    forall held <- all :: Justified(c, data, h, held)
  }

  lemma JustifiedGrows(c: Crypto, data: Doc, h: seq<P.Entry>, more: seq<P.Entry>, all: set<Held>)
    requires AllJustified(c, data, h, all)
    ensures AllJustified(c, data, h + more, all)
  {
    forall held <- all ensures Justified(c, data, h + more, held) {
      assert Justified(c, data, h, held);
    }
  }

  lemma JustifiedGrant(c: Crypto, data: Doc, h: seq<P.Entry>, held: Held, all: set<Held>)
    requires AllJustified(c, data, h, all) && Vouched(c, data, held)
    ensures AllJustified(c, data, h + [P.Grant(held.token, held.at)], all + {held})
  {
    var g := h + [P.Grant(held.token, held.at)];
    JustifiedGrows(c, data, h, [P.Grant(held.token, held.at)], all);
    assert g[|h|] == P.Grant(held.token, held.at);
    assert Justified(c, data, g, held);
  }

  /** Nobody acts but on a grant. */
  ghost predicate Within(s: System) {
    s.granted <= s.issued && s.running <= s.issued && forall held <- s.calls :: held in s.issued
  }

  ghost predicate AllRest(c: Crypto, data: Doc, s: System) {
    AllJustified(c, data, s.world.history, s.issued) && Within(s)
  }

  lemma TransactRests(c: Crypto, hmac: L.Hmac, key: string, data: Doc, s: System, e: P.Event)
    requires AllRest(c, data, s)
    ensures AllRest(c, data, Transact(hmac, key, s, e))
  {
    JustifiedGrows(c, data, s.world.history, P.Recorded(hmac, key, s.world.table, e), s.issued);
  }

  lemma BegunRests(c: Crypto, hmac: L.Hmac, key: string, data: Doc, s: System, e: P.Event, held: Held)
    requires AllRest(c, data, s) && e.Begin? && (e.key == key ==> Vouched(c, data, held))
    requires held.token == e.issued && held.at == e.now
    ensures AllRest(c, data, Begun(hmac, key, s, e, held))
  {
    if e.key == key && P.IsGranted(hmac, s.world.table, e) {
      RecordedShape(hmac, key, s.world.table, e);
      JustifiedGrant(c, data, s.world.history, held, s.issued);
    } else {
      TransactRests(c, hmac, key, data, s, e);
    }
  }

  /** A message that leads to a begin of the watched key has the watched data; it is read no later than the
      replay expiry of the data at that instant, which the begin states. */
  lemma DeliveredBegin(c: Crypto, data: Doc, site: Site, signed: Doc, now: Time, token: L.Token)
    requires InjectiveDigest(c) && BeginOf(c, site, signed, now, token).Some?
    requires BeginOf(c, site, signed, now, token).value.key == DataKey(c, data)
    ensures DataOf(signed) == Dict(data)
    ensures now <= BeginOf(c, site, signed, now, token).value.expiry == DataExpiry(c, data, now)
  {
    KeyIsOfData(c, signed, site.agentId, site.gate, now);
    DataKeyInjective(c, DataOf(signed).doc, data);
    AdmittedWithinRetention(c, signed, site.agentId, site.gate, now);
  }

  lemma StepRests(c: Crypto, hmac: L.Hmac, data: Doc, s: System, step: Step)
    requires InjectiveDigest(c) && AllRest(c, data, s) && Acts(s, step)
    ensures AllRest(c, data, After(c, hmac, DataKey(c, data), s, step))
  {
    var key := DataKey(c, data);
    match step
    case Deliver(site, signed, now, token) => DeliverRests(c, hmac, data, s, step);
    case Call(held) =>
    case Finish(held, final, error, now) =>
      TransactRests(c, hmac, key, data, s, FinishEvent(key, held, final, error, now));
    case Elsewhere(e) => TransactRests(c, hmac, key, data, s, e);
  }

  lemma DeliverRests(c: Crypto, hmac: L.Hmac, data: Doc, s: System, step: Step)
    requires InjectiveDigest(c) && AllRest(c, data, s) && step.Deliver?
    ensures AllRest(c, data, After(c, hmac, DataKey(c, data), s, step))
  {
    var Deliver(site, signed, now, token) := step;
    var begin := BeginOf(c, site, signed, now, token);
    if begin.Some? {
      if begin.value.key == DataKey(c, data) {
        DeliveredBegin(c, data, site, signed, now, token);
      }
      BegunRests(c, hmac, DataKey(c, data), data, s, begin.value, Held(site, signed, now, token));
    }
  }

  /** In every run each handler call rests on a screened message with exactly the watched data and on a
      recorded grant. */
  lemma {:induction false} CallsRest(c: Crypto, hmac: L.Hmac, data: Doc, s: System, steps: seq<Step>)
    requires InjectiveDigest(c) && AllRest(c, data, s) && ActingRun(c, hmac, DataKey(c, data), s, steps)
    ensures AllRest(c, data, RunSystem(c, hmac, DataKey(c, data), s, steps))
    decreases |steps|
  {
    if steps != [] {
      StepRests(c, hmac, data, s, steps[0]);
      CallsRest(c, hmac, data, After(c, hmac, DataKey(c, data), s, steps[0]), steps[1..]);
    }
  }

  // ---------------------------------------------------------------- every call is justified

  lemma ScreenedParts(c: Crypto, site: Site, signed: Doc, now: Time)
    requires Screened(c, site, signed, now).Some?
    ensures VerifyAction(c, signed, DELEGATE_TASK, now) == None
    ensures DataHash in signed ==> signed[DataHash] == Text(c.digest(DataOf(signed)))
    ensures RequestFrom(signed, now).Some?
    ensures var r := RequestFrom(signed, now).value;
            && r.toAgentId == Text(site.agentId) && now <= r.expiresAt
            && CheckReceipt(c, r, site.agentId, site.gate, now) == None
            && Allowed(site.policy, r.fromAgentId, site.agentId, r.action)
  {
  }

  lemma ReceiptWasChecked(c: Crypto, r: Request, receiver: string, gate: Gate, now: Time)
    requires gate.requireReceipt && CheckReceipt(c, r, receiver, gate, now) == None
    ensures VerifyReceipt(c, r.tee, ExpectedBy(r, receiver, gate), now) == None
  {
  }

  /** In live mode, and wherever a receipt is asked for or anything of the gateway is configured, every handler call
      in every run, whatever else happens in it, comes after all of this: the
      holder of the message's key signed it for delegation, over this very data whenever it carries a data
      hash; it is addressed to the worker and not expired; the gateway decided on exactly this delegation,
      target, action, build and (unless they are null) parameters; the policy lets the sender delegate to the
      worker and the worker perform; and the ledger granted it. */
  lemma EveryCallIsJustified(c: Crypto, hmac: L.Hmac, data: Doc, start: System, steps: seq<Step>, held: Held,
                             made: Doc -> bool, gateway: Identity, keyId: string, buildId: string, mode: Mode,
                             flag: bool, decided: Decision -> bool) returns (r: Request, d: Decision)
    requires InjectiveDigest(c) && IsoRoundTrips(c)
    requires Initial(DataKey(c, data), start) && ActingRun(c, hmac, DataKey(c, data), start, steps)
    requires held in RunSystem(c, hmac, DataKey(c, data), start, steps).calls
    requires held.site.gate == TrustedGate(mode, gateway.publicKey, keyId, buildId, flag)
    requires mode == Live || flag || gateway.publicKey != "" || keyId != "" || buildId != ""
    requires Get(held.signed, PublicKeyHex).Text? ==> SignsOnly(c, Get(held.signed, PublicKeyHex).s, made)
    requires SignsDecisions(c, gateway, keyId, decided)
    ensures RequestFrom(held.signed, held.at) == Some(r) && DataOf(held.signed) == Dict(data)
    ensures made(Payload(held.signed)) && Get(Payload(held.signed), Action) == Text(DELEGATE_TASK)
    ensures DataHash in held.signed ==> Get(Payload(held.signed), DataHash) == Text(c.digest(Dict(data)))
    ensures r.toAgentId == Text(held.site.agentId) && held.at <= r.expiresAt
    ensures decided(d) && Authorizes(c, d, ExpectedBy(r, held.site.agentId, held.site.gate), held.at)
    ensures r.fromAgentId.Text? && r.action.Text?
    ensures CanDelegate(held.site.policy, r.fromAgentId.s, held.site.agentId, r.action.s)
    ensures CanPerform(held.site.policy, held.site.agentId, r.action.s)
    ensures P.Grant(held.token, held.at) in RunSystem(c, hmac, DataKey(c, data), start, steps).world.history
  {
    CallsRest(c, hmac, data, start, steps);
    var s := RunSystem(c, hmac, DataKey(c, data), start, steps);
    assert held in s.issued;
    assert Justified(c, data, s.world.history, held);
    r, d := VouchedIsAuthorized(c, data, held, made, gateway, keyId, buildId, mode, flag, decided);
  }

  lemma VouchedIsAuthorized(c: Crypto, data: Doc, held: Held, made: Doc -> bool, gateway: Identity, keyId: string,
                            buildId: string, mode: Mode, flag: bool, decided: Decision -> bool)
    returns (r: Request, d: Decision)
    requires InjectiveDigest(c) && IsoRoundTrips(c) && Vouched(c, data, held)
    requires held.site.gate == TrustedGate(mode, gateway.publicKey, keyId, buildId, flag)
    requires mode == Live || flag || gateway.publicKey != "" || keyId != "" || buildId != ""
    requires Get(held.signed, PublicKeyHex).Text? ==> SignsOnly(c, Get(held.signed, PublicKeyHex).s, made)
    requires SignsDecisions(c, gateway, keyId, decided)
    ensures RequestFrom(held.signed, held.at) == Some(r)
    ensures made(Payload(held.signed)) && Get(Payload(held.signed), Action) == Text(DELEGATE_TASK)
    ensures DataHash in held.signed ==> Get(Payload(held.signed), DataHash) == Text(c.digest(Dict(data)))
    ensures r.toAgentId == Text(held.site.agentId) && held.at <= r.expiresAt
    ensures decided(d) && Authorizes(c, d, ExpectedBy(r, held.site.agentId, held.site.gate), held.at)
    ensures Allowed(held.site.policy, r.fromAgentId, held.site.agentId, r.action)
  {
    ScreenedParts(c, held.site, held.signed, held.at);
    ReceiptAskedFor(mode, gateway.publicKey, keyId, buildId, flag);
    r := RequestFrom(held.signed, held.at).value;
    SenderSigned(c, held.signed, held.at, made);
    d := GatewayDecided(c, r, held.site.agentId, held.site.gate, held.at, gateway, decided);
  }

  lemma SenderSigned(c: Crypto, signed: Doc, now: Time, made: Doc -> bool)
    requires InjectiveDigest(c) && VerifyAction(c, signed, DELEGATE_TASK, now) == None
    requires Get(signed, PublicKeyHex).Text? ==> SignsOnly(c, Get(signed, PublicKeyHex).s, made)
    ensures made(Payload(signed)) && Get(Payload(signed), Action) == Text(DELEGATE_TASK)
    ensures Get(Payload(signed), DataHash) == Get(signed, DataHash)
  {
    VerifiedWasMade(c, signed, DELEGATE_TASK, now, made);
  }

  lemma GatewayDecided(c: Crypto, r: Request, receiver: string, gate: Gate, now: Time, gateway: Identity,
                       decided: Decision -> bool) returns (d: Decision)
    requires InjectiveDigest(c) && IsoRoundTrips(c) && SignsDecisions(c, gateway, gate.keyId, decided)
    requires gate.requireReceipt && gate.publicKey == gateway.publicKey
    requires CheckReceipt(c, r, receiver, gate, now) == None
    ensures decided(d) && Authorizes(c, d, ExpectedBy(r, receiver, gate), now)
  {
    ReceiptWasChecked(c, r, receiver, gate, now);
    d := AcceptedReceiptIsAuthorized(c, r.tee, ExpectedBy(r, receiver, gate), gateway, decided, now);
  }
}
