/**
 Requests for which the bound of two handler calls fails (src/agent_delegation_network.py,
 src/delegation_protocol.py): one that is read at the instant its authorization ends, and one that states
 neither time and is signed anew an hour later.
 */
module RequestLapses {
  import opened Clock
  import opened Wrappers
  import opened Messages
  import opened Receipts
  import opened DelegationRequests
  import opened DelegationWorker
  import opened RequestBound
  import opened HonestPath
  import opened HonestWorld
  import L = ReplayLedger

  // ---------------------------------------------------------------- at the end of the authorization

  /** An honest request is kept until an hour after it was made, or until its authorization ends. */
  lemma HonestRetention(c: Crypto, made: Doc -> bool, x: Setup, now: Time)
    requires Honest(c, made, x)
    ensures ExpiryFixed(DataOfTask(x))
    ensures DataExpiry(c, DataOfTask(x), now) == Earlier(x.delegated + DEFAULT_LIFETIME, x.expires)
  {
    NewRequestSays(x.boss.agentId, x.task, x.generated, x.nonce, x.delegated);
    HonestAuthorizedUntil(c, made, x);
    RetentionFrom(c, DataOfTask(x), x.delegated, x.expires, now);
  }

  lemma HonestAuthorizedUntil(c: Crypto, made: Doc -> bool, x: Setup)
    requires Honest(c, made, x)
    ensures AuthorizedUntil(c, DataOfTask(x)) == Some(x.expires)
  {
    NewRequestSays(x.boss.agentId, x.task, x.generated, x.nonce, x.delegated);
    ReceiptCopies(c, x, AuthorizationExpiresAt);
    ReceiptNamesTheTask(c, x);
    UntilFrom(c, DataOfTask(x), x.task.receipt.doc, x.expires);
  }

  lemma UntilFrom(c: Crypto, data: Doc, receipt: Doc, expires: Time)
    requires IsoRoundTrips(c) && Get(data, TeeAuthorization) == Dict(receipt) && Truthy(Dict(receipt))
    requires Get(receipt, AuthorizationExpiresAt) == Text(c.printIso(expires)) && c.printIso(expires) != ""
    ensures AuthorizedUntil(c, data) == Some(expires)
  {
    assert c.iso(c.printIso(expires)) == Some(expires);
  }

  lemma RetentionFrom(c: Crypto, data: Doc, issued: Time, until: Time, now: Time)
    requires GetOr(data, IssuedAt, Num(0)) == Num(issued) && 0 < issued
    requires GetOr(data, ExpiresAt, Num(0)) == Num(issued + DEFAULT_LIFETIME)
    requires AuthorizedUntil(c, data) == Some(until)
    ensures ExpiryFixed(data) && DataExpiry(c, data, now) == Earlier(issued + DEFAULT_LIFETIME, until)
  {
  }

  /** An honest request whose authorization ends while the proofs still hold can be read at that very instant,
      and so lapses: its row is purged by the begin that should have met it. */
  lemma BoundaryLapses(c: Crypto, hmac: L.Hmac, made: Doc -> bool, x: Setup, site: Site, mode: Mode, flag: bool,
                       when: Time -> bool)
    requires Honest(c, made, x) && Serves(x, site, mode, flag) && when(x.expires) && Works(hmac, site.secret)
    requires x.expires <= x.authorized + Messages.PROOF_TTL_SECONDS
    requires x.expires <= x.delegated + Messages.PROOF_TTL_SECONDS
    ensures Lapses(c, DataOfTask(x), when) && !CallsBounded(c, hmac, DataOfTask(x), when, site.secret)
  {
    var data, signed := DataOfTask(x), SignRequest(c, x.boss, DataOfTask(x), x.delegated);
    HonestIsRead(c, hmac, made, x, site, mode, flag, x.expires);
    HonestRetention(c, made, x, x.expires);
    assert Passes(c, data, when, x.expires);
    assert LapsesAt(c, data, when, x.expires, x.expires);
    LapseIsUnbounded(c, hmac, data, when, site.secret, x.expires, x.expires);
  }

  lemma HonestIsRead(c: Crypto, hmac: L.Hmac, made: Doc -> bool, x: Setup, site: Site, mode: Mode, flag: bool,
                     now: Time)
    requires Honest(c, made, x) && Serves(x, site, mode, flag) && Authorized(x, now)
    requires now <= x.delegated + Messages.PROOF_TTL_SECONDS
    ensures ReadAt(c, DataOfTask(x), site, SignRequest(c, x.boss, DataOfTask(x), x.delegated), now)
  {
    var signed := SignRequest(c, x.boss, DataOfTask(x), x.delegated);
    HonestRequestIsGranted(c, hmac, made, x, site, mode, flag, map[], now, "");
    ReceiptNamesTheTask(c, x);
    RequestIsRead(x, signed, now);
    ScreenedIsRead(c, DataOfTask(x), site, signed, now);
  }

  // ---------------------------------------------------------------- unstated times

  /** Data without a receipt that this worker would serve. */
  ghost predicate Served(data: Doc, site: Site) {
    && !site.gate.requireReceipt && !Truthy(Get(data, TeeAuthorization))
    && GetOr(data, ToAgentId, Text("")) == Text(site.agentId)
    && Allowed(site.policy, GetOr(data, FromAgentId, Text("")), site.agentId, GetOr(data, Action, Text("")))
    && GetOr(data, Action, Text("")).s in site.actions
  }

  /** The delegator makes a message with the data at this instant. */
  ghost predicate SignsAt(c: Crypto, boss: Identity, made: Doc -> bool, data: Doc, at: Time) {
    made(NewPayload(c, boss, DELEGATE_TASK, Get(data, Nonce), Some(Dict(data)), at))
  }

  lemma UnstatedParsed(signed: Doc, data: Doc, site: Site, now: Time)
    requires Get(signed, DelegationData) == Dict(data) && !ExpiryStated(data) && Served(data, site)
    ensures RequestFrom(signed, now).Some?
    ensures var r := RequestFrom(signed, now).value;
            && r.expiresAt == now + DEFAULT_LIFETIME && r.toAgentId == Text(site.agentId)
            && !Truthy(r.tee) && Ready(site, r)
  {
  }

  lemma UnstatedValidates(c: Crypto, signed: Doc, data: Doc, site: Site, now: Time)
    requires NonEmptyDigest(c) && !ExpiryStated(data) && Served(data, site)
    requires VerifyAction(c, signed, DELEGATE_TASK, now) == None && Get(signed, DelegationData) == Dict(data)
    requires Get(signed, DataHash) == Text(c.digest(Dict(data)))
    ensures Screened(c, site, signed, now).Some?
  {
    UnstatedParsed(signed, data, site, now);
  }

  lemma UnstatedIsRead(c: Crypto, boss: Identity, made: Doc -> bool, data: Doc, site: Site, now: Time)
    requires Genuine(c, boss, made) && IsoRoundTrips(c) && NonEmptyDigest(c) && SignsAt(c, boss, made, data, now)
    requires !ExpiryStated(data) && Served(data, site)
    ensures ReadAt(c, data, site, SignRequest(c, boss, data, now), now)
  {
    var signed := SignRequest(c, boss, data, now);
    SignedDataIsGood(c, boss, made, data, now, now);
    UnstatedValidates(c, signed, data, site, now);
    ScreenedIsRead(c, data, site, signed, now);
  }

  /** A delegator who states no times and signs the same data anew an hour later has a handler called three
      times, when no receipt is required. */
  lemma UnstatedRunsThrice(c: Crypto, hmac: L.Hmac, boss: Identity, made: Doc -> bool, data: Doc, site: Site,
                           when: Time -> bool, t: Time)
    requires Genuine(c, boss, made) && IsoRoundTrips(c) && NonEmptyDigest(c)
    requires !ExpiryStated(data) && Served(data, site)
    requires SignsAt(c, boss, made, data, t) && SignsAt(c, boss, made, data, t + DEFAULT_LIFETIME)
    requires when(t) && when(t + DEFAULT_LIFETIME) && Works(hmac, site.secret)
    ensures Lapses(c, data, when) && !CallsBounded(c, hmac, data, when, site.secret)
  {
    var later := t + DEFAULT_LIFETIME;
    UnstatedIsRead(c, boss, made, data, site, t);
    UnstatedIsRead(c, boss, made, data, site, later);
    assert Passes(c, data, when, t) && Passes(c, data, when, later);
    UnstatedInAnHour(c, data, t);
    assert LapsesAt(c, data, when, t, later);
    LapseIsUnbounded(c, hmac, data, when, site.secret, t, later);
  }

  // ---------------------------------------------------------------- both happen

  const CHORE: Doc := map[FromAgentId := Text("b"), ToAgentId := Text("w"), Action := Text("x")]

  function OpenSite(gate: Gate, secret: L.Secret): Site {
    Site("w", gate, Policy(map["b" := {"x"}, "w" := {"x"}], map["b" := {"w"}]), {"x"}, secret)
  }

  ghost function ChorePayload(at: Time): Doc {
    NewPayload(Blank(), Party("b"), DELEGATE_TASK, Get(CHORE, Nonce), Some(Dict(CHORE)), at)
  }

  lemma ChoreIsServed(secret: L.Secret)
    ensures !ExpiryStated(CHORE) && Served(CHORE, OpenSite(TrustedGate(Demo, "", "", "", false), secret))
  {
    assert GetOr(CHORE, Action, Text("")) == Text("x") && GetOr(CHORE, FromAgentId, Text("")) == Text("b");
  }

  /** At every instant there is such data, without collisions of the digest. */
  lemma UnstatedIsPossible(hmac: L.Hmac, secret: L.Secret, t: Time) returns (c: Crypto, data: Doc)
    requires Works(hmac, secret)
    ensures InjectiveDigest(c) && !ExpiryStated(data) && !CallsBounded(c, hmac, data, now => true, secret)
  {
    var made := (p: Doc) => p == ChorePayload(t) || p == ChorePayload(t + DEFAULT_LIFETIME);
    c, data := World(made), CHORE;
    WorldIsSound(made);
    WorldIsGenuine(made, Party("b"), made);
    WorldsAreAlike(made, payload => false);
    PayloadAlike(c, Blank(), Party("b"), DELEGATE_TASK, Get(CHORE, Nonce), Some(Dict(CHORE)), t);
    PayloadAlike(c, Blank(), Party("b"), DELEGATE_TASK, Get(CHORE, Nonce), Some(Dict(CHORE)), t + DEFAULT_LIFETIME);
    ChoreIsServed(secret);
    var site := OpenSite(TrustedGate(Demo, "", "", "", false), secret);
    UnstatedRunsThrice(c, hmac, Party("b"), made, CHORE, site, now => true, t);
  }

  /** And at every instant there is a request that lapses in live mode at the end of its authorization. */
  lemma BoundaryIsPossible(hmac: L.Hmac, secret: L.Secret, now: Time) returns (c: Crypto, data: Doc)
    requires 0 < now && Works(hmac, secret)
    ensures InjectiveDigest(c) && ExpiryFixed(data) && DataExpiry(c, data, now) == now
    ensures !CallsBounded(c, hmac, data, t => true, secret)
  {
    var made, x, decided, issued;
    c, made, x, decided, issued := HonestIsPossible(now, Null, "n", now);
    data := DataOfTask(x);
    HonestRetention(c, made, x, now);
    SiteServes(x, secret);
    BoundaryLapses(c, hmac, made, x, SiteFor(x, secret), Live, false, t => true);
  }

  lemma SiteServes(x: Setup, secret: L.Secret)
    ensures Serves(x, SiteFor(x, secret), Live, false)
  {
    assert x.task.action in {x.task.action} && x.worker.agentId in {x.worker.agentId};
  }

  /** A worker with the policy and the handler that the job needs. */
  function SiteFor(x: Setup, secret: L.Secret): Site {
    var boss, worker, action := x.boss.agentId, x.worker.agentId, x.task.action;
    var policy := Policy(map[boss := {action}][worker := {action}], map[boss := {worker}]);
    Site(worker, GateOf(x, Live, false), policy, {action}, secret)
  }
}
