/**
 The hypotheses of the other modules can be met, all of them together: a digest that never collides, parties
 whose signatures verify exactly on the payloads they made, and a delegation among them.
 */
module HonestWorld {
  import opened Clock
  import opened Wrappers
  import opened Messages
  import opened Receipts
  import opened DelegationRequests
  import opened DelegationWorker
  import opened ResultVerifier
  import opened HonestPath
  import C = CanonicalJson
  import G = LedgerGuarantees
  import L = ReplayLedger
  import J = JsonParser

  // ---------------------------------------------------------------- a digest without collisions

  function CodeOf(f: Field): int {
    match f
    case AgentId => 0 case Did => 1 case PublicKeyHex => 2 case Action => 3 case Nonce => 4 case IssuedAt => 5
    case ExpiresAt => 6 case Audience => 7 case DataHash => 8 case PayloadHash => 9 case SignatureHex => 10
    case DelegationId => 11 case FromAgentId => 12 case ToAgentId => 13 case TaskDescription => 14
    case Parameters => 15 case Deadline => 16 case RequiredCapabilities => 17 case TeeAuthorization => 18
    case DelegationData => 19 case ResultData => 20 case Status => 21 case ResultField => 22 case ErrorField => 23
    case Version => 24 case TeeDelegationId => 25 case RequestHash => 26 case CredentialFingerprint => 27
    case CredentialEnforced => 28 case BuildConfigId => 29 case TeeResultDigest => 30 case GatewayKeyId => 31
    case AuthorizationExpiresAt => 32 case AuthorizedAt => 33 case GatewayPublicKeyHex => 34 case GatewayProof => 35
    case RoutedTo => 36 case WorkerPublicKeyHex => 37 case CoordinatorId => 38 case ResultNonce => 39
    case ReceiptFingerprint => 40 case GatewayReceiptFingerprint => 41
    case Other(_) => 42
  }

  function FieldAt(n: int): Field {
    match n
    case 0 => AgentId case 1 => Did case 2 => PublicKeyHex case 3 => Action case 4 => Nonce case 5 => IssuedAt
    case 6 => ExpiresAt case 7 => Audience case 8 => DataHash case 9 => PayloadHash case 10 => SignatureHex
    case 11 => DelegationId case 12 => FromAgentId case 13 => ToAgentId case 14 => TaskDescription
    case 15 => Parameters case 16 => Deadline case 17 => RequiredCapabilities case 18 => TeeAuthorization
    case 19 => DelegationData case 20 => ResultData case 21 => Status case 22 => ResultField
    case 23 => ErrorField case 24 => Version case 25 => TeeDelegationId case 26 => RequestHash
    case 27 => CredentialFingerprint case 28 => CredentialEnforced case 29 => BuildConfigId
    case 30 => TeeResultDigest case 31 => GatewayKeyId case 32 => AuthorizationExpiresAt case 33 => AuthorizedAt
    case 34 => GatewayPublicKeyHex case 35 => GatewayProof case 36 => RoutedTo case 37 => WorkerPublicKeyHex
    case 38 => CoordinatorId case 39 => ResultNonce case 40 => ReceiptFingerprint
    case 41 => GatewayReceiptFingerprint
    case _ => Other("")
  }

  /** A known field by its number, any other by its name. */
  function FieldTree(f: Field): C.Json {
    if f.Other? then C.Str(f.name) else C.Int(CodeOf(f))
  }

  lemma FieldTreeInjective(f: Field, g: Field)
    requires FieldTree(f) == FieldTree(g)
    ensures f == g
  {
    KnownAt(f);
    KnownAt(g);
  }

  lemma KnownAt(f: Field)
    ensures !f.Other? ==> FieldAt(CodeOf(f)) == f
  {
  }

  ghost function Pick(fields: set<Field>): Field
    requires fields != {}
  {
    var f :| f in fields; f
  }

  /** Documents become lists, so that the order of their entries is fixed. */
  ghost function Tree(v: Value): C.Json
    decreases v, 1
  {
    match v
    case Null => C.Null
    case Bool(b) => C.Bool(b)
    case Num(n) => C.Int(n)
    case Text(s) => C.Str(s)
    case List(vs) => C.Arr([C.Bool(false)] + Trees(vs))
    case Dict(d) => C.Arr([C.Bool(true)] + Branches(v, d.Keys))
  }

  ghost function Trees(vs: seq<Value>): (r: seq<C.Json>)
    decreases vs, 0
  {
    if vs == [] then [] else [Tree(vs[0])] + Trees(vs[1..])
  }

  ghost function Branches(v: Value, fields: set<Field>): (r: seq<C.Json>)
    requires v.Dict? && fields <= v.doc.Keys
    decreases v, 0, fields
  {
    if fields == {} then [] else
      var f := Pick(fields);
      [FieldTree(f), Tree(v.doc[f])] + Branches(v, fields - {f})
  }

  lemma {:induction false} TreeInjective(v: Value, w: Value)
    requires Tree(v) == Tree(w)
    ensures v == w
    decreases v, 1
  {
    match v
    case Null => case Bool(_) => case Num(_) => case Text(_) =>
    case List(vs) =>
      assert Tree(v).items[0] == Tree(w).items[0] && Tree(v).items[1..] == Trees(vs);
      assert w.List?;
      assert Tree(w).items[1..] == Trees(w.vs);
      TreesInjective(vs, w.vs);
    case Dict(d) =>
      assert Tree(v).items[0] == Tree(w).items[0] && Tree(v).items[1..] == Branches(v, d.Keys);
      assert w.Dict?;
      assert Tree(w).items[1..] == Branches(w, w.doc.Keys);
      BranchesInjective(v, d.Keys, w, w.doc.Keys);
      assert d == w.doc;
  }

  lemma {:induction false} TreesInjective(vs: seq<Value>, ws: seq<Value>)
    requires Trees(vs) == Trees(ws)
    ensures vs == ws
    decreases vs, 0
  {
    if vs != [] && ws != [] {
      assert Trees(vs)[0] == Tree(vs[0]) && Trees(ws)[0] == Tree(ws[0]);
      assert Trees(vs)[1..] == Trees(vs[1..]) && Trees(ws)[1..] == Trees(ws[1..]);
      TreeInjective(vs[0], ws[0]);
      TreesInjective(vs[1..], ws[1..]);
      assert vs == [vs[0]] + vs[1..] && ws == [ws[0]] + ws[1..];
    }
  }

  lemma {:induction false} BranchesInjective(v: Value, fs: set<Field>, w: Value, gs: set<Field>)
    requires v.Dict? && w.Dict? && fs <= v.doc.Keys && gs <= w.doc.Keys
    requires Branches(v, fs) == Branches(w, gs)
    ensures fs == gs && forall f :: f in fs ==> v.doc[f] == w.doc[f]
    decreases v, 0, fs
  {
    if fs != {} && gs != {} {
      var f, g := Pick(fs), Pick(gs);
      var b1, b2 := Branches(v, fs), Branches(w, gs);
      assert b1[0] == FieldTree(f) && b2[0] == FieldTree(g) && b1[1] == Tree(v.doc[f]) && b2[1] == Tree(w.doc[g]);
      FieldTreeInjective(f, g);
      TreeInjective(v.doc[f], w.doc[g]);
      assert b1[2..] == Branches(v, fs - {f}) && b2[2..] == Branches(w, gs - {g});
      BranchesInjective(v, fs - {f}, w, gs - {g});
      assert fs == (fs - {f}) + {f} && gs == (gs - {g}) + {g};
    }
  }

  ghost predicate Flat(j: C.Json) {
    match j
    case Arr(items) => forall i :: 0 <= i < |items| ==> Flat(items[i])
    case Obj(_) => false
    case _ => true
  }

  lemma {:induction false} TreeIsFlat(v: Value)
    ensures Flat(Tree(v))
    decreases v, 1
  {
    match v
    case List(vs) => TreesAreFlat(vs);
    case Dict(d) => BranchesAreFlat(v, d.Keys);
    case _ =>
  }

  lemma {:induction false} TreesAreFlat(vs: seq<Value>)
    ensures forall j <- Trees(vs) :: Flat(j)
    decreases vs, 0
  {
    if vs != [] {
      TreeIsFlat(vs[0]);
      TreesAreFlat(vs[1..]);
    }
  }

  lemma {:induction false} BranchesAreFlat(v: Value, fields: set<Field>)
    requires v.Dict? && fields <= v.doc.Keys
    ensures forall j <- Branches(v, fields) :: Flat(j)
    decreases v, 0, fields
  {
    if fields != {} {
      TreeIsFlat(v.doc[Pick(fields)]);
      BranchesAreFlat(v, fields - {Pick(fields)});
    }
  }

  /** There is nothing in it to put in order. */
  lemma {:induction false} FlatIsNormal(j: C.Json)
    requires Flat(j)
    ensures J.Normal(j) == j
    decreases j, 1
  {
    if j.Arr? {
      FlatItemsAreNormal(j.items);
    }
  }

  lemma {:induction false} FlatItemsAreNormal(items: seq<C.Json>)
    requires forall i :: 0 <= i < |items| ==> Flat(items[i])
    ensures J.NormalItems(items) == items
    decreases items, 0
  {
    if items != [] {
      FlatIsNormal(items[0]);
      FlatItemsAreNormal(items[1..]);
    }
  }

  ghost function Digest(v: Value): string {
    C.Canonical(Tree(v))
  }

  lemma DigestInjective(v: Value, w: Value)
    requires Digest(v) == Digest(w)
    ensures v == w
  {
    TreeIsFlat(v);
    TreeIsFlat(w);
    FlatIsNormal(Tree(v));
    FlatIsNormal(Tree(w));
    J.CanonicalRoundTrip(Tree(v));
    J.CanonicalRoundTrip(Tree(w));
    TreeInjective(v, w);
  }

  // ---------------------------------------------------------------- a world of signatures

  function ReadTime(text: string): Option<Time> {
    match J.Parse(text)
    case Some(v) => if v.Int? then Some(v.n) else None
    case None => None
  }

  /** Every string is a key and its own fingerprint; a signature is good when the message is the digest of a
      payload that was made under the key. */
  ghost function World(made: Doc -> bool): Crypto {
    Crypto(v => Digest(v), key => key, key => true, (key, m, sig) => Made(made, key, m), ReadTime, C.PrintInt)
  }

  ghost predicate Made(made: Doc -> bool, key: string, m: string) {
    exists payload: Doc :: made(payload) && Get(payload, PublicKeyHex) == Text(key) && m == Digest(Dict(payload))
  }

  lemma WorldIsSound(made: Doc -> bool)
    ensures InjectiveDigest(World(made)) && NonEmptyDigest(World(made)) && IsoRoundTrips(World(made))
  {
    forall v, w | World(made).digest(v) == World(made).digest(w) ensures v == w {
      DigestInjective(v, w);
    }
    forall v ensures World(made).digest(v) != "" {
      J.TextStarts(Tree(v));
    }
    forall t: Time ensures World(made).iso(World(made).printIso(t)) == Some(t) {
      J.CanonicalRoundTrip(C.Int(t));
    }
  }

  /** Whoever has a key signs genuinely, and nothing else verifies under it. */
  lemma WorldIsGenuine(made: Doc -> bool, who: Identity, rest: Doc -> bool)
    requires who.agentId == who.publicKey
    requires forall p: Doc :: made(p) && Get(p, PublicKeyHex) == Text(who.publicKey) ==> rest(p)
    ensures Genuine(World(made), who, made) && SignsOnly(World(made), who.publicKey, rest)
  {
    var c := World(made);
    forall payload: Doc | made(payload) && Get(payload, PublicKeyHex) == Text(who.publicKey)
      ensures SignatureVerifies(c, who, payload)
    {
      assert Made(made, who.publicKey, Digest(Dict(payload)));
    }
    forall m: string, sig: string | c.verify(who.publicKey, m, sig)
      ensures exists payload: Doc :: rest(payload) && m == c.digest(Dict(payload))
    {
      assert Made(made, who.publicKey, m);
      var p: Doc :| made(p) && Get(p, PublicKeyHex) == Text(who.publicKey) && m == Digest(Dict(p));
      assert rest(p) && m == c.digest(Dict(p));
    }
  }

  // ---------------------------------------------------------------- what does not depend on the signatures

  ghost predicate Alike(c: Crypto, d: Crypto) {
    c.digest == d.digest && c.printIso == d.printIso
  }

  lemma WorldsAreAlike(made: Doc -> bool, other: Doc -> bool)
    ensures Alike(World(made), World(other))
  {
  }

  lemma PayloadAlike(c: Crypto, d: Crypto, who: Identity, action: string, nonce: Value, data: Option<Value>, now: Time)
    requires Alike(c, d)
    ensures NewPayload(c, who, action, nonce, data, now) == NewPayload(d, who, action, nonce, data, now)
  {
    PayloadKeys(c, who, action, nonce, data, now);
    PayloadKeys(d, who, action, nonce, data, now);
    EntriesAlike(c, d, who, action, nonce, data, now);
    SameEntries(NewPayload(c, who, action, nonce, data, now), NewPayload(d, who, action, nonce, data, now));
  }

  lemma SameEntries(p: Doc, q: Doc)
    requires p.Keys == q.Keys && forall f: Field :: f in p ==> Get(p, f) == Get(q, f)
    ensures p == q
  {
    assert forall f: Field :: f in p ==> p[f] == Get(p, f) && q[f] == Get(q, f);
  }

  lemma EntriesAlike(c: Crypto, d: Crypto, who: Identity, action: string, nonce: Value, data: Option<Value>, now: Time)
    requires Alike(c, d)
    ensures var p, q := NewPayload(c, who, action, nonce, data, now), NewPayload(d, who, action, nonce, data, now);
            forall f: Field :: f in p ==> Get(p, f) == Get(q, f)
  {
    forall f: Field | f in NewPayload(c, who, action, nonce, data, now)
      ensures Get(NewPayload(c, who, action, nonce, data, now), f)
           == Get(NewPayload(d, who, action, nonce, data, now), f)
    {
      NewPayloadAt(c, who, action, nonce, data, now, f);
      NewPayloadAt(d, who, action, nonce, data, now, f);
      FieldAlike(c, d, who, action, nonce, data, now, f);
    }
  }

  lemma FieldAlike(c: Crypto, d: Crypto, who: Identity, action: string, nonce: Value, data: Option<Value>, now: Time,
                   f: Field)
    requires Alike(c, d)
    ensures PayloadField(c, who, action, nonce, data, now, f) == PayloadField(d, who, action, nonce, data, now, f)
  {
  }

  lemma BodyAlike(c: Crypto, d: Crypto, keyId: string, tee: Doc, action: string, parameters: Value, now: Time)
    requires Alike(c, d)
    ensures NewBody(c, keyId, tee, action, parameters, now) == NewBody(d, keyId, tee, action, parameters, now)
  {
    forall f: Field
      ensures BodyField(c, keyId, tee, action, parameters, now, f)
           == BodyField(d, keyId, tee, action, parameters, now, f)
    {
    }
  }

  lemma DecisionAlike(c: Crypto, d: Crypto, gateway: Identity, keyId: string, decision: Decision)
    requires Alike(c, d)
    ensures DecisionPayload(c, gateway, keyId, decision) == DecisionPayload(d, gateway, keyId, decision)
  {
    var Decision(tee, action, parameters, at) := decision;
    BodyAlike(c, d, keyId, tee, action, parameters, at);
    PayloadAlike(c, d, gateway, RECEIPT_ACTION, Get(tee, DelegationId),
                 Some(Dict(NewBody(c, keyId, tee, action, parameters, at))), at);
  }

  lemma ReceiptAlike(c: Crypto, d: Crypto, gateway: Identity, keyId: string, tee: Doc, action: string,
                     parameters: Value, at: Time)
    requires Alike(c, d)
    ensures BuildReceipt(c, gateway, keyId, tee, action, parameters, at)
         == BuildReceipt(d, gateway, keyId, tee, action, parameters, at)
  {
    BodyAlike(c, d, keyId, tee, action, parameters, at);
    SignedAlike(c, d, gateway, RECEIPT_ACTION, Get(tee, DelegationId),
                Some(Dict(NewBody(c, keyId, tee, action, parameters, at))), at);
  }

  lemma SignedAlike(c: Crypto, d: Crypto, who: Identity, action: string, nonce: Value, data: Option<Value>, now: Time)
    requires Alike(c, d)
    ensures SignAction(c, who, action, nonce, data, now) == SignAction(d, who, action, nonce, data, now)
  {
    PayloadAlike(c, d, who, action, nonce, data, now);
  }

  lemma NewPayloadIs(c: Crypto, who: Identity, action: string, nonce: Value, data: Option<Value>, now: Time, f: Field)
    requires f in PAYLOAD && (f == DataHash ==> data.Some?)
    ensures IsField(Get(NewPayload(c, who, action, nonce, data, now), f), c, who, action, nonce, data, now, f)
  {
    NewPayloadAt(c, who, action, nonce, data, now, f);
    PayloadFieldIs(c, who, action, nonce, data, now, f);
  }

  // ---------------------------------------------------------------- an authorization

  function TeeEntry(f: Field, to: string, expires: Time): Value {
    match f
    case Status => Text(ROUTED)
    case CredentialEnforced => Bool(true)
    case RoutedTo => Text(to)
    case AuthorizationExpiresAt => Text(C.PrintInt(expires))
    case _ => Text("x")
  }

  const TEE: set<Field> :=
    {Status, DelegationId, RoutedTo, CredentialFingerprint, CredentialEnforced, BuildConfigId, AuthorizationExpiresAt}

  /** An authorization that is good until an instant. */
  function SimpleTee(to: string, expires: Time): Doc {
    map f | f in TEE :: TeeEntry(f, to, expires)
  }

  lemma SimpleTeeAt(to: string, expires: Time, f: Field)
    requires f in TEE
    ensures Get(SimpleTee(to, expires), f) == TeeEntry(f, to, expires)
  {
  }

  lemma SimpleTeeIsEnforced(made: Doc -> bool, tee: Doc, to: string, expires: Time)
    requires tee == SimpleTee(to, expires) && to != ""
    ensures Enforced(World(made), tee, "x", expires) && Get(tee, RoutedTo) == Text(to)
  {
    SimpleTeeAt(to, expires, Status);
    SimpleTeeAt(to, expires, DelegationId);
    SimpleTeeAt(to, expires, RoutedTo);
    SimpleTeeAt(to, expires, CredentialFingerprint);
    SimpleTeeAt(to, expires, CredentialEnforced);
    SimpleTeeAt(to, expires, BuildConfigId);
    SimpleTeeAt(to, expires, AuthorizationExpiresAt);
    J.TextStarts(C.Int(expires));
  }

  // ---------------------------------------------------------------- a delegation

  function Party(name: string): Identity {
    Identity(name, name, "", m => "s")
  }

  ghost function Blank(): Crypto {
    World(payload => false)
  }

  /** A task that is authorized and delegated at an instant, for that instant. */
  ghost function SimpleSetup(now: Time): Setup {
    var tee := SimpleTee("w", now);
    var built := BuildReceipt(Blank(), Party("g"), "x", tee, "x", Null, now);
    Setup(Party("b"), Party("g"), Party("w"), "x", "x", tee,
          Task("w", "x", "", Null, Null, [], if built.Ok? then Dict(built.value) else Null), now, now, now, "", "")
  }

  /** The payloads of one delegation: the receipt's, the request's and the result's. */
  ghost function PayloadsOf(x: Setup, issue: Issue): Doc -> bool {
    payload => payload == DecisionPayload(Blank(), x.gateway, x.keyId, DecisionOf(x))
            || payload == RequestPayload(Blank(), x) || payload == IssuePayload(Blank(), x.worker, issue)
  }

  lemma PayloadsAreMade(x: Setup, issue: Issue)
    ensures var made := PayloadsOf(x, issue); var c := World(made);
            && made(DecisionPayload(c, x.gateway, x.keyId, DecisionOf(x))) && made(RequestPayload(c, x))
            && made(IssuePayload(c, x.worker, issue))
  {
    var c, d := World(PayloadsOf(x, issue)), Blank();
    WorldsAreAlike(PayloadsOf(x, issue), payload => false);
    DecisionAlike(c, d, x.gateway, x.keyId, DecisionOf(x));
    PayloadAlike(c, d, x.boss, DELEGATE_TASK, Get(DataOfTask(x), Nonce), Some(Dict(DataOfTask(x))), x.delegated);
    PayloadAlike(c, d, x.worker, TASK_RESULT, Get(issue.result, Nonce), Some(Dict(issue.result)), issue.at);
  }

  lemma SimpleIsPrepared(made: Doc -> bool, now: Time)
    requires 0 < now
    ensures Prepared(World(made), SimpleSetup(now)) && Enforced(World(made), SimpleSetup(now).tee, "x", now)
    ensures Get(SimpleSetup(now).tee, RoutedTo) == Text("w")
  {
    var tee := SimpleTee("w", now);
    WorldsAreAlike(made, payload => false);
    SimpleTeeIsEnforced(made, tee, "w", now);
    EnforcedIsBuilt(World(made), Party("g"), "x", tee, "x", Null, now, "x", now);
    ReceiptAlike(World(made), Blank(), Party("g"), "x", tee, "x", Null, now);
  }

  /** What each of the three payloads says it is for. */
  lemma ActionsOf(x: Setup, issue: Issue, payload: Doc)
    requires PayloadsOf(x, issue)(payload)
    ensures Get(payload, Action) == Text(RECEIPT_ACTION) ==>
              payload == DecisionPayload(Blank(), x.gateway, x.keyId, DecisionOf(x))
    ensures Get(payload, Action) == Text(TASK_RESULT) ==> payload == IssuePayload(Blank(), x.worker, issue)
  {
    var d := Blank();
    var Decision(tee, action, parameters, at) := DecisionOf(x);
    NewPayloadIs(d, x.gateway, RECEIPT_ACTION, Get(tee, DelegationId),
                 Some(Dict(NewBody(d, x.keyId, tee, action, parameters, at))), at, Action);
    NewPayloadIs(d, x.boss, DELEGATE_TASK, Get(DataOfTask(x), Nonce), Some(Dict(DataOfTask(x))), x.delegated, Action);
    NewPayloadIs(d, x.worker, TASK_RESULT, Get(issue.result, Nonce), Some(Dict(issue.result)), issue.at, Action);
  }

  /** The gateway signs only for its decision, and the worker only its result. */
  lemma PayloadsAreAccountedFor(x: Setup, issue: Issue)
    requires x.gateway.agentId == x.gateway.publicKey && x.worker.agentId == x.worker.publicKey
    ensures var c := World(PayloadsOf(x, issue));
            && SignsDecisions(c, x.gateway, x.keyId, d => d == DecisionOf(x))
            && SignsResults(c, x.worker, i => i == issue)
  {
    var made, decided, issued := PayloadsOf(x, issue), (d: Decision) => d == DecisionOf(x), (i: Issue) => i == issue;
    var c := World(made);
    PayloadsAreMade(x, issue);
    WorldsAreAlike(made, payload => false);
    DecisionAlike(c, Blank(), x.gateway, x.keyId, DecisionOf(x));
    PayloadAlike(c, Blank(), x.worker, TASK_RESULT, Get(issue.result, Nonce), Some(Dict(issue.result)), issue.at);
    forall p: Doc | made(p)
      ensures FromDecision(c, x.gateway, x.keyId, decided, p) && FromIssue(c, x.worker, issued, p)
    {
      ActionsOf(x, issue, p);
      assert decided(DecisionOf(x)) && issued(issue);
    }
    WorldIsGenuine(made, x.gateway, (payload: Doc) => FromDecision(c, x.gateway, x.keyId, decided, payload));
    WorldIsGenuine(made, x.worker, (payload: Doc) => FromIssue(c, x.worker, issued, payload));
  }

  /** At every instant there are honest parties for a delegation made then, under a digest without collisions:
      all that is assumed anywhere of keys, signatures and digests, in one world. */
  lemma HonestIsPossible(now: Time, value: Value, nonce: string, at: Time)
    returns (c: Crypto, made: Doc -> bool, x: Setup, decided: Decision -> bool, issued: Issue -> bool)
    requires 0 < now
    ensures Honest(c, made, x) && Authorized(x, now) && x.authorized == x.delegated == x.expires == now
    ensures InjectiveDigest(c)
    ensures SignsOnly(c, x.boss.publicKey, made) && SignsOnly(c, x.worker.publicKey, made)
    ensures SignsDecisions(c, x.gateway, x.keyId, decided) && decided(DecisionOf(x))
    ensures SignsResults(c, x.worker, issued) && NoncesFresh(issued) && issued(IssueOf(x, value, nonce, at))
    ensures made(IssuePayload(c, x.worker, IssueOf(x, value, nonce, at)))
  {
    x := SimpleSetup(now);
    var issue := IssueOf(x, value, nonce, at);
    made, decided, issued := PayloadsOf(x, issue), d => d == DecisionOf(x), i => i == issue;
    c := World(made);
    WorldIsSound(made);
    WorldIsGenuine(made, x.boss, made);
    WorldIsGenuine(made, x.gateway, made);
    WorldIsGenuine(made, x.worker, made);
    PayloadsAreMade(x, issue);
    PayloadsAreAccountedFor(x, issue);
    SimpleIsPrepared(made, now);
  }

  // ---------------------------------------------------------------- a MAC

  function OptionTree(o: Option<string>): Value {
    match o
    case None => Null
    case Some(text) => Text(text)
  }

  function StateCode(s: L.State): int {
    match s
    case Running => 0
    case Completed => 1
    case RetryableFailure => 2
    case FinalFailure => 3
    case Consumed => 4
  }

  function RecordTree(secret: string, key: string, b: L.Body): Value {
    List([Text(secret), Text(key), Bool(b.kind == L.Request), Num(StateCode(b.state)), Num(b.attempts),
          Num(b.maxAttempts), Num(b.firstSeenAt), Num(b.updatedAt), Num(b.expiresAt), Text(b.owner),
          Text(b.delegationId), Text(b.fingerprint), OptionTree(b.lastError), OptionTree(b.token)])
  }

  lemma RecordTreeInjective(s: string, k: string, b: L.Body, s': string, k': string, b': L.Body)
    requires RecordTree(s, k, b) == RecordTree(s', k', b')
    ensures s == s' && k == k' && b == b'
  {
    var xs, ys := RecordTree(s, k, b).vs, RecordTree(s', k', b').vs;
    assert forall i :: 0 <= i < 14 ==> xs[i] == ys[i];
    assert xs[0] == ys[0] && xs[1] == ys[1] && xs[2] == ys[2] && xs[3] == ys[3] && xs[4] == ys[4];
    assert xs[5] == ys[5] && xs[6] == ys[6] && xs[7] == ys[7] && xs[8] == ys[8] && xs[9] == ys[9];
    assert xs[10] == ys[10] && xs[11] == ys[11] && xs[12] == ys[12] && xs[13] == ys[13];
  }

  /** No two records need share a MAC. */
  lemma SealIsPossible() returns (hmac: L.Hmac)
    ensures G.NonEmpty(hmac) && G.Injective(hmac)
  {
    hmac := (s, k, b) => Digest(RecordTree(s, k, b));
    forall s: string, k: L.Key, b: L.Body ensures hmac(s, k, b) != "" {
      J.TextStarts(Tree(RecordTree(s, k, b)));
    }
    forall s: string, k: L.Key, b: L.Body, s': string, k': L.Key, b': L.Body | hmac(s, k, b) == hmac(s', k', b')
      ensures s == s' && k == k' && b == b'
    {
      DigestInjective(RecordTree(s, k, b), RecordTree(s', k', b'));
      RecordTreeInjective(s, k, b, s', k', b');
    }
  }
}
