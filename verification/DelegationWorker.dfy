/**
 The worker's side of a delegation (src/agent_delegation_network.py): validate, ask the policy, begin in
 the ledger, run the handler, finalize, reply. Other parties' transactions may come between the phases,
 so each phase is a method of its own and says nothing about the ledger in between.
 */
module DelegationWorker {
  import opened Clock
  import opened Wrappers
  import opened Messages
  import opened Receipts
  import opened DelegationRequests
  import L = ReplayLedger
  import P = LedgerProtocol

  const TASK_RESULT: string := "TASK_RESULT"
  const COMPLETED: string := "COMPLETED"
  const FAILED: string := "FAILED"

  // ---------------------------------------------------------------- policy

  /** Allowed actions and trusted targets of each agent; an agent without an entry has none. */
  datatype Policy = Policy(rules: map<string, set<string>>, trust: map<string, set<string>>)

  function Entry(m: map<string, set<string>>, agent: string): set<string> {
    if agent in m then m[agent] else {}
  }

  predicate CanDelegate(p: Policy, from: string, to: string, action: string) {
    && Entry(p.rules, from) != {} && action in Entry(p.rules, from)
    && Entry(p.trust, from) != {} && to in Entry(p.trust, from)
  }

  predicate CanPerform(p: Policy, agent: string, action: string) {
    Entry(p.rules, agent) != {} && action in Entry(p.rules, agent)
  }

  /** Agents and actions that are not text have no entry. */
  predicate Allowed(p: Policy, from: Value, to: string, action: Value) {
    && from.Text? && action.Text?
    && CanDelegate(p, from.s, to, action.s) && CanPerform(p, to, action.s)
  }

  /** Field by field of the two maps: the sender may have the action done, trusts the target with it, and the
      target may do it. */
  lemma AllowedExactly(p: Policy, from: Value, to: string, action: Value)
    ensures Allowed(p, from, to, action)
       <==> exists sender: string, deed: string ::
              && from == Text(sender) && action == Text(deed)
              && sender in p.rules && deed in p.rules[sender] && sender in p.trust && to in p.trust[sender]
              && to in p.rules && deed in p.rules[to]
  {
  }

  // ---------------------------------------------------------------- results

  /** A handler returns a value or raises. */
  type Handler = Value -> Result<Value, string>

  const RESULT: set<Field> :=
    {DelegationId, FromAgentId, ToAgentId, Status, ResultField, ErrorField, Nonce, IssuedAt, TeeAuthorization}

  function ResultEntry(r: Request, performer: string, status: string, result: Value, error: Value, nonce: string,
                       now: Time, f: Field): Value
  {
    match f
    case DelegationId => r.delegationId
    case FromAgentId => Text(performer)
    case ToAgentId => r.fromAgentId
    case Status => Text(status)
    case ResultField => result
    case ErrorField => error
    case Nonce => Text(nonce)
    case IssuedAt => Num(now)
    case TeeAuthorization => r.tee
    case _ => Null
  }

  /** The result for a request's sender; it carries the request's receipt when there is one. */
  function NewResult(r: Request, performer: string, status: string, result: Value, error: Value, nonce: string,
                     now: Time): Doc
  {
    map f | f in RESULT && (f == TeeAuthorization ==> r.tee != Null) ::
      ResultEntry(r, performer, status, result, error, nonce, now, f)
  }

  /** What a result says, field by field. */
  ghost predicate Tells(rd: Doc, r: Request, performer: string, status: string, result: Value, error: Value,
                        nonce: string, now: Time)
  {
    && TellsWho(rd, r, performer, nonce, now)
    && Get(rd, Status) == Text(status) && Get(rd, ResultField) == result && Get(rd, ErrorField) == error
  }

  ghost predicate TellsWho(rd: Doc, r: Request, performer: string, nonce: string, now: Time) {
    && Get(rd, DelegationId) == r.delegationId && Get(rd, FromAgentId) == Text(performer)
    && Get(rd, ToAgentId) == r.fromAgentId && Get(rd, TeeAuthorization) == r.tee
    && Get(rd, Nonce) == Text(nonce) && Get(rd, IssuedAt) == Num(now)
  }

  lemma ResultEntryAt(r: Request, performer: string, status: string, result: Value, error: Value, nonce: string,
                      now: Time, f: Field)
    requires f in RESULT
    ensures Get(NewResult(r, performer, status, result, error, nonce, now), f)
         == ResultEntry(r, performer, status, result, error, nonce, now, f)
    ensures f in NewResult(r, performer, status, result, error, nonce, now) <==> f != TeeAuthorization || r.tee != Null
  {
  }

  ghost predicate Spelled(rd: Doc, r: Request, performer: string, status: string, result: Value, error: Value,
                          nonce: string, now: Time)
  {
    forall f: Field {:trigger Get(rd, f)} :: f in RESULT ==>
      Get(rd, f) == ResultEntry(r, performer, status, result, error, nonce, now, f)
  }

  lemma SpelledTellsWho(rd: Doc, r: Request, performer: string, status: string, result: Value, error: Value,
                        nonce: string, now: Time)
    requires Spelled(rd, r, performer, status, result, error, nonce, now)
    ensures TellsWho(rd, r, performer, nonce, now)
  {
  }

  lemma SpelledTells(rd: Doc, r: Request, performer: string, status: string, result: Value, error: Value,
                     nonce: string, now: Time)
    requires Spelled(rd, r, performer, status, result, error, nonce, now)
    ensures Tells(rd, r, performer, status, result, error, nonce, now)
  {
    SpelledTellsWho(rd, r, performer, status, result, error, nonce, now);
  }

  lemma NewResultTells(r: Request, performer: string, status: string, result: Value, error: Value, nonce: string,
                       now: Time)
    ensures Tells(NewResult(r, performer, status, result, error, nonce, now), r, performer, status, result, error,
                  nonce, now)
  {
    var rd := NewResult(r, performer, status, result, error, nonce, now);
    forall f: Field | f in RESULT
      ensures Get(rd, f) == ResultEntry(r, performer, status, result, error, nonce, now, f)
    {
      ResultEntryAt(r, performer, status, result, error, nonce, now, f);
    }
    SpelledTells(rd, r, performer, status, result, error, nonce, now);
  }

  function SignResult(c: Crypto, who: Identity, result: Doc, now: Time): Doc {
    SignAction(c, who, TASK_RESULT, Get(result, Nonce), Some(Dict(result)), now)[ResultData := Dict(result)]
  }

  // ---------------------------------------------------------------- admission

  /** One worker process, as far as it decides on requests. */
  datatype Site = Site(agentId: string, gate: Gate, policy: Policy, actions: set<string>, secret: L.Secret)

  /** The policy allows the request and there is a handler for it. */
  predicate Ready(site: Site, r: Request) {
    Allowed(site.policy, r.fromAgentId, site.agentId, r.action) && r.action.s in site.actions
  }

  /** The request and its replay key, when the message is valid and the worker is ready for it. */
  function Screened(c: Crypto, site: Site, signed: Doc, now: Time): Option<(Request, string)> {
    var valid := Validate(c, signed, site.agentId, site.gate, now);
    var request := RequestFrom(signed, now);
    if valid.Ok? && request.Some? && Ready(site, request.value) then Some((request.value, valid.value)) else None
  }

  /** A message gets as far as the ledger if and only if it is valid, allowed by the policy and for an action that has
      a handler. */
  lemma ScreenedExactly(c: Crypto, site: Site, signed: Doc, now: Time, r: Request, key: string)
    ensures Screened(c, site, signed, now) == Some((r, key))
       <==> && Validate(c, signed, site.agentId, site.gate, now) == Ok(key) && RequestFrom(signed, now) == Some(r)
            && Allowed(site.policy, r.fromAgentId, site.agentId, r.action)
            && exists action: string :: r.action == Text(action) && action in site.actions
  {
  }

  function MetaOf(c: Crypto, agentId: string, r: Request): L.Meta {
    L.Meta(agentId, if r.delegationId.Text? then r.delegationId.s else "", Fingerprint(c, ReceiptOf(r)))
  }

  /** The begin a screened request makes. */
  function BeginEvent(c: Crypto, site: Site, r: Request, key: string, now: Time, token: L.Token): P.Event {
    P.Begin(key, site.secret, now, ReplayExpiry(c, r, now), MetaOf(c, site.agentId, r), token)
  }

  /** The begin names the request: its key, its own expiry or its receipt's, the worker, the delegation and the
      receipt. */
  lemma BeginNames(c: Crypto, site: Site, r: Request, key: string, now: Time, token: L.Token)
    ensures var e := BeginEvent(c, site, r, key, now, token);
            && e.key == key && e.secret == site.secret && e.now == now && e.issued == token
            && KeptUntil(c, if r.expiresAt == 0 then now else r.expiresAt, ReceiptIn(r.tee), e.expiry)
            && e.meta.owner == site.agentId && e.meta.fingerprint == Fingerprint(c, ReceiptIn(r.tee))
            && (r.delegationId.Text? ==> r.delegationId == Text(e.meta.delegationId))
  {
    RetentionExactly(c, if r.expiresAt != 0 then r.expiresAt else now, ReceiptOf(r));
  }

  /** How the ledger answers a begin. */
  function OutcomeOf(hmac: L.Hmac, t: L.Table, begin: P.Event): L.BeginOutcome
    requires begin.Begin?
  {
    L.BeginStep(hmac, t, begin.key, begin.expiry, begin.meta, begin.secret, begin.now, begin.issued).1
  }

  // ---------------------------------------------------------------- the worker as it runs

  /** One begun execution, held until it is finalized. */
  datatype Job = Job(request: Request, key: string, token: L.Token)

  datatype Admission = Replied(reply: Doc) | Started(job: Job, handler: Handler)

  const UNKNOWN: Request := Request(Text("error"), Text("unknown"), Text(""), Text(""), Null, 0, Null)

  class Worker {
    const crypto: Crypto
    const identity: Identity
    const gate: Gate
    const ledger: L.Ledger
    const secret: L.Secret
    var policy: Policy
    var handlers: map<string, Handler>
    var delegations: map<Value, Request>
    var results: map<Value, Doc>
    /** Executions begun and not yet finalized. */
    ghost var open: set<Job>

    constructor (crypto: Crypto, identity: Identity, gate: Gate, ledger: L.Ledger, secret: L.Secret, policy: Policy,
                 handlers: map<string, Handler>)
      ensures open == {}
      ensures this.crypto == crypto && this.identity == identity && this.gate == gate && this.ledger == ledger
      ensures this.secret == secret && this.policy == policy && this.handlers == handlers
    {
      this.crypto, this.identity, this.gate, this.ledger, this.secret := crypto, identity, gate, ledger, secret;
      this.policy, this.handlers := policy, handlers;
      delegations, results := map[], map[];
      open := {};
    }

    method Reply(r: Request, status: string, result: Value, error: Value, nonce: string, now: Time)
      returns (reply: Doc)
      ensures reply == SignResult(crypto, identity,
                                  NewResult(r, identity.agentId, status, result, error, nonce, now), now)
    {
      reply := SignResult(crypto, identity, NewResult(r, identity.agentId, status, result, error, nonce, now), now);
    }

    /** The reply is a signed failure for this request, with this error. */
    ghost predicate DeclinesFor(reply: Doc, r: Request, error: string, nonce: string, now: Time) {
      exists rd: Doc ::
        && reply == SignResult(crypto, identity, rd, now)
        && Tells(rd, r, identity.agentId, "FAILED", Null, Text(error), nonce, now)
    }

    /** ... with some error. */
    ghost predicate Declines(reply: Doc, r: Request, nonce: string, now: Time) {
      exists error: string :: DeclinesFor(reply, r, error, nonce, now)
    }

    method Failure(r: Request, error: string, nonce: string, now: Time) returns (reply: Doc)
      ensures DeclinesFor(reply, r, error, nonce, now)
    {
      reply := Reply(r, FAILED, Null, Text(error), nonce, now);
      NewResultTells(r, identity.agentId, FAILED, Null, Text(error), nonce, now);
    }

    /** The reply to a message that could not be processed: a failure that names no delegation or sender. */
    method ErrorReply(error: string, nonce: string, now: Time) returns (reply: Doc)
      ensures Declines(reply, UNKNOWN, nonce, now)
    {
      reply := Failure(UNKNOWN, error, nonce, now);
    }

    function Here(): Site
      reads this`policy, this`handlers
    {
      Site(identity.agentId, gate, policy, handlers.Keys, secret)
    }

    /** The request and the key of a message that is valid. */
    function Valid(signed: Doc, now: Time): Option<(Request, string)> {
      var valid := Validate(crypto, signed, identity.agentId, gate, now);
      var request := RequestFrom(signed, now);
      if valid.Ok? && request.Some? then Some((request.value, valid.value)) else None
    }

    /** How a message that is not let through is answered: with a failure, which names the request unless the
        message is not valid. */
    ghost predicate Turned(signed: Doc, now: Time, nonce: string, reply: Doc) {
      match Valid(signed, now)
      case None => Declines(reply, UNKNOWN, nonce, now)
      case Some((r, _)) => Declines(reply, r, nonce, now)
    }

    /** The checks before the ledger, in the order they are made; a failed one makes the reply. */
    method Screen(signed: Doc, now: Time, nonce: string) returns (screened: Option<(Request, string)>, reply: Doc)
      ensures screened == Screened(crypto, Here(), signed, now)
      ensures screened.None? ==> Turned(signed, now, nonce, reply)
    {
      var valid, refusal := CheckMessage(signed, now, nonce);
      if valid.None? {
        return None, refusal;
      }
      var r := valid.value.0;
      if !Allowed(policy, r.fromAgentId, identity.agentId, r.action) {
        reply := Failure(r, "Not allowed by policy", nonce, now);
        return None, reply;
      }
      if r.action.s !in handlers {
        reply := Failure(r, "No handler available for action: " + r.action.s, nonce, now);
        return None, reply;
      }
      return valid, refusal;
    }

    method CheckMessage(signed: Doc, now: Time, nonce: string) returns (valid: Option<(Request, string)>, reply: Doc)
      ensures valid == Valid(signed, now) && (valid.None? ==> Declines(reply, UNKNOWN, nonce, now))
    {
      reply := map[];
      var parsed := RequestFrom(signed, now);
      if parsed.None? {
        reply := ErrorReply("malformed request", nonce, now);
        return None, reply;
      }
      var r := parsed.value;
      if now > r.expiresAt {
        ExpiredIsInvalid(signed, now);
        reply := ErrorReply("Delegation request has expired", nonce, now);
        return None, reply;
      }
      if r.toAgentId != Text(identity.agentId) {
        MisaddressedIsInvalid(signed, now);
        reply := ErrorReply("Delegation request not for this agent", nonce, now);
        return None, reply;
      }
      var key := Validate(crypto, signed, identity.agentId, gate, now);
      if key.Err? {
        reply := ErrorReply("Invalid delegation request", nonce, now);
        return None, reply;
      }
      return Some((r, key.value)), reply;
    }

    lemma ExpiredIsInvalid(signed: Doc, now: Time)
      requires RequestFrom(signed, now).Some? && now > RequestFrom(signed, now).value.expiresAt
      ensures Validate(crypto, signed, identity.agentId, gate, now).Err?
    {
    }

    lemma MisaddressedIsInvalid(signed: Doc, now: Time)
      requires RequestFrom(signed, now).Some?
      requires RequestFrom(signed, now).value.toAgentId != Text(identity.agentId)
      ensures Validate(crypto, signed, identity.agentId, gate, now).Err?
    {
    }

    /** A job starts exactly when the message passes the screening and the ledger grants it; the ledger
        changes by that one begin, and only after the screening. Otherwise there is a failed reply, which
        names the request unless the message is not valid or the row for it fails its MAC. */
    ghost predicate Admits(here: Site, known: map<string, Handler>, signed: Doc, now: Time, token: L.Token,
                           nonce: string, before: L.Table, after: L.Table, admission: Admission)
    {
      var screened := Screened(crypto, here, signed, now);
      if screened.None? then admission.Replied? && after == before && Turned(signed, now, nonce, admission.reply)
      else Opens(here, known, screened.value.0, screened.value.1, now, token, nonce, before, after, admission)
    }

    ghost predicate Opens(here: Site, known: map<string, Handler>, r: Request, key: string, now: Time, token: L.Token,
                          nonce: string, before: L.Table, after: L.Table, admission: Admission)
    {
      var begin := BeginEvent(crypto, here, r, key, now, token);
      && after == P.TableAfter(ledger.hmac, before, begin)
      && Concludes(known, OutcomeOf(ledger.hmac, before, begin), Job(r, key, token), nonce, now, admission)
    }

    ghost predicate Concludes(known: map<string, Handler>, outcome: L.BeginOutcome, job: Job, nonce: string, now: Time,
                              admission: Admission)
    {
      if outcome.Granted? then
        && admission.Started? && admission.job == job && job.request.action.Text?
        && job.request.action.s in known && admission.handler == known[job.request.action.s]
      else
        && admission.Replied?
        && if outcome == L.BeginIntegrityError then Declines(admission.reply, UNKNOWN, nonce, now)
           else exists reason: string ::
             IsReason(outcome, reason) && DeclinesFor(admission.reply, job.request, reason, nonce, now)
    }

    /** What the sender is told when the ledger does not grant. */
    predicate IsReason(outcome: L.BeginOutcome, reason: string) {
      && (outcome == L.ReplayDetected ==> reason == "Delegation request replay detected")
      && (outcome == L.AlreadyRunning ==> reason == "Delegation request already running")
      && (outcome == L.ReachedFinalFailure ==> reason == "Delegation request reached final failure")
      && (outcome == L.RetryLimitExceeded ==> reason == "Delegation request retry limit exceeded")
      && (outcome == L.KeyMissing ==> reason == "Delegation request replay key missing")
    }

    /** A started job is open, and its request is kept under its delegation id. */
    predicate Noted(known: map<Value, Request>, known': map<Value, Request>, jobs: set<Job>, jobs': set<Job>,
                    admission: Admission)
    {
      match admission
      case Replied(_) => known' == known && jobs' == jobs
      case Started(job, _) => known' == known[job.request.delegationId := job.request] && jobs' == jobs + {job}
    }

    /** Everything up to the ledger's grant. */
    method Admit(signed: Doc, now: Time, token: L.Token, nonce: string) returns (admission: Admission)
      modifies this`delegations, this`open, ledger`entries
      ensures Admits(Here(), handlers, signed, now, token, nonce, old(ledger.entries), ledger.entries, admission)
      ensures Noted(old(delegations), delegations, old(open), open, admission)
    {
      admission := ScreenAndBegin(signed, now, token, nonce);
      Note(admission);
    }

    method Note(admission: Admission)
      modifies this`delegations, this`open
      ensures Noted(old(delegations), delegations, old(open), open, admission)
    {
      if admission.Started? {
        open := open + {admission.job};
        delegations := delegations[admission.job.request.delegationId := admission.job.request];
      }
    }

    method ScreenAndBegin(signed: Doc, now: Time, token: L.Token, nonce: string) returns (admission: Admission)
      modifies ledger`entries
      ensures Admits(Here(), handlers, signed, now, token, nonce, old(ledger.entries), ledger.entries, admission)
    {
      var screened, refusal := Screen(signed, now, nonce);
      if screened.None? {
        return Replied(refusal);
      }
      admission := BeginScreened(screened.value.0, screened.value.1, now, token, nonce);
    }

    method BeginScreened(r: Request, key: string, now: Time, token: L.Token, nonce: string)
      returns (admission: Admission)
      requires r.action.Text? && r.action.s in handlers
      modifies ledger`entries
      ensures Opens(Here(), handlers, r, key, now, token, nonce, old(ledger.entries), ledger.entries, admission)
    {
      var meta := MetaOf(crypto, identity.agentId, r);
      var outcome := ledger.Begin(key, ReplayExpiry(crypto, r, now), meta, secret, now, token);
      admission := Conclude(outcome, Job(r, key, token), nonce, now);
    }

    method Conclude(outcome: L.BeginOutcome, job: Job, nonce: string, now: Time) returns (admission: Admission)
      requires job.request.action.Text? && job.request.action.s in handlers
      ensures Concludes(handlers, outcome, job, nonce, now, admission)
    {
      if outcome.Granted? {
        return Started(job, handlers[job.request.action.s]);
      }
      if outcome == L.BeginIntegrityError {
        var error := ErrorReply("Replay ledger integrity check failed", nonce, now);
        return Replied(error);
      }
      var reply := Failure(job.request, ReasonOf(outcome), nonce, now);
      assert IsReason(outcome, ReasonOf(outcome));
      return Replied(reply);
    }

    function ReasonOf(outcome: L.BeginOutcome): string {
      match outcome
      case KeyMissing => "Delegation request replay key missing"
      case ReplayDetected => "Delegation request replay detected"
      case ReachedFinalFailure => "Delegation request reached final failure"
      case AlreadyRunning => "Delegation request already running"
      case RetryLimitExceeded => "Delegation request retry limit exceeded"
      case _ => ""
    }

    /** A handler that returned is reported as COMPLETED with its value and no error, one that raised as FAILED with
        its error and no value. */
    ghost predicate TellsOutcome(rd: Doc, r: Request, outcome: Result<Value, string>, nonce: string, now: Time) {
      match outcome
      case Ok(value) => Tells(rd, r, identity.agentId, "COMPLETED", value, Null, nonce, now)
      case Err(message) => Tells(rd, r, identity.agentId, "FAILED", Null, Text(message), nonce, now)
    }

    /** The finalize that goes with it: a success, or a failure that may be retried, with the error. */
    function FinalizeOf(job: Job, outcome: Result<Value, string>, now: Time): P.Event {
      P.Finalize(job.key, secret, now, Some(job.token), if outcome.Ok? then L.Completed else L.RetryableFailure,
                 if outcome.Ok? then None else Some(outcome.error))
    }

    /** What running an open job does: one finalize with the job's own token; the result stored and signed for the
        reply. The boolean a finalize returns is ignored; only a row that fails its MAC turns the reply into an error
        and keeps the result from being stored. */
    ghost predicate Executes(job: Job, handler: Handler, now: Time, nonce: string, before: L.Table, after: L.Table,
                             stored: map<Value, Doc>, storedAfter: map<Value, Doc>, reply: Doc)
    {
      var rd := Outcome(job, handler, nonce, now);
      && after == P.TableAfter(ledger.hmac, before, FinalizeOf(job, handler(job.request.parameters), now))
      && TellsOutcome(rd, job.request, handler(job.request.parameters), nonce, now)
      && if Unverifiable(job, before) then storedAfter == stored && Declines(reply, UNKNOWN, nonce, now)
         else
           storedAfter == stored[job.request.delegationId := rd] && reply == SignResult(crypto, identity, rd, now)
    }

    /** Runs the handler of an open job and finalizes it. The job is used up, so no token finalizes twice. */
    method Execute(job: Job, handler: Handler, now: Time, nonce: string) returns (reply: Doc)
      requires job in open
      modifies this`open, this`results, ledger`entries
      ensures open == old(open) - {job}
      ensures Executes(job, handler, now, nonce, old(ledger.entries), ledger.entries, old(results), results, reply)
    {
      reply := RunAndReport(job, handler, now, nonce);
      open := open - {job};
    }

    method RunAndReport(job: Job, handler: Handler, now: Time, nonce: string) returns (reply: Doc)
      modifies this`results, ledger`entries
      ensures Executes(job, handler, now, nonce, old(ledger.entries), ledger.entries, old(results), results, reply)
    {
      var finalized := FinalizeJob(job, handler, now);
      OutcomeTells(job, handler, nonce, now);
      if finalized {
        var result := Outcome(job, handler, nonce, now);
        results := results[job.request.delegationId := result];
        reply := SignResult(crypto, identity, result, now);
      } else {
        reply := ErrorReply("Replay ledger integrity check failed", nonce, now);
      }
    }

    /** A finalize that raises, also after the handler returned, is followed by one for a failure. */
    method FinalizeJob(job: Job, handler: Handler, now: Time) returns (finalized: bool)
      modifies ledger`entries
      ensures ledger.entries
           == P.TableAfter(ledger.hmac, old(ledger.entries), FinalizeOf(job, handler(job.request.parameters), now))
      ensures finalized <==> !Unverifiable(job, old(ledger.entries))
    {
      var returned := handler(job.request.parameters);
      var error := "Replay ledger integrity check failed";
      if returned.Ok? {
        var completed := ledger.Finalize(job.key, L.Completed, None, secret, now, Some(job.token));
        if completed != L.IntegrityError {
          return true;
        }
      } else {
        error := returned.error;
      }
      var failed := ledger.Finalize(job.key, L.RetryableFailure, Some(error), secret, now, Some(job.token));
      return failed != L.IntegrityError;
    }

    /** What the handler's outcome is reported as. */
    function Outcome(job: Job, handler: Handler, nonce: string, now: Time): Doc {
      match handler(job.request.parameters)
      case Ok(value) => NewResult(job.request, identity.agentId, COMPLETED, value, Null, nonce, now)
      case Err(message) => NewResult(job.request, identity.agentId, FAILED, Null, Text(message), nonce, now)
    }

    lemma OutcomeTells(job: Job, handler: Handler, nonce: string, now: Time)
      ensures TellsOutcome(Outcome(job, handler, nonce, now), job.request, handler(job.request.parameters), nonce, now)
    {
      match handler(job.request.parameters)
      case Ok(value) => NewResultTells(job.request, identity.agentId, COMPLETED, value, Null, nonce, now);
      case Err(message) => NewResultTells(job.request, identity.agentId, FAILED, Null, Text(message), nonce, now);
    }

    predicate Unverifiable(job: Job, t: L.Table) {
      job.key != "" && job.key in t && !L.Verified(ledger.hmac, secret, job.key, t[job.key])
    }

    /** One turn of the heartbeat thread. */
    method Beat(job: Job, now: Time)
      modifies ledger`entries
      ensures ledger.entries
           == P.TableAfter(ledger.hmac, old(ledger.entries), P.Heartbeat(job.key, secret, now, Some(job.token)))
    {
      var _ := ledger.Heartbeat(job.key, secret, now, Some(job.token));
    }
  }
}
