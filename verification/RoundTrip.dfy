/**
 A whole delegation between honest parties, from the signed request to the coordinator's acceptance of the
 result (src/agent_delegation_network.py, src/result_verifier.py). The lemmas about the phases leave open what
 happens on the ledger between them; HonestRoundTrip runs the phases one after the other.
 */
module RoundTrip {
  import opened Clock
  import opened Wrappers
  import opened Messages
  import opened Receipts
  import opened DelegationRequests
  import opened DelegationWorker
  import opened ResultVerifier
  import opened HonestPath
  import L = ReplayLedger
  import P = LedgerProtocol
  import R = ResultReplay
  import G = LedgerGuarantees
  import W = HonestWorld

  /** The instants of one delegation. */
  datatype Timing = Timing(begun: Time, finished: Time, checked: Time)

  /** The request is begun, and the result checked, within all windows. */
  predicate InTime(x: Setup, w: Timing) {
    && Authorized(x, w.begun) && w.begun <= x.delegated + Messages.PROOF_TTL_SECONDS
    && Authorized(x, w.checked) && w.checked <= w.finished + Messages.PROOF_TTL_SECONDS
  }

  function SignedRequest(c: Crypto, x: Setup): Doc {
    SignRequest(c, x.boss, DataOfTask(x), x.delegated)
  }

  function JobOf(c: Crypto, x: Setup, token: L.Token): Job {
    Job(RequestOfTask(x), DataKey(c, DataOfTask(x)), token)
  }

  function ReplyOf(c: Crypto, x: Setup, value: Value, nonce: string, at: Time): Doc {
    SignResult(c, x.worker, ResultOfTask(x, value, nonce, at), at)
  }

  /** The worker has the identity, the configuration, the policy and the handler that the job needs. */
  ghost predicate Employs(x: Setup, who: Identity, site: Site, handlers: map<string, Handler>, mode: Mode, flag: bool) {
    who == x.worker && site.actions == handlers.Keys && Serves(x, site, mode, flag)
  }

  /** Unless it has a live row for the request, a worker that is delivered it starts the job. */
  lemma HonestJobStarts(c: Crypto, made: Doc -> bool, x: Setup, worker: Worker, site: Site,
                        handlers: map<string, Handler>, mode: Mode, flag: bool, now: Time, token: L.Token,
                        nonce: string, before: L.Table, after: L.Table, admission: Admission)
    requires Honest(c, made, x) && Authorized(x, now) && now <= x.delegated + Messages.PROOF_TTL_SECONDS
    requires worker.crypto == c && site.secret == worker.secret
    requires Employs(x, worker.identity, site, handlers, mode, flag)
    requires DataKey(c, DataOfTask(x)) !in L.Purge(before, now)
    requires worker.Admits(site, handlers, SignedRequest(c, x), now, token, nonce, before, after, admission)
    ensures admission == Started(JobOf(c, x, token), handlers[x.task.action])
    ensures G.NonEmpty(worker.ledger.hmac) ==> !worker.Unverifiable(JobOf(c, x, token), after)
    ensures Untouched(DataKey(c, DataOfTask(x)), before, after)
  {
    HonestRequestIsGranted(c, worker.ledger.hmac, made, x, site, mode, flag, before, now, token);
    var begin := BeginEvent(c, site, RequestOfTask(x), DataKey(c, DataOfTask(x)), now, token);
    if G.NonEmpty(worker.ledger.hmac) {
      GrantedVerifies(worker.ledger.hmac, before, begin);
    }
    OtherKeysMakeNoRow(worker.ledger.hmac, before, begin);
  }

  /** The row that the grant leaves is authentic. */
  lemma GrantedVerifies(hmac: L.Hmac, t: L.Table, e: P.Event)
    requires G.NonEmpty(hmac) && P.IsGranted(hmac, t, e)
    ensures var t' := P.TableAfter(hmac, t, e); e.key in t' && L.Verified(hmac, e.secret, e.key, t'[e.key])
  {
  }

  /** The worker replies to a job whose handler returns with the signed result. */
  lemma HonestJobReplies(c: Crypto, x: Setup, worker: Worker, token: L.Token, handler: Handler, value: Value, now: Time,
                         nonce: string, before: L.Table, after: L.Table, stored: map<Value, Doc>,
                         storedAfter: map<Value, Doc>, reply: Doc)
    requires worker.crypto == c && worker.identity == x.worker && handler(GivenParameters(x.task)) == Ok(value)
    requires worker.Executes(JobOf(c, x, token), handler, now, nonce, before, after, stored, storedAfter, reply)
    requires !worker.Unverifiable(JobOf(c, x, token), before)
    ensures reply == ReplyOf(c, x, value, nonce, now)
  {
  }

  /** The coordinator takes the reply when its nonce is not empty and not in the window, unless the ledger has
      a live row for the result. */
  lemma HonestReplyIsAccepted(c: Crypto, hmac: L.Hmac, made: Doc -> bool, x: Setup, value: Value, nonce: string,
                              at: Time, now: Time, secret: L.Secret, t: L.Table, accepted: seq<R.Stamp>,
                              monotonic: Time)
    requires Honest(c, made, x) && Authorized(x, now) && now <= at + Messages.PROOF_TTL_SECONDS
    requires made(IssuePayload(c, x.worker, IssueOf(x, value, nonce, at)))
    requires Unseen(Text(nonce), accepted, monotonic)
    requires L.Present(secret) && ResultKey(c, WantedFor(x), ResultOfTask(x, value, nonce, at)) !in L.Purge(t, now)
    ensures var proof, w := ReplyOf(c, x, value, nonce, at), WantedFor(x);
            && Checked(c, proof, w, now) == Ok(ResultOfTask(x, value, nonce, at))
            && Arrives(c, proof, w, now, accepted, monotonic)
            && R.IsAccepted(hmac, ConsumeOf(c, proof, w, secret, now).key, t, ConsumeOf(c, proof, w, secret, now))
  {
    var rd, w := ResultOfTask(x, value, nonce, at), WantedFor(x);
    HonestResultIsChecked(c, made, x, value, nonce, at, now);
    FreshConsumeIsAccepted(c, hmac, ReplyOf(c, x, value, nonce, at), w, rd, secret, t, now);
  }

  lemma FreshConsumeIsAccepted(c: Crypto, hmac: L.Hmac, proof: Doc, w: Wanted, rd: Doc, secret: L.Secret, t: L.Table,
                               now: Time)
    requires NonEmptyDigest(c) && L.Present(secret) && ResultKey(c, w, rd) !in L.Purge(t, now)
    ensures R.IsAccepted(hmac, ResultKey(c, w, rd), t, ConsumeEvent(c, proof, w, rd, secret, now))
  {
    assert c.digest(Dict(ResultKeyDoc(c, w, rd))) != "";
  }

  /** No other key gains a live row. */
  ghost predicate Untouched(key: L.Key, before: L.Table, after: L.Table) {
    forall k: L.Key, now: Time :: k != key && k !in L.Purge(before, now) ==> k !in L.Purge(after, now)
  }

  lemma OtherKeysMakeNoRow(hmac: L.Hmac, t: L.Table, e: P.Event)
    ensures Untouched(e.key, t, P.TableAfter(hmac, t, e))
  {
    forall k: L.Key, now: Time | k != e.key && k !in L.Purge(t, now)
      ensures k !in L.Purge(P.TableAfter(hmac, t, e), now)
    {
      P.TransactionLeaves(hmac, k, t, e);
    }
  }

  /** However the worker admits this message, it starts the job. */
  ghost predicate Begins(worker: Worker, site: Site, handlers: map<string, Handler>, signed: Doc, now: Time,
                         token: L.Token, nonce: string, before: L.Table, job: Job, handler: Handler)
  {
    forall after: L.Table, admission: Admission
      {:trigger worker.Admits(site, handlers, signed, now, token, nonce, before, after, admission)} ::
      worker.Admits(site, handlers, signed, now, token, nonce, before, after, admission) ==>
        && admission == Started(job, handler) && !worker.Unverifiable(job, after) && Untouched(job.key, before, after)
  }

  /** However the worker executes this job, the reply is this one. */
  ghost predicate Answers(worker: Worker, job: Job, handler: Handler, now: Time, nonce: string, reply: Doc) {
    forall before: L.Table, after: L.Table, stored: map<Value, Doc>, storedAfter: map<Value, Doc>, r: Doc
      {:trigger worker.Executes(job, handler, now, nonce, before, after, stored, storedAfter, r)} ::
      (worker.Executes(job, handler, now, nonce, before, after, stored, storedAfter, r)
       && !worker.Unverifiable(job, before)) ==> r == reply && Untouched(job.key, before, after)
  }

  lemma HonestBegins(c: Crypto, made: Doc -> bool, x: Setup, worker: Worker, site: Site,
                     handlers: map<string, Handler>, mode: Mode, flag: bool, now: Time, token: L.Token, nonce: string,
                     before: L.Table)
    requires Honest(c, made, x) && Authorized(x, now) && now <= x.delegated + Messages.PROOF_TTL_SECONDS
    requires worker.crypto == c && site.secret == worker.secret && G.NonEmpty(worker.ledger.hmac)
    requires Employs(x, worker.identity, site, handlers, mode, flag)
    requires DataKey(c, DataOfTask(x)) !in L.Purge(before, now)
    ensures Begins(worker, site, handlers, SignedRequest(c, x), now, token, nonce, before, JobOf(c, x, token),
                   handlers[x.task.action])
  {
    forall after: L.Table, admission: Admission
      | worker.Admits(site, handlers, SignedRequest(c, x), now, token, nonce, before, after, admission)
      ensures admission == Started(JobOf(c, x, token), handlers[x.task.action])
      ensures !worker.Unverifiable(JobOf(c, x, token), after) && Untouched(DataKey(c, DataOfTask(x)), before, after)
    {
      HonestJobStarts(c, made, x, worker, site, handlers, mode, flag, now, token, nonce, before, after, admission);
    }
  }

  lemma HonestAnswers(c: Crypto, x: Setup, worker: Worker, token: L.Token, handler: Handler, value: Value, now: Time,
                      nonce: string)
    requires worker.crypto == c && worker.identity == x.worker && handler(GivenParameters(x.task)) == Ok(value)
    ensures Answers(worker, JobOf(c, x, token), handler, now, nonce, ReplyOf(c, x, value, nonce, now))
  {
    var job := JobOf(c, x, token);
    forall before: L.Table, after: L.Table, stored: map<Value, Doc>, storedAfter: map<Value, Doc>, r: Doc
      | worker.Executes(job, handler, now, nonce, before, after, stored, storedAfter, r)
        && !worker.Unverifiable(job, before)
      ensures r == ReplyOf(c, x, value, nonce, now) && Untouched(job.key, before, after)
    {
      HonestJobReplies(c, x, worker, token, handler, value, now, nonce, before, after, stored, storedAfter, r);
      OtherKeysMakeNoRow(worker.ledger.hmac, before, worker.FinalizeOf(job, handler(job.request.parameters), now));
    }
  }

  /** The worker processes a message: admission, handler, reply. */
  method Process(worker: Worker, signed: Doc, begun: Time, token: L.Token, refusal: string, finished: Time,
                 nonce: string, ghost job: Job, ghost handler: Handler, ghost answer: Doc) returns (reply: Doc)
    requires Begins(worker, worker.Here(), worker.handlers, signed, begun, token, refusal, worker.ledger.entries, job,
                    handler)
    requires Answers(worker, job, handler, finished, nonce, answer)
    modifies worker`delegations, worker`open, worker`results, worker.ledger`entries
    ensures reply == answer && Untouched(job.key, old(worker.ledger.entries), worker.ledger.entries)
  {
    var admission := worker.Admit(signed, begun, token, refusal);
    match admission
    case Replied(refused) => reply := refused;
    case Started(job, handler) => reply := worker.Execute(job, handler, finished, nonce);
  }

  /** The reply is checked and taken, unless the ledger gained a row for it. */
  ghost predicate Taken(c: Crypto, hmac: L.Hmac, proof: Doc, w: Wanted, rd: Doc, now: Time, secret: L.Secret,
                        accepted: seq<R.Stamp>, monotonic: Time)
  {
    forall t: L.Table {:trigger ConsumeIn(c, hmac, proof, w, rd, now, secret, t)} ::
      ResultKey(c, w, rd) !in L.Purge(t, now) ==>
        && ConsumeIn(c, hmac, proof, w, rd, now, secret, t) && Arrives(c, proof, w, now, accepted, monotonic)
        && Checked(c, proof, w, now) == Ok(rd)
  }

  ghost predicate ConsumeIn(c: Crypto, hmac: L.Hmac, proof: Doc, w: Wanted, rd: Doc, now: Time, secret: L.Secret,
                            t: L.Table)
  {
    R.IsAccepted(hmac, ResultKey(c, w, rd), t, ConsumeEvent(c, proof, w, rd, secret, now))
  }

  lemma HonestIsTaken(c: Crypto, hmac: L.Hmac, made: Doc -> bool, x: Setup, value: Value, nonce: string, at: Time,
                      now: Time, secret: L.Secret, accepted: seq<R.Stamp>, monotonic: Time)
    requires Honest(c, made, x) && Authorized(x, now) && now <= at + Messages.PROOF_TTL_SECONDS
    requires made(IssuePayload(c, x.worker, IssueOf(x, value, nonce, at)))
    requires Unseen(Text(nonce), accepted, monotonic) && L.Present(secret)
    ensures Taken(c, hmac, ReplyOf(c, x, value, nonce, at), WantedFor(x), ResultOfTask(x, value, nonce, at), now,
                  secret, accepted, monotonic)
  {
    forall t: L.Table | ResultKey(c, WantedFor(x), ResultOfTask(x, value, nonce, at)) !in L.Purge(t, now)
      ensures ConsumeIn(c, hmac, ReplyOf(c, x, value, nonce, at), WantedFor(x), ResultOfTask(x, value, nonce, at), now,
                        secret, t)
      ensures Arrives(c, ReplyOf(c, x, value, nonce, at), WantedFor(x), now, accepted, monotonic)
      ensures Checked(c, ReplyOf(c, x, value, nonce, at), WantedFor(x), now) == Ok(ResultOfTask(x, value, nonce, at))
    {
      HonestReplyIsAccepted(c, hmac, made, x, value, nonce, at, now, secret, t, accepted, monotonic);
    }
  }

  method Take(coordinator: Coordinator, proof: Doc, w: Wanted, now: Time, monotonic: Time, ghost rd: Doc)
    returns (r: Result<Doc, Fault>)
    requires coordinator.cache.Valid() && coordinator.cache.clock <= monotonic
    requires Taken(coordinator.crypto, coordinator.ledger.hmac, proof, w, rd, now, coordinator.secret,
                   coordinator.cache.accepted, monotonic)
    requires ResultKey(coordinator.crypto, w, rd) !in L.Purge(coordinator.ledger.entries, now)
    modifies coordinator.cache, coordinator.ledger`entries
    ensures r == Ok(rd)
  {
    assert ConsumeIn(coordinator.crypto, coordinator.ledger.hmac, proof, w, rd, now, coordinator.secret,
                     coordinator.ledger.entries);
    r := coordinator.VerifyWorkerResult(proof, w, now, monotonic);
  }

  /** The request is delivered, the worker processes it, and the coordinator checks the reply. */
  method Delegate(worker: Worker, coordinator: Coordinator, signed: Doc, token: L.Token, refusal: string, nonce: string,
                  w: Timing, wanted: Wanted, monotonic: Time, ghost job: Job, ghost handler: Handler,
                  ghost answer: Doc, ghost rd: Doc) returns (r: Result<Doc, Fault>)
    requires Begins(worker, worker.Here(), worker.handlers, signed, w.begun, token, refusal, worker.ledger.entries, job,
                    handler)
    requires Answers(worker, job, handler, w.finished, nonce, answer)
    requires coordinator.cache.Valid() && coordinator.cache.clock <= monotonic
    requires Taken(coordinator.crypto, coordinator.ledger.hmac, answer, wanted, rd, w.checked, coordinator.secret,
                   coordinator.cache.accepted, monotonic)
    requires ResultKey(coordinator.crypto, wanted, rd) !in L.Purge(coordinator.ledger.entries, w.checked)
    requires job.key != ResultKey(coordinator.crypto, wanted, rd)
    modifies worker`delegations, worker`open, worker`results, worker.ledger`entries
    modifies coordinator.cache, coordinator.ledger`entries
    ensures r == Ok(rd)
  {
    var reply := Process(worker, signed, w.begun, token, refusal, w.finished, nonce, job, handler, answer);
    r := Take(coordinator, reply, wanted, w.checked, monotonic, rd);
  }

  /** What the parties and the instants must be like for a delegation to succeed. */
  ghost predicate Succeeds(c: Crypto, made: Doc -> bool, x: Setup, value: Value, nonce: string, w: Timing) {
    && Honest(c, made, x) && InjectiveDigest(c) && InTime(x, w)
    && made(IssuePayload(c, x.worker, IssueOf(x, value, nonce, w.finished)))
  }

  /** Between honest parties the handler's result comes back as Ok: when the request and the result are presented
      in time, the nonce is new to the coordinator, and neither has a live row. Worker and coordinator may share
      a ledger. */
  method HonestRoundTrip(ghost made: Doc -> bool, ghost mode: Mode, ghost flag: bool, ghost value: Value, x: Setup,
                         worker: Worker, coordinator: Coordinator, token: L.Token, refusal: string, nonce: string,
                         w: Timing, monotonic: Time) returns (r: Result<Doc, Fault>)
    requires Succeeds(worker.crypto, made, x, value, nonce, w) && coordinator.crypto == worker.crypto
    requires Employs(x, worker.identity, worker.Here(), worker.handlers, mode, flag)
    requires worker.handlers[x.task.action](GivenParameters(x.task)) == Ok(value) && G.NonEmpty(worker.ledger.hmac)
    requires DataKey(worker.crypto, DataOfTask(x)) !in L.Purge(worker.ledger.entries, w.begun)
    requires coordinator.cache.Valid() && coordinator.cache.clock <= monotonic && L.Present(coordinator.secret)
    requires Unseen(Text(nonce), coordinator.cache.accepted, monotonic)
    requires ResultKey(worker.crypto, WantedFor(x), ResultOfTask(x, value, nonce, w.finished))
         !in L.Purge(coordinator.ledger.entries, w.checked)
    modifies worker`delegations, worker`open, worker`results, worker.ledger`entries
    modifies coordinator.cache, coordinator.ledger`entries
    ensures r == Ok(ResultOfTask(x, value, nonce, w.finished))
    ensures r.Ok? && Tells(r.value, RequestOfTask(x), x.worker.agentId, "COMPLETED", value, Null, nonce, w.finished)
    ensures Get(r.value, ResultField) == value && Get(r.value, ErrorField) == Null
  {
    NewResultTells(RequestOfTask(x), x.worker.agentId, COMPLETED, value, Null, nonce, w.finished);
    var c := worker.crypto;
    ghost var rd := ResultOfTask(x, value, nonce, w.finished);
    ghost var job, handler := JobOf(c, x, token), worker.handlers[x.task.action];
    KeysAreDisjoint(c, WantedFor(x), rd, DataOfTask(x));
    HonestBegins(c, made, x, worker, worker.Here(), worker.handlers, mode, flag, w.begun, token, refusal,
                 worker.ledger.entries);
    HonestAnswers(c, x, worker, token, handler, value, w.finished, nonce);
    HonestIsTaken(c, coordinator.ledger.hmac, made, x, value, nonce, w.finished, w.checked, coordinator.secret,
                  coordinator.cache.accepted, monotonic);
    r := Delegate(worker, coordinator, SignedRequest(c, x), token, refusal, nonce, w, WantedFor(x), monotonic, job,
                  handler, ReplyOf(c, x, value, nonce, w.finished), rd);
  }

  // ---------------------------------------------------------------- exactly once

  /** The reply can be presented at every instant within its windows. */
  ghost predicate Presentable(c: Crypto, x: Setup, issued: Issue -> bool, rd: Doc, at: Time) {
    forall clock: Time, now: Time, secret: L.Secret
      {:trigger Plausible(c, issued, clock, AttemptOf(c, x, rd, at, secret, now))} ::
      clock <= now && at <= now <= at + Messages.PROOF_TTL_SECONDS && Authorized(x, now) ==>
        Plausible(c, issued, clock, AttemptOf(c, x, rd, at, secret, now))
  }

  function AttemptOf(c: Crypto, x: Setup, rd: Doc, at: Time, secret: L.Secret, now: Time): Attempt {
    var proof := SignResult(c, x.worker, rd, at);
    Attempt(ConsumeEvent(c, proof, WantedFor(x), rd, secret, now), proof, WantedFor(x))
  }

  /** An honest result passes the checks whenever it is presented in time, and over any run of any number of
      coordinator processes on a ledger that has no row for it, it is accepted exactly once if it is presented
      at all. */
  lemma HonestResultIsAcceptedExactlyOnce(c: Crypto, hmac: L.Hmac, made: Doc -> bool, x: Setup, issued: Issue -> bool,
                                          value: Value, nonce: string, at: Time, clock: Time, t: L.Table,
                                          run: seq<Attempt>)
    requires Honest(c, made, x) && InjectiveDigest(c) && SignsResults(c, x.worker, issued) && NoncesFresh(issued)
    requires issued(IssueOf(x, value, nonce, at)) && made(IssuePayload(c, x.worker, IssueOf(x, value, nonce, at)))
    requires ResultKey(c, WantedFor(x), ResultOfTask(x, value, nonce, at)) !in t && PlausibleRun(c, issued, clock, run)
    ensures Presentable(c, x, issued, ResultOfTask(x, value, nonce, at), at)
    ensures var key := ResultKey(c, WantedFor(x), ResultOfTask(x, value, nonce, at));
            R.Acceptances(hmac, key, t, Events(run)) == if R.Tried(key, Events(run)) then 1 else 0
  {
    var rd := ResultOfTask(x, value, nonce, at);
    ResultIsAcceptedExactlyOnce(c, hmac, x.worker, issued, WantedFor(x), rd, clock, t, run);
    forall clock': Time, now: Time, secret: L.Secret
      | clock' <= now && at <= now <= at + Messages.PROOF_TTL_SECONDS && Authorized(x, now)
      ensures Plausible(c, issued, clock', AttemptOf(c, x, rd, at, secret, now))
    {
      HonestResultIsChecked(c, made, x, value, nonce, at, now);
      var attempt := AttemptOf(c, x, rd, at, secret, now);
      CheckedIsPlausible(c, issued, attempt.proof, attempt.wanted, rd, attempt.event, at, clock');
    }
  }

  lemma CheckedIsPlausible(c: Crypto, issued: Issue -> bool, proof: Doc, w: Wanted, rd: Doc, e: P.Event, at: Time,
                           clock: Time)
    requires Checked(c, proof, w, e.now) == Ok(rd) && e == ConsumeEvent(c, proof, w, rd, e.secret, e.now)
    requires NoncesFresh(issued) && issued(Issue(rd, at)) && clock <= e.now && at <= e.now
    ensures Plausible(c, issued, clock, Attempt(e, proof, w))
  {
    forall i: Issue | issued(i) && i.result == rd ensures i.at <= e.now {
      assert issued(Issue(rd, at));
    }
  }

  /** All of this happens somewhere: a delegation that succeeds, and a run in which its result is accepted. */
  lemma SuccessIsPossible(hmac: L.Hmac, now: Time, value: Value, nonce: string)
    returns (c: Crypto, made: Doc -> bool, x: Setup, issued: Issue -> bool, run: seq<Attempt>)
    requires 0 < now
    ensures Succeeds(c, made, x, value, nonce, Timing(now, now, now))
    ensures SignsResults(c, x.worker, issued) && NoncesFresh(issued) && PlausibleRun(c, issued, now, run)
    ensures R.Acceptances(hmac, ResultKey(c, WantedFor(x), ResultOfTask(x, value, nonce, now)), map[], Events(run)) == 1
  {
    var decided;
    c, made, x, decided, issued := W.HonestIsPossible(now, value, nonce, now);
    var attempt := AttemptOf(c, x, ResultOfTask(x, value, nonce, now), now, Some("s"), now);
    run := [attempt];
    HonestResultIsAcceptedExactlyOnce(c, hmac, made, x, issued, value, nonce, now, now, map[], []);
    assert Plausible(c, issued, now, attempt);
    OneAttempt(c, issued, now, attempt);
    HonestResultIsAcceptedExactlyOnce(c, hmac, made, x, issued, value, nonce, now, now, map[], run);
  }

  lemma OneAttempt(c: Crypto, issued: Issue -> bool, clock: Time, a: Attempt)
    requires Plausible(c, issued, clock, a) && a.event.Consume? && L.Present(a.event.secret)
    ensures PlausibleRun(c, issued, clock, [a]) && R.Tried(a.event.key, Events([a]))
  {
    assert [a][1..] == [];
  }
}
