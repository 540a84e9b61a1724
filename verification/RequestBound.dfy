/**
 How often a handler is called for one request (src/agent_delegation_network.py, src/replay_ledger.py). Any
 message with the watched delegation data may be delivered anywhere, at the instants `when` allows. The
 bound of two calls holds of all runs exactly when the request cannot outlive the row that remembers it:
 when no message with the data passes a screening at or after the replay expiry it had when one passed
 before.
 */
module RequestBound {
  import opened Clock
  import opened Wrappers
  import opened Messages
  import opened DelegationRequests
  import opened DelegationWorker
  import opened WorkerRuns
  import L = ReplayLedger
  import P = LedgerProtocol
  import G = LedgerGuarantees

  // ---------------------------------------------------------------- runs

  /** The clock does not go back and execution tokens are new. A worker calls a handler for a grant it has,
      finalizes a job it has called the handler for, in one of two states, and otherwise only renews. A
      message with the watched data is delivered only when it is allowed to be. */
  ghost predicate Possible(c: Crypto, data: Doc, when: Time -> bool, s: System, step: Step) {
    match step
    case Deliver(_, signed, now, token) =>
      && s.world.clock <= now && token != "" && token !in P.Tokens(s.world.history)
      && (DataOf(signed) == Dict(data) ==> when(now))
    case Call(held) => held in s.granted
    case Finish(held, final, _, now) =>
      held in s.running && s.world.clock <= now && (final == L.Completed || final == L.RetryableFailure)
    case Elsewhere(e) => s.world.clock <= e.now && (e.key != DataKey(c, data) || e.Heartbeat?)
  }

  ghost predicate PossibleRun(c: Crypto, hmac: L.Hmac, data: Doc, when: Time -> bool, s: System, steps: seq<Step>)
    decreases |steps|
  {
    steps == [] ||
    (&& Possible(c, data, when, s, steps[0])
     && PossibleRun(c, hmac, data, when, After(c, hmac, DataKey(c, data), s, steps[0]), steps[1..]))
  }

  /** Whoever works on the watched request has this secret for the ledger: the workers that a message reaches all
      act under the agent id it is addressed to, and their secret is configured for it or derived from its key. */
  predicate Shares(key: string, secret: L.Secret, step: Step) {
    match step
    case Deliver(site, _, _, _) => site.secret == secret
    case Call(held) => held.site.secret == secret
    case Finish(held, _, _, _) => held.site.secret == secret
    case Elsewhere(e) => e.key == key ==> e.secret == secret
  }

  ghost predicate Sharing(key: string, secret: L.Secret, steps: seq<Step>) {
    forall step <- steps :: Shares(key, secret, step)
  }

  /** Rows written under the secret verify under it. */
  ghost predicate Works(hmac: L.Hmac, secret: L.Secret) {
    L.Present(secret) ==> G.NonEmpty(hmac)
  }

  ghost predicate CallsBounded(c: Crypto, hmac: L.Hmac, data: Doc, when: Time -> bool, secret: L.Secret) {
    forall start: System, steps: seq<Step> ::
      Initial(DataKey(c, data), start) && PossibleRun(c, hmac, data, when, start, steps)
      && Sharing(DataKey(c, data), secret, steps) ==>
        |RunSystem(c, hmac, DataKey(c, data), start, steps).calls| <= L.MAX_REQUEST_ATTEMPTS
  }

  // ---------------------------------------------------------------- the condition

  /** The message carries the data and, read by this worker at this instant, leads to a begin. */
  ghost predicate ReadAt(c: Crypto, data: Doc, site: Site, signed: Doc, now: Time) {
    DataOf(signed) == Dict(data) && forall token: L.Token :: BeginOf(c, site, signed, now, token).Some?
  }

  /** That is, when it passes the screening. */
  lemma ScreenedIsRead(c: Crypto, data: Doc, site: Site, signed: Doc, now: Time)
    ensures ReadAt(c, data, site, signed, now) <==> DataOf(signed) == Dict(data) && Screened(c, site, signed, now).Some?
  {
    if ReadAt(c, data, site, signed, now) {
      assert BeginOf(c, site, signed, now, "").Some?;
    }
  }

  /** At this instant some message with the data passes some worker's screening. */
  ghost predicate Passes(c: Crypto, data: Doc, when: Time -> bool, now: Time) {
    when(now) && exists site: Site, signed: Doc :: ReadAt(c, data, site, signed, now)
  }

  /** The data passes at one instant, and passes again when what it was kept for has run out. */
  ghost predicate LapsesAt(c: Crypto, data: Doc, when: Time -> bool, t0: Time, t1: Time) {
    t0 <= t1 && Passes(c, data, when, t0) && Passes(c, data, when, t1) && DataExpiry(c, data, t0) <= t1
  }

  ghost predicate Lapses(c: Crypto, data: Doc, when: Time -> bool) {
    exists t0: Time, t1: Time :: LapsesAt(c, data, when, t0, t1)
  }

  lemma ReadInTime(c: Crypto, data: Doc, site: Site, signed: Doc, now: Time)
    requires ReadAt(c, data, site, signed, now)
    ensures now <= DataExpiry(c, data, now) && DataKey(c, data) != ""
  {
    ScreenedIsRead(c, data, site, signed, now);
    AdmittedWithinRetention(c, signed, site.agentId, site.gate, now);
    KeyIsOfData(c, signed, site.agentId, site.gate, now);
  }

  lemma PassesInTime(c: Crypto, data: Doc, when: Time -> bool, now: Time)
    requires Passes(c, data, when, now)
    ensures now <= DataExpiry(c, data, now) && DataKey(c, data) != ""
  {
    var site: Site, signed: Doc :| ReadAt(c, data, site, signed, now);
    ReadInTime(c, data, site, signed, now);
  }

  // ---------------------------------------------------------------- grants, calls and tokens

  /** No finalize has succeeded with the token of a grant still held, and no two grants share a token. */
  ghost predicate Outstanding(h: seq<P.Entry>, open: set<Held>) {
    && (forall held <- open :: held.token in P.Tokens(h) && held.token !in P.Spent(h))
    && (forall x, y :: x in open && y in open && x.token == y.token ==> x == y)
    && (forall token <- P.Spent(h) :: token in P.Tokens(h))
  }

  lemma OutstandingQuiet(h: seq<P.Entry>, more: seq<P.Entry>, open: set<Held>)
    requires Outstanding(h, open)
    requires more == [] || (|more| == 1 && more[0].Renewal?)
    ensures Outstanding(h + more, open) && P.Tokens(h + more) == P.Tokens(h)
  {
    P.TokensAppend(h, more);
    P.SpentAppend(h, more);
  }

  lemma OutstandingGrant(h: seq<P.Entry>, held: Held, open: set<Held>)
    requires Outstanding(h, open) && held.token !in P.Tokens(h)
    ensures Outstanding(h + [P.Grant(held.token, held.at)], open + {held}) && held !in open
    ensures |P.Tokens(h + [P.Grant(held.token, held.at)])| == |P.Tokens(h)| + 1
  {
    P.TokensAppend(h, [P.Grant(held.token, held.at)]);
    P.SpentAppend(h, [P.Grant(held.token, held.at)]);
  }

  lemma OutstandingFinish(h: seq<P.Entry>, held: Held, x: P.Entry, open: set<Held>)
    requires Outstanding(h, open) && held in open
    requires x.Finish? && x.shown == Some(held.token)
    ensures Outstanding(h + [x], open - {held}) && P.Tokens(h + [x]) == P.Tokens(h)
  {
    P.TokensAppend(h, [x]);
    P.SpentAppend(h, [x]);
  }

  /** Every grant in the history is either still to be acted on or was acted on once. */
  ghost predicate Accounted(h: seq<P.Entry>, granted: set<Held>, running: set<Held>, calls: nat) {
    && |granted| + calls == |P.Tokens(h)|
    && granted !! running
    && Outstanding(h, granted + running)
  }

  lemma AccountedGrant(h: seq<P.Entry>, held: Held, granted: set<Held>, running: set<Held>, calls: nat)
    requires Accounted(h, granted, running, calls) && held.token !in P.Tokens(h)
    ensures Accounted(h + [P.Grant(held.token, held.at)], granted + {held}, running, calls)
  {
    OutstandingGrant(h, held, granted + running);
    assert (granted + {held}) + running == (granted + running) + {held};
    assert held !in granted && |granted + {held}| == |granted| + 1;
  }

  lemma AccountedCall(h: seq<P.Entry>, held: Held, granted: set<Held>, running: set<Held>, calls: nat)
    requires Accounted(h, granted, running, calls) && held in granted
    ensures Accounted(h, granted - {held}, running + {held}, calls + 1)
  {
    assert (granted - {held}) + (running + {held}) == granted + running;
    assert |granted - {held}| == |granted| - 1;
  }

  /** A finalize that did not raise uses the job up, whether or not it was recorded; one that raised was
      not recorded. */
  lemma AccountedFinish(h: seq<P.Entry>, held: Held, more: seq<P.Entry>, raised: bool, granted: set<Held>,
                        running: set<Held>, calls: nat)
    requires Accounted(h, granted, running, calls) && held in running
    requires more == [] || (!raised && |more| == 1 && more[0].Finish? && more[0].shown == Some(held.token))
    ensures Accounted(h + more, granted, if raised then running else running - {held}, calls)
  {
    var open := granted + running;
    assert granted + (running - {held}) == open - {held};
    if more == [] {
      assert h + more == h;
      assert Outstanding(h, open - {held});
    } else {
      assert more == [more[0]];
      OutstandingFinish(h, held, more[0], open);
    }
  }

  // ---------------------------------------------------------------- the invariant of bounded runs

  /** A delivery that leads to a begin of the watched request. */
  ghost predicate Watched(c: Crypto, data: Doc, step: Step) {
    && step.Deliver?
    && BeginOf(c, step.site, step.signed, step.now, step.token).Some?
    && BeginOf(c, step.site, step.signed, step.now, step.token).value.key == DataKey(c, data)
  }

  ghost predicate Fits(c: Crypto, data: Doc, terms: P.Terms, step: Step) {
    Watched(c, data, step) ==>
      step.now <= terms.last && terms.soonest <= DataExpiry(c, data, step.now) <= terms.latest
  }

  ghost predicate Bounded(c: Crypto, data: Doc, terms: P.Terms, s: System) {
    && P.Inv(DataKey(c, data), terms, s.world)
    && Accounted(s.world.history, s.granted, s.running, |s.calls|)
  }

  lemma QuietKeeps(c: Crypto, hmac: L.Hmac, data: Doc, terms: P.Terms, s: System, e: P.Event)
    requires DataKey(c, data) != "" && P.Timely(terms)
    requires Bounded(c, data, terms, s) && P.Admissible(DataKey(c, data), terms, s.world, e)
    requires e.key != DataKey(c, data) || e.Heartbeat? || (e.Begin? && !P.IsGranted(hmac, s.world.table, e))
    ensures Bounded(c, data, terms, Transact(hmac, DataKey(c, data), s, e))
  {
    var k := DataKey(c, data);
    P.InvPreserved(hmac, k, terms, s.world, e);
    RecordedShape(hmac, k, s.world.table, e);
    OutstandingQuiet(s.world.history, P.Recorded(hmac, k, s.world.table, e), s.granted + s.running);
  }

  lemma GrantKeeps(c: Crypto, hmac: L.Hmac, data: Doc, terms: P.Terms, s: System, e: P.Event, held: Held)
    requires DataKey(c, data) != "" && P.Timely(terms)
    requires Bounded(c, data, terms, s) && P.Admissible(DataKey(c, data), terms, s.world, e)
    requires e.key == DataKey(c, data) && P.IsGranted(hmac, s.world.table, e)
    requires held.token == e.issued && held.at == e.now && held.token !in P.Tokens(s.world.history)
    ensures Bounded(c, data, terms, Begun(hmac, DataKey(c, data), s, e, held))
  {
    var k := DataKey(c, data);
    P.InvPreserved(hmac, k, terms, s.world, e);
    RecordedShape(hmac, k, s.world.table, e);
    AccountedGrant(s.world.history, held, s.granted, s.running, |s.calls|);
  }

  lemma BeginKeeps(c: Crypto, hmac: L.Hmac, data: Doc, terms: P.Terms, s: System, e: P.Event, held: Held)
    requires DataKey(c, data) != "" && P.Timely(terms) && Bounded(c, data, terms, s)
    requires e.Begin? && s.world.clock <= e.now && e.issued != ""
    requires e.key == DataKey(c, data) ==> e.now <= terms.last && terms.soonest <= e.expiry <= terms.latest
    requires held.token == e.issued && held.at == e.now && held.token !in P.Tokens(s.world.history)
    ensures Bounded(c, data, terms, Begun(hmac, DataKey(c, data), s, e, held))
  {
    if e.key == DataKey(c, data) && P.IsGranted(hmac, s.world.table, e) {
      GrantKeeps(c, hmac, data, terms, s, e, held);
    } else {
      QuietKeeps(c, hmac, data, terms, s, e);
    }
  }

  lemma DeliverKeeps(c: Crypto, hmac: L.Hmac, data: Doc, when: Time -> bool, terms: P.Terms, s: System, step: Step)
    requires InjectiveDigest(c) && DataKey(c, data) != "" && P.Timely(terms)
    requires step.Deliver? && Bounded(c, data, terms, s)
    requires Possible(c, data, when, s, step) && Fits(c, data, terms, step)
    ensures Bounded(c, data, terms, After(c, hmac, DataKey(c, data), s, step))
  {
    var Deliver(site, signed, now, token) := step;
    var begin := BeginOf(c, site, signed, now, token);
    if begin.Some? {
      if begin.value.key == DataKey(c, data) {
        DeliveredBegin(c, data, site, signed, now, token);
      }
      BeginKeeps(c, hmac, data, terms, s, begin.value, Held(site, signed, now, token));
    }
  }

  lemma CallKeeps(c: Crypto, data: Doc, terms: P.Terms, s: System, held: Held)
    requires Bounded(c, data, terms, s) && held in s.granted
    ensures Bounded(c, data, terms, Called(s, held))
  {
    AccountedCall(s.world.history, held, s.granted, s.running, |s.calls|);
  }

  lemma FinishKeeps(c: Crypto, hmac: L.Hmac, data: Doc, terms: P.Terms, s: System, e: P.Event, held: Held)
    requires DataKey(c, data) != "" && P.Timely(terms)
    requires Bounded(c, data, terms, s) && held in s.running
    requires e.Finalize? && e.key == DataKey(c, data) && e.shown == Some(held.token) && s.world.clock <= e.now
    requires e.final == L.Completed || e.final == L.RetryableFailure
    ensures Bounded(c, data, terms, Finished(hmac, DataKey(c, data), s, e, held))
  {
    var k, h := DataKey(c, data), s.world.history;
    assert held in s.granted + s.running;
    P.InvPreserved(hmac, k, terms, s.world, e);
    RecordedShape(hmac, k, s.world.table, e);
    AccountedFinish(h, held, P.Recorded(hmac, k, s.world.table, e), Raises(hmac, s.world.table, e), s.granted,
                    s.running, |s.calls|);
  }

  lemma StepKeeps(c: Crypto, hmac: L.Hmac, data: Doc, when: Time -> bool, terms: P.Terms, s: System, step: Step)
    requires InjectiveDigest(c) && DataKey(c, data) != "" && P.Timely(terms)
    requires Bounded(c, data, terms, s) && Possible(c, data, when, s, step) && Fits(c, data, terms, step)
    ensures Bounded(c, data, terms, After(c, hmac, DataKey(c, data), s, step))
  {
    match step
    case Deliver(_, _, _, _) => DeliverKeeps(c, hmac, data, when, terms, s, step);
    case Call(held) => CallKeeps(c, data, terms, s, held);
    case Finish(held, final, error, now) =>
      FinishKeeps(c, hmac, data, terms, s, FinishEvent(DataKey(c, data), held, final, error, now), held);
    case Elsewhere(e) => QuietKeeps(c, hmac, data, terms, s, e);
  }

  ghost predicate AllFit(c: Crypto, data: Doc, terms: P.Terms, steps: seq<Step>) {
    steps == [] || (Fits(c, data, terms, steps[0]) && AllFit(c, data, terms, steps[1..]))
  }

  lemma {:induction false} RunKeeps(c: Crypto, hmac: L.Hmac, data: Doc, when: Time -> bool, terms: P.Terms, s: System,
                                    steps: seq<Step>)
    requires InjectiveDigest(c) && DataKey(c, data) != "" && P.Timely(terms)
    requires Bounded(c, data, terms, s) && PossibleRun(c, hmac, data, when, s, steps) && AllFit(c, data, terms, steps)
    ensures Bounded(c, data, terms, RunSystem(c, hmac, DataKey(c, data), s, steps))
    decreases |steps|
  {
    if steps != [] {
      StepKeeps(c, hmac, data, when, terms, s, steps[0]);
      RunKeeps(c, hmac, data, when, terms, After(c, hmac, DataKey(c, data), s, steps[0]), steps[1..]);
    }
  }

  // ---------------------------------------------------------------- a run without lapses has terms

  lemma WatchedPasses(c: Crypto, data: Doc, when: Time -> bool, s: System, step: Step)
    requires InjectiveDigest(c) && Possible(c, data, when, s, step) && Watched(c, data, step)
    ensures Passes(c, data, when, step.now)
  {
    DeliveredBegin(c, data, step.site, step.signed, step.now, step.token);
    ScreenedIsRead(c, data, step.site, step.signed, step.now);
  }

  /** The terms take their soonest expiry and their last instant from instants at which the data passes. */
  ghost predicate TakenFrom(c: Crypto, data: Doc, when: Time -> bool, terms: P.Terms, first: Time) {
    Passes(c, data, when, first) && terms.soonest == DataExpiry(c, data, first) && Passes(c, data, when, terms.last)
  }

  lemma TakenTermsHold(c: Crypto, data: Doc, when: Time -> bool, terms: P.Terms, first: Time)
    requires !Lapses(c, data, when) && TakenFrom(c, data, when, terms, first)
    ensures P.Timely(terms)
  {
    if first <= terms.last {
      assert !LapsesAt(c, data, when, first, terms.last);
    } else {
      PassesInTime(c, data, when, first);
    }
  }

  /** Terms that also fit one more instant. */
  function Extended(terms: P.Terms, at: Time, expiry: Time): P.Terms {
    P.Terms(if expiry < terms.soonest then expiry else terms.soonest,
            if terms.latest < expiry then expiry else terms.latest,
            if terms.last < at then at else terms.last)
  }

  lemma {:induction false} ExtendedFits(c: Crypto, data: Doc, terms: P.Terms, at: Time, expiry: Time, steps: seq<Step>)
    requires AllFit(c, data, terms, steps)
    ensures AllFit(c, data, Extended(terms, at, expiry), steps)
  {
    if steps != [] {
      ExtendedFits(c, data, terms, at, expiry, steps[1..]);
    }
  }

  /** Some terms fit; they are taken from the run's own instants when it begins anything watched. */
  ghost predicate Terming(c: Crypto, data: Doc, when: Time -> bool, steps: seq<Step>, terms: P.Terms, some: bool,
                          first: Time)
  {
    && AllFit(c, data, terms, steps)
    && if some then TakenFrom(c, data, when, terms, first)
       else terms == P.Terms(1, 1, 0) && forall other: P.Terms :: AllFit(c, data, other, steps)
  }

  lemma TermsWith(c: Crypto, data: Doc, when: Time -> bool, step: Step, rest: seq<Step>, terms: P.Terms, some: bool,
                  first: Time) returns (more: P.Terms, other: Time)
    requires Terming(c, data, when, rest, terms, some, first)
    requires Watched(c, data, step) && Passes(c, data, when, step.now)
    ensures TakenFrom(c, data, when, more, other) && Fits(c, data, more, step) && AllFit(c, data, more, rest)
  {
    var at, expiry := step.now, DataExpiry(c, data, step.now);
    if some {
      ExtendedFits(c, data, terms, at, expiry, rest);
      more, other := Extended(terms, at, expiry), if expiry < terms.soonest then at else first;
    } else {
      more, other := P.Terms(expiry, expiry, at), at;
    }
  }

  lemma {:induction false} TermsOfRun(c: Crypto, hmac: L.Hmac, data: Doc, when: Time -> bool, s: System,
                                      steps: seq<Step>)
    returns (terms: P.Terms, some: bool, first: Time)
    requires InjectiveDigest(c) && PossibleRun(c, hmac, data, when, s, steps)
    ensures Terming(c, data, when, steps, terms, some, first)
    decreases |steps|
  {
    terms, some, first := P.Terms(1, 1, 0), false, 0;
    if steps != [] {
      terms, some, first := TermsOfRun(c, hmac, data, when, After(c, hmac, DataKey(c, data), s, steps[0]), steps[1..]);
      if Watched(c, data, steps[0]) {
        WatchedPasses(c, data, when, s, steps[0]);
        terms, first := TermsWith(c, data, when, steps[0], steps[1..], terms, some, first);
        some := true;
      }
    }
  }

  /** However often and to however many workers a request that does not lapse is delivered, a handler is
      called for it at most twice. */
  lemma HandlersRunAtMostTwice(c: Crypto, hmac: L.Hmac, data: Doc, when: Time -> bool, start: System, steps: seq<Step>)
    requires InjectiveDigest(c) && !Lapses(c, data, when)
    requires Initial(DataKey(c, data), start) && PossibleRun(c, hmac, data, when, start, steps)
    ensures |RunSystem(c, hmac, DataKey(c, data), start, steps).calls| <= L.MAX_REQUEST_ATTEMPTS
  {
    var terms, some, first := TermsOfRun(c, hmac, data, when, start, steps);
    if some {
      TakenTermsHold(c, data, when, terms, first);
    }
    RunKeeps(c, hmac, data, when, terms, start, steps);
  }

  // ---------------------------------------------------------------- a lapse gives a third call

  /** The begin that a message leads to when it is read at an instant, whatever the token. */
  ghost predicate BeginsWith(c: Crypto, data: Doc, site: Site, signed: Doc, now: Time, token: L.Token) {
    var begin := BeginOf(c, site, signed, now, token);
    && begin.Some? && begin.value.Begin? && begin.value.key == DataKey(c, data) && begin.value.secret == site.secret
    && begin.value.now == now && begin.value.expiry == DataExpiry(c, data, now) && begin.value.issued == token
  }

  ghost predicate Begins(c: Crypto, data: Doc, site: Site, signed: Doc, now: Time) {
    forall token: L.Token :: BeginsWith(c, data, site, signed, now, token)
  }

  lemma ReadBegins(c: Crypto, data: Doc, site: Site, signed: Doc, now: Time)
    requires ReadAt(c, data, site, signed, now)
    ensures Begins(c, data, site, signed, now)
  {
    ScreenedIsRead(c, data, site, signed, now);
    KeyIsOfData(c, signed, site.agentId, site.gate, now);
    AdmittedWithinRetention(c, signed, site.agentId, site.gate, now);
  }

  /** The secret of a worker plays no part in its screening. */
  lemma ReadWithSecret(c: Crypto, data: Doc, site: Site, signed: Doc, now: Time, secret: L.Secret)
    requires ReadAt(c, data, site, signed, now)
    ensures ReadAt(c, data, site.(secret := secret), signed, now)
  {
    ScreenedIsRead(c, data, site, signed, now);
    ScreenedIsRead(c, data, site.(secret := secret), signed, now);
  }

  /** A begin under the secret is granted at this instant: there is no row, or it has run out, or it is authentic
      and may be tried again. */
  predicate Grantable(hmac: L.Hmac, secret: L.Secret, key: string, w: P.World, now: Time) {
    && w.clock <= now
    && (key in w.table ==>
          var b := w.table[key].body;
          || b.expiresAt <= now
          || (b.state == L.RetryableFailure && b.attempts < b.maxAttempts
              && w.table[key] == L.Seal(hmac, secret, key, b)))
  }

  /** The row of a running execution that is kept no longer than until an instant. */
  predicate RunsUntil(hmac: L.Hmac, secret: L.Secret, key: string, w: P.World, token: L.Token, until: Time) {
    && key in w.table
    && var b := w.table[key].body;
       && b.state == L.Running && b.token == Some(token) && b.expiresAt <= until
       && b.maxAttempts == L.MAX_REQUEST_ATTEMPTS && w.table[key] == L.Seal(hmac, secret, key, b)
  }

  lemma GrantableIsGranted(hmac: L.Hmac, key: string, w: P.World, e: P.Event, until: Time)
    requires key != "" && e.Begin? && e.key == key && e.expiry <= until
    requires Works(hmac, e.secret) && Grantable(hmac, e.secret, key, w, e.now)
    requires key in w.table ==> w.table[key].body.maxAttempts == L.MAX_REQUEST_ATTEMPTS
    ensures P.IsGranted(hmac, w.table, e)
    ensures var w' := P.Apply(hmac, key, w, e);
            && RunsUntil(hmac, e.secret, key, w', e.issued, until) && w'.clock == e.now
            && w'.history == w.history + [P.Grant(e.issued, e.now)]
            && (key !in w.table ==> w'.table[key].body.attempts == 1)
  {
  }

  lemma FailureIsGrantable(hmac: L.Hmac, key: string, w: P.World, e: P.Event, until: Time)
    requires key != "" && e.Finalize? && e.key == key && Works(hmac, e.secret) && e.final == L.RetryableFailure
    requires e.shown.Some? && RunsUntil(hmac, e.secret, key, w, e.shown.value, until) && w.clock <= e.now
    requires w.table[key].body.attempts == 1
    ensures Grantable(hmac, e.secret, key, P.Apply(hmac, key, w, e), e.now) && !Raises(hmac, w.table, e)
    ensures var w' := P.Apply(hmac, key, w, e);
            key in w'.table && w'.table[key].body.maxAttempts == L.MAX_REQUEST_ATTEMPTS
            && P.Tokens(w'.history) == P.Tokens(w.history)
  {
    P.TokensAppend(w.history, P.Recorded(hmac, key, w.table, e));
  }

  /** Deliver a message where it is granted, and call the handler. */
  lemma Round(c: Crypto, hmac: L.Hmac, data: Doc, when: Time -> bool, s: System, deliver: Step, until: Time)
    returns (s': System, call: Step)
    requires DataKey(c, data) != "" && deliver.Deliver? && Works(hmac, deliver.site.secret) && when(deliver.now)
    requires Begins(c, data, deliver.site, deliver.signed, deliver.now)
    requires deliver.token != "" && deliver.token !in P.Tokens(s.world.history)
    requires Grantable(hmac, deliver.site.secret, DataKey(c, data), s.world, deliver.now)
    requires DataExpiry(c, data, deliver.now) <= until
    requires var key := DataKey(c, data);
             key in s.world.table ==> s.world.table[key].body.maxAttempts == L.MAX_REQUEST_ATTEMPTS
    ensures Possible(c, data, when, s, deliver)
    ensures Possible(c, data, when, After(c, hmac, DataKey(c, data), s, deliver), call)
    ensures s' == After(c, hmac, DataKey(c, data), After(c, hmac, DataKey(c, data), s, deliver), call)
    ensures |s'.calls| == |s.calls| + 1 && call == Call(Held(deliver.site, deliver.signed, deliver.now, deliver.token))
    ensures call.held in s'.running && s'.world.clock == deliver.now
    ensures RunsUntil(hmac, deliver.site.secret, DataKey(c, data), s'.world, deliver.token, until)
    ensures P.Tokens(s'.world.history) == P.Tokens(s.world.history) + [deliver.token]
    ensures DataKey(c, data) !in s.world.table ==> s'.world.table[DataKey(c, data)].body.attempts == 1
  {
    assert BeginsWith(c, data, deliver.site, deliver.signed, deliver.now, deliver.token);
    var e := BeginOf(c, deliver.site, deliver.signed, deliver.now, deliver.token).value;
    GrantableIsGranted(hmac, DataKey(c, data), s.world, e, until);
    P.TokensAppend(s.world.history, [P.Grant(e.issued, e.now)]);
    call := Call(Held(deliver.site, deliver.signed, deliver.now, deliver.token));
    s' := After(c, hmac, DataKey(c, data), After(c, hmac, DataKey(c, data), s, deliver), call);
  }

  lemma StepThenRun(c: Crypto, hmac: L.Hmac, data: Doc, when: Time -> bool, s: System, step: Step, rest: seq<Step>)
    requires Possible(c, data, when, s, step)
    requires PossibleRun(c, hmac, data, when, After(c, hmac, DataKey(c, data), s, step), rest)
    ensures PossibleRun(c, hmac, data, when, s, [step] + rest)
    ensures RunSystem(c, hmac, DataKey(c, data), s, [step] + rest)
         == RunSystem(c, hmac, DataKey(c, data), After(c, hmac, DataKey(c, data), s, step), rest)
  {
    var steps := [step] + rest;
    assert steps[0] == step && steps[1..] == rest;
  }

  /** A round, and what is done after it. */
  lemma RoundThenRun(c: Crypto, hmac: L.Hmac, data: Doc, when: Time -> bool, s: System, deliver: Step, call: Step,
                     s': System, rest: seq<Step>) returns (steps: seq<Step>)
    requires Possible(c, data, when, s, deliver)
    requires Possible(c, data, when, After(c, hmac, DataKey(c, data), s, deliver), call)
    requires s' == After(c, hmac, DataKey(c, data), After(c, hmac, DataKey(c, data), s, deliver), call)
    requires PossibleRun(c, hmac, data, when, s', rest)
    ensures PossibleRun(c, hmac, data, when, s, steps)
    ensures RunSystem(c, hmac, DataKey(c, data), s, steps) == RunSystem(c, hmac, DataKey(c, data), s', rest)
    ensures steps == [deliver, call] + rest
  {
    StepThenRun(c, hmac, data, when, After(c, hmac, DataKey(c, data), s, deliver), call, rest);
    StepThenRun(c, hmac, data, when, s, deliver, [call] + rest);
    steps := [deliver] + ([call] + rest);
  }

  /** The first handler raises; the second call follows. */
  lemma FailedRound(c: Crypto, hmac: L.Hmac, data: Doc, when: Time -> bool, s: System, held: Held, until: Time)
    returns (s': System, finish: Step)
    requires DataKey(c, data) != "" && Works(hmac, held.site.secret) && held in s.running
    requires RunsUntil(hmac, held.site.secret, DataKey(c, data), s.world, held.token, until)
    requires s.world.table[DataKey(c, data)].body.attempts == 1
    ensures Possible(c, data, when, s, finish) && s' == After(c, hmac, DataKey(c, data), s, finish)
    ensures Grantable(hmac, held.site.secret, DataKey(c, data), s'.world, s.world.clock) && s'.calls == s.calls
    ensures finish == Finish(held, L.RetryableFailure, None, s.world.clock)
    ensures s'.world.clock == s.world.clock
    ensures DataKey(c, data) in s'.world.table
    ensures s'.world.table[DataKey(c, data)].body.maxAttempts == L.MAX_REQUEST_ATTEMPTS
    ensures P.Tokens(s'.world.history) == P.Tokens(s.world.history)
  {
    var e := FinishEvent(DataKey(c, data), held, L.RetryableFailure, None, s.world.clock);
    FailureIsGrantable(hmac, DataKey(c, data), s.world, e, until);
    finish := Finish(held, L.RetryableFailure, None, s.world.clock);
    s' := After(c, hmac, DataKey(c, data), s, finish);
  }

  /** A call and a failure. */
  lemma FirstCall(c: Crypto, hmac: L.Hmac, data: Doc, when: Time -> bool, start: System, d1: Step)
    returns (c1: Step, s1: System, finish: Step, s2: System)
    requires DataKey(c, data) != "" && d1.Deliver? && when(d1.now) && Works(hmac, d1.site.secret) && d1.token != ""
    requires Begins(c, data, d1.site, d1.signed, d1.now)
    requires start == System(P.World(map[], d1.now, []), {}, {}, {}, [])
    ensures Possible(c, data, when, start, d1)
    ensures Possible(c, data, when, After(c, hmac, DataKey(c, data), start, d1), c1)
    ensures s1 == After(c, hmac, DataKey(c, data), After(c, hmac, DataKey(c, data), start, d1), c1)
    ensures Possible(c, data, when, s1, finish) && s2 == After(c, hmac, DataKey(c, data), s1, finish)
    ensures |s2.calls| == 1 && s2.world.clock == d1.now && P.Tokens(s2.world.history) == [d1.token]
    ensures Grantable(hmac, d1.site.secret, DataKey(c, data), s2.world, d1.now) && DataKey(c, data) in s2.world.table
    ensures Shares(DataKey(c, data), d1.site.secret, c1) && Shares(DataKey(c, data), d1.site.secret, finish)
    ensures s2.world.table[DataKey(c, data)].body.maxAttempts == L.MAX_REQUEST_ATTEMPTS
  {
    var until := DataExpiry(c, data, d1.now);
    s1, c1 := Round(c, hmac, data, when, start, d1, until);
    s2, finish := FailedRound(c, hmac, data, when, s1, c1.held, until);
  }

  /** A second call, and when the row has run out, a third. */
  lemma LaterCalls(c: Crypto, hmac: L.Hmac, data: Doc, when: Time -> bool, s: System, d2: Step, d3: Step)
    returns (steps: seq<Step>)
    requires DataKey(c, data) != "" && d2.Deliver? && d3.Deliver?
    requires when(d2.now) && d2.token != "" && d2.token !in P.Tokens(s.world.history)
    requires when(d3.now) && d3.token != "" && d3.token !in P.Tokens(s.world.history)
    requires Works(hmac, d2.site.secret) && d3.site.secret == d2.site.secret
    requires d2.token != d3.token && d2.now <= d3.now && DataExpiry(c, data, d2.now) <= d3.now
    requires Begins(c, data, d2.site, d2.signed, d2.now)
    requires Begins(c, data, d3.site, d3.signed, d3.now)
    requires Grantable(hmac, d2.site.secret, DataKey(c, data), s.world, d2.now) && DataKey(c, data) in s.world.table
    requires s.world.table[DataKey(c, data)].body.maxAttempts == L.MAX_REQUEST_ATTEMPTS
    ensures PossibleRun(c, hmac, data, when, s, steps) && Sharing(DataKey(c, data), d2.site.secret, steps)
    ensures |RunSystem(c, hmac, DataKey(c, data), s, steps).calls| == |s.calls| + 2
  {
    var s3, c2 := Round(c, hmac, data, when, s, d2, DataExpiry(c, data, d2.now));
    var s4, c3 := Round(c, hmac, data, when, s3, d3, DataExpiry(c, data, d3.now));
    var last := RoundThenRun(c, hmac, data, when, s3, d3, c3, s4, []);
    RoundShares(DataKey(c, data), d2.site.secret, d3, c3, []);
    steps := RoundThenRun(c, hmac, data, when, s, d2, c2, s3, last);
    RoundShares(DataKey(c, data), d2.site.secret, d2, c2, last);
  }

  lemma RoundShares(key: string, secret: L.Secret, deliver: Step, call: Step, rest: seq<Step>)
    requires Shares(key, secret, deliver) && Shares(key, secret, call) && Sharing(key, secret, rest)
    ensures Sharing(key, secret, [deliver, call] + rest)
  {
  }

  lemma ThreeCalls(c: Crypto, hmac: L.Hmac, data: Doc, when: Time -> bool, start: System, d1: Step, d2: Step, d3: Step)
    returns (steps: seq<Step>)
    requires d1.Deliver? && d2.Deliver? && d3.Deliver? && DataKey(c, data) != ""
    requires d1.now == d2.now <= d3.now && when(d1.now) && when(d3.now) && DataExpiry(c, data, d1.now) <= d3.now
    requires Works(hmac, d1.site.secret) && d1.site.secret == d2.site.secret == d3.site.secret
    requires d1.token != "" && d2.token !in ["", d1.token] && d3.token !in ["", d1.token, d2.token]
    requires Begins(c, data, d1.site, d1.signed, d1.now)
    requires Begins(c, data, d2.site, d2.signed, d2.now)
    requires Begins(c, data, d3.site, d3.signed, d3.now)
    requires start == System(P.World(map[], d1.now, []), {}, {}, {}, [])
    ensures PossibleRun(c, hmac, data, when, start, steps) && Sharing(DataKey(c, data), d1.site.secret, steps)
    ensures |RunSystem(c, hmac, DataKey(c, data), start, steps).calls| == 3
  {
    var c1, s1, finish, s2 := FirstCall(c, hmac, data, when, start, d1);
    steps := LaterCalls(c, hmac, data, when, s2, d2, d3);
    StepThenRun(c, hmac, data, when, s1, finish, steps);
    steps := RoundThenRun(c, hmac, data, when, start, d1, c1, s1, [finish] + steps);
  }

  lemma ThreeDeliveries(c: Crypto, hmac: L.Hmac, data: Doc, when: Time -> bool, site0: Site, signed0: Doc, t0: Time,
                        site1: Site, signed1: Doc, t1: Time, tokens: seq<L.Token>)
    requires DataKey(c, data) != "" && when(t0) && when(t1) && Works(hmac, site0.secret) && site0.secret == site1.secret
    requires Begins(c, data, site0, signed0, t0) && Begins(c, data, site1, signed1, t1)
    requires t0 <= t1 && DataExpiry(c, data, t0) <= t1
    requires |tokens| == 3 && tokens[0] != "" && tokens[1] !in ["", tokens[0]]
    requires tokens[2] !in ["", tokens[0], tokens[1]]
    ensures !CallsBounded(c, hmac, data, when, site0.secret)
  {
    var start := System(P.World(map[], t0, []), {}, {}, {}, []);
    var steps := ThreeCalls(c, hmac, data, when, start, Deliver(site0, signed0, t0, tokens[0]),
                            Deliver(site0, signed0, t0, tokens[1]), Deliver(site1, signed1, t1, tokens[2]));
    assert Initial(DataKey(c, data), start);
  }

  lemma LapseIsUnbounded(c: Crypto, hmac: L.Hmac, data: Doc, when: Time -> bool, secret: L.Secret, t0: Time, t1: Time)
    requires LapsesAt(c, data, when, t0, t1) && Works(hmac, secret)
    ensures !CallsBounded(c, hmac, data, when, secret)
  {
    var site0, signed0 := Reader(c, data, when, t0, secret);
    var site1, signed1 := Reader(c, data, when, t1, secret);
    PassesInTime(c, data, when, t0);
    ThreeDeliveries(c, hmac, data, when, site0, signed0, t0, site1, signed1, t1, ["a", "b", "c"]);
  }

  /** A worker with the secret that reads the data when it passes. */
  lemma Reader(c: Crypto, data: Doc, when: Time -> bool, now: Time, secret: L.Secret) returns (site: Site, signed: Doc)
    requires Passes(c, data, when, now)
    ensures site.secret == secret && Begins(c, data, site, signed, now)
  {
    var any: Site, message: Doc :| ReadAt(c, data, any, message, now);
    site, signed := any.(secret := secret), message;
    ReadWithSecret(c, data, any, message, now, secret);
    ReadBegins(c, data, site, message, now);
  }

  /** For any delegation data, whatever the instants at which it may be delivered, and whatever secret the workers
      share: a handler is called for it at most twice in every run if and only if it does not lapse. */
  lemma CallsBoundedExactly(c: Crypto, hmac: L.Hmac, data: Doc, when: Time -> bool, secret: L.Secret)
    requires InjectiveDigest(c) && Works(hmac, secret)
    ensures CallsBounded(c, hmac, data, when, secret) <==> !Lapses(c, data, when)
  {
    if Lapses(c, data, when) {
      var t0: Time, t1: Time :| LapsesAt(c, data, when, t0, t1);
      LapseIsUnbounded(c, hmac, data, when, secret, t0, t1);
    } else {
      forall start: System, steps: seq<Step>
        | Initial(DataKey(c, data), start) && PossibleRun(c, hmac, data, when, start, steps)
        ensures |RunSystem(c, hmac, DataKey(c, data), start, steps).calls| <= L.MAX_REQUEST_ATTEMPTS
      {
        HandlersRunAtMostTwice(c, hmac, data, when, start, steps);
      }
    }
  }

  // ---------------------------------------------------------------- when data lapses

  /** Data with a fixed expiry lapses if and only if it can be read at the very instant of its replay expiry. */
  lemma FixedDataLapses(c: Crypto, data: Doc, when: Time -> bool)
    requires ExpiryFixed(data)
    ensures Lapses(c, data, when) <==> Passes(c, data, when, DataExpiry(c, data, 0))
  {
    var expiry := DataExpiry(c, data, 0);
    if Lapses(c, data, when) {
      var t0: Time, t1: Time :| LapsesAt(c, data, when, t0, t1);
      FixedExpiry(c, data, t0, 0);
      FixedExpiry(c, data, t1, 0);
      PassesInTime(c, data, when, t1);
    }
    if Passes(c, data, when, expiry) {
      FixedExpiry(c, data, expiry, 0);
      assert LapsesAt(c, data, when, expiry, expiry);
    }
  }

  /** The data passes at two instants an hour or more apart. */
  ghost predicate HourApart(c: Crypto, data: Doc, when: Time -> bool, t0: Time, t1: Time) {
    Passes(c, data, when, t0) && Passes(c, data, when, t1) && t0 + DEFAULT_LIFETIME <= t1
  }

  /** Data that states neither issue time nor expiry lapses if and only if it passes at instants an hour
      apart, or at the instant until which its receipt authorizes (or at the one instant whose hour ends at
      zero, which the code takes for no expiry). So a receipt for less than an hour bounds the calls as a
      stated expiry does, and without one nothing does. */
  lemma UnstatedDataLapses(c: Crypto, data: Doc, when: Time -> bool)
    requires !ExpiryStated(data)
    ensures Lapses(c, data, when) <==>
              || (exists t0: Time, t1: Time :: HourApart(c, data, when, t0, t1))
              || (AuthorizedUntil(c, data).Some? && Passes(c, data, when, AuthorizedUntil(c, data).value))
              || Passes(c, data, when, -DEFAULT_LIFETIME)
  {
    if Lapses(c, data, when) {
      var t0: Time, t1: Time :| LapsesAt(c, data, when, t0, t1);
      UnstatedLapse(c, data, when, t0, t1);
    }
    if t0: Time, t1: Time :| HourApart(c, data, when, t0, t1) {
      UnstatedInAnHour(c, data, t0);
      assert LapsesAt(c, data, when, t0, t1);
    }
    if AuthorizedUntil(c, data).Some? && Passes(c, data, when, AuthorizedUntil(c, data).value) {
      var until := AuthorizedUntil(c, data).value;
      UnstatedInAnHour(c, data, until);
      assert LapsesAt(c, data, when, until, until);
    }
    if Passes(c, data, when, -DEFAULT_LIFETIME) {
      UnstatedInAnHour(c, data, -DEFAULT_LIFETIME);
      assert LapsesAt(c, data, when, -DEFAULT_LIFETIME, -DEFAULT_LIFETIME);
    }
  }

  /** Under a clock that reads no negative instants the last case does not arise. */
  lemma UnstatedDataLapsesInTime(c: Crypto, data: Doc, when: Time -> bool)
    requires !ExpiryStated(data) && forall t: Time :: when(t) ==> 0 <= t
    ensures Lapses(c, data, when) <==>
              || (exists t0: Time, t1: Time :: HourApart(c, data, when, t0, t1))
              || (AuthorizedUntil(c, data).Some? && Passes(c, data, when, AuthorizedUntil(c, data).value))
  {
    UnstatedDataLapses(c, data, when);
  }

  lemma UnstatedInAnHour(c: Crypto, data: Doc, now: Time)
    requires !ExpiryStated(data)
    ensures DataExpiry(c, data, now) <= now + DEFAULT_LIFETIME
    ensures AuthorizedUntil(c, data).Some? ==> DataExpiry(c, data, now) <= AuthorizedUntil(c, data).value
    ensures now == -DEFAULT_LIFETIME ==> DataExpiry(c, data, now) <= now
  {
    if now + DEFAULT_LIFETIME != 0 {
      UnstatedExpiry(c, data, now);
    }
  }

  lemma UnstatedLapse(c: Crypto, data: Doc, when: Time -> bool, t0: Time, t1: Time)
    requires !ExpiryStated(data) && LapsesAt(c, data, when, t0, t1)
    ensures || HourApart(c, data, when, t0, t1)
            || (AuthorizedUntil(c, data).Some? && Passes(c, data, when, AuthorizedUntil(c, data).value))
            || Passes(c, data, when, -DEFAULT_LIFETIME)
  {
    PassesInTime(c, data, when, t1);
    if t0 + DEFAULT_LIFETIME != 0 && t1 + DEFAULT_LIFETIME != 0 {
      UnstatedExpiry(c, data, t0);
      UnstatedExpiry(c, data, t1);
    }
  }
}
