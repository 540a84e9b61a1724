/**
 What the ledger promises over whole runs: retention and the bound on grants, closed terminal
 states, fencing, lease exclusion, the frame of every transaction and the integrity MAC.
 */
module LedgerGuarantees {
  import opened Clock
  import opened Wrappers
  import opened ReplayLedger
  import opened LedgerProtocol

  ghost predicate Reachable(hmac: Hmac, k: Key, terms: Terms, w: World) {
    exists start: World, es: seq<Event> ::
      Start(k, start) && Admitted(hmac, k, terms, start, es) && w == Run(hmac, k, start, es)
  }

  lemma ReachableInv(hmac: Hmac, k: Key, terms: Terms, w: World)
    requires Reachable(hmac, k, terms, w)
    ensures k != "" && Inv(k, terms, w)
  {
    var start, es :| Start(k, start) && Admitted(hmac, k, terms, start, es) && w == Run(hmac, k, start, es);
    InvHolds(hmac, k, terms, start, es);
  }

  // ---------------------------------------------------------------- retention

  /** In no run is the watched request granted more than twice. */
  ghost predicate GrantsBounded(hmac: Hmac, k: Key, terms: Terms) {
    forall start: World, es: seq<Event> ::
      Start(k, start) && Admitted(hmac, k, terms, start, es) ==>
        |Tokens(Run(hmac, k, start, es).history)| <= MAX_REQUEST_ATTEMPTS
  }

  function BeginAt(k: Key, at: Time, token: Token): Event {
    Begin(k, None, at, at, Meta("", "", ""), token)
  }

  /** A token no token in the list is as long as. */
  function Longer(tokens: seq<Token>): (token: Token)
    ensures token != "" && forall t <- tokens :: |t| < |token|
  {
    if tokens == [] then "x" else tokens[0] + Longer(tokens[1..])
  }

  /** No begin on `k` issues a token that was granted before. */
  ghost predicate NewTokens(hmac: Hmac, k: Key, w: World, es: seq<Event>)
    decreases |es|
  {
    es == [] ||
    ((es[0].key == k && es[0].Begin? ==> es[0].issued !in Tokens(w.history))
     && NewTokens(hmac, k, Apply(hmac, k, w, es[0]), es[1..]))
  }

  /** The begin at the instant of expiry finds the row purged. */
  lemma BoundaryBegin(hmac: Hmac, k: Key, terms: Terms, w: World, token: Token)
    requires k != "" && terms.soonest <= terms.last && terms.soonest <= terms.latest && w.clock <= terms.soonest
    requires k in w.table ==> w.table[k].body.expiresAt <= terms.soonest
    requires token != ""
    ensures Admissible(k, terms, w, BeginAt(k, terms.soonest, token))
    ensures var w' := Apply(hmac, k, w, BeginAt(k, terms.soonest, token));
            && w'.clock == terms.soonest && k in w'.table && w'.table[k].body.expiresAt == terms.soonest
            && |Tokens(w'.history)| == |Tokens(w.history)| + 1
  {
    TokensAppend(w.history, [Grant(token, terms.soonest)]);
  }

  /** So such begins, each with a new token, are granted without end. */
  lemma {:induction false} BoundaryBeginsAreAllGranted(hmac: Hmac, k: Key, terms: Terms, w: World, n: nat)
    returns (es: seq<Event>)
    requires k != "" && terms.soonest <= terms.last && terms.soonest <= terms.latest && w.clock <= terms.soonest
    requires k in w.table ==> w.table[k].body.expiresAt <= terms.soonest
    ensures Admitted(hmac, k, terms, w, es) && NewTokens(hmac, k, w, es)
    ensures |Tokens(Run(hmac, k, w, es).history)| == |Tokens(w.history)| + n
    decreases n
  {
    if n == 0 {
      es := [];
    } else {
      var e := BeginAt(k, terms.soonest, Longer(Tokens(w.history)));
      BoundaryBegin(hmac, k, terms, w, e.issued);
      var rest := BoundaryBeginsAreAllGranted(hmac, k, terms, Apply(hmac, k, w, e), n - 1);
      es := [e] + rest;
      assert es[0] == e && es[1..] == rest;
    }
  }

  /** The bound holds of every run exactly when begins are admitted strictly before the soonest expiry. */
  lemma RetentionExact(hmac: Hmac, k: Key, terms: Terms)
    requires k != "" && terms.soonest <= terms.latest
    ensures GrantsBounded(hmac, k, terms) <==> terms.last < terms.soonest
  {
    if terms.last < terms.soonest {
      forall start: World, es: seq<Event>
        | Start(k, start) && Admitted(hmac, k, terms, start, es)
        ensures |Tokens(Run(hmac, k, start, es).history)| <= MAX_REQUEST_ATTEMPTS
      {
        InvHolds(hmac, k, terms, start, es);
      }
    } else {
      var start := World(map[], terms.soonest, []);
      var es := BoundaryBeginsAreAllGranted(hmac, k, terms, start, 3);
      assert Start(k, start);
    }
  }

  /** Once granted, the row is there, whatever else is purged, until the soonest expiry its begins state; and
      it states one of theirs. When they all state the same expiry, the row has it and stays until then. */
  lemma RetentionCoversValidity(hmac: Hmac, k: Key, terms: Terms, w: World)
    requires Reachable(hmac, k, terms, w)
    ensures w.history != [] && w.clock < terms.soonest ==>
              k in w.table && terms.soonest <= w.table[k].body.expiresAt <= terms.latest
  {
    ReachableInv(hmac, k, terms, w);
  }

  /** How many grants the row has had since it was made, when it had `n` before the event: a grant that finds
      no live row makes a new one. */
  function GrantsOfRow(hmac: Hmac, k: Key, t: Table, n: nat, e: Event): nat {
    if e.key == k && IsGranted(hmac, t, e) then (if k in Purge(t, e.now) then n + 1 else 1) else n
  }

  function GrantsSinceMade(hmac: Hmac, k: Key, t: Table, n: nat, es: seq<Event>): nat
    decreases |es|
  {
    if es == [] then n
    else GrantsSinceMade(hmac, k, TableAfter(hmac, t, es[0]), GrantsOfRow(hmac, k, t, n, es[0]), es[1..])
  }

  lemma AttemptsAreGrants(hmac: Hmac, k: Key, terms: Terms, w: World, n: nat, e: Event)
    requires k != "" && Inv(k, terms, w) && Admissible(k, terms, w, e)
    requires k in w.table ==> w.table[k].body.attempts == n
    ensures var t' := TableAfter(hmac, w.table, e);
            k in t' ==> t'[k].body.attempts == GrantsOfRow(hmac, k, w.table, n, e)
  {
    if e.key != k {
      TransactionLeaves(hmac, k, w.table, e);
    }
  }

  lemma {:induction false} AttemptsCount(hmac: Hmac, k: Key, terms: Terms, w: World, n: nat, es: seq<Event>)
    requires k != "" && Inv(k, terms, w) && Admitted(hmac, k, terms, w, es)
    requires k in w.table ==> w.table[k].body.attempts == n
    ensures var w' := Run(hmac, k, w, es);
            k in w'.table ==> w'.table[k].body.attempts == GrantsSinceMade(hmac, k, w.table, n, es)
    decreases |es|
  {
    if es != [] {
      AttemptsAreGrants(hmac, k, terms, w, n, es[0]);
      InvPreserved(hmac, k, terms, w, es[0]);
      AttemptsCount(hmac, k, terms, Apply(hmac, k, w, es[0]), GrantsOfRow(hmac, k, w.table, n, es[0]), es[1..]);
    }
  }

  /** The counters of every row that any run reaches: one attempt for each grant since the row was made, within
      the cap, which a final failure has reached. Where begins come before every expiry the row is made once. */
  lemma RowsCountGrants(hmac: Hmac, k: Key, terms: Terms, start: World, es: seq<Event>)
    requires Start(k, start) && Admitted(hmac, k, terms, start, es) && k in Run(hmac, k, start, es).table
    ensures var w := Run(hmac, k, start, es); var b := w.table[k].body;
            && b.attempts == GrantsSinceMade(hmac, k, start.table, 0, es)
            && 1 <= b.attempts <= b.maxAttempts == MAX_REQUEST_ATTEMPTS
            && (b.state == FinalFailure ==> b.attempts == b.maxAttempts)
            && (b.state == RetryableFailure ==> b.attempts < b.maxAttempts)
            && (Timely(terms) ==> b.attempts == |Tokens(w.history)|)
  {
    InvHolds(hmac, k, terms, start, es);
    AttemptsCount(hmac, k, terms, start, 0, es);
  }

  // ---------------------------------------------------------------- terminal states

  predicate Terminal(s: State) {
    s == Completed || s == FinalFailure
  }

  ghost predicate Settled(k: Key, terms: Terms, w: World) {
    if k in w.table then Terminal(w.table[k].body.state) else terms.soonest <= w.clock
  }

  lemma SettledStep(hmac: Hmac, k: Key, terms: Terms, w: World, e: Event)
    requires k != "" && terms.last < terms.soonest
    requires Inv(k, terms, w) && Admissible(k, terms, w, e) && Settled(k, terms, w)
    ensures Settled(k, terms, Apply(hmac, k, w, e))
    ensures Tokens(Apply(hmac, k, w, e).history) == Tokens(w.history)
  {
    TokensAppend(w.history, Recorded(hmac, k, w.table, e));
    if e.key != k {
      TransactionLeaves(hmac, k, w.table, e);
    } else if e.Begin? {
      SettledBegin(hmac, k, terms, w, e);
    } else if e.Finalize? {
      SettledFinalize(hmac, k, terms, w, e);
    }
  }

  lemma SettledBegin(hmac: Hmac, k: Key, terms: Terms, w: World, e: Event)
    requires k != "" && terms.last < terms.soonest && Inv(k, terms, w) && Admissible(k, terms, w, e)
    requires Settled(k, terms, w) && e.key == k && e.Begin?
    ensures Settled(k, terms, Apply(hmac, k, w, e)) && !IsGranted(hmac, w.table, e)
  {
  }

  lemma SettledFinalize(hmac: Hmac, k: Key, terms: Terms, w: World, e: Event)
    requires k != "" && terms.last < terms.soonest && Inv(k, terms, w) && Admissible(k, terms, w, e)
    requires Settled(k, terms, w) && e.key == k && e.Finalize?
    ensures Settled(k, terms, Apply(hmac, k, w, e))
  {
  }

  lemma {:induction false} SettledRun(hmac: Hmac, k: Key, terms: Terms, w: World, es: seq<Event>)
    requires k != "" && terms.last < terms.soonest
    requires Inv(k, terms, w) && Admitted(hmac, k, terms, w, es) && Settled(k, terms, w)
    ensures Settled(k, terms, Run(hmac, k, w, es))
    ensures Tokens(Run(hmac, k, w, es).history) == Tokens(w.history)
    decreases |es|
  {
    if es != [] {
      InvPreserved(hmac, k, terms, w, es[0]);
      SettledStep(hmac, k, terms, w, es[0]);
      SettledRun(hmac, k, terms, Apply(hmac, k, w, es[0]), es[1..]);
    }
  }

  lemma TerminalStaysTerminal(hmac: Hmac, k: Key, terms: Terms, start: World, es: seq<Event>, more: seq<Event>)
    requires Timely(terms) && Start(k, start) && Admitted(hmac, k, terms, start, es + more)
    requires var w := Run(hmac, k, start, es); k in w.table && Terminal(w.table[k].body.state)
    ensures StaysClosed(k, Run(hmac, k, start, es), Run(hmac, k, start, es + more))
  {
    AdmittedThen(hmac, k, terms, start, es, more);
    InvHolds(hmac, k, terms, start, es);
    SettledRun(hmac, k, terms, Run(hmac, k, start, es), more);
  }

  /** The row, while it exists, is in a terminal state, and nobody was granted again. */
  ghost predicate StaysClosed(k: Key, w: World, w': World) {
    (k in w'.table ==> Terminal(w'.table[k].body.state)) && Tokens(w'.history) == Tokens(w.history)
  }

  /** In every continuation of every run that reached COMPLETED or FINAL_FAILURE. */
  ghost predicate TerminalIsClosed(hmac: Hmac, k: Key, terms: Terms) {
    forall start: World, es: seq<Event>, more: seq<Event> ::
      Start(k, start) && Admitted(hmac, k, terms, start, es + more)
      && k in Run(hmac, k, start, es).table && Terminal(Run(hmac, k, start, es).table[k].body.state) ==>
        StaysClosed(k, Run(hmac, k, start, es), Run(hmac, k, start, es + more))
  }

  /** COMPLETED and FINAL_FAILURE are closed in all runs exactly when every begin comes before every expiry. */
  lemma TerminalStatesAreClosed(hmac: Hmac, k: Key, terms: Terms)
    requires k != "" && terms.soonest <= terms.latest
    ensures TerminalIsClosed(hmac, k, terms) <==> terms.last < terms.soonest
  {
    if terms.last < terms.soonest {
      forall start: World, es: seq<Event>, more: seq<Event>
        | Start(k, start) && Admitted(hmac, k, terms, start, es + more)
          && k in Run(hmac, k, start, es).table && Terminal(Run(hmac, k, start, es).table[k].body.state)
        ensures StaysClosed(k, Run(hmac, k, start, es), Run(hmac, k, start, es + more))
      {
        TerminalStaysTerminal(hmac, k, terms, start, es, more);
      }
    } else {
      var at := terms.soonest;
      var es, stale := CompletedRun(k, None, at, at, at), StaleFinish(k, None, at);
      StaleFinalizeReopens(hmac, k, terms, None, at, at, at);
      assert !StaysClosed(k, Run(hmac, k, World(map[], at, []), es), Run(hmac, k, World(map[], at, []), es + [stale]));
    }
  }

  // ---------------------------------------------------------------- a stale worker

  /** A grant, another after the row of the first has run out, which is completed. */
  function CompletedRun(k: Key, secret: Secret, first: Time, expiry: Time, later: Time): seq<Event> {
    [Begin(k, secret, first, expiry, Meta("", "", ""), "a"), Begin(k, secret, expiry, later, Meta("", "", ""), "b"),
     Finalize(k, secret, expiry, Some("b"), Completed, None)]
  }

  /** The first worker's own first finalize, a failure; and one more begin. */
  function StaleFinish(k: Key, secret: Secret, at: Time): Event {
    Finalize(k, secret, at, Some("a"), RetryableFailure, None)
  }

  function ThirdBegin(k: Key, secret: Secret, at: Time, later: Time): Event {
    Begin(k, secret, at, later, Meta("", "", ""), "c")
  }

  lemma Cons(hmac: Hmac, k: Key, terms: Terms, w: World, e: Event, more: seq<Event>)
    ensures Run(hmac, k, w, [e] + more) == Run(hmac, k, Apply(hmac, k, w, e), more)
    ensures Admitted(hmac, k, terms, w, [e] + more)
       <==> Admissible(k, terms, w, e) && Admitted(hmac, k, terms, Apply(hmac, k, w, e), more)
  {
    assert ([e] + more)[0] == e && ([e] + more)[1..] == more;
  }

  /** A row as it is written by parties who share a secret. */
  ghost predicate RowIs(hmac: Hmac, k: Key, secret: Secret, w: World, b: Body) {
    k in w.table && w.table[k] == Seal(hmac, secret, k, b)
  }

  lemma GrantAnew(hmac: Hmac, k: Key, w: World, e: Event)
    requires k != "" && e.Begin? && e.key == k && k !in Purge(w.table, e.now)
    ensures RowIs(hmac, k, e.secret, Apply(hmac, k, w, e), FirstAttempt(e.expiry, e.meta, e.now, e.issued))
    ensures IsGranted(hmac, w.table, e)
    ensures Tokens(Apply(hmac, k, w, e).history) == Tokens(w.history) + [e.issued]
    ensures Spent(Apply(hmac, k, w, e).history) == Spent(w.history)
  {
    TokensAppend(w.history, [Grant(e.issued, e.now)]);
    SpentAppend(w.history, [Grant(e.issued, e.now)]);
  }

  /** A finalize with the row's token, or of a row that has none. */
  lemma FinishesRow(hmac: Hmac, k: Key, w: World, e: Event, b: Body)
    requires k != "" && (Present(e.secret) ==> NonEmpty(hmac)) && RowIs(hmac, k, e.secret, w, b)
    requires e.Finalize? && e.key == k && e.shown.Some? && (b.token == None || b.token == e.shown)
    requires b.attempts < b.maxAttempts
    ensures RowIs(hmac, k, e.secret, Apply(hmac, k, w, e),
                  b.(kind := Request, state := e.final, updatedAt := e.now, lastError := e.error, token := None))
    ensures Tokens(Apply(hmac, k, w, e).history) == Tokens(w.history)
    ensures Spent(Apply(hmac, k, w, e).history) == Spent(w.history) + {e.shown.value}
  {
    TokensAppend(w.history, Recorded(hmac, k, w.table, e));
    SpentAppend(w.history, Recorded(hmac, k, w.table, e));
  }

  /** The first worker's grant, another when its row has run out, and the second worker's success. */
  lemma SecondWorkerCompletes(hmac: Hmac, k: Key, terms: Terms, secret: Secret, first: Time, expiry: Time, later: Time)
    returns (w: World, b: Body)
    requires k != "" && (Present(secret) ==> NonEmpty(hmac))
    requires first <= expiry <= later && terms.soonest <= expiry && later <= terms.latest && expiry <= terms.last
    ensures Admitted(hmac, k, terms, World(map[], first, []), CompletedRun(k, secret, first, expiry, later))
    ensures w == Run(hmac, k, World(map[], first, []), CompletedRun(k, secret, first, expiry, later))
    ensures w.clock == expiry && Tokens(w.history) == ["a", "b"] && Spent(w.history) == {"b"}
    ensures RowIs(hmac, k, secret, w, b) && b.state == Completed && b.token == None && b.expiresAt == later
    ensures b.attempts == 1 && b.maxAttempts == MAX_REQUEST_ATTEMPTS
  {
    var es := CompletedRun(k, secret, first, expiry, later);
    var w0 := World(map[], first, []);
    var w1 := Apply(hmac, k, w0, es[0]);
    var w2 := Apply(hmac, k, w1, es[1]);
    GrantAnew(hmac, k, w0, es[0]);
    GrantAnew(hmac, k, w1, es[1]);
    FinishesRow(hmac, k, w2, es[2], FirstAttempt(later, Meta("", "", ""), expiry, "b"));
    w := Apply(hmac, k, w2, es[2]);
    b := w.table[k].body;
    Cons(hmac, k, terms, w2, es[2], []);
    Cons(hmac, k, terms, w1, es[1], [es[2]]);
    Cons(hmac, k, terms, w0, es[0], [es[1], es[2]]);
    assert [es[2]] + [] == [es[2]] && [es[1]] + [es[2]] == [es[1], es[2]] && [es[0]] + [es[1], es[2]] == es;
  }

  /** Where a begin may come at an expiry, nobody has to finalize twice for a completed request to be reopened:
      the first worker, whose row has run out, finalizes for the first time after the second worker has, meets
      a row without a token and turns it into a retryable failure; and while the row lives a third begin is
      granted. */
  lemma StaleFinalizeReopens(hmac: Hmac, k: Key, terms: Terms, secret: Secret, first: Time, expiry: Time, later: Time)
    requires k != "" && (Present(secret) ==> NonEmpty(hmac))
    requires first <= expiry <= later && terms.soonest <= expiry && later <= terms.latest && expiry <= terms.last
    ensures var es := CompletedRun(k, secret, first, expiry, later);
            var w0 := World(map[], first, []);
            var w, w' := Run(hmac, k, w0, es), Run(hmac, k, w0, es + [StaleFinish(k, secret, expiry)]);
            && Start(k, w0) && Admitted(hmac, k, terms, w0, es + [StaleFinish(k, secret, expiry)])
            && Admissible(k, terms, w', ThirdBegin(k, secret, expiry, later))
            && k in w.table && w.table[k].body.state == Completed && w.table[k].body.expiresAt == later
            && k in w'.table && w'.table[k].body.state == RetryableFailure
            && IsGranted(hmac, w'.table, ThirdBegin(k, secret, expiry, later))
  {
    var es, stale := CompletedRun(k, secret, first, expiry, later), StaleFinish(k, secret, expiry);
    var w, b := SecondWorkerCompletes(hmac, k, terms, secret, first, expiry, later);
    FinishesRow(hmac, k, w, stale, b);
    AdmittedThen(hmac, k, terms, World(map[], first, []), es, [stale]);
    Cons(hmac, k, terms, w, stale, []);
    assert [stale] + [] == [stale];
    RetryIsGranted(hmac, k, Apply(hmac, k, w, stale), ThirdBegin(k, secret, expiry, later));
  }

  lemma RetryIsGranted(hmac: Hmac, k: Key, w: World, e: Event)
    requires k != "" && e.Begin? && e.key == k && k in w.table && (Present(e.secret) ==> NonEmpty(hmac))
    requires RowIs(hmac, k, e.secret, w, w.table[k].body)
    requires w.table[k].body.state == RetryableFailure && w.table[k].body.attempts < w.table[k].body.maxAttempts
    ensures IsGranted(hmac, w.table, e)
  {
  }

  lemma {:induction false} AdmittedThen(hmac: Hmac, k: Key, terms: Terms, w: World, es: seq<Event>, more: seq<Event>)
    ensures Admitted(hmac, k, terms, w, es + more)
       <==> Admitted(hmac, k, terms, w, es) && Admitted(hmac, k, terms, Run(hmac, k, w, es), more)
    ensures Run(hmac, k, w, es + more) == Run(hmac, k, Run(hmac, k, w, es), more)
    decreases |es|
  {
    if es == [] {
      assert es + more == more;
    } else {
      assert (es + more)[1..] == es[1..] + more;
      AdmittedThen(hmac, k, terms, Apply(hmac, k, w, es[0]), es[1..], more);
    }
  }

  /** That is the only way: in every run, whatever step takes a live row out of a terminal state is a finalize
      with a token granted before the row was made. */
  lemma OnlyStaleTokensReopen(hmac: Hmac, k: Key, terms: Terms, w: World, e: Event)
    requires Reachable(hmac, k, terms, w) && Admissible(k, terms, w, e)
    requires k in w.table && Terminal(w.table[k].body.state) && e.now < w.table[k].body.expiresAt
    ensures var t' := TableAfter(hmac, w.table, e);
            k in t' && (!Terminal(t'[k].body.state) ==>
              && e.key == k && e.Finalize? && w.table[k].body.attempts == 1 && |Tokens(w.history)| > 1
              && e.shown.Some? && e.shown.value in Tokens(w.history)[..|Tokens(w.history)| - 1])
  {
    ReachableInv(hmac, k, terms, w);
    if e.key != k {
      TransactionLeaves(hmac, k, w.table, e);
    } else if e.Finalize? {
      var tokens := Tokens(w.history);
      var i :| 0 <= i < |tokens| && tokens[i] == e.shown.value;
      if i < |tokens| - 1 {
        assert tokens[..|tokens| - 1][i] == e.shown.value;
      }
    }
  }

  /** Without any discipline, one step reopens a live terminal row exactly when it is a finalize that
      passes the MAC and the fence and whose resulting state is not terminal. */
  lemma ReopenedExactly(hmac: Hmac, t: Table, e: Event, k: Key)
    requires k != "" && k in t && Terminal(t[k].body.state) && e.now < t[k].body.expiresAt
    ensures var t' := TableAfter(hmac, t, e);
            (k in t' && !Terminal(t'[k].body.state)) <==>
              && e.key == k && e.Finalize?
              && Verified(hmac, e.secret, k, t[k]) && !Fenced(t[k].body.token, e.shown)
              && !Terminal(e.final) && !(e.final == RetryableFailure && t[k].body.attempts >= t[k].body.maxAttempts)
  {
    var t' := TableAfter(hmac, t, e);
    if e.key != k {
      assert k in t' ==> t'[k] == t[k];
    }
  }

  /** Even where every begin is in time the discipline is needed: a token that finalizes twice reopens a
      completed request, and the next begin is granted. */
  lemma SecondFinalizeReopens(hmac: Hmac, k: Key, expiry: Time, at: Time)
    requires k != "" && at < expiry
    ensures var t0 := BeginStep(hmac, map[], k, expiry, Meta("", "", ""), None, at, "t").0;
            var t1 := FinalizeStep(hmac, t0, k, Completed, None, None, at, Some("t")).0;
            var t2 := FinalizeStep(hmac, t1, k, RetryableFailure, None, None, at, Some("t")).0;
            && k in t1 && t1[k].body.state == Completed
            && BeginStep(hmac, t2, k, expiry, Meta("", "", ""), None, at, "u").1 == Granted("u")
  {
  }

  // ---------------------------------------------------------------- fencing and leases

  /** A request row is RUNNING exactly when it carries a token, the token is that of the latest grant,
      and a heartbeat or finalize that shows any other token changes nothing at all. */
  lemma Fencing(hmac: Hmac, k: Key, terms: Terms, w: World, e: Event)
    requires Reachable(hmac, k, terms, w) && k in w.table
    ensures var b := w.table[k].body;
            && (b.state == Running <==> b.token.Some?)
            && (b.state == Running ==>
                  && Tokens(w.history) != [] && b.token == Some(Tokens(w.history)[|Tokens(w.history)| - 1])
                  && (e.key == k && (e.Heartbeat? || e.Finalize?) && e.shown != b.token ==>
                        TableAfter(hmac, w.table, e) == w.table && Recorded(hmac, k, w.table, e) == []))
  {
    ReachableInv(hmac, k, terms, w);
  }

  /** Any two consecutive grants in any run have a retryable finish between them, or lie a whole
      lease after the earlier grant and after each renewal of it, or the later one comes no sooner than the
      soonest expiry, when the row of the earlier one may have run out. */
  lemma LeaseExclusion(hmac: Hmac, k: Key, terms: Terms, w: World, i: nat, j: nat)
    requires Reachable(hmac, k, terms, w)
    requires i < j < |w.history| && w.history[i].Grant? && w.history[j].Grant? && NoGrantBetween(w.history, i, j)
    ensures || RetryBetween(w.history, i, j) || LeaseBetween(w.history, i, j)
            || terms.soonest <= w.history[j].at <= terms.last
  {
    ReachableInv(hmac, k, terms, w);
  }

  /** One turn of the heartbeat of the holder of a token. */
  predicate IsBeat(k: Key, token: Token, e: Event) {
    e.Heartbeat? && e.key == k && e.shown == Some(token)
  }

  /** The holder tries to renew often enough: no begin comes a lease or more after its last attempt, counted
      from `beat`. It has not finalized, and whoever uses the key has the holder's secret. Nothing is
      assumed of how the attempts end. */
  ghost predicate OnSchedule(k: Key, secret: Secret, token: Token, beat: Time, es: seq<Event>)
    decreases |es|
  {
    es == [] ||
    (var e := es[0];
     && (e.key == k ==>
           && e.secret == secret
           && (e.Begin? ==> e.now - beat < RUNNING_LEASE_SECONDS)
           && (e.Finalize? ==> e.shown != Some(token)))
     && OnSchedule(k, secret, token, if IsBeat(k, token, e) then e.now else beat, es[1..]))
  }

  /** The row, while it exists, is the holder's, was renewed at the last attempt and is authentic. */
  ghost predicate HeldBy(hmac: Hmac, k: Key, terms: Terms, secret: Secret, token: Token, beat: Time, w: World) {
    if k in w.table then
      var b := w.table[k].body;
      b.state == Running && b.token == Some(token) && beat <= b.updatedAt && w.table[k] == Seal(hmac, secret, k, b)
    else terms.soonest <= w.clock
  }

  /** Every attempt to renew succeeds for as long as the row exists. */
  ghost predicate BeatsWritten(hmac: Hmac, k: Key, token: Token, w: World, es: seq<Event>)
    decreases |es|
  {
    es == [] ||
    ((IsBeat(k, token, es[0]) && k in w.table ==>
        HeartbeatStep(hmac, w.table, k, es[0].secret, es[0].now, es[0].shown).1 == Written)
     && BeatsWritten(hmac, k, token, Apply(hmac, k, w, es[0]), es[1..]))
  }

  lemma HeldHeartbeat(hmac: Hmac, k: Key, terms: Terms, secret: Secret, token: Token, beat: Time, w: World, e: Event)
    requires NonEmpty(hmac) && k != "" && token != "" && HeldBy(hmac, k, terms, secret, token, beat, w)
    requires e.Heartbeat? && e.key == k && e.secret == secret && w.clock <= e.now
    requires k in w.table ==> w.table[k].body.updatedAt <= w.clock
    ensures HeldBy(hmac, k, terms, secret, token, if IsBeat(k, token, e) then e.now else beat, Apply(hmac, k, w, e))
    ensures IsBeat(k, token, e) && k in w.table ==>
              HeartbeatStep(hmac, w.table, k, secret, e.now, e.shown).1 == Written
  {
  }

  lemma HeldBegin(hmac: Hmac, k: Key, terms: Terms, secret: Secret, token: Token, beat: Time, w: World, e: Event)
    requires NonEmpty(hmac) && k != "" && e.now < terms.soonest
    requires HeldBy(hmac, k, terms, secret, token, beat, w) && Admissible(k, terms, w, e)
    requires k in w.table ==> terms.soonest <= w.table[k].body.expiresAt
    requires e.Begin? && e.key == k && e.secret == secret && e.now - beat < RUNNING_LEASE_SECONDS
    ensures HeldBy(hmac, k, terms, secret, token, beat, Apply(hmac, k, w, e)) && !IsGranted(hmac, w.table, e)
  {
  }

  lemma HeldFinalize(hmac: Hmac, k: Key, terms: Terms, secret: Secret, token: Token, beat: Time, w: World, e: Event)
    requires k != "" && token != "" && HeldBy(hmac, k, terms, secret, token, beat, w)
    requires e.Finalize? && e.key == k && e.shown != Some(token) && w.clock <= e.now
    ensures HeldBy(hmac, k, terms, secret, token, beat, Apply(hmac, k, w, e))
  {
  }

  lemma HolderStep(hmac: Hmac, k: Key, terms: Terms, secret: Secret, token: Token, beat: Time, w: World, e: Event)
    requires NonEmpty(hmac) && k != "" && token != "" && BeginsBefore(k, terms.soonest, [e])
    requires Inv(k, terms, w) && Admissible(k, terms, w, e) && HeldBy(hmac, k, terms, secret, token, beat, w)
    requires OnSchedule(k, secret, token, beat, [e])
    ensures HeldBy(hmac, k, terms, secret, token, if IsBeat(k, token, e) then e.now else beat, Apply(hmac, k, w, e))
    ensures Tokens(Apply(hmac, k, w, e).history) == Tokens(w.history)
    ensures IsBeat(k, token, e) && k in w.table ==>
              HeartbeatStep(hmac, w.table, k, e.secret, e.now, e.shown).1 == Written
  {
    TokensAppend(w.history, Recorded(hmac, k, w.table, e));
    if e.key != k {
      TransactionLeaves(hmac, k, w.table, e);
    } else if e.Begin? {
      HeldBegin(hmac, k, terms, secret, token, beat, w, e);
    } else if e.Heartbeat? {
      HeldHeartbeat(hmac, k, terms, secret, token, beat, w, e);
    } else if e.Finalize? {
      HeldFinalize(hmac, k, terms, secret, token, beat, w, e);
    }
  }

  /** No more begins of the request come once a row for it may have run out. */
  ghost predicate BeginsBefore(k: Key, soonest: Time, es: seq<Event>) {
    forall e <- es :: e.key == k && e.Begin? ==> e.now < soonest
  }

  /** A holder who tries to renew in time succeeds each time and is never displaced: until the request
      expires the row carries its token, and no other worker is granted. */
  lemma {:induction false} RenewingHolderIsNeverDisplaced(hmac: Hmac, k: Key, terms: Terms, secret: Secret,
                                                          token: Token, beat: Time, w: World, es: seq<Event>)
    returns (latest: Time)
    requires NonEmpty(hmac) && k != "" && token != "" && BeginsBefore(k, terms.soonest, es)
    requires Inv(k, terms, w) && Admitted(hmac, k, terms, w, es)
    requires HeldBy(hmac, k, terms, secret, token, beat, w) && OnSchedule(k, secret, token, beat, es)
    ensures BeatsWritten(hmac, k, token, w, es)
    ensures HeldBy(hmac, k, terms, secret, token, latest, Run(hmac, k, w, es))
    ensures Tokens(Run(hmac, k, w, es).history) == Tokens(w.history)
    decreases |es|
  {
    latest := beat;
    if es != [] {
      var e := es[0];
      InvPreserved(hmac, k, terms, w, e);
      OnlyFirst(k, terms.soonest, secret, token, beat, es);
      HolderStep(hmac, k, terms, secret, token, beat, w, e);
      latest := RenewingHolderIsNeverDisplaced(hmac, k, terms, secret, token,
                                               if IsBeat(k, token, e) then e.now else beat, Apply(hmac, k, w, e),
                                               es[1..]);
    }
  }

  lemma OnlyFirst(k: Key, soonest: Time, secret: Secret, token: Token, beat: Time, es: seq<Event>)
    requires es != [] && BeginsBefore(k, soonest, es) && OnSchedule(k, secret, token, beat, es)
    ensures BeginsBefore(k, soonest, [es[0]]) && OnSchedule(k, secret, token, beat, [es[0]])
    ensures BeginsBefore(k, soonest, es[1..])
  {
    assert [es[0]][1..] == [];
  }

  /** A worker holds what it is granted, from that instant. */
  lemma GrantedIsHeld(hmac: Hmac, k: Key, terms: Terms, w: World, e: Event)
    requires e.Begin? && e.key == k && IsGranted(hmac, w.table, e)
    ensures HeldBy(hmac, k, terms, e.secret, e.issued, e.now, Apply(hmac, k, w, e))
  {
  }

  // ---------------------------------------------------------------- frame

  predicate IntegrityFails(hmac: Hmac, t: Table, e: Event) {
    match e
    case Begin(key, secret, now, expiry, meta, issued) =>
      BeginStep(hmac, t, key, expiry, meta, secret, now, issued).1 == BeginIntegrityError
    case Heartbeat(key, secret, now, shown) =>
      HeartbeatStep(hmac, t, key, secret, now, shown).1 == IntegrityError
    case Finalize(key, secret, now, shown, final, error) =>
      FinalizeStep(hmac, t, key, final, error, secret, now, shown).1 == IntegrityError
    case Consume(key, secret, now, meta, expires) =>
      ConsumeStep(hmac, t, key, meta, expires, secret, now).1 == ConsumeIntegrityError
  }

  /** Begin and consume commit their purge unless the key is missing, the result key's secret is
      missing, or the MAC check raises. */
  predicate Purges(hmac: Hmac, t: Table, e: Event) {
    && (e.Begin? || (e.Consume? && Present(e.secret)))
    && e.key != "" && !IntegrityFails(hmac, t, e)
  }

  /** Every transaction changes its own key only, apart from purging exactly the expired rows; and it
      never extends a surviving row's expiry or forgets when the row was first seen. */
  lemma TransactionFrame(hmac: Hmac, t: Table, e: Event, k: Key)
    ensures var t' := TableAfter(hmac, t, e);
            var p := if Purges(hmac, t, e) then Purge(t, e.now) else t;
            && (k != e.key ==> (k in t' <==> k in p) && (k in p ==> t'[k] == t[k]))
            && (k in p ==> k in t' && t'[k].body.expiresAt <= t[k].body.expiresAt
                           && t'[k].body.firstSeenAt == t[k].body.firstSeenAt
                           && t[k].body.attempts <= t'[k].body.attempts <= t[k].body.attempts + 1)
            && (k in t' && (k !in t || t'[k] != t[k]) ==> t'[k] == Seal(hmac, e.secret, k, t'[k].body))
  {
  }

  // ---------------------------------------------------------------- integrity

  /** Digests are not the empty string. */
  ghost predicate NonEmpty(hmac: Hmac) {
    forall s: string, k: Key, b: Body :: hmac(s, k, b) != ""
  }

  /** No two records have the same MAC, be it under one secret or under two. */
  ghost predicate Injective(hmac: Hmac) {
    forall s: string, k: Key, b: Body, s': string, k': Key, b': Body {:trigger hmac(s, k, b), hmac(s', k', b')} ::
      hmac(s, k, b) == hmac(s', k', b') ==> s == s' && k == k' && b == b'
  }

  ghost predicate SealedBy(hmac: Hmac, secret: Secret, t: Table) {
    forall k :: k in t ==> t[k] == Seal(hmac, secret, k, t[k].body)
  }

  function RunTable(hmac: Hmac, t: Table, es: seq<Event>): Table
    decreases |es|
  {
    if es == [] then t else RunTable(hmac, TableAfter(hmac, t, es[0]), es[1..])
  }

  lemma SealedStep(hmac: Hmac, secret: Secret, t: Table, e: Event)
    requires NonEmpty(hmac) && SealedBy(hmac, secret, t) && e.secret == secret
    ensures SealedBy(hmac, secret, TableAfter(hmac, t, e)) && !IntegrityFails(hmac, t, e)
  {
    var t' := TableAfter(hmac, t, e);
    forall k | k in t' ensures t'[k] == Seal(hmac, secret, k, t'[k].body) {
      TransactionFrame(hmac, t, e, k);
    }
  }

  /** Parties who share one secret always find their rows authentic, over any run. */
  lemma {:induction false} HonestRowsVerify(hmac: Hmac, secret: Secret, t: Table, es: seq<Event>, e: Event)
    requires NonEmpty(hmac) && SealedBy(hmac, secret, t)
    requires e.secret == secret && forall i :: 0 <= i < |es| ==> es[i].secret == secret
    ensures SealedBy(hmac, secret, RunTable(hmac, t, es)) && !IntegrityFails(hmac, RunTable(hmac, t, es), e)
    decreases |es|
  {
    if es == [] {
      SealedStep(hmac, secret, t, e);
    } else {
      SealedStep(hmac, secret, t, es[0]);
      HonestRowsVerify(hmac, secret, TableAfter(hmac, t, es[0]), es[1..], e);
    }
  }

  /** A party without the key or, for a result, without a secret is turned away before the row is looked at. */
  predicate LooksAtRow(t: Table, e: Event) {
    && e.key != "" && e.key in t
    && (e.Begin? || e.Consume? ==> e.now < t[e.key].body.expiresAt)
    && (e.Consume? ==> Present(e.secret))
  }

  /** A transaction is refused for integrity exactly when it looks at a row whose MAC does not verify under
      the secret, and then the table is left as it was. */
  lemma IntegrityExactly(hmac: Hmac, t: Table, e: Event)
    ensures IntegrityFails(hmac, t, e) <==> LooksAtRow(t, e) && !Verified(hmac, e.secret, e.key, t[e.key])
    ensures IntegrityFails(hmac, t, e) ==> TableAfter(hmac, t, e) == t
  {
  }

  /** A row verifies under a secret exactly when it carries the MAC made with that secret for its replay key
      and its body. So a row that carries none, or one made for another body, taken from another replay key
      or made with another secret, is refused by every transaction that looks at it. */
  lemma TamperedRowIsRefused(hmac: Hmac, secret: string, t: Table, e: Event)
    requires Injective(hmac) && NonEmpty(hmac) && secret != ""
    requires e.secret == Some(secret) && LooksAtRow(t, e)
    ensures IntegrityFails(hmac, t, e) <==> t[e.key].mac != Some(hmac(secret, e.key, t[e.key].body))
    ensures forall s: string, source: Key, original: Body ::
              t[e.key].mac == Some(hmac(s, source, original)) ==>
                (IntegrityFails(hmac, t, e) <==> (s, source, original) != (secret, e.key, t[e.key].body))
    ensures IntegrityFails(hmac, t, e) ==> TableAfter(hmac, t, e) == t
  {
    IntegrityExactly(hmac, t, e);
    assert hmac(secret, e.key, t[e.key].body) != "";
  }
}
