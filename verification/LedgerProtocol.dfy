/**
 Runs of the ledger. Any number of workers and coordinators interleave; every transaction is one
 step, and the steps may be of any kind, under any secret and on any key.

 A run is watched through one request key `k`. Only steps on `k` are constrained: begins carry the
 request's own replay expiry and are admitted no later than a last instant (`Terms`), and a worker finalizes
 only with a token it was granted and with which no finalize has succeeded yet. The world keeps the
 history of what succeeded on `k`; the history is what the results are about.
 */
module LedgerProtocol {
  import opened Clock
  import opened Wrappers
  import opened ReplayLedger

  datatype Event =
    | Begin(key: Key, secret: Secret, now: Time, expiry: Time, meta: Meta, issued: Token)
    | Heartbeat(key: Key, secret: Secret, now: Time, shown: Option<Token>)
    | Finalize(key: Key, secret: Secret, now: Time, shown: Option<Token>, final: State, error: Option<string>)
    | Consume(key: Key, secret: Secret, now: Time, meta: Meta, expires: Option<Time>)

  /** What succeeded on the watched key, and when. */
  datatype Entry =
    | Grant(token: Token, at: Time)
    | Renewal(at: Time)
    | Finish(shown: Option<Token>, state: State, at: Time)

  datatype World = World(table: Table, clock: Time, history: seq<Entry>)

  // ---------------------------------------------------------------- steps

  function TableAfter(hmac: Hmac, t: Table, e: Event): Table {
    match e
    case Begin(key, secret, now, expiry, meta, issued) => BeginStep(hmac, t, key, expiry, meta, secret, now, issued).0
    case Heartbeat(key, secret, now, shown) => HeartbeatStep(hmac, t, key, secret, now, shown).0
    case Finalize(key, secret, now, shown, final, error) =>
      FinalizeStep(hmac, t, key, final, error, secret, now, shown).0
    case Consume(key, secret, now, meta, expires) => ConsumeStep(hmac, t, key, meta, expires, secret, now).0
  }

  predicate IsGranted(hmac: Hmac, t: Table, e: Event) {
    e.Begin? && BeginStep(hmac, t, e.key, e.expiry, e.meta, e.secret, e.now, e.issued).1.Granted?
  }

  /** The entries one step adds to the history of `k`. */
  function Recorded(hmac: Hmac, k: Key, t: Table, e: Event): seq<Entry> {
    if e.key != k then []
    else if IsGranted(hmac, t, e) then [Grant(e.issued, e.now)]
    else if e.Heartbeat? && HeartbeatStep(hmac, t, k, e.secret, e.now, e.shown).1.Written? then [Renewal(e.now)]
    else if e.Finalize? && FinalizeStep(hmac, t, k, e.final, e.error, e.secret, e.now, e.shown).1.Written? then
      [Finish(e.shown, TableAfter(hmac, t, e)[k].body.state, e.now)]
    else []
  }

  function Apply(hmac: Hmac, k: Key, w: World, e: Event): World {
    World(TableAfter(hmac, w.table, e), e.now, w.history + Recorded(hmac, k, w.table, e))
  }

  function Run(hmac: Hmac, k: Key, w: World, es: seq<Event>): World
    decreases |es|
  {
    if es == [] then w else Run(hmac, k, Apply(hmac, k, w, es[0]), es[1..])
  }

  // ---------------------------------------------------------------- reading a history

  function Tokens(h: seq<Entry>): seq<Token> {
    if h == [] then []
    else Tokens(h[..|h| - 1]) + (if h[|h| - 1].Grant? then [h[|h| - 1].token] else [])
  }

  function Spent(h: seq<Entry>): set<Token> {
    set m | 0 <= m < |h| && h[m].Finish? && h[m].shown.Some? :: h[m].shown.value
  }

  lemma TokensAppend(h: seq<Entry>, more: seq<Entry>)
    requires |more| <= 1
    ensures Tokens(h + more)
         == Tokens(h) + (if more != [] && more[0].Grant? then [more[0].token] else [])
  {
    if more == [] {
      assert h + more == h;
    } else {
      assert (h + more)[..|h + more| - 1] == h;
    }
  }

  lemma SpentAppend(h: seq<Entry>, more: seq<Entry>)
    requires |more| <= 1
    ensures Spent(h + more)
         == Spent(h) + (if more != [] && more[0].Finish? && more[0].shown.Some? then {more[0].shown.value} else {})
  {
    var g := h + more;
    forall s | s in Spent(h) ensures s in Spent(g) {
      var m :| 0 <= m < |h| && h[m].Finish? && h[m].shown.Some? && h[m].shown.value == s;
      assert g[m] == h[m];
    }
    if more != [] {
      assert g[|h|] == more[0];
    }
  }

  // ---------------------------------------------------------------- who may take part

  /** What is known of the begins of the watched request: their replay expiries lie between two instants,
      and none comes after a last one. */
  datatype Terms = Terms(soonest: Time, latest: Time, last: Time)

  /** The client discipline on the watched key, and a clock that never goes back. */
  ghost predicate Admissible(k: Key, terms: Terms, w: World, e: Event) {
    && w.clock <= e.now
    && (e.key == k ==>
          match e
          case Begin(_, _, now, expiry, _, issued) =>
            terms.soonest <= expiry <= terms.latest && now <= terms.last && issued != ""
          case Heartbeat(_, _, _, _) => true
          case Finalize(_, _, _, shown, final, _) =>
            && (final == Completed || final == RetryableFailure)
            && shown.Some? && shown.value in Tokens(w.history) && shown.value !in Spent(w.history)
          case Consume(_, _, _, _, _) => false)
  }

  ghost predicate Admitted(hmac: Hmac, k: Key, terms: Terms, w: World, es: seq<Event>)
    decreases |es|
  {
    es == [] ||
    (Admissible(k, terms, w, es[0]) && Admitted(hmac, k, terms, Apply(hmac, k, w, es[0]), es[1..]))
  }

  /** Any table at all, as long as it has no row for the watched key. */
  ghost predicate Start(k: Key, w: World) {
    k != "" && k !in w.table && w.history == []
  }

  // ---------------------------------------------------------------- the invariant

  /** Every begin comes before every expiry, so that no row is purged while it could be begun again. */
  predicate Timely(terms: Terms) {
    terms.last < terms.soonest
  }

  ghost predicate RowInv(terms: Terms, b: Body, h: seq<Entry>) {
    var tokens := Tokens(h);
    && b.kind == Request
    && terms.soonest <= b.expiresAt <= terms.latest
    && b.maxAttempts == MAX_REQUEST_ATTEMPTS
    && 1 <= b.attempts <= b.maxAttempts
    && b.attempts <= |tokens|
    && (Timely(terms) ==> b.attempts == |tokens|)
    && b.state != Consumed
    && (b.state == Running <==> b.token.Some?)
    && (b.token.Some? ==> b.token.value == tokens[|tokens| - 1] && b.token.value != "")
    && (b.state == FinalFailure ==> b.attempts == b.maxAttempts)
    && (b.state != Running && b.attempts == 1 ==> tokens[|tokens| - 1] in Spent(h))
    && (b.state == RetryableFailure ==>
          b.attempts == 1 && h[|h| - 1].Finish? && h[|h| - 1].state == RetryableFailure)
    && (forall m :: 0 <= m < |h| ==> h[m].at <= b.updatedAt)
    && LastSays(b, h)
  }

  /** The last entry tells the state of the row: a finish left the state it records, and a running row was last
      written by a grant or a renewal. */
  ghost predicate LastSays(b: Body, h: seq<Entry>) {
    && h != []
    && (h[|h| - 1].Finish? ==> b.state == h[|h| - 1].state && b.state != Running)
    && (!h[|h| - 1].Finish? ==> b.state == FinalFailure || (b.state == Running && h[|h| - 1].at == b.updatedAt))
  }

  ghost predicate Inv(k: Key, terms: Terms, w: World) {
    && (Timely(terms) ==> |Tokens(w.history)| <= MAX_REQUEST_ATTEMPTS)
    && (k in w.table ==>
          && RowInv(terms, w.table[k].body, w.history)
          && w.table[k].body.updatedAt <= w.clock)
    && (k !in w.table ==> w.history == [] || terms.soonest <= w.clock)
    && (forall m :: 0 <= m < |w.history| ==> w.history[m].at <= w.clock)
    && GrantsBy(terms.last, w.history)
    && Separated(terms.soonest, w.history)
  }

  ghost predicate GrantsBy(last: Time, h: seq<Entry>) {
    forall m :: 0 <= m < |h| && h[m].Grant? ==> h[m].at <= last
  }

  /** Between two consecutive grants either a retryable finish is recorded, or a whole lease has
      passed since the earlier grant and since every renewal after it; unless the later one comes when a
      row may have run out. */
  ghost predicate Separated(soonest: Time, h: seq<Entry>) {
    forall i, j :: 0 <= i < j < |h| && h[i].Grant? && h[j].Grant? && NoGrantBetween(h, i, j)
      ==> RetryBetween(h, i, j) || LeaseBetween(h, i, j) || soonest <= h[j].at
  }

  ghost predicate NoGrantBetween(h: seq<Entry>, i: int, j: int)
    requires 0 <= i < j < |h|
  {
    forall m :: i < m < j ==> !h[m].Grant?
  }

  ghost predicate RetryBetween(h: seq<Entry>, i: int, j: int)
    requires 0 <= i < j < |h|
  {
    exists m :: i < m < j && h[m].Finish? && h[m].state == RetryableFailure
  }

  ghost predicate LeaseBetween(h: seq<Entry>, i: int, j: int)
    requires 0 <= i < j < |h|
  {
    forall m :: i <= m < j && !h[m].Finish? ==> RUNNING_LEASE_SECONDS <= h[j].at - h[m].at
  }

  /** What a new entry must satisfy: a grant comes after none, after a retryable finish, a whole lease
      after everything, or when a row may have run out. */
  ghost predicate Follows(soonest: Time, h: seq<Entry>, x: Entry) {
    x.Grant? ==>
      || Tokens(h) == []
      || (h != [] && h[|h| - 1].Finish? && h[|h| - 1].state == RetryableFailure)
      || (forall m :: 0 <= m < |h| ==> RUNNING_LEASE_SECONDS <= x.at - h[m].at)
      || soonest <= x.at
  }

  lemma EarlierPair(soonest: Time, h: seq<Entry>, x: Entry, i: int, j: int)
    requires Separated(soonest, h) && 0 <= i < j < |h| && h[i].Grant? && h[j].Grant? && NoGrantBetween(h + [x], i, j)
    ensures RetryBetween(h + [x], i, j) || LeaseBetween(h + [x], i, j) || soonest <= h[j].at
  {
    var g := h + [x];
    assert forall m :: 0 <= m < |h| ==> g[m] == h[m];
    assert NoGrantBetween(h, i, j);
    if RetryBetween(h, i, j) {
      var m :| i < m < j && h[m].Finish? && h[m].state == RetryableFailure;
      assert g[m] == h[m];
    } else if soonest > h[j].at {
      assert LeaseBetween(h, i, j);
    }
  }

  lemma LastPair(soonest: Time, h: seq<Entry>, x: Entry, i: int)
    requires 0 <= i < |h| && h[i].Grant? && x.Grant? && Follows(soonest, h, x)
    ensures RetryBetween(h + [x], i, |h|) || LeaseBetween(h + [x], i, |h|) || soonest <= x.at
  {
    var g := h + [x];
    assert g[|h|] == x && forall m :: 0 <= m < |h| ==> g[m] == h[m];
    GrantHasToken(h, i);
    if h[|h| - 1].Finish? && h[|h| - 1].state == RetryableFailure {
      assert g[|h| - 1] == h[|h| - 1];
    }
  }

  /** Appending such an entry keeps a separated history separated. */
  lemma SeparatedAppend(soonest: Time, h: seq<Entry>, x: Entry)
    requires Separated(soonest, h) && Follows(soonest, h, x)
    ensures Separated(soonest, h + [x])
  {
    var g := h + [x];
    forall i, j | 0 <= i < j < |g| && g[i].Grant? && g[j].Grant? && NoGrantBetween(g, i, j)
      ensures RetryBetween(g, i, j) || LeaseBetween(g, i, j) || soonest <= g[j].at
    {
      assert g[i] == h[i];
      if j < |h| {
        assert g[j] == h[j];
        EarlierPair(soonest, h, x, i, j);
      } else {
        LastPair(soonest, h, x, i);
      }
    }
  }

  lemma {:induction false} GrantHasToken(h: seq<Entry>, i: nat)
    requires i < |h| && h[i].Grant?
    ensures h[i].token in Tokens(h)
  {
    if i < |h| - 1 {
      GrantHasToken(h[..|h| - 1], i);
    }
  }

  /** A transaction on another key leaves a row alone, or purges it when it is expired. */
  lemma TransactionLeaves(hmac: Hmac, k: Key, t: Table, e: Event)
    requires e.key != k
    ensures var t' := TableAfter(hmac, t, e);
            && (k in t' ==> k in t && t'[k] == t[k])
            && (k in t && k !in t' ==> t[k].body.expiresAt <= e.now)
  {
  }

  /** So it keeps the invariant of the watched key. */
  lemma OtherKeyPreserves(hmac: Hmac, k: Key, terms: Terms, w: World, e: Event)
    requires Inv(k, terms, w) && Admissible(k, terms, w, e) && e.key != k
    ensures Inv(k, terms, Apply(hmac, k, w, e))
  {
    assert w.history + [] == w.history;
    TransactionLeaves(hmac, k, w.table, e);
  }

  lemma BeginPreserves(hmac: Hmac, k: Key, terms: Terms, w: World, e: Event)
    requires k != ""
    requires Inv(k, terms, w) && Admissible(k, terms, w, e) && e.key == k && e.Begin?
    ensures Inv(k, terms, Apply(hmac, k, w, e))
  {
    if IsGranted(hmac, w.table, e) {
      GrantPreserves(hmac, k, terms, w, e);
    } else {
      assert Recorded(hmac, k, w.table, e) == [];
      assert w.history + [] == w.history;
    }
  }

  /** A grant finds no row, a retryable failure, or a lease that ran out. */
  lemma GrantFinds(hmac: Hmac, k: Key, terms: Terms, w: World, e: Event)
    requires k != ""
    requires Inv(k, terms, w) && Admissible(k, terms, w, e) && e.key == k && e.Begin?
    requires IsGranted(hmac, w.table, e)
    ensures k !in w.table ==> w.history == [] || terms.soonest <= e.now
    ensures k in w.table && e.now < w.table[k].body.expiresAt ==>
              var b := w.table[k].body;
              && b.attempts < b.maxAttempts
              && (b.state == RetryableFailure || (b.state == Running && RUNNING_LEASE_SECONDS <= e.now - b.updatedAt))
    ensures k in TableAfter(hmac, w.table, e)
    ensures TableAfter(hmac, w.table, e)[k].body
         == if k in w.table && e.now < w.table[k].body.expiresAt then
              NextAttempt(w.table[k].body, e.expiry, e.meta, e.now, e.issued)
            else FirstAttempt(e.expiry, e.meta, e.now, e.issued)
  {
  }

  lemma GrantPreserves(hmac: Hmac, k: Key, terms: Terms, w: World, e: Event)
    requires k != ""
    requires Inv(k, terms, w) && Admissible(k, terms, w, e) && e.key == k && e.Begin?
    requires IsGranted(hmac, w.table, e)
    ensures Inv(k, terms, Apply(hmac, k, w, e))
  {
    var h, x := w.history, Grant(e.issued, e.now);
    GrantFinds(hmac, k, terms, w, e);
    TokensAppend(h, [x]);
    SpentAppend(h, [x]);
    assert Recorded(hmac, k, w.table, e) == [x];
    GrantedRow(hmac, k, terms, w, e);
    SeparatedAppend(terms.soonest, h, x);
    assert GrantsBy(terms.last, h + [x]);
  }

  /** The row of the grant has an attempt for each grant since the row was last made. */
  lemma GrantedRow(hmac: Hmac, k: Key, terms: Terms, w: World, e: Event)
    requires k != ""
    requires Inv(k, terms, w) && Admissible(k, terms, w, e) && e.key == k && e.Begin?
    requires IsGranted(hmac, w.table, e)
    ensures var h' := w.history + [Grant(e.issued, e.now)]; var t' := TableAfter(hmac, w.table, e);
            && k in t' && RowInv(terms, t'[k].body, h') && t'[k].body.updatedAt == e.now
            && (Timely(terms) ==> |Tokens(h')| <= MAX_REQUEST_ATTEMPTS)
  {
    var h, x := w.history, Grant(e.issued, e.now);
    GrantFinds(hmac, k, terms, w, e);
    TokensAppend(h, [x]);
    SpentAppend(h, [x]);
  }

  lemma HeartbeatPreserves(hmac: Hmac, k: Key, terms: Terms, w: World, e: Event)
    requires k != ""
    requires Inv(k, terms, w) && Admissible(k, terms, w, e) && e.key == k && e.Heartbeat?
    ensures Inv(k, terms, Apply(hmac, k, w, e))
  {
    var h := w.history;
    if HeartbeatStep(hmac, w.table, k, e.secret, e.now, e.shown).1.Written? {
      TokensAppend(h, [Renewal(e.now)]);
      SpentAppend(h, [Renewal(e.now)]);
      SeparatedAppend(terms.soonest, h, Renewal(e.now));
      assert Recorded(hmac, k, w.table, e) == [Renewal(e.now)];
    } else {
      assert h + [] == h;
    }
  }

  lemma FinalizePreserves(hmac: Hmac, k: Key, terms: Terms, w: World, e: Event)
    requires k != ""
    requires Inv(k, terms, w) && Admissible(k, terms, w, e) && e.key == k && e.Finalize?
    ensures Inv(k, terms, Apply(hmac, k, w, e))
  {
    var h := w.history;
    if FinalizeStep(hmac, w.table, k, e.final, e.error, e.secret, e.now, e.shown).1.Written? {
      var x := Finish(e.shown, TableAfter(hmac, w.table, e)[k].body.state, e.now);
      FinishedRow(hmac, k, terms, w, e, x);
      TokensAppend(h, [x]);
      SeparatedAppend(terms.soonest, h, x);
      assert Recorded(hmac, k, w.table, e) == [x];
    } else {
      assert h + [] == h;
    }
  }

  lemma FinishedRow(hmac: Hmac, k: Key, terms: Terms, w: World, e: Event, x: Entry)
    requires k != ""
    requires Inv(k, terms, w) && Admissible(k, terms, w, e) && e.key == k && e.Finalize?
    requires FinalizeStep(hmac, w.table, k, e.final, e.error, e.secret, e.now, e.shown).1.Written?
    requires x == Finish(e.shown, TableAfter(hmac, w.table, e)[k].body.state, e.now)
    ensures var t' := TableAfter(hmac, w.table, e);
            k in t' && RowInv(terms, t'[k].body, w.history + [x]) && t'[k].body.updatedAt == e.now
  {
    TokensAppend(w.history, [x]);
    SpentAppend(w.history, [x]);
  }

  lemma InvPreserved(hmac: Hmac, k: Key, terms: Terms, w: World, e: Event)
    requires k != ""
    requires Inv(k, terms, w) && Admissible(k, terms, w, e)
    ensures Inv(k, terms, Apply(hmac, k, w, e))
  {
    if e.key != k {
      OtherKeyPreserves(hmac, k, terms, w, e);
    } else {
      match e
      case Begin(_, _, _, _, _, _) => BeginPreserves(hmac, k, terms, w, e);
      case Heartbeat(_, _, _, _) => HeartbeatPreserves(hmac, k, terms, w, e);
      case Finalize(_, _, _, _, _, _) => FinalizePreserves(hmac, k, terms, w, e);
    }
  }

  lemma {:induction false} InvHolds(hmac: Hmac, k: Key, terms: Terms, w: World, es: seq<Event>)
    requires k != ""
    requires Inv(k, terms, w) && Admitted(hmac, k, terms, w, es)
    ensures Inv(k, terms, Run(hmac, k, w, es))
    decreases |es|
  {
    if es != [] {
      InvPreserved(hmac, k, terms, w, es[0]);
      InvHolds(hmac, k, terms, Apply(hmac, k, w, es[0]), es[1..]);
    }
  }
}
