/**
 Acceptance of signed worker results: the in-memory nonce cache, and the durable ledger behind it.
 */
module ResultReplay {
  import opened Clock
  import opened Wrappers
  import opened ReplayLedger
  import opened LedgerProtocol
  import M = Messages

  const PROOF_TTL_SECONDS: Time := 300 * SECOND
  const SEEN_NONCE_TTL_SECONDS: Time := 900 * SECOND
  const MAX_SEEN_NONCES: nat := 4096

  // ---------------------------------------------------------------- the durable bound

  predicate IsAccepted(hmac: Hmac, k: Key, t: Table, e: Event) {
    e.Consume? && e.key == k && ConsumeStep(hmac, t, k, e.meta, e.expires, e.secret, e.now).1 == Accepted
  }

  function Acceptances(hmac: Hmac, k: Key, t: Table, es: seq<Event>): nat
    decreases |es|
  {
    if es == [] then 0
    else (if IsAccepted(hmac, k, t, es[0]) then 1 else 0)
         + Acceptances(hmac, k, TableAfter(hmac, t, es[0]), es[1..])
  }

  /** A run under a clock that never goes back, in which the result is presented only between `lo`
      and `hi`, without an expiry of the caller's. Everything else may do as it likes, except that no
      request begins under the result's key. */
  ghost predicate Presented(k: Key, lo: Time, hi: Time, clock: Time, es: seq<Event>)
    decreases |es|
  {
    es == [] ||
    (&& clock <= es[0].now
     && (es[0].key == k ==>
           !es[0].Begin? && (es[0].Consume? ==> es[0].expires == None && lo <= es[0].now <= hi))
     && Presented(k, lo, hi, es[0].now, es[1..]))
  }

  ghost predicate Blocked(k: Key, hi: Time, clock: Time, t: Table) {
    if k in t then hi < t[k].body.expiresAt else hi < clock
  }

  lemma BlockedStep(hmac: Hmac, k: Key, lo: Time, hi: Time, clock: Time, t: Table, e: Event)
    requires clock <= e.now && Blocked(k, hi, clock, t)
    requires e.key == k ==> !e.Begin? && (e.Consume? ==> e.now <= hi)
    ensures Blocked(k, hi, e.now, TableAfter(hmac, t, e)) && !IsAccepted(hmac, k, t, e)
  {
    if e.key != k {
      TransactionLeaves(hmac, k, t, e);
    }
  }

  lemma {:induction false} BlockedStaysBlocked(hmac: Hmac, k: Key, lo: Time, hi: Time, clock: Time,
                                               t: Table, es: seq<Event>)
    requires Presented(k, lo, hi, clock, es) && Blocked(k, hi, clock, t)
    ensures Acceptances(hmac, k, t, es) == 0
    decreases |es|
  {
    if es != [] {
      BlockedStep(hmac, k, lo, hi, clock, t, es[0]);
      BlockedStaysBlocked(hmac, k, lo, hi, es[0].now, TableAfter(hmac, t, es[0]), es[1..]);
    }
  }

  lemma {:induction false} AcceptedOnce(hmac: Hmac, k: Key, lo: Time, hi: Time, clock: Time, t: Table, es: seq<Event>)
    requires hi - lo < RESULT_REPLAY_TTL_SECONDS
    requires Presented(k, lo, hi, clock, es)
    ensures Acceptances(hmac, k, t, es) <= 1
    decreases |es|
  {
    if es != [] {
      var t' := TableAfter(hmac, t, es[0]);
      if IsAccepted(hmac, k, t, es[0]) {
        BlockedStaysBlocked(hmac, k, lo, hi, es[0].now, t', es[1..]);
      } else {
        AcceptedOnce(hmac, k, lo, hi, es[0].now, t', es[1..]);
      }
    }
  }

  ghost predicate AlwaysAcceptedOnce(hmac: Hmac, k: Key, lo: Time, hi: Time) {
    forall clock: Time, t: Table, es: seq<Event> ::
      Presented(k, lo, hi, clock, es) ==> Acceptances(hmac, k, t, es) <= 1
  }

  /** A result that can only be presented between two instants is accepted at most once in every run
      exactly when the instants are less than the ledger's retention apart. The in-memory cache plays
      no part, so clearing it by a restart cannot matter. */
  lemma SingleAcceptanceExact(hmac: Hmac, k: Key, lo: Time, hi: Time)
    requires k != ""
    ensures AlwaysAcceptedOnce(hmac, k, lo, hi) <==> hi - lo < RESULT_REPLAY_TTL_SECONDS
  {
    if hi - lo < RESULT_REPLAY_TTL_SECONDS {
      forall clock: Time, t: Table, es: seq<Event> | Presented(k, lo, hi, clock, es)
        ensures Acceptances(hmac, k, t, es) <= 1
      {
        AcceptedOnce(hmac, k, lo, hi, clock, t, es);
      }
    } else {
      var meta := Meta("", "", "");
      var first := Consume(k, Some("s"), lo, meta, None);
      var second := Consume(k, Some("s"), lo + RESULT_REPLAY_TTL_SECONDS, meta, None);
      var es := [first, second];
      assert es[1..] == [second] && [second][1..] == [];
      assert Presented(k, lo, hi, second.now, []);
      assert Presented(k, lo, hi, first.now, [second]);
      assert Presented(k, lo, hi, lo, es);
      var t1 := TableAfter(hmac, map[], first);
      assert k in t1 && t1[k].body.expiresAt == second.now;
      assert IsAccepted(hmac, k, t1, second);
      assert Acceptances(hmac, k, t1, [second]) == 1;
      assert Acceptances(hmac, k, map[], es) == 2;
    }
  }

  /** An honestly issued result proof is presentable from its issue until its proof expires. */
  lemma HonestResultIsAcceptedOnce(hmac: Hmac, k: Key, issued: Time, clock: Time, t: Table, es: seq<Event>)
    requires Presented(k, issued, issued + PROOF_TTL_SECONDS, clock, es)
    ensures Acceptances(hmac, k, t, es) <= 1
  {
    AcceptedOnce(hmac, k, issued, issued + PROOF_TTL_SECONDS, clock, t, es);
  }

  /** Somebody with a secret consumes the result. */
  predicate Tried(k: Key, es: seq<Event>)
    decreases |es|
  {
    es != [] && ((es[0].Consume? && es[0].key == k && Present(es[0].secret)) || Tried(k, es[1..]))
  }

  /** On a ledger without a row for the result the first try is accepted. */
  lemma {:induction false} AcceptedWhenTried(hmac: Hmac, k: Key, lo: Time, hi: Time, clock: Time, t: Table,
                                             es: seq<Event>)
    requires k != "" && k !in t && Presented(k, lo, hi, clock, es)
    ensures Acceptances(hmac, k, t, es) >= 1 <==> Tried(k, es)
    decreases |es|
  {
    if es != [] && !IsAccepted(hmac, k, t, es[0]) {
      if es[0].key != k {
        TransactionLeaves(hmac, k, t, es[0]);
      }
      AcceptedWhenTried(hmac, k, lo, hi, es[0].now, TableAfter(hmac, t, es[0]), es[1..]);
    }
  }

  // ---------------------------------------------------------------- the nonce cache

  /** A nonce may be any JSON value that a Python set can hold. */
  datatype Stamp = Stamp(nonce: M.Value, at: Time)

  predicate Usable(nonce: M.Value) {
    M.Truthy(nonce) && !nonce.List? && !nonce.Dict?
  }

  function Nonces(s: seq<Stamp>): set<M.Value> {
    set i | 0 <= i < |s| :: s[i].nonce
  }

  ghost predicate Distinct(s: seq<Stamp>) {
    forall i, j :: 0 <= i < j < |s| ==> s[i].nonce != s[j].nonce
  }

  ghost predicate Ordered(s: seq<Stamp>) {
    forall i, j :: 0 <= i < j < |s| ==> s[i].at <= s[j].at
  }

  predicate Stale(s: Stamp, now: Time) {
    s.at <= now - SEEN_NONCE_TTL_SECONDS
  }

  predicate IsSuffix<T(==)>(w: seq<T>, h: seq<T>) {
    |w| <= |h| && forall i :: 0 <= i < |w| ==> w[i] == h[|h| - |w| + i]
  }

  lemma SuffixAt<T>(w: seq<T>, h: seq<T>, n: nat)
    requires IsSuffix(w, h) && n < |w|
    ensures w[|w| - 1 - n] == h[|h| - 1 - n]
  {
  }

  lemma SuffixAppend<T>(w: seq<T>, h: seq<T>, x: T)
    requires IsSuffix(w, h)
    ensures IsSuffix(w + [x], h + [x])
  {
  }

  lemma SuffixTrans<T>(v: seq<T>, w: seq<T>, h: seq<T>)
    requires IsSuffix(v, w) && IsSuffix(w, h)
    ensures IsSuffix(v, h)
  {
  }

  /** `w` is the longest suffix of `h` with at most MAX_SEEN_NONCES stamps, none of them stale. */
  ghost predicate IsWindow(w: seq<Stamp>, h: seq<Stamp>, now: Time) {
    && IsSuffix(w, h)
    && |w| <= MAX_SEEN_NONCES
    && (forall i :: 0 <= i < |w| ==> !Stale(w[i], now))
    && (|w| < |h| ==> |w| == MAX_SEEN_NONCES || Stale(h[|h| - |w| - 1], now))
  }

  lemma WindowElements(w: seq<Stamp>, h: seq<Stamp>, now: Time)
    requires IsWindow(w, h, now)
    ensures forall m :: |h| - |w| <= m < |h| ==> h[m] == w[m - (|h| - |w|)] && !Stale(h[m], now)
  {
  }

  lemma OrderedAppend(w: seq<Stamp>, h: seq<Stamp>, x: Stamp)
    requires IsSuffix(w, h) && Ordered(h) && forall i :: 0 <= i < |h| ==> h[i].at <= x.at
    ensures Ordered(w) && Ordered(w + [x]) && Ordered(h + [x])
  {
  }

  /** An acceptance is in the window exactly when it is less than a quarter of an hour old and among the latest 4096. */
  lemma InWindowExactly(w: seq<Stamp>, h: seq<Stamp>, now: Time, i: nat)
    requires IsWindow(w, h, now) && Ordered(h) && i < |h|
    ensures |h| - |w| <= i <==> now - 900 * SECOND < h[i].at && |h| - i <= 4096
  {
    WindowElements(w, h, now);
  }

  /** There is only one window. */
  lemma WindowUnique(v: seq<Stamp>, w: seq<Stamp>, h: seq<Stamp>, now: Time)
    requires IsWindow(v, h, now) && IsWindow(w, h, now)
    ensures v == w
  {
    WindowElements(v, h, now);
    WindowElements(w, h, now);
  }

  /** Pruning a window again, later, gives the later window of the same history. */
  lemma WindowOfWindow(v: seq<Stamp>, w: seq<Stamp>, h: seq<Stamp>, earlier: Time, now: Time)
    requires earlier <= now && IsWindow(w, h, earlier) && IsWindow(v, w, now)
    ensures IsWindow(v, h, now)
  {
    SuffixTrans(v, w, h);
    if |v| < |w| {
      SuffixAt(w, h, |v|);
    }
  }

  /** Appending to the window and pruning is the window of the longer history. */
  lemma WindowAppend(v: seq<Stamp>, w: seq<Stamp>, h: seq<Stamp>, x: Stamp)
    requires IsWindow(w, h, x.at) && IsWindow(v, w + [x], x.at)
    ensures IsWindow(v, h + [x], x.at)
  {
    SuffixAppend(w, h, x);
    SuffixTrans(v, w + [x], h + [x]);
    if |v| <= |w| {
      SuffixAt(w + [x], h + [x], |v|);
    } else if |w| < |h| {
      assert (h + [x])[|h| - |w| - 1] == h[|h| - |w| - 1];
    }
  }

  /** An accepted nonce occurred before only a whole TTL ago or more than a cacheful ago. */
  ghost predicate Spaced(h: seq<Stamp>) {
    forall i, j :: 0 <= i < j < |h| && h[i].nonce == h[j].nonce ==>
      SEEN_NONCE_TTL_SECONDS <= h[j].at - h[i].at || MAX_SEEN_NONCES < j - i
  }

  lemma SpacedAppend(h: seq<Stamp>, w: seq<Stamp>, x: Stamp)
    requires Spaced(h) && Ordered(h) && IsWindow(w, h, x.at) && x.nonce !in Nonces(w)
    ensures Spaced(h + [x])
  {
    WindowElements(w, h, x.at);
    forall i | 0 <= i < |h| && h[i].nonce == x.nonce
      ensures SEEN_NONCE_TTL_SECONDS <= x.at - h[i].at || MAX_SEEN_NONCES < |h| - i
    {
      NotInWindow(w, h, x, i);
    }
  }

  lemma NotInWindow(w: seq<Stamp>, h: seq<Stamp>, x: Stamp, i: nat)
    requires Ordered(h) && IsWindow(w, h, x.at) && x.nonce !in Nonces(w)
    requires i < |h| && h[i].nonce == x.nonce
    ensures SEEN_NONCE_TTL_SECONDS <= x.at - h[i].at || MAX_SEEN_NONCES < |h| - i
  {
    WindowElements(w, h, x.at);
    assert forall m :: 0 <= m < |w| ==> w[m].nonce in Nonces(w);
    assert i < |h| - |w|;
  }

  lemma NoncesAppend(s: seq<Stamp>, x: Stamp)
    requires Distinct(s) && x.nonce !in Nonces(s)
    ensures Nonces(s + [x]) == Nonces(s) + {x.nonce} && Distinct(s + [x])
  {
    var t := s + [x];
    assert t[|s|] == x;
    forall n | n in Nonces(s) ensures n in Nonces(t) {
      var i :| 0 <= i < |s| && s[i].nonce == n;
      assert t[i] == s[i];
    }
    assert forall i :: 0 <= i < |s| ==> s[i].nonce in Nonces(s);
  }

  lemma NoncesTail(s: seq<Stamp>)
    requires s != [] && Distinct(s)
    ensures Nonces(s[1..]) == Nonces(s) - {s[0].nonce} && Distinct(s[1..])
  {
    var t := s[1..];
    forall n | n in Nonces(s) && n != s[0].nonce ensures n in Nonces(t) {
      var i :| 0 <= i < |s| && s[i].nonce == n;
      assert t[i - 1] == s[i];
    }
  }

  /** What is left after dropping what is stale and then what is too much. */
  lemma PrunedIsWindow(w: seq<Stamp>, young: seq<Stamp>, h: seq<Stamp>, now: Time)
    requires IsSuffix(young, h) && forall i :: 0 <= i < |young| ==> !Stale(young[i], now)
    requires |young| < |h| ==> Stale(h[|h| - |young| - 1], now)
    requires IsSuffix(w, young) && |w| <= MAX_SEEN_NONCES && (|w| < |young| ==> |w| == MAX_SEEN_NONCES)
    ensures IsWindow(w, h, now)
  {
    SuffixTrans(w, young, h);
    forall i | 0 <= i < |w| ensures !Stale(w[i], now) {
      assert w[i] == young[|young| - |w| + i];
    }
  }

  /** The process-wide cache: a set for lookup and a deque for age. */
  class NonceCache {
    var seen: set<M.Value>
    var order: seq<Stamp>
    /** Every acceptance since the process started, and the latest reading of the monotonic clock. */
    ghost var accepted: seq<Stamp>
    ghost var clock: Time

    ghost predicate Agree()
      reads this
    {
      seen == Nonces(order) && Distinct(order)
    }

    ghost predicate Valid()
      reads this
    {
      && Agree()
      && Ordered(accepted) && Spaced(accepted)
      && (forall i :: 0 <= i < |accepted| ==> accepted[i].at <= clock && Usable(accepted[i].nonce))
      && IsWindow(order, accepted, clock)
    }

    constructor (now: Time)
      ensures Valid() && accepted == [] && clock == now
    {
      seen, order := {}, [];
      accepted, clock := [], now;
    }

    method PopLeft()
      requires Agree() && order != []
      modifies this`seen, this`order
      ensures Agree() && order == old(order)[1..]
    {
      NoncesTail(order);
      var oldest := order[0];
      order := order[1..];
      seen := seen - {oldest.nonce};
    }

    method PruneStale(now: Time)
      requires Agree() && Ordered(order)
      modifies this`seen, this`order
      ensures Agree() && IsSuffix(order, old(order)) && forall i :: 0 <= i < |order| ==> !Stale(order[i], now)
      ensures |order| < |old(order)| ==> Stale(old(order)[|old(order)| - |order| - 1], now)
    {
      ghost var before := order;
      while order != [] && Stale(order[0], now)
        invariant Agree()
        invariant IsSuffix(order, before)
        invariant |order| < |before| ==> Stale(before[|before| - |order| - 1], now)
        decreases |order|
      {
        PopLeft();
      }
    }

    method PruneExcess()
      requires Agree()
      modifies this`seen, this`order
      ensures Agree() && IsSuffix(order, old(order)) && |order| <= MAX_SEEN_NONCES
      ensures |order| < |old(order)| ==> |order| == MAX_SEEN_NONCES
    {
      ghost var before := order;
      while |order| > MAX_SEEN_NONCES
        invariant Agree()
        invariant IsSuffix(order, before)
        invariant |order| < |before| ==> MAX_SEEN_NONCES <= |order|
        decreases |order|
      {
        PopLeft();
      }
    }

    /** First what is too old, then what is too much. */
    method Prune(now: Time)
      requires Agree() && Ordered(order)
      modifies this`seen, this`order
      ensures Agree() && IsWindow(order, old(order), now)
    {
      PruneStale(now);
      ghost var young := order;
      PruneExcess();
      PrunedIsWindow(order, young, old(order), now);
    }

    method Remember(stamp: Stamp)
      requires Agree() && stamp.nonce !in seen && Ordered(order + [stamp])
      modifies this`seen, this`order
      ensures Agree() && IsWindow(order, old(order) + [stamp], stamp.at)
    {
      NoncesAppend(order, stamp);
      seen := seen + {stamp.nonce};
      order := order + [stamp];
      Prune(stamp.at);
    }

    /** Accepts a nonce exactly when it is not empty and not in the window of what was accepted; a list or a
        dictionary cannot be looked up and raises. In either case the cache is left as the window of the
        acceptances so far. */
    method ConsumeNonce(nonce: M.Value, now: Time) returns (ok: bool)
      requires Valid() && clock <= now
      modifies this
      ensures Valid() && clock == now
      ensures accepted == old(accepted) + (if ok then [Stamp(nonce, now)] else [])
      ensures forall w :: IsWindow(w, old(accepted), now) ==> (ok <==> Usable(nonce) && nonce !in Nonces(w))
    {
      ghost var h, first := accepted, order;
      var stamp := Stamp(nonce, now);
      OrderedAppend(first, h, stamp);
      Prune(now);
      ghost var pruned := order;
      WindowOfWindow(pruned, first, h, clock, now);
      forall w | IsWindow(w, h, now) ensures w == pruned {
        WindowUnique(w, pruned, h, now);
      }
      clock := now;
      if !Usable(nonce) || nonce in seen {
        return false;
      }
      OrderedAppend(pruned, h, stamp);
      SpacedAppend(h, pruned, stamp);
      Remember(stamp);
      WindowAppend(order, pruned, h, stamp);
      accepted := h + [stamp];
      return true;
    }
  }
}
