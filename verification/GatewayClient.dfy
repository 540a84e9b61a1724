/**
 The client's request table. Requests are numbered as they are issued; replies arrive as lines, in any
 order and cut anyhow, and settle the request whose number they carry.
 */
module GatewayClient {
  import opened Wrappers
  import opened LineFraming

  type Id = nat

  /** `parse` gives the reply of a trimmed line, None when it is not JSON or is null (both are ignored
      there), and `idOf` the number it carries, None when that is not a number. */
  datatype Protocol<!Reply> = Protocol(
    trim: string -> string,
    parse: string -> Option<Reply>,
    idOf: Reply -> Option<int>,
    isError: Reply -> bool)

  /** What happened to a client, in order. */
  datatype Event = Issued(id: Id) | Received(line: string)

  datatype Settlement<Reply> = Settlement(id: Id, reply: Reply, rejected: bool)

  datatype Table<Reply> = Table(pending: set<Id>, settled: seq<Settlement<Reply>>)

  function ReplyOn<Reply>(p: Protocol<Reply>, line: string): Option<Reply> {
    if p.trim(line) == "" then None else p.parse(p.trim(line))
  }

  predicate Carries<Reply>(p: Protocol<Reply>, line: string, id: Id) {
    var reply := ReplyOn(p, line);
    reply.Some? && p.idOf(reply.value) == Some(id)
  }

  // ---------------------------------------------------------------- what a history means

  function Step<Reply>(p: Protocol<Reply>, t: Table<Reply>, e: Event): Table<Reply> {
    match e
    case Issued(id) => t.(pending := t.pending + {id})
    case Received(line) =>
      var reply := ReplyOn(p, line);
      if reply.None? || p.idOf(reply.value).None? || p.idOf(reply.value).value !in t.pending then t
      else
        var id: Id := p.idOf(reply.value).value;
        Table(t.pending - {id}, t.settled + [Settlement(id, reply.value, p.isError(reply.value))])
  }

  function After<Reply>(p: Protocol<Reply>, log: seq<Event>): Table<Reply> {
    if log == [] then Table({}, []) else Step(p, After(p, log[..|log| - 1]), log[|log| - 1])
  }

  function IssuedCount(log: seq<Event>): nat {
    if log == [] then 0
    else IssuedCount(log[..|log| - 1]) + (if log[|log| - 1].Issued? then 1 else 0)
  }

  /** Requests are numbered 1, 2, 3 and so on. */
  predicate Numbered(log: seq<Event>) {
    log == [] ||
    (Numbered(log[..|log| - 1]) && (log[|log| - 1].Issued? ==> log[|log| - 1].id == IssuedCount(log)))
  }

  function Arrivals(lines: seq<string>): seq<Event> {
    if lines == [] then [] else [Received(lines[0])] + Arrivals(lines[1..])
  }

  lemma LogAppend<Reply>(p: Protocol<Reply>, log: seq<Event>, e: Event)
    ensures After(p, log + [e]) == Step(p, After(p, log), e)
    ensures IssuedCount(log + [e]) == IssuedCount(log) + (if e.Issued? then 1 else 0)
    ensures Numbered(log + [e]) <==> Numbered(log) && (e.Issued? ==> e.id == IssuedCount(log) + 1)
  {
    assert (log + [e])[..|log|] == log;
  }

  lemma ArrivalsNext(log: seq<Event>, line: string, lines: seq<string>)
    ensures log + Arrivals([line] + lines) == log + [Received(line)] + Arrivals(lines)
  {
    assert ([line] + lines)[1..] == lines;
  }

  /** What one line does: a line that is not blank, parses, and carries a pending number settles that request with
      the reply, as an error or not; any other line does nothing. */
  lemma LineHandled<Reply>(p: Protocol<Reply>, t: Table<Reply>, line: string, reply: Reply, id: Id)
    ensures var t', text := Step(p, t, Received(line)), p.trim(line);
            && (text != "" && p.parse(text) == Some(reply) && p.idOf(reply) == Some(id) && id in t.pending ==>
                  && t'.pending == t.pending - {id}
                  && t'.settled == t.settled + [Settlement(id, reply, p.isError(reply))])
            && (text == "" || p.parse(text) == None
                || (p.parse(text) == Some(reply) && (p.idOf(reply) == None || p.idOf(reply).value !in t.pending)) ==>
                  t' == t)
  {
  }

  // ---------------------------------------------------------------- the client as it runs

  class Client<!Reply> {
    const protocol: Protocol<Reply>
    var recvBuf: string
    var idCounter: nat
    var pending: set<Id>
    var settled: seq<Settlement<Reply>>
    ghost var log: seq<Event>

    /** The fields are what the history says. */
    ghost predicate Valid()
      reads this
    {
      idCounter == IssuedCount(log) && Numbered(log) && Table(pending, settled) == After(protocol, log)
    }

    constructor (protocol: Protocol<Reply>)
      ensures Valid() && log == [] && recvBuf == "" && this.protocol == protocol
    {
      this.protocol := protocol;
      recvBuf, idCounter, pending, settled, log := "", 0, {}, [], [];
    }

    /** Registers a request before it is written to the socket. */
    method Rpc() returns (id: Id)
      requires Valid()
      modifies this
      ensures Valid() && log == old(log) + [Issued(id)] && recvBuf == old(recvBuf)
      ensures id == old(idCounter) + 1 && id in pending
    {
      idCounter := idCounter + 1;
      id := idCounter;
      LogAppend(protocol, log, Issued(id));
      pending := pending + {id};
      log := log + [Issued(id)];
    }

    /** However the stream is cut, the complete lines are handled in order and the rest is kept. */
    method OnSocketData(chunk: string)
      requires Valid()
      modifies this
      ensures Valid() && idCounter == old(idCounter)
      ensures log == old(log) + Arrivals(Lines(old(recvBuf) + chunk))
      ensures recvBuf == Tail(old(recvBuf) + chunk)
    {
      recvBuf := recvBuf + chunk;
      ghost var arrived := recvBuf;
      var nl := IndexOfNewline(recvBuf);
      while nl != -1
        invariant nl == IndexOfNewline(recvBuf)
        invariant Valid() && idCounter == old(idCounter)
        invariant log + Arrivals(Lines(recvBuf)) == old(log) + Arrivals(Lines(arrived))
        invariant Tail(recvBuf) == Tail(arrived)
        decreases |recvBuf|
      {
        var line := recvBuf[..nl];
        LinesUnfold(recvBuf);
        recvBuf := recvBuf[nl + 1..];
        ArrivalsNext(log, line, Lines(recvBuf));
        HandleLine(line);
        nl := IndexOfNewline(recvBuf);
      }
      assert Arrivals(Lines(recvBuf)) == [];
    }

    method HandleLine(line: string)
      requires Valid()
      modifies this`pending, this`settled, this`log
      ensures Valid() && log == old(log) + [Received(line)]
    {
      LogAppend(protocol, log, Received(line));
      log := log + [Received(line)];
      var text := protocol.trim(line);
      if text == "" {
        return;
      }
      var reply := protocol.parse(text);
      if reply.Some? {
        var id := protocol.idOf(reply.value);
        if id.Some? && id.value in pending {
          pending := pending - {id.value};
          settled := settled + [Settlement(id.value, reply.value, protocol.isError(reply.value))];
        }
      }
    }
  }

  // ---------------------------------------------------------------- matching

  /** The request was issued and no line carrying its number has come since. */
  ghost predicate Unanswered<Reply>(p: Protocol<Reply>, log: seq<Event>, id: Id) {
    exists i :: 0 <= i < |log| && log[i] == Issued(id) &&
      forall j :: i < j < |log| ==> !(log[j].Received? && Carries(p, log[j].line, id))
  }

  lemma {:induction false} IssuedNumbers(log: seq<Event>, i: nat)
    requires Numbered(log) && i < |log| && log[i].Issued?
    ensures 1 <= log[i].id <= IssuedCount(log)
  {
    if i < |log| - 1 {
      IssuedNumbers(log[..|log| - 1], i);
    }
  }

  lemma UnansweredStep<Reply>(p: Protocol<Reply>, log: seq<Event>, e: Event, id: Id)
    requires Numbered(log + [e])
    ensures Unanswered(p, log + [e], id) <==>
              e == Issued(id) || (Unanswered(p, log, id) && !(e.Received? && Carries(p, e.line, id)))
  {
    var longer := log + [e];
    if Unanswered(p, log, id) && !(e.Received? && Carries(p, e.line, id)) {
      var i :| 0 <= i < |log| && log[i] == Issued(id) &&
        forall j :: i < j < |log| ==> !(log[j].Received? && Carries(p, log[j].line, id));
      assert longer[i] == Issued(id);
    }
    if e == Issued(id) {
      assert longer[|log|] == Issued(id);
    }
    if Unanswered(p, longer, id) && e != Issued(id) {
      var i :| 0 <= i < |longer| && longer[i] == Issued(id) &&
        forall j :: i < j < |longer| ==> !(longer[j].Received? && Carries(p, longer[j].line, id));
      assert log[i] == Issued(id);
      assert forall j :: i < j < |log| ==> log[j] == longer[j];
      assert longer[|log|] == e;
    }
  }

  /** The table holds exactly the numbers issued and not yet answered. */
  lemma {:induction false} PendingExactly<Reply>(p: Protocol<Reply>, log: seq<Event>, id: Id)
    requires Numbered(log)
    ensures id in After(p, log).pending <==> Unanswered(p, log, id)
  {
    if log != [] {
      var prior, e := log[..|log| - 1], log[|log| - 1];
      assert log == prior + [e];
      PendingExactly(p, prior, id);
      UnansweredStep(p, prior, e, id);
    }
  }

  ghost predicate SettledIn<Reply>(t: Table<Reply>, id: Id) {
    exists k :: 0 <= k < |t.settled| && t.settled[k].id == id
  }

  /** Every number up to `n` is either pending or settled, never both, and settled once. */
  ghost predicate Partition<Reply>(t: Table<Reply>, n: nat) {
    && (forall id :: id in t.pending ==> 1 <= id <= n && !SettledIn(t, id))
    && (forall id :: 1 <= id <= n ==> id in t.pending || SettledIn(t, id))
    && (forall k :: 0 <= k < |t.settled| ==> 1 <= t.settled[k].id <= n)
    && (forall k, m :: 0 <= k < m < |t.settled| ==> t.settled[k].id != t.settled[m].id)
  }

  lemma PartitionIssue<Reply>(t: Table<Reply>, n: nat)
    requires Partition(t, n)
    ensures Partition(t.(pending := t.pending + {n + 1}), n + 1)
  {
    var u := t.(pending := t.pending + {n + 1});
    forall id ensures SettledIn(u, id) <==> SettledIn(t, id) {
    }
    assert !SettledIn(t, n + 1);
  }

  lemma PartitionSettle<Reply>(t: Table<Reply>, n: nat, x: Settlement<Reply>)
    requires Partition(t, n) && x.id in t.pending
    ensures Partition(Table(t.pending - {x.id}, t.settled + [x]), n)
  {
    var u := Table(t.pending - {x.id}, t.settled + [x]);
    assert u.settled[|t.settled|] == x;
    forall id ensures SettledIn(u, id) <==> SettledIn(t, id) || id == x.id {
      if SettledIn(t, id) {
        var k :| 0 <= k < |t.settled| && t.settled[k].id == id;
        assert u.settled[k].id == id;
      }
    }
    forall k | 0 <= k < |t.settled| ensures t.settled[k].id != x.id {
      assert SettledIn(t, t.settled[k].id);
    }
  }

  lemma {:induction false} EachSettledOnce<Reply>(p: Protocol<Reply>, log: seq<Event>)
    requires Numbered(log)
    ensures Partition(After(p, log), IssuedCount(log))
  {
    if log != [] {
      var prior, e := log[..|log| - 1], log[|log| - 1];
      EachSettledOnce(p, prior);
      var s, t := After(p, prior), After(p, log);
      if e.Issued? {
        PartitionIssue(s, IssuedCount(prior));
      } else if t != s {
        PartitionSettle(s, IssuedCount(prior), t.settled[|s.settled|]);
      }
    }
  }

  /** A request is settled only by a line that carries its number and came after it was issued, with the
      reply on that line. */
  lemma {:induction false} SettledByItsReply<Reply>(p: Protocol<Reply>, log: seq<Event>, k: nat)
    requires Numbered(log) && k < |After(p, log).settled|
    ensures exists i, j :: 0 <= i < j < |log| && log[i] == Issued(After(p, log).settled[k].id)
                           && SettledOn(p, log[j], After(p, log).settled[k])
  {
    var prior, e := log[..|log| - 1], log[|log| - 1];
    assert log == prior + [e];
    if k < |After(p, prior).settled| {
      SettledByItsReply(p, prior, k);
      var i, j :| 0 <= i < j < |prior| && prior[i] == Issued(After(p, prior).settled[k].id)
        && SettledOn(p, prior[j], After(p, prior).settled[k]);
      assert log[i] == prior[i] && log[j] == prior[j];
    } else {
      var id := After(p, log).settled[k].id;
      PendingExactly(p, prior, id);
      var i :| 0 <= i < |prior| && prior[i] == Issued(id);
      assert log[i] == prior[i] && SettledOn(p, log[|log| - 1], After(p, log).settled[k]);
    }
  }

  ghost predicate SettledOn<Reply>(p: Protocol<Reply>, e: Event, s: Settlement<Reply>) {
    e.Received? && Carries(p, e.line, s.id) &&
    ReplyOn(p, e.line) == Some(s.reply) && s.rejected == p.isError(s.reply)
  }
}
