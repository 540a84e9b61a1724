/**
 The executor's connection handler. Chunks arrive in any cut; complete lines are parsed, authorized and
 dispatched, and the first line with a bad token ends the connection.
 */
module GatewayExecutor {
  import opened LineFraming

  /** `JSON.parse(line)`. Reading a field of null throws outside the handler's try block and ends the
      process; any other value that is not an object has no token. */
  datatype Parsed<Req> = Malformed | NullValue | Request(req: Req)

  datatype Reply<Req, Resp> = InvalidJson | Unauthorized(req: Req) | Answer(resp: Resp)

  /** The parts of the executor the framing does not look into. Exceptions of the handler are already
      replies. */
  datatype Service<!Req, !Resp> = Service(
    trim: string -> string,
    parse: string -> Parsed<Req>,
    tokenValid: Req -> bool,
    handle: Req -> Resp)

  datatype Connection<Req, Resp> = Connection(
    written: seq<Reply<Req, Resp>>,
    dispatched: seq<Req>,
    done: bool)

  // ---------------------------------------------------------------- what the lines mean

  predicate Blank<Req, Resp>(s: Service<Req, Resp>, line: string) {
    s.trim(line) == ""
  }

  /** A line that ends the connection: a bad token, or the null that ends the process. */
  predicate Stops<Req, Resp>(s: Service<Req, Resp>, line: string) {
    !Blank(s, line) &&
    match s.parse(s.trim(line))
    case Malformed => false
    case NullValue => true
    case Request(req) => !s.tokenValid(req)
  }

  /** The connection after one line. */
  function Serve1<Req, Resp>(s: Service<Req, Resp>, c: Connection<Req, Resp>, line: string): Connection<Req, Resp> {
    if c.done || Blank(s, line) then c
    else
      match s.parse(s.trim(line))
      case Malformed => c.(written := c.written + [InvalidJson])
      case NullValue => c.(done := true)
      case Request(req) =>
        if !s.tokenValid(req) then c.(written := c.written + [Unauthorized(req)], done := true)
        else c.(written := c.written + [Answer(s.handle(req))], dispatched := c.dispatched + [req])
  }

  function Serve<Req, Resp>(s: Service<Req, Resp>, c: Connection<Req, Resp>, lines: seq<string>): Connection<Req, Resp>
    decreases |lines|
  {
    if lines == [] then c else Serve(s, Serve1(s, c, lines[0]), lines[1..])
  }

  function Opened<Req, Resp>(): Connection<Req, Resp> {
    Connection([], [], false)
  }

  lemma {:induction false} ServeConcat<Req, Resp>(s: Service<Req, Resp>, c: Connection<Req, Resp>,
                                                  a: seq<string>, b: seq<string>)
    ensures Serve(s, c, a + b) == Serve(s, Serve(s, c, a), b)
    decreases |a|
  {
    if a == [] {
      assert a + b == b;
    } else {
      assert (a + b)[1..] == a[1..] + b;
      ServeConcat(s, Serve1(s, c, a[0]), a[1..], b);
    }
  }

  lemma {:induction false} ServeDone<Req, Resp>(s: Service<Req, Resp>, c: Connection<Req, Resp>, lines: seq<string>)
    requires c.done
    ensures Serve(s, c, lines) == c
    decreases |lines|
  {
    if lines != [] {
      ServeDone(s, c, lines[1..]);
    }
  }

  /** What one line does: nothing when it is blank; a line that is not JSON is answered and a bad token is, and ends
      the connection, as null does; and only a request with a good token is dispatched and answered. */
  lemma LineServed<Req, Resp>(s: Service<Req, Resp>, c: Connection<Req, Resp>, line: string)
    requires !c.done
    ensures var d, text := Serve(s, c, [line]), s.trim(line);
            && (text == "" ==> d == c)
            && (text != "" && s.parse(text).Malformed? ==>
                  d.written == c.written + [InvalidJson] && d.dispatched == c.dispatched && !d.done)
            && (text != "" && s.parse(text).NullValue? ==>
                  d.written == c.written && d.dispatched == c.dispatched && d.done)
            && (text != "" && s.parse(text).Request? ==>
                  var req := s.parse(text).req;
                  if s.tokenValid(req) then
                    && d.written == c.written + [Answer(s.handle(req))] && d.dispatched == c.dispatched + [req]
                    && !d.done
                  else
                    && d.written == c.written + [Unauthorized(req)] && d.dispatched == c.dispatched && d.done)
  {
    assert [line][1..] == [];
  }

  // ---------------------------------------------------------------- the handler as it runs

  class Executor<!Req(==), !Resp> {
    const service: Service<Req, Resp>
    var buf: string
    var socketDone: bool
    var written: seq<Reply<Req, Resp>>
    var dispatched: seq<Req>
    /** Everything received on the socket. */
    ghost var received: string

    /** What was written and dispatched depends on the stream alone, not on how it was cut. */
    ghost predicate Valid()
      reads this
    {
      && Connection(written, dispatched, socketDone) == Serve(service, Opened(), Lines(received))
      && (!socketDone ==> buf == Tail(received))
    }

    constructor (service: Service<Req, Resp>)
      ensures Valid() && received == "" && this.service == service
    {
      this.service := service;
      buf, socketDone, written, dispatched, received := "", false, [], [], "";
    }

    method OnLine(line: string)
      requires !socketDone
      modifies this`socketDone, this`written, this`dispatched
      ensures Connection(written, dispatched, socketDone)
           == Serve1(service, old(Connection(written, dispatched, socketDone)), line)
    {
      var text := service.trim(line);
      if text == "" {
        return;
      }
      match service.parse(text)
      case Malformed =>
        written := written + [InvalidJson];
      case NullValue =>
        socketDone := true;
      case Request(req) =>
        if !service.tokenValid(req) {
          socketDone := true;
          written := written + [Unauthorized(req)];
          return;
        }
        dispatched := dispatched + [req];
        written := written + [Answer(service.handle(req))];
    }

    /** Takes complete lines off the buffer until there is none or the connection is done. */
    method Drain()
      requires !socketDone
      modifies this`buf, this`socketDone, this`written, this`dispatched
      ensures Connection(written, dispatched, socketDone)
           == Serve(service, old(Connection(written, dispatched, socketDone)), Lines(old(buf)))
      ensures !socketDone ==> buf == Tail(old(buf))
    {
      ghost var before, arrived := Connection(written, dispatched, socketDone), buf;
      var nl := IndexOfNewline(buf);
      while nl != -1 && !socketDone
        invariant nl == IndexOfNewline(buf)
        invariant Serve(service, Connection(written, dispatched, socketDone), Lines(buf))
               == Serve(service, before, Lines(arrived))
        invariant Tail(buf) == Tail(arrived)
        decreases |buf|
      {
        var line := buf[..nl];
        buf := buf[nl + 1..];
        OnLine(line);
        nl := IndexOfNewline(buf);
      }
      if socketDone {
        ServeDone(service, Connection(written, dispatched, socketDone), Lines(buf));
      } else {
        assert Lines(buf) == [] && Tail(buf) == buf;
      }
    }

    lemma StreamContinues(stream: string, chunk: string, joined: string)
      requires joined == Tail(stream) + chunk
      ensures Serve(service, Opened(), Lines(stream + chunk))
           == Serve(service, Serve(service, Opened(), Lines(stream)), Lines(joined))
      ensures Tail(stream + chunk) == Tail(joined)
    {
      LinesContinue(stream, chunk);
      ServeConcat(service, Opened(), Lines(stream), Lines(joined));
    }

    method OnData(chunk: string)
      requires Valid()
      modifies this
      ensures Valid() && received == old(received) + chunk
    {
      ghost var stream, joined := received, Tail(received) + chunk;
      StreamContinues(stream, chunk, joined);
      received := received + chunk;
      if socketDone {
        ServeDone(service, Connection(written, dispatched, socketDone), Lines(joined));
        return;
      }
      buf := buf + chunk;
      assert buf == joined;
      Drain();
    }
  }

  /** Chunk invariance: a connection fed any list of chunks replies and dispatches as if the whole
      stream had arrived at once. */
  method ServeConnection<Req(==), Resp>(service: Service<Req, Resp>, chunks: seq<string>)
    returns (written: seq<Reply<Req, Resp>>, dispatched: seq<Req>, done: bool)
    ensures Connection(written, dispatched, done) == Serve(service, Opened(), Lines(Concat(chunks)))
  {
    var executor := new Executor(service);
    for i := 0 to |chunks|
      invariant executor.Valid() && executor.service == service
      invariant executor.received == Concat(chunks[..i])
    {
      ConcatNext(chunks, i);
      executor.OnData(chunks[i]);
    }
    assert chunks[..|chunks|] == chunks;
    return executor.written, executor.dispatched, executor.socketDone;
  }

  // ---------------------------------------------------------------- replies, line by line

  /** The reply to one line, if it gets one. */
  function ReplyTo<Req, Resp>(s: Service<Req, Resp>, line: string): seq<Reply<Req, Resp>> {
    if Blank(s, line) then []
    else
      match s.parse(s.trim(line))
      case Malformed => [InvalidJson]
      case NullValue => []
      case Request(req) => [if s.tokenValid(req) then Answer(s.handle(req)) else Unauthorized(req)]
  }

  /** The request one line dispatches, if any. */
  function RequestIn<Req, Resp>(s: Service<Req, Resp>, line: string): (r: seq<Req>)
    ensures forall q <- r :: s.tokenValid(q)
  {
    if Blank(s, line) || !s.parse(s.trim(line)).Request? || !s.tokenValid(s.parse(s.trim(line)).req) then []
    else [s.parse(s.trim(line)).req]
  }

  function Replies<Req, Resp>(s: Service<Req, Resp>, lines: seq<string>): seq<Reply<Req, Resp>> {
    if lines == [] then [] else ReplyTo(s, lines[0]) + Replies(s, lines[1..])
  }

  function Requests<Req, Resp>(s: Service<Req, Resp>, lines: seq<string>): (r: seq<Req>)
    ensures forall q <- r :: s.tokenValid(q)
  {
    if lines == [] then [] else RequestIn(s, lines[0]) + Requests(s, lines[1..])
  }

  lemma ServeLine<Req, Resp>(s: Service<Req, Resp>, c: Connection<Req, Resp>, line: string)
    requires !c.done
    ensures Serve1(s, c, line)
         == Connection(c.written + ReplyTo(s, line), c.dispatched + RequestIn(s, line), Stops(s, line))
  {
    assert c.written + [] == c.written && c.dispatched + [] == c.dispatched;
  }

  /** The number of lines up to and including the first that stops the connection. */
  function Served<Req, Resp>(s: Service<Req, Resp>, lines: seq<string>): (n: nat)
    ensures n <= |lines|
    ensures forall i :: 0 <= i < n - 1 ==> !Stops(s, lines[i])
    ensures n < |lines| ==> n > 0 && Stops(s, lines[n - 1])
  {
    if lines == [] then 0 else if Stops(s, lines[0]) then 1 else 1 + Served(s, lines[1..])
  }

  // The same, stopping of themselves.

  function RepliesUntil<Req, Resp>(s: Service<Req, Resp>, lines: seq<string>): seq<Reply<Req, Resp>> {
    if lines == [] then []
    else if Stops(s, lines[0]) then ReplyTo(s, lines[0])
    else ReplyTo(s, lines[0]) + RepliesUntil(s, lines[1..])
  }

  function RequestsUntil<Req, Resp>(s: Service<Req, Resp>, lines: seq<string>): seq<Req> {
    if lines == [] then []
    else if Stops(s, lines[0]) then RequestIn(s, lines[0])
    else RequestIn(s, lines[0]) + RequestsUntil(s, lines[1..])
  }

  predicate StopsIn<Req, Resp>(s: Service<Req, Resp>, lines: seq<string>) {
    lines != [] && (Stops(s, lines[0]) || StopsIn(s, lines[1..]))
  }

  lemma {:induction false} UntilServed<Req, Resp>(s: Service<Req, Resp>, lines: seq<string>)
    ensures var n := Served(s, lines);
            && RepliesUntil(s, lines) == Replies(s, lines[..n]) && RequestsUntil(s, lines) == Requests(s, lines[..n])
            && (StopsIn(s, lines) <==> n > 0 && Stops(s, lines[n - 1]))
    decreases |lines|
  {
    if lines != [] {
      var n := Served(s, lines);
      assert lines[..n][0] == lines[0];
      if Stops(s, lines[0]) {
        assert lines[..n][1..] == [];
      } else {
        assert lines[..n][1..] == lines[1..][..n - 1];
        UntilServed(s, lines[1..]);
      }
    }
  }

  lemma {:induction false} ServeUntil<Req, Resp>(s: Service<Req, Resp>, c: Connection<Req, Resp>, lines: seq<string>)
    requires !c.done
    ensures Serve(s, c, lines)
         == Connection(c.written + RepliesUntil(s, lines), c.dispatched + RequestsUntil(s, lines), StopsIn(s, lines))
    decreases |lines|
  {
    if lines != [] {
      ServeLine(s, c, lines[0]);
      var c1 := Serve1(s, c, lines[0]);
      if c1.done {
        ServeDone(s, c1, lines[1..]);
      } else {
        ServeUntil(s, c1, lines[1..]);
        Regroup(c.written, ReplyTo(s, lines[0]), RepliesUntil(s, lines[1..]));
        Regroup(c.dispatched, RequestIn(s, lines[0]), RequestsUntil(s, lines[1..]));
      }
    }
  }

  lemma Regroup<T>(a: seq<T>, b: seq<T>, c: seq<T>)
    ensures a + (b + c) == (a + b) + c
  {
  }

  /** The replies are those of the lines up to and including the first bad one, in order, one for each
      that is not blank; the requests dispatched are the authorized ones before it; and from that line on
      nothing is dispatched, whatever follows. */
  lemma ConnectionReplies<Req, Resp>(s: Service<Req, Resp>, lines: seq<string>, more: seq<string>)
    ensures var c, n := Serve(s, Opened(), lines), Served(s, lines);
            && c.written == Replies(s, lines[..n]) && c.dispatched == Requests(s, lines[..n])
            && (forall q <- c.dispatched :: s.tokenValid(q))
            && (c.done ==> Serve(s, Opened(), lines + more) == c)
  {
    UntilServed(s, lines);
    ServeUntil(s, Opened(), lines);
    ServeConcat(s, Opened(), lines, more);
    var c := Serve(s, Opened(), lines);
    if c.done {
      ServeDone(s, c, more);
    }
  }
}
