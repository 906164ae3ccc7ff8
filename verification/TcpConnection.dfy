/** One client connection of the server in src/dcl/tcp_server.cpp: its state and its write buffer, a
    std::stringstream between the handlers that insert bytes and the socket that takes them. */
module TcpConnection {
  import opened Octets

  // The characters of the stream, the read position, and the flags.
  datatype Buffer = Buffer(content: seq<byte>, g: nat, eof: bool, fail: bool, bad: bool) {
    predicate Good() {
      !eof && !fail && !bad
    }

    function Cleared(): Buffer {
      this.(eof := false, fail := false, bad := false)
    }
  }

  // cur_state == CLOSING, the write buffer; and the history: the bytes the socket took, the bytes
  // that were inserted while the stream was good.
  datatype Connection = Connection(closing: bool, buffer: Buffer, sent: seq<byte>, accepted: seq<byte>)

  // request(): nothing to write.
  function New(): Connection {
    Connection(false, Buffer([], 0, true, false, false), [], [])
  }

  function Pending(b: Buffer): seq<byte> {
    if b.g <= |b.content| then b.content[b.g..] else []
  }

  // A handler inserts bytes; a stream that is not good refuses them and fails.
  function Inserted(c: Connection, out: seq<byte>): Connection {
    if out == [] then c
    else if c.buffer.Good() then c.(buffer := c.buffer.(content := c.buffer.content + out), accepted := c.accepted + out)
    else c.(buffer := c.buffer.(fail := true))
  }

  // socket::write: an error, a number of bytes (zero if the socket is not ready), or an exception.
  datatype WriteResult = WriteFailed | Wrote(n: nat) | WriteThrew

  // A socket takes no more than it is offered.
  predicate Takes(c: Connection, r: WriteResult) {
    r.Wrote? ==> r.n <= |Pending(c.buffer)|
  }

  // connection_write. Of a failed stream tellg() and seekg() get nothing, so its size counts as zero.
  function Written(c: Connection, r: WriteResult): Connection
    requires Takes(c, r)
  {
    var b := c.buffer;
    if b.eof then c
    else if b.fail || b.bad then c.(buffer := b.(eof := true, fail := true))
    else if Pending(b) == [] then c.(buffer := b.(eof := true))
    else
      match r
      case WriteFailed => c.(buffer := b.(bad := true))
      case WriteThrew => c
      case Wrote(n) =>
        if n == 0 then c
        else if n == |Pending(b)| then c.(buffer := b.(content := [], g := 0), sent := c.sent + Pending(b))
        else c.(buffer := b.Cleared().(g := b.g + n), sent := c.sent + Pending(b)[..n])
  }

  // What a handler does: the bytes it inserts, and whether it keeps the connection, closes it or throws.
  datatype Verdict = Keep | Close | Throw

  datatype Reply = Reply(out: seq<byte>, verdict: Verdict)

  // socket::read in connection_read: an error, nothing, an exception, or data and what the handler does.
  datatype ReadResult = ReadFailed | ReadNothing | ReadThrew | ReadData(reply: Reply)

  function Handled(c: Connection, reply: Reply): Connection {
    var d := Inserted(c, reply.out);
    if reply.verdict.Close? then d.(closing := true) else d
  }

  // connection_read: data clear the flags of the write buffer before the handler runs.
  function Read(c: Connection, r: ReadResult): Connection {
    match r
    case ReadFailed => c.(closing := true)
    case ReadNothing => c
    case ReadThrew => c
    case ReadData(reply) => Handled(c.(buffer := c.buffer.Cleared()), reply)
  }

  // What was accepted has been sent or is pending; an exhausted stream has nothing pending unless an
  // error is latched; and a failure is one of a stream that was not good.
  predicate Valid(c: Connection) {
    && c.buffer.g <= |c.buffer.content| && c.sent + Pending(c.buffer) == c.accepted
    && (c.buffer.eof ==> c.buffer.bad || Pending(c.buffer) == [])
    && (c.buffer.fail ==> c.buffer.eof || c.buffer.bad)
  }

  // The condition of destroying a request.
  predicate Drained(c: Connection) {
    c.closing && c.buffer.eof
  }

  lemma NewIsValid()
    ensures Valid(New())
  {}

  lemma InsertKeepsValid(c: Connection, out: seq<byte>)
    requires Valid(c)
    ensures Valid(Inserted(c, out))
  {
    var b := c.buffer;
    if out != [] && b.Good() {
      assert (b.content + out)[b.g..] == b.content[b.g..] + out;
    }
  }

  // The socket takes n of the pending bytes.
  lemma SentIsConserved(c: Connection, n: nat)
    requires Valid(c) && c.buffer.Good() && 0 < n <= |Pending(c.buffer)|
    ensures Valid(Written(c, Wrote(n))) && Written(c, Wrote(n)).accepted == c.accepted
    ensures c.sent <= Written(c, Wrote(n)).sent
  {
    Sends(c.sent, Pending(c.buffer), n);
    Advanced(c.buffer.content, c.buffer.g, n);
  }

  // Conservation over every outcome of a write: partial, complete, would-block, error.
  lemma WriteKeepsValid(c: Connection, r: WriteResult)
    requires Valid(c) && Takes(c, r)
    ensures Valid(Written(c, r)) && Written(c, r).accepted == c.accepted && c.sent <= Written(c, r).sent
  {
    if r.Wrote? && c.buffer.Good() && r.n > 0 {
      SentIsConserved(c, r.n);
    }
  }

  lemma Sends(sent: seq<byte>, p: seq<byte>, n: nat)
    requires n <= |p|
    ensures (sent + p[..n]) + p[n..] == sent + p && (sent + p) + [] == sent + p
  {}

  lemma Advanced(content: seq<byte>, g: nat, n: nat)
    ensures g + n <= |content| ==> content[g + n..] == content[g..][n..]
  {}

  lemma ReadKeepsValid(c: Connection, r: ReadResult)
    requires Valid(c)
    ensures Valid(Read(c, r)) && Read(c, r).sent == c.sent && c.accepted <= Read(c, r).accepted
  {
    if r.ReadData? {
      InsertKeepsValid(c.(buffer := c.buffer.Cleared()), r.reply.out);
    }
  }

  // A read closes a connection when it fails or when the handler answers so; a write never does.
  lemma WhenClosing(c: Connection, r: ReadResult, reply: Reply, w: WriteResult)
    requires Takes(c, w)
    ensures Read(c, r).closing <==> c.closing || r.ReadFailed? || (r.ReadData? && r.reply.verdict.Close?)
    ensures Handled(c, reply).closing <==> c.closing || reply.verdict.Close?
    ensures Written(c, w).closing <==> c.closing
  {}

  // Data revive a stream that was at its end or in error: whatever their handler inserts is accepted.
  // A handler that runs later is heard only while the stream is good.
  lemma WhenAccepted(c: Connection, reply: Reply)
    ensures Read(c, ReadData(reply)).accepted == c.accepted + reply.out
    ensures Handled(c, reply).accepted
         == if c.buffer.eof || c.buffer.fail || c.buffer.bad then c.accepted else c.accepted + reply.out
  {}

  // A write that fails latches the error: until data arrive nothing more is sent.
  lemma ErrorIsLatched(c: Connection, later: WriteResult)
    requires Valid(c) && c.buffer.Good() && Pending(c.buffer) != []
    ensures
      var d := Written(c, WriteFailed);
      d.buffer.bad && d.sent == c.sent && (Takes(d, later) ==> Written(d, later).sent == c.sent && Written(d, later).buffer.bad)
  {}

  // Once a socket has taken all that a closing connection has left, the next round of writing makes it
  // ready to be destroyed.
  lemma ClosingDrains(c: Connection, later: WriteResult)
    requires Valid(c) && c.closing && c.buffer.Good() && Pending(c.buffer) != []
    ensures
      var d := Written(c, Wrote(|Pending(c.buffer)|));
      d.sent == c.accepted && !Drained(d) && (Takes(d, later) ==> Drained(Written(d, later)))
  {
    SentIsConserved(c, |Pending(c.buffer)|);
  }

  // When a connection may be destroyed, everything it accepted was sent, unless a write error is latched.
  lemma DrainedIsSent(c: Connection)
    requires Valid(c) && Drained(c)
    ensures c.sent == c.accepted || c.buffer.bad
  {}

  // What happens to a connection in its life, one thing at a time.
  datatype Turn = InsertTurn(out: seq<byte>) | WriteTurn(w: WriteResult) | ReadTurn(r: ReadResult) | HandlerTurn(reply: Reply)

  predicate Can(c: Connection, e: Turn) {
    e.WriteTurn? ==> Takes(c, e.w)
  }

  function Next(c: Connection, e: Turn): Connection
    requires Can(c, e)
  {
    match e
    case InsertTurn(out) => Inserted(c, out)
    case WriteTurn(w) => Written(c, w)
    case ReadTurn(r) => Read(c, r)
    case HandlerTurn(reply) => Handled(c, reply)
  }

  predicate Life(c: Connection, run: seq<Turn>)
    decreases |run|
  {
    run == [] || (Can(c, run[0]) && Life(Next(c, run[0]), run[1..]))
  }

  function Outcome(c: Connection, run: seq<Turn>): Connection
    requires Life(c, run)
    decreases |run|
  {
    if run == [] then c else Outcome(Next(c, run[0]), run[1..])
  }

  lemma {:induction false} LifeKeepsValid(c: Connection, run: seq<Turn>)
    requires Valid(c) && Life(c, run)
    ensures Valid(Outcome(c, run)) && (c.closing ==> Outcome(c, run).closing)
    decreases |run|
  {
    if run != [] {
      var e := run[0];
      match e {
        case InsertTurn(out) => InsertKeepsValid(c, out);
        case WriteTurn(w) => WriteKeepsValid(c, w);
        case ReadTurn(r) => ReadKeepsValid(c, r);
        case HandlerTurn(reply) => InsertKeepsValid(c, reply.out);
      }
      LifeKeepsValid(Next(c, e), run[1..]);
    }
  }

  // For every connection and every run: bytes sent and bytes pending are the bytes accepted.
  lemma BytesConserved(run: seq<Turn>)
    requires Life(New(), run)
    ensures
      var c := Outcome(New(), run);
      && c.sent + Pending(c.buffer) == c.accepted
      && (Drained(c) ==> c.sent == c.accepted || c.buffer.bad)
  {
    NewIsValid();
    LifeKeepsValid(New(), run);
  }

  // The greeting of a connect handler is refused: a new stream is at its end.
  lemma GreetingRefused(out: seq<byte>)
    ensures Inserted(New(), out).accepted == [] && Inserted(New(), out).buffer.content == []
  {}
}
