/**
 * The backend side of a PostgreSQL connection inside the proxy: the start-up handshake
 * state machine, the backlog of writes held until routing starts, the queue of queries
 * whose replies are tracked, and the walk over reply messages.
 */
module PgBackend {
  import opened Common
  import opened PgMessages

  datatype State = Init | SslRequestSent | SslHandshake | Auth | Startup | Routing | Failed

  /** Position of a state along the handshake; every transition moves strictly down. */
  function Rank(s: State): nat
  {
    match s
    case Init => 6
    case SslRequestSent => 5
    case SslHandshake => 4
    case Auth => 3
    case Startup => 2
    case Routing => 1
    case Failed => 0
  }

  datatype ErrorType = Transient | Permanent

  /** What the TLS layer reports about an ongoing handshake. */
  datatype SslState = Established | HandshakeRequired | HandshakeFailed

  /** Progress of the reply currently being read. */
  datatype ReplyState = Start | Done | RsetColdef | RsetRows | LoadData

  /** The reply bookkeeping the connection hands to the upstream component. */
  datatype Reply = Reply(state: ReplyState, command: Byte, uploadBytes: nat, bytes: nat,
                         rows: nat, errored: bool, warnings: nat, isOk: bool)

  predicate IsComplete(r: Reply) { r.state == Done }

  /** A cleared reply: nothing outstanding. */
  const IdleReply: Reply := Reply(Done, 0, 0, 0, 0, false, 0, false)

  /** What is remembered of a query whose reply will be tracked: its type byte and size. */
  datatype TrackedQuery = TrackedQuery(command: Byte, size: nat)

  /** A message written to the server: never empty, its first byte is its type. */
  type Packet = m: seq<Byte> | |m| > 0 witness [0]

  function QueryOf(m: Packet): (q: TrackedQuery)
    ensures q.command == m[0] && q.size == |m|
  {
    TrackedQuery(m[0], |m|)
  }

  /** The reply after start_tracking: cleared, in START, for the query's command and size. */
  function TrackingReply(q: TrackedQuery): (r: Reply)
    ensures !IsComplete(r) && r.state == Start
    ensures r.command == q.command && r.uploadBytes == q.size
    ensures r.rows == 0 && r.bytes == 0 && !r.errored && r.warnings == 0 && !r.isOk
  {
    Reply(Start, q.command, q.size, 0, 0, false, 0, false)
  }

  /** The effect of one reply message on the reply state. */
  function Step(r: Reply, cmd: Byte): (r': Reply)
    ensures cmd == READY_FOR_QUERY ==> IsComplete(r') && r'.isOk == (r.isOk || (r.rows == 0 && !r.errored))
    ensures cmd != READY_FOR_QUERY ==> r'.state == Done ==> r.state == Done
    ensures r'.rows == if cmd == DATA_ROW then r.rows + 1 else r.rows
    ensures r'.errored == (r.errored || cmd == ERROR_RESPONSE)
    ensures r'.command == r.command && r'.uploadBytes == r.uploadBytes && r'.bytes == r.bytes
  {
    if cmd == ERROR_RESPONSE then r.(errored := true)
    else if cmd == NOTICE_RESPONSE then r.(warnings := 1)
    else if cmd == READY_FOR_QUERY then
      r.(state := Done, isOk := if r.rows == 0 && !r.errored then true else r.isOk)
    else if cmd == DATA_ROW then r.(state := RsetRows, rows := r.rows + 1)
    else if cmd == ROW_DESCRIPTION then r.(state := RsetColdef)
    else if cmd == COPY_IN_RESPONSE then r.(state := LoadData)
    else r
  }

  /** The message at offset `i` has arrived whole: its header and all its bytes are in `buf`. */
  predicate WholeAt(buf: seq<Byte>, i: nat)
  {
    i + HEADER_LEN <= |buf| && i + MessageSize(buf, i) <= |buf|
  }

  /**
   * The walk of process_packets from offset `i`, with each message's size taken as a
   * 64-bit sum: stop at the end of the buffer, once the reply is complete, or at a
   * message that has not arrived whole. Yields the final reply (before the byte count is
   * added) and the offset where the walk stopped.
   */
  function Walk(r: Reply, buf: seq<Byte>, i: nat): (res: (Reply, nat))
    requires i <= |buf|
    ensures i <= res.1 <= |buf|
    ensures res.0.command == r.command && res.0.uploadBytes == r.uploadBytes && res.0.bytes == r.bytes
    decreases |buf| - i
  {
    if i == |buf| || IsComplete(r) || !WholeAt(buf, i) then (r, i)
    else Walk(Step(r, buf[i]), buf, i + MessageSize(buf, i))
  }

  /** Number of DataRow messages among the whole messages of `buf[i..j]`. */
  function DataRows(buf: seq<Byte>, i: nat, j: nat): (n: nat)
    requires i <= |buf|
    decreases |buf| - i
  {
    if i >= j || i == |buf| || !WholeAt(buf, i) then 0
    else (if buf[i] == DATA_ROW then 1 else 0) + DataRows(buf, i + MessageSize(buf, i), j)
  }

  /** Number of ReadyForQuery messages among the whole messages of `buf[i..j]`. */
  function ReadyCount(buf: seq<Byte>, i: nat, j: nat): (n: nat)
    requires i <= |buf|
    decreases |buf| - i
  {
    if i >= j || i == |buf| || !WholeAt(buf, i) then 0
    else (if buf[i] == READY_FOR_QUERY then 1 else 0) + ReadyCount(buf, i + MessageSize(buf, i), j)
  }

  /** The walk adds one row per DataRow message it passes. */
  lemma {:induction false} WalkCountsRows(r: Reply, buf: seq<Byte>, i: nat)
    requires i <= |buf|
    ensures Walk(r, buf, i).0.rows == r.rows + DataRows(buf, i, Walk(r, buf, i).1)
    decreases |buf| - i
  {
    if i == |buf| || IsComplete(r) || !WholeAt(buf, i) {
    } else {
      WalkCountsRows(Step(r, buf[i]), buf, i + MessageSize(buf, i));
    }
  }

  /**
   * Starting from an incomplete reply, the walk passes at most one ReadyForQuery, and it
   * ends with a complete reply exactly when it passed one.
   */
  lemma {:induction false} WalkStopsAtReady(r: Reply, buf: seq<Byte>, i: nat)
    requires i <= |buf| && !IsComplete(r)
    ensures ReadyCount(buf, i, Walk(r, buf, i).1) <= 1
    ensures IsComplete(Walk(r, buf, i).0) <==> ReadyCount(buf, i, Walk(r, buf, i).1) == 1
    decreases |buf| - i
  {
    if i == |buf| || !WholeAt(buf, i) {
    } else {
      var r' := Step(r, buf[i]);
      var j := i + MessageSize(buf, i);
      if IsComplete(r') {
        assert buf[i] == READY_FOR_QUERY;
        assert Walk(r, buf, i) == (r', j);
        assert ReadyCount(buf, j, j) == 0;
      } else {
        WalkStopsAtReady(r', buf, j);
      }
    }
  }

  /** A complete reply that saw no rows and no error is an OK reply. */
  lemma {:induction false} WalkOkReply(r: Reply, buf: seq<Byte>, i: nat)
    requires i <= |buf| && !IsComplete(r) && !r.isOk
    ensures var r' := Walk(r, buf, i).0;
            IsComplete(r') ==> (r'.isOk <==> r'.rows == 0 && !r'.errored)
    decreases |buf| - i
  {
    if i < |buf| && WholeAt(buf, i) {
      var r' := Step(r, buf[i]);
      if !IsComplete(r') {
        assert !r'.isOk;
        WalkOkReply(r', buf, i + MessageSize(buf, i));
      }
    }
  }

  /**
   * The walk stops early only at a complete reply or at a message that has not arrived
   * whole; over a buffer of whole messages it therefore reads everything or completes.
   */
  lemma {:induction false} WalkStopsOnlyAtBoundary(r: Reply, buf: seq<Byte>, i: nat)
    requires i <= |buf|
    ensures var (r', j) := Walk(r, buf, i);
            j == |buf| || IsComplete(r') || !WholeAt(buf, j)
    ensures FramedFrom(buf, i) ==> Walk(r, buf, i).1 == |buf| || IsComplete(Walk(r, buf, i).0)
    decreases |buf| - i
  {
    if i == |buf| || IsComplete(r) || !WholeAt(buf, i) {
    } else {
      WalkStopsOnlyAtBoundary(Step(r, buf[i]), buf, i + MessageSize(buf, i));
    }
  }

  /** The first message of `buf` has arrived whole and its length field covers its header. */
  predicate HasMessage(buf: seq<Byte>)
  {
    |buf| >= HEADER_LEN && HEADER_LEN <= MessageSize(buf, 0) <= |buf|
  }

  /** Bytes a reply read takes from `buf`: nothing when the read fails, else the walked stretch. */
  function ReadStretch(r: Reply, buf: seq<Byte>, readFails: bool): (n: nat)
    ensures n <= |buf|
    ensures n > 0 ==> WholeAt(buf, 0)
  {
    if readFails then 0 else Walk(r, buf, 0).1
  }

  /**
   * The loop step of process_packets as written: the type byte is applied to the reply
   * whether or not the message is whole, and the offset advances by the 32-bit sum
   * `len + 1`, which is 0 when the length field is 0xFFFFFFFF.
   */
  function StepAsWritten(r: Reply, buf: seq<Byte>, i: nat): (res: (Reply, nat))
    requires i + HEADER_LEN <= |buf|
    ensures res.0 == Step(r, buf[i])
    ensures res.1 == i + (Uint32At(buf, i + 1) + 1) % TWO_TO_32
  {
    (Step(r, buf[i]), i + (Uint32At(buf, i + 1) + 1) % TWO_TO_32)
  }

  /**
   * A read that ends inside a DataRow: as written the row is counted and the offset
   * passes the end of the buffer; the guarded walk leaves the bytes for the next read.
   */
  lemma PartialRowCountedAsWritten()
    ensures var buf := [DATA_ROW, 0, 0, 0, 10, 0];
            var r := TrackingReply(TrackedQuery(QUERY, 6));
            StepAsWritten(r, buf, 0).0.rows == 1 && StepAsWritten(r, buf, 0).1 > |buf| &&
            Walk(r, buf, 0) == (r, 0)
  {
    var buf: seq<Byte> := [DATA_ROW, 0, 0, 0, 10, 0];
    assert Uint32At(buf, 1) == 10;
    assert !WholeAt(buf, 0);
  }

  /**
   * A length field of 0xFFFFFFFF: as written the offset does not move, so the loop reads
   * the same DataRow header again and again; the guarded walk stops there.
   */
  lemma MaxLengthStallsAsWritten()
    ensures var buf := [DATA_ROW, 0xff, 0xff, 0xff, 0xff];
            var r := TrackingReply(TrackedQuery(QUERY, 5));
            StepAsWritten(r, buf, 0).1 == 0 && !IsComplete(StepAsWritten(r, buf, 0).0) &&
            Walk(r, buf, 0) == (r, 0)
  {
    var buf: seq<Byte> := [DATA_ROW, 0xff, 0xff, 0xff, 0xff];
    assert Uint32At(buf, 1) == 0xffff_ffff;
    assert !WholeAt(buf, 0);
  }

  /** The outcome list once a write has used its entry. */
  function Rest(outs: seq<bool>): (r: seq<bool>)
    ensures outs != [] ==> r == outs[1..]
    ensures outs == [] ==> r == []
  {
    if outs == [] then [] else outs[1..]
  }

  /** Whether the next write succeeds: the head of `outs`, or `dflt` once the list is used up. */
  predicate NextOk(outs: seq<bool>, dflt: bool)
  {
    if outs == [] then dflt else outs[0]
  }

  /**
   * How many of `n` writes in a row succeed before the first failure, when `outs` lists
   * the coming outcomes and `dflt` answers once the list runs out.
   */
  function Accepted(outs: seq<bool>, dflt: bool, n: nat): (k: nat)
    ensures k <= n
  {
    if n == 0 then 0
    else if NextOk(outs, dflt) then 1 + Accepted(Rest(outs), dflt, n - 1)
    else 0
  }

  lemma AcceptedStep(outs: seq<bool>, dflt: bool, n: nat)
    requires n > 0
    ensures Accepted(outs, dflt, n) == if NextOk(outs, dflt) then 1 + Accepted(Rest(outs), dflt, n - 1) else 0
  {
  }

  /**
   * The socket side of the connection, reduced to what the connection observes: whether
   * writes are accepted, what was queued for writing, the bytes the server has sent and
   * not yet read, and how the TLS layer answers.
   */
  class Dcb {
    var usingSsl: bool
    /** Outcomes of the coming writes, in order; once they run out, every write gets `acceptsWrites`. */
    var writeOutcomes: seq<bool>
    const acceptsWrites: bool
    var writeq: seq<seq<Byte>>
    var readable: seq<Byte>
    var readFails: bool
    var handshakeFails: bool
    var sslState: SslState
    var open: bool

    constructor (usingSsl: bool, writeOutcomes: seq<bool>, acceptsWrites: bool, readable: seq<Byte>, readFails: bool,
                 handshakeFails: bool, sslState: SslState)
      ensures this.usingSsl == usingSsl && this.acceptsWrites == acceptsWrites
      ensures this.writeOutcomes == writeOutcomes
      ensures this.readable == readable && this.readFails == readFails
      ensures this.handshakeFails == handshakeFails && this.sslState == sslState
      ensures writeq == [] && open
    {
      this.usingSsl := usingSsl;
      this.acceptsWrites := acceptsWrites;
      this.writeOutcomes := writeOutcomes;
      this.readable := readable;
      this.readFails := readFails;
      this.handshakeFails := handshakeFails;
      this.sslState := sslState;
      writeq := [];
      open := true;
    }

    /** writeq_append: queue `m` for writing if the socket accepts this write. */
    method WriteqAppend(m: seq<Byte>) returns (ok: bool)
      modifies this`writeq, this`writeOutcomes
      ensures ok == NextOk(old(writeOutcomes), acceptsWrites)
      ensures writeOutcomes == Rest(old(writeOutcomes))
      ensures writeq == if ok then old(writeq) + [m] else old(writeq)
    {
      ok := NextOk(writeOutcomes, acceptsWrites);
      writeOutcomes := Rest(writeOutcomes);
      if ok {
        writeq := writeq + [m];
      }
    }

    /** read_strict(1, 1): one byte, or nothing when no data is there. */
    method ReadByte() returns (ok: bool, b: Option<Byte>)
      modifies this`readable
      ensures ok == !readFails
      ensures ok && |old(readable)| > 0 ==> b == Some(old(readable)[0]) && readable == old(readable)[1..]
      ensures !ok || |old(readable)| == 0 ==> b == None && readable == old(readable)
    {
      ok := !readFails;
      b := None;
      if ok && |readable| > 0 {
        b := Some(readable[0]);
        readable := readable[1..];
      }
    }

    /**
     * pg::read_packet: one whole message, nothing when only part of one has arrived, and
     * a failure when the read fails or the length field is below 4.
     */
    method ReadPacket() returns (ok: bool, p: Option<seq<Byte>>)
      modifies this`readable
      ensures ok == (!readFails && (|old(readable)| < HEADER_LEN || MessageSize(old(readable), 0) >= HEADER_LEN))
      ensures p.Some? <==> !readFails && HasMessage(old(readable))
      ensures p.Some? ==> |p.value| == MessageSize(old(readable), 0) && old(readable) == p.value + readable
      ensures p.None? ==> readable == old(readable)
    {
      ok := false;
      p := None;
      if !readFails {
        if |readable| < HEADER_LEN {
          ok := true;
        } else if MessageSize(readable, 0) >= HEADER_LEN {
          ok := true;
          var n := MessageSize(readable, 0);
          if n <= |readable| {
            p := Some(readable[..n]);
            assert readable[..n][1..5] == readable[1..5];
            readable := readable[n..];
          }
        }
      }
    }

    /** read(HEADER_LEN, 0): everything that has arrived, once at least a header is there. */
    method ReadMessages() returns (ok: bool, buf: seq<Byte>)
      modifies this`readable
      ensures ok == !readFails
      ensures ok && |old(readable)| >= HEADER_LEN ==> buf == old(readable) && readable == []
      ensures !ok || |old(readable)| < HEADER_LEN ==> buf == [] && readable == old(readable)
    {
      ok := !readFails;
      buf := [];
      if ok && |readable| >= HEADER_LEN {
        buf := readable;
        readable := [];
      }
    }

    /** unread: give bytes back so that the next read starts with them. */
    method Unread(buf: seq<Byte>)
      modifies this`readable
      ensures readable == buf + old(readable)
    {
      readable := buf + readable;
    }

    /** ssl_handshake: -1 on failure. */
    method SslHandshakeStart() returns (r: int)
      ensures r == -1 <==> handshakeFails
    {
      r := if handshakeFails then -1 else 1;
    }
  }

  /** The tracking part of write() in ROUTING for one message: track_query when a reply is expected. */
  function TrackOne(reply: Reply, queue: seq<TrackedQuery>, m: Packet, willRespond: seq<Byte> -> bool)
    : (res: (Reply, seq<TrackedQuery>))
    ensures !willRespond(m) ==> res == (reply, queue)
    ensures willRespond(m) && IsComplete(reply) ==> res == (TrackingReply(QueryOf(m)), queue)
    ensures willRespond(m) && !IsComplete(reply) ==> res == (reply, queue + [QueryOf(m)])
  {
    if !willRespond(m) then (reply, queue)
    else if IsComplete(reply) then (TrackingReply(QueryOf(m)), queue)
    else (reply, queue + [QueryOf(m)])
  }

  /** The tracking part of write() in ROUTING over a sequence of messages, in order. */
  function TrackAll(reply: Reply, queue: seq<TrackedQuery>, ms: seq<Packet>, willRespond: seq<Byte> -> bool)
    : (res: (Reply, seq<TrackedQuery>))
    decreases |ms|
  {
    if ms == [] then (reply, queue)
    else
      var (r1, q1) := TrackOne(reply, queue, ms[0], willRespond);
      TrackAll(r1, q1, ms[1..], willRespond)
  }

  /**
   * Tracking writes only ever appends to the queue: what was queued stays queued, in
   * order, and each write adds at most one entry.
   */
  lemma {:induction false} TrackAllAppends(reply: Reply, queue: seq<TrackedQuery>, ms: seq<Packet>,
                                          willRespond: seq<Byte> -> bool)
    ensures var q := TrackAll(reply, queue, ms, willRespond).1;
            |queue| <= |q| <= |queue| + |ms| && q[..|queue|] == queue
    decreases |ms|
  {
    if ms != [] {
      var (r1, q1) := TrackOne(reply, queue, ms[0], willRespond);
      TrackAllAppends(r1, q1, ms[1..], willRespond);
      var q := TrackAll(reply, queue, ms, willRespond).1;
      assert q[..|q1|][..|queue|] == q[..|queue|];
    }
  }

  /** What the write loop of send_backlog has produced so far, and how many writes succeeded. */
  datatype Sent = Sent(reply: Reply, queue: seq<TrackedQuery>, writeq: seq<seq<Byte>>, outs: seq<bool>, count: nat)

  /**
   * The write loop of send_backlog on values: each message is tracked and written; the
   * loop stops after the first write that fails.
   */
  function SendRun(s: Sent, dflt: bool, ms: seq<Packet>, willRespond: seq<Byte> -> bool): Sent
    decreases |ms|
  {
    if ms == [] then s
    else
      var (r1, q1) := TrackOne(s.reply, s.queue, ms[0], willRespond);
      if NextOk(s.outs, dflt) then
        SendRun(Sent(r1, q1, s.writeq + [ms[0]], Rest(s.outs), s.count + 1), dflt, ms[1..], willRespond)
      else Sent(r1, q1, s.writeq, Rest(s.outs), s.count)
  }

  /** The loop writes exactly the messages before the first failed write, in order. */
  lemma {:induction false} SendRunWrites(s: Sent, dflt: bool, ms: seq<Packet>, willRespond: seq<Byte> -> bool)
    ensures var k := Accepted(s.outs, dflt, |ms|);
            var res := SendRun(s, dflt, ms, willRespond);
            res.count == s.count + k && res.writeq == s.writeq + ms[..k]
    decreases |ms|
  {
    if ms != [] && NextOk(s.outs, dflt) {
      var (r1, q1) := TrackOne(s.reply, s.queue, ms[0], willRespond);
      var k := Accepted(s.outs, dflt, |ms|);
      SendRunWrites(Sent(r1, q1, s.writeq + [ms[0]], Rest(s.outs), s.count + 1), dflt, ms[1..], willRespond);
      assert ms[..k] == [ms[0]] + ms[1..][..k - 1];
    }
  }

  /** The loop has tracked the messages it wrote and the one whose write failed. */
  lemma {:induction false} SendRunTracks(s: Sent, dflt: bool, ms: seq<Packet>, willRespond: seq<Byte> -> bool)
    ensures var k := Accepted(s.outs, dflt, |ms|);
            var res := SendRun(s, dflt, ms, willRespond);
            (res.reply, res.queue) == TrackAll(s.reply, s.queue, ms[..if k < |ms| then k + 1 else k], willRespond)
    decreases |ms|
  {
    if ms != [] {
      var (r1, q1) := TrackOne(s.reply, s.queue, ms[0], willRespond);
      var k := Accepted(s.outs, dflt, |ms|);
      var j := if k < |ms| then k + 1 else k;
      if NextOk(s.outs, dflt) {
        SendRunTracks(Sent(r1, q1, s.writeq + [ms[0]], Rest(s.outs), s.count + 1), dflt, ms[1..], willRespond);
        assert ms[..j][1..] == ms[1..][..j - 1];
      } else {
        assert ms[..j][1..] == [];
      }
    }
  }

  class Connection {
    var state: State
    var dcb: Dcb?
    /** Writes held until the handshake is done, in arrival order. */
    var backlog: seq<Packet>
    /** Queries whose replies start once the current reply completes. */
    var trackQueue: seq<TrackedQuery>
    var reply: Reply
    /** Errors reported to the upstream component, in order. */
    var errors: seq<ErrorType>
    /** Reply chunks passed to the upstream component. */
    var delivered: seq<seq<Byte>>
    var upstreamAccepts: bool
    var sessionKilled: bool
    /** The server's process ID and secret key from BackendKeyData, kept to cancel queries. */
    var processId: nat
    var secretKey: nat
    /** The null-terminated connection parameters of the StartupMessage. */
    const connectParams: seq<Byte>
    /** pg::will_respond: whether the server answers a message (decided outside this model). */
    const willRespond: seq<Byte> -> bool

    /** The connection parameters fit a StartupMessage; they never change. */
    ghost predicate Valid()
    {
      NullTerminated(connectParams) && 8 + |connectParams| < TWO_TO_32
    }

    constructor (connectParams: seq<Byte>, willRespond: seq<Byte> -> bool, upstreamAccepts: bool)
      requires NullTerminated(connectParams) && 8 + |connectParams| < TWO_TO_32
      ensures Valid() && state == Init && dcb == null
      ensures backlog == [] && trackQueue == [] && reply == IdleReply && errors == [] && delivered == []
      ensures this.connectParams == connectParams && this.willRespond == willRespond
      ensures this.upstreamAccepts == upstreamAccepts && !sessionKilled && processId == 0 && secretKey == 0
    {
      state := Init;
      dcb := null;
      backlog := [];
      trackQueue := [];
      reply := IdleReply;
      errors := [];
      delivered := [];
      this.connectParams := connectParams;
      this.willRespond := willRespond;
      this.upstreamAccepts := upstreamAccepts;
      sessionKilled := false;
      processId := 0;
      secretKey := 0;
    }

    /** handle_error: report to the upstream component and fail for good. */
    method HandleError(t: ErrorType)
      modifies this`errors, this`state
      ensures state == Failed && errors == old(errors) + [t]
    {
      errors := errors + [t];
      state := Failed;
    }

    /** check_size: a message shorter than `bytes` is a permanent error. */
    method CheckSize(m: seq<Byte>, bytes: nat) returns (ok: bool)
      modifies this`errors, this`state
      ensures ok == (|m| >= bytes)
      ensures ok ==> state == old(state) && errors == old(errors)
      ensures !ok ==> state == Failed && errors == old(errors) + [Permanent]
    {
      ok := |m| >= bytes;
      if !ok {
        HandleError(Permanent);
      }
    }

    method SendSslRequest()
      requires dcb != null
      modifies this`state, this`errors, dcb`writeq, dcb`writeOutcomes
      ensures NextOk(old(dcb.writeOutcomes), dcb.acceptsWrites) ==> state == SslRequestSent && dcb.writeq == old(dcb.writeq) + [SslRequest()]
      ensures NextOk(old(dcb.writeOutcomes), dcb.acceptsWrites) ==> errors == old(errors)
      ensures !NextOk(old(dcb.writeOutcomes), dcb.acceptsWrites) ==> state == Failed && dcb.writeq == old(dcb.writeq)
      ensures !NextOk(old(dcb.writeOutcomes), dcb.acceptsWrites) ==> errors == old(errors) + [Transient]
      ensures dcb.writeOutcomes == Rest(old(dcb.writeOutcomes))
    {
      var ok := dcb.WriteqAppend(SslRequest());
      if ok {
        state := SslRequestSent;
      } else {
        HandleError(Transient);
      }
    }

    method SendStartupMessage()
      requires dcb != null && Valid()
      modifies this`state, this`errors, dcb`writeq, dcb`writeOutcomes
      ensures NextOk(old(dcb.writeOutcomes), dcb.acceptsWrites) ==> state == Auth && dcb.writeq == old(dcb.writeq) + [StartupMessage(connectParams)]
      ensures NextOk(old(dcb.writeOutcomes), dcb.acceptsWrites) ==> errors == old(errors)
      ensures !NextOk(old(dcb.writeOutcomes), dcb.acceptsWrites) ==> state == Failed && dcb.writeq == old(dcb.writeq)
      ensures !NextOk(old(dcb.writeOutcomes), dcb.acceptsWrites) ==> errors == old(errors) + [Transient]
      ensures dcb.writeOutcomes == Rest(old(dcb.writeOutcomes))
    {
      var ok := dcb.WriteqAppend(StartupMessage(connectParams));
      if ok {
        state := Auth;
      } else {
        HandleError(Transient);
      }
    }

    /** set_dcb: the client speaks first, with an SSLRequest when TLS is configured. */
    method SetDcb(d: Dcb)
      requires Valid()
      modifies this, d`writeq, d`writeOutcomes
      ensures Valid() && dcb == d && backlog == old(backlog) && trackQueue == old(trackQueue)
      ensures old(state) != Init ==> state == old(state) && d.writeq == old(d.writeq)
      ensures old(state) == Init && d.usingSsl && NextOk(old(d.writeOutcomes), d.acceptsWrites) ==>
                state == SslRequestSent && d.writeq == old(d.writeq) + [SslRequest()]
      ensures old(state) == Init && !d.usingSsl && NextOk(old(d.writeOutcomes), d.acceptsWrites) ==>
                state == Auth && d.writeq == old(d.writeq) + [StartupMessage(connectParams)]
      ensures old(state) == Init && !NextOk(old(d.writeOutcomes), d.acceptsWrites) ==> state == Failed && d.writeq == old(d.writeq)
    {
      dcb := d;
      if state == Init {
        if d.usingSsl {
          SendSslRequest();
        } else {
          SendStartupMessage();
        }
      }
    }

    /** handle_ssl_request: the server's one-byte answer to the SSLRequest. */
    method HandleSslRequest() returns (keepGoing: bool)
      requires dcb != null && Valid() && state == SslRequestSent
      requires dcb.readFails || |dcb.readable| > 0
      modifies this`state, this`errors, dcb`writeq, dcb`writeOutcomes, dcb`readable
      ensures Valid() && keepGoing == (state != Failed)
      ensures old(dcb.readFails) ==> state == Failed && dcb.readable == old(dcb.readable)
      ensures !old(dcb.readFails) ==> dcb.readable == old(dcb.readable)[1..]
      ensures !old(dcb.readFails) && old(dcb.readable)[0] == SSLREQ_NO ==>
                (state == Auth <==> NextOk(old(dcb.writeOutcomes), dcb.acceptsWrites)) && (state == Auth || state == Failed)
      ensures !old(dcb.readFails) && old(dcb.readable)[0] == SSLREQ_YES ==>
                (state == SslHandshake <==> !dcb.handshakeFails) && (state == SslHandshake || state == Failed)
      ensures !old(dcb.readFails) && old(dcb.readable)[0] != SSLREQ_NO && old(dcb.readable)[0] != SSLREQ_YES ==>
                state == Failed
      ensures Rank(state) < Rank(old(state))
    {
      var ok, b := dcb.ReadByte();
      if ok {
        var response := b.value;
        if response == SSLREQ_NO {
          SendStartupMessage();
        } else if response == SSLREQ_YES {
          var r := dcb.SslHandshakeStart();
          if r == -1 {
            HandleError(Transient);
          } else {
            state := SslHandshake;
          }
        } else {
          HandleError(Transient);
        }
      } else {
        HandleError(Transient);
      }
      keepGoing := state != Failed;
    }

    /** handle_ssl_handshake: once TLS is up, send the StartupMessage. */
    method HandleSslHandshake() returns (keepGoing: bool)
      requires dcb != null && Valid() && state == SslHandshake
      modifies this`state, this`errors, dcb`writeq, dcb`writeOutcomes
      ensures Valid() && Rank(state) <= Rank(old(state))
      ensures dcb.sslState == Established ==> keepGoing && (state == Auth <==> NextOk(old(dcb.writeOutcomes), dcb.acceptsWrites))
      ensures dcb.sslState == Established ==> state == Auth || state == Failed
      ensures dcb.sslState == HandshakeRequired ==> !keepGoing && state == old(state)
      ensures dcb.sslState == HandshakeFailed ==> !keepGoing && state == Failed
    {
      keepGoing := false;
      match dcb.sslState
      case Established =>
        SendStartupMessage();
        keepGoing := true;
      case HandshakeRequired =>
      case HandshakeFailed =>
        HandleError(Transient);
    }

    /** handle_auth: only AuthenticationOk moves on; everything else fails. */
    method HandleAuth() returns (keepGoing: bool)
      requires dcb != null && state == Auth
      modifies this`state, this`errors, dcb`readable
      ensures |dcb.readable| <= |old(dcb.readable)|
      ensures keepGoing ==> |dcb.readable| < |old(dcb.readable)| || state == Failed
      ensures keepGoing ==> state == Startup || state == Failed
      ensures !keepGoing ==> state == Auth && dcb.readable == old(dcb.readable)
      ensures state == Startup <==>
                !old(dcb.readFails) && |old(dcb.readable)| >= HEADER_LEN + 4 && old(dcb.readable)[0] == AUTHENTICATION &&
                MessageSize(old(dcb.readable), 0) >= HEADER_LEN + 4 &&
                MessageSize(old(dcb.readable), 0) <= |old(dcb.readable)| &&
                Uint32At(old(dcb.readable), HEADER_LEN) == AUTH_OK
    {
      var ok, p := dcb.ReadPacket();
      if !ok {
        HandleError(Transient);
        return true;
      }
      if p.None? {
        return false;  // partial read, wait for more
      }
      var m := p.value;
      assert forall k :: 0 <= k < |m| ==> old(dcb.readable)[k] == m[k];
      var command := m[0];
      if command == AUTHENTICATION {
        var sizeOk := CheckSize(m, HEADER_LEN + 4);
        if sizeOk {
          if Uint32At(m, HEADER_LEN) == AUTH_OK {
            state := Startup;
          } else {
            HandleError(Transient);
          }
        }
      } else if command == ERROR_RESPONSE {
        HandleError(Permanent);
      } else {
        HandleError(Permanent);
      }
      keepGoing := true;
    }

    /** write(): hold the message until routing starts, otherwise track it and write it. */
    method Write(m: Packet) returns (ok: bool)
      requires dcb != null
      modifies this`backlog, this`reply, this`trackQueue, dcb`writeq, dcb`writeOutcomes
      ensures state != Routing ==> ok && backlog == old(backlog) + [m] && dcb.writeq == old(dcb.writeq)
      ensures state != Routing ==> reply == old(reply) && trackQueue == old(trackQueue)
      ensures state != Routing ==> dcb.writeOutcomes == old(dcb.writeOutcomes)
      ensures state == Routing ==> backlog == old(backlog) && ok == NextOk(old(dcb.writeOutcomes), dcb.acceptsWrites)
      ensures state == Routing ==> dcb.writeOutcomes == Rest(old(dcb.writeOutcomes))
      ensures state == Routing ==> dcb.writeq == if ok then old(dcb.writeq) + [m] else old(dcb.writeq)
      ensures state == Routing ==> (reply, trackQueue) == TrackOne(old(reply), old(trackQueue), m, willRespond)
    {
      if state != Routing {
        backlog := backlog + [m];
        return true;
      }
      if willRespond(m) {
        TrackQuery(QueryOf(m));
      }
      ok := dcb.WriteqAppend(m);
    }

    /** track_query: start tracking now if idle, otherwise queue the query. */
    method TrackQuery(q: TrackedQuery)
      modifies this`reply, this`trackQueue
      ensures IsComplete(old(reply)) ==> reply == TrackingReply(q) && trackQueue == old(trackQueue)
      ensures !IsComplete(old(reply)) ==> reply == old(reply) && trackQueue == old(trackQueue) + [q]
    {
      if IsComplete(reply) {
        StartTracking(q);
      } else {
        trackQueue := trackQueue + [q];
      }
    }

    /** start_tracking: a fresh reply for the query. */
    method StartTracking(q: TrackedQuery)
      modifies this`reply
      ensures reply == TrackingReply(q)
    {
      reply := TrackingReply(q);
    }

    /** track_next_result: start the oldest queued query, if there is one. */
    method TrackNextResult() returns (more: bool)
      modifies this`reply, this`trackQueue
      ensures more == (|old(trackQueue)| > 0)
      ensures more ==> reply == TrackingReply(old(trackQueue)[0]) && trackQueue == old(trackQueue)[1..]
      ensures !more ==> reply == old(reply) && trackQueue == old(trackQueue)
    {
      more := |trackQueue| > 0;
      if more {
        StartTracking(trackQueue[0]);
        trackQueue := trackQueue[1..];
      }
    }

    /**
     * The loop of send_backlog: write `packets` in order up to the first write that fails;
     * `n` is the number written.
     */
    method WriteInOrder(packets: seq<Packet>) returns (n: nat)
      requires dcb != null && state == Routing
      modifies this`backlog, this`reply, this`trackQueue, dcb`writeq, dcb`writeOutcomes
      ensures backlog == old(backlog)
      ensures SendRun(Sent(old(reply), old(trackQueue), old(dcb.writeq), old(dcb.writeOutcomes), 0),
                      dcb.acceptsWrites, packets, willRespond) ==
              Sent(reply, trackQueue, dcb.writeq, dcb.writeOutcomes, n)
    {
      ghost var goal := SendRun(Sent(reply, trackQueue, dcb.writeq, dcb.writeOutcomes, 0),
                                dcb.acceptsWrites, packets, willRespond);
      n := 0;
      while n < |packets|
        invariant n <= |packets| && backlog == old(backlog)
        invariant SendRun(Sent(reply, trackQueue, dcb.writeq, dcb.writeOutcomes, n),
                          dcb.acceptsWrites, packets[n..], willRespond) == goal
        decreases |packets| - n
      {
        assert packets[n..][1..] == packets[n + 1..];
        var ok := Write(packets[n]);
        if !ok {
          return;
        }
        n := n + 1;
      }
    }

    /**
     * send_backlog: once routing starts, write the held messages in order. A failed write
     * fails the connection and drops what was not yet written.
     */
    method SendBacklog()
      requires dcb != null && Valid() && state == Routing
      modifies this`backlog, this`reply, this`trackQueue, this`state, this`errors, dcb`writeq, dcb`writeOutcomes
      ensures Valid() && backlog == []
      ensures var k := Accepted(old(dcb.writeOutcomes), dcb.acceptsWrites, |old(backlog)|);
              dcb.writeq == old(dcb.writeq) + old(backlog)[..k] && (state == Routing <==> k == |old(backlog)|)
      ensures state == Routing ==> errors == old(errors)
      ensures state == Routing ==> (reply, trackQueue) == TrackAll(old(reply), old(trackQueue), old(backlog), willRespond)
      ensures state != Routing ==> state == Failed && errors == old(errors) + [Transient]
      ensures state != Routing ==>
                var k := Accepted(old(dcb.writeOutcomes), dcb.acceptsWrites, |old(backlog)|);
                k < |old(backlog)| &&
                (reply, trackQueue) == TrackAll(old(reply), old(trackQueue), old(backlog)[..k + 1], willRespond)
    {
      var packets := backlog;
      backlog := [];
      var n := WriteInOrder(packets);
      ghost var start := Sent(old(reply), old(trackQueue), old(dcb.writeq), old(dcb.writeOutcomes), 0);
      SendRunWrites(start, dcb.acceptsWrites, packets, willRespond);
      SendRunTracks(start, dcb.acceptsWrites, packets, willRespond);
      if n < |packets| {
        HandleError(Transient);
      }
      assert packets[..|packets|] == packets;
    }

    /** handle_startup: wait for ReadyForQuery, then route and flush the backlog. */
    method HandleStartup() returns (keepGoing: bool)
      requires dcb != null && Valid() && state == Startup
      modifies this, dcb`readable, dcb`writeq, dcb`writeOutcomes
      ensures Valid() && dcb == old(dcb)
      ensures |dcb.readable| <= |old(dcb.readable)|
      ensures |dcb.readable| == |old(dcb.readable)| ==> trackQueue == old(trackQueue)
      ensures keepGoing ==> |dcb.readable| < |old(dcb.readable)| || state == Failed
      ensures state == Startup || state == Routing || state == Failed
      ensures !keepGoing ==> state == Startup && dcb.readable == old(dcb.readable)
      ensures old(dcb.readFails) ==> keepGoing && state == Failed && errors == old(errors) + [Transient]
      ensures state == Routing ==> backlog == [] && errors == old(errors)
      ensures var m := old(dcb.readable);
              !old(dcb.readFails) && HasMessage(m) ==>
                keepGoing && dcb.readable == m[MessageSize(m, 0)..] &&
                (m[0] == READY_FOR_QUERY ==>
                   var k := Accepted(old(dcb.writeOutcomes), dcb.acceptsWrites, |old(backlog)|);
                   backlog == [] && dcb.writeq == old(dcb.writeq) + old(backlog)[..k] &&
                   (state == Routing <==> k == |old(backlog)|) && (state == Routing || state == Failed)) &&
                (m[0] == ERROR_RESPONSE ==> state == Failed && errors == old(errors) + [Permanent]) &&
                (m[0] == AUTHENTICATION ==> state == Failed) &&
                (m[0] == BACKEND_KEY_DATA && MessageSize(m, 0) >= HEADER_LEN + 8 ==>
                   state == Startup && processId == Uint32At(m, HEADER_LEN) &&
                   secretKey == Uint32At(m, HEADER_LEN + 4)) &&
                (m[0] == BACKEND_KEY_DATA && MessageSize(m, 0) < HEADER_LEN + 8 ==>
                   state == Failed && errors == old(errors) + [Permanent]) &&
                (m[0] !in {AUTHENTICATION, BACKEND_KEY_DATA, READY_FOR_QUERY, ERROR_RESPONSE} ==>
                   state == Startup && errors == old(errors) && backlog == old(backlog))
    {
      var ok, p := dcb.ReadPacket();
      if !ok {
        HandleError(Transient);
        return true;
      }
      if p.None? {
        return false;  // partial read, wait for more
      }
      var m := p.value;
      assert forall k :: 0 <= k < |m| ==> old(dcb.readable)[k] == m[k];
      var command := m[0];
      if command == AUTHENTICATION {
        var sizeOk := CheckSize(m, HEADER_LEN + 4);
        if sizeOk {
          HandleError(Transient);  // no authentication message is expected any more
        }
      } else if command == BACKEND_KEY_DATA {
        var sizeOk := CheckSize(m, HEADER_LEN + 8);
        if sizeOk {
          // kept to cancel the query or kill the connection later
          processId := Uint32At(m, HEADER_LEN);
          secretKey := Uint32At(m, HEADER_LEN + 4);
        }
      } else if command == READY_FOR_QUERY {
        state := Routing;
        SendBacklog();
      } else if command == ERROR_RESPONSE {
        HandleError(Permanent);
      }
      // ParameterStatus, NoticeResponse and anything else are ignored
      keepGoing := true;
    }

    /**
     * process_packets, with the walk guarded at messages that have not arrived whole and
     * the message size summed in 64 bits: walk until the reply completes and return the
     * part walked.
     */
    method ProcessPackets(buffer: seq<Byte>) returns (complete: seq<Byte>)
      modifies this`reply
      ensures var (r, size) := Walk(old(reply), buffer, 0);
              complete == buffer[..size] && reply == r.(bytes := r.bytes + size)
    {
      var size := 0;
      while size < |buffer| && !IsComplete(reply) && WholeAt(buffer, size)
        invariant size <= |buffer|
        invariant Walk(old(reply), buffer, 0) == Walk(reply, buffer, size)
        invariant reply.bytes == old(reply).bytes
        decreases |buffer| - size
      {
        var command := buffer[size];
        var len := Uint32At(buffer, size + 1);
        reply := Step(reply, command);
        size := size + len + 1;
      }
      reply := reply.(bytes := reply.bytes + size);
      complete := buffer[..size];
    }

    /** read_complete_packets: the messages of one reply, with the rest given back. */
    method ReadCompletePackets() returns (complete: seq<Byte>)
      requires dcb != null
      modifies this`reply, this`state, this`errors, dcb`readable
      ensures old(dcb.readable) == complete + dcb.readable
      ensures complete == old(dcb.readable)[..ReadStretch(old(reply), old(dcb.readable), old(dcb.readFails))]
      ensures old(dcb.readFails) ==> state == Failed && errors == old(errors) + [Transient] && reply == old(reply)
      ensures !old(dcb.readFails) ==> state == old(state) && errors == old(errors)
      ensures !old(dcb.readFails) ==>
                var (r, size) := Walk(old(reply), old(dcb.readable), 0);
                reply == r.(bytes := r.bytes + size)
    {
      complete := [];
      var ok, buf := dcb.ReadMessages();
      if !ok {
        HandleError(Transient);
      } else if buf != [] {
        complete := ProcessPackets(buf);
        assert buf == complete + buf[|complete|..];
        dcb.Unread(buf[|complete|..]);
      } else {
        // not even a header has arrived: the walk stops at once
        assert Walk(old(reply), old(dcb.readable), 0) == (old(reply), 0);
        assert reply == reply.(bytes := reply.bytes + 0);
      }
    }

    /** handle_routing: pass a reply upstream; if it completed, start on the next tracked query. */
    method HandleRouting() returns (keepGoing: bool)
      requires dcb != null && Valid() && state == Routing
      modifies this, dcb`readable
      ensures Valid() && dcb == old(dcb) && backlog == old(backlog)
      ensures |dcb.readable| <= |old(dcb.readable)|
      ensures |dcb.readable| == |old(dcb.readable)| ==> trackQueue == old(trackQueue) && !keepGoing
      ensures old(dcb.readFails) ==> state == Failed && !keepGoing && delivered == old(delivered)
      ensures var n := ReadStretch(old(reply), old(dcb.readable), old(dcb.readFails));
              var r := Walk(old(reply), old(dcb.readable), 0).0;
              (!old(dcb.readFails) ==> state == Routing && dcb.readable == old(dcb.readable)[n..]) &&
              (n == 0 ==> delivered == old(delivered) && !keepGoing && trackQueue == old(trackQueue)) &&
              (n > 0 ==> delivered == old(delivered) + [old(dcb.readable)[..n]]) &&
              (n > 0 && !upstreamAccepts ==> sessionKilled) &&
              (keepGoing <==> n > 0 && upstreamAccepts && dcb.open && IsComplete(r) && old(trackQueue) != []) &&
              (keepGoing ==> reply == TrackingReply(old(trackQueue)[0]) && trackQueue == old(trackQueue)[1..]) &&
              (!keepGoing ==> trackQueue == old(trackQueue))
    {
      keepGoing := false;
      var complete := ReadCompletePackets();
      if complete != [] {
        delivered := delivered + [complete];
        if !upstreamAccepts {
          sessionKilled := true;
        } else if !dcb.open {
          // closed while the reply was being delivered
        } else if IsComplete(reply) {
          keepGoing := TrackNextResult();
        }
      }
    }

    /**
     * ready_for_reading: run the handler of the current state for as long as it asks to
     * go on. FAILED stops the loop.
     */
    method ReadyForReading()
      requires dcb != null && Valid()
      requires state == SslRequestSent ==> dcb.readFails || |dcb.readable| > 0
      modifies this, dcb`readable, dcb`writeq, dcb`writeOutcomes
      ensures Valid() && dcb == old(dcb)
      ensures old(state) == Failed ==> state == Failed && dcb.readable == old(dcb.readable)
      ensures old(state) == Init ==> state == Failed
      ensures Rank(state) <= Rank(old(state))
    {
      var keepGoing := true;
      while keepGoing
        invariant Valid() && dcb == old(dcb)
        invariant Rank(state) <= Rank(old(state))
        invariant old(state) == Failed ==> state == Failed && dcb.readable == old(dcb.readable)
        invariant old(state) == Init ==> (state == Init <==> keepGoing) && (state == Init || state == Failed)
        invariant state == SslRequestSent ==> state == old(state) && dcb.readable == old(dcb.readable)
        decreases |dcb.readable|, |trackQueue|, Rank(state), if keepGoing then 1 else 0
      {
        match state
        case SslRequestSent =>
          keepGoing := HandleSslRequest();
        case SslHandshake =>
          keepGoing := HandleSslHandshake();
        case Auth =>
          keepGoing := HandleAuth();
        case Startup =>
          keepGoing := HandleStartup();
        case Routing =>
          keepGoing := HandleRouting();
        case Failed =>
          keepGoing := false;
        case Init =>
          HandleError(Transient);  // no data can arrive before the first message is sent
          keepGoing := false;
      }
    }

    /** finish_connection: queue a Terminate message. */
    method FinishConnection()
      requires dcb != null
      modifies dcb`writeq, dcb`writeOutcomes
      ensures dcb.writeq == if NextOk(old(dcb.writeOutcomes), dcb.acceptsWrites) then old(dcb.writeq) + [Terminate()] else old(dcb.writeq)
      ensures dcb.writeOutcomes == Rest(old(dcb.writeOutcomes))
    {
      var _ := dcb.WriteqAppend(Terminate());
    }
  }
}
