/**
 * The tee filter: every statement of a session goes down the main chain and, when it
 * matches, is duplicated to a branch service. The filter counts the replies of both
 * branches and hands the client one combined reply. Packets follow the MySQL/MariaDB
 * client/server protocol: a 3-byte little-endian payload length, a sequence byte, then
 * the payload whose first byte is the command or the reply kind.
 */
module Tee {
  import opened Common

  type Buffer = seq<Byte>

  const COM_QUIT: Byte := 0x01
  const COM_INITDB: Byte := 0x02
  const COM_QUERY: Byte := 0x03
  const COM_FIELD_LIST: Byte := 0x04
  const COM_PROCESS_INFO: Byte := 0x0a
  const COM_CHANGE_USER: Byte := 0x11
  const COM_STMT_PREPARE: Byte := 0x16
  const COM_STMT_EXECUTE: Byte := 0x17
  const COM_STMT_SEND_LONG_DATA: Byte := 0x18
  const COM_STMT_CLOSE: Byte := 0x19
  const COM_STMT_RESET: Byte := 0x1a
  /** Named COM_CONNECT in the filter; the protocol calls 0x1b COM_SET_OPTION. */
  const COM_SET_OPTION: Byte := 0x1b

  /** Commands always duplicated to the branch, closed by a 0 sentinel. */
  const REQUIRED_PACKETS: seq<Byte> :=
    [COM_QUIT, COM_INITDB, COM_CHANGE_USER, COM_STMT_PREPARE, COM_STMT_EXECUTE,
     COM_STMT_SEND_LONG_DATA, COM_STMT_CLOSE, COM_STMT_RESET, COM_SET_OPTION, 0]

  const PARENT: nat := 0
  const CHILD: nat := 1

  // ---------------------------------------------------------------------------------
  // Packet framing

  /** The 3-byte little-endian payload length of the packet at `i`. */
  function PacketLen(buf: Buffer, i: nat): (n: nat)
    requires i + 3 <= |buf|
    ensures n < 0x100_0000
  {
    buf[i] as int + (buf[i + 1] as int) * 0x100 + (buf[i + 2] as int) * 0x1_0000
  }

  /** Offset of the packet after the one at `i`: four header bytes plus the payload. */
  function NextPacket(buf: Buffer, i: nat): (j: nat)
    requires i + 3 <= |buf|
    ensures j >= i + 4
  {
    i + PacketLen(buf, i) + 4
  }

  /** Reply kinds, by the first payload byte (and, for EOF, the payload length 5). */
  predicate IsOk(buf: Buffer, i: nat) requires i + 4 < |buf| { buf[i + 4] == 0x00 }
  predicate IsErr(buf: Buffer, i: nat) requires i + 4 < |buf| { buf[i + 4] == 0xff }
  predicate IsLocalInfile(buf: Buffer, i: nat) requires i + 4 < |buf| { buf[i + 4] == 0xfb }
  predicate IsEof(buf: Buffer, i: nat)
    requires i + 4 < |buf|
  {
    buf[i] == 5 && buf[i + 1] == 0 && buf[i + 2] == 0 && buf[i + 4] == 0xfe
  }

  /** `buf[i..]` is whole packets, each with at least its first payload byte. */
  predicate Framed(buf: Buffer, i: nat)
    decreases |buf| - i
  {
    i == |buf| ||
    (i + 3 <= |buf| && PacketLen(buf, i) >= 1 && NextPacket(buf, i) <= |buf| && Framed(buf, NextPacket(buf, i)))
  }

  function PacketCount(buf: Buffer, i: nat): nat
    requires Framed(buf, i)
    decreases |buf| - i
  {
    if i == |buf| then 0 else 1 + PacketCount(buf, NextPacket(buf, i))
  }

  // ---------------------------------------------------------------------------------
  // count_replies

  /**
   * The inner loop of count_replies: skip packets of a result set until two EOF or ERR
   * packets were seen or the buffer ends. Yields the stop offset and the EOF count.
   */
  function SkipResultSet(buf: Buffer, i: nat, eof: nat): (res: (nat, nat))
    requires Framed(buf, i) && eof <= 2
    ensures i <= res.0 <= |buf| && Framed(buf, res.0) && eof <= res.1 <= 2
    ensures i < |buf| && eof < 2 ==> i < res.0
    ensures res.0 < |buf| ==> res.1 == 2
    ensures PacketCount(buf, i) >= PacketCount(buf, res.0) + (if i < res.0 then 1 else 0)
    decreases |buf| - i
  {
    if i == |buf| || eof >= 2 then (i, eof)
    else SkipResultSet(buf, NextPacket(buf, i), eof + (if IsEof(buf, i) || IsErr(buf, i) then 1 else 0))
  }

  /**
   * The replies in `buf[i..]`: an OK, ERR or LOCAL INFILE packet is one reply; any other
   * packet starts a result set, which is one reply once two EOF (or ERR) packets close it.
   */
  function RepliesFrom(buf: Buffer, i: nat): nat
    requires Framed(buf, i)
    decreases |buf| - i
  {
    if i == |buf| then 0
    else if IsOk(buf, i) || IsErr(buf, i) || IsLocalInfile(buf, i) then 1 + RepliesFrom(buf, NextPacket(buf, i))
    else
      var r := SkipResultSet(buf, i, 0);
      (if r.1 == 2 then 1 else 0) + RepliesFrom(buf, r.0)
  }

  /** There are never more replies than packets. */
  lemma {:induction false} RepliesAtMostPackets(buf: Buffer, i: nat)
    requires Framed(buf, i)
    ensures RepliesFrom(buf, i) <= PacketCount(buf, i)
    decreases |buf| - i
  {
    if i < |buf| {
      if IsOk(buf, i) || IsErr(buf, i) || IsLocalInfile(buf, i) {
        RepliesAtMostPackets(buf, NextPacket(buf, i));
      } else {
        var r := SkipResultSet(buf, i, 0);
        RepliesAtMostPackets(buf, r.0);
      }
    }
  }

  /** count_replies over a buffer of complete packets. */
  method CountReplies(buf: Buffer) returns (replies: nat)
    requires Framed(buf, 0)
    ensures replies == RepliesFrom(buf, 0)
    ensures replies <= PacketCount(buf, 0)
  {
    var ptr := 0;
    var eof := 0;
    replies := 0;
    while ptr < |buf|
      invariant ptr <= |buf| && Framed(buf, ptr) && eof == 0
      invariant replies + RepliesFrom(buf, ptr) == RepliesFrom(buf, 0)
      decreases |buf| - ptr
    {
      if IsOk(buf, ptr) || IsErr(buf, ptr) || IsLocalInfile(buf, ptr) {
        replies := replies + 1;
        ptr := NextPacket(buf, ptr);
      } else {
        ghost var start := ptr;
        while ptr < |buf| && eof < 2
          invariant start <= ptr <= |buf| && Framed(buf, ptr) && eof <= 2
          invariant start < ptr || eof == 0
          invariant SkipResultSet(buf, ptr, eof) == SkipResultSet(buf, start, 0)
          decreases |buf| - ptr
        {
          if IsEof(buf, ptr) || IsErr(buf, ptr) {
            eof := eof + 1;
          }
          ptr := NextPacket(buf, ptr);
        }
        if eof == 2 {
          replies := replies + 1;
        }
        eof := 0;
      }
    }
    RepliesAtMostPackets(buf, 0);
  }

  // ---------------------------------------------------------------------------------
  // Length-encoded integers and response flags

  /** lenenc_length: the size of the length-encoded integer that starts with `first`. */
  function LenencLength(first: Byte): (n: nat)
    ensures n == 1 || n == 3 || n == 4 || n == 9
  {
    if first < 251 then 1
    else if first == 0xfc then 3
    else if first == 0xfd then 4
    else 9
  }

  /** The `k` low bytes of `n`, least significant first. */
  function LittleEndian(n: nat, k: nat): (r: Buffer)
    ensures |r| == k
  {
    if k == 0 then [] else [n % 256] + LittleEndian(n / 256, k - 1)
  }

  /** The protocol's shortest encoding of `n` as a length-encoded integer. */
  function LenencEncode(n: nat): (r: Buffer)
    requires n < 0x1_0000_0000_0000_0000
    ensures |r| > 0
  {
    if n < 251 then [n]
    else if n < 0x1_0000 then [0xfc] + LittleEndian(n, 2)
    else if n < 0x100_0000 then [0xfd] + LittleEndian(n, 3)
    else [0xfe] + LittleEndian(n, 8)
  }

  /** The size lenenc_length reads off the first byte is the size of the encoding. */
  lemma LenencLengthOfEncoding(n: nat)
    requires n < 0x1_0000_0000_0000_0000
    ensures LenencLength(LenencEncode(n)[0]) == |LenencEncode(n)|
  {
  }

  /** Two bytes at `i` read into a uint16_t on a little-endian host. */
  function Uint16At(buf: Buffer, i: nat): (n: nat)
    requires i + 2 <= |buf|
    ensures n < 0x1_0000
  {
    buf[i] as int + (buf[i + 1] as int) * 0x100
  }

  lemma {:induction false} Uint16OfLittleEndian(s: nat)
    requires s < 0x1_0000
    ensures Uint16At(LittleEndian(s, 2), 0) == s
  {
    assert LittleEndian(s, 2) == [s % 256, (s / 256) % 256];
  }

  /** Offset of the status flags, as get_response_flags computes it. */
  function FlagsOffsetAsWritten(buf: Buffer, okPacket: bool): (off: nat)
    requires |buf| > 4
    requires okPacket ==> 4 + LenencLength(buf[4]) < |buf|
  {
    if okPacket then 4 + LenencLength(buf[4]) + LenencLength(buf[4 + LenencLength(buf[4])])
    else 6
  }

  /**
   * get_response_flags as written. For an OK packet the first skip passes over the 0x00
   * header byte (as a one-byte length-encoded integer) and the second over affected_rows,
   * so the two bytes read are the start of last_insert_id; for an EOF packet the read
   * starts on the second warnings byte.
   */
  function GetResponseFlagsAsWritten(buf: Buffer, okPacket: bool): (flags: nat)
    requires |buf| > 4
    requires okPacket ==> 4 + LenencLength(buf[4]) < |buf|
    requires FlagsOffsetAsWritten(buf, okPacket) + 2 <= |buf|
    ensures flags < 0x1_0000
  {
    Uint16At(buf, FlagsOffsetAsWritten(buf, okPacket))
  }

  /** Where the status flags are: after header, affected_rows and last_insert_id, or after header and warnings. */
  function FlagsOffset(buf: Buffer, okPacket: bool): (off: nat)
    requires |buf| > 5
    requires okPacket ==> 5 + LenencLength(buf[5]) < |buf|
    ensures off >= 7
  {
    if okPacket then 5 + LenencLength(buf[5]) + LenencLength(buf[5 + LenencLength(buf[5])])
    else 7
  }

  predicate FlagsReadable(buf: Buffer, okPacket: bool)
  {
    |buf| > 5 && (okPacket ==> 5 + LenencLength(buf[5]) < |buf|) && FlagsOffset(buf, okPacket) + 2 <= |buf|
  }

  /** The server status flags of an OK or EOF packet. */
  function GetResponseFlags(buf: Buffer, okPacket: bool): (flags: nat)
    requires FlagsReadable(buf, okPacket)
    ensures flags < 0x1_0000
  {
    Uint16At(buf, FlagsOffset(buf, okPacket))
  }

  /** An OK packet: header, then 0x00, affected_rows, last_insert_id, status flags and warnings. */
  lemma {:induction false} PacketLenOfHeader(n: nat, rest: Buffer)
    requires n < 0x100_0000
    ensures PacketLen(LittleEndian(n, 3) + rest, 0) == n
  {
    var m := n / 256;
    var c := m / 256;
    assert LittleEndian(c, 1) == [c % 256];
    assert LittleEndian(m, 2) == [m % 256] + LittleEndian(c, 1);
    assert LittleEndian(n, 3) == [n % 256] + LittleEndian(m, 2);
    assert n == n % 256 + 256 * m && m == m % 256 + 256 * c && c < 256;
  }

  function OkPacket(seqNo: Byte, affected: nat, insertId: nat, status: nat, warnings: nat): (r: Buffer)
    requires affected < 0x1_0000_0000_0000_0000 && insertId < 0x1_0000_0000_0000_0000
    requires status < 0x1_0000 && warnings < 0x1_0000
    ensures |r| > 4 && r[4] == 0x00 && NextPacket(r, 0) == |r|
  {
    var payload := [0x00 as Byte] + LenencEncode(affected) + LenencEncode(insertId)
                   + LittleEndian(status, 2) + LittleEndian(warnings, 2);
    PacketLenOfHeader(|payload|, [seqNo] + payload);
    assert LittleEndian(|payload|, 3) + [seqNo] + payload == LittleEndian(|payload|, 3) + ([seqNo] + payload);
    LittleEndian(|payload|, 3) + [seqNo] + payload
  }

  /** An EOF packet: header, then 0xfe, warnings and status flags. */
  function EofPacket(seqNo: Byte, warnings: nat, status: nat): (r: Buffer)
    requires status < 0x1_0000 && warnings < 0x1_0000
    ensures |r| == 9 && IsEof(r, 0)
  {
    LittleEndian(5, 3) + [seqNo] + [0xfe] + LittleEndian(warnings, 2) + LittleEndian(status, 2)
  }

  /** The status flags are read back from any OK packet. */
  lemma {:induction false} OkPacketFlags(seqNo: Byte, affected: nat, insertId: nat, status: nat, warnings: nat)
    requires affected < 0x1_0000_0000_0000_0000 && insertId < 0x1_0000_0000_0000_0000
    requires status < 0x1_0000 && warnings < 0x1_0000
    ensures FlagsReadable(OkPacket(seqNo, affected, insertId, status, warnings), true)
    ensures GetResponseFlags(OkPacket(seqNo, affected, insertId, status, warnings), true) == status
  {
    var a := LenencEncode(affected);
    var b := LenencEncode(insertId);
    var s := LittleEndian(status, 2);
    var payload := [0x00 as Byte] + a + b + s + LittleEndian(warnings, 2);
    var r := OkPacket(seqNo, affected, insertId, status, warnings);
    assert r == LittleEndian(|payload|, 3) + [seqNo] + payload;
    LenencLengthOfEncoding(affected);
    LenencLengthOfEncoding(insertId);
    assert r[5] == a[0];
    assert r[5 + |a|] == b[0];
    var off := 5 + |a| + |b|;
    assert FlagsOffset(r, true) == off;
    assert r[off] == s[0] && r[off + 1] == s[1];
    Uint16OfLittleEndian(status);
  }

  /** The status flags are read back from any EOF packet. */
  lemma {:induction false} EofPacketFlags(seqNo: Byte, warnings: nat, status: nat)
    requires status < 0x1_0000 && warnings < 0x1_0000
    ensures FlagsReadable(EofPacket(seqNo, warnings, status), false)
    ensures GetResponseFlags(EofPacket(seqNo, warnings, status), false) == status
  {
    var r := EofPacket(seqNo, warnings, status);
    var s := LittleEndian(status, 2);
    assert r[7] == s[0] && r[8] == s[1];
    Uint16OfLittleEndian(status);
  }

  /** The code as written misreads SERVER_MORE_RESULTS_EXIST (0x08) in a plain OK packet as 0x0800. */
  lemma OkFlagsMisreadAsWritten()
    ensures var r := OkPacket(1, 0, 0, 0x08, 0);
            4 + LenencLength(r[4]) < |r| && FlagsOffsetAsWritten(r, true) + 2 <= |r| &&
            GetResponseFlagsAsWritten(r, true) == 0x0800 && GetResponseFlags(r, true) == 0x08
  {
    var r := OkPacket(1, 0, 0, 0x08, 0);
    assert r == [7, 0, 0, 1, 0, 0, 0, 8, 0, 0, 0];
  }

  /** The code as written reads the second warnings byte and the low status byte of an EOF packet. */
  lemma EofFlagsMisreadAsWritten()
    ensures var r := EofPacket(1, 0, 0x08);
            FlagsOffsetAsWritten(r, false) + 2 <= |r| &&
            GetResponseFlagsAsWritten(r, false) == 0x0800 && GetResponseFlags(r, false) == 0x08
  {
    var r := EofPacket(1, 0, 0x08);
    assert r == [5, 0, 0, 1, 0xfe, 0, 0, 8, 0];
  }

  /** SERVER_MORE_RESULTS_EXIST. */
  predicate MoreResults(flags: nat) { (flags / 8) % 2 == 1 }

  // ---------------------------------------------------------------------------------
  // COM_SET_OPTION

  /** The filter takes any non-zero low option byte of COM_SET_OPTION as "multi-statements on". */
  function MultiStatementsAsWritten(optionLow: Byte): bool { optionLow != 0 }

  /** MYSQL_OPTION_MULTI_STATEMENTS_ON is 0 and MYSQL_OPTION_MULTI_STATEMENTS_OFF is 1. */
  function MultiStatements(optionLow: Byte): (on: bool)
    ensures on <==> optionLow == 0
  {
    optionLow == 0
  }

  /** A client switching multi-statements on is recorded by the code as written as switching them off. */
  lemma SetOptionInvertedAsWritten()
    ensures MultiStatements(0) && !MultiStatementsAsWritten(0)
    ensures !MultiStatements(1) && MultiStatementsAsWritten(1)
  {
  }

  // ---------------------------------------------------------------------------------
  // Session bookkeeping

  /** Commands whose replies may span several packets. */
  predicate MultipacketCommand(c: Byte)
  {
    c == COM_SET_OPTION || c == COM_QUERY || c == COM_STMT_PREPARE || c == COM_STMT_EXECUTE ||
    c == COM_FIELD_LIST || c == COM_PROCESS_INFO
  }

  /** EOF packets that end the reply: one for COM_FIELD_LIST, two for a result set. */
  function MinEof(command: Byte): (n: nat)
    ensures n == 1 <==> command == COM_FIELD_LIST
    ensures n == 1 || n == 2
  {
    if command != COM_FIELD_LIST then 2 else 1
  }

  /** The buffered parent reply is held back while any of these holds. */
  predicate HoldReply(haveReply: bool, waitingParent: bool, waitingChild: bool, multiParent: bool,
                      multiChild: bool, eofParent: int, eofChild: int, minEof: nat)
  {
    !haveReply ||
    (!waitingParent && waitingChild) ||
    ((multiParent || multiChild) && (eofParent < minEof || eofChild < minEof))
  }

  /**
   * After a rejected clone (child not waiting, not multi-packet, two EOFs) the child never
   * holds the reply back: only the parent's own progress does.
   */
  lemma {:induction false} RejectedChildNeverHolds(haveReply: bool, waitingParent: bool, multiParent: bool,
                                                   eofParent: int, minEof: nat)
    requires minEof <= 2
    ensures HoldReply(haveReply, waitingParent, false, multiParent, false, eofParent, 2, minEof) <==>
            !haveReply || (multiParent && eofParent < minEof)
  {
  }

  /** Once both branches finished (not waiting, enough EOFs), a buffered reply goes out. */
  lemma {:induction false} BothDoneReleases(waitingChild: bool, multiParent: bool, multiChild: bool,
                                            eofParent: int, eofChild: int, minEof: nat)
    requires !waitingChild && eofParent >= minEof && eofChild >= minEof
    ensures !HoldReply(true, false, waitingChild, multiParent, multiChild, eofParent, eofChild, minEof)
  {
  }

  /** One branch's waiting flag, multi-packet flag and EOF count. */
  datatype BranchFlags = BranchFlags(wait: bool, multi: bool, count: int)

  /**
   * A reply is complete in its first packet when it is an ERR, LOCAL_INFILE or OK packet,
   * or when the command does not answer with several packets.
   */
  predicate SinglePacketReply(first: bool, complete: Buffer, multi: bool)
    requires |complete| > 4
  {
    first && (IsErr(complete, 0) || IsLocalInfile(complete, 0) || IsOk(complete, 0) || !multi)
  }

  /**
   * The reply accounting of clientReply on one branch's flags: a single-packet reply ends
   * the wait; a branch still waiting adds the reply's signal (EOF) packets and stops
   * waiting at `minEof` of them, unless more results follow a multi-statement, which
   * restarts the count.
   */
  function BranchStep(first: bool, complete: Buffer, f: BranchFlags, signals: nat, signalMore: bool,
                      minEof: nat, clientMultistatement: bool): (r: BranchFlags)
    requires |complete| > 4
    ensures SinglePacketReply(first, complete, f.multi) ==> !r.wait && !r.multi && r.count == f.count
    ensures !SinglePacketReply(first, complete, f.multi) ==> r.multi == f.multi
    ensures !f.wait ==> !r.wait && r.count == f.count
    ensures r.wait ==> f.wait && (r.count == 0 || r.count == f.count + signals)
    ensures r.wait && r.count != 0 ==> r.count < minEof
    ensures f.wait && !SinglePacketReply(first, complete, f.multi) && !r.wait ==> r.count == f.count + signals >= minEof
  {
    var single := SinglePacketReply(first, complete, f.multi);
    var wait := f.wait && !single;
    var multi := f.multi && !single;
    if !wait then BranchFlags(wait, multi, f.count)
    else if f.count + signals < minEof then BranchFlags(true, multi, f.count + signals)
    else if signalMore && clientMultistatement then BranchFlags(true, multi, 0)
    else BranchFlags(false, multi, f.count + signals)
  }

  /** The payload length and command byte of a query packet are readable, and COM_SET_OPTION has its option. */
  predicate CommandReadable(buf: Buffer)
  {
    |buf| >= 5 && (buf[4] == COM_SET_OPTION ==> |buf| >= 6)
  }

  /** One service's filter chain entry: a tee with its target service (unknown until initialised), or another filter. */
  datatype Filter = TeeFilter(target: Option<string>) | OtherFilter

  class TeeSession {
    var active: bool
    var clientMultistatement: bool
    const multipacket: array<bool>
    const waiting: array<bool>
    const eof: array<int>
    const replies: array<int>
    const replyPackets: array<int>
    var command: Byte
    var nDuped: nat
    var nRejected: nat
    var residual: int
    /** The parent's reply collected so far. */
    var replyBuf: Option<Buffer>
    /** Client packets held until both branches have answered, oldest first. */
    var queued: seq<Buffer>
    /** The branch session exists and is ready for routing. */
    var branchReady: bool
    /** Whether the branch is still ready once the main chain has taken the query. */
    var branchStaysReady: bool
    var downstreamOk: bool
    var upstreamOk: bool
    var toMain: seq<Buffer>
    var toBranch: seq<Buffer>
    var toClient: seq<Buffer>
    /** The instance's `match` and `exclude` patterns, and the SQL text of a packet, if it has one. */
    const matchRe: Option<string -> bool>
    const excludeRe: Option<string -> bool>
    const getSql: Buffer -> Option<string>

    ghost predicate Valid()
      reads this
    {
      multipacket.Length == 2 && waiting.Length == 2 && eof.Length == 2 &&
      replies.Length == 2 && replyPackets.Length == 2 &&
      eof != replies && eof != replyPackets && replies != replyPackets && multipacket != waiting &&
      residual >= 0 &&
      (forall k :: 0 <= k < |queued| ==> CommandReadable(queued[k]))
    }

    constructor (branchReady: bool, branchStaysReady: bool, downstreamOk: bool, upstreamOk: bool,
                 matchRe: Option<string -> bool>, excludeRe: Option<string -> bool>,
                 getSql: Buffer -> Option<string>)
      ensures Valid() && active && residual == 0 && replyBuf.None? && queued == []
      ensures nDuped == 0 && nRejected == 0 && toMain == [] && toBranch == [] && toClient == []
      ensures this.branchReady == branchReady && this.branchStaysReady == branchStaysReady
      ensures this.downstreamOk == downstreamOk && this.upstreamOk == upstreamOk
      ensures this.matchRe == matchRe && this.excludeRe == excludeRe && this.getSql == getSql
      ensures fresh(multipacket) && fresh(waiting) && fresh(eof) && fresh(replies) && fresh(replyPackets)
    {
      active := true;
      clientMultistatement := false;
      multipacket := new bool[2](_ => false);
      waiting := new bool[2](_ => false);
      eof := new int[2](_ => 0);
      replies := new int[2](_ => 0);
      replyPackets := new int[2](_ => 0);
      command := 0;
      nDuped := 0;
      nRejected := 0;
      residual := 0;
      replyBuf := None;
      queued := [];
      this.branchReady := branchReady;
      this.branchStaysReady := branchStaysReady;
      this.downstreamOk := downstreamOk;
      this.upstreamOk := upstreamOk;
      toMain := [];
      toBranch := [];
      toClient := [];
      this.matchRe := matchRe;
      this.excludeRe := excludeRe;
      this.getSql := getSql;
    }

    /** packet_is_required: a command from the table, looked up until its 0 sentinel. */
    static method PacketIsRequired(buf: Buffer) returns (required: bool)
      ensures required <==> |buf| > 4 && buf[4] in REQUIRED_PACKETS[..9]
    {
      required := false;
      if |buf| > 4 {
        var i := 0;
        while REQUIRED_PACKETS[i] != 0
          invariant 0 <= i <= 9
          invariant buf[4] !in REQUIRED_PACKETS[..i]
          decreases 9 - i
        {
          if buf[4] == REQUIRED_PACKETS[i] {
            return true;
          }
          i := i + 1;
        }
        assert i == 9;
      }
    }

    /** Whether the instance's patterns let `sql` through to the branch. */
    predicate Duplicates(sql: string)
    {
      (matchRe.None? || matchRe.value(sql)) && (excludeRe.None? || !excludeRe.value(sql))
    }

    /**
     * clone_query: what, if anything, goes to the branch. Outstanding residual bytes are
     * cloned first; otherwise a statement passes the patterns, or a packet without SQL
     * is sent when its command is required.
     */
    method CloneQuery(buffer: Buffer) returns (clone: Option<Buffer>)
      requires Valid()
      modifies this`residual
      ensures Valid()
      ensures !branchReady ==> clone.None? && residual == old(residual)
      ensures branchReady && old(residual) > 0 ==> clone.Some? && |clone.value| <= |buffer|
      ensures branchReady && old(residual) > 0 && old(residual) < |buffer| ==> clone == Some([]) && residual == old(residual)
      ensures branchReady && old(residual) > 0 && old(residual) >= |buffer| ==>
                clone == Some(buffer) && residual == old(residual) - |buffer|
      ensures branchReady && old(residual) == 0 && active && getSql(buffer).Some? ==>
                (clone.Some? <==> Duplicates(getSql(buffer).value)) && residual == 0
      ensures branchReady && old(residual) == 0 && !(active && getSql(buffer).Some?) ==>
                (clone.Some? <==> |buffer| > 4 && buffer[4] in REQUIRED_PACKETS[..9]) && residual == 0
      ensures clone.Some? && old(residual) == 0 ==> clone.value == buffer
    {
      clone := None;
      var localResidual := 0;
      if branchReady {
        if residual != 0 {
          var c := buffer;
          if residual < |c| {
            c := c[..localResidual];  // trimmed to the local residual, which is 0
          }
          residual := if residual - |c| < 0 then 0 else residual - |c|;
          clone := Some(c);
        } else if active && getSql(buffer).Some? {
          if Duplicates(getSql(buffer).value) {
            clone := Some(buffer);
            residual := localResidual;
          }
        } else {
          var required := PacketIsRequired(buffer);
          if required {
            clone := Some(buffer);
          }
        }
      }
    }

    /** Both branches' entries of a per-branch array set to `x`. */
    static method SetBoth<T>(a: array<T>, x: T)
      requires a.Length == 2
      modifies a
      ensures a[..] == [x, x]
    {
      a[PARENT], a[CHILD] := x, x;
    }

    /** reset_session_state: start counting the replies to a new command. */
    method ResetSessionState(buffer: Buffer) returns (ok: bool)
      requires Valid() && (|buffer| >= 5 && buffer[4] == COM_SET_OPTION ==> |buffer| >= 6)
      modifies this`command, this`clientMultistatement, multipacket, waiting, eof, replies, replyPackets
      ensures Valid()
      ensures ok <==> |buffer| >= 5
      ensures !ok ==> command == old(command) && clientMultistatement == old(clientMultistatement)
      ensures !ok ==> multipacket[..] == old(multipacket[..]) && waiting[..] == old(waiting[..])
      ensures !ok ==> eof[..] == old(eof[..]) && replies[..] == old(replies[..]) && replyPackets[..] == old(replyPackets[..])
      ensures ok ==> command == buffer[4]
      ensures ok ==> multipacket[..] == [MultipacketCommand(buffer[4]), MultipacketCommand(buffer[4])]
      ensures ok ==> waiting[..] == [true, true] && eof[..] == [0, 0] && replies[..] == [0, 0] && replyPackets[..] == [0, 0]
      ensures ok && buffer[4] == COM_SET_OPTION ==> clientMultistatement == MultiStatements(buffer[5])
      ensures ok && buffer[4] != COM_SET_OPTION ==> clientMultistatement == old(clientMultistatement)
    {
      if |buffer| < 5 {
        return false;
      }
      var c := buffer[4];
      if c == COM_SET_OPTION {
        clientMultistatement := MultiStatements(buffer[5]);
      }
      SetBoth(multipacket, MultipacketCommand(c));
      SetBoth(replies, 0);
      SetBoth(replyPackets, 0);
      SetBoth(eof, 0);
      SetBoth(waiting, true);
      command := c;
      ok := true;
    }

    /**
     * route_single_query: the main chain always gets the query; the branch gets the clone.
     * Without a clone no reply is expected from the branch.
     */
    method RouteSingleQuery(buffer: Buffer, clone: Option<Buffer>) returns (rval: int)
      requires Valid()
      modifies this`active, this`nRejected, this`nDuped, this`toMain, this`toBranch, waiting, multipacket, eof
      ensures Valid()
      ensures !old(active) || !branchReady ==>
                rval == 0 && !active && toMain == old(toMain) && toBranch == old(toBranch) &&
                nDuped == old(nDuped) && nRejected == old(nRejected)
      ensures old(active) && branchReady ==> toMain == old(toMain) + [buffer]
      ensures old(active) && branchReady && clone.None? ==>
                nRejected == old(nRejected) + 1 && nDuped == old(nDuped) && toBranch == old(toBranch) &&
                !waiting[CHILD] && !multipacket[CHILD] && eof[CHILD] == 2 && rval == (if downstreamOk then 1 else 0) && active
      ensures old(active) && branchReady && clone.Some? ==>
                nDuped == old(nDuped) + 1 && nRejected == old(nRejected) &&
                toBranch == (if branchStaysReady then old(toBranch) + [clone.value] else old(toBranch)) &&
                active == branchStaysReady && rval == (if downstreamOk && branchStaysReady then 1 else 0)
      ensures waiting[PARENT] == old(waiting[PARENT]) && multipacket[PARENT] == old(multipacket[PARENT])
      ensures eof[PARENT] == old(eof[PARENT])
      ensures clone.Some? || !old(active) || !branchReady ==> waiting[..] == old(waiting[..]) && multipacket[..] == old(multipacket[..]) && eof[..] == old(eof[..])
    {
      if !active || !branchReady {
        active := false;
        return 0;
      }
      if clone.None? {
        waiting[CHILD] := false;
        multipacket[CHILD] := false;
        eof[CHILD] := 2;
        nRejected := nRejected + 1;
      }
      toMain := toMain + [buffer];
      rval := if downstreamOk then 1 else 0;
      if clone.Some? {
        nDuped := nDuped + 1;
        if branchStaysReady {
          toBranch := toBranch + [clone.value];
        } else {
          active := false;
          rval := 0;
        }
      }
    }

    /** The flags of `branch` once a reply made of the packets `complete` is accounted for. */
    function Accounted(branch: nat, complete: Buffer, signals: nat, signalMore: bool): BranchFlags
      requires Valid() && branch < 2 && |complete| > 4
      reads this, waiting, multipacket, eof, replies
    {
      BranchStep(replies[branch] == 0, complete, BranchFlags(waiting[branch], multipacket[branch], eof[branch]),
                 signals, signalMore, MinEof(command), clientMultistatement)
    }

    /** The flags of branch `b` once a reply from `branch` is accounted for. */
    function FlagsAfter(b: nat, branch: nat, complete: Buffer, signals: nat, signalMore: bool): (f: BranchFlags)
      requires Valid() && b < 2 && branch < 2 && |complete| > 4
      reads this, waiting, multipacket, eof, replies
      ensures b != branch ==> f == BranchFlags(waiting[b], multipacket[b], eof[b])
    {
      if b == branch then Accounted(branch, complete, signals, signalMore)
      else BranchFlags(waiting[b], multipacket[b], eof[b])
    }

    /** Whether the combined reply goes to the client once a reply from `branch` is accounted for. */
    predicate ForwardsAfter(branch: nat, complete: Buffer, signals: nat, signalMore: bool)
      requires Valid() && branch < 2 && |complete| > 4
      reads this, waiting, multipacket, eof, replies
    {
      var p := FlagsAfter(PARENT, branch, complete, signals, signalMore);
      var c := FlagsAfter(CHILD, branch, complete, signals, signalMore);
      !HoldReply(replyBuf.Some? || branch == PARENT, p.wait, c.wait, p.multi, c.multi, p.count, c.count, MinEof(command))
    }

    /** Whether neither branch waits once a reply from `branch` is accounted for. */
    predicate NoneWaitingAfter(branch: nat, complete: Buffer, signals: nat, signalMore: bool)
      requires Valid() && branch < 2 && |complete| > 4
      reads this, waiting, multipacket, eof, replies
    {
      !FlagsAfter(PARENT, branch, complete, signals, signalMore).wait &&
      !FlagsAfter(CHILD, branch, complete, signals, signalMore).wait
    }

    /**
     * The reply accounting of clientReply for one branch: the first reply of a
     * single-packet kind ends the wait; otherwise the EOF (signal) packets counted by the
     * protocol module are added up until the reply is complete. Decides whether the
     * buffered parent reply can go to the client.
     */
    method AccountReply(branch: nat, complete: Buffer, signals: nat, signalMore: bool) returns (route: bool)
      requires Valid() && branch < 2 && |complete| > 4
      requires IsOk(complete, 0) ==> FlagsReadable(complete, true)
      modifies this`replyBuf, waiting, multipacket, eof, replies
      ensures Valid()
      ensures replies[branch] == old(replies[branch]) + 1 && replies[1 - branch] == old(replies[1 - branch])
      ensures waiting[1 - branch] == old(waiting[1 - branch]) && multipacket[1 - branch] == old(multipacket[1 - branch])
      ensures eof[1 - branch] == old(eof[1 - branch])
      ensures branch == PARENT ==> replyBuf == Some((if old(replyBuf).Some? then old(replyBuf).value else []) + complete)
      ensures branch == CHILD ==> replyBuf == old(replyBuf)
      ensures BranchFlags(waiting[branch], multipacket[branch], eof[branch]) == old(Accounted(branch, complete, signals, signalMore))
      ensures route <==> !HoldReply(replyBuf.Some?, waiting[PARENT], waiting[CHILD], multipacket[PARENT],
                                    multipacket[CHILD], eof[PARENT], eof[CHILD], MinEof(command))
    {
      var minEof := MinEof(command);
      var wait, multi, count := BranchReply(replies[branch] == 0, complete, waiting[branch], multipacket[branch],
                                            eof[branch], signals, signalMore, minEof, clientMultistatement);
      waiting[branch] := wait;
      multipacket[branch] := multi;
      eof[branch] := count;
      if branch == PARENT {
        replyBuf := Some((if replyBuf.Some? then replyBuf.value else []) + complete);
      }
      replies[branch] := replies[branch] + 1;
      route := !HoldReply(replyBuf.Some?, waiting[PARENT], waiting[CHILD], multipacket[PARENT],
                          multipacket[CHILD], eof[PARENT], eof[CHILD], minEof);
    }

    /**
     * The accounting of AccountReply on one branch's flags, given as values: `first` when
     * this is the branch's first reply, `wait`, `multi` and `count` its waiting flag,
     * multi-packet flag and EOF count.
     */
    static method BranchReply(first: bool, complete: Buffer, wait: bool, multi: bool, count: int,
                              signals: nat, signalMore: bool, minEof: nat, clientMultistatement: bool)
      returns (wait': bool, multi': bool, count': int)
      requires |complete| > 4 && (IsOk(complete, 0) ==> FlagsReadable(complete, true))
      ensures BranchFlags(wait', multi', count') ==
              BranchStep(first, complete, BranchFlags(wait, multi, count), signals, signalMore, minEof, clientMultistatement)
    {
      var more := false;
      wait', multi', count' := wait, multi, count;
      if first {
        if IsErr(complete, 0) || IsLocalInfile(complete, 0) || IsOk(complete, 0) || !multi {
          wait' := false;
          multi' := false;
          if IsOk(complete, 0) {
            var flags := GetResponseFlags(complete, true);
            more := MoreResults(flags) && clientMultistatement;
          }
        }
      }
      if wait' {
        more := signalMore;
        count' := count' + signals;
        if count' >= minEof {
          if more && clientMultistatement {
            count' := 0;
          } else {
            wait' := false;
          }
        }
      }
    }

    /**
     * clientReply: account for a reply from one branch, pass the combined reply on when
     * nothing holds it back, then start the next queued query once neither branch waits.
     * `complete` is what the protocol module assembled into whole packets (None while a
     * packet is still partial), `signals` and `signalMore` what it counted in them.
     */
    method ClientReply(branch: nat, complete: Option<Buffer>, signals: nat, signalMore: bool) returns (rc: int)
      requires Valid() && branch < 2
      requires complete.Some? ==> |complete.value| > 4 &&
                                  (IsOk(complete.value, 0) ==> FlagsReadable(complete.value, true))
      modifies this, waiting, multipacket, eof, replies, replyPackets
      ensures Valid()
      ensures !old(active) ==> rc == 0 && toClient == old(toClient) && replyBuf == old(replyBuf)
      ensures old(active) && complete.None? ==> rc == 1 && toClient == old(toClient) && replyBuf == old(replyBuf)
      ensures toClient == old(toClient) || (|toClient| == |old(toClient)| + 1 && toClient[..|old(toClient)|] == old(toClient))
      ensures toClient != old(toClient) ==> replyBuf.None?
      ensures |queued| == |old(queued)| || |queued| == |old(queued)| - 1
      // The combined reply is forwarded exactly when the hold condition is false after the accounting.
      ensures old(active) && complete.Some? ==>
                (|toClient| == |old(toClient)| + 1 <==> old(ForwardsAfter(branch, complete.value, signals, signalMore)))
      ensures old(active) && complete.Some? && old(ForwardsAfter(branch, complete.value, signals, signalMore)) ==>
                toClient == old(toClient) +
                  [(if old(replyBuf).Some? then old(replyBuf).value else []) + (if branch == PARENT then complete.value else [])]
      // The oldest held packet is routed exactly when neither branch waits any more.
      ensures (old(active) && complete.Some? && old(queued) != [] &&
               old(NoneWaitingAfter(branch, complete.value, signals, signalMore))) ==>
                queued == old(queued)[1..]
      ensures !(old(active) && complete.Some? && old(queued) != [] &&
                old(NoneWaitingAfter(branch, complete.value, signals, signalMore))) ==>
                queued == old(queued)
      // Without a queued packet to route, the branch's flags are the accounted ones and rc is the forwarding's outcome.
      ensures (old(active) && complete.Some? && !(old(queued) != [] &&
               old(NoneWaitingAfter(branch, complete.value, signals, signalMore)))) ==>
                BranchFlags(waiting[branch], multipacket[branch], eof[branch]) ==
                  old(Accounted(branch, complete.value, signals, signalMore)) &&
                replies[branch] == old(replies[branch]) + 1 && toMain == old(toMain) && command == old(command) &&
                rc == (if old(ForwardsAfter(branch, complete.value, signals, signalMore)) && !upstreamOk then 0 else 1)
      // The routed packet reaches the main chain and the counters restart for its command.
      ensures (old(active) && complete.Some? && old(queued) != [] &&
               old(NoneWaitingAfter(branch, complete.value, signals, signalMore))) ==>
                (branchReady ==> toMain == old(toMain) + [old(queued)[0]]) &&
                command == old(queued)[0][4] && waiting[PARENT] && eof[PARENT] == 0 &&
                replies[..] == [0, 0] && replyPackets[..] == [0, 0] &&
                rc == (if active && downstreamOk then 1 else 0)
    {
      if !active {
        return 0;
      }
      if complete.None? {
        return 1;
      }
      rc := 1;
      ghost var held := if replyBuf.Some? then replyBuf.value else [];
      var route := AccountReply(branch, complete.value, signals, signalMore);
      assert replyBuf.Some? ==> replyBuf.value == held + (if branch == PARENT then complete.value else []);
      rc := ReleaseReply(route);
    }

    /**
     * What clientReply does once the reply is accounted for: the buffered reply goes to
     * the client when `route` says nothing holds it back, and the oldest held packet is
     * routed when neither branch waits any more.
     */
    method ReleaseReply(route: bool) returns (rc: int)
      requires Valid() && (route ==> replyBuf.Some?)
      modifies this, waiting, multipacket, eof, replies, replyPackets
      ensures Valid()
      ensures route ==> toClient == old(toClient) + [old(replyBuf).value] && replyBuf.None?
      ensures !route ==> toClient == old(toClient) && replyBuf == old(replyBuf)
      ensures (old(queued) != [] && !old(waiting[PARENT]) && !old(waiting[CHILD])) ==>
                queued == old(queued)[1..] &&
                (old(active) && branchReady ==> toMain == old(toMain) + [old(queued)[0]]) &&
                command == old(queued)[0][4] && waiting[PARENT] && eof[PARENT] == 0 &&
                replies[..] == [0, 0] && replyPackets[..] == [0, 0] &&
                (old(active) ==> rc == (if active && downstreamOk then 1 else 0))
      ensures !(old(queued) != [] && !old(waiting[PARENT]) && !old(waiting[CHILD])) ==>
                queued == old(queued) && toMain == old(toMain) && command == old(command) &&
                waiting[..] == old(waiting[..]) && multipacket[..] == old(multipacket[..]) &&
                eof[..] == old(eof[..]) && replies[..] == old(replies[..]) &&
                rc == (if route && !upstreamOk then 0 else 1)
    {
      rc := 1;
      if route {
        toClient := toClient + [replyBuf.value];
        rc := if upstreamOk then 1 else 0;
        replyBuf := None;
      }
      if queued != [] && !waiting[PARENT] && !waiting[CHILD] {
        rc := RouteQueuedQuery();
      }
    }

    /**
     * The tail of clientReply: the oldest held packet leaves the queue and is started
     * as a new query.
     */
    method RouteQueuedQuery() returns (rc: int)
      requires Valid() && queued != []
      modifies this, waiting, multipacket, eof, replies, replyPackets
      ensures Valid()
      ensures queued == old(queued)[1..] && toClient == old(toClient) && replyBuf == old(replyBuf)
      ensures old(active) && branchReady ==> toMain == old(toMain) + [old(queued)[0]]
      ensures !(old(active) && branchReady) ==>
                !active && rc == 0 && toMain == old(toMain) && toBranch == old(toBranch) &&
                nDuped == old(nDuped) && nRejected == old(nRejected)
      ensures old(active) ==> rc == (if active && downstreamOk then 1 else 0)
      ensures old(active) && branchReady ==>
                (nRejected == old(nRejected) + 1 && nDuped == old(nDuped) && toBranch == old(toBranch)) ||
                (nDuped == old(nDuped) + 1 && nRejected == old(nRejected))
      ensures old(residual) == 0 && toBranch != old(toBranch) ==> toBranch == old(toBranch) + [old(queued)[0]]
      ensures command == old(queued)[0][4]
      ensures old(queued)[0][4] == COM_SET_OPTION ==> clientMultistatement == MultiStatements(old(queued)[0][5])
      ensures old(queued)[0][4] != COM_SET_OPTION ==> clientMultistatement == old(clientMultistatement)
      ensures waiting[PARENT] && eof[PARENT] == 0 && multipacket[PARENT] == MultipacketCommand(old(queued)[0][4])
      ensures replies[..] == [0, 0] && replyPackets[..] == [0, 0]
      ensures nRejected == old(nRejected) + 1 ==> !waiting[CHILD] && !multipacket[CHILD] && eof[CHILD] == 2
      ensures nRejected == old(nRejected) ==>
                waiting[CHILD] && eof[CHILD] == 0 && multipacket[CHILD] == MultipacketCommand(old(queued)[0][4])
    {
      var buffer := queued[0];
      queued := queued[1..];
      rc := StartQuery(buffer);
    }

    /**
     * A query as routeQuery and the queue's tail start it: cloned for the branch, the
     * counters reset for its command (reset_session_state), and routed to the main chain
     * (and the clone to the branch) by route_single_query.
     */
    method StartQuery(buffer: Buffer) returns (rc: int)
      requires Valid() && CommandReadable(buffer)
      modifies this`residual, this`command, this`clientMultistatement, this`active, this`nRejected, this`nDuped,
               this`toMain, this`toBranch, waiting, multipacket, eof, replies, replyPackets
      ensures Valid()
      // route_single_query: the main chain gets the packet while the session is active and the branch ready.
      ensures old(active) && branchReady ==> toMain == old(toMain) + [buffer]
      ensures !(old(active) && branchReady) ==>
                !active && rc == 0 && toMain == old(toMain) && toBranch == old(toBranch) &&
                nDuped == old(nDuped) && nRejected == old(nRejected)
      ensures old(active) ==> rc == (if active && downstreamOk then 1 else 0)
      // Exactly one of the two counters moves for a routed packet; a clone of a new statement is the packet itself.
      ensures old(active) && branchReady ==>
                (nRejected == old(nRejected) + 1 && nDuped == old(nDuped) && toBranch == old(toBranch)) ||
                (nDuped == old(nDuped) + 1 && nRejected == old(nRejected))
      ensures old(residual) == 0 && toBranch != old(toBranch) ==> toBranch == old(toBranch) + [buffer]
      // reset_session_state for the packet's command.
      ensures command == buffer[4]
      ensures buffer[4] == COM_SET_OPTION ==> clientMultistatement == MultiStatements(buffer[5])
      ensures buffer[4] != COM_SET_OPTION ==> clientMultistatement == old(clientMultistatement)
      ensures waiting[PARENT] && eof[PARENT] == 0 && multipacket[PARENT] == MultipacketCommand(buffer[4])
      ensures replies[..] == [0, 0] && replyPackets[..] == [0, 0]
      // A branch that got no clone is not waited for.
      ensures nRejected == old(nRejected) + 1 ==> !waiting[CHILD] && !multipacket[CHILD] && eof[CHILD] == 2
      ensures nRejected == old(nRejected) ==>
                waiting[CHILD] && eof[CHILD] == 0 && multipacket[CHILD] == MultipacketCommand(buffer[4])
    {
      var clone := CloneQuery(buffer);
      var _ := ResetSessionState(buffer);
      assert waiting[..] == [true, true] && eof[..] == [0, 0];
      rc := RouteSingleQuery(buffer, clone);
    }
  }

  // ---------------------------------------------------------------------------------
  // Loop detection over the tee chain

  /** The filters of a service; a service the map does not know has none. */
  function FiltersOf(g: map<string, seq<Filter>>, s: string): seq<Filter>
  {
    if s in g then g[s] else []
  }

  /**
   * detect_loops as written: one table of service names is shared by the whole search,
   * so reaching any service a second time, along any path, counts as a loop. Yields the
   * verdict and the table afterwards.
   */
  function LoopAsWritten(g: map<string, seq<Filter>>, s: string, visited: set<string>): (res: (bool, set<string>))
    ensures visited + {s} <= res.1
    ensures s in visited ==> res.0
    decreases g.Keys - visited, 0
  {
    if s in visited then (true, visited)
    else if s !in g then (false, visited + {s})
    else LoopInFiltersAsWritten(g, g[s], 0, visited + {s})
  }

  function LoopInFiltersAsWritten(g: map<string, seq<Filter>>, fs: seq<Filter>, i: nat, visited: set<string>)
    : (res: (bool, set<string>))
    requires i <= |fs|
    ensures visited <= res.1
    decreases g.Keys - visited, 1, |fs| - i
  {
    if i == |fs| then (false, visited)
    else match fs[i]
      case TeeFilter(Some(t)) =>
        var r := LoopAsWritten(g, t, visited);
        if r.0 then (true, r.1) else LoopInFiltersAsWritten(g, fs, i + 1, r.1)
      case _ => LoopInFiltersAsWritten(g, fs, i + 1, visited)
  }

  /** detect_loops: the recursive search with its loop over the service's filters. */
  method DetectLoops(g: map<string, seq<Filter>>, s: string, visited: set<string>)
    returns (isLoop: bool, visited': set<string>)
    ensures (isLoop, visited') == LoopAsWritten(g, s, visited)
    decreases g.Keys - visited, 0
  {
    if s in visited {
      return true, visited;
    }
    visited' := visited + {s};
    isLoop := false;
    var fs := FiltersOf(g, s);
    if s !in g {
      return;
    }
    var i := 0;
    while i < |fs|
      invariant 0 <= i <= |fs| && visited + {s} <= visited'
      invariant LoopAsWritten(g, s, visited) == LoopInFiltersAsWritten(g, fs, i, visited')
      decreases |fs| - i
    {
      match fs[i] {
        case TeeFilter(Some(t)) =>
          var found;
          found, visited' := DetectLoops(g, t, visited');
          if found {
            return true, visited';
          }
        case _ =>
      }
      i := i + 1;
    }
  }

  /** `b` is the target of a tee filter of `a`. */
  predicate TeesTo(g: map<string, seq<Filter>>, a: string, b: string)
  {
    exists k :: 0 <= k < |FiltersOf(g, a)| && FiltersOf(g, a)[k] == TeeFilter(Some(b))
  }

  predicate IsChain(g: map<string, seq<Filter>>, w: seq<string>)
  {
    forall k :: 0 <= k < |w| - 1 ==> TeesTo(g, w[k], w[k + 1])
  }

  /** A chain of tees that comes back to the service it left. */
  predicate IsLoop(g: map<string, seq<Filter>>, w: seq<string>)
  {
    |w| >= 2 && IsChain(g, w) && w[0] == w[|w| - 1]
  }

  /**
   * The intended check: a service counts as a loop only when it is reached again along
   * the current chain of tees (`path`).
   */
  function LoopFrom(g: map<string, seq<Filter>>, s: string, path: set<string>): bool
    decreases g.Keys - path, 0
  {
    if s in path then true
    else if s !in g then false
    else LoopInFilters(g, g[s], 0, path + {s})
  }

  function LoopInFilters(g: map<string, seq<Filter>>, fs: seq<Filter>, i: nat, path: set<string>): bool
    requires i <= |fs|
    decreases g.Keys - path, 1, |fs| - i
  {
    if i == |fs| then false
    else match fs[i]
      case TeeFilter(Some(t)) => LoopFrom(g, t, path) || LoopInFilters(g, fs, i + 1, path)
      case _ => LoopInFilters(g, fs, i + 1, path)
  }

  function SetOf(p: seq<string>): set<string>
  {
    set k | 0 <= k < |p| :: p[k]
  }

  lemma {:induction false} LoopInFiltersWitness(g: map<string, seq<Filter>>, fs: seq<Filter>, i: nat, path: set<string>)
    returns (k: nat, t: string)
    requires i <= |fs| && LoopInFilters(g, fs, i, path)
    ensures i <= k < |fs| && fs[k] == TeeFilter(Some(t)) && LoopFrom(g, t, path)
    decreases |fs| - i
  {
    match fs[i]
    case TeeFilter(Some(u)) =>
      if LoopFrom(g, u, path) {
        k, t := i, u;
      } else {
        k, t := LoopInFiltersWitness(g, fs, i + 1, path);
      }
    case _ =>
      k, t := LoopInFiltersWitness(g, fs, i + 1, path);
  }

  /** The intended check is sound: when it reports a loop along chain `p`, there is a loop of tees. */
  lemma {:induction false} LoopFromSound(g: map<string, seq<Filter>>, p: seq<string>, s: string)
    returns (w: seq<string>)
    requires IsChain(g, p + [s]) && LoopFrom(g, s, SetOf(p))
    ensures IsLoop(g, w)
    decreases g.Keys - SetOf(p)
  {
    var q := p + [s];
    if s in SetOf(p) {
      var j :| 0 <= j < |p| && p[j] == s;
      w := q[j..];
      assert w[0] == s && w[|w| - 1] == s;
      forall k | 0 <= k < |w| - 1
        ensures TeesTo(g, w[k], w[k + 1])
      {
        assert w[k] == q[j + k] && w[k + 1] == q[j + k + 1];
      }
    } else {
      assert s in g;
      assert SetOf(q) == SetOf(p) + {s} by {
        forall x | x in SetOf(q) ensures x in SetOf(p) + {s} {
          var k :| 0 <= k < |q| && q[k] == x;
          if k < |p| { assert p[k] == x; }
        }
        forall x | x in SetOf(p) + {s} ensures x in SetOf(q) {
          if x == s { assert q[|p|] == x; }
          else { var k :| 0 <= k < |p| && p[k] == x; assert q[k] == x; }
        }
      }
      var k, t := LoopInFiltersWitness(g, g[s], 0, SetOf(q));
      assert FiltersOf(g, s)[k] == TeeFilter(Some(t));
      assert TeesTo(g, s, t);
      var q' := q + [t];
      forall m | 0 <= m < |q'| - 1
        ensures TeesTo(g, q'[m], q'[m + 1])
      {
        if m < |q| - 1 {
          assert q'[m] == q[m] && q'[m + 1] == q[m + 1];
        }
      }
      w := LoopFromSound(g, q, t);
    }
  }

  /** A tee to a service from which a loop is found makes the scan of the filters find it. */
  lemma {:induction false} LoopInFiltersFinds(g: map<string, seq<Filter>>, fs: seq<Filter>, i: nat, k: nat,
                                              t: string, path: set<string>)
    requires i <= k < |fs| && fs[k] == TeeFilter(Some(t)) && LoopFrom(g, t, path)
    ensures LoopInFilters(g, fs, i, path)
    decreases k - i
  {
    if i < k {
      LoopInFiltersFinds(g, fs, i + 1, k, t, path);
    }
  }

  /**
   * The intended check is complete: a chain of tees from `w[0]` whose last service is on
   * the path or earlier on the chain is reported as a loop.
   */
  lemma {:induction false} LoopFromComplete(g: map<string, seq<Filter>>, w: seq<string>, path: set<string>)
    requires |w| >= 1 && IsChain(g, w) && w[|w| - 1] in path + SetOf(w[..|w| - 1])
    ensures LoopFrom(g, w[0], path)
    decreases |w|
  {
    if w[0] !in path {
      var last := w[|w| - 1];
      assert |w| >= 2;
      assert TeesTo(g, w[0], w[1]);
      var k :| 0 <= k < |FiltersOf(g, w[0])| && FiltersOf(g, w[0])[k] == TeeFilter(Some(w[1]));
      assert w[0] in g;
      var w' := w[1..];
      var path' := path + {w[0]};
      assert IsChain(g, w') by {
        forall m | 0 <= m < |w'| - 1
          ensures TeesTo(g, w'[m], w'[m + 1])
        {
          assert w'[m] == w[m + 1] && w'[m + 1] == w[m + 2];
        }
      }
      assert w'[|w'| - 1] in path' + SetOf(w'[..|w'| - 1]) by {
        if last !in path {
          var j :| 0 <= j < |w| - 1 && w[..|w| - 1][j] == last;
          if j > 0 {
            assert w'[..|w'| - 1][j - 1] == last;
          }
        }
      }
      LoopFromComplete(g, w', path');
      LoopInFiltersFinds(g, g[w[0]], 0, k, w[1], path');
    }
  }

  /** In particular every loop of tees through a service is reported when the search starts there. */
  lemma {:induction false} LoopReported(g: map<string, seq<Filter>>, w: seq<string>)
    requires IsLoop(g, w)
    ensures LoopFrom(g, w[0], {})
  {
    assert w[..|w| - 1][0] == w[|w| - 1];
    LoopFromComplete(g, w, {});
  }

  /** Two tees in A lead to B and C, and both B and C tee to D: a diamond without a loop. */
  function Diamond(): map<string, seq<Filter>>
  {
    map["A" := [TeeFilter(Some("B")), TeeFilter(Some("C"))],
        "B" := [TeeFilter(Some("D"))],
        "C" := [TeeFilter(Some("D"))],
        "D" := []]
  }

  function DiamondRank(s: string): nat
  {
    if s == "A" then 3 else if s == "B" || s == "C" then 2 else if s == "D" then 1 else 0
  }

  lemma {:induction false} DiamondChainDescends(w: seq<string>)
    requires IsChain(Diamond(), w) && |w| >= 2
    ensures DiamondRank(w[0]) > DiamondRank(w[|w| - 1])
    decreases |w|
  {
    var g := Diamond();
    assert TeesTo(g, w[0], w[1]);
    var k :| 0 <= k < |FiltersOf(g, w[0])| && FiltersOf(g, w[0])[k] == TeeFilter(Some(w[1]));
    assert DiamondRank(w[0]) > DiamondRank(w[1]);
    if |w| > 2 {
      DiamondChainDescends(w[1..]);
    }
  }

  /** The diamond has no loop, and the intended check agrees; the code as written reports one. */
  lemma DiamondReportedAsWritten()
    ensures forall w :: !IsLoop(Diamond(), w)
    ensures LoopAsWritten(Diamond(), "A", {}).0
    ensures !LoopFrom(Diamond(), "A", {})
  {
    var g := Diamond();
    forall w | IsLoop(g, w)
      ensures false
    {
      DiamondChainDescends(w);
    }
    var toD := [TeeFilter(Some("D"))];
    var fromA := [TeeFilter(Some("B")), TeeFilter(Some("C"))];
    assert g["A"] == fromA && g["B"] == toD && g["C"] == toD && g["D"] == [];
    // the intended check: each branch of the diamond ends at D, which has no tees
    assert !LoopFrom(g, "D", {"A", "B"}) by {
      assert LoopFrom(g, "D", {"A", "B"}) == LoopInFilters(g, [], 0, {"A", "B", "D"});
    }
    assert !LoopFrom(g, "B", {"A"}) by {
      assert {"A"} + {"B"} == {"A", "B"};
      assert LoopInFilters(g, toD, 1, {"A", "B"}) == false;
      assert LoopFrom(g, "B", {"A"}) == LoopInFilters(g, toD, 0, {"A", "B"});
    }
    assert !LoopFrom(g, "D", {"A", "C"}) by {
      assert LoopFrom(g, "D", {"A", "C"}) == LoopInFilters(g, [], 0, {"A", "C", "D"});
    }
    assert !LoopFrom(g, "C", {"A"}) by {
      assert {"A"} + {"C"} == {"A", "C"};
      assert LoopInFilters(g, toD, 1, {"A", "C"}) == false;
      assert LoopFrom(g, "C", {"A"}) == LoopInFilters(g, toD, 0, {"A", "C"});
    }
    assert LoopInFilters(g, fromA, 2, {"A"}) == false;
    assert LoopInFilters(g, fromA, 1, {"A"}) == false;
    assert {} + {"A"} == {"A"};
    assert LoopFrom(g, "A", {}) == LoopInFilters(g, fromA, 0, {"A"});
    // as written: the table still holds D when the search reaches it again through C
    var afterD := LoopAsWritten(g, "D", {"A", "B"});
    assert afterD == (false, {"A", "B", "D"}) by {
      assert {"A", "B"} + {"D"} == {"A", "B", "D"};
      assert LoopInFiltersAsWritten(g, [], 0, {"A", "B", "D"}) == (false, {"A", "B", "D"});
    }
    var afterB := LoopAsWritten(g, "B", {"A"});
    assert afterB == (false, {"A", "B", "D"}) by {
      assert {"A"} + {"B"} == {"A", "B"};
      assert LoopInFiltersAsWritten(g, toD, 1, {"A", "B", "D"}) == (false, {"A", "B", "D"});
      assert LoopInFiltersAsWritten(g, toD, 0, {"A", "B"}) == (false, {"A", "B", "D"});
    }
    assert LoopInFiltersAsWritten(g, fromA, 1, {"A", "B", "D"}).0 by {
      assert LoopAsWritten(g, "C", {"A", "B", "D"}).0 by {
        assert {"A", "B", "D"} + {"C"} == {"A", "B", "C", "D"};
        assert LoopAsWritten(g, "D", {"A", "B", "C", "D"}).0;
        assert LoopInFiltersAsWritten(g, toD, 0, {"A", "B", "C", "D"}).0;
      }
    }
    assert LoopInFiltersAsWritten(g, fromA, 0, {"A"}).0;
    assert {} + {"A"} == {"A"};
  }
}
