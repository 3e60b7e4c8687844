/**
 * The messages a PostgreSQL backend connection writes before routing starts, and the
 * framing of the messages it reads, following the "Message Formats" section of the
 * PostgreSQL Frontend/Backend Protocol 3.0. All integers are in network byte order.
 */
module PgMessages {
  import opened Common

  /** Version field of an SSLRequest (1234 << 16 | 5679). */
  const SSLREQ_MAGIC: int := 80877103
  /** Version field of a protocol 3.0 StartupMessage (3 << 16). */
  const PROTOCOL_V3_MAGIC: int := 196608
  /** Answers of the server to an SSLRequest. */
  const SSLREQ_YES: Byte := 83   // 'S'
  const SSLREQ_NO: Byte := 78    // 'N'
  /** Authentication method value of AuthenticationOk. */
  const AUTH_OK: int := 0
  /** A type byte followed by an Int32 length. */
  const HEADER_LEN: nat := 5

  // Backend message type bytes
  const AUTHENTICATION: Byte := 82     // 'R'
  const BACKEND_KEY_DATA: Byte := 75   // 'K'
  const PARAMETER_STATUS: Byte := 83   // 'S'
  const NOTICE_RESPONSE: Byte := 78    // 'N'
  const READY_FOR_QUERY: Byte := 90    // 'Z'
  const ERROR_RESPONSE: Byte := 69     // 'E'
  const DATA_ROW: Byte := 68           // 'D'
  const ROW_DESCRIPTION: Byte := 84    // 'T'
  const COPY_IN_RESPONSE: Byte := 71   // 'G'
  // Frontend message type byte
  const TERMINATE: Byte := 88          // 'X'
  const QUERY: Byte := 81              // 'Q'

  /** SSLRequest: an Int32 length of 8 followed by the SSL request code. */
  function SslRequest(): (r: seq<Byte>)
    ensures |r| == 8
    ensures Uint32At(r, 0) == 8 && Uint32At(r, 4) == SSLREQ_MAGIC
  {
    Uint32ToBytes(8) + Uint32ToBytes(SSLREQ_MAGIC)
  }

  /** The parameters of a StartupMessage are null-terminated strings ending in an empty one. */
  predicate NullTerminated(params: seq<Byte>)
  {
    |params| > 0 && params[|params| - 1] == 0
  }

  /** StartupMessage: the total length, the protocol version, then the parameters verbatim. */
  function StartupMessage(params: seq<Byte>): (r: seq<Byte>)
    requires NullTerminated(params)
    requires 8 + |params| < TWO_TO_32
    ensures |r| == 8 + |params|
    ensures Uint32At(r, 0) == 8 + |params|
    ensures Uint32At(r, 4) == PROTOCOL_V3_MAGIC
    ensures r[8..] == params
  {
    var r := Uint32ToBytes(8 + |params|) + Uint32ToBytes(PROTOCOL_V3_MAGIC) + params;
    assert r[0..4] == Uint32ToBytes(8 + |params|);
    assert r[4..8] == Uint32ToBytes(PROTOCOL_V3_MAGIC);
    Uint32AtBytes(r, 0, 8 + |params|);
    Uint32AtBytes(r, 4, PROTOCOL_V3_MAGIC);
    r
  }

  /** Terminate: the byte 'X' and an Int32 length of 4 (the length counts itself only). */
  function Terminate(): (r: seq<Byte>)
    ensures |r| == 5 && r[0] == TERMINATE && Uint32At(r, 1) == 4
  {
    [TERMINATE] + Uint32ToBytes(4)
  }

  /** The server-side reading of a start-up packet: its parameters, if it is a protocol 3.0 StartupMessage. */
  function ParseStartupMessage(m: seq<Byte>): (r: Option<seq<Byte>>)
    ensures r.Some? ==> |m| >= 8 && Uint32At(m, 0) == |m| && r.value == m[8..]
  {
    if |m| >= 8 && Uint32At(m, 0) == |m| && Uint32At(m, 4) == PROTOCOL_V3_MAGIC then Some(m[8..])
    else None
  }

  /** The server-side test for an SSLRequest. */
  predicate IsSslRequest(m: seq<Byte>)
  {
    |m| == 8 && Uint32At(m, 0) == 8 && Uint32At(m, 4) == SSLREQ_MAGIC
  }

  lemma StartupRoundTrip(params: seq<Byte>)
    requires NullTerminated(params) && 8 + |params| < TWO_TO_32
    ensures ParseStartupMessage(StartupMessage(params)) == Some(params)
    ensures !IsSslRequest(StartupMessage(params))
  {
  }

  lemma SslRequestIsNotStartup()
    ensures IsSslRequest(SslRequest())
    ensures ParseStartupMessage(SslRequest()) == None
  {
  }

  /**
   * Size of the regular message starting at `i`: its type byte plus the Int32 length,
   * which counts itself and the body but not the type byte.
   */
  function MessageSize(buf: seq<Byte>, i: nat): (n: nat)
    requires i + HEADER_LEN <= |buf|
    ensures n == Uint32At(buf, i + 1) + 1
  {
    Uint32At(buf, i + 1) + 1
  }

  /** A regular message whose length field is large enough for its own header. */
  function Message(cmd: Byte, body: seq<Byte>): (r: seq<Byte>)
    requires 4 + |body| < TWO_TO_32
    ensures |r| == HEADER_LEN + |body| && r[0] == cmd && MessageSize(r, 0) == |r|
    ensures r[HEADER_LEN..] == body
  {
    var r := [cmd] + Uint32ToBytes(4 + |body|) + body;
    assert r[1..5] == Uint32ToBytes(4 + |body|);
    Uint32AtBytes(r, 1, 4 + |body|);
    r
  }

  /**
   * `buf[i..]` is a whole number of messages, each at least a header long: the shape of
   * data handed over as complete packets.
   */
  predicate FramedFrom(buf: seq<Byte>, i: nat)
    decreases |buf| - i
  {
    i == |buf| ||
    (i + HEADER_LEN <= |buf| && MessageSize(buf, i) >= HEADER_LEN &&
     i + MessageSize(buf, i) <= |buf| && FramedFrom(buf, i + MessageSize(buf, i)))
  }

  /** The number of messages in a framed buffer. */
  function MessageCount(buf: seq<Byte>, i: nat): (n: nat)
    requires FramedFrom(buf, i)
    ensures n <= (|buf| - i) / HEADER_LEN
    decreases |buf| - i
  {
    if i == |buf| then 0 else 1 + MessageCount(buf, i + MessageSize(buf, i))
  }

  lemma {:induction false} TerminateIsFramed()
    ensures FramedFrom(Terminate(), 0) && MessageCount(Terminate(), 0) == 1
  {
    assert FramedFrom(Terminate(), 5);
  }
}
