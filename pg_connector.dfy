/**
 * A client connection to a PostgreSQL server as the utility library wraps it: the
 * parameter arrays handed to libpq, the classification of statement results into
 * success or an error message, the rules for closing and moving a connection, and the
 * row cursor of a result set. libpq itself is not modelled: a connection attempt is the
 * parameter `connect`, running a statement the parameter `exec`.
 */
module PgConnector {
  import opened Common

  const NO_CONNECTION: string := "PostgreSQL-connection is not open, cannot perform query."
  /** The largest parameter list libpq gets, its null terminator included. */
  const N_MAX_PARAMS: nat := 128

  datatype SslVersion = Tls10 | Tls11 | Tls12 | Tls13 | SslMax | TlsMax | SslTlsMax | SslUnknown

  datatype SslSettings = SslSettings(enabled: bool, verifyHost: bool, verifyPeer: bool, cert: string,
                                     key: string, ca: string, crl: string, version: SslVersion)

  datatype ConnectionSettings = ConnectionSettings(user: string, password: string, timeout: int, ssl: SslSettings)

  /** A libpq connection object: whether PQstatus reports CONNECTION_OK, and PQerrorMessage. */
  datatype Conn = Conn(handle: nat, ok: bool, errorMessage: string)

  /** The sslmode for the verification settings. */
  function SslMode(ssl: SslSettings): (mode: string)
    ensures ssl.verifyHost ==> mode == "verify-full"
    ensures !ssl.verifyHost && ssl.verifyPeer ==> mode == "verify-ca"
    ensures !ssl.verifyHost && !ssl.verifyPeer ==> mode == "require"
  {
    if ssl.verifyHost then "verify-full"
    else if ssl.verifyPeer then "verify-ca"
    else "require"
  }

  /** The protocol version pinned for a TLS version; the "max" and unknown settings pin none. */
  function VersionName(v: SslVersion): (name: Option<string>)
    ensures name.Some? <==> v in {Tls10, Tls11, Tls12, Tls13}
  {
    match v
    case Tls10 => Some("TLSv1")
    case Tls11 => Some("TLSv1.1")
    case Tls12 => Some("TLSv1.2")
    case Tls13 => Some("TLSv1.3")
    case _ => None
  }

  /** The TLS parameters, in the order they are added. */
  function SslParams(ssl: SslSettings): seq<(string, string)>
  {
    [("sslmode", SslMode(ssl)), ("sslcert", ssl.cert), ("sslkey", ssl.key), ("sslrootcert", ssl.ca)]
    + (match VersionName(ssl.version)
       case Some(v) => [("ssl_min_protocol_version", v), ("ssl_max_protocol_version", v)]
       case None => [])
    + [("sslcrl", ssl.crl)]
  }

  /** Every parameter open gives libpq, in order. */
  function ConnectParams(host: string, port: nat, db: string, s: ConnectionSettings): seq<(string, string)>
  {
    [("host", host), ("port", NatToString(port)), ("dbname", db), ("application_name", "MaxScale"),
     ("user", s.user), ("password", s.password), ("connect_timeout", IntToString(s.timeout))]
    + (if s.ssl.enabled then SslParams(s.ssl) else [])
  }

  /** The value given for keyword `k`, if any. */
  function Lookup(ps: seq<(string, string)>, k: string): (r: Option<string>)
    ensures r.Some? ==> (k, r.value) in ps
    ensures r.None? ==> forall i :: 0 <= i < |ps| ==> ps[i].0 != k
  {
    if |ps| == 0 then None
    else if ps[0].0 == k then Some(ps[0].1)
    else Lookup(ps[1..], k)
  }

  /** The list always fits the arrays with room for the terminator. */
  lemma {:induction false} ParamsFit(host: string, port: nat, db: string, s: ConnectionSettings)
    ensures |ConnectParams(host, port, db, s)| <= 14 < N_MAX_PARAMS - 1
  {
  }

  /** With TLS off no TLS parameter is given; with it on, sslmode follows the verification settings. */
  lemma {:induction false} SslModeChosen(host: string, port: nat, db: string, s: ConnectionSettings)
    ensures !s.ssl.enabled ==>
              (|ConnectParams(host, port, db, s)| == 7 && Lookup(ConnectParams(host, port, db, s), "sslmode").None?)
    ensures s.ssl.enabled ==> Lookup(ConnectParams(host, port, db, s), "sslmode") == Some(SslMode(s.ssl))
  {
    var ps := ConnectParams(host, port, db, s);
    if s.ssl.enabled {
      assert ps[7] == ("sslmode", SslMode(s.ssl));
      LookupFindsFirst(ps, "sslmode", 7);
    } else {
      assert forall i :: 0 <= i < |ps| ==> ps[i].0 != "sslmode";
    }
  }

  lemma {:induction false} LookupFindsFirst(ps: seq<(string, string)>, k: string, i: nat)
    requires i < |ps| && ps[i].0 == k && forall j :: 0 <= j < i ==> ps[j].0 != k
    ensures Lookup(ps, k) == Some(ps[i].1)
    decreases i
  {
    if i > 0 {
      LookupFindsFirst(ps[1..], k, i - 1);
    }
  }

  /** A pinned TLS version sets the minimum and the maximum to that one version. */
  lemma {:induction false} TlsVersionPinned(host: string, port: nat, db: string, s: ConnectionSettings)
    requires s.ssl.enabled
    ensures VersionName(s.ssl.version).Some? ==>
              Lookup(ConnectParams(host, port, db, s), "ssl_min_protocol_version") == VersionName(s.ssl.version) &&
              Lookup(ConnectParams(host, port, db, s), "ssl_max_protocol_version") == VersionName(s.ssl.version)
    ensures VersionName(s.ssl.version).None? ==>
              Lookup(ConnectParams(host, port, db, s), "ssl_min_protocol_version").None? &&
              Lookup(ConnectParams(host, port, db, s), "ssl_max_protocol_version").None?
  {
    PinnedVersion(host, port, db, s, "ssl_min_protocol_version", 11);
    PinnedVersion(host, port, db, s, "ssl_max_protocol_version", 12);
  }

  /** One of the two version keywords, found at its place when a version is pinned. */
  lemma {:induction false} PinnedVersion(host: string, port: nat, db: string, s: ConnectionSettings, key: string, i: nat)
    requires s.ssl.enabled
    requires (key, i) in {("ssl_min_protocol_version", 11), ("ssl_max_protocol_version", 12)}
    ensures Lookup(ConnectParams(host, port, db, s), key) == VersionName(s.ssl.version)
  {
    var ps := ConnectParams(host, port, db, s);
    if VersionName(s.ssl.version).Some? {
      LookupFindsFirst(ps, key, i);
    } else {
      assert forall j :: 0 <= j < |ps| ==> ps[j].0 != key;
    }
  }

  /** Status of a statement result, PQresultStatus. */
  datatype ExecStatus = EmptyQuery | CommandOk | TuplesOk | CopyOut | CopyIn | BadResponse
                      | NonfatalError | FatalError | CopyBoth | SingleTuple | PipelineSync | PipelineAborted

  /** PQresStatus: the name of a status. */
  function ResStatus(s: ExecStatus): string
  {
    match s
    case EmptyQuery => "PGRES_EMPTY_QUERY"
    case CommandOk => "PGRES_COMMAND_OK"
    case TuplesOk => "PGRES_TUPLES_OK"
    case CopyOut => "PGRES_COPY_OUT"
    case CopyIn => "PGRES_COPY_IN"
    case BadResponse => "PGRES_BAD_RESPONSE"
    case NonfatalError => "PGRES_NONFATAL_ERROR"
    case FatalError => "PGRES_FATAL_ERROR"
    case CopyBoth => "PGRES_COPY_BOTH"
    case SingleTuple => "PGRES_SINGLE_TUPLE"
    case PipelineSync => "PGRES_PIPELINE_SYNC"
    case PipelineAborted => "PGRES_PIPELINE_ABORTED"
  }

  /** What PQexec returns: status, column and row counts, PQresultErrorMessage. */
  datatype PgResult = PgResult(status: ExecStatus, nFields: nat, nTuples: nat, errorMessage: string)

  function QueryFailed(query: string, reason: string): string
  {
    "Query '" + query + "' failed. " + reason + "."
  }

  function WrongResultType(query: string, expected: ExecStatus, found: ExecStatus): string
  {
    "Unexpected result type for '" + query + "'. Expected '" + ResStatus(expected) + "', got '" + ResStatus(found) + "'."
  }

  /** The error text for a result other than the expected one. */
  function ErrorFor(query: string, conn: Conn, res: PgResult, expected: ExecStatus): (msg: string)
    requires res.status != expected
    ensures res.status == FatalError ==> msg == QueryFailed(query, conn.errorMessage)
    ensures res.status != FatalError && res.errorMessage != "" ==> msg == QueryFailed(query, res.errorMessage)
    ensures res.status != FatalError && res.errorMessage == "" ==> msg == WrongResultType(query, expected, res.status)
    ensures |msg| > 0
  {
    if res.status == FatalError then QueryFailed(query, conn.errorMessage)
    else if res.errorMessage != "" then QueryFailed(query, res.errorMessage)
    else WrongResultType(query, expected, res.status)
  }

  /**
   * cmd's verdict on a result: success, with the error message cleared, only for
   * COMMAND_OK; rows of data are an error that reports their counts.
   */
  function CmdOutcome(query: string, conn: Conn, res: PgResult): (r: (bool, string))
    ensures r.0 <==> res.status == CommandOk
    ensures r.0 <==> r.1 == ""
    ensures res.status == TuplesOk ==>
              r.1 == "Command '" + query + "' returned " + IntToString(res.nFields) + " columns and " +
                     IntToString(res.nTuples) + " rows of data when none was expected."
  {
    if res.status == CommandOk then (true, "")
    else if res.status == TuplesOk then
      (false, "Command '" + query + "' returned " + IntToString(res.nFields) + " columns and " +
              IntToString(res.nTuples) + " rows of data when none was expected.")
    else (false, ErrorFor(query, conn, res, CommandOk))
  }

  /** query's verdict: a result set only for TUPLES_OK. */
  function QueryOutcome(query: string, conn: Conn, res: PgResult): (r: (bool, string))
    ensures r.0 <==> res.status == TuplesOk
    ensures r.0 <==> r.1 == ""
    ensures !r.0 ==> r.1 == ErrorFor(query, conn, res, TuplesOk)
  {
    if res.status == TuplesOk then (true, "") else (false, ErrorFor(query, conn, res, TuplesOk))
  }

  /** The cursor step of advance_row: forward only while a next row exists. */
  function AdvanceStep(rowInd: int, rowCount: int): (r: (bool, int))
    ensures r.0 <==> rowInd < rowCount - 1
    ensures r.1 == (if r.0 then rowInd + 1 else rowInd)
  {
    if rowInd < rowCount - 1 then (true, rowInd + 1) else (false, rowInd)
  }

  /** The cursor after `n` calls from the start, and how many of them succeeded. */
  function AdvanceTimes(rowCount: nat, n: nat): (int, nat)
  {
    if n == 0 then (-1, 0)
    else
      var prev := AdvanceTimes(rowCount, n - 1);
      var step := AdvanceStep(prev.0, rowCount);
      (step.1, prev.1 + (if step.0 then 1 else 0))
  }

  /** From index -1, exactly `rowCount` calls succeed; the cursor then stays on the last row. */
  lemma {:induction false} AdvanceVisitsEveryRow(rowCount: nat, n: nat)
    ensures AdvanceTimes(rowCount, n).1 == (if n <= rowCount then n else rowCount)
    ensures AdvanceTimes(rowCount, n).0 == AdvanceTimes(rowCount, n).1 - 1
  {
    if n > 0 {
      AdvanceVisitsEveryRow(rowCount, n - 1);
    }
  }

  /** A result set, as the result wrapper holds it. */
  class PgQueryResult {
    const rowCount: int
    const columnCount: nat
    var rowInd: int

    ghost predicate Valid()
      reads this
    {
      rowCount >= 0 && -1 <= rowInd && (rowInd == -1 || rowInd <= rowCount - 1)
    }

    constructor (res: PgResult)
      ensures Valid() && rowInd == -1 && rowCount == res.nTuples && columnCount == res.nFields
    {
      rowCount := res.nTuples;
      columnCount := res.nFields;
      rowInd := -1;
    }

    /** advance_row. */
    method AdvanceRow() returns (advanced: bool)
      requires Valid()
      modifies this
      ensures Valid()
      ensures (advanced, rowInd) == AdvanceStep(old(rowInd), rowCount)
    {
      advanced := false;
      if rowInd < rowCount - 1 {
        rowInd := rowInd + 1;
        advanced := true;
      }
    }
  }

  class PgSQL {
    var conn: Option<Conn>
    var errormsg: string
    var settings: ConnectionSettings
    /** Connections handed to PQfinish, oldest first. */
    var finished: seq<Conn>

    constructor (settings: ConnectionSettings)
      ensures conn.None? && errormsg == "" && this.settings == settings && finished == []
    {
      conn := None;
      errormsg := "";
      this.settings := settings;
      finished := [];
    }

    /** close: finish the connection, if there is one, and forget it. */
    method Close()
      modifies this`conn, this`finished
      ensures conn.None?
      ensures finished == old(finished) + (if old(conn).Some? then [old(conn).value] else [])
    {
      if conn.Some? {
        finished := finished + [conn.value];
        conn := None;
      }
    }

    /** move_helper: close this connection, then take the other's, leaving it none. */
    method MoveFrom(other: PgSQL)
      requires other != this
      modifies this`conn, this`finished, other`conn
      ensures conn == old(other.conn) && other.conn.None?
      ensures finished == old(finished) + (if old(conn).Some? then [old(conn).value] else [])
    {
      Close();
      conn := other.conn;
      other.conn := None;
    }

    /**
     * Move assignment: moving a connection onto itself changes nothing; otherwise this
     * session's own connection is finished before it takes the other's.
     */
    method MoveAssign(rhs: PgSQL)
      modifies this`conn, this`finished, rhs`conn
      ensures rhs == this ==> conn == old(conn) && finished == old(finished)
      ensures rhs != this ==> conn == old(rhs.conn) && rhs.conn.None?
      ensures rhs != this ==> finished == old(finished) + (if old(conn).Some? then [old(conn).value] else [])
    {
      if this != rhs {
        MoveFrom(rhs);
      }
    }

    /** add_param: one keyword/value pair at the counter, which moves on. */
    static method AddParam(keywords: array<Option<string>>, values: array<Option<string>>, n: nat,
                           k: Option<string>, v: Option<string>) returns (n': nat)
      requires keywords != values && keywords.Length == values.Length && n < keywords.Length
      modifies keywords, values
      ensures n' == n + 1 && keywords[n] == k && values[n] == v
      ensures forall i :: 0 <= i < keywords.Length && i != n ==> keywords[i] == old(keywords[i]) && values[i] == old(values[i])
    {
      keywords[n] := k;
      values[n] := v;
      n' := n + 1;
    }

    /** Adds a run of pairs, in order. */
    static method AddParams(keywords: array<Option<string>>, values: array<Option<string>>, n: nat,
                            ps: seq<(string, string)>) returns (n': nat)
      requires keywords != values && keywords.Length == values.Length && n + |ps| <= keywords.Length
      modifies keywords, values
      ensures n' == n + |ps|
      ensures forall i :: n <= i < n' ==> keywords[i] == Some(ps[i - n].0) && values[i] == Some(ps[i - n].1)
      ensures forall i :: 0 <= i < keywords.Length && !(n <= i < n') ==>
                keywords[i] == old(keywords[i]) && values[i] == old(values[i])
    {
      n' := n;
      var j := 0;
      while j < |ps|
        invariant 0 <= j <= |ps| && n' == n + j
        invariant forall i :: n <= i < n' ==> keywords[i] == Some(ps[i - n].0) && values[i] == Some(ps[i - n].1)
        invariant forall i :: 0 <= i < keywords.Length && !(n <= i < n') ==>
                    keywords[i] == old(keywords[i]) && values[i] == old(values[i])
      {
        n' := AddParam(keywords, values, n', Some(ps[j].0), Some(ps[j].1));
        j := j + 1;
      }
    }

    /** How libpq reads the arrays: pairs up to the first null keyword. */
    static method ReadParams(keywords: array<Option<string>>, values: array<Option<string>>)
      returns (ps: seq<(string, string)>)
      requires keywords.Length == values.Length
      requires exists i :: 0 <= i < keywords.Length && keywords[i].None?
      ensures |ps| < keywords.Length && keywords[|ps|].None?
      ensures forall i :: 0 <= i < |ps| ==> keywords[i].Some? && ps[i].0 == keywords[i].value &&
                                             ps[i].1 == (if values[i].Some? then values[i].value else "")
    {
      ps := [];
      var i := 0;
      while keywords[i].Some?
        invariant 0 <= i < keywords.Length && |ps| == i
        invariant exists j :: i <= j < keywords.Length && keywords[j].None?
        invariant forall k :: 0 <= k < i ==> keywords[k].Some? && ps[k].0 == keywords[k].value &&
                                              ps[k].1 == (if values[k].Some? then values[k].value else "")
        decreases keywords.Length - i
      {
        ps := ps + [(keywords[i].value, if values[i].Some? then values[i].value else "")];
        i := i + 1;
      }
    }

    /**
     * The keyword and value arrays of open, filled with `ps` and a null terminator,
     * as libpq reads them back.
     */
    static method PassParams(ps: seq<(string, string)>) returns (given: seq<(string, string)>)
      requires |ps| < N_MAX_PARAMS
      ensures given == ps
    {
      var keywords := new Option<string>[N_MAX_PARAMS](_ => None);
      var values := new Option<string>[N_MAX_PARAMS](_ => None);
      var n := AddParams(keywords, values, 0, ps);
      n := AddParam(keywords, values, n, None, None);
      given := ReadParams(keywords, values);
      assert keywords[|ps|].None?;
      assert forall i :: 0 <= i < |ps| ==> keywords[i].Some?;
      assert !(|given| < |ps|) && !(|given| > |ps|);
      assert forall i :: 0 <= i < |ps| ==> given[i] == ps[i];
    }

    /**
     * open: close any old connection, fill the two arrays with the connection
     * parameters and a null terminator, and connect with them.
     */
    method Open(host: string, port: nat, db: string, connect: seq<(string, string)> -> Conn) returns (ok: bool)
      modifies this`conn, this`finished
      ensures conn == Some(connect(ConnectParams(host, port, db, settings)))
      ensures ok == conn.value.ok
      ensures finished == old(finished) + (if old(conn).Some? then [old(conn).value] else [])
    {
      Close();
      var ps := ConnectParams(host, port, db, settings);
      ParamsFit(host, port, db, settings);
      var given := PassParams(ps);
      var c := connect(given);
      conn := Some(c);
      ok := c.ok;
    }

    /** error: the connection's own message, or the no-connection text. */
    function Error(): (msg: string)
      reads this
      ensures conn.None? ==> msg == NO_CONNECTION
      ensures conn.Some? ==> msg == conn.value.errorMessage
    {
      if conn.Some? then conn.value.errorMessage else NO_CONNECTION
    }

    /** cmd: run a statement that returns no rows. */
    method Cmd(query: string, exec: (Conn, string) -> PgResult) returns (ok: bool)
      modifies this`errormsg
      ensures conn.None? ==> !ok && errormsg == NO_CONNECTION
      ensures conn.Some? ==> (ok, errormsg) == CmdOutcome(query, conn.value, exec(conn.value, query))
    {
      if conn.Some? {
        var res := exec(conn.value, query);
        var outcome := CmdOutcome(query, conn.value, res);
        ok := outcome.0;
        errormsg := outcome.1;
      } else {
        ok := false;
        errormsg := NO_CONNECTION;
      }
    }

    /** query: run a statement and hand back its result set, if it produced one. */
    method Query(query: string, exec: (Conn, string) -> PgResult) returns (result: PgQueryResult?)
      modifies this`errormsg
      ensures conn.None? ==> result == null && errormsg == NO_CONNECTION && Error() == errormsg
      ensures conn.Some? ==> (result != null, errormsg) == QueryOutcome(query, conn.value, exec(conn.value, query))
      ensures result != null ==> fresh(result) && result.Valid() && result.rowInd == -1 &&
                                 result.rowCount == exec(conn.value, query).nTuples
    {
      result := null;
      if conn.Some? {
        var res := exec(conn.value, query);
        var outcome := QueryOutcome(query, conn.value, res);
        if outcome.0 {
          result := new PgQueryResult(res);
        }
        errormsg := outcome.1;
      } else {
        errormsg := NO_CONNECTION;
      }
    }
  }
}
