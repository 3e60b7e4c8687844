# MaxScale core pieces, modelled in Dafny

This project models eight parts of MariaDB MaxScale and proves properties of them:

- **PostgreSQL backend connection** (`pg_messages.dfy`, `pg_backend.dfy`). This covers:
  - the SSLRequest, StartupMessage and Terminate encoders;
  - the handshake state machine INIT → SSL_REQUEST → SSL_HANDSHAKE → AUTH → STARTUP → ROUTING / FAILED;
  - the backlog of writes held until routing starts;
  - the queue of tracked queries;
  - the walk over reply messages that counts rows and detects ReadyForQuery.
- **xrouter session** (`xrouter_session.dfy`). It routes a statement either to one "solo" node or, for DDL, first to the main node under a lock and then replays it on every secondary. Packets that arrive while a command is in flight wait in a queue.
- **tee filter** (`tee_filter.dfy`). This covers:
  - MySQL packet framing and reply counting;
  - length-encoded integers and the OK/EOF status flags;
  - the per-session reply bookkeeping that decides when the main branch's reply may be forwarded;
  - statement cloning;
  - loop detection over tee targets.
- **NoSQL user manager** (`nosql_roles.dfy`). This covers:
  - role names and their JSON form;
  - the all-or-nothing reading of a role array;
  - the `db.user` account key;
  - the WHERE clause that selects several users;
  - the row callback that accepts a user only when both its mechanisms and roles parse.
- **system-test harness helpers** (`test_connections.dfy`). This covers:
  - string sets, with parse and flatten;
  - the network-config line parser;
  - placeholder replacement in templates;
  - required MDBCI labels;
  - the result code of `run_test`;
  - the MaxScale counters.
- **PostgreSQL client connector** (`pg_connector.dfy`). This covers:
  - the keyword/value parameter arrays given to libpq, including the sslmode and TLS version;
  - the classification of `cmd`/`query` results and their error text;
  - close and move;
  - the row cursor.
- **query-editor metadata cache** (`editors_mem.dfy`). This covers:
  - the charset→collations fold;
  - the schema→charset fold;
  - the engine list;
  - the fetch-if-empty warm-up.
- **query-tab ORM model** (`query_tab.dfy`). This covers cascade delete and cascade refresh over the tab table and its four child tables.

`common.dfy` holds the shared pieces:

- bytes;
- `Option`;
- the big-endian Int32 of the PostgreSQL protocol;
- `Join`;
- substring search;
- decimal rendering.

How each part is modelled:

- Code that updates state is a class with `modifies` clauses. Its methods are proved against specification functions.
- Code that only computes is a set of functions and lemmas.
- Sockets, the TLS layer, libpq, sqlite, regular expressions and JSON parsing become parameters or small oracle classes. Each is named where it is used.

## Model

| member | source | states |
|---|---|---|
| PgMessages.SslRequest | server/modules/protocol/Postgres/pgbackendconnection.cc:19-25 | the SSLRequest is 8 bytes: an Int32 8, then the SSL request code |
| PgMessages.StartupMessage | server/modules/protocol/Postgres/pgbackendconnection.cc:27-40 | the StartupMessage is the Int32 `8 + |params|`, the protocol 3.0 code, then the parameters verbatim |
| PgMessages.Terminate | server/modules/protocol/Postgres/pgbackendconnection.cc:42-48 | Terminate is 'X' followed by the Int32 4 |
| PgMessages.StartupRoundTrip | server/modules/protocol/Postgres/pgbackendconnection.cc:27-40 | a server reading the StartupMessage gets the parameters back and does not take it for an SSLRequest |
| PgMessages.SslRequestIsNotStartup | server/modules/protocol/Postgres/pgbackendconnection.cc:19-25 | the SSLRequest is recognised as one and never parses as a StartupMessage |
| PgMessages.TerminateIsFramed | server/modules/protocol/Postgres/pgbackendconnection.cc:42-48 | Terminate is exactly one whole message by the `1 + length` framing |
| PgBackend.Step | server/modules/protocol/Postgres/pgbackendconnection.cc:557-622 | ReadyForQuery completes the reply, and it is OK exactly when no rows and no error were seen; DataRow adds one row; ErrorResponse marks an error |
| PgBackend.WalkCountsRows | server/modules/protocol/Postgres/pgbackendconnection.cc:557-622 | the walk over a buffer adds one row per DataRow message it passes |
| PgBackend.WalkStopsAtReady | server/modules/protocol/Postgres/pgbackendconnection.cc:557-622 | the walk passes at most one ReadyForQuery, and the reply is complete exactly when it passed one |
| PgBackend.WalkOkReply | server/modules/protocol/Postgres/pgbackendconnection.cc:557-622 | a reply completed with no rows and no error is an OK reply |
| PgBackend.WalkStopsOnlyAtBoundary | server/modules/protocol/Postgres/pgbackendconnection.cc:557-622 | the walk stops only at the end of the buffer, at a complete reply, or before a message that is not wholly in the buffer; over whole messages it reaches the end or completes the reply |
| PgBackend.ReadStretch | server/modules/protocol/Postgres/pgbackendconnection.cc:498-527 | the part of a read handed to the reply is a prefix of the bytes read, and it is empty unless a whole message starts the buffer |
| PgBackend.StepAsWritten | server/modules/protocol/Postgres/pgbackendconnection.cc:564-616 | the loop as written takes the message's type into the reply and advances by the 32-bit sum `len + 1`, whether or not the message is all there |
| PgBackend.PartialRowCountedAsWritten | server/modules/protocol/Postgres/pgbackendconnection.cc:564-616 | as written, a DataRow whose body has not fully arrived is counted as a row and the offset moves past the end of the buffer; the guarded walk leaves the buffer untouched |
| PgBackend.MaxLengthStallsAsWritten | server/modules/protocol/Postgres/pgbackendconnection.cc:564-616 | as written, a length field of 0xffffffff wraps `len + 1` to 0, so the loop stays at the same message without completing; the guarded walk leaves the buffer untouched |
| PgBackend.TrackingReply | server/modules/protocol/Postgres/pgbackendconnection.cc:452-458 | start_tracking gives a cleared, incomplete reply for the query's command and size |
| PgBackend.TrackOne | server/modules/protocol/Postgres/pgbackendconnection.cc:119-134 | a packet that gets no reply is not tracked; one that does starts tracking at once if the reply is complete and is queued otherwise |
| PgBackend.TrackAllAppends | server/modules/protocol/Postgres/pgbackendconnection.cc:119-134 | tracking a sequence of writes keeps the queue as it was and appends at most one query per write |
| PgBackend.SendRunWrites | server/modules/protocol/Postgres/pgbackendconnection.cc:473-496 | the backlog's packets are written in order up to the first write that fails, and nothing after it |
| PgBackend.SendRunTracks | server/modules/protocol/Postgres/pgbackendconnection.cc:473-496 | every packet handed to `write`, including the one whose write fails, is tracked in order |
| PgBackend.Dcb.ReadMessages | server/modules/protocol/Postgres/pgbackendconnection.cc:502 | a successful read of at least a header returns every byte available and leaves nothing; otherwise nothing is returned |
| PgBackend.Connection.SetDcb | server/modules/protocol/Postgres/pgbackendconnection.cc:174-193 | leaving INIT goes to SSL_REQUEST with TLS and to AUTH without it; a failed write goes to FAILED |
| PgBackend.Connection.constructor | server/modules/protocol/Postgres/pgbackendconnection.cc:57-61 | a new connection is in INIT with no DCB, an empty backlog and an idle reply |
| PgBackend.Connection.HandleError | server/modules/protocol/Postgres/pgbackendconnection.cc:220-224 | an error is reported upstream and the state becomes FAILED |
| PgBackend.Connection.CheckSize | server/modules/protocol/Postgres/pgbackendconnection.cc:226-239 | a message shorter than required fails the connection with a permanent error |
| PgBackend.Connection.SendSslRequest | server/modules/protocol/Postgres/pgbackendconnection.cc:241-251 | the SSLRequest is queued and the state becomes SSL_REQUEST, or FAILED if the write fails |
| PgBackend.Connection.SendStartupMessage | server/modules/protocol/Postgres/pgbackendconnection.cc:253-264 | the StartupMessage is queued and the state becomes AUTH, or FAILED if the write fails |
| PgBackend.Connection.HandleSslRequest | server/modules/protocol/Postgres/pgbackendconnection.cc:266-301 | 'N' sends the startup message and goes to AUTH; 'S' goes to SSL_HANDSHAKE unless the handshake fails; any other byte or a failed read goes to FAILED |
| PgBackend.Connection.HandleSslHandshake | server/modules/protocol/Postgres/pgbackendconnection.cc:303-324 | once TLS is established the StartupMessage is sent; a handshake still in progress waits; a failed one goes to FAILED |
| PgBackend.Connection.HandleAuth | server/modules/protocol/Postgres/pgbackendconnection.cc:386-432 | only AuthenticationOk moves to STARTUP; other methods, ErrorResponse, unknown or short messages go to FAILED |
| PgBackend.Connection.HandleStartup | server/modules/protocol/Postgres/pgbackendconnection.cc:326-384 | one whole message is consumed. ReadyForQuery empties the backlog and writes it in order up to the first failed write, and the state is ROUTING exactly when every packet was written. ErrorResponse fails permanently, and so does a BackendKeyData under 13 bytes; a longer one stores the process id and secret key and stays in STARTUP. An authentication message fails the connection. Other messages change nothing. A failed read fails the connection with a transient error |
| PgBackend.Connection.Write | server/modules/protocol/Postgres/pgbackendconnection.cc:119-134 | outside ROUTING a write is appended to the backlog and succeeds without sending; in ROUTING it is tracked and written |
| PgBackend.Connection.TrackQuery | server/modules/protocol/Postgres/pgbackendconnection.cc:434-450 | a query starts tracking at once if the reply is complete, otherwise it is appended to the queue |
| PgBackend.Connection.StartTracking | server/modules/protocol/Postgres/pgbackendconnection.cc:452-458 | the reply is reset for the query |
| PgBackend.Connection.TrackNextResult | server/modules/protocol/Postgres/pgbackendconnection.cc:460-471 | pops the front of the queue and reports whether there was one |
| PgBackend.Connection.SendBacklog | server/modules/protocol/Postgres/pgbackendconnection.cc:473-496 | the backlog is emptied and its packets are written in order up to the first failed write. Routing goes on exactly when all were written, with every packet tracked. After a failed write the connection is FAILED with a transient error, and the packets up to and including the failed one are tracked |
| PgBackend.Connection.WriteInOrder | server/modules/protocol/Postgres/pgbackendconnection.cc:479-485 | the loop's writes, tracking and write count are exactly the run of writes over the packets that stops at the first failure |
| PgBackend.Connection.ProcessPackets | server/modules/protocol/Postgres/pgbackendconnection.cc:557-622 | for any buffer, including one that ends inside a message, the part returned is what the guarded walk consumed and the reply is the walk's result with its byte count advanced by that much |
| PgBackend.Connection.ReadCompletePackets | server/modules/protocol/Postgres/pgbackendconnection.cc:498-527 | the bytes read are the returned part followed by what is pushed back, partial messages included; the returned part is the stretch the walk consumed and the reply is the walk's result; a failed read fails the connection with a transient error and leaves the reply alone |
| PgBackend.Connection.HandleRouting | server/modules/protocol/Postgres/pgbackendconnection.cc:529-555 | the consumed bytes are delivered upstream and the rest is left to read; nothing consumed means nothing delivered and no new round. A refused delivery kills the session. The loop goes on exactly when something was delivered and accepted, the DCB is open, the reply is complete and a query was queued. It then tracks the front query and pops it; otherwise the queue is unchanged |
| PgBackend.Connection.ReadyForReading | server/modules/protocol/Postgres/pgbackendconnection.cc:63-102 | the read loop never moves the state backwards, and FAILED stops it |
| PgBackend.Connection.FinishConnection | server/modules/protocol/Postgres/pgbackendconnection.cc:136-139 | a Terminate message is queued |
| XRouter.StateToStrInjective | server/modules/routing/xrouter/xroutersession.cc:19-56 | every state has its own name |
| XRouter.Written | server/modules/routing/xrouter/xroutersession.cc:196-201 | a write to a usable backend appends the packet and, if a reply is expected, its response type; otherwise nothing changes |
| XRouter.Replayed | server/modules/routing/xrouter/xroutersession.cc:171-194 | a secondary receives the stored packets in order |
| XRouter.Closed | server/modules/routing/xrouter/xroutersession.cc:414-431 | a closed backend is out of use and awaits no replies |
| XRouter.Fenced | server/modules/routing/xrouter/xroutersession.cc:414-431 | the backend is closed; its server goes into maintenance exactly when it already was or the monitor lists it as reachable |
| XRouter.Queues | server/modules/routing/xrouter/xroutersession.cc:130-140 | routeQuery queues a packet exactly in the states from which it cannot route one |
| XRouter.StopsQueue | server/modules/routing/xrouter/xroutersession.cc:371-387 | route_queued stops in exactly the queueing states other than INIT |
| XRouter.QueueRotationReorders | server/modules/routing/xrouter/xroutersession.cc:363-395 | pushing the moved front to the back and then popping the front rotates the queue by one, which changes it unless all its packets are equal |
| XRouter.Checked | server/modules/routing/xrouter/xroutersession.cc:433-444 | a backend stays in use exactly when it was in use and can still connect |
| XRouter.Session.constructor | server/modules/routing/xrouter/xroutersession.cc:63-77 | the session starts in INIT with the main set-up statement sent to main and the secondary one to every other backend, replies ignored |
| XRouter.Session.RouteToOne | server/modules/routing/xrouter/xroutersession.cc:196-201 | the write succeeds exactly when the backend is usable, and only that backend changes |
| XRouter.Session.SendQuery | server/modules/routing/xrouter/xroutersession.cc:409-412 | the generated statement is written to one backend with its reply ignored |
| XRouter.Session.RouteQuery | server/modules/routing/xrouter/xroutersession.cc:79-142 | routing fails when main or solo is no longer in use; the queueing states only append to the queue; in IDLE a multi-node packet locks main and is queued, any other packet goes to solo. A packet is either queued or taken on (appended to the `dispatched` record), never both |
| XRouter.Session.RouteSolo | server/modules/routing/xrouter/xroutersession.cc:144-155 | the packet goes only to the solo backend, and a packet expecting a reply moves to WAIT_SOLO |
| XRouter.Session.RouteMain | server/modules/routing/xrouter/xroutersession.cc:157-169 | the packet is stored and written to main, and a packet expecting a reply moves to WAIT_MAIN |
| XRouter.Session.RouteSecondary | server/modules/routing/xrouter/xroutersession.cc:171-194 | every in-use backend other than main receives the stored packets in order |
| XRouter.Session.CheckNodeStatus | server/modules/routing/xrouter/xroutersession.cc:433-444 | backends that cannot connect are dropped, and the result says whether main and solo are both still in use |
| XRouter.Session.RouteQueued | server/modules/routing/xrouter/xroutersession.cc:363-395 | the queue is drained front first: for some k the first k packets left the queue and were taken on by routeQuery in order, so the taken-on packets followed by the queue are unchanged (nothing lost or overtaken). Draining stops in a waiting state; a multi-node packet first in line in IDLE sends lock_sql to main and stays queued; a failure kills the session |
| XRouter.Session.RouteQueuedAsWritten | server/modules/routing/xrouter/xroutersession.cc:363-395 | as written, a multi-node packet routed from the queue ends up behind the packets that arrived after it |
| XRouter.Session.FinishMultinode | server/modules/routing/xrouter/xroutersession.cc:446-461 | the stored packets and response are emptied, main is unlocked, and the collected response is returned |
| XRouter.Session.FenceBadNode | server/modules/routing/xrouter/xroutersession.cc:414-431 | the failed backend is closed; its server goes into maintenance when the monitor lists it as reachable, and one already in maintenance stays so; no other backend changes |
| XRouter.Session.IsMultiNode | server/modules/routing/xrouter/xroutersession.cc:463-490 | a statement is multi-node exactly when it does not create a temporary table and is a CREATE, DROP or ALTER (of a table or anything else), GRANT or REVOKE |
| XRouter.Session.RouteNext | server/modules/routing/xrouter/xroutersession.cc:363-395 | the oldest queued packet goes through routeQuery: it leaves the queue and is taken on unless an IDLE multi-node packet locks main and stays queued. State by state, solo is written in SOLO, LOAD_DATA and IDLE, main is written and the packet stored in MAIN, lock_sql goes to main for a multi-node packet in IDLE, and a lost node fails the routing |
| XRouter.Session.Unlocked | server/modules/routing/xrouter/xroutersession.cc:446-461 | main receives the unlock statement, or is closed when that write fails |
| XRouter.Session.HandleError | server/modules/routing/xrouter/xroutersession.cc:350-361 | always returns false; a failed secondary is fenced |
| XRouter.Session.ClientReply | server/modules/routing/xrouter/xroutersession.cc:203-348 | INIT becomes IDLE once every backend is idle after the acknowledgement, and stays INIT with only the acknowledgement otherwise. LOCK_MAIN becomes MAIN on a complete reply; UNLOCK_MAIN becomes IDLE. A complete reply in MAIN or WAIT_MAIN moves to WAIT_SECONDARY, or on error returns main's collected reply and goes to UNLOCK_MAIN. In WAIT_SECONDARY a secondary's error reply fences it. Once every backend is idle, main's reply goes to the client, the stored packets and reply are cleared, main is unlocked and the state is UNLOCK_MAIN. In SOLO, WAIT_SOLO and LOAD_DATA a reply the client expects is passed on (unless a data load is still streaming); a complete one returns to IDLE, and with an empty queue and the client accepting it the session is IDLE and the call succeeds. LOCK_MAIN (before completion) and UNLOCK_MAIN pass an expected reply on as well. A reply in IDLE kills the session |
| XRouter.Session.ReplyByState | server/modules/routing/xrouter/xroutersession.cc:220-334 | the switch on the state: for each state, the new state, the backends and queue, and the reply handed to the common tail with whether it goes to the client |
| XRouter.Session.ReplyWhileInit | server/modules/routing/xrouter/xroutersession.cc:222-228 | INIT becomes IDLE exactly when every backend is idle |
| XRouter.Session.ReplyToSecondary | server/modules/routing/xrouter/xroutersession.cc:305-324 | a complete error reply fences its backend; once every backend is idle main's reply is routed and the command finishes; otherwise nothing else changes |
| XRouter.Session.PassOn | server/modules/routing/xrouter/xroutersession.cc:336-345 | an expected reply is passed to the client; after a complete reply in IDLE the queue is drained as route_queued does (the packets leaving it are taken on in order), and an empty queue leaves the state alone |
| XRouter.Session.ReplyToSoloCommand | server/modules/routing/xrouter/xroutersession.cc:236-255 | a complete solo reply returns to IDLE with the queue and backends untouched; a data load moves to LOAD_DATA |
| XRouter.Session.ReplyToMultiNodeCommand | server/modules/routing/xrouter/xroutersession.cc:276-303 | main's reply is collected; on completion an error finishes the command and an OK moves to WAIT_SECONDARY |
| Tee.SkipResultSet | server/modules/filter/tee/tee.c:849-883 | skipping a result set stops after its second EOF/ERR packet and consumes at least one packet |
| Tee.RepliesAtMostPackets | server/modules/filter/tee/tee.c:849-883 | there are never more replies than packets |
| Tee.CountReplies | server/modules/filter/tee/tee.c:849-883 | each OK/ERR/LOCAL_INFILE packet is one reply and a result set counts once after two EOF/ERR packets |
| Tee.LenencLength | server/modules/filter/tee/tee.c:885-904 | a length-encoded integer takes 1, 3, 4 or 9 bytes |
| Tee.LenencLengthOfEncoding | server/modules/filter/tee/tee.c:885-904 | the length read from the first byte is the length of the encoding |
| Tee.GetResponseFlagsAsWritten | server/modules/filter/tee/tee.c:906-927 | the status flags are read from the offsets the code computes |
| Tee.OkPacketFlags | server/modules/filter/tee/tee.c:906-927 | the corrected reader returns the status field of any OK packet |
| Tee.EofPacketFlags | server/modules/filter/tee/tee.c:906-927 | the corrected reader returns the status field of any EOF packet |
| Tee.OkFlagsMisreadAsWritten | server/modules/filter/tee/tee.c:906-927 | on an OK packet with status 0x0008 the code as written reads 0x0800 |
| Tee.EofFlagsMisreadAsWritten | server/modules/filter/tee/tee.c:906-927 | on an EOF packet with status 0x0008 the code as written reads 0x0800 |
| Tee.MultiStatements | server/modules/filter/tee/tee.c:1347-1350 | option 0 of COM_SET_OPTION turns multi-statements on |
| Tee.SetOptionInvertedAsWritten | server/modules/filter/tee/tee.c:1347-1350 | the code as written records option 0 as off and option 1 as on |
| Tee.MinEof | server/modules/filter/tee/tee.c:952 | one EOF is expected for COM_FIELD_LIST and two for everything else |
| Tee.RejectedChildNeverHolds | server/modules/filter/tee/tee.c:1034-1040 | a child whose clone was rejected never holds back the parent's reply |
| Tee.BothDoneReleases | server/modules/filter/tee/tee.c:1034-1040 | with a reply buffered and both branches done, the reply is forwarded |
| Tee.TeeSession.PacketIsRequired | server/modules/filter/tee/tee.c:1146-1163 | true exactly when the buffer is longer than 4 bytes and byte 4 is a required command |
| Tee.TeeSession.CloneQuery | server/modules/filter/tee/tee.c:1231-1273 | a statement is cloned only when it matches `match` and not `exclude`, and the residual never goes below 0 |
| Tee.TeeSession.RouteSingleQuery | server/modules/filter/tee/tee.c:1285-1328 | an inactive session or unready branch deactivates; a rejected clone stops the child from waiting, sets its EOF count to 2 and counts a rejection; a clone counts a duplication |
| Tee.TeeSession.ResetSessionState | server/modules/filter/tee/tee.c:1336-1370 | buffers under 5 bytes change nothing; otherwise the command is recorded, the multipacket flags follow it, and the counters, EOFs and waiting flags are reset. For COM_SET_OPTION `clientMultistatement` becomes `MultiStatements(buffer[5])`, the corrected reading of the option (the source stores the raw byte; see Findings) |
| Tee.BranchStep | server/modules/filter/tee/tee.c:977-1021 | a first reply that is OK, ERR or LOCAL_INFILE, or any first reply to a single-packet command, ends the branch's wait; a branch that was not waiting keeps its EOF count; a branch still waiting has a count below the minimum or a count reset for more results; one that stops waiting has reached the minimum |
| Tee.TeeSession.AccountReply | server/modules/filter/tee/tee.c:972-1040 | the branch's flags become the accounting's result and its reply count advances, the other branch is untouched, the parent's packets join the buffered reply, and the reply is forwarded exactly when the hold condition is false |
| Tee.TeeSession.BranchReply | server/modules/filter/tee/tee.c:977-1021 | the flags the code computes are exactly those of the accounting on values |
| Tee.TeeSession.ClientReply | server/modules/filter/tee/tee.c:941-1075 | an inactive session returns 0; a partial packet returns 1. Otherwise the buffered reply, with the parent's packets added, goes to the client exactly when the hold condition is false after the accounting, and the buffer is emptied. Without a queued packet to route, the branch's flags are the accounted ones (`Accounted`) and rc is 0 exactly when a forwarded reply is refused. The oldest held packet is routed exactly when neither branch waits any more: it leaves the queue, reaches the main chain when the branch is ready, the counters restart for its command and rc is route_single_query's |
| Tee.TeeSession.ReleaseReply | server/modules/filter/tee/tee.c:1042-1075 | the buffered reply goes to the client when nothing holds it back; with a queued packet and neither branch waiting the packet is routed as a new query, and otherwise no flag, counter or queue changes and rc is the forwarding's outcome |
| Tee.TeeSession.RouteQueuedQuery | server/modules/filter/tee/tee.c:1063-1073 | the oldest held packet leaves the queue, is cloned, the counters are reset for its command and it is routed: the main chain gets it while the session is active and the branch ready, a rejected clone stops the child from waiting, and rc is 1 exactly when the session stays active and the main chain accepts; the client's replies and the buffered reply are untouched |
| Tee.TeeSession.StartQuery | server/modules/filter/tee/tee.c:1068-1072 | clone_query, reset_session_state and route_single_query in sequence: the same outcomes, for any packet whose command byte is present |
| Tee.DetectLoops | server/modules/filter/tee/tee.c:1168-1212 | the method computes the recursion over tee targets with one shared visited set |
| Tee.LoopFromSound | server/modules/filter/tee/tee.c:1168-1212 | the corrected search reports a loop only when a chain of tee targets returns to a service on its own path |
| Tee.LoopFromComplete | server/modules/filter/tee/tee.c:1168-1212 | the corrected search reports a loop whenever a chain of tee targets reaches a service on its path or earlier on the chain |
| Tee.LoopReported | server/modules/filter/tee/tee.c:1168-1212 | every loop of tees through a service is reported when the search starts there |
| Tee.DiamondReportedAsWritten | server/modules/filter/tee/tee.c:1168-1212 | a diamond of tee targets has no loop, yet the code as written reports one |
| NoSqlUsers.RoleToString | server/modules/protocol/NoSQL/nosqlusermanager.cc:179-192 | every role has a name in the role table |
| NoSqlUsers.RoleFromString | server/modules/protocol/NoSQL/nosqlusermanager.cc:194-206 | succeeds exactly for a name in the table; on failure the current value is kept |
| NoSqlUsers.RoleNamesRoundTrip | server/modules/protocol/NoSQL/nosqlusermanager.cc:179-206 | to_string and from_string are inverse bijections |
| NoSqlUsers.RoleToJsonRenders | server/modules/protocol/NoSQL/nosqlusermanager.cc:208-218 | a role's JSON text is the object with exactly "db" and "role" |
| NoSqlUsers.RolesToJson | server/modules/protocol/NoSQL/nosqlusermanager.cc:261-286 | the array is the role objects separated by ", " in brackets, and no roles give "[]" |
| NoSqlUsers.RoleFromJson | server/modules/protocol/NoSQL/nosqlusermanager.cc:220-245 | success needs an object with a string "db" and a known string "role"; on failure the role is kept |
| NoSqlUsers.RoleFromText | server/modules/protocol/NoSQL/nosqlusermanager.cc:247-259 | text that does not load as JSON fails and keeps the role |
| NoSqlUsers.RoleJsonRoundTrip | server/modules/protocol/NoSQL/nosqlusermanager.cc:208-245 | reading a role's JSON gives the role back |
| NoSqlUsers.RolesFromText | server/modules/protocol/NoSQL/nosqlusermanager.cc:288-346 | the output is replaced only when the text is an array of valid role objects; otherwise it is unchanged |
| NoSqlUsers.RolesJsonRoundTrip | server/modules/protocol/NoSQL/nosqlusermanager.cc:261-346 | reading the JSON of a role vector gives the vector back |
| NoSqlUsers.DbUser | server/modules/protocol/NoSQL/nosqlusermanager.cc:405 | the account key is db, a dot, then user |
| NoSqlUsers.DbUserInjective | server/modules/protocol/NoSQL/nosqlusermanager.cc:405 | for database names without dots, the key determines database and user |
| NoSqlUsers.SelectSomeUsers | server/modules/protocol/NoSQL/nosqlusermanager.cc:562-596 | no users give no query; otherwise the head plus the `db_user = '<x>'` terms joined by " OR " |
| NoSqlUsers.EveryUserSelected | server/modules/protocol/NoSQL/nosqlusermanager.cc:562-596 | every requested user has its term in the WHERE clause |
| NoSqlUsers.SelectRow | server/modules/protocol/NoSQL/nosqlusermanager.cc:53-99 | a row is accepted exactly when both its mechanisms and its roles parse, and then its user is appended |
| NoSqlUsers.AcceptedBounded | server/modules/protocol/NoSQL/nosqlusermanager.cc:53-99 | no more users than rows are returned, each from a row with those roles |
| NoSqlUsers.GetInfos | server/modules/protocol/NoSQL/nosqlusermanager.cc:562-596 | no users give no result without a query; otherwise the accepted rows of the selection |
| MaxTest.BelowTransitive | system-test/maxtest/src/testconnections.cc:1792-1810 | the string order of the set is transitive |
| MaxTest.Insert | system-test/maxtest/src/testconnections.cc:1792-1810 | inserting keeps the set sorted and adds exactly the element |
| MaxTest.FlattenStringSet | system-test/maxtest/src/testconnections.cc:1779-1790 | the elements joined by "," in set order; the empty set gives "" |
| MaxTest.ParseToStringSet | system-test/maxtest/src/testconnections.cc:1792-1810 | the set of non-empty tokens between `,` `;` space and newline; empty input gives the empty set |
| MaxTest.TokensAroundDelim | system-test/maxtest/src/testconnections.cc:1792-1810 | a delimiter splits the tokens of the two sides |
| MaxTest.FlattenParseRoundTrip | system-test/maxtest/src/testconnections.cc:1779-1810 | parsing a flattened set of delimiter-free names gives the set back |
| MaxTest.ParseConfigLine | system-test/maxtest/src/testconnections.cc:524-541 | a line is accepted only with `=` at neither end and both trimmed sides non-empty |
| MaxTest.ReadNetworkConfig | system-test/maxtest/src/testconnections.cc:512-545 | the configuration is the fold of the accepted lines |
| MaxTest.FirstValueWins | system-test/maxtest/src/testconnections.cc:524-541 | a key keeps the value of its first line |
| MaxTest.ConfigKeysFromLines | system-test/maxtest/src/testconnections.cc:524-541 | every key comes from an accepted line |
| MaxTest.ReplaceFirstShrinks | system-test/maxtest/src/testconnections.cc:690-704 | one replacement lowers the count of a character the placeholder has and the replacement lacks |
| MaxTest.ReplaceText | system-test/maxtest/src/testconnections.cc:690-704 | after the loop the placeholder no longer occurs, and contents without it are unchanged |
| MaxTest.RequiredMdbciLabels | system-test/maxtest/src/testconnections.cc:630-637 | "MAXSCALE" plus the test labels that are recognised MDBCI labels |
| MaxTest.RequiredMachinesAreRunning | system-test/maxtest/src/testconnections.cc:2050-2075 | true exactly when the required labels are a subset of the configured ones |
| MaxTest.UnknownLabelsNeedOnlyMaxScale | system-test/maxtest/src/testconnections.cc:2050-2075 | a test with no recognised labels needs only MaxScale |
| MaxTest.RunTestResult | system-test/maxtest/src/testconnections.cc:2116-2142 | init_rc if non-zero, else cleanup_rc if non-zero, else the error count |
| MaxTest.NMaxscales | system-test/maxtest/src/testconnections.cc:2105-2114 | 0 without the first MaxScale, 2 with both, 1 otherwise |
| MaxTest.MyMaxscale | system-test/maxtest/src/testconnections.cc:2203-2215 | null for any index other than 0 or 1 |
| MaxTest.CountedMaxscalesExist | system-test/maxtest/src/testconnections.cc:2105-2114 | every index below the count has a MaxScale |
| Common.NatToString | maxutils/maxpgsql/src/pg_connector.cc:107 | `std::to_string` of a count or port: decimal digits only, with no leading zero, whose value is the number |
| PgConnector.SslMode | maxutils/maxpgsql/src/pg_connector.cc:121-136 | verify_host gives verify-full, else verify_peer gives verify-ca, else require |
| PgConnector.VersionName | maxutils/maxpgsql/src/pg_connector.cc:142-167 | only TLS 1.0 to 1.3 have a version name |
| PgConnector.SslModeChosen | maxutils/maxpgsql/src/pg_connector.cc:118-140 | with SSL enabled the sslmode parameter is the chosen mode; without it no ssl parameter is added |
| PgConnector.TlsVersionPinned | maxutils/maxpgsql/src/pg_connector.cc:142-174 | a named TLS version sets both the minimum and the maximum; the others add no version parameter |
| PgConnector.ParamsFit | maxutils/maxpgsql/src/pg_connector.cc:94-179 | the parameters never exceed 127 real entries |
| PgConnector.ErrorFor | maxutils/maxpgsql/src/pg_connector.cc:244-294 | a fatal error takes the connection's message; otherwise the result's message, or the wrong-type text |
| PgConnector.CmdOutcome | maxutils/maxpgsql/src/pg_connector.cc:244-294 | success exactly on COMMAND_OK, which clears the error; TUPLES_OK is an error naming columns and rows |
| PgConnector.QueryOutcome | maxutils/maxpgsql/src/pg_connector.cc:296-335 | a result exactly on TUPLES_OK; otherwise the error message |
| PgConnector.AdvanceVisitsEveryRow | maxutils/maxpgsql/src/pg_connector.cc:374-383 | n advances from -1 visit min(n, row count) rows and stop at the last |
| PgConnector.PgQueryResult.AdvanceRow | maxutils/maxpgsql/src/pg_connector.cc:374-383 | the index moves on only while below row_count - 1 |
| PgConnector.PgSQL.Close | maxutils/maxpgsql/src/pg_connector.cc:55-62 | afterwards there is no connection, and an open one was finished |
| PgConnector.PgSQL.MoveFrom | maxutils/maxpgsql/src/pg_connector.cc:83-87 | the target closes its own connection and takes the source's; the source is left without one |
| PgConnector.PgSQL.MoveAssign | maxutils/maxpgsql/src/pg_connector.cc:74-81 | self-assignment changes nothing; otherwise this session's own connection is finished, then it takes the other's and the other is left with none |
| PgConnector.PgSQL.AddParam | maxutils/maxpgsql/src/pg_connector.cc:100-104 | one keyword/value pair is stored at the counter, which moves on by one; nothing else changes |
| PgConnector.PgSQL.AddParams | maxutils/maxpgsql/src/pg_connector.cc:106-179 | the pairs are written in order at the counter, which advances by their number |
| PgConnector.PgSQL.PassParams | maxutils/maxpgsql/src/pg_connector.cc:94-181 | libpq, reading the two arrays up to the null terminator, gets back exactly the parameter list that was written into them |
| PgConnector.PgSQL.Open | maxutils/maxpgsql/src/pg_connector.cc:89-190 | closes first, then connects with exactly the built parameters; true on a good connection |
| PgConnector.PgSQL.Error | maxutils/maxpgsql/src/pg_connector.cc:192-200 | the no-connection text without a connection, else the connection's message |
| PgConnector.PgSQL.Cmd | maxutils/maxpgsql/src/pg_connector.cc:244-294 | fails with the no-connection text, or classifies the result |
| PgConnector.PgSQL.Query | maxutils/maxpgsql/src/pg_connector.cc:296-335 | null with the no-connection text without a connection; a fresh cursor before the first row on TUPLES_OK |
| EditorsMem.EditorsMemStore.constructor | maxguiVue3/src/store/modules/editorsMem.js:17-24 | empty query text, max rows valid, empty maps and no engines |
| EditorsMem.CharsetFoldContents | maxguiVue3/src/store/modules/editorsMem.js:44-57 | each charset of the rows lists its collations in row order; its default is the last "Yes" row |
| EditorsMem.SchemaFoldLastWins | maxguiVue3/src/store/modules/editorsMem.js:73-80 | a repeated schema keeps the charset of its last row |
| EditorsMem.SchemaFoldKeys | maxguiVue3/src/store/modules/editorsMem.js:73-80 | the map holds exactly the schemas named by the rows |
| EditorsMem.EnginesAreSymmetricDifference | maxguiVue3/src/store/modules/editorsMem.js:91-98 | an engine is listed exactly when it is in one of the server rows and the unsupported list but not both; no engine twice |
| EditorsMem.EditorsMemStore.QueryCharsetCollationMap | maxguiVue3/src/store/modules/editorsMem.js:31-59 | a failed request changes nothing; otherwise the fold of the rows is committed |
| EditorsMem.EditorsMemStore.QueryDefDbCharsetMap | maxguiVue3/src/store/modules/editorsMem.js:60-82 | a failed request changes nothing; otherwise the fold of the rows is committed |
| EditorsMem.EditorsMemStore.QueryEngines | maxguiVue3/src/store/modules/editorsMem.js:83-99 | a failed request changes nothing; otherwise the symmetric difference is committed |
| EditorsMem.EditorsMemStore.QueryDdlEditorSuppData | maxguiVue3/src/store/modules/editorsMem.js:104-112 | nothing without both a connection id and a config; otherwise only the empty caches are fetched, engines, charsets, schemas in that order; a fetched cache then holds the symmetric difference, the charset fold or the schema fold of its rows, and a failed fetch leaves it as it was |
| QueryTabs.HasOneIsFirst | maxgui/queryEditor/src/store/orm/models/QueryTab.js:96-99 | a tab's child is the first record pointing at it, and there is none exactly when no record does |
| QueryTabs.WithoutWithout | maxgui/queryEditor/src/store/orm/models/QueryTab.js:39-47 | deleting tab ids one at a time deletes their union |
| QueryTabs.CascadeDeleteEffect | maxgui/queryEditor/src/store/orm/models/QueryTab.js:37-48 | no selected tab and no child of one remains; every other tab and child record is kept |
| QueryTabs.RefreshRecord | maxgui/queryEditor/src/store/orm/models/QueryTab.js:80-84 | a refresh resets the defaulted fields not kept and leaves the keys and other fields |
| QueryTabs.EditorRefreshKeepsFile | maxgui/queryEditor/src/store/orm/models/QueryTab.js:81-82 | the editor refresh keeps blob_file and query_txt |
| QueryTabs.HasOneAfterRefresh | maxgui/queryEditor/src/store/orm/models/QueryTab.js:64-82 | refreshing other tabs does not change which editor a tab has |
| QueryTabs.RefreshNames | maxgui/queryEditor/src/store/orm/models/QueryTab.js:70-78 | a tab whose editor's blob_file is null is named "Query Tab <count>"; otherwise it keeps its name |
| QueryTabs.NoEditorKeepsName | maxgui/queryEditor/src/store/orm/models/QueryTab.js:74-76 | a tab without an editor keeps its name |
| QueryTabs.DefaultNameSurvivesRefresh | maxgui/queryEditor/src/store/orm/models/QueryTab.js:53-55 | a new tab, "Query Tab 1" with count 1, keeps its name through a refresh |
| QueryTabs.RefreshTabs | maxgui/queryEditor/src/store/orm/models/QueryTab.js:70-78 | a refresh changes only the names of the selected tabs |
| QueryTabs.QueryTabStore.CascadeDelete | maxgui/queryEditor/src/store/orm/models/QueryTab.js:37-48 | the tables afterwards are the old ones without the selected tabs and their children |
| QueryTabs.QueryTabStore.CascadeRefresh | maxgui/queryEditor/src/store/orm/models/QueryTab.js:61-87 | each selected tab is renamed by its editor, and its four kinds of child records are refreshed |

## Left out

- Socket, DCB and TLS I/O (`read`, `read_strict`, `read_packet`, `writeq_append`, `ssl_handshake`, `unread`): a small `Dcb` class with given bytes and given outcomes stands in for them. Each write takes the next of a given list of outcomes, then a fixed one. A length field below 4 reads as a failed read, because `read_packet` is not part of this model.
- PgBackend.Connection.HandleRouting: the upstream `clientReply` is a fixed accept-or-refuse answer (`upstreamAccepts`). It never writes back into the connection (no re-entrant `write` and `track_query`) and never closes the DCB, so the branch for a DCB closed during delivery (pgbackendconnection.cc:543-546) cannot be reached here.
- PgBackend.Connection.SendBacklog: the branch for "the state left ROUTING mid-flush" is not modelled. Nothing in `write` changes the state, so that branch cannot be reached here.
- PgBackend: the transaction state of ReadyForQuery and the field count of RowDescription are not tracked; the reply keeps only rows, errors and completion.
- Debug assertions (`mxb_assert`) and log lines are not modelled.
- XRouter: `mxs::Backend` is not part of this model. It is a datatype in which a write to a closed backend fails and closing clears pending replies.
- XRouter.Session.IsMultiNode: the SQL parser is not part of this model. The operation it reports and whether the type mask holds TYPE_CREATE_TMP_TABLE are parameters.
- XRouter.Session.FenceBadNode: the monitor's list of reachable servers is a flag on each backend.
- Tee: spinlocks, the orphan-session list, `createInstance`/`newSession` and service lookup are left out because they are concurrency and allocation. POSIX regular expressions are given predicates.
- Tee.TeeSession.ClientReply: `modutil_count_signal_packets` is not part of this model; its count and "more results" answer are parameters.
- Tee.TeeSession.ResetSessionState: requires byte 5 to exist for COM_SET_OPTION. The source reads it without a length check, which goes beyond the buffer for a 5-byte packet.
- Tee.DetectLoops: the `ht == NULL` return of -1 is not modelled. The tee graph is a map from service to filters.
- Tee: the misread status flags only reach a log line and a local in `clientReply`. The model records the discrepancy but no effect on forwarding.
- NoSqlUsers: sqlite, uuid generation, base64 decoding of the salt and `scram::from_json` are not part of this model. JSON loading and mechanism parsing are parameters.
- MaxTest: threads, ssh/MDBCI commands, getopt, signal handlers, file reading and the floating-point timing code are left out as test-harness I/O. `mxb::trim` is taken to strip the C `isspace` characters.
- MaxTest.ReplaceText: requires some character of the placeholder to be absent from the replacement. That is the termination argument; with a replacement that keeps every character of the placeholder, the source loop could run forever.
- PgConnector: libpq is replaced by a connect function and an exec function given as parameters. Result statuses are an enum.
- EditorsMem: the HTTP request is a `Response` value, either failed or its rows. `UNSUPPORTED_TBL_CREATION_ENGINES` is defined in a file that is not part of this model, so it is a constant given to the constructor.
- EditorsMem.EditorsMemStore.QueryEngines: despite the constant's name, `xorWith` without a comparator is a symmetric difference, and the model follows the code. An unsupported engine that the server lacks is therefore listed.
- QueryTabs: the Vuex-ORM query layer (`filterEntity`, `Extender.refresh`, `update`) is not part of this model. A payload is an id or a filter over tabs. A refresh resets each field that has a default and is not kept.
- QueryTabs.QueryTabStore.CascadeRefresh: the `if (target)` skip is not reachable in the model. The tab table is keyed by id and a refresh never removes a tab, so every selected tab can be fetched again.

## Findings

| source | as written | input that shows it | evidently intended | confidence | as-written member | corrected member |
|---|---|---|---|---|---|---|
| server/modules/routing/xrouter/xroutersession.cc:363-395 | `routeQuery` is given the queue's front element itself. When it queues the packet again (IDLE, multi-node) the packet goes to the back, and `pop_front` then drops the moved-from front. | the queue [DDL, SELECT] in IDLE with both nodes in use | the DDL stays first and is routed to main under the lock before the SELECT | medium, not executed | XRouter.Session.RouteQueuedAsWritten | XRouter.Session.RouteQueued |
| server/modules/protocol/Postgres/pgbackendconnection.cc:564-616 | the loop reads a message's type and length and advances by `len + 1` without checking that the message has fully arrived | the 6 bytes 44 00 00 00 0a 00 (a DataRow announcing 10 bytes, one body byte present) count a row and move the offset 5 bytes past the buffer, so the split goes past the end | walk only messages wholly in the buffer and push the rest back for the next read | medium, not executed | PgBackend.PartialRowCountedAsWritten | PgBackend.Connection.ProcessPackets |
| server/modules/protocol/Postgres/pgbackendconnection.cc:564-616 | `len` is a 32-bit unsigned value, so `len + 1` wraps to 0 for a length field of 0xffffffff | the 5 bytes 44 ff ff ff ff: the offset stays at 0 and the reply never completes, so the loop does not end | reject or stop at a length that cannot fit in the buffer | medium, not executed | PgBackend.MaxLengthStallsAsWritten | PgBackend.WalkStopsOnlyAtBoundary |
| server/modules/filter/tee/tee.c:906-927 | the OK branch starts its two length-encoded skips at the 0x00 header byte, so it reads the last-insert-id; the EOF branch skips 2 instead of 3 bytes | the OK packet 07 00 00 01 00 00 00 08 00 00 00 (status 0x0008) reads 0x0800 | read the two status bytes after affected rows and last-insert-id, or after the EOF warnings | high, not executed | Tee.OkFlagsMisreadAsWritten | Tee.OkPacketFlags |
| server/modules/filter/tee/tee.c:1347-1350 | the COM_SET_OPTION option byte is stored as the multi-statement flag, so a non-zero option means "on" | COM_SET_OPTION with option 0 (multi-statements on) is recorded as off | option 0 turns multi-statements on and option 1 turns them off | high, not executed | Tee.SetOptionInvertedAsWritten | Tee.MultiStatements |
| server/modules/filter/tee/tee.c:1168-1212 | one visited set is shared across all branches of the search, so a service reached by two different tee paths counts as a loop | A tees to B and C, and both tee to D | report a loop only when a service recurs on the current path | medium, not executed | Tee.DiamondReportedAsWritten | Tee.LoopFromSound |
