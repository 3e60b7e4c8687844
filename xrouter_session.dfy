/**
 * A session of the xrouter router. Plain queries go to one "solo" node; DDL, GRANT and
 * REVOKE are run on the "main" node under a lock and then replayed on every other node.
 * Packets that arrive while the session waits for a reply are queued in arrival order.
 */
module XRouter {
  import opened Common

  /** A packet or a reply as it travels through the proxy. */
  type Buffer = seq<Byte>

  datatype State = Init | Idle | Solo | WaitSolo | LoadData | LockMain | UnlockMain | Main | WaitMain | WaitSecondary

  function StateToStr(s: State): (r: string)
    ensures |r| >= 4
  {
    match s
    case Init => "INIT"
    case Idle => "IDLE"
    case Solo => "SOLO"
    case WaitSolo => "WAIT_SOLO"
    case LoadData => "LOAD_DATA"
    case LockMain => "LOCK_MAIN"
    case UnlockMain => "UNLOCK_MAIN"
    case Main => "MAIN"
    case WaitMain => "WAIT_MAIN"
    case WaitSecondary => "WAIT_SECONDARY"
  }

  /** Every state has a name of its own. */
  lemma StateToStrInjective(a: State, b: State)
    requires StateToStr(a) == StateToStr(b)
    ensures a == b
  {
  }

  /** A state from which route_queued goes on routing queued packets. */
  predicate Routable(s: State)
  {
    s == Idle || s == Solo || s == LoadData || s == Main
  }

  /**
   * States in which routeQuery only queues an incoming packet: exactly those in which it
   * cannot route one.
   */
  predicate Queues(s: State): (r: bool)
    ensures r <==> !Routable(s)
  {
    s == Init || s == LockMain || s == UnlockMain || s == WaitSolo || s == WaitMain || s == WaitSecondary
  }

  /**
   * States after which route_queued stops routing queued packets: every state that
   * queues, except INIT, which route_queued never reaches.
   */
  predicate StopsQueue(s: State): (r: bool)
    ensures r <==> Queues(s) && s != Init
  {
    s == LockMain || s == UnlockMain || s == WaitSolo || s == WaitMain || s == WaitSecondary
  }

  /** The statement kinds the query classifier reports that matter here. */
  datatype Operation = Create | CreateTable | Drop | DropTable | Alter | AlterTable | Grant | Revoke | OtherOperation

  /** How a backend treats the reply to a write. */
  datatype ResponseType = NoResponse | ExpectResponse | IgnoreResponse

  /**
   * One backend as the session sees it: whether it is in use and can connect, whether its
   * server is in maintenance, whether the monitor lists its server among the reachable
   * ones, whether writes to it succeed, what was written to it and which replies are still
   * outstanding, oldest first.
   */
  datatype Backend = Backend(inUse: bool, canConnect: bool, inMaint: bool, reachable: bool, writeOk: bool,
                             written: seq<Buffer>, responses: seq<ResponseType>)

  predicate CanWrite(b: Backend) { b.inUse && b.writeOk }

  /** A backend after write(p, t): the packet is recorded and a reply awaited unless `t` is NoResponse. */
  function Written(b: Backend, p: Buffer, t: ResponseType): (r: Backend)
    ensures CanWrite(b) ==> r.written == b.written + [p]
    ensures CanWrite(b) && t != NoResponse ==> r.responses == b.responses + [t]
    ensures !CanWrite(b) || t == NoResponse ==> r.responses == b.responses
    ensures !CanWrite(b) ==> r == b
    ensures r.inUse == b.inUse && r.canConnect == b.canConnect && r.writeOk == b.writeOk
  {
    if !CanWrite(b) then b
    else b.(written := b.written + [p], responses := if t == NoResponse then b.responses else b.responses + [t])
  }

  predicate IsIdle(b: Backend) { b.responses == [] }

  predicate IsExpectedResponse(b: Backend) { |b.responses| > 0 && b.responses[0] == ExpectResponse }

  /** ack_write: the oldest outstanding reply has arrived. */
  function Acked(b: Backend): (r: Backend)
    ensures |b.responses| > 0 ==> r.responses == b.responses[1..]
    ensures r.inUse == b.inUse && r.written == b.written
  {
    if |b.responses| > 0 then b.(responses := b.responses[1..]) else b
  }

  function Closed(b: Backend): (r: Backend)
    ensures !r.inUse && IsIdle(r) && r.written == b.written
  {
    b.(inUse := false, responses := [])
  }

  /**
   * fence_bad_node on one backend: the server goes into maintenance when the monitor
   * still lists it as reachable (one already in maintenance stays so); the backend is
   * closed either way.
   */
  function Fenced(b: Backend): (r: Backend)
    ensures !r.inUse && IsIdle(r) && r.written == b.written
    ensures r.inMaint <==> b.inMaint || b.reachable
    ensures !b.inMaint && !b.reachable ==> r == Closed(b)
  {
    if !b.inMaint && b.reachable then Closed(b).(inMaint := true) else Closed(b)
  }

  /** check_node_status on one backend: an in-use backend that cannot connect is closed. */
  function Checked(b: Backend): (r: Backend)
    ensures r.inUse <==> b.inUse && b.canConnect
  {
    if b.inUse && !b.canConnect then Closed(b) else b
  }

  function CheckNodes(bs: seq<Backend>): (r: seq<Backend>)
    ensures |r| == |bs|
  {
    seq(|bs|, i requires 0 <= i < |bs| => Checked(bs[i]))
  }

  predicate AllIdle(bs: seq<Backend>)
  {
    forall i :: 0 <= i < |bs| ==> IsIdle(bs[i])
  }

  /** The backend after the packets of a multi-node command are replayed on it, in order. */
  function Replayed(b: Backend, ps: seq<Buffer>, willRespond: Buffer -> bool): (r: Backend)
    ensures CanWrite(b) ==> r.written == b.written + ps
    ensures !CanWrite(b) ==> r == b
    ensures r.inUse == b.inUse && r.writeOk == b.writeOk
  {
    if ps == [] then b
    else
      var b' := Replayed(b, ps[..|ps| - 1], willRespond);
      var p := ps[|ps| - 1];
      assert ps == ps[..|ps| - 1] + [p];
      Written(b', p, if willRespond(p) then IgnoreResponse else NoResponse)
  }

  class Session {
    var state: State
    var backends: seq<Backend>
    /** Packets that arrived while the session was busy, oldest first. */
    var queue: seq<Buffer>
    /**
     * The packets routeQuery has taken on rather than queued, oldest first: written to a
     * backend, or dropped because a node was lost. A record kept for the contracts only.
     */
    ghost var dispatched: seq<Buffer>
    /** The packets of the multi-node command, kept to be replayed on the secondaries. */
    var packets: seq<Buffer>
    /** The main node's reply to the multi-node command, collected while it arrives. */
    var response: Buffer
    /** Replies passed on to the client. */
    var toClient: seq<Buffer>
    var upstreamAccepts: bool
    var killed: bool
    /** Index of the node plain queries go to; the main node is index 0. */
    const solo: nat
    const lockSql: string
    const unlockSql: string
    /** The protocol's and classifier's view of a packet, decided outside this model. */
    const operation: Buffer -> Operation
    const createsTmpTable: Buffer -> bool
    const willRespond: Buffer -> bool
    const makeQuery: string -> Buffer

    ghost predicate Valid()
      reads this
    {
      0 < |backends| && solo < |backends|
    }

    predicate BothInUse(bs: seq<Backend>)
      requires 0 < |bs| && solo < |bs|
    {
      bs[0].inUse && bs[solo].inUse
    }

    /**
     * is_multi_node: CREATE, DROP and ALTER (of a table or anything else), GRANT and
     * REVOKE, unless the statement creates a temporary table.
     */
    predicate IsMultiNode(p: Buffer): (r: bool)
      ensures r <==> !createsTmpTable(p) && operation(p) != OtherOperation
    {
      !createsTmpTable(p) &&
      match operation(p)
      case Create | CreateTable | Drop | DropTable | Alter | AlterTable | Grant | Revoke => true
      case OtherOperation => false
    }

    function SoloType(p: Buffer): ResponseType
    {
      if willRespond(p) then ExpectResponse else NoResponse
    }

    function MainType(p: Buffer): ResponseType
    {
      if willRespond(p) then IgnoreResponse else NoResponse
    }

    /** The session starts in INIT with the set-up query sent to every backend. */
    constructor (bs: seq<Backend>, solo: nat, mainSql: string, secondarySql: string,
                 lockSql: string, unlockSql: string, operation: Buffer -> Operation,
                 createsTmpTable: Buffer -> bool, willRespond: Buffer -> bool,
                 makeQuery: string -> Buffer, upstreamAccepts: bool)
      requires 0 < |bs| && solo < |bs|
      requires forall i :: 0 <= i < |bs| ==> bs[i].inUse
      ensures Valid() && state == Init && queue == [] && packets == [] && response == [] && toClient == []
      ensures dispatched == []
      ensures |backends| == |bs|
      ensures backends[0] == Written(bs[0], makeQuery(mainSql), IgnoreResponse)
      ensures forall i :: 0 < i < |bs| ==> backends[i] == Written(bs[i], makeQuery(secondarySql), IgnoreResponse)
      ensures !killed && this.upstreamAccepts == upstreamAccepts && this.solo == solo
    {
      this.solo := solo;
      this.lockSql := lockSql;
      this.unlockSql := unlockSql;
      this.operation := operation;
      this.createsTmpTable := createsTmpTable;
      this.willRespond := willRespond;
      this.makeQuery := makeQuery;
      this.upstreamAccepts := upstreamAccepts;
      state := Init;
      queue := [];
      dispatched := [];
      packets := [];
      response := [];
      toClient := [];
      killed := false;
      backends := bs;
      new;
      var i := 0;
      while i < |bs|
        invariant 0 <= i <= |bs| && |backends| == |bs| && Valid()
        invariant state == Init && queue == [] && packets == [] && response == [] && toClient == [] && dispatched == []
        invariant !killed && this.upstreamAccepts == upstreamAccepts
        invariant forall k :: i <= k < |bs| ==> backends[k] == bs[k]
        invariant 0 < i ==> backends[0] == Written(bs[0], makeQuery(mainSql), IgnoreResponse)
        invariant forall k :: 0 < k < i ==> backends[k] == Written(bs[k], makeQuery(secondarySql), IgnoreResponse)
      {
        var _ := SendQuery(i, if i == 0 then mainSql else secondarySql);
        i := i + 1;
      }
    }

    /** route_to_one: write to one backend; a backend that is not in use refuses the write. */
    method RouteToOne(i: nat, p: Buffer, t: ResponseType) returns (ok: bool)
      requires i < |backends|
      modifies this`backends
      ensures ok == CanWrite(old(backends)[i])
      ensures backends == old(backends)[i := Written(old(backends)[i], p, t)]
    {
      ok := CanWrite(backends[i]);
      backends := backends[i := Written(backends[i], p, t)];
    }

    /** send_query: a generated SQL statement whose reply is not passed to the client. */
    method SendQuery(i: nat, sql: string) returns (ok: bool)
      requires i < |backends|
      modifies this`backends
      ensures ok == CanWrite(old(backends)[i])
      ensures backends == old(backends)[i := Written(old(backends)[i], makeQuery(sql), IgnoreResponse)]
    {
      ok := RouteToOne(i, makeQuery(sql), IgnoreResponse);
    }

    /** route_solo: a packet that will be answered makes the session wait for the solo node. */
    method RouteSolo(p: Buffer) returns (ok: bool)
      requires Valid()
      modifies this`backends, this`state
      ensures Valid()
      ensures state == if willRespond(p) then WaitSolo else old(state)
      ensures ok == CanWrite(old(backends)[solo])
      ensures backends == old(backends)[solo := Written(old(backends)[solo], p, SoloType(p))]
    {
      if willRespond(p) {
        state := WaitSolo;
      }
      ok := RouteToOne(solo, p, SoloType(p));
    }

    /** route_main: send to main and keep a copy for the secondaries. */
    method RouteMain(p: Buffer) returns (ok: bool)
      requires Valid()
      modifies this`backends, this`state, this`packets
      ensures Valid()
      ensures state == if willRespond(p) then WaitMain else old(state)
      ensures packets == old(packets) + [p]
      ensures ok == CanWrite(old(backends)[0])
      ensures backends == old(backends)[0 := Written(old(backends)[0], p, MainType(p))]
    {
      if willRespond(p) {
        state := WaitMain;
      }
      packets := packets + [p];
      ok := RouteToOne(0, p, MainType(p));
    }

    /** route_secondary: replay the command's packets, in order, on every in-use backend but main. */
    method RouteSecondary() returns (ok: bool)
      requires Valid()
      modifies this`backends
      ensures Valid() && |backends| == |old(backends)| && backends[0] == old(backends)[0]
      ensures forall i :: 0 < i < |backends| ==>
                backends[i] == if old(backends)[i].inUse then Replayed(old(backends)[i], packets, willRespond)
                               else old(backends)[i]
      ensures ok <==> packets == [] ||
                      forall i :: 0 < i < |backends| && old(backends)[i].inUse ==> old(backends)[i].writeOk
    {
      ok := true;
      var i := 0;
      while i < |backends|
        invariant 0 <= i <= |backends| == |old(backends)| && Valid()
        invariant backends[0] == old(backends)[0]
        invariant forall k :: i <= k < |backends| ==> backends[k] == old(backends)[k]
        invariant forall k :: 0 < k < i ==>
                    backends[k] == if old(backends)[k].inUse then Replayed(old(backends)[k], packets, willRespond)
                                   else old(backends)[k]
        invariant ok <==> packets == [] ||
                          forall k :: 0 < k < i && old(backends)[k].inUse ==> old(backends)[k].writeOk
      {
        if backends[i].inUse && i != 0 {
          var j := 0;
          ghost var start := backends;
          while j < |packets|
            invariant 0 <= j <= |packets| && |backends| == |old(backends)|
            invariant forall k :: 0 <= k < |backends| && k != i ==> backends[k] == start[k]
            invariant backends[i] == Replayed(old(backends)[i], packets[..j], willRespond)
            invariant ok <==> (packets == [] ||
                               forall k :: 0 < k < i && old(backends)[k].inUse ==> old(backends)[k].writeOk) &&
                              (j == 0 || old(backends)[i].writeOk)
          {
            assert packets[..j + 1][..j] == packets[..j];
            var written := RouteToOne(i, packets[j], MainType(packets[j]));
            if !written {
              ok := false;
            }
            j := j + 1;
          }
          assert packets[..|packets|] == packets;
        }
        i := i + 1;
      }
    }

    /** check_node_status: close backends that can no longer connect; main and solo must remain. */
    method CheckNodeStatus() returns (ok: bool)
      requires Valid()
      modifies this`backends
      ensures Valid() && backends == CheckNodes(old(backends))
      ensures ok == BothInUse(backends)
    {
      var i := 0;
      while i < |backends|
        invariant 0 <= i <= |backends| == |old(backends)|
        invariant forall k :: 0 <= k < i ==> backends[k] == Checked(old(backends)[k])
        invariant forall k :: i <= k < |backends| ==> backends[k] == old(backends)[k]
      {
        if backends[i].inUse && !backends[i].canConnect {
          backends := backends[i := Closed(backends[i])];
        }
        i := i + 1;
      }
      ok := backends[0].inUse && backends[solo].inUse;
    }

    /**
     * routeQuery: the session closes once main or solo is gone; otherwise the packet is
     * routed or queued as the state demands.
     */
    method RouteQuery(p: Buffer) returns (ok: bool)
      requires Valid()
      modifies this`backends, this`state, this`queue, this`dispatched, this`packets
      ensures Valid() && |backends| == |old(backends)|
      // A packet is either queued or taken on, never both.
      ensures queue == old(queue) + [p] ==> dispatched == old(dispatched)
      ensures queue == old(queue) ==> dispatched == old(dispatched) + [p]
      ensures !BothInUse(old(backends)) ==>
                !ok && state == old(state) && queue == old(queue) && backends == old(backends) && packets == old(packets)
      ensures BothInUse(old(backends)) && Queues(old(state)) ==>
                ok && state == old(state) && queue == old(queue) + [p] && backends == old(backends) && packets == old(packets)
      ensures BothInUse(old(backends)) && old(state) == Solo ==>
                state == (if willRespond(p) then WaitSolo else Solo) && ok == CanWrite(old(backends)[solo]) &&
                backends == old(backends)[solo := Written(old(backends)[solo], p, SoloType(p))] &&
                queue == old(queue) && packets == old(packets)
      ensures BothInUse(old(backends)) && old(state) == LoadData ==>
                state == LoadData && ok == CanWrite(old(backends)[solo]) &&
                backends == old(backends)[solo := Written(old(backends)[solo], p, NoResponse)] &&
                queue == old(queue) && packets == old(packets)
      ensures BothInUse(old(backends)) && old(state) == Main ==>
                state == (if willRespond(p) then WaitMain else Main) && ok == CanWrite(old(backends)[0]) &&
                backends == old(backends)[0 := Written(old(backends)[0], p, MainType(p))] &&
                queue == old(queue) && packets == old(packets) + [p]
      ensures BothInUse(old(backends)) && old(state) == Idle && !BothInUse(CheckNodes(old(backends))) ==>
                !ok && state == Idle && backends == CheckNodes(old(backends)) &&
                queue == old(queue) && packets == old(packets)
      ensures BothInUse(old(backends)) && old(state) == Idle && BothInUse(CheckNodes(old(backends))) && IsMultiNode(p) ==>
                var checked := CheckNodes(old(backends));
                state == LockMain && ok == CanWrite(checked[0]) &&
                backends == checked[0 := Written(checked[0], makeQuery(lockSql), IgnoreResponse)] &&
                queue == old(queue) + [p] && packets == old(packets)
      ensures BothInUse(old(backends)) && old(state) == Idle && BothInUse(CheckNodes(old(backends))) && !IsMultiNode(p) ==>
                var checked := CheckNodes(old(backends));
                state == (if willRespond(p) then WaitSolo else Solo) && ok == CanWrite(checked[solo]) &&
                backends == checked[solo := Written(checked[solo], p, SoloType(p))] &&
                queue == old(queue) && packets == old(packets)
    {
      if !backends[0].inUse || !backends[solo].inUse {
        dispatched := dispatched + [p];
        return false;
      }
      ok := true;
      match state
      case Idle =>
        var nodesOk := CheckNodeStatus();
        if !nodesOk {
          ok := false;
          dispatched := dispatched + [p];
        } else if IsMultiNode(p) {
          state := LockMain;
          ok := SendQuery(0, lockSql);
          queue := queue + [p];
        } else {
          state := Solo;
          ok := RouteSolo(p);
          dispatched := dispatched + [p];
        }
      case Solo =>
        ok := RouteSolo(p);
        dispatched := dispatched + [p];
      case LoadData =>
        ok := RouteToOne(solo, p, NoResponse);
        dispatched := dispatched + [p];
      case Main =>
        ok := RouteMain(p);
        dispatched := dispatched + [p];
      case LockMain =>
        queue := queue + [p];
      case UnlockMain =>
        queue := queue + [p];
      case Init =>
        queue := queue + [p];
      case WaitSolo =>
        queue := queue + [p];
      case WaitMain =>
        queue := queue + [p];
      case WaitSecondary =>
        queue := queue + [p];
    }

    /**
     * One round of route_queued: route the oldest queued packet. When routeQuery queues
     * it again (the lock on main was requested), it stays first in line.
     */
    method RouteNext() returns (ok: bool, requeued: bool)
      requires Valid() && |queue| > 0 && Routable(state)
      modifies this`backends, this`state, this`queue, this`dispatched, this`packets
      ensures Valid()
      ensures requeued ==> queue == old(queue) && state == LockMain && old(state) == Idle
      ensures !requeued ==> queue == old(queue)[1..]
      ensures dispatched == old(dispatched) + (if requeued then [] else [old(queue)[0]])
      // What routeQuery does with the packet, state by state.
      ensures !BothInUse(old(backends)) ==> !ok && !requeued && backends == old(backends) && state == old(state)
      ensures BothInUse(old(backends)) && old(state) == Solo ==>
                ok == CanWrite(old(backends)[solo]) &&
                backends == old(backends)[solo := Written(old(backends)[solo], old(queue)[0], SoloType(old(queue)[0]))]
      ensures BothInUse(old(backends)) && old(state) == LoadData ==>
                ok == CanWrite(old(backends)[solo]) &&
                backends == old(backends)[solo := Written(old(backends)[solo], old(queue)[0], NoResponse)]
      ensures BothInUse(old(backends)) && old(state) == Main ==>
                ok == CanWrite(old(backends)[0]) && packets == old(packets) + [old(queue)[0]] &&
                backends == old(backends)[0 := Written(old(backends)[0], old(queue)[0], MainType(old(queue)[0]))]
      ensures BothInUse(old(backends)) && old(state) == Idle && !BothInUse(CheckNodes(old(backends))) ==>
                !ok && !requeued && state == Idle && backends == CheckNodes(old(backends))
      ensures BothInUse(old(backends)) && old(state) == Idle && BothInUse(CheckNodes(old(backends))) ==>
                var checked := CheckNodes(old(backends));
                if IsMultiNode(old(queue)[0]) then
                  ok == CanWrite(checked[0]) && backends == checked[0 := Written(checked[0], makeQuery(lockSql), IgnoreResponse)]
                else
                  ok == CanWrite(checked[solo]) &&
                  backends == checked[solo := Written(checked[solo], old(queue)[0], SoloType(old(queue)[0]))]
      ensures old(state) == Idle ==> state == Idle || state == LockMain || state == Solo || state == WaitSolo
      ensures old(state) == Solo ==> state == Solo || state == WaitSolo
      ensures old(state) == LoadData ==> state == LoadData
      ensures old(state) == Main ==> state == Main || state == WaitMain
      ensures old(state) == Idle && BothInUse(old(backends)) && BothInUse(CheckNodes(old(backends))) &&
              IsMultiNode(old(queue)[0])
              ==> requeued
    {
      var p := queue[0];
      var rest := queue[1..];
      queue := rest;
      ok := RouteQuery(p);
      requeued := queue != rest;
      if requeued {
        queue := [p] + rest;
      }
    }

    /**
     * route_queued: route queued packets oldest first until the queue is empty, a routing
     * fails (which kills the session) or the session has to wait for a reply. The queue
     * afterwards is always a suffix of the queue before, so queued packets keep their
     * arrival order.
     */
    method RouteQueued() returns (ok: bool)
      requires Valid() && (state == Idle || state == LoadData || state == Main)
      modifies this`backends, this`state, this`queue, this`dispatched, this`packets, this`killed
      ensures Valid()
      // Every packet that left the queue was taken on by routeQuery, in queue order.
      ensures exists k :: 0 <= k <= |old(queue)| && queue == old(queue)[k..] && dispatched == old(dispatched) + old(queue)[..k]
      // Hence no packet is lost or overtaken: taken-on packets followed by the queue are unchanged.
      ensures dispatched + queue == old(dispatched) + old(queue)
      ensures killed == (old(killed) || !ok)
      ensures state != Init
      ensures old(queue) == [] ==> ok && state == old(state) && backends == old(backends)
      ensures ok && queue != [] ==> StopsQueue(state)
      ensures old(state) == LoadData ==> state == LoadData
      ensures old(state) == Main ==> state == Main || state == WaitMain
      // A multi-node packet first in line sends lock_sql to main and waits for the lock.
      ensures old(state) == Idle && |old(queue)| > 0 && BothInUse(old(backends)) &&
              BothInUse(CheckNodes(old(backends))) && IsMultiNode(old(queue)[0]) ==>
                var checked := CheckNodes(old(backends));
                state == LockMain && queue == old(queue) && dispatched == old(dispatched) &&
                backends == checked[0 := Written(checked[0], makeQuery(lockSql), IgnoreResponse)]
    {
      ok := true;
      var again := true;
      ghost var k := 0;
      ghost var firstRound := true;
      while queue != [] && ok && again
        invariant Valid() && 0 <= k <= |old(queue)| && queue == old(queue)[k..] && killed == old(killed)
        invariant dispatched == old(dispatched) + old(queue)[..k]
        invariant state != Init
        invariant again <==> Routable(state)
        invariant !again ==> StopsQueue(state)
        invariant old(state) == LoadData ==> state == LoadData
        invariant old(state) == Main ==> state == Main || state == WaitMain
        invariant firstRound ==> k == 0 && state == old(state) && backends == old(backends) && ok
        invariant !firstRound ==> old(queue) != []
        invariant old(state) == Idle && |old(queue)| > 0 && BothInUse(old(backends)) &&
                  BothInUse(CheckNodes(old(backends))) && IsMultiNode(old(queue)[0]) && !firstRound ==>
                    var checked := CheckNodes(old(backends));
                    state == LockMain && k == 0 &&
                    backends == checked[0 := Written(checked[0], makeQuery(lockSql), IgnoreResponse)]
        decreases |queue|, if again then 1 else 0
      {
        var requeued;
        ok, requeued := RouteNext();
        if !requeued {
          assert old(queue)[..k + 1] == old(queue)[..k] + [old(queue)[k]];
          k := k + 1;
        }
        firstRound := false;
        again := Routable(state);
      }
      SplitRejoins(old(dispatched), old(queue), k);
      if !ok {
        killed := true;
      }
    }

    /**
     * route_queued exactly as the source has it: routeQuery receives the front element
     * itself, so when it queues the packet again the packet is appended at the back, and
     * the moved-from front is dropped afterwards. A multi-node packet routed from the
     * queue thereby moves behind every packet that arrived after it.
     */
    method RouteQueuedAsWritten() returns (ok: bool)
      requires Valid() && (state == Idle || state == LoadData || state == Main)
      modifies this`backends, this`state, this`queue, this`dispatched, this`packets, this`killed
      ensures Valid()
      ensures killed == (old(killed) || !ok)
      ensures old(state) == Idle && |old(queue)| > 0 && BothInUse(old(backends)) &&
              BothInUse(CheckNodes(old(backends))) && IsMultiNode(old(queue)[0]) ==>
                state == LockMain && queue == old(queue)[1..] + [old(queue)[0]]
    {
      ok := true;
      var again := true;
      ghost var firstRound := true;
      while queue != [] && ok && again
        invariant Valid() && killed == old(killed)
        invariant again ==> Routable(state)
        invariant firstRound ==> state == old(state) && backends == old(backends) && queue == old(queue) && again && ok
        invariant old(state) == Idle && |old(queue)| > 0 && BothInUse(old(backends)) &&
                  BothInUse(CheckNodes(old(backends))) && IsMultiNode(old(queue)[0]) && !firstRound ==>
                    state == LockMain && queue == old(queue)[1..] + [old(queue)[0]] && !again
        decreases |queue|, if again then 1 else 0
      {
        ghost var q := queue;
        ok := RouteQuery(queue[0]);
        assert queue == q || (queue == q + [q[0]] && state == LockMain);
        queue := queue[1..];
        firstRound := false;
        again := Routable(state);
      }
      if !ok {
        killed := true;
      }
    }

    /** Main after the unlock query: written to, or closed when the write fails. */
    function Unlocked(b: Backend): (r: Backend)
      ensures CanWrite(b) ==> r == Written(b, makeQuery(unlockSql), IgnoreResponse) && r.inUse
      ensures !CanWrite(b) ==> !r.inUse && r.written == b.written
    {
      var unlocked := Written(b, makeQuery(unlockSql), IgnoreResponse);
      if CanWrite(b) then unlocked else Closed(unlocked)
    }

    /** finish_multinode: hand back the main node's reply, forget the command and unlock main. */
    method FinishMultinode() returns (reply: Buffer)
      requires Valid()
      modifies this`response, this`packets, this`state, this`backends
      ensures Valid() && reply == old(response) && response == [] && packets == [] && state == UnlockMain
      ensures backends == old(backends)[0 := Unlocked(old(backends)[0])]
    {
      reply := response;
      response := [];
      packets := [];
      state := UnlockMain;
      var ok := SendQuery(0, unlockSql);
      if !ok {
        backends := backends[0 := Closed(backends[0])];
      }
    }

    /** fence_bad_node: put a reachable node's server in maintenance and close the backend. */
    method FenceBadNode(i: nat)
      requires Valid() && i < |backends|
      modifies this`backends
      ensures Valid() && backends == old(backends)[i := Fenced(old(backends)[i])]
    {
      var b := backends[i];
      if !b.inMaint && b.reachable {
        b := b.(inMaint := true);
      }
      backends := backends[i := Closed(b)];
    }

    /** handleError: a failed secondary is fenced; the session is closed in every case. */
    method HandleError(i: nat) returns (keep: bool)
      requires Valid() && i < |backends|
      modifies this`backends
      ensures !keep
      ensures i != 0 ==> backends == old(backends)[i := Fenced(old(backends)[i])]
      ensures i == 0 ==> backends == old(backends)
    {
      if i != 0 {
        FenceBadNode(i);
      }
      keep := false;
    }

    /**
     * clientReply: a reply (or part of one) from backend `from`. A complete reply moves the
     * state on; replies the client waits for are passed on; once IDLE, queued packets go.
     */
    method ClientReply(packet: Buffer, from: nat, complete: bool, error: bool, loadData: bool) returns (rv: bool)
      requires Valid() && from < |backends|
      modifies this`backends, this`state, this`queue, this`dispatched, this`packets, this`killed, this`response, this`toClient
      ensures Valid()
      ensures old(state) == Idle ==> !rv && killed && toClient == old(toClient)
      ensures old(state) == UnlockMain && complete && rv ==> StopsQueue(state) || queue == []
      ensures old(state) == UnlockMain && !complete ==> state == UnlockMain
      ensures old(state) == LockMain && complete && rv ==> state == Main || state == WaitMain || StopsQueue(state)
      ensures old(state) == LockMain && !complete ==> state == LockMain && queue == old(queue)
      ensures (old(state) == WaitMain || old(state) == Main) && complete && error ==>
                toClient == old(toClient) + [old(response) + packet] && packets == [] && response == []
      ensures (old(state) == WaitMain || old(state) == Main) && complete && error ==> state == UnlockMain
      ensures (old(state) == WaitMain || old(state) == Main) && complete && !error ==>
                state == WaitSecondary && response == old(response) + packet
      ensures (old(state) == WaitMain || old(state) == Main) && !complete ==>
                state == old(state) && response == old(response) + packet
      ensures (old(state) == Solo || old(state) == WaitSolo || old(state) == LoadData) && !complete && loadData ==>
                state == LoadData
      // SOLO, WAIT_SOLO and LOAD_DATA: an expected reply goes to the client; a complete one
      // returns to IDLE and then drains the queue.
      ensures (old(state) == Solo || old(state) == WaitSolo || old(state) == LoadData) && (complete || !loadData) ==>
                toClient == old(toClient) + (if IsExpectedResponse(old(backends)[from]) then [packet] else [])
      ensures (old(state) == Solo || old(state) == WaitSolo || old(state) == LoadData) && complete ==>
                state != Init && (rv && queue != [] ==> StopsQueue(state)) &&
                (old(queue) == [] && (IsExpectedResponse(old(backends)[from]) ==> upstreamAccepts) ==> state == Idle && rv)
      // LOCK_MAIN and UNLOCK_MAIN pass an expected reply on while the command runs.
      ensures (old(state) == UnlockMain || (old(state) == LockMain && !complete)) ==>
                toClient == old(toClient) + (if IsExpectedResponse(old(backends)[from]) then [packet] else [])
      ensures (old(state) == UnlockMain && complete && old(queue) == [] &&
               (IsExpectedResponse(old(backends)[from]) ==> upstreamAccepts)) ==>
                state == Idle && rv
      // INIT: routing starts once every backend has answered its initialization queries.
      ensures var acked := if complete then old(backends)[from := Acked(old(backends)[from])] else old(backends);
              old(state) == Init && !AllIdle(acked) ==> state == Init && backends == acked
      ensures var acked := if complete then old(backends)[from := Acked(old(backends)[from])] else old(backends);
              old(state) == Init && AllIdle(acked) ==> state != Init
      ensures var acked := if complete then old(backends)[from := Acked(old(backends)[from])] else old(backends);
              old(state) == Init && AllIdle(acked) && old(queue) == [] ==> state == Idle && backends == acked
      // WAIT_SECONDARY: a secondary that answers with an error is fenced; once every backend
      // is idle, main's reply goes to the client and main is unlocked.
      ensures var acked := if complete then old(backends)[from := Acked(old(backends)[from])] else old(backends);
              var fenced := if complete && error then acked[from := Fenced(acked[from])] else acked;
              old(state) == WaitSecondary && complete && AllIdle(fenced) ==>
                state == UnlockMain && packets == [] && response == [] &&
                toClient == old(toClient) + [old(response)] && rv == upstreamAccepts &&
                backends == fenced[0 := Unlocked(fenced[0])]
      ensures var acked := if complete then old(backends)[from := Acked(old(backends)[from])] else old(backends);
              var fenced := if complete && error then acked[from := Fenced(acked[from])] else acked;
              old(state) == WaitSecondary && !(complete && AllIdle(fenced)) ==>
                state == WaitSecondary && backends == fenced
    {
      var b := backends[from];
      var route := IsExpectedResponse(b);
      if complete {
        backends := backends[from := Acked(b)];
      }
      var reply;
      route, reply, rv := ReplyByState(route, packet, from, complete, error, loadData);
      rv := PassOn(route, reply, rv, complete);
    }

    /**
     * The switch of clientReply on the session state, after the acknowledgement: what
     * the state becomes, and the reply (with whether to pass it on) for the common tail.
     */
    method ReplyByState(route: bool, packet: Buffer, from: nat, complete: bool, error: bool, loadData: bool)
      returns (route': bool, reply: Buffer, rv: bool)
      requires Valid() && from < |backends|
      modifies this`backends, this`state, this`queue, this`dispatched, this`packets, this`killed, this`response
      ensures Valid()
      ensures old(state) == Idle ==>
                !rv && killed && state == Idle && queue == old(queue) && backends == old(backends) &&
                packets == old(packets) && response == old(response)
      ensures old(state) == Init ==>
                rv && route' == route && reply == packet && queue == old(queue) && backends == old(backends) &&
                state == (if AllIdle(old(backends)) then Idle else Init)
      ensures (old(state) == Solo || old(state) == WaitSolo || old(state) == LoadData) ==>
                route' == route && reply == packet && response == old(response)
      ensures (old(state) == Solo || old(state) == WaitSolo || old(state) == LoadData) && complete ==>
                rv && state == Idle && queue == old(queue) && backends == old(backends)
      ensures (old(state) == Solo || old(state) == WaitSolo || old(state) == LoadData) && !complete && loadData ==>
                state == LoadData
      ensures (old(state) == Solo || old(state) == WaitSolo || old(state) == LoadData) && !complete && !loadData ==>
                rv && state == old(state) && queue == old(queue) && backends == old(backends)
      ensures old(state) == LockMain ==> route' == route && reply == packet
      ensures old(state) == LockMain && complete ==>
                state != Init && (rv && queue != [] ==> StopsQueue(state)) && (state == Main || state == WaitMain)
      ensures old(state) == LockMain && !complete ==>
                rv && state == LockMain && queue == old(queue) && backends == old(backends)
      ensures old(state) == UnlockMain ==>
                rv && route' == route && reply == packet && queue == old(queue) && backends == old(backends) &&
                state == (if complete then Idle else UnlockMain)
      ensures (old(state) == WaitMain || old(state) == Main) && complete && error ==>
                route' && reply == old(response) + packet && rv && packets == [] && response == [] &&
                state == UnlockMain
      ensures (old(state) == WaitMain || old(state) == Main) && complete && !error ==>
                state == WaitSecondary && response == old(response) + packet && reply == []
      ensures (old(state) == WaitMain || old(state) == Main) && !complete ==>
                state == old(state) && response == old(response) + packet && reply == [] && rv
      ensures var fenced := if complete && error then old(backends)[from := Fenced(old(backends)[from])] else old(backends);
              old(state) == WaitSecondary && complete && AllIdle(fenced) ==>
                route' && rv && reply == old(response) && state == UnlockMain && packets == [] && response == [] &&
                backends == fenced[0 := Unlocked(fenced[0])]
      ensures var fenced := if complete && error then old(backends)[from := Fenced(old(backends)[from])] else old(backends);
              old(state) == WaitSecondary && !(complete && AllIdle(fenced)) ==>
                rv && state == WaitSecondary && backends == fenced && queue == old(queue)
    {
      route', reply, rv := route, packet, true;
      match state {
      case Init =>
        ReplyWhileInit();
      case Solo =>
        rv := ReplyToSoloCommand(complete, loadData);
      case LoadData =>
        rv := ReplyToSoloCommand(complete, loadData);
      case WaitSolo =>
        rv := ReplyToSoloCommand(complete, loadData);
      case LockMain =>
        if complete {
          state := Main;
          rv := RouteQueued();
        }
      case UnlockMain =>
        if complete {
          state := Idle;
        }
      case Main =>
        route', reply, rv := ReplyToMultiNodeCommand(route, packet, complete, error);
      case WaitMain =>
        route', reply, rv := ReplyToMultiNodeCommand(route, packet, complete, error);
      case WaitSecondary =>
        route', reply := ReplyToSecondary(route, packet, from, complete, error);
      case Idle =>
        killed := true;
        rv := false;
      }
    }

    /**
     * The end of clientReply: a reply the client expects is passed on, and once a command
     * has completed with the session back in IDLE the queued packets are routed.
     */
    method PassOn(route: bool, reply: Buffer, rv0: bool, complete: bool) returns (rv: bool)
      requires Valid()
      modifies this`backends, this`state, this`queue, this`dispatched, this`packets, this`killed, this`toClient
      ensures Valid()
      ensures toClient == if rv0 && route then old(toClient) + [reply] else old(toClient)
      ensures var forwarded := if rv0 && route then upstreamAccepts else rv0;
              !(forwarded && complete && old(state) == Idle) ==>
                rv == forwarded && state == old(state) && queue == old(queue) && dispatched == old(dispatched) &&
                backends == old(backends) && killed == old(killed) && packets == old(packets)
      ensures var forwarded := if rv0 && route then upstreamAccepts else rv0;
              forwarded && complete && old(state) == Idle ==>
                killed == (old(killed) || !rv) && state != Init &&
                (exists k :: 0 <= k <= |old(queue)| && queue == old(queue)[k..] &&
                               dispatched == old(dispatched) + old(queue)[..k]) &&
                (rv && queue != [] ==> StopsQueue(state)) &&
                (old(queue) == [] ==> rv && state == Idle && backends == old(backends))
    {
      rv := rv0;
      if rv && route {
        toClient := toClient + [reply];
        rv := upstreamAccepts;
      }
      if rv && complete && state == Idle {
        rv := RouteQueued();
      }
    }

    /** The INIT branch of clientReply: normal routing starts once every backend is idle. */
    method ReplyWhileInit()
      requires Valid()
      modifies this`state
      ensures Valid()
      ensures AllIdle(backends) ==> state == Idle
      ensures !AllIdle(backends) ==> state == old(state)
    {
      if AllIdle(backends) {
        state := Idle;
      }
    }

    /**
     * The WAIT_SECONDARY branch of clientReply: a secondary whose reply is an error is
     * fenced; once every backend is idle, main's collected reply is the one to route.
     */
    method ReplyToSecondary(route: bool, packet: Buffer, from: nat, complete: bool, error: bool)
      returns (route': bool, reply: Buffer)
      requires Valid() && from < |backends|
      modifies this`backends, this`state, this`packets, this`response
      ensures Valid()
      ensures var fenced := if complete && error then old(backends)[from := Fenced(old(backends)[from])] else old(backends);
              complete && AllIdle(fenced) ==>
                route' && reply == old(response) && state == UnlockMain && packets == [] && response == [] &&
                backends == fenced[0 := Unlocked(fenced[0])]
      ensures var fenced := if complete && error then old(backends)[from := Fenced(old(backends)[from])] else old(backends);
              !(complete && AllIdle(fenced)) ==>
                route' == route && reply == packet && state == old(state) && backends == fenced &&
                packets == old(packets) && response == old(response)
    {
      route', reply := route, packet;
      if complete {
        if error {
          FenceBadNode(from);
        }
        if AllIdle(backends) {
          route' := true;
          reply := FinishMultinode();
        }
      }
    }

    /** The SOLO, LOAD_DATA and WAIT_SOLO branch of clientReply. */
    method ReplyToSoloCommand(complete: bool, loadData: bool) returns (rv: bool)
      requires Valid()
      modifies this`backends, this`state, this`queue, this`dispatched, this`packets, this`killed
      ensures Valid()
      ensures complete ==> rv && state == Idle && queue == old(queue) && backends == old(backends)
      ensures !complete && loadData ==> state == LoadData
      ensures !complete && !loadData ==> rv && state == old(state) && queue == old(queue) && backends == old(backends)
    {
      rv := true;
      if complete {
        state := Idle;
      } else if loadData {
        state := LoadData;
        rv := RouteQueued();
      }
    }

    /** The MAIN and WAIT_MAIN branch of clientReply: collect main's reply; on completion, replay or give up. */
    method ReplyToMultiNodeCommand(route: bool, packet: Buffer, complete: bool, error: bool)
      returns (route': bool, reply: Buffer, rv: bool)
      requires Valid()
      modifies this`backends, this`state, this`packets, this`response
      ensures Valid()
      ensures complete && error ==> route' && reply == old(response) + packet && rv
      ensures complete && error ==> packets == [] && response == [] && state == UnlockMain
      ensures complete && !error ==> route' == route && reply == [] && state == WaitSecondary
      ensures complete && !error ==> response == old(response) + packet && packets == old(packets)
      ensures !complete ==> route' == route && reply == [] && rv && state == old(state)
      ensures !complete ==> response == old(response) + packet && packets == old(packets) && backends == old(backends)
    {
      response := response + packet;
      reply := [];
      route' := route;
      rv := true;
      if complete {
        if error {
          route' := true;
          reply := FinishMultinode();
        } else {
          state := WaitSecondary;
          rv := RouteSecondary();
        }
      }
    }
  }

  /** Moving the first k packets of a queue onto a record keeps the record followed by the queue. */
  lemma SplitRejoins(d: seq<Buffer>, q: seq<Buffer>, k: nat)
    requires k <= |q|
    ensures (d + q[..k]) + q[k..] == d + q
  {
    assert q[..k] + q[k..] == q;
  }

  /**
   * The reordering as written, for any queue: appending the moved front and then dropping
   * the front rotates the queue by one, which changes it unless all its packets are equal.
   */
  lemma {:induction false} QueueRotationReorders(q: seq<Buffer>)
    requires |q| > 0
    ensures (q + [q[0]])[1..] == q[1..] + [q[0]]
    ensures q[1..] + [q[0]] == q <==> forall i :: 0 <= i < |q| ==> q[i] == q[0]
  {
    var r := q[1..] + [q[0]];
    if forall i :: 0 <= i < |q| ==> q[i] == q[0] {
      assert forall i :: 0 <= i < |q| ==> r[i] == q[i];
    }
    if r == q {
      forall i | 0 <= i < |q|
        ensures q[i] == q[0]
      {
        RotationFixedPoint(q, i);
      }
    }
  }

  /** A queue equal to its rotation has the front packet at every position. */
  lemma {:induction false} RotationFixedPoint(q: seq<Buffer>, i: nat)
    requires |q| > 0 && i < |q| && q[1..] + [q[0]] == q
    ensures q[i] == q[0]
    decreases i
  {
    if i > 0 {
      RotationFixedPoint(q, i - 1);
      assert (q[1..] + [q[0]])[i - 1] == q[i];
    }
  }
}
