/**
 Queue pairs (qp_pre.h): `connect` and `bind_port` drive the device's record through the
 states of section 10.3.1 of the InfiniBand Architecture Specification, Volume 1.
 */
module QueuePair {
  import opened Words

  datatype QpType = RC | UC | UD | RawPacket

  datatype QpState = Reset | Init | Rtr | Rts

  const LADDER: seq<QpState> := [Reset, Init, Rtr, Rts]

  /** `universal_init_psn`. */
  const INIT_PSN: nat := 3000

  const UD_QKEY: nat := 0x1111_1111

  datatype Address = Address(gid: nat, lid: nat, qpn: nat)

  /** `rdma_qp::info`. */
  datatype Info = Info(addr: Address, psn: nat)

  /** The device's record; an attribute is `None` until a modify call sets it. */
  datatype Qp = Qp(
    kind: QpType,
    qpn: nat,
    state: QpState,
    port: Option<nat>,
    qkey: Option<nat>,
    dest: Option<Address>,
    rqPsn: Option<nat>,
    sqPsn: Option<nat>)

  function Fresh(kind: QpType, qpn: nat): Qp {
    Qp(kind, qpn, Reset, None, None, None, None, None)
  }

  /** `get_info`: where this queue pair is reached and the PSN it will send first. */
  function InfoOf(gid: nat, lid: nat, q: Qp): Info {
    Info(Address(gid, lid, q.qpn), INIT_PSN)
  }

  // ---------- the three modify calls; None is a failed assertion ----------

  function ToInit(q: Qp, port: nat, qkey: nat): Option<Qp> {
    if q.state != Reset then None
    else Some(q.(state := Init, port := Some(port), qkey := if q.kind.UD? then Some(qkey) else q.qkey))
  }

  function ToRtr(q: Qp, dest: Address, psn: nat): Option<Qp> {
    if q.state != Init then None
    else if q.kind.UD? || q.kind.RawPacket? then Some(q.(state := Rtr))
    else Some(q.(state := Rtr, dest := Some(dest), rqPsn := Some(psn)))
  }

  function ToRts(q: Qp, psn: nat): Option<Qp> {
    if q.state != Rtr then None
    else if q.kind.RawPacket? then Some(q.(state := Rts))
    else Some(q.(state := Rts, sqPsn := Some(psn)))
  }

  // ---------- whole calls ----------

  /** `accept(s)`: the device agrees to move to `s`. A refusal panics, like a failed assertion. */
  datatype Call =
    | Connect(remote: Info, port: nat, accept: QpState -> bool)
    | BindPort(port: nat, accept: QpState -> bool)

  /** How a call ended, the record it left, and the states the record entered. */
  datatype CallEnd = CallEnd(returned: bool, qp: Qp, visited: seq<QpState>)

  function Climb(q: Qp, port: nat, qkey: nat, dest: Address, psn: nat, accept: QpState -> bool): CallEnd {
    match ToInit(q, port, qkey)
    case None => CallEnd(false, q, [])
    case Some(a) =>
      if !accept(Init) then CallEnd(false, q, [])
      else
        match ToRtr(a, dest, psn)
        case None => CallEnd(false, a, [Init])
        case Some(b) =>
          if !accept(Rtr) then CallEnd(false, a, [Init])
          else
            match ToRts(b, INIT_PSN)
            case None => CallEnd(false, b, [Init, Rtr])
            case Some(c) =>
              if !accept(Rts) then CallEnd(false, b, [Init, Rtr]) else CallEnd(true, c, [Init, Rtr, Rts])
  }

  function EndOf(q: Qp, call: Call): CallEnd {
    match call
    case Connect(remote, port, accept) =>
      if q.kind.RC? then Climb(q, port, 0, remote.addr, remote.psn, accept) else CallEnd(false, q, [])
    case BindPort(port, accept) =>
      if q.kind.UD? || q.kind.RawPacket?
      then Climb(q, port, UD_QKEY, Address(0, 0, 0), INIT_PSN, accept)
      else CallEnd(true, q, [])
  }

  /** A sequence of calls on one queue pair; a panic ends it. */
  function RunCalls(q: Qp, calls: seq<Call>): CallEnd
    decreases |calls|
  {
    if calls == [] then CallEnd(true, q, [])
    else
      var first := EndOf(q, calls[0]);
      if !first.returned then first
      else
        var rest := RunCalls(first.qp, calls[1..]);
        rest.(visited := first.visited + rest.visited)
  }

  /** `rdma_qp`: the methods change the record in place; `visited` records where it has been. */
  class RdmaQp {
    var qp: Qp
    var port: nat
    ghost var visited: seq<QpState>

    constructor (kind: QpType, qpn: nat)
      ensures qp == Fresh(kind, qpn) && port == 1 && visited == []
    {
      qp := Fresh(kind, qpn);
      port := 1;
      visited := [];
    }

    method ModifyToInit(port: nat, qkey: nat, accept: QpState -> bool) returns (ok: bool)
      modifies this`qp, this`visited
      ensures ok <==> ToInit(old(qp), port, qkey).Some? && accept(Init)
      ensures ok ==> Some(qp) == ToInit(old(qp), port, qkey) && visited == old(visited) + [Init]
      ensures !ok ==> qp == old(qp) && visited == old(visited)
    {
      if qp.state != Reset || !accept(Init) {
        return false;
      }
      qp := qp.(state := Init, port := Some(port));
      if qp.kind.UD? {
        qp := qp.(qkey := Some(qkey));
      }
      visited := visited + [Init];
      return true;
    }

    method ModifyToRtr(dest: Address, psn: nat, accept: QpState -> bool) returns (ok: bool)
      modifies this`qp, this`visited
      ensures ok <==> ToRtr(old(qp), dest, psn).Some? && accept(Rtr)
      ensures ok ==> Some(qp) == ToRtr(old(qp), dest, psn) && visited == old(visited) + [Rtr]
      ensures !ok ==> qp == old(qp) && visited == old(visited)
    {
      if qp.state != Init || !accept(Rtr) {
        return false;
      }
      qp := qp.(state := Rtr);
      if !qp.kind.UD? && !qp.kind.RawPacket? {
        qp := qp.(dest := Some(dest), rqPsn := Some(psn));
      }
      visited := visited + [Rtr];
      return true;
    }

    method ModifyToRts(psn: nat, accept: QpState -> bool) returns (ok: bool)
      modifies this`qp, this`visited
      ensures ok <==> ToRts(old(qp), psn).Some? && accept(Rts)
      ensures ok ==> Some(qp) == ToRts(old(qp), psn) && visited == old(visited) + [Rts]
      ensures !ok ==> qp == old(qp) && visited == old(visited)
    {
      if qp.state != Rtr || !accept(Rts) {
        return false;
      }
      qp := qp.(state := Rts);
      if !qp.kind.RawPacket? {
        qp := qp.(sqPsn := Some(psn));
      }
      visited := visited + [Rts];
      return true;
    }

    method Connect(remote: Info, port: nat, accept: QpState -> bool) returns (ok: bool)
      modifies this`qp, this`visited
      ensures var end := EndOf(old(qp), Call.Connect(remote, port, accept));
              ok == end.returned && qp == end.qp && visited == old(visited) + end.visited
    {
      if !qp.kind.RC? {
        return false;
      }
      ok := ModifyToInit(port, 0, accept);
      if ok {
        ok := ModifyToRtr(remote.addr, remote.psn, accept);
      }
      if ok {
        ok := ModifyToRts(INIT_PSN, accept);
      }
    }

    method BindPort(port: nat, accept: QpState -> bool) returns (ok: bool)
      modifies this
      ensures var end := EndOf(old(qp), Call.BindPort(port, accept));
              ok == end.returned && qp == end.qp && visited == old(visited) + end.visited
      ensures this.port == port
    {
      this.port := port;
      ok := true;
      if qp.kind.UD? || qp.kind.RawPacket? {
        ok := ModifyToInit(port, UD_QKEY, accept);
        if ok {
          ok := ModifyToRtr(Address(0, 0, 0), INIT_PSN, accept);
        }
        if ok {
          ok := ModifyToRts(INIT_PSN, accept);
        }
      }
    }
  }

  // ---------- runs of calls ----------

  function Rung(s: QpState): (k: nat)
    ensures k < 4 && LADDER[k] == s
  {
    match s
    case Reset => 0
    case Init => 1
    case Rtr => 2
    case Rts => 3
  }

  /** The states entered by any run, whole or cut short by a panic, are the next rungs one by one and nothing else. */
  lemma {:induction false} RunClimbsLadder(q: Qp, calls: seq<Call>)
    ensures var end := RunCalls(q, calls); var k := Rung(q.state);
            && Rung(end.qp.state) == k + |end.visited|
            && forall i :: 0 <= i < |end.visited| ==> Rung(end.visited[i]) == k + 1 + i
    decreases |calls|
  {
    if calls != [] {
      var first := EndOf(q, calls[0]);
      CallClimbsLadder(q, calls[0]);
      if first.returned {
        RunClimbsLadder(first.qp, calls[1..]);
      }
    }
  }

  lemma CallClimbsLadder(q: Qp, call: Call)
    ensures var end := EndOf(q, call); var k := Rung(q.state);
            && Rung(end.qp.state) == k + |end.visited|
            && forall i :: 0 <= i < |end.visited| ==> Rung(end.visited[i]) == k + 1 + i
  {
  }

  /** The calls that set a queue pair of this kind up (`bind_port` on RC only stores the port). */
  predicate SetsUp(kind: QpType, call: Call) {
    call.Connect? || kind.UD? || kind.RawPacket?
  }

  function SetUpCount(kind: QpType, calls: seq<Call>): nat {
    if calls == [] then 0 else (if SetsUp(kind, calls[0]) then 1 else 0) + SetUpCount(kind, calls[1..])
  }

  lemma {:induction false} NoSetUpAfterReset(q: Qp, calls: seq<Call>)
    requires q.state != Reset && RunCalls(q, calls).returned
    ensures SetUpCount(q.kind, calls) == 0 && RunCalls(q, calls).qp == q
    decreases |calls|
  {
    if calls != [] {
      NoSetUpAfterReset(EndOf(q, calls[0]).qp, calls[1..]);
    }
  }

  /**
   A run of calls from a new queue pair in which every call returns holds at most one set-up call;
   it ends in RTS if there is one and in RESET if not.
   */
  lemma {:induction false} OneSetUpEver(q: Qp, calls: seq<Call>)
    requires q.state == Reset && RunCalls(q, calls).returned
    ensures SetUpCount(q.kind, calls) <= 1
    ensures RunCalls(q, calls).qp.state == if SetUpCount(q.kind, calls) == 1 then Rts else Reset
    decreases |calls|
  {
    if calls != [] {
      var next := EndOf(q, calls[0]).qp;
      if SetsUp(q.kind, calls[0]) {
        assert next.state == Rts && next.kind == q.kind;
        NoSetUpAfterReset(next, calls[1..]);
      } else {
        OneSetUpEver(next, calls[1..]);
      }
    }
  }

  /** Whichever call of a run connected an RC queue pair, its remote is the destination ever after. */
  lemma {:induction false} ConnectedToTheOneRemote(q: Qp, calls: seq<Call>, i: nat)
    requires q.state == Reset && RunCalls(q, calls).returned
    requires i < |calls| && calls[i].Connect?
    ensures var end := RunCalls(q, calls).qp; var remote := calls[i].remote;
            && end.dest == Some(remote.addr)
            && end.rqPsn == Some(remote.psn)
            && end.sqPsn == Some(INIT_PSN)
            && end.port == Some(calls[i].port) && end.qkey == q.qkey
    decreases |calls|
  {
    var next := EndOf(q, calls[0]).qp;
    if i == 0 {
      NoSetUpAfterReset(next, calls[1..]);
    } else {
      assert calls[i] == calls[1..][i - 1];
      if SetsUp(q.kind, calls[0]) {
        NoSetUpAfterReset(next, calls[1..]);
        SetUpCounted(q.kind, calls[1..], i - 1);
        assert false;
      } else {
        ConnectedToTheOneRemote(next, calls[1..], i - 1);
      }
    }
  }

  lemma {:induction false} SetUpCounted(kind: QpType, calls: seq<Call>, i: nat)
    requires i < |calls| && SetsUp(kind, calls[i])
    ensures SetUpCount(kind, calls) > 0
  {
    if i > 0 {
      SetUpCounted(kind, calls[1..], i - 1);
    }
  }

  /** Datagram and raw packet queue pairs are bound to a port, but no call ever gives them a destination. */
  lemma {:induction false} BoundNeverConnected(q: Qp, calls: seq<Call>)
    requires q.kind.UD? || q.kind.RawPacket?
    ensures var end := RunCalls(q, calls).qp;
            && end.kind == q.kind && end.dest == q.dest && end.rqPsn == q.rqPsn
            && (end.qkey == q.qkey || (q.kind.UD? && end.qkey == Some(UD_QKEY)))
            && (end.sqPsn == q.sqPsn || (q.kind.UD? && end.sqPsn == Some(INIT_PSN)))
    decreases |calls|
  {
    if calls != [] {
      BoundNeverConnected(EndOf(q, calls[0]).qp, calls[1..]);
    }
  }

  /**
   When a call returns: `connect` on an RC queue pair in RESET that the device refuses no move; `bind_port` likewise
   on datagram and raw packet queue pairs, and always on the connected types, where it only stores the port.
   */
  lemma CallReturnsExactly(q: Qp, call: Call)
    ensures EndOf(q, call).returned
            <==> match call
                 case Connect(_, _, accept) =>
                   q.kind.RC? && q.state == Reset && accept(Init) && accept(Rtr) && accept(Rts)
                 case BindPort(_, accept) =>
                   q.kind.RC? || q.kind.UC? || (q.state == Reset && accept(Init) && accept(Rtr) && accept(Rts))
  {
  }

  /**
   Whichever call bound a new datagram or raw packet queue pair, its port is the one at the end of the run; the
   datagram kind then has the library's key and send PSN, the raw kind neither, and no kind has a destination.
   */
  lemma {:induction false} BoundToTheOnePort(kind: QpType, qpn: nat, calls: seq<Call>, i: nat)
    requires (kind.UD? || kind.RawPacket?) && i < |calls| && RunCalls(Fresh(kind, qpn), calls).returned
    ensures var end := RunCalls(Fresh(kind, qpn), calls).qp;
            && calls[i].BindPort? && end.state == Rts && end.qpn == qpn && end.kind == kind
            && end.port == Some(calls[i].port)
            && end.qkey == (if kind.UD? then Some(0x1111_1111) else None)
            && end.sqPsn == (if kind.UD? then Some(3000) else None)
            && end.dest == None && end.rqPsn == None
  {
    var next := EndOf(Fresh(kind, qpn), calls[0]).qp;
    NoSetUpAfterReset(next, calls[1..]);
  }
}
