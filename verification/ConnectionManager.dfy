/**
 `cm` (cm.h) in the form of the source: the handler that serves one request, and the client's call,
 here with no other call in between. The interleaved protocol is the module `Handshake`.
 */
module ConnectionManager {
  import opened Words
  import opened QueuePair
  import Handshake

  /** `accept(s)`: the device agrees to move a queue pair to `s`. */
  predicate AcceptsAll(accept: QpState -> bool) {
    accept(Init) && accept(Rtr) && accept(Rts)
  }

  class Cm {
    const gid: nat
    const lid: nat

    constructor (gid: nat, lid: nat)
      ensures this.gid == gid && this.lid == lid
    {
      this.gid := gid;
      this.lid := lid;
    }

    /**
     The handler of `run_server` for one request: a new queue pair, connected to the caller, which
     the callback then receives; the reply describes that queue pair. `qpn` is the device's choice.
     */
    method Establish(remote: Info, qpn: nat, accept: QpState -> bool) returns (ok: bool, qp: RdmaQp, answer: Info)
      ensures fresh(qp)
      ensures ok <==> AcceptsAll(accept)
      ensures ok ==> qp.qp == Handshake.Connect(Fresh(RC, qpn), remote) && answer == InfoOf(gid, lid, qp.qp)
    {
      qp := new RdmaQp(RC, qpn);
      ok := qp.Connect(remote, 1, accept);
      answer := InfoOf(gid, lid, qp.qp);
    }

    /**
     `connect(qp)`: sends this side's info, and connects to the info that comes back. When it returns the
     two queue pairs have each other as destination and agree on their PSNs; it panics if the queue pair
     had been used before.
     */
    method Connect(qp: RdmaQp, server: Cm, qpn: nat, accept: QpState -> bool, serverAccept: QpState -> bool)
      returns (ok: bool, peer: RdmaQp)
      requires qp.qp.kind.RC?
      modifies qp
      ensures fresh(peer) && peer != qp
      ensures ok <==> old(qp.qp.state) == Reset && AcceptsAll(accept) && AcceptsAll(serverAccept)
      ensures ok ==>
                && qp.qp == Handshake.Connect(old(qp.qp), InfoOf(server.gid, server.lid, peer.qp))
                && peer.qp == Handshake.Connect(Fresh(RC, qpn), InfoOf(gid, lid, qp.qp))
      ensures ok ==>
                && qp.qp.dest == Some(Address(server.gid, server.lid, peer.qp.qpn))
                && peer.qp.dest == Some(Address(gid, lid, qp.qp.qpn))
                && qp.qp.rqPsn == peer.qp.sqPsn && peer.qp.rqPsn == qp.qp.sqPsn
    {
      var info := InfoOf(gid, lid, qp.qp);
      var answer;
      ok, peer, answer := server.Establish(info, qpn, serverAccept);
      if ok {
        ok := qp.Connect(answer, 1, accept);
      }
    }
  }
}
