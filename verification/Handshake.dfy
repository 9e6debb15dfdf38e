/**
 The connection handshake (cm.h) as a state machine: any number of clients, each with any
 number of `connect` calls in flight, and a server that runs one handler per call. Every
 modify call on a queue pair is a step of its own, which the device may refuse, so all
 interleavings and all refusals are covered.
 */
module Handshake {
  import opened Words
  import opened QueuePair

  /**
   A call's program counter. The server's handler runs from `Asked` to `Answered`:
   the callback receives the queue pair by move at `Handed`.
   */
  datatype Stage =
    | Asked
    | Made
    | ServerInit
    | ServerRtr
    | ServerRts
    | Handed
    | Answered
    | ClientInit
    | ClientRtr
    | Connected

  function Rank(s: Stage): nat {
    match s
    case Asked => 0
    case Made => 1
    case ServerInit => 2
    case ServerRtr => 3
    case ServerRts => 4
    case Handed => 5
    case Answered => 6
    case ClientInit => 7
    case ClientRtr => 8
    case Connected => 9
  }

  /** `server` indexes the server's queue pairs from stage `Made` on; `answer` is the reply from `Answered` on. */
  datatype Call = Call(client: nat, asked: Info, stage: Stage, server: nat, answer: Info)

  /** A client process: its context's gid and lid, its queue pair, and whether it has panicked. */
  datatype Client = Client(gid: nat, lid: nat, qp: Qp, dead: bool)

  /** A server queue pair; `released` once whoever held it last has destroyed it. */
  datatype ServerQp = ServerQp(qp: Qp, released: bool)

  /** The server's gid and lid, whether its process has panicked, and everything that has been made so far. */
  datatype World = World(
    gid: nat,
    lid: nat,
    down: bool,
    clients: seq<Client>,
    servers: seq<ServerQp>,
    calls: seq<Call>)

  /** At the start every client has a fresh RC queue pair and nothing else has happened. */
  predicate IsInitial(w: World) {
    && !w.down && w.servers == [] && w.calls == []
    && forall c <- w.clients :: !c.dead && c.qp == Fresh(RC, c.qp.qpn)
  }

  /** `accept`: the device agrees to the modify call. */
  datatype Step =
    | Ask(client: nat)
    | Make(call: nat, qpn: nat)
    | ServerModify(call: nat, accept: bool)
    | HandOver(call: nat)
    | Release(server: nat)
    | Answer(call: nat)
    | ClientModify(call: nat, accept: bool)

  predicate QpnFree(w: World, qpn: nat) {
    forall s <- w.servers :: !s.released ==> s.qp.qpn != qpn
  }

  function SetStage(w: World, i: nat, stage: Stage): World
    requires i < |w.calls|
  {
    w.(calls := w.calls[i := w.calls[i].(stage := stage)])
  }

  function SetServer(w: World, h: nat, qp: Qp): World
    requires h < |w.servers|
  {
    w.(servers := w.servers[h := w.servers[h].(qp := qp)])
  }

  function SetClient(w: World, c: nat, client: Client): World
    requires c < |w.clients|
  {
    w.(clients := w.clients[c := client])
  }

  /** `cm::connect` sends the client's own info. */
  function AskStep(w: World, c: nat): Option<World> {
    if c < |w.clients| && !w.clients[c].dead then
      var info := InfoOf(w.clients[c].gid, w.clients[c].lid, w.clients[c].qp);
      Some(w.(calls := w.calls + [Call(c, info, Asked, 0, info)]))
    else None
  }

  /** The handler creates a queue pair; the device picks a number that no live one has. */
  function MakeStep(w: World, i: nat, qpn: nat): Option<World> {
    if !w.down && i < |w.calls| && w.calls[i].stage == Asked && QpnFree(w, qpn) then
      Some(w.(servers := w.servers + [ServerQp(Fresh(RC, qpn), false)],
              calls := w.calls[i := w.calls[i].(stage := Made, server := |w.servers|)]))
    else None
  }

  /** One modify call of the handler's `qp.connect(info)`; a failed assertion or a refusal ends the server's process. */
  function ServerModifyStep(w: World, i: nat, accept: bool): Option<World> {
    if w.down || i >= |w.calls| || w.calls[i].server >= |w.servers| then None
    else
      var c := w.calls[i];
      var q := w.servers[c.server].qp;
      match c.stage
      case Made => Some(ServerTo(w, i, ToInit(q, 1, 0), accept, ServerInit))
      case ServerInit => Some(ServerTo(w, i, ToRtr(q, c.asked.addr, c.asked.psn), accept, ServerRtr))
      case ServerRtr => Some(ServerTo(w, i, ToRts(q, INIT_PSN), accept, ServerRts))
      case _ => None
  }

  function ServerTo(w: World, i: nat, q: Option<Qp>, accept: bool, stage: Stage): World
    requires i < |w.calls| && w.calls[i].server < |w.servers|
  {
    if q.Some? && accept then SetStage(SetServer(w, w.calls[i].server, q.value), i, stage) else w.(down := true)
  }

  function HandOverStep(w: World, i: nat): Option<World> {
    if !w.down && i < |w.calls| && w.calls[i].stage == ServerRts then Some(SetStage(w, i, Handed)) else None
  }

  /**
   Whoever holds a queue pair that was handed over may destroy it at any time: the callback or the application.
   Every queue pair goes when the server's process is gone.
   */
  function ReleaseStep(w: World, h: nat): Option<World> {
    if h < |w.servers| && !w.servers[h].released && (w.down || IsHandedOver(w, h))
    then Some(w.(servers := w.servers[h := w.servers[h].(released := true)]))
    else None
  }

  predicate IsHandedOver(w: World, h: nat) {
    exists i :: 0 <= i < |w.calls| && w.calls[i].server == h && Rank(w.calls[i].stage) >= Rank(Handed)
  }

  /** The handler returns the info it took from the queue pair before the move. */
  function AnswerStep(w: World, i: nat): Option<World> {
    if !w.down && i < |w.calls| && w.calls[i].stage == Handed && w.calls[i].server < |w.servers| then
      var info := InfoOf(w.gid, w.lid, w.servers[w.calls[i].server].qp);
      Some(w.(calls := w.calls[i := w.calls[i].(stage := Answered, answer := info)]))
    else None
  }

  /** One modify call of the client's `qp.connect(info)`; a failed assertion or a refusal ends the client's process. */
  function ClientModifyStep(w: World, i: nat, accept: bool): Option<World> {
    if i >= |w.calls| || w.calls[i].client >= |w.clients| || w.clients[w.calls[i].client].dead then None
    else
      var c := w.calls[i];
      var q := w.clients[c.client].qp;
      match c.stage
      case Answered => Some(ClientTo(w, i, ToInit(q, 1, 0), accept, ClientInit))
      case ClientInit => Some(ClientTo(w, i, ToRtr(q, c.answer.addr, c.answer.psn), accept, ClientRtr))
      case ClientRtr => Some(ClientTo(w, i, ToRts(q, INIT_PSN), accept, Connected))
      case _ => None
  }

  function ClientTo(w: World, i: nat, q: Option<Qp>, accept: bool, stage: Stage): World
    requires i < |w.calls| && w.calls[i].client < |w.clients|
  {
    var c := w.calls[i].client;
    if q.Some? && accept then SetStage(SetClient(w, c, w.clients[c].(qp := q.value)), i, stage)
    else SetClient(w, c, w.clients[c].(dead := true))
  }

  /** One step of the whole system; `None` when it is not enabled. */
  function Do(w: World, step: Step): Option<World> {
    match step
    case Ask(c) => AskStep(w, c)
    case Make(i, qpn) => MakeStep(w, i, qpn)
    case ServerModify(i, accept) => ServerModifyStep(w, i, accept)
    case HandOver(i) => HandOverStep(w, i)
    case Release(h) => ReleaseStep(w, h)
    case Answer(i) => AnswerStep(w, i)
    case ClientModify(i, accept) => ClientModifyStep(w, i, accept)
  }

  function Run(w: World, steps: seq<Step>): Option<World>
    decreases |steps|
  {
    if steps == [] then Some(w) else
      match Do(w, steps[0])
      case None => None
      case Some(v) => Run(v, steps[1..])
  }

  // ---------- the invariant ----------

  predicate Past(c: Call, s: Stage) {
    Rank(c.stage) >= Rank(s)
  }

  /** What the record of a server queue pair holds when its handler has come this far. */
  predicate ServerSide(w: World, c: Call) {
    && c.client < |w.clients|
    && c.asked == InfoOf(w.clients[c.client].gid, w.clients[c.client].lid, w.clients[c.client].qp)
    && (Past(c, Made) ==>
          && c.server < |w.servers|
          && var q := w.servers[c.server].qp;
             && q.kind.RC?
             && q.state == (if Past(c, ServerRts) then Rts
                            else if Past(c, ServerRtr) then Rtr
                            else if Past(c, ServerInit) then Init else Reset)
             && (Past(c, ServerRtr) ==> q.dest == Some(c.asked.addr) && q.rqPsn == Some(c.asked.psn))
             && (Past(c, ServerRts) ==> q.sqPsn == Some(INIT_PSN))
             && (!Past(c, Handed) && !w.down ==> !w.servers[c.server].released)
             && (Past(c, Answered) ==> c.answer == InfoOf(w.gid, w.lid, q)))
  }

  /** What the client's own record holds when its `qp.connect` has come this far. */
  predicate ClientSide(w: World, c: Call) {
    c.client < |w.clients| && (Past(c, ClientInit) ==>
      var q := w.clients[c.client].qp;
      && q.state == (if Past(c, Connected) then Rts else if Past(c, ClientRtr) then Rtr else Init)
      && (Past(c, ClientRtr) ==> q.dest == Some(c.answer.addr) && q.rqPsn == Some(c.answer.psn))
      && (Past(c, Connected) ==> q.sqPsn == Some(INIT_PSN)))
  }

  /** A client that has left RESET was taken out of it by one of its calls. */
  predicate HasConnectingCall(w: World, c: nat) {
    exists i :: 0 <= i < |w.calls| && w.calls[i].client == c && Past(w.calls[i], ClientInit)
  }

  predicate NumbersApart(w: World) {
    forall g, h :: 0 <= g < h < |w.servers| && !w.servers[g].released && !w.servers[h].released ==>
      w.servers[g].qp.qpn != w.servers[h].qp.qpn
  }

  /** The server's half: handlers are where their queue pairs are, each request has one of its own. */
  predicate ServerInv(w: World) {
    && (forall i :: 0 <= i < |w.calls| ==> ServerSide(w, w.calls[i]))
    && (forall i, j :: 0 <= i < j < |w.calls| && Past(w.calls[i], Made) && Past(w.calls[j], Made) ==>
          w.calls[i].server != w.calls[j].server)
    && NumbersApart(w)
  }

  /** The clients' half: at most one call connects a client, and nothing else moves its queue pair. */
  predicate ClientInv(w: World) {
    && (forall i :: 0 <= i < |w.calls| ==> ClientSide(w, w.calls[i]))
    && (forall i, j :: 0 <= i < j < |w.calls| && Past(w.calls[i], ClientInit) && Past(w.calls[j], ClientInit) ==>
          w.calls[i].client != w.calls[j].client)
    && (forall c :: 0 <= c < |w.clients| ==> w.clients[c].qp.kind.RC?)
    && (forall c :: 0 <= c < |w.clients| && w.clients[c].qp.state != Reset ==> HasConnectingCall(w, c))
  }

  predicate Inv(w: World) {
    ServerInv(w) && ClientInv(w)
  }

  lemma InitialInv(w: World)
    requires IsInitial(w)
    ensures Inv(w)
  {
  }

  lemma ConnectingCallsStay(w: World, v: World)
    requires |w.calls| <= |v.calls|
    requires forall i :: 0 <= i < |w.calls| ==>
               v.calls[i].client == w.calls[i].client && (Past(w.calls[i], ClientInit) ==> Past(v.calls[i], ClientInit))
    ensures forall c :: HasConnectingCall(w, c) ==> HasConnectingCall(v, c)
  {
    forall c | HasConnectingCall(w, c) ensures HasConnectingCall(v, c) {
      var i :| 0 <= i < |w.calls| && w.calls[i].client == c && Past(w.calls[i], ClientInit);
      assert v.calls[i].client == c;
    }
  }

  /** A step that leaves the clients alone, and the calls that have come back to them. */
  lemma ServerStepKeepsClients(w: World, v: World)
    requires ClientInv(w) && v.clients == w.clients && |w.calls| <= |v.calls|
    requires forall i :: 0 <= i < |w.calls| ==>
               v.calls[i].client == w.calls[i].client && (Past(w.calls[i], ClientInit) ==> v.calls[i] == w.calls[i])
    requires forall i :: 0 <= i < |v.calls| && Past(v.calls[i], ClientInit) ==>
               i < |w.calls| && Past(w.calls[i], ClientInit)
    requires forall i :: 0 <= i < |v.calls| ==> v.calls[i].client < |v.clients|
    ensures ClientInv(v)
  {
    ConnectingCallsStay(w, v);
  }

  lemma AskKeepsServers(w: World, c: nat)
    requires Inv(w) && AskStep(w, c).Some?
    ensures ServerInv(AskStep(w, c).value)
  {
  }

  lemma AskKeepsClients(w: World, c: nat)
    requires Inv(w) && AskStep(w, c).Some?
    ensures ClientInv(AskStep(w, c).value)
  {
    ServerStepKeepsClients(w, AskStep(w, c).value);
  }

  lemma MakeKeepsServers(w: World, i: nat, qpn: nat)
    requires Inv(w) && MakeStep(w, i, qpn).Some?
    ensures ServerInv(MakeStep(w, i, qpn).value)
  {
  }

  lemma MakeKeepsClients(w: World, i: nat, qpn: nat)
    requires Inv(w) && MakeStep(w, i, qpn).Some?
    ensures ClientInv(MakeStep(w, i, qpn).value)
  {
    ServerStepKeepsClients(w, MakeStep(w, i, qpn).value);
  }

  /** Call `i` takes its own queue pair one rung up. */
  lemma ClimbingKeepsServers(w: World, i: nat, q: Qp, stage: Stage)
    requires ServerInv(w) && i < |w.calls| && Past(w.calls[i], Made)
    requires var h := w.calls[i].server;
             && q.qpn == w.servers[h].qp.qpn
             && ServerSide(SetStage(SetServer(w, h, q), i, stage), w.calls[i].(stage := stage))
    requires Rank(stage) >= Rank(Made)
    ensures ServerInv(SetStage(SetServer(w, w.calls[i].server, q), i, stage))
  {
    var h := w.calls[i].server;
    var v := SetStage(SetServer(w, h, q), i, stage);
    forall j | 0 <= j < |v.calls| && j != i ensures ServerSide(v, v.calls[j]) {
      assert ServerSide(w, w.calls[j]);
      assert Past(w.calls[j], Made) ==> w.calls[j].server != h;
    }
  }

  /** The server's process ends, and its queue pairs stay as they are until they are released. */
  lemma GoingDownKeepsInv(w: World)
    requires Inv(w)
    ensures Inv(w.(down := true))
  {
    var v := w.(down := true);
    assert forall c :: HasConnectingCall(w, c) ==> HasConnectingCall(v, c);
  }

  lemma ServerModifyKeepsServers(w: World, i: nat, accept: bool)
    requires Inv(w) && ServerModifyStep(w, i, accept).Some?
    ensures ServerInv(ServerModifyStep(w, i, accept).value)
  {
    var c := w.calls[i];
    var q := w.servers[c.server].qp;
    var (up, stage) := match c.stage
      case Made => (ToInit(q, 1, 0), ServerInit)
      case ServerInit => (ToRtr(q, c.asked.addr, c.asked.psn), ServerRtr)
      case _ => (ToRts(q, INIT_PSN), ServerRts);
    assert ServerSide(w, c);
    if accept {
      ClimbingKeepsServers(w, i, up.value, stage);
    } else {
      GoingDownKeepsInv(w);
    }
  }

  lemma ServerModifyIsLocal(w: World, i: nat, accept: bool)
    requires ServerModifyStep(w, i, accept).Some?
    ensures var v := ServerModifyStep(w, i, accept).value;
            && v.clients == w.clients && i < |w.calls| && !Past(w.calls[i], Answered)
            && (v.calls == w.calls
                || exists s :: Rank(s) < Rank(Answered) && v.calls == w.calls[i := w.calls[i].(stage := s)])
  {
    var v := ServerModifyStep(w, i, accept).value;
    if v.calls != w.calls {
      var s := v.calls[i].stage;
      assert Rank(s) < Rank(Answered) && v.calls == w.calls[i := w.calls[i].(stage := s)];
    }
  }

  lemma ServerModifyKeepsClients(w: World, i: nat, accept: bool)
    requires Inv(w) && ServerModifyStep(w, i, accept).Some?
    ensures ClientInv(ServerModifyStep(w, i, accept).value)
  {
    ServerModifyIsLocal(w, i, accept);
    ServerStepKeepsClients(w, ServerModifyStep(w, i, accept).value);
  }

  /** The handler of call `i` moves on without touching a queue pair. */
  lemma HandlerKeepsServers(w: World, i: nat, c: Call)
    requires ServerInv(w) && i < |w.calls| && Past(w.calls[i], Made)
    requires c.server == w.calls[i].server && ServerSide(w, c)
    ensures ServerInv(w.(calls := w.calls[i := c]))
  {
    var v := w.(calls := w.calls[i := c]);
    forall j | 0 <= j < |v.calls| && j != i ensures ServerSide(v, v.calls[j]) {
      assert ServerSide(w, w.calls[j]);
    }
  }

  lemma HandOverKeepsServers(w: World, i: nat)
    requires Inv(w) && HandOverStep(w, i).Some?
    ensures ServerInv(HandOverStep(w, i).value)
  {
    HandlerKeepsServers(w, i, HandOverStep(w, i).value.calls[i]);
  }

  lemma HandOverKeepsClients(w: World, i: nat)
    requires Inv(w) && HandOverStep(w, i).Some?
    ensures ClientInv(HandOverStep(w, i).value)
  {
    ServerStepKeepsClients(w, HandOverStep(w, i).value);
  }

  lemma ReleaseKeepsServers(w: World, h: nat)
    requires Inv(w) && ReleaseStep(w, h).Some?
    ensures ServerInv(ReleaseStep(w, h).value)
  {
  }

  lemma ReleaseKeepsClients(w: World, h: nat)
    requires Inv(w) && ReleaseStep(w, h).Some?
    ensures ClientInv(ReleaseStep(w, h).value)
  {
    ServerStepKeepsClients(w, ReleaseStep(w, h).value);
  }

  lemma AnswerKeepsServers(w: World, i: nat)
    requires Inv(w) && AnswerStep(w, i).Some?
    ensures ServerInv(AnswerStep(w, i).value)
  {
    HandlerKeepsServers(w, i, AnswerStep(w, i).value.calls[i]);
  }

  lemma AnswerKeepsClients(w: World, i: nat)
    requires Inv(w) && AnswerStep(w, i).Some?
    ensures ClientInv(AnswerStep(w, i).value)
  {
    ServerStepKeepsClients(w, AnswerStep(w, i).value);
  }

  /** A client's step touches nothing that the server or its handlers see. */
  lemma ClientStepKeepsServers(w: World, v: World)
    requires ServerInv(w) && v.servers == w.servers && v.gid == w.gid && v.lid == w.lid && v.down == w.down
    requires |v.clients| == |w.clients| && |v.calls| == |w.calls|
    requires forall c :: 0 <= c < |w.clients| ==>
               var a, b := w.clients[c], v.clients[c]; a.gid == b.gid && a.lid == b.lid && a.qp.qpn == b.qp.qpn
    requires forall i :: 0 <= i < |w.calls| ==>
               || v.calls[i] == w.calls[i]
               || (&& Past(w.calls[i], Answered) && Past(v.calls[i], Answered)
                   && v.calls[i] == w.calls[i].(stage := v.calls[i].stage))
    ensures ServerInv(v)
  {
    forall i | 0 <= i < |v.calls| ensures ServerSide(v, v.calls[i]) {
      assert ServerSide(w, w.calls[i]);
    }
  }

  /** The rung a client's modify call takes it to, if it is not refused. */
  function NextRung(q: Qp, c: Call): (Option<Qp>, Stage) {
    match c.stage
    case Answered => (ToInit(q, 1, 0), ClientInit)
    case ClientInit => (ToRtr(q, c.answer.addr, c.answer.psn), ClientRtr)
    case _ => (ToRts(q, INIT_PSN), Connected)
  }

  lemma ClientModifyIsNextRung(w: World, i: nat, accept: bool)
    requires ClientModifyStep(w, i, accept).Some?
    ensures i < |w.calls| && w.calls[i].client < |w.clients|
    ensures var (up, stage) := NextRung(w.clients[w.calls[i].client].qp, w.calls[i]);
            ClientModifyStep(w, i, accept) == Some(ClientTo(w, i, up, accept, stage))
    ensures Past(w.calls[i], Answered) && !Past(w.calls[i], Connected)
  {
  }

  lemma ClientModifyKeepsServers(w: World, i: nat, accept: bool)
    requires Inv(w) && ClientModifyStep(w, i, accept).Some?
    ensures ServerInv(ClientModifyStep(w, i, accept).value)
  {
    ClientModifyIsNextRung(w, i, accept);
    var (up, stage) := NextRung(w.clients[w.calls[i].client].qp, w.calls[i]);
    if up.Some? && accept {
      ClientStepKeepsServers(w, ClientTo(w, i, up, true, stage));
    } else {
      ClientStepKeepsServers(w, ClientModifyStep(w, i, accept).value);
    }
  }

  /** A client's process that panics keeps its record as it is. */
  lemma DyingKeepsClients(w: World, c: nat)
    requires ClientInv(w) && c < |w.clients|
    ensures ClientInv(SetClient(w, c, w.clients[c].(dead := true)))
  {
    var v := SetClient(w, c, w.clients[c].(dead := true));
    ConnectingCallsStay(w, v);
    assert forall i :: 0 <= i < |v.clients| ==> v.clients[i].qp == w.clients[i].qp;
  }

  /** Call `i` takes its client's queue pair one rung up. */
  lemma ClimbingKeepsClients(w: World, i: nat, q: Qp, stage: Stage)
    requires ClientInv(w) && i < |w.calls| && w.calls[i].client < |w.clients|
    requires var c := w.calls[i].(stage := stage); var v := ClientTo(w, i, Some(q), true, stage);
             Past(c, ClientInit) && ClientSide(v, c)
    requires Past(w.calls[i], ClientInit) || w.clients[w.calls[i].client].qp.state.Reset?
    requires q.kind.RC? && Rank(stage) > Rank(w.calls[i].stage)
    ensures ClientInv(ClientTo(w, i, Some(q), true, stage))
  {
    var v := ClientTo(w, i, Some(q), true, stage);
    var client := w.calls[i].client;
    ConnectingCallsStay(w, v);
    forall j | 0 <= j < |v.calls| && j != i && Past(w.calls[j], ClientInit)
      ensures w.calls[j].client != client
    {
      assert Past(w.calls[i], ClientInit) || ClientSide(w, w.calls[j]);
    }
    assert forall j :: 0 <= j < |v.calls| && j != i ==> v.calls[j] == w.calls[j];
    assert v.calls[i].client == client && Past(v.calls[i], ClientInit);
  }

  /** What is reached on the next rung is what the client's half of the invariant asks for there. */
  lemma NextRungIsRight(w: World, i: nat)
    requires ClientInv(w) && i < |w.calls| && w.calls[i].client < |w.clients|
    requires Past(w.calls[i], Answered) && !Past(w.calls[i], Connected)
    requires NextRung(w.clients[w.calls[i].client].qp, w.calls[i]).0.Some?
    ensures var (up, stage) := NextRung(w.clients[w.calls[i].client].qp, w.calls[i]);
            && up.value.kind.RC? && Rank(stage) > Rank(w.calls[i].stage) && Rank(stage) >= Rank(ClientInit)
            && ClientSide(ClientTo(w, i, up, true, stage), w.calls[i].(stage := stage))
  {
    assert ClientSide(w, w.calls[i]);
  }

  lemma ClientModifyKeepsClients(w: World, i: nat, accept: bool)
    requires Inv(w) && ClientModifyStep(w, i, accept).Some?
    ensures ClientInv(ClientModifyStep(w, i, accept).value)
  {
    ClientModifyIsNextRung(w, i, accept);
    var (up, stage) := NextRung(w.clients[w.calls[i].client].qp, w.calls[i]);
    if up.Some? && accept {
      NextRungIsRight(w, i);
      ClimbingKeepsClients(w, i, up.value, stage);
    } else {
      DyingKeepsClients(w, w.calls[i].client);
    }
  }

  lemma StepKeepsInv(w: World, step: Step)
    requires Inv(w) && Do(w, step).Some?
    ensures Inv(Do(w, step).value)
  {
    match step {
      case Ask(c) =>
        AskKeepsServers(w, c);
        AskKeepsClients(w, c);
      case Make(i, qpn) =>
        MakeKeepsServers(w, i, qpn);
        MakeKeepsClients(w, i, qpn);
      case ServerModify(i, accept) =>
        ServerModifyKeepsServers(w, i, accept);
        ServerModifyKeepsClients(w, i, accept);
      case HandOver(i) =>
        HandOverKeepsServers(w, i);
        HandOverKeepsClients(w, i);
      case Release(h) =>
        ReleaseKeepsServers(w, h);
        ReleaseKeepsClients(w, h);
      case Answer(i) =>
        AnswerKeepsServers(w, i);
        AnswerKeepsClients(w, i);
      case ClientModify(i, accept) =>
        ClientModifyKeepsServers(w, i, accept);
        ClientModifyKeepsClients(w, i, accept);
    }
  }

  lemma {:induction false} RunKeepsInv(w: World, steps: seq<Step>)
    requires Inv(w) && Run(w, steps).Some?
    ensures Inv(Run(w, steps).value)
    decreases |steps|
  {
    if steps != [] {
      StepKeepsInv(w, steps[0]);
      RunKeepsInv(Do(w, steps[0]).value, steps[1..]);
    }
  }

  // ---------- what every reachable state guarantees ----------

  /** Some initial world reaches `w` by some interleaving of steps. */
  ghost predicate Reachable(w: World) {
    exists init, steps :: IsInitial(init) && Run(init, steps) == Some(w)
  }

  lemma ReachableInv(w: World)
    requires Reachable(w)
    ensures Inv(w)
  {
    var init, steps :| IsInitial(init) && Run(init, steps) == Some(w);
    InitialInv(init);
    RunKeepsInv(init, steps);
  }

  /** Both ends are in RTS, each has the other as its destination, and each expects the PSN the other sends first. */
  predicate Paired(w: World, c: nat, h: nat) {
    && c < |w.clients| && h < |w.servers|
    && var client, q, s := w.clients[c], w.clients[c].qp, w.servers[h].qp;
       (&& q.state == Rts && s.state == Rts
        && q.dest == Some(Address(w.gid, w.lid, s.qpn))
        && s.dest == Some(Address(client.gid, client.lid, q.qpn))
        && q.rqPsn == s.sqPsn && q.rqPsn.Some?
        && s.rqPsn == q.sqPsn && s.rqPsn.Some?)
  }

  lemma ConnectedIsPaired(w: World, i: nat)
    requires Inv(w) && i < |w.calls| && w.calls[i].stage == Connected
    ensures Paired(w, w.calls[i].client, w.calls[i].server)
  {
    assert ClientSide(w, w.calls[i]) && ServerSide(w, w.calls[i]);
  }

  lemma RtsCallIsConnected(w: World, i: nat)
    requires ClientInv(w) && i < |w.calls| && Past(w.calls[i], ClientInit)
    requires w.clients[w.calls[i].client].qp.state == Rts
    ensures w.calls[i].stage == Connected
  {
    assert ClientSide(w, w.calls[i]);
  }

  /** In every reachable state a client queue pair in RTS is paired with the server's end of one of its own calls. */
  lemma RtsMeansPaired(w: World, c: nat) returns (i: nat)
    requires Reachable(w) && c < |w.clients| && w.clients[c].qp.state == Rts
    ensures i < |w.calls| && w.calls[i].client == c && w.calls[i].stage == Connected
    ensures Paired(w, c, w.calls[i].server)
  {
    ReachableInv(w);
    assert HasConnectingCall(w, c);
    i :| 0 <= i < |w.calls| && w.calls[i].client == c && Past(w.calls[i], ClientInit);
    RtsCallIsConnected(w, i);
    ConnectedIsPaired(w, i);
  }

  predicate SameDestination(w: World, c: nat, d: nat) {
    c < |w.clients| && d < |w.clients| && w.clients[c].qp.dest == w.clients[d].qp.dest
  }

  /**
   In every reachable state two connected calls belong to different clients and have different server
   queue pairs. The clients' destinations differ as long as the numbers of these do, and so while neither of
   them has been destroyed.
   */
  lemma PairingIsInjective(w: World, i: nat, j: nat)
    requires Reachable(w) && i < j < |w.calls| && w.calls[i].stage == w.calls[j].stage == Connected
    ensures var c, d := w.calls[i], w.calls[j];
            && c.client != d.client && c.server != d.server
            && Paired(w, c.client, c.server) && Paired(w, d.client, d.server)
            && (SameDestination(w, c.client, d.client)
                <==> w.servers[c.server].qp.qpn == w.servers[d.server].qp.qpn)
            && (!w.servers[c.server].released && !w.servers[d.server].released ==>
                  !SameDestination(w, c.client, d.client))
  {
    ReachableInv(w);
    ConnectedIsPaired(w, i);
    ConnectedIsPaired(w, j);
  }

  /** A handler ends the server's process exactly when the device refuses it: its assertions never fail. */
  lemma HandlerPanicsExactly(w: World, i: nat, accept: bool)
    requires Reachable(w) && !w.down && i < |w.calls| && Past(w.calls[i], Made) && !Past(w.calls[i], ServerRts)
    ensures ServerModifyStep(w, i, accept).Some?
    ensures ServerModifyStep(w, i, accept).value.down <==> !accept
  {
    ReachableInv(w);
    assert ServerSide(w, w.calls[i]);
  }

  lemma ClientStartsExactly(w: World, c: nat)
    requires Inv(w) && c < |w.clients|
    ensures w.clients[c].qp.state == Reset <==> !HasConnectingCall(w, c)
  {
    if HasConnectingCall(w, c) {
      var k :| 0 <= k < |w.calls| && w.calls[k].client == c && Past(w.calls[k], ClientInit);
      assert ClientSide(w, w.calls[k]);
    }
  }

  /** Only the first of a client's three assertions can fail. */
  lemma NextRungExactly(w: World, i: nat)
    requires ClientInv(w) && i < |w.calls| && w.calls[i].client < |w.clients|
    requires Past(w.calls[i], Answered) && !Past(w.calls[i], Connected)
    ensures var q := w.clients[w.calls[i].client].qp;
            NextRung(q, w.calls[i]).0.None? <==> w.calls[i].stage == Answered && q.state != Reset
  {
    assert ClientSide(w, w.calls[i]);
  }

  /**
   A live client that has its answer can always make its next modify call, and panics exactly when the device refuses
   it or, as the client starts, another call has taken the queue pair out of RESET.
   */
  lemma ClientPanicsExactly(w: World, i: nat, accept: bool)
    requires Reachable(w) && i < |w.calls| && w.calls[i].client < |w.clients| && !w.clients[w.calls[i].client].dead
    requires Past(w.calls[i], Answered) && !Past(w.calls[i], Connected)
    ensures ClientModifyStep(w, i, accept).Some?
    ensures ClientModifyStep(w, i, accept).value.clients[w.calls[i].client].dead
            <==> !accept || (w.calls[i].stage == Answered && HasConnectingCall(w, w.calls[i].client))
  {
    ReachableInv(w);
    assert ClientModifyStep(w, i, accept).Some?;
    ClientModifyIsNextRung(w, i, accept);
    NextRungExactly(w, i);
    ClientStartsExactly(w, w.calls[i].client);
  }

  // ---------- the handshake goes through ----------

  lemma {:induction false} RunConcat(w: World, a: seq<Step>, b: seq<Step>)
    requires Run(w, a).Some?
    ensures Run(w, a + b) == Run(Run(w, a).value, b)
    decreases |a|
  {
    if a == [] {
      assert a + b == b;
    } else {
      assert (a + b)[1..] == a[1..] + b;
      RunConcat(Do(w, a[0]).value, a[1..], b);
    }
  }

  function ThreeModifies(step: Step): seq<Step> {
    [step, step, step]
  }

  /** A whole handshake, run without interruption. */
  function FullHandshake(c: nat, i: nat, qpn: nat): seq<Step> {
    [Ask(c), Make(i, qpn)] + ThreeModifies(ServerModify(i, true)) + [HandOver(i), Answer(i)]
    + ThreeModifies(ClientModify(i, true))
  }

  function Connect(q: Qp, remote: Info): Qp {
    q.(state := Rts, port := Some(1), dest := Some(remote.addr), rqPsn := Some(remote.psn), sqPsn := Some(INIT_PSN))
  }

  lemma RunTwo(w: World, a: Step, v: World, b: Step)
    requires Do(w, a) == Some(v) && Do(v, b).Some?
    ensures Run(w, [a, b]) == Do(v, b)
  {
    assert [a, b][1..] == [b];
    assert Run(v, [b]) == Run(Do(v, b).value, [b][1..]);
  }

  lemma RunThree(w: World, a: Step, v: World, b: Step, u: World, c: Step)
    requires Do(w, a) == Some(v) && Do(v, b) == Some(u) && Do(u, c).Some?
    ensures Run(w, [a, b, c]) == Do(u, c)
  {
    assert [a, b, c][1..] == [b, c];
    RunTwo(v, b, u, c);
  }

  function Request(w: World, c: nat): Call
    requires c < |w.clients|
  {
    var info := InfoOf(w.clients[c].gid, w.clients[c].lid, w.clients[c].qp);
    Call(c, info, Asked, 0, info)
  }

  /** `w` with one more call and one more server queue pair. */
  function Serving(w: World, call: Call, q: Qp): World {
    w.(servers := w.servers + [ServerQp(q, false)], calls := w.calls + [call])
  }

  lemma ServingModifies(w: World, call: Call, q: Qp, up: Qp, next: Stage)
    requires call.server == |w.servers| && !w.down
    requires match call.stage
             case Made => Some(up) == ToInit(q, 1, 0) && next == ServerInit
             case ServerInit => Some(up) == ToRtr(q, call.asked.addr, call.asked.psn) && next == ServerRtr
             case ServerRtr => Some(up) == ToRts(q, INIT_PSN) && next == ServerRts
             case _ => false
    ensures Do(Serving(w, call, q), ServerModify(|w.calls|, true)) == Some(Serving(w, call.(stage := next), up))
  {
    assert (w.servers + [ServerQp(q, false)])[|w.servers| := ServerQp(up, false)] == w.servers + [ServerQp(up, false)];
    assert (w.calls + [call])[|w.calls| := call.(stage := next)] == w.calls + [call.(stage := next)];
  }

  lemma ServingAnswers(w: World, call: Call, q: Qp)
    requires call.server == |w.servers| && call.stage == ServerRts && !w.down
    ensures var handed := call.(stage := Handed);
            && Do(Serving(w, call, q), HandOver(|w.calls|)) == Some(Serving(w, handed, q))
            && Do(Serving(w, handed, q), Answer(|w.calls|))
               == Some(Serving(w, call.(stage := Answered, answer := InfoOf(w.gid, w.lid, q)), q))
  {
    var handed := call.(stage := Handed);
    var answered := call.(stage := Answered, answer := InfoOf(w.gid, w.lid, q));
    assert (w.calls + [call])[|w.calls| := handed] == w.calls + [handed];
    assert (w.calls + [handed])[|w.calls| := answered] == w.calls + [answered];
  }

  lemma ServingStarts(w: World, c: nat, qpn: nat)
    requires c < |w.clients| && !w.clients[c].dead && !w.down && QpnFree(w, qpn)
    ensures Run(w, [Ask(c), Make(|w.calls|, qpn)])
         == Some(Serving(w, Request(w, c).(stage := Made, server := |w.servers|), Fresh(RC, qpn)))
  {
    var asked := Request(w, c);
    var w1 := w.(calls := w.calls + [asked]);
    var made := asked.(stage := Made, server := |w.servers|);
    assert (w.calls + [asked])[|w.calls| := made] == w.calls + [made];
    RunTwo(w, Ask(c), w1, Make(|w.calls|, qpn));
  }

  lemma ServingConnects(w: World, made: Call, qpn: nat)
    requires made.server == |w.servers| && made.stage == Made && !w.down
    ensures Run(Serving(w, made, Fresh(RC, qpn)), ThreeModifies(ServerModify(|w.calls|, true)))
         == Some(Serving(w, made.(stage := ServerRts), Connect(Fresh(RC, qpn), made.asked)))
  {
    var step := ServerModify(|w.calls|, true);
    var q0 := Fresh(RC, qpn);
    var q1 := ToInit(q0, 1, 0).value;
    var q2 := ToRtr(q1, made.asked.addr, made.asked.psn).value;
    var q3 := ToRts(q2, INIT_PSN).value;
    ServingModifies(w, made, q0, q1, ServerInit);
    ServingModifies(w, made.(stage := ServerInit), q1, q2, ServerRtr);
    ServingModifies(w, made.(stage := ServerRtr), q2, q3, ServerRts);
    RunThree(Serving(w, made, q0), step, Serving(w, made.(stage := ServerInit), q1), step,
             Serving(w, made.(stage := ServerRtr), q2), step);
  }

  /** The call after the server's part, and the server's queue pair. */
  function Answering(w: World, c: nat, qpn: nat): Call
    requires c < |w.clients|
  {
    Request(w, c).(stage := Answered, server := |w.servers|, answer := InfoOf(w.gid, w.lid, Fresh(RC, qpn)))
  }

  function Served(w: World, c: nat, qpn: nat): World
    requires c < |w.clients|
  {
    Serving(w, Answering(w, c, qpn), Connect(Fresh(RC, qpn), Request(w, c).asked))
  }

  /** `w` with client `c`'s queue pair and call `i`'s stage replaced. */
  function Connecting(w: World, c: nat, i: nat, q: Qp, stage: Stage): World
    requires c < |w.clients| && i < |w.calls|
  {
    w.(clients := w.clients[c := w.clients[c].(qp := q)], calls := w.calls[i := w.calls[i].(stage := stage)])
  }

  lemma ConnectingModifies(w: World, c: nat, i: nat, q: Qp, stage: Stage, up: Qp, next: Stage)
    requires i < |w.calls| && w.calls[i].client == c < |w.clients| && !w.clients[c].dead
    requires match stage
             case Answered => Some(up) == ToInit(q, 1, 0) && next == ClientInit
             case ClientInit => Some(up) == ToRtr(q, w.calls[i].answer.addr, w.calls[i].answer.psn) && next == ClientRtr
             case ClientRtr => Some(up) == ToRts(q, INIT_PSN) && next == Connected
             case _ => false
    ensures Do(Connecting(w, c, i, q, stage), ClientModify(i, true)) == Some(Connecting(w, c, i, up, next))
  {
    var v := Connecting(w, c, i, q, stage);
    assert v.clients[c := v.clients[c].(qp := up)] == w.clients[c := w.clients[c].(qp := up)];
    assert v.calls[i := v.calls[i].(stage := next)] == w.calls[i := w.calls[i].(stage := next)];
  }

  lemma ClientConnects(w: World, c: nat, i: nat)
    requires i < |w.calls| && w.calls[i].client == c < |w.clients| && w.calls[i].stage == Answered
    requires !w.clients[c].dead && w.clients[c].qp.state == Reset && w.clients[c].qp.kind.RC?
    ensures Run(w, ThreeModifies(ClientModify(i, true)))
         == Some(Connecting(w, c, i, Connect(w.clients[c].qp, w.calls[i].answer), Connected))
  {
    var step, answer := ClientModify(i, true), w.calls[i].answer;
    var q0 := w.clients[c].qp;
    var q1 := ToInit(q0, 1, 0).value;
    var q2 := ToRtr(q1, answer.addr, answer.psn).value;
    var q3 := ToRts(q2, INIT_PSN).value;
    assert Connecting(w, c, i, q0, Answered) == w;
    ConnectingModifies(w, c, i, q0, Answered, q1, ClientInit);
    ConnectingModifies(w, c, i, q1, ClientInit, q2, ClientRtr);
    ConnectingModifies(w, c, i, q2, ClientRtr, q3, Connected);
    RunThree(w, step, Connecting(w, c, i, q1, ClientInit), step, Connecting(w, c, i, q2, ClientRtr), step);
  }

  /** The world in which client `c` is connected to a new server queue pair, and nothing else has changed. */
  function WithConnection(w: World, c: nat, qpn: nat): World
    requires c < |w.clients|
  {
    var call := Answering(w, c, qpn);
    w.(clients := w.clients[c := w.clients[c].(qp := Connect(w.clients[c].qp, call.answer))],
       servers := w.servers + [ServerQp(Connect(Fresh(RC, qpn), call.asked), false)],
       calls := w.calls + [call.(stage := Connected)])
  }

  /** From any state with both sides up, whatever else is in flight, a client in RESET can be connected. */
  lemma HandshakeGoesThrough(w: World, c: nat, qpn: nat)
    requires c < |w.clients| && !w.clients[c].dead && !w.down && QpnFree(w, qpn)
    requires w.clients[c].qp.state == Reset && w.clients[c].qp.kind.RC?
    ensures Run(w, FullHandshake(c, |w.calls|, qpn)) == Some(WithConnection(w, c, qpn))
  {
    var i := |w.calls|;
    var made := Request(w, c).(stage := Made, server := |w.servers|);
    var start, handing := [Ask(c), Make(i, qpn)], [HandOver(i), Answer(i)];
    var modifies3 := ThreeModifies(ServerModify(i, true));
    var q := Connect(Fresh(RC, qpn), made.asked);
    var rts := made.(stage := ServerRts);
    ServingStarts(w, c, qpn);
    ServingConnects(w, made, qpn);
    RunConcat(w, start, modifies3);
    ServingAnswers(w, rts, q);
    RunTwo(Serving(w, rts, q), HandOver(i), Serving(w, made.(stage := Handed), q), Answer(i));
    RunConcat(w, start + modifies3, handing);
    ClientConnects(Served(w, c, qpn), c, i);
    RunConcat(w, start + modifies3 + handing, ThreeModifies(ClientModify(i, true)));
    assert Served(w, c, qpn).calls[i := Answering(w, c, qpn).(stage := Connected)] == WithConnection(w, c, qpn).calls;
  }

  lemma ReachableRun(w: World, steps: seq<Step>)
    requires Reachable(w) && Run(w, steps).Some?
    ensures Reachable(Run(w, steps).value)
  {
    var init, before :| IsInitial(init) && Run(init, before) == Some(w);
    RunConcat(init, before, steps);
  }

  /** A client in RESET that can be connected while another one, through call `i`, already is. */
  predicate CanFollow(w: World, i: nat, c: nat) {
    && i < |w.calls| && w.calls[i].stage == Connected && !w.down
    && c < |w.clients| && !w.clients[c].dead && w.clients[c].qp.state == Reset
  }

  /** The number of the server queue pair that call `i` has connected its client to. */
  function NumberOf(w: World, i: nat): Option<nat> {
    if i < |w.calls| && w.calls[i].server < |w.servers| then Some(w.servers[w.calls[i].server].qp.qpn) else None
  }

  /** Whoever connects next gets the destination of a connected client exactly when it is given the same number. */
  lemma FollowerSharesExactly(w: World, i: nat, c: nat, qpn: nat)
    requires Reachable(w) && CanFollow(w, i, c) && QpnFree(w, qpn)
    ensures Run(w, FullHandshake(c, |w.calls|, qpn)) == Some(WithConnection(w, c, qpn))
    ensures var v := WithConnection(w, c, qpn);
            && Reachable(v) && v.clients[c].qp.state == Rts && c != w.calls[i].client
            && (SameDestination(v, c, w.calls[i].client) <==> Some(qpn) == NumberOf(w, i))
  {
    ReachableInv(w);
    ConnectedIsPaired(w, i);
    HandshakeGoesThrough(w, c, qpn);
    ReachableRun(w, FullHandshake(c, |w.calls|, qpn));
  }

  /**
   In every reachable state with a connected client: another client can be connected to the same destination
   exactly when the number of the first one's server queue pair is free, as it is not while that is kept.
   */
  lemma DestinationRepeatsExactly(w: World, i: nat, c: nat)
    requires Reachable(w) && CanFollow(w, i, c)
    ensures NumberOf(w, i).Some?
    ensures (exists qpn: nat :: QpnFree(w, qpn) && SameDestination(WithConnection(w, c, qpn), c, w.calls[i].client))
            <==> QpnFree(w, NumberOf(w, i).value)
    ensures QpnFree(w, NumberOf(w, i).value) ==> w.servers[w.calls[i].server].released
  {
    ReachableInv(w);
    ConnectedIsPaired(w, i);
    forall qpn: nat | QpnFree(w, qpn)
      ensures SameDestination(WithConnection(w, c, qpn), c, w.calls[i].client) <==> Some(qpn) == NumberOf(w, i)
    {
      FollowerSharesExactly(w, i, c, qpn);
    }
  }

  /**
   So destinations can repeat: if the callback does not keep the queue pair it is given, the device can use
   its number again, and two connected clients address the same number.
   */
  lemma SameDestinationWitness(w: World, qpn: nat)
    requires IsInitial(w) && |w.clients| == 2
    ensures exists v ::
              && Reachable(v) && |v.clients| == 2
              && v.clients[0].qp.state == v.clients[1].qp.state == Rts
              && SameDestination(v, 0, 1)
  {
    assert Run(w, []) == Some(w);
    HandshakeGoesThrough(w, 0, qpn);
    ReachableRun(w, FullHandshake(0, 0, qpn));
    var w1 := WithConnection(w, 0, qpn);
    var w2 := DropFirst(w1);
    ReachableRun(w1, [Release(0)]);
    FollowerSharesExactly(w2, 0, 1, qpn);
  }

  lemma DropFirst(w: World) returns (v: World)
    requires |w.calls| == |w.servers| == 1 && w.calls[0].server == 0 && w.calls[0].stage == Connected
    requires !w.servers[0].released
    ensures Run(w, [Release(0)]) == Some(v)
    ensures v == w.(servers := [w.servers[0].(released := true)])
    ensures forall qpn :: QpnFree(v, qpn)
  {
    v := w.(servers := [w.servers[0].(released := true)]);
    assert w.servers[0 := v.servers[0]] == v.servers;
    assert IsHandedOver(w, 0);
    assert Run(w, [Release(0)]) == Run(v, [Release(0)][1..]);
  }
}
