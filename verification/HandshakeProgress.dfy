/**
 Which calls of the handshake can still go through: in every reachable state, for any call, whatever else is in
 flight and however old the call is. The theorems of `Handshake` say what must not happen; these say what can.
 */
module HandshakeProgress {
  import opened Words
  import opened QueuePair
  import opened Handshake

  /**
   Nothing stands in call `i`'s way: its client is alive, its queue pair is unused or taken by this very call, and
   the server is up as long as it has not answered.
   */
  predicate IsOpen(w: World, i: nat) {
    && i < |w.calls| && w.calls[i].client < |w.clients|
    && var c := w.calls[i];
       && !w.clients[c.client].dead
       && (w.clients[c.client].qp.state == Reset || Past(c, ClientInit))
       && (!w.down || Past(c, Answered))
  }

  /** The next step of a call at this stage. */
  function NextStep(stage: Stage, i: nat, qpn: nat): Handshake.Step {
    match stage
    case Asked => Make(i, qpn)
    case Made => ServerModify(i, true)
    case ServerInit => ServerModify(i, true)
    case ServerRtr => ServerModify(i, true)
    case ServerRts => HandOver(i)
    case Handed => Answer(i)
    case _ => ClientModify(i, true)
  }

  /** The steps that bring a call at this stage to its end. */
  function Rest(stage: Stage, i: nat, qpn: nat): seq<Handshake.Step>
    decreases Rank(Connected) - Rank(stage)
  {
    if stage == Connected then [] else [NextStep(stage, i, qpn)] + Rest(After(stage), i, qpn)
  }

  function After(stage: Stage): (next: Stage)
    requires stage != Connected
    ensures Rank(next) == Rank(stage) + 1
  {
    match stage
    case Asked => Made
    case Made => ServerInit
    case ServerInit => ServerRtr
    case ServerRtr => ServerRts
    case ServerRts => Handed
    case Handed => Answered
    case Answered => ClientInit
    case ClientInit => ClientRtr
    case ClientRtr => Connected
  }

  /** What a step that advances call `i` leaves: the call one stage on, with its client and its server queue pair. */
  predicate Advanced(w: World, i: nat, v: World) {
    && i < |w.calls| == |v.calls| && w.calls[i].stage != Connected
    && v.calls[i].stage == After(w.calls[i].stage) && v.calls[i].client == w.calls[i].client
    && (Past(w.calls[i], Made) ==> v.calls[i].server == w.calls[i].server && NumberOf(v, i) == NumberOf(w, i))
  }

  lemma MakeAdvances(w: World, i: nat, qpn: nat)
    requires !w.down && i < |w.calls| && w.calls[i].stage == Asked && QpnFree(w, qpn)
    ensures var v := Do(w, Make(i, qpn));
            && v.Some? && Advanced(w, i, v.value) && NumberOf(v.value, i) == Some(qpn)
            && v.value.clients == w.clients && !v.value.down
  {
  }

  lemma ServerModifyAdvances(w: World, i: nat)
    requires Inv(w) && !w.down && i < |w.calls| && Past(w.calls[i], Made) && !Past(w.calls[i], ServerRts)
    ensures var v := Do(w, ServerModify(i, true));
            v.Some? && Advanced(w, i, v.value) && v.value.clients == w.clients && !v.value.down
  {
    assert ServerSide(w, w.calls[i]);
  }

  lemma AnswerAdvances(w: World, i: nat)
    requires Inv(w) && !w.down && i < |w.calls| && Past(w.calls[i], ServerRts) && !Past(w.calls[i], Answered)
    ensures var v := Do(w, if w.calls[i].stage == ServerRts then HandOver(i) else Answer(i));
            v.Some? && Advanced(w, i, v.value) && v.value.clients == w.clients && !v.value.down
  {
    assert ServerSide(w, w.calls[i]);
  }

  /** The server's part of any call can go on, whatever has become of the client. */
  lemma ServerAdvances(w: World, i: nat, qpn: nat)
    requires Inv(w) && !w.down && i < |w.calls| && !Past(w.calls[i], Answered)
    requires w.calls[i].stage == Asked ==> QpnFree(w, qpn)
    ensures var v := Do(w, NextStep(w.calls[i].stage, i, qpn));
            && v.Some? && Advanced(w, i, v.value) && v.value.clients == w.clients && !v.value.down
            && (w.calls[i].stage == Asked ==> NumberOf(v.value, i) == Some(qpn))
  {
    match w.calls[i].stage {
      case Asked => MakeAdvances(w, i, qpn);
      case ServerRts => AnswerAdvances(w, i);
      case Handed => AnswerAdvances(w, i);
      case _ => ServerModifyAdvances(w, i);
    }
  }

  /** The steps that bring a call at this stage to its answer. */
  function RestOfHandler(stage: Stage, i: nat, qpn: nat): seq<Handshake.Step>
    decreases Rank(Connected) - Rank(stage)
  {
    if Rank(stage) >= Rank(Answered) then [] else [NextStep(stage, i, qpn)] + RestOfHandler(After(stage), i, qpn)
  }

  /**
   Every request is answered: with the server up, any call that has been asked can be brought to its answer, however
   many have been asked since and whether or not its client is still there.
   */
  lemma {:induction false} AnswerGoesThrough(w: World, i: nat, qpn: nat)
    requires Inv(w) && !w.down && i < |w.calls| && (w.calls[i].stage == Asked ==> QpnFree(w, qpn))
    ensures var v := Run(w, RestOfHandler(w.calls[i].stage, i, qpn));
            && v.Some? && i < |v.value.calls| && Past(v.value.calls[i], Answered) && v.value.clients == w.clients
            && NumberOf(v.value, i) == (if w.calls[i].stage == Asked then Some(qpn) else NumberOf(w, i))
    decreases Rank(Connected) - Rank(w.calls[i].stage)
  {
    var stage := w.calls[i].stage;
    if !Past(w.calls[i], Answered) {
      ServerAdvances(w, i, qpn);
      StepKeepsInv(w, NextStep(stage, i, qpn));
      AnswerGoesThrough(Do(w, NextStep(stage, i, qpn)).value, i, qpn);
      assert RestOfHandler(stage, i, qpn)[1..] == RestOfHandler(After(stage), i, qpn);
    }
  }

  lemma ClientAdvances(w: World, i: nat, qpn: nat)
    requires Inv(w) && IsOpen(w, i) && Past(w.calls[i], Answered) && w.calls[i].stage != Connected
    ensures var v := Do(w, NextStep(w.calls[i].stage, i, qpn));
            && v.Some? && Advanced(w, i, v.value) && IsOpen(v.value, i)
  {
    assert ServerSide(w, w.calls[i]) && ClientSide(w, w.calls[i]);
    NextRungExactly(w, i);
  }

  lemma CallAdvances(w: World, i: nat, qpn: nat)
    requires Inv(w) && IsOpen(w, i) && w.calls[i].stage != Connected && (w.calls[i].stage == Asked ==> QpnFree(w, qpn))
    ensures var v := Do(w, NextStep(w.calls[i].stage, i, qpn));
            && v.Some? && Advanced(w, i, v.value) && IsOpen(v.value, i) && Inv(v.value)
            && (w.calls[i].stage == Asked ==> NumberOf(v.value, i) == Some(qpn))
  {
    if Past(w.calls[i], Answered) {
      ClientAdvances(w, i, qpn);
    } else {
      ServerAdvances(w, i, qpn);
    }
    StepKeepsInv(w, NextStep(w.calls[i].stage, i, qpn));
  }

  lemma RunRest(w: World, stage: Stage, i: nat, qpn: nat)
    requires stage != Connected && Do(w, NextStep(stage, i, qpn)).Some?
    ensures Run(w, Rest(stage, i, qpn)) == Run(Do(w, NextStep(stage, i, qpn)).value, Rest(After(stage), i, qpn))
  {
    assert Rest(stage, i, qpn)[1..] == Rest(After(stage), i, qpn);
  }

  /** Call `i` of `v` is call `i` of `w`, brought to its end. */
  predicate EndedAs(w: World, i: nat, qpn: nat, v: World) {
    && i < |w.calls| && i < |v.calls|
    && v.calls[i].stage == Connected && v.calls[i].client == w.calls[i].client
    && NumberOf(v, i) == if w.calls[i].stage == Asked then Some(qpn) else NumberOf(w, i)
  }

  lemma EndedAsBefore(w: World, i: nat, qpn: nat, v: World, u: World)
    requires Advanced(w, i, v) && (w.calls[i].stage == Asked ==> NumberOf(v, i) == Some(qpn)) && EndedAs(v, i, qpn, u)
    ensures EndedAs(w, i, qpn, u)
  {
  }

  lemma {:induction false} RestConnects(w: World, i: nat, qpn: nat)
    requires Inv(w) && IsOpen(w, i) && (w.calls[i].stage == Asked ==> QpnFree(w, qpn))
    ensures var v := Run(w, Rest(w.calls[i].stage, i, qpn)); v.Some? && Inv(v.value) && EndedAs(w, i, qpn, v.value)
    decreases Rank(Connected) - Rank(w.calls[i].stage)
  {
    var stage := w.calls[i].stage;
    if stage != Connected {
      CallAdvances(w, i, qpn);
      var v := Do(w, NextStep(stage, i, qpn)).value;
      RestConnects(v, i, qpn);
      RunRest(w, stage, i, qpn);
      EndedAsBefore(w, i, qpn, v, Run(v, Rest(After(stage), i, qpn)).value);
    }
  }

  /**
   Progress of any call: from every reachable state, a call that is open, at any stage and however many calls have
   been made since, can be brought to its end; its client is then paired with the queue pair made for it, on
   whatever free number the device gives it.
   */
  lemma CallGoesThrough(w: World, i: nat, qpn: nat)
    requires Reachable(w) && i < |w.calls| && w.calls[i].client < |w.clients|
    requires var c := w.calls[i]; var client := w.clients[c.client];
             && !client.dead && (client.qp.state == Reset || Past(c, ClientInit))
             && (w.down ==> Past(c, Answered)) && (c.stage == Asked ==> QpnFree(w, qpn))
    ensures var v := Run(w, Rest(w.calls[i].stage, i, qpn));
            && v.Some? && Reachable(v.value) && i < |v.value.calls|
            && v.value.calls[i].stage == Connected
            && Paired(v.value, w.calls[i].client, v.value.calls[i].server)
            && (w.calls[i].stage == Asked ==> v.value.servers[v.value.calls[i].server].qp.qpn == qpn)
  {
    ReachableInv(w);
    RestConnects(w, i, qpn);
    ReachableRun(w, Rest(w.calls[i].stage, i, qpn));
    ConnectedIsPaired(Run(w, Rest(w.calls[i].stage, i, qpn)).value, i);
  }

  // ---------- and no other call can ----------

  lemma {:induction false} FreeNumberFrom(w: World, k: nat) returns (n: nat)
    requires k <= |w.servers|
    ensures forall h :: 0 <= h < k ==> w.servers[h].qp.qpn < n
  {
    n := 0;
    if k > 0 {
      var m := FreeNumberFrom(w, k - 1);
      n := m + w.servers[k - 1].qp.qpn + 1;
    }
  }

  lemma AlwaysAFreeNumber(w: World) returns (n: nat)
    ensures QpnFree(w, n)
  {
    n := FreeNumberFrom(w, |w.servers|);
    forall s | s in w.servers ensures s.qp.qpn != n {
      var h :| 0 <= h < |w.servers| && w.servers[h] == s;
    }
  }

  /** A call that has not ended and whose way is barred. */
  predicate IsClosed(w: World, i: nat) {
    i < |w.calls| && w.calls[i].stage != Connected && !IsOpen(w, i)
  }

  /** A step that frees no client, revives nobody and does not advance the call of a server that is down. */
  lemma MonotoneKeepsClosed(w: World, i: nat, v: World)
    requires IsClosed(w, i) && |w.calls| <= |v.calls| && |v.clients| == |w.clients| && (w.down ==> v.down)
    requires var c := w.calls[i].client;
             c < |w.clients| ==>
               && (w.clients[c].dead ==> v.clients[c].dead)
               && (w.clients[c].qp.state != Reset ==> v.clients[c].qp.state != Reset)
    requires v.calls[i].client == w.calls[i].client
    requires v.calls[i].stage == w.calls[i].stage || (!w.down && !Past(v.calls[i], ClientInit))
    ensures IsClosed(v, i)
  {
  }

  lemma ServerKeepsClosed(w: World, i: nat, step: Handshake.Step)
    requires IsClosed(w, i) && !step.ClientModify? && Do(w, step).Some?
    ensures IsClosed(Do(w, step).value, i)
  {
    MonotoneKeepsClosed(w, i, Do(w, step).value);
  }

  lemma ClientKeepsClosed(w: World, i: nat, j: nat, accept: bool)
    requires Inv(w) && IsClosed(w, i) && ClientModifyStep(w, j, accept).Some?
    ensures IsClosed(ClientModifyStep(w, j, accept).value, i)
  {
    var v := ClientModifyStep(w, j, accept).value;
    var (up, stage) := NextRung(w.clients[w.calls[j].client].qp, w.calls[j]);
    ClientModifyIsNextRung(w, j, accept);
    NextRungExactly(w, j);
    if up.Some? && accept {
      MonotoneKeepsClosed(w, i, v);
    }
  }

  lemma {:induction false} ClosedStays(w: World, i: nat, steps: seq<Handshake.Step>)
    requires Inv(w) && IsClosed(w, i) && Run(w, steps).Some?
    ensures IsClosed(Run(w, steps).value, i)
    decreases |steps|
  {
    if steps != [] {
      StepKeepsInv(w, steps[0]);
      match steps[0] {
        case ClientModify(j, accept) => ClientKeepsClosed(w, i, j, accept);
        case _ => ServerKeepsClosed(w, i, steps[0]);
      }
      ClosedStays(Do(w, steps[0]).value, i, steps[1..]);
    }
  }

  /**
   Exactly which calls can still connect, in every reachable state: those whose client is alive, with a queue pair
   that is in RESET or taken by this very call, while the server is up or has answered. All others never will,
   whatever anybody does.
   */
  lemma CallCanConnectExactly(w: World, i: nat)
    requires Reachable(w) && i < |w.calls| && w.calls[i].stage != Connected && w.calls[i].client < |w.clients|
    ensures (exists steps ::
               var v := Run(w, steps); v.Some? && i < |v.value.calls| && v.value.calls[i].stage == Connected)
            <==> var c := w.calls[i]; var client := w.clients[c.client];
                 && !client.dead && (client.qp.state == Reset || Past(c, ClientInit))
                 && (w.down ==> Past(c, Answered))
  {
    ReachableInv(w);
    if IsOpen(w, i) {
      var qpn := AlwaysAFreeNumber(w);
      RestConnects(w, i, qpn);
    } else {
      forall steps | Run(w, steps).Some? ensures IsClosed(Run(w, steps).value, i) {
        ClosedStays(w, i, steps);
      }
    }
  }

  // ---------- what can be asked for, and what given up ----------

  /** Any live client can ask at any time, and asks with its own address, whatever it has asked before. */
  lemma AskExactly(w: World, c: nat)
    ensures Do(w, Ask(c)).Some? <==> c < |w.clients| && !w.clients[c].dead
    ensures Do(w, Ask(c)).Some? ==>
              var v := Do(w, Ask(c)).value; var call := v.calls[|w.calls|]; var client := w.clients[c];
              && |v.calls| == |w.calls| + 1 && v.calls[..|w.calls|] == w.calls && v.clients == w.clients
              && call.client == c && call.stage == Asked
              && call.asked.addr == Address(client.gid, client.lid, client.qp.qpn) && call.asked.psn == 3000
  {
  }

  lemma ServersDiffer(w: World, i: nat, j: nat)
    requires ServerInv(w) && i < |w.calls| && j < |w.calls| && Past(w.calls[i], Made) && Past(w.calls[j], Made)
    ensures w.calls[i].server == w.calls[j].server ==> i == j
  {
  }

  lemma HandedOverByOwnCall(w: World, i: nat)
    requires ServerInv(w) && i < |w.calls| && Past(w.calls[i], Made)
    ensures IsHandedOver(w, w.calls[i].server) <==> Past(w.calls[i], Handed)
  {
    if IsHandedOver(w, w.calls[i].server) {
      var j :| 0 <= j < |w.calls| && w.calls[j].server == w.calls[i].server && Past(w.calls[j], Handed);
      assert Past(w.calls[j], Handed);
      assert Past(w.calls[j], Made);
      ServersDiffer(w, i, j);
    }
  }

  /** A call's server queue pair can be given up exactly from the moment the callback has it, or with the server. */
  lemma ReleaseExactly(w: World, i: nat)
    requires Reachable(w) && i < |w.calls| && Past(w.calls[i], Made)
    ensures Do(w, Release(w.calls[i].server)).Some?
            <==> && w.calls[i].server < |w.servers| && !w.servers[w.calls[i].server].released
                 && (w.down || Past(w.calls[i], Handed))
  {
    ReachableInv(w);
    HandedOverByOwnCall(w, i);
  }
}
