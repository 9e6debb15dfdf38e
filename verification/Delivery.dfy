/**
 From setters to completions: what the send log holds after any histories of setter calls on any
 verbs, and what polling then returns. This spans the builder, the posting and the polling loops.
 */
module Delivery {
  import opened Words
  import opened VerbModel
  import VerbHistory
  import opened LastWrites
  import opened QueuePair
  import opened SendPath
  import C = Completions
  import Q = CompletionQueue

  /** Some history of calls on a new verb leads to this state. */
  ghost predicate ReachableVerb(repaired: bool, s: State) {
    exists init, ops :: IsNew(init) && VerbModel.Run(repaired, init, ops) == Some(s)
  }

  lemma ReachableVerbInv(repaired: bool, s: State)
    requires ReachableVerb(repaired, s)
    ensures Inv(s) && (repaired ==> RepairedInv(s))
  {
    var init, ops :| IsNew(init) && VerbModel.Run(repaired, init, ops) == Some(s);
    NewVerbInv(init);
    RunKeepsInv(repaired, init, ops);
    if repaired {
      RunKeepsRepairedInv(init, ops);
    }
  }

  // ---------- the log and the source fields ----------

  /** The log a device without any caching library would see: each request built from the source fields. */
  predicate IsFreshLog(ss: seq<State>, log: seq<Posted>) {
    |log| == |ss| && forall i :: 0 <= i < |ss| ==> Build(ss[i].src) == Returned(log[i])
  }

  /**
   As written, whatever was called on the verbs before, posting them (one by one, or as a range in the
   intended form) logs the requests their source fields describe iff the cache guard holds of each verb.
   */
  lemma WrittenLogIsFreshExactly(t: QpType, takes: Device, ss: seq<State>, log: seq<Posted>)
    requires forall s <- ss :: ReachableVerb(false, s)
    requires PostEach(t, takes, [], ss) == Posting(true, log)
    ensures IsFreshLog(ss, log) <==> forall s <- ss :: VerbHistory.CacheCurrent(s)
  {
    PostedEach(t, takes, [], ss);
    assert log == Requests(ss);
    forall i | 0 <= i < |ss| ensures Build(ss[i].src) == Returned(log[i]) <==> VerbHistory.CacheCurrent(ss[i]) {
      assert ss[i] in ss;
      ReachableVerbInv(false, ss[i]);
      VerbHistory.FetchIsFreshExactly(ss[i]);
    }
    if forall s <- ss :: VerbHistory.CacheCurrent(s) {
      assert forall i :: 0 <= i < |ss| ==> ss[i] in ss;
    }
  }

  /** Repaired, the log always holds the requests the source fields describe. */
  lemma RepairedLogIsFresh(t: QpType, takes: Device, ss: seq<State>, log: seq<Posted>)
    requires forall s <- ss :: ReachableVerb(true, s)
    requires PostEach(t, takes, [], ss) == Posting(true, log)
    ensures IsFreshLog(ss, log)
  {
    PostedEach(t, takes, [], ss);
    assert log == Requests(ss);
    forall i | 0 <= i < |ss| ensures Build(ss[i].src) == Returned(log[i]) {
      assert ss[i] in ss;
      ReachableVerbInv(true, ss[i]);
      VerbHistory.FetchIsFresh(ss[i]);
    }
  }

  // ---------- signalled completions ----------

  /** Out of date as its list may be, a request always carries the verb's id, and the signal flag its notification. */
  lemma FlagAndIdReachTheRequest(s: State)
    requires Inv(s) && s.src.kind.SendWr? && Fetch(s).Returned?
    ensures Fetch(s).posted.fields.signaled == s.src.notified
    ensures Fetch(s).posted.fields.wrId == s.src.wrId
  {
  }

  /** How the device completes a request: one successful entry with the request's id. */
  ghost predicate Faithful(completion: Posted -> C.Wc) {
    forall p :: completion(p).success && completion(p).wrId == p.fields.wrId
  }

  /** The completions of a log: one for each request that carries the signalled flag, in order. */
  function Signalled(completion: Posted -> C.Wc, log: seq<Posted>): seq<C.Wc> {
    if log == [] then []
    else (if log[0].fields.signaled then [completion(log[0])] else []) + Signalled(completion, log[1..])
  }

  /** The ids of the verbs that asked to be notified, in order. */
  function NotifiedIds(ss: seq<State>): seq<Word> {
    if ss == [] then []
    else (if ss[0].src.notified then [ss[0].src.wrId] else []) + NotifiedIds(ss[1..])
  }

  lemma {:induction false} SignalledAreNotified(completion: Posted -> C.Wc, ss: seq<State>)
    requires Faithful(completion)
    requires forall s <- ss :: Inv(s) && s.src.kind.SendWr? && Fetch(s).Returned?
    ensures var ws := Signalled(completion, Requests(ss)); var ids := NotifiedIds(ss);
            && |ws| == |ids|
            && forall i :: 0 <= i < |ids| ==> ws[i].success && ws[i].wrId == ids[i]
    decreases |ss|
  {
    if ss != [] {
      FlagAndIdReachTheRequest(ss[0]);
      SignalledAreNotified(completion, ss[1..]);
      assert Requests(ss)[1..] == Requests(ss[1..]);
    }
  }

  /**
   Post any verbs one by one, whatever was called on them before; then a blocking poll for as many
   completions as there were notified verbs, on any device that reports no error, drains the queue
   exactly, and what it consumes are the good completions of the notified verbs, in posting order.
   `before` are completions already consumed.
   */
  lemma NotifiedPostsDrainExactly(
    t: QpType, takes: Device, ss: seq<State>, log: seq<Posted>, completion: Posted -> C.Wc, before: seq<C.Wc>,
    withWc: bool, d: C.Device, start: nat, end: C.LoopEnd)
    requires forall s <- ss :: ReachableVerb(false, s) && s.src.kind.SendWr?
    requires PostEach(t, takes, [], ss) == Posting(true, log) && Faithful(completion)
    requires var all := before + Signalled(completion, log);
             && C.RunsTo(C.Poll(withWc), d, start, |NotifiedIds(ss)|, all, |before|, end)
             && C.Errors(d, start, end.polls) == 0
    ensures var all := before + Signalled(completion, log); var ids := NotifiedIds(ss);
            && end.ending == C.Stopped && end.head == |all| == |before| + |ids|
            && forall i :: 0 <= i < |ids| ==> all[|before| + i].success && all[|before| + i].wrId == ids[i]
  {
    forall s | s in ss ensures Inv(s) {
      ReachableVerbInv(false, s);
    }
    PostedEach(t, takes, [], ss);
    SignalledAreNotified(completion, ss);
    assert [] + Requests(ss) == Requests(ss);
    var ids := NotifiedIds(ss);
    var all := before + Signalled(completion, log);
    C.BlockingTakesExactly(withWc, d, start, |ids|, all, |before|, end);
  }

  /**
   The same on the queue object: `poll_with_wc` for as many as were notified. If the device has reported no error it
   returns, and its vector has one entry for each notified verb, in posting order, with the verb's id and
   the operation, length and immediate value of the completion.
   */
  method PollNotified(
    cq: Q.Cq, ghost w: C.Patience, t: QpType, takes: Device, ss: seq<State>, log: seq<Posted>,
    completion: Posted -> C.Wc, before: seq<C.Wc>)
    returns (result: Q.Result)
    requires forall s <- ss :: ReachableVerb(false, s) && s.src.kind.SendWr?
    requires PostEach(t, takes, [], ss) == Posting(true, log) && Faithful(completion)
    requires cq.all == before + Signalled(completion, log) && cq.head == |before|
    requires C.Patient(cq.device, w) && C.Enough(cq.device, w, cq.polls, |NotifiedIds(ss)|, cq.all, cq.head)
    modifies cq`head, cq`polls
    ensures C.Errors(cq.device, old(cq.polls), cq.polls) == 0 ==>
              var ids := NotifiedIds(ss);
              && result.Done? && |result.cqes| == |ids| && cq.head == |cq.all| == |before| + |ids|
              && forall i :: 0 <= i < |ids| ==>
                   var c, done := result.cqes[i], cq.all[|before| + i];
                   && c.wrId == ids[i]
                   && c.op == done.op && c.length == done.byteLen && c.immData == done.immData
  {
    ghost var start := cq.polls;
    ghost var tot;
    result, tot := cq.PollWithWc(|NotifiedIds(ss)|, w);
    if C.Errors(cq.device, start, cq.polls) == 0 {
      ghost var end := C.LoopEnd(Q.EndingOf(result), tot, cq.polls, cq.head);
      NotifiedPostsDrainExactly(t, takes, ss, log, completion, before, true, cq.device, start, end);
    }
  }

  // ---------- what may be posted where ----------

  /**
   Which send verbs go through on which queue pairs, after any history of calls. Every slice has to fit in 32 bits.
   Two-sided sends go through on RC, UD and raw packet; all others on RC alone, with a remote; an atomic has
   to have one aligned word when its request is to be rebuilt. On UC nothing goes through.
   */
  lemma SendPostableExactly(t: QpType, s: State)
    requires ReachableVerb(false, s) && s.src.kind.SendWr?
    ensures Postable(t, s)
            <==> && s.src.opcode.Some? && (forall e <- s.src.sgl :: e.size <= 0xFFFF_FFFF)
                 && match s.src.opcode.value
                    case Send => t.RC? || t.UD? || t.RawPacket?
                    case SendImm => t.RC? || t.UD? || t.RawPacket?
                    case Read => t.RC? && s.src.remote.Some?
                    case Write => t.RC? && s.src.remote.Some?
                    case WriteImm => t.RC? && s.src.remote.Some?
                    case Cas => t.RC? && s.src.remote.Some? && (s.builtWr || IsOneWord(s.src.sgl))
                    case Faa => t.RC? && s.src.remote.Some? && (s.builtWr || IsOneWord(s.src.sgl))
                    case MaskedCas => t.RC? && s.src.remote.Some? && (s.builtWr || IsOneWord(s.src.sgl))
                    case MaskedFaa => t.RC? && s.src.remote.Some? && (s.builtWr || IsOneWord(s.src.sgl))
                    case Unsupported(_) => false
  {
    ReachableVerbInv(false, s);
    GetWrReturnsExactly(s);
  }

  /** A receive goes through on every queue pair, as long as every slice fits. */
  lemma RecvPostableExactly(t: QpType, s: State)
    requires ReachableVerb(false, s) && s.src.kind.RecvWr?
    ensures Postable(t, s) <==> forall e <- s.src.sgl :: e.size <= 0xFFFF_FFFF
  {
    ReachableVerbInv(false, s);
    GetWrReturnsExactly(s);
  }

  /**
   A verb with a history of calls, posted: if it is logged, the log has in each field what the last call that
   writes it said, and the slices given, in order, when the cache was current.
   */
  lemma LoggedIsLastWritten(t: QpType, takes: Device, init: State, ops: seq<Op>, log: seq<Posted>)
    requires IsNew(init) && VerbModel.Run(false, init, ops).Some?
    requires PostEach(t, takes, log, [VerbModel.Run(false, init, ops).value]).returned
    ensures var s := VerbModel.Run(false, init, ops).value;
            var now := PostEach(t, takes, log, [s]).log;
            && |now| == |log| + 1 && now[..|log|] == log
            && FieldsFollow(init.src.kind, init.src.wrId, ops, now[|log|].fields)
            && (VerbHistory.CacheCurrent(s) ==> now[|log|].Request? && SgesFollow(ops, now[|log|].sges))
  {
    var s := VerbModel.Run(false, init, ops).value;
    PostedEach(t, takes, log, [s]);
    assert s in [s];
    RequestIsLastWritten(false, init, ops);
  }

  lemma OneSidedPostedOnRc(t: QpType, s: State)
    requires Inv(s) && s.src.kind.SendWr? && Postable(t, s) && !Fetch(s).posted.fields.target.NoTarget?
    ensures t.RC? && s.src.remote.Some?
    ensures var target, remote := Fetch(s).posted.fields.target, s.src.remote.value;
            target.remoteAddr == remote.addr && target.rkey == remote.rkey
  {
  }

  /** Every request on the log with a remote target is on an RC queue pair, and the target is the verb's. */
  lemma OneSidedOnlyOnRc(t: QpType, takes: Device, ss: seq<State>, log: seq<Posted>, i: nat)
    requires forall s <- ss :: ReachableVerb(false, s) && s.src.kind.SendWr?
    requires PostEach(t, takes, [], ss) == Posting(true, log) && i < |log| && !log[i].fields.target.NoTarget?
    ensures t.RC? && i < |ss| && ss[i].src.remote.Some?
    ensures var target, remote := log[i].fields.target, ss[i].src.remote.value;
            target.remoteAddr == remote.addr && target.rkey == remote.rkey
  {
    PostedEach(t, takes, [], ss);
    assert log == Requests(ss);
    var s := ss[i];
    assert s in ss;
    ReachableVerbInv(false, s);
    OneSidedPostedOnRc(t, s);
  }

  // ---------- atomics on the log ----------

  lemma PostedAtomicIsOnRc(t: QpType, s: State)
    requires Inv(s) && s.src.kind.SendWr? && Postable(t, s) && VerbHistory.HasAtomicOpcode(Fetch(s).posted)
    ensures t.RC?
  {
  }

  lemma RepairedPostedAtomic(t: QpType, s: State)
    requires ReachableVerb(true, s) && s.src.kind.SendWr? && Postable(t, s)
    requires VerbHistory.HasAtomicOpcode(Fetch(s).posted)
    ensures t.RC? && VerbHistory.AtomicWellFormed(Fetch(s).posted)
  {
    ReachableVerbInv(true, s);
    PostedAtomicIsOnRc(t, s);
    VerbHistory.AtomicFetchExactly(s);
    CapableExactly(s.src);
  }

  /** Repaired, every atomic on the log is on an RC queue pair, has a remote target and one aligned 8-byte entry. */
  lemma RepairedLogAtomics(t: QpType, takes: Device, ss: seq<State>, log: seq<Posted>, i: nat)
    requires forall s <- ss :: ReachableVerb(true, s) && s.src.kind.SendWr?
    requires PostEach(t, takes, [], ss) == Posting(true, log) && i < |log| && VerbHistory.HasAtomicOpcode(log[i])
    ensures t.RC? && VerbHistory.AtomicWellFormed(log[i])
  {
    PostedEach(t, takes, [], ss);
    assert log == Requests(ss);
    assert ss[i] in ss;
    RepairedPostedAtomic(t, ss[i]);
  }

  /**
   As written, an atomic on the log is still on an RC queue pair; it is well formed exactly when its
   verb's first entry is one aligned word, and its list was not reallocated since the request was built.
   */
  lemma WrittenLogAtomicsExactly(t: QpType, takes: Device, ss: seq<State>, log: seq<Posted>, i: nat)
    requires forall s <- ss :: ReachableVerb(false, s) && s.src.kind.SendWr?
    requires PostEach(t, takes, [], ss) == Posting(true, log) && i < |log| && VerbHistory.HasAtomicOpcode(log[i])
    ensures t.RC? && i < |ss| && ss[i].src.sgl != []
    ensures VerbHistory.AtomicWellFormed(log[i]) <==>
            && ss[i].src.sgl[0].size == 8 && ss[i].src.sgl[0].ptr % 8 == 0
            && (ss[i].builtWr ==> VerbHistory.KeepsBuffer(ss[i]))
  {
    PostedEach(t, takes, [], ss);
    assert log == Requests(ss);
    assert ss[i] in ss;
    ReachableVerbInv(false, ss[i]);
    PostedAtomicIsOnRc(t, ss[i]);
    VerbHistory.AtomicFetchExactly(ss[i]);
  }
}
