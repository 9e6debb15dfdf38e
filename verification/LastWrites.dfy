/**
 What a request holds, told from the calls alone: each field of the request that `get_wr` returns is the
 argument of the last call that wrote it, and its list has the slices given since the list was last set, in order.
 The functions here read a history of calls backwards and know nothing of fields, flags or caches.
 */
module LastWrites {
  import opened Words
  import opened Memory
  import opened VerbModel
  import opened VerbHistory

  // ---------- the last call that writes a field ----------

  /** The id, if it was ever set; it is arbitrary before. */
  function IdOf(ops: seq<Op>, initial: Word): Word {
    if ops == [] then initial
    else
      match ops[|ops| - 1]
      case SetId(id) => id
      case _ => IdOf(ops[..|ops| - 1], initial)
  }

  function OpcodeOf(ops: seq<Op>): Option<Opcode> {
    if ops == [] then None
    else
      match ops[|ops| - 1]
      case SetOp(op) => Some(op)
      case SetCas(_, _) => Some(Cas)
      case SetFaa(_) => Some(Faa)
      case SetMaskedCas(_, _, _, _) => Some(MaskedCas)
      case SetMaskedFaa(_, _) => Some(MaskedFaa)
      case _ => OpcodeOf(ops[..|ops| - 1])
  }

  function RemoteOf(ops: seq<Op>): Option<Remote> {
    if ops == [] then None
    else
      match ops[|ops| - 1]
      case SetRemote(remote) => Some(remote)
      case _ => RemoteOf(ops[..|ops| - 1])
  }

  function NotifyOf(ops: seq<Op>): bool {
    if ops == [] then false
    else
      match ops[|ops| - 1]
      case SetNotify(notify) => notify
      case _ => NotifyOf(ops[..|ops| - 1])
  }

  /** The immediate value; none is sent as zero. */
  function ImmOf(ops: seq<Op>): nat {
    if ops == [] then 0
    else
      match ops[|ops| - 1]
      case SetImm(data) => data
      case ClearImm => 0
      case _ => ImmOf(ops[..|ops| - 1])
  }

  /** What a CAS compares with and an FAA adds: one operand under two names. */
  function CompareAddOf(ops: seq<Op>): Word {
    if ops == [] then 0
    else
      match ops[|ops| - 1]
      case SetCas(compare, _) => compare
      case SetMaskedCas(compare, _, _, _) => compare
      case SetCompare(compare) => compare
      case SetFaa(add) => add
      case SetMaskedFaa(add, _) => add
      case SetAdd(add) => add
      case _ => CompareAddOf(ops[..|ops| - 1])
  }

  function SwapOf(ops: seq<Op>): Word {
    if ops == [] then 0
    else
      match ops[|ops| - 1]
      case SetCas(_, swap) => swap
      case SetMaskedCas(_, swap, _, _) => swap
      case SetSwap(swap) => swap
      case _ => SwapOf(ops[..|ops| - 1])
  }

  function CompareAddMaskOf(ops: seq<Op>): Word {
    if ops == [] then 0
    else
      match ops[|ops| - 1]
      case SetMaskedCas(_, _, compareMask, _) => compareMask
      case SetCompareMask(compareMask) => compareMask
      case SetMaskedFaa(_, addMask) => addMask
      case SetAddMask(addMask) => addMask
      case _ => CompareAddMaskOf(ops[..|ops| - 1])
  }

  function SwapMaskOf(ops: seq<Op>): Word {
    if ops == [] then 0
    else
      match ops[|ops| - 1]
      case SetMaskedCas(_, _, _, swapMask) => swapMask
      case SetSwapMask(swapMask) => swapMask
      case _ => SwapMaskOf(ops[..|ops| - 1])
  }

  /** The slices given since the list was last set. */
  function EntriesOf(ops: seq<Op>): seq<Slice> {
    if ops == [] then []
    else
      match ops[|ops| - 1]
      case SetSgl(entry) => [entry]
      case AddSgl(entry) => EntriesOf(ops[..|ops| - 1]) + [entry]
      case _ => EntriesOf(ops[..|ops| - 1])
  }

  // ---------- the request ----------

  /** The target of a request: where the last remote was, with the operands last written. */
  predicate TargetFollows(ops: seq<Op>, target: Target)
    requires OpcodeOf(ops).Some?
  {
    match OpcodeOf(ops).value
    case Send => target.NoTarget?
    case SendImm => target.NoTarget?
    case Read => target.Rdma? && AddressFollows(ops, target)
    case Write => target.Rdma? && AddressFollows(ops, target)
    case WriteImm => target.Rdma? && AddressFollows(ops, target)
    case Cas =>
      && target.Atomic? && AddressFollows(ops, target)
      && target.compareAdd == CompareAddOf(ops) && target.swap == SwapOf(ops)
    case Faa =>
      && target.Atomic? && AddressFollows(ops, target)
      && target.compareAdd == CompareAddOf(ops) && target.swap == SwapOf(ops)
    case MaskedCas =>
      && target.MaskedCmpSwap? && AddressFollows(ops, target)
      && target.compareVal == CompareAddOf(ops) && target.swapVal == SwapOf(ops)
      && target.compareMask == CompareAddMaskOf(ops) && target.swapMask == SwapMaskOf(ops)
    case MaskedFaa =>
      && target.MaskedFetchAdd? && AddressFollows(ops, target)
      && target.addVal == CompareAddOf(ops) && target.fieldBoundary == CompareAddMaskOf(ops)
    case Unsupported(_) => false
  }

  predicate AddressFollows(ops: seq<Op>, target: Target)
    requires !target.NoTarget?
  {
    && RemoteOf(ops).Some?
    && target.remoteAddr == RemoteOf(ops).value.addr && target.rkey == RemoteOf(ops).value.rkey
  }

  /** Every scalar field of a request is what the calls last said; a receive has only its id. */
  predicate FieldsFollow(kind: Kind, initialId: Word, ops: seq<Op>, f: Fields) {
    && f.wrId == IdOf(ops, initialId)
    && (kind.SendWr? ==>
          && f.opcode == OpcodeOf(ops) && f.opcode.Some?
          && f.signaled == NotifyOf(ops) && f.immData == ImmOf(ops)
          && TargetFollows(ops, f.target))
    && (kind.RecvWr? ==> f.opcode.None? && !f.signaled && f.immData == 0 && f.target.NoTarget?)
  }

  /** The entries of a request are the slices given, each with its address, whole length and key. */
  predicate SgesFollow(ops: seq<Op>, es: seq<Sge>) {
    var slices := EntriesOf(ops);
    && |es| == |slices|
    && forall i :: 0 <= i < |es| ==>
         es[i].addr == slices[i].ptr && es[i].length == slices[i].size && es[i].lkey == slices[i].region.lkey
  }

  function SentImm(src: Source): nat {
    if src.carryImm then src.immData else 0
  }

  predicate SourceFollows(initialId: Word, ops: seq<Op>, src: Source) {
    && src.wrId == IdOf(ops, initialId) && src.opcode == OpcodeOf(ops) && src.remote == RemoteOf(ops)
    && src.notified == NotifyOf(ops) && SentImm(src) == ImmOf(ops)
    && src.operands.compareAdd == CompareAddOf(ops) && src.operands.swap == SwapOf(ops)
    && src.operands.compareAddMask == CompareAddMaskOf(ops) && src.operands.swapMask == SwapMaskOf(ops)
    && src.sgl == EntriesOf(ops)
  }

  lemma IdStep(repaired: bool, s: State, ops: seq<Op>, initialId: Word)
    requires ops != [] && Step(repaired, s, ops[|ops| - 1]).Some?
    ensures var before, src, now := ops[..|ops| - 1], s.src, Step(repaired, s, ops[|ops| - 1]).value.src;
            src.wrId == IdOf(before, initialId) ==> now.wrId == IdOf(ops, initialId)
  {
  }

  lemma OpcodeStep(repaired: bool, s: State, ops: seq<Op>)
    requires ops != [] && Step(repaired, s, ops[|ops| - 1]).Some?
    ensures var before, src, now := ops[..|ops| - 1], s.src, Step(repaired, s, ops[|ops| - 1]).value.src;
            src.opcode == OpcodeOf(before) ==> now.opcode == OpcodeOf(ops)
  {
  }

  lemma RemoteStep(repaired: bool, s: State, ops: seq<Op>)
    requires ops != [] && Step(repaired, s, ops[|ops| - 1]).Some?
    ensures var before, src, now := ops[..|ops| - 1], s.src, Step(repaired, s, ops[|ops| - 1]).value.src;
            src.remote == RemoteOf(before) ==> now.remote == RemoteOf(ops)
  {
  }

  lemma NotifyStep(repaired: bool, s: State, ops: seq<Op>)
    requires ops != [] && Step(repaired, s, ops[|ops| - 1]).Some?
    ensures var before, src, now := ops[..|ops| - 1], s.src, Step(repaired, s, ops[|ops| - 1]).value.src;
            src.notified == NotifyOf(before) ==> now.notified == NotifyOf(ops)
  {
  }

  lemma ImmStep(repaired: bool, s: State, ops: seq<Op>)
    requires ops != [] && Step(repaired, s, ops[|ops| - 1]).Some?
    ensures var before, src, now := ops[..|ops| - 1], s.src, Step(repaired, s, ops[|ops| - 1]).value.src;
            SentImm(src) == ImmOf(before) ==> SentImm(now) == ImmOf(ops)
  {
  }

  lemma EntriesStep(repaired: bool, s: State, ops: seq<Op>)
    requires ops != [] && Step(repaired, s, ops[|ops| - 1]).Some?
    ensures var before, src, now := ops[..|ops| - 1], s.src, Step(repaired, s, ops[|ops| - 1]).value.src;
            src.sgl == EntriesOf(before) ==> now.sgl == EntriesOf(ops)
  {
  }

  lemma CompareAddStep(repaired: bool, s: State, ops: seq<Op>)
    requires ops != [] && Step(repaired, s, ops[|ops| - 1]).Some?
    ensures var before, src, now := ops[..|ops| - 1], s.src, Step(repaired, s, ops[|ops| - 1]).value.src;
            src.operands.compareAdd == CompareAddOf(before) ==> now.operands.compareAdd == CompareAddOf(ops)
  {
  }

  lemma SwapStep(repaired: bool, s: State, ops: seq<Op>)
    requires ops != [] && Step(repaired, s, ops[|ops| - 1]).Some?
    ensures var before, src, now := ops[..|ops| - 1], s.src, Step(repaired, s, ops[|ops| - 1]).value.src;
            src.operands.swap == SwapOf(before) ==> now.operands.swap == SwapOf(ops)
  {
  }

  lemma CompareAddMaskStep(repaired: bool, s: State, ops: seq<Op>)
    requires ops != [] && Step(repaired, s, ops[|ops| - 1]).Some?
    ensures var before, src, now := ops[..|ops| - 1], s.src, Step(repaired, s, ops[|ops| - 1]).value.src;
            src.operands.compareAddMask == CompareAddMaskOf(before)
            ==> now.operands.compareAddMask == CompareAddMaskOf(ops)
  {
  }

  lemma SwapMaskStep(repaired: bool, s: State, ops: seq<Op>)
    requires ops != [] && Step(repaired, s, ops[|ops| - 1]).Some?
    ensures var before, src, now := ops[..|ops| - 1], s.src, Step(repaired, s, ops[|ops| - 1]).value.src;
            src.operands.swapMask == SwapMaskOf(before) ==> now.operands.swapMask == SwapMaskOf(ops)
  {
  }

  lemma SourceStep(repaired: bool, initialId: Word, s: State, ops: seq<Op>)
    requires ops != [] && SourceFollows(initialId, ops[..|ops| - 1], s.src)
    requires Step(repaired, s, ops[|ops| - 1]).Some?
    ensures SourceFollows(initialId, ops, Step(repaired, s, ops[|ops| - 1]).value.src)
  {
    IdStep(repaired, s, ops, initialId);
    OpcodeStep(repaired, s, ops);
    RemoteStep(repaired, s, ops);
    NotifyStep(repaired, s, ops);
    ImmStep(repaired, s, ops);
    EntriesStep(repaired, s, ops);
    CompareAddStep(repaired, s, ops);
    SwapStep(repaired, s, ops);
    CompareAddMaskStep(repaired, s, ops);
    SwapMaskStep(repaired, s, ops);
  }

  lemma KindStep(repaired: bool, s: State, op: Op)
    requires Step(repaired, s, op).Some?
    ensures Step(repaired, s, op).value.src.kind == s.src.kind
  {
  }

  lemma {:induction false} SourceIsLastWritten(repaired: bool, init: State, ops: seq<Op>)
    requires IsNew(init) && Run(repaired, init, ops).Some?
    ensures Run(repaired, init, ops).value.src.kind == init.src.kind
    ensures SourceFollows(init.src.wrId, ops, Run(repaired, init, ops).value.src)
    decreases |ops|
  {
    if ops != [] {
      RunLast(repaired, init, ops);
      SourceIsLastWritten(repaired, init, ops[..|ops| - 1]);
      var before := Run(repaired, init, ops[..|ops| - 1]).value;
      KindStep(repaired, before, ops[|ops| - 1]);
      SourceStep(repaired, init.src.wrId, before, ops);
    }
  }

  lemma FieldsAreLastWritten(s: State, initialId: Word, ops: seq<Op>)
    requires Inv(s) && Fetch(s).Returned? && SourceFollows(initialId, ops, s.src)
    ensures FieldsFollow(s.src.kind, initialId, ops, Fetch(s).posted.fields)
  {
    assert FieldsOf(s.src) == Some(Fetch(s).posted.fields);
  }

  lemma BuiltSgesFollow(src: Source, initialId: Word, ops: seq<Op>)
    requires AllFit(src.sgl) && SourceFollows(initialId, ops, src)
    ensures SgesFollow(ops, SgesOf(src.sgl))
  {
    forall i | 0 <= i < |src.sgl| ensures SgeOf(src.sgl[i]).length == src.sgl[i].size {
      assert src.sgl[i] in src.sgl;
    }
  }

  /**
   After any history of calls on a new verb, in the written form and in the repaired one: if `get_wr` returns, each
   scalar field of the request is what the last call that writes it said, stale as its list may be. The list is
   that of the slices given, in order, whenever the cache is current, as in the repaired form it always is.
   */
  lemma RequestIsLastWritten(repaired: bool, init: State, ops: seq<Op>)
    requires IsNew(init) && Run(repaired, init, ops).Some? && Fetch(Run(repaired, init, ops).value).Returned?
    ensures var s := Run(repaired, init, ops).value; var posted := Fetch(s).posted;
            && FieldsFollow(init.src.kind, init.src.wrId, ops, posted.fields)
            && (repaired || CacheCurrent(s) ==> posted.Request? && SgesFollow(ops, posted.sges))
  {
    var s := Run(repaired, init, ops).value;
    NewVerbInv(init);
    RunKeepsInv(repaired, init, ops);
    SourceIsLastWritten(repaired, init, ops);
    FieldsAreLastWritten(s, init.src.wrId, ops);
    if repaired {
      RunKeepsRepairedInv(init, ops);
      FetchIsFresh(s);
      BuiltSgesFollow(s.src, init.src.wrId, ops);
    } else if CacheCurrent(s) {
      FetchIsFreshExactly(s);
      BuiltSgesFollow(s.src, init.src.wrId, ops);
    }
  }

  // ---------- which calls panic ----------

  /** One entry of eight bytes on an eight-byte boundary. */
  predicate IsOneWord(sgl: seq<Slice>) {
    |sgl| == 1 && sgl[0].size == 8 && sgl[0].ptr % 8 == 0
  }

  /**
   When `get_wr` returns: every slice fits in 32 bits, and a send has an opcode it knows, with a remote if it is
   one-sided, and with one aligned word if it is an atomic whose request has to be built.
   */
  lemma GetWrReturnsExactly(s: State)
    requires Inv(s)
    ensures Fetch(s).Returned?
            <==> && (forall e <- s.src.sgl :: e.size <= 0xFFFF_FFFF)
                 && (s.src.kind.SendWr? ==> s.src.opcode.Some?)
                 && (s.src.kind.SendWr? ==>
                       match s.src.opcode.value
                       case Send => true
                       case SendImm => true
                       case Read => s.src.remote.Some?
                       case Write => s.src.remote.Some?
                       case WriteImm => s.src.remote.Some?
                       case Unsupported(_) => false
                       case _ => s.src.remote.Some? && (s.builtWr || IsOneWord(s.src.sgl)))
  {
    CapableExactly(s.src);
    if s.src.kind.SendWr? && s.src.opcode.Some? {
      BuildableExactly(s.src);
    }
  }

  lemma BuildableExactly(src: Source)
    requires LengthInv(src) && src.kind.SendWr? && src.opcode.Some?
    ensures FieldsOf(src).Some?
            <==> !src.opcode.value.Unsupported? && (IsTwoSided(src.opcode.value) || src.remote.Some?)
  {
  }

  /** No call panics but an append to a full list and a `get_wr` that cannot return. */
  lemma CallPanicsExactly(repaired: bool, s: State, op: Op)
    ensures Step(repaired, s, op).None? <==> (op.AddSgl? && |s.src.sgl| >= 16) || (op.GetWr? && Fetch(s).Panicked?)
  {
  }
}
