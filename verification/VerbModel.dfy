/**
 The work-request builder `rdma_verb` (verb_pre.h) on values: the source fields that the
 setters write, the two-level cache that `get_wr` fills, and the request built from scratch.

 `Step(repaired, s, op)` is one call. With `repaired == false` it is the code; with
 `repaired == true` the scatter-gather mutators also clear `constructed_wr`, as every
 other setter does. `None` stands for a panic, which ends the process.
 */
module VerbModel {
  import opened Words
  import opened Memory

  const MAX_SGE: nat := 16

  datatype Opcode =
    | Send | SendImm
    | Write | WriteImm | Read
    | Cas | Faa
    | MaskedCas | MaskedFaa
    | Unsupported(code: nat)

  /** `Wr` is `ibv_exp_send_wr` or `ibv_recv_wr`. */
  datatype Kind = SendWr | RecvWr

  datatype Remote = Remote(addr: Word, size: Word, rkey: nat)

  /** What the atomics work on; CAS compares and FAA adds `compareAdd`. */
  datatype Operands = Operands(compareAdd: Word, swap: Word, compareAddMask: Word, swapMask: Word)

  datatype Source = Source(
    kind: Kind,
    wrId: Word,
    opcode: Option<Opcode>,
    sgl: seq<Slice>,
    length: Word,
    remote: Option<Remote>,
    notified: bool,
    carryImm: bool,
    immData: nat,
    operands: Operands)

  /** The union members of `ibv_exp_send_wr`; members nobody writes stay zero. */
  datatype Target =
    | NoTarget
    | Rdma(remoteAddr: Word, rkey: nat)
    | Atomic(remoteAddr: Word, rkey: nat, compareAdd: Word, swap: Word)
    | MaskedCmpSwap(remoteAddr: Word, rkey: nat, compareVal: Word, swapVal: Word, compareMask: Word, swapMask: Word)
    | MaskedFetchAdd(remoteAddr: Word, rkey: nat, addVal: Word, fieldBoundary: Word)

  /** The scalar fields of a request, all but `next`, `sg_list` and `num_sge`. */
  datatype Fields = Fields(wrId: Word, opcode: Option<Opcode>, signaled: bool, immData: nat, target: Target)

  /**
   What the device finds at a request: the fields with the entries reached through
   `sg_list`/`num_sge`, or a list that is gone (`sg_list` points to a buffer the vector has
   given up, or `num_sge` is more than the vector holds).
   */
  datatype Posted = Request(fields: Fields, sges: seq<Sge>) | Wild(fields: Fields)

  datatype Outcome = Panicked | Returned(posted: Posted)

  // ---------- building from scratch ----------

  predicate IsTwoSided(op: Opcode) {
    op.Send? || op.SendImm?
  }

  predicate IsAtomic(op: Opcode) {
    op.Cas? || op.Faa? || op.MaskedCas? || op.MaskedFaa?
  }

  predicate IsAtomicCapable(src: Source) {
    src.length == 8 && |src.sgl| == 1 && IsAligned(src.sgl[0])
  }

  predicate AllFit(sgl: seq<Slice>) {
    forall s <- sgl :: Fits(s)
  }

  function SgesOf(sgl: seq<Slice>): (es: seq<Sge>)
    ensures |es| == |sgl| && forall i :: 0 <= i < |sgl| ==> es[i] == SgeOf(sgl[i])
  {
    seq(|sgl|, i requires 0 <= i < |sgl| => SgeOf(sgl[i]))
  }

  function TargetOf(src: Source): Option<Target>
    requires src.opcode.Some?
  {
    if IsTwoSided(src.opcode.value) then Some(NoTarget)
    else if src.remote.None? then None
    else
      var r, o := src.remote.value, src.operands;
      match src.opcode.value
      case Read => Some(Rdma(r.addr, r.rkey))
      case Write => Some(Rdma(r.addr, r.rkey))
      case WriteImm => Some(Rdma(r.addr, r.rkey))
      case Cas => Some(Atomic(r.addr, r.rkey, o.compareAdd, o.swap))
      case Faa => Some(Atomic(r.addr, r.rkey, o.compareAdd, o.swap))
      case MaskedCas => Some(MaskedCmpSwap(r.addr, r.rkey, o.compareAdd, o.swap, o.compareAddMask, o.swapMask))
      case MaskedFaa => Some(MaskedFetchAdd(r.addr, r.rkey, o.compareAdd, o.compareAddMask))
      case _ => None
  }

  /** The fields `construct_wr` computes, before its check that the list suits an atomic. */
  function FieldsOf(src: Source): Option<Fields> {
    match src.kind
    case RecvWr => Some(Fields(src.wrId, None, false, 0, NoTarget))
    case SendWr =>
      if src.opcode.None? || TargetOf(src).None? then None
      else
        Some(Fields(src.wrId, src.opcode, src.notified, if src.carryImm then src.immData else 0, TargetOf(src).value))
  }

  predicate PassesAtomicCheck(src: Source) {
    src.kind.SendWr? && src.opcode.Some? && IsAtomic(src.opcode.value) ==> IsAtomicCapable(src)
  }

  function FreshFields(src: Source): Option<Fields> {
    if PassesAtomicCheck(src) then FieldsOf(src) else None
  }

  /** The specification of `get_wr`: no cache, one pass over the source fields. */
  function Build(src: Source): Outcome {
    if AllFit(src.sgl) && FreshFields(src).Some?
    then Returned(Request(FreshFields(src).value, SgesOf(src.sgl)))
    else Panicked
  }

  // ---------- the cached builder ----------

  /**
   `realSgl`, `realCap` and `realBuf` are the vector `real_sgl`: elements, capacity and the
   address of its buffer, an allocation number. `fields`, `wrBuf` (the value of `sg_list`)
   and `numSge` are the cached request.
   */
  datatype State = State(
    src: Source,
    realSgl: seq<Sge>,
    realCap: nat,
    realBuf: nat,
    builtSgl: bool,
    fields: Fields,
    wrBuf: nat,
    numSge: nat,
    builtWr: bool)

  /** The calls; `spare` is how much more than it needs the vector reserves if `get_wr` makes it reallocate. */
  datatype Op =
    | SetId(id: Word)
    | SetOp(op: Opcode)
    | SetSgl(entry: Slice)
    | AddSgl(entry: Slice)
    | SetRemote(remote: Remote)
    | SetNotify(notify: bool)
    | SetImm(data: nat)
    | ClearImm
    | SetCas(compare: Word, swap: Word)
    | SetFaa(add: Word)
    | SetMaskedCas(compare: Word, swap: Word, compareMask: Word, swapMask: Word)
    | SetMaskedFaa(add: Word, addMask: Word)
    | SetCompare(compare: Word)
    | SetSwap(swap: Word)
    | SetCompareMask(compareMask: Word)
    | SetSwapMask(swapMask: Word)
    | SetAdd(add: Word)
    | SetAddMask(addMask: Word)
    | GetWr(spare: nat)

  /** A new verb. `wr_id` and the request are uninitialised, hence arbitrary. */
  predicate IsNew(s: State) {
    && s.src == Source(s.src.kind, s.src.wrId, None, [], 0, None, false, false, 0, Operands(0, 0, 0, 0))
    && s.realSgl == [] && s.realCap == 0
    && !s.builtSgl && !s.builtWr
  }

  function Touch(s: State, src: Source): State {
    s.(src := src, builtWr := false)
  }

  function TouchIfChanged(s: State, src: Source): (t: State)
    ensures t.src == src
  {
    if src == s.src then s else Touch(s, src)
  }

  function Append(src: Source, entry: Slice): Source {
    src.(sgl := src.sgl + [entry], length := (src.length + entry.size) % WORD)
  }

  function TouchSgl(repaired: bool, s: State, src: Source): State {
    s.(src := src, builtSgl := false, builtWr := s.builtWr && !repaired)
  }

  function ConstructSgl(s: State, spare: nat): Option<State> {
    if s.builtSgl then Some(s)
    else if !AllFit(s.src.sgl) then None
    else
      var n := |s.src.sgl|;
      var grows := n > s.realCap;
      Some(s.(realSgl := SgesOf(s.src.sgl), builtSgl := true,
              realCap := if grows then n + spare else s.realCap,
              realBuf := if grows then s.realBuf + 1 else s.realBuf))
  }

  function ConstructWr(s: State): Option<State> {
    if s.builtWr then Some(s)
    else if FreshFields(s.src).None? then None
    else Some(s.(fields := FreshFields(s.src).value, wrBuf := s.realBuf, numSge := |s.realSgl|, builtWr := true))
  }

  function GetWrStep(s: State, spare: nat): (t: Option<State>)
    ensures t.Some? ==> t.value.src == s.src
  {
    if s.src.kind.SendWr? && s.src.opcode.None? then None
    else
      match ConstructSgl(s, spare)
      case None => None
      case Some(t) => ConstructWr(t)
  }

  function Step(repaired: bool, s: State, op: Op): Option<State> {
    var src := s.src;
    match op
    case SetId(id) => Some(TouchIfChanged(s, src.(wrId := id)))
    case SetOp(op) => Some(TouchIfChanged(s, src.(opcode := Some(op))))
    case SetSgl(entry) => Some(TouchSgl(repaired, s, Append(src.(sgl := [], length := 0), entry)))
    case AddSgl(entry) =>
      if |src.sgl| < MAX_SGE then Some(TouchSgl(repaired, s, Append(src, entry))) else None
    case SetRemote(remote) => Some(Touch(s, src.(remote := Some(remote))))
    case SetNotify(notify) => Some(TouchIfChanged(s, src.(notified := notify)))
    case SetImm(data) => Some(Touch(s, src.(carryImm := true, immData := data)))
    case ClearImm => Some(TouchIfChanged(s, src.(carryImm := false)))
    case SetCas(compare, swap) =>
      Some(Touch(s, src.(opcode := Some(Cas), operands := src.operands.(compareAdd := compare, swap := swap))))
    case SetFaa(add) => Some(Touch(s, src.(opcode := Some(Faa), operands := src.operands.(compareAdd := add))))
    case SetMaskedCas(compare, swap, compareMask, swapMask) =>
      Some(Touch(s, src.(opcode := Some(MaskedCas), operands := Operands(compare, swap, compareMask, swapMask))))
    case SetMaskedFaa(add, addMask) =>
      Some(Touch(s, src.(opcode := Some(MaskedFaa),
                         operands := src.operands.(compareAdd := add, compareAddMask := addMask))))
    case SetCompare(compare) => Some(Touch(s, src.(operands := src.operands.(compareAdd := compare))))
    case SetSwap(swap) => Some(Touch(s, src.(operands := src.operands.(swap := swap))))
    case SetCompareMask(compareMask) => Some(Touch(s, src.(operands := src.operands.(compareAddMask := compareMask))))
    case SetSwapMask(swapMask) => Some(Touch(s, src.(operands := src.operands.(swapMask := swapMask))))
    case SetAdd(add) => Some(Touch(s, src.(operands := src.operands.(compareAdd := add))))
    case SetAddMask(addMask) => Some(Touch(s, src.(operands := src.operands.(compareAddMask := addMask))))
    case GetWr(spare) => GetWrStep(s, spare)
  }

  function Run(repaired: bool, s: State, ops: seq<Op>): Option<State>
    decreases |ops|
  {
    if ops == [] then Some(s) else
      match Step(repaired, s, ops[0])
      case None => None
      case Some(t) => Run(repaired, t, ops[1..])
  }

  /** A run is the run of all calls but the last, and then the last. */
  lemma {:induction false} RunLast(repaired: bool, s: State, ops: seq<Op>)
    requires ops != []
    ensures var before := Run(repaired, s, ops[..|ops| - 1]);
            Run(repaired, s, ops)
            == if before.None? then None else Step(repaired, before.value, ops[|ops| - 1])
    decreases |ops|
  {
    var before := ops[..|ops| - 1];
    if |ops| == 1 {
      assert ops[1..] == [];
    } else if Step(repaired, s, ops[0]).Some? {
      assert before[1..] == ops[1..][..|ops| - 2];
      RunLast(repaired, Step(repaired, s, ops[0]).value, ops[1..]);
    }
  }

  /** The cached request as the device reads it through its pointers. */
  function View(s: State): Posted {
    if s.numSge == 0 then Request(s.fields, [])
    else if s.wrBuf == s.realBuf && s.numSge <= |s.realSgl| then Request(s.fields, s.realSgl[..s.numSge])
    else Wild(s.fields)
  }

  /** What the next `get_wr` returns. */
  function Fetch(s: State): Outcome {
    match GetWrStep(s, 0)
    case None => Panicked
    case Some(t) => Returned(View(t))
  }

  /** `now` is `before` after `get_wr`: same source fields, both caches built, the request in place. */
  predicate Fetched(before: State, now: State) {
    && now.src == before.src
    && now.builtSgl && now.builtWr
    && Fetch(before) == Returned(View(now))
  }

  /** Fetching again changes nothing: it gives the same request and leaves the same state. */
  lemma FetchedIsStable(before: State, now: State, spare: nat)
    requires Fetched(before, now)
    ensures GetWrStep(now, spare) == Some(now)
    ensures Fetch(now) == Fetch(before)
  {
  }

  lemma FetchedTwice(before: State, now: State, after: State)
    requires now == before || Fetched(before, now)
    requires Fetched(now, after)
    ensures Fetched(before, after)
  {
  }

  // ---------- what every call keeps ----------

  function SumSizes(sgl: seq<Slice>): nat {
    if sgl == [] then 0 else SumSizes(sgl[..|sgl| - 1]) + sgl[|sgl| - 1].size
  }

  function SumLengths(es: seq<Sge>): nat {
    if es == [] then 0 else SumLengths(es[..|es| - 1]) + es[|es| - 1].length
  }

  predicate LengthInv(src: Source) {
    |src.sgl| <= MAX_SGE && src.length == SumSizes(src.sgl) % WORD
  }

  /** `is_atomic_capable` sums up the list: its one entry, whatever made it, is an aligned 8-byte word. */
  lemma CapableExactly(src: Source)
    requires LengthInv(src)
    ensures IsAtomicCapable(src) <==> |src.sgl| == 1 && src.sgl[0].size == 8 && src.sgl[0].ptr % 8 == 0
  {
    if |src.sgl| == 1 {
      assert src.sgl[..0] == [];
      assert SumSizes(src.sgl) == SumSizes(src.sgl[..0]) + src.sgl[0].size;
    }
  }

  /** The list half of the cache: a list marked built is the list of the source fields. */
  predicate SglInv(s: State) {
    && |s.realSgl| <= s.realCap
    && (s.builtSgl ==> AllFit(s.src.sgl) && s.realSgl == SgesOf(s.src.sgl))
    && (s.src.sgl == [] ==> s.realSgl == [])
  }

  /** The request half: only `sg_list`, `num_sge` and the atomic check may be out of date. */
  predicate WrInv(s: State) {
    s.builtWr ==>
      && FieldsOf(s.src) == Some(s.fields)
      && s.wrBuf <= s.realBuf
      && (s.src.sgl == [] ==> s.numSge == 0)
      && (s.src.kind.SendWr? && IsAtomic(s.src.opcode.value) ==> s.numSge == 1 && s.src.sgl != [])
  }

  predicate Inv(s: State) {
    LengthInv(s.src) && SglInv(s) && WrInv(s)
  }

  /** In the repaired form nothing in a request marked built is out of date, once its list is. */
  predicate RepairedInv(s: State) {
    && Inv(s)
    && (s.builtWr ==>
          && s.builtSgl
          && PassesAtomicCheck(s.src)
          && s.wrBuf == s.realBuf
          && s.numSge == |s.realSgl|)
  }

  lemma NewVerbInv(s: State)
    requires IsNew(s)
    ensures RepairedInv(s)
  {
  }

  lemma AppendKeepsLength(src: Source, entry: Slice)
    requires src.length == SumSizes(src.sgl) % WORD
    ensures Append(src, entry).length == SumSizes(Append(src, entry).sgl) % WORD
  {
    var longer := src.sgl + [entry];
    assert longer[..|longer| - 1] == src.sgl;
  }

  /** A setter that marks the request for rebuilding and leaves the list alone. */
  lemma TouchKeepsInv(s: State, src: Source)
    requires Inv(s) && src.sgl == s.src.sgl && src.length == s.src.length
    ensures Inv(Touch(s, src)) && Inv(TouchIfChanged(s, src))
  {
  }

  lemma TouchSglKeepsInv(repaired: bool, s: State, src: Source, entry: Slice)
    requires Inv(s) && |src.sgl| < MAX_SGE && src.length == SumSizes(src.sgl) % WORD
    requires src == s.src || src == s.src.(sgl := [], length := 0)
    ensures Inv(TouchSgl(repaired, s, Append(src, entry)))
  {
    AppendKeepsLength(src, entry);
  }

  lemma ConstructSglKeepsInv(s: State, spare: nat)
    requires Inv(s) && ConstructSgl(s, spare).Some?
    ensures Inv(ConstructSgl(s, spare).value)
    ensures ConstructSgl(s, spare).value.builtSgl && ConstructSgl(s, spare).value.src == s.src
  {
  }

  lemma ConstructWrKeepsInv(s: State)
    requires Inv(s) && s.builtSgl && ConstructWr(s).Some?
    ensures Inv(ConstructWr(s).value)
  {
  }

  predicate IsSetter(op: Op) {
    !op.SetSgl? && !op.AddSgl? && !op.GetWr?
  }

  /** A setter of anything but the list keeps the list, and the request is rebuilt if a field has changed. */
  lemma SetterTouches(repaired: bool, s: State, op: Op) returns (src: Source)
    requires IsSetter(op)
    ensures src.sgl == s.src.sgl && src.length == s.src.length
    ensures Step(repaired, s, op) == Some(Touch(s, src)) || Step(repaired, s, op) == Some(TouchIfChanged(s, src))
  {
    src := Step(repaired, s, op).value.src;
  }

  lemma SetterKeepsInv(repaired: bool, s: State, op: Op)
    requires Inv(s) && IsSetter(op)
    ensures Inv(Step(repaired, s, op).value)
  {
    var src := SetterTouches(repaired, s, op);
    TouchKeepsInv(s, src);
  }

  lemma StepKeepsInv(repaired: bool, s: State, op: Op)
    requires Inv(s) && Step(repaired, s, op).Some?
    ensures Inv(Step(repaired, s, op).value)
  {
    match op {
      case SetSgl(entry) => TouchSglKeepsInv(repaired, s, s.src.(sgl := [], length := 0), entry);
      case AddSgl(entry) => TouchSglKeepsInv(repaired, s, s.src, entry);
      case GetWr(spare) =>
        ConstructSglKeepsInv(s, spare);
        ConstructWrKeepsInv(ConstructSgl(s, spare).value);
      case _ => SetterKeepsInv(repaired, s, op);
    }
  }

  lemma StepKeepsRepairedInv(s: State, op: Op)
    requires RepairedInv(s) && Step(true, s, op).Some?
    ensures RepairedInv(Step(true, s, op).value)
  {
    StepKeepsInv(true, s, op);
  }

  lemma {:induction false} RunKeepsInv(repaired: bool, s: State, ops: seq<Op>)
    requires Inv(s) && Run(repaired, s, ops).Some?
    ensures Inv(Run(repaired, s, ops).value)
    decreases |ops|
  {
    if ops != [] {
      StepKeepsInv(repaired, s, ops[0]);
      RunKeepsInv(repaired, Step(repaired, s, ops[0]).value, ops[1..]);
    }
  }

  lemma {:induction false} RunKeepsRepairedInv(s: State, ops: seq<Op>)
    requires RepairedInv(s) && Run(true, s, ops).Some?
    ensures RepairedInv(Run(true, s, ops).value)
    decreases |ops|
  {
    if ops != [] {
      StepKeepsRepairedInv(s, ops[0]);
      RunKeepsRepairedInv(Step(true, s, ops[0]).value, ops[1..]);
    }
  }
}
