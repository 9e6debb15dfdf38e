/**
 Theorems about whole histories of calls on one verb: when the cached `get_wr` gives the
 request that a from-scratch build of the source fields gives, and what that request holds.
 */
module VerbHistory {
  import opened Words
  import opened Memory
  import opened VerbModel

  // ---------- the repaired cache ----------

  lemma FetchIsFresh(s: State)
    requires RepairedInv(s)
    ensures Fetch(s) == Build(s.src)
  {
    if AllFit(s.src.sgl) && FreshFields(s.src).Some? {
      var t := GetWrStep(s, 0).value;
      assert t.realSgl[..t.numSge] == t.realSgl == SgesOf(s.src.sgl);
    }
  }

  /** Repaired, the cache is invisible: after any history `get_wr` panics or returns just as a fresh build. */
  lemma RepairedRefinesBuild(init: State, ops: seq<Op>)
    requires IsNew(init) && Run(true, init, ops).Some?
    ensures var s := Run(true, init, ops).value; Fetch(s) == Build(s.src)
  {
    NewVerbInv(init);
    RunKeepsRepairedInv(init, ops);
    FetchIsFresh(Run(true, init, ops).value);
  }

  // ---------- the cache as written ----------

  /** `sg_list` still points to the vector's buffer when the next `get_wr` is done. */
  predicate KeepsBuffer(s: State) {
    s.wrBuf == s.realBuf && |s.src.sgl| <= s.realCap
  }

  /** The guard under which the next `get_wr` of the written form agrees with a fresh build. */
  predicate CacheCurrent(s: State) {
    || !s.builtWr
    || !AllFit(s.src.sgl)
    || (s.numSge == |s.src.sgl| && (s.src.sgl == [] || KeepsBuffer(s)) && PassesAtomicCheck(s.src))
  }

  lemma FetchIsFreshExactly(s: State)
    requires Inv(s)
    ensures Fetch(s) == Build(s.src) <==> CacheCurrent(s)
  {
    if GetWrStep(s, 0).Some? {
      var t := GetWrStep(s, 0).value;
      assert t.realSgl == SgesOf(s.src.sgl);
      assert t.realSgl[..|t.realSgl|] == t.realSgl;
    }
  }

  /** As written, after any history, the next `get_wr` agrees with a fresh build iff the guard holds. */
  lemma WrittenAgreesExactly(init: State, ops: seq<Op>)
    requires IsNew(init) && Run(false, init, ops).Some?
    ensures var s := Run(false, init, ops).value; Fetch(s) == Build(s.src) <==> CacheCurrent(s)
  {
    NewVerbInv(init);
    RunKeepsInv(false, init, ops);
    FetchIsFreshExactly(Run(false, init, ops).value);
  }

  /**
   Which calls leave a built request standing, so that the next `get_wr` does not rebuild it: those that write what
   is there already, where the source looks, and in the written form the two that change the list. Only `get_wr`
   builds one.
   */
  lemma RequestStandsExactly(repaired: bool, s: State, op: Op)
    requires Step(repaired, s, op).Some?
    ensures Step(repaired, s, op).value.builtWr
            <==> match op
                 case GetWr(_) => true
                 case SetId(id) => s.builtWr && id == s.src.wrId
                 case SetOp(opcode) => s.builtWr && s.src.opcode == Some(opcode)
                 case SetNotify(notify) => s.builtWr && notify == s.src.notified
                 case ClearImm => s.builtWr && !s.src.carryImm
                 case SetSgl(_) => s.builtWr && !repaired
                 case AddSgl(_) => s.builtWr && !repaired
                 case _ => false
    ensures Step(repaired, s, op).value.builtSgl <==> op.GetWr? || (s.builtSgl && !op.SetSgl? && !op.AddSgl?)
  {
  }

  /** Every `get_wr` made along the run gives what a fresh build gives. */
  predicate EveryGetAgrees(s: State, ops: seq<Op>)
    decreases |ops|
  {
    ops != [] ==>
      && (ops[0].GetWr? ==> Fetch(s) == Build(s.src))
      && (Step(false, s, ops[0]).Some? ==> EveryGetAgrees(Step(false, s, ops[0]).value, ops[1..]))
  }

  /**
   At every `get_wr` along the run that does not rebuild the request, the list has as many
   entries as at the last rebuild (`num_sge`), and still passes the check for atomics. (A list
   with an oversized entry makes both forms panic.) Nothing here speaks of buffers.
   */
  predicate EveryGetKeepsCount(s: State, ops: seq<Op>)
    decreases |ops|
  {
    ops != [] ==>
      && (ops[0].GetWr? && s.builtWr && AllFit(s.src.sgl) ==> |s.src.sgl| == s.numSge && PassesAtomicCheck(s.src))
      && (Step(false, s, ops[0]).Some? ==> EveryGetKeepsCount(Step(false, s, ops[0]).value, ops[1..]))
  }

  /** The request's list has not been left behind by a reallocation so far. */
  predicate NotLeftBehind(s: State) {
    s.builtWr ==> s.wrBuf == s.realBuf && s.numSge <= s.realCap
  }

  lemma GetAgreesExactly(s: State)
    requires Inv(s) && NotLeftBehind(s)
    ensures Fetch(s) == Build(s.src)
            <==> (s.builtWr && AllFit(s.src.sgl) ==> |s.src.sgl| == s.numSge && PassesAtomicCheck(s.src))
  {
    FetchIsFreshExactly(s);
  }

  /** A list is left behind only by a `get_wr` that finds more entries than the request has. */
  lemma LeftBehindByGet(s: State, op: Op)
    requires Inv(s) && NotLeftBehind(s) && Step(false, s, op).Some?
    ensures NotLeftBehind(Step(false, s, op).value)
            || (op.GetWr? && s.builtWr && AllFit(s.src.sgl) && |s.src.sgl| > s.numSge)
  {
    if IsSetter(op) {
      var src := SetterTouches(false, s, op);
    }
  }

  lemma {:induction false} EveryGetAgreesFrom(s: State, ops: seq<Op>)
    requires Inv(s) && NotLeftBehind(s)
    ensures EveryGetAgrees(s, ops) <==> EveryGetKeepsCount(s, ops)
    decreases |ops|
  {
    if ops != [] {
      GetAgreesExactly(s);
      if Step(false, s, ops[0]).Some? {
        var t := Step(false, s, ops[0]).value;
        StepKeepsInv(false, s, ops[0]);
        LeftBehindByGet(s, ops[0]);
        if NotLeftBehind(t) {
          EveryGetAgreesFrom(t, ops[1..]);
        }
      }
    }
  }

  /**
   Over whole histories of the code as written: every `get_wr` agrees with a fresh build iff
   at each of them the entry count is that of the last rebuild (and atomics keep a fit list).
   */
  lemma EveryGetAgreesExactly(init: State, ops: seq<Op>)
    requires IsNew(init)
    ensures EveryGetAgrees(init, ops) <==> EveryGetKeepsCount(init, ops)
  {
    NewVerbInv(init);
    EveryGetAgreesFrom(init, ops);
  }

  /** A send with one entry, fetched; a second entry added: the next request still has only the first. */
  lemma StaleCountWitness(init: State, a: Slice, b: Slice)
    requires IsNew(init) && init.src.kind.SendWr? && Fits(a) && Fits(b)
    ensures var ops := [SetOp(Send), SetSgl(a), GetWr(1), AddSgl(b)];
            && Run(false, init, ops).Some?
            && var s := Run(false, init, ops).value;
               && Fetch(s).Returned? && Fetch(s).posted.Request? && |Fetch(s).posted.sges| == 1
               && Build(s.src).Returned? && |Build(s.src).posted.sges| == 2
  {
    var ops := [SetOp(Send), SetSgl(a), GetWr(1), AddSgl(b)];
    var s1 := Step(false, init, ops[0]).value;
    var s2 := Step(false, s1, ops[1]).value;
    var s3 := Step(false, s2, ops[2]).value;
    var s4 := Step(false, s3, ops[3]).value;
    assert ops[1..] == [SetSgl(a), GetWr(1), AddSgl(b)];
    assert ops[1..][1..] == [GetWr(1), AddSgl(b)];
    assert ops[1..][1..][1..] == [AddSgl(b)];
    assert Run(false, s3, [AddSgl(b)]) == Run(false, s4, []);
    assert Run(false, s2, ops[1..][1..]) == Run(false, s3, [AddSgl(b)]);
    assert Run(false, s1, ops[1..]) == Run(false, s2, ops[1..][1..]);
    assert Run(false, init, ops) == Some(s4);
    assert s4.src.sgl == [a, b];
  }

  // ---------- length ----------

  lemma {:induction false} FittingSum(sgl: seq<Slice>)
    requires AllFit(sgl)
    ensures SumSizes(sgl) <= |sgl| * UINT32_MAX
    ensures SumLengths(SgesOf(sgl)) == SumSizes(sgl)
  {
    if sgl != [] {
      var shorter := sgl[..|sgl| - 1];
      FittingSum(shorter);
      assert sgl[|sgl| - 1] in sgl && SgeOf(sgl[|sgl| - 1]).length == sgl[|sgl| - 1].size;
      assert SgesOf(sgl)[..|sgl| - 1] == SgesOf(shorter);
    }
  }

  /**
   After any history the list holds at most 16 entries and `length` is the 64-bit sum of their
   sizes; and when `get_wr` has built the real list, its 32-bit lengths add up to `length` without wrap.
   */
  lemma LengthConserved(repaired: bool, init: State, ops: seq<Op>)
    requires IsNew(init) && Run(repaired, init, ops).Some?
    ensures var s := Run(repaired, init, ops).value;
            && |s.src.sgl| <= 16
            && s.src.length == SumSizes(s.src.sgl) % WORD
            && (s.builtSgl ==> SumLengths(s.realSgl) == SumSizes(s.src.sgl) == s.src.length)
  {
    NewVerbInv(init);
    RunKeepsInv(repaired, init, ops);
    var s := Run(repaired, init, ops).value;
    if s.builtSgl {
      FittingSum(s.src.sgl);
      assert |s.src.sgl| * UINT32_MAX <= MAX_SGE * UINT32_MAX < WORD;
    }
  }

  // ---------- atomics ----------

  /** What a device demands of an atomic: a remote target and one 8-byte entry on an 8-byte boundary. */
  predicate AtomicWellFormed(p: Posted) {
    && p.Request?
    && !p.fields.target.NoTarget? && !p.fields.target.Rdma?
    && |p.sges| == 1 && p.sges[0].length == 8 && p.sges[0].addr % 8 == 0
  }

  predicate HasAtomicOpcode(p: Posted) {
    p.fields.opcode.Some? && IsAtomic(p.fields.opcode.value)
  }

  /**
   As written, exactly when an atomic that `get_wr` returns is well formed: the first entry has
   8 bytes and alignment, whatever follows it, and the list has not been reallocated since the rebuild.
   */
  lemma AtomicFetchExactly(s: State)
    requires Inv(s) && Fetch(s).Returned? && HasAtomicOpcode(Fetch(s).posted)
    ensures s.src.sgl != []
    ensures AtomicWellFormed(Fetch(s).posted)
            <==> s.src.sgl[0].size == 8 && IsAligned(s.src.sgl[0]) && (s.builtWr ==> KeepsBuffer(s))
  {
    var t := GetWrStep(s, 0).value;
    assert t.realSgl == SgesOf(s.src.sgl);
    if !s.builtWr {
      CapableExactly(s.src);
    }
    assert t.numSge == 1;
    assert Fits(s.src.sgl[0]);
  }

  lemma WrittenAtomicsExactly(init: State, ops: seq<Op>)
    requires IsNew(init) && Run(false, init, ops).Some?
    ensures var s := Run(false, init, ops).value;
            Fetch(s).Returned? && HasAtomicOpcode(Fetch(s).posted) ==>
              && s.src.sgl != []
              && (AtomicWellFormed(Fetch(s).posted)
                  <==> s.src.sgl[0].size == 8 && IsAligned(s.src.sgl[0]) && (s.builtWr ==> KeepsBuffer(s)))
  {
    NewVerbInv(init);
    RunKeepsInv(false, init, ops);
    var s := Run(false, init, ops).value;
    if Fetch(s).Returned? && HasAtomicOpcode(Fetch(s).posted) {
      AtomicFetchExactly(s);
    }
  }

  /** Repaired, every atomic request is well formed, after every history. */
  lemma RepairedAtomicsWellFormed(init: State, ops: seq<Op>)
    requires IsNew(init) && Run(true, init, ops).Some?
    ensures var s := Run(true, init, ops).value;
            Fetch(s).Returned? && HasAtomicOpcode(Fetch(s).posted) ==> AtomicWellFormed(Fetch(s).posted)
  {
    NewVerbInv(init);
    RunKeepsRepairedInv(init, ops);
    var s := Run(true, init, ops).value;
    if Fetch(s).Returned? && HasAtomicOpcode(Fetch(s).posted) {
      AtomicFetchExactly(s);
      CapableExactly(s.src);
    }
  }
}
