/**
 `rdma_verb` in the form of the source: an object whose setters write its fields and whose
 `get_wr` fills the two caches in place. Every method is proved to be one `Step` of the
 written form. A method that returns `ok == false` has panicked.
 */
module VerbObject {
  import opened Words
  import opened Memory
  import opened VerbModel

  class Verb {
    // cached list and request
    var realSgl: seq<Sge>
    var realCap: nat
    var realBuf: nat
    var builtSgl: bool
    var fields: Fields
    var wrBuf: nat
    var numSge: nat
    var next: Verb?
    var builtWr: bool

    // original information
    const kind: Kind
    var wrId: Word
    var opcode: Option<Opcode>
    var sgl: seq<Slice>
    var length: Word
    var remote: Option<Remote>
    var notified: bool
    var carryImm: bool
    var immData: nat
    var operands: Operands

    function Src(): Source
      reads this
    {
      Source(kind, wrId, opcode, sgl, length, remote, notified, carryImm, immData, operands)
    }

    function Abs(): State
      reads this
    {
      State(Src(), realSgl, realCap, realBuf, builtSgl, fields, wrBuf, numSge, builtWr)
    }

    /** A default-constructed verb; what is left uninitialised gets arbitrary values. */
    constructor (kind: Kind, anyId: Word, anyFields: Fields, anyNext: Verb?)
      ensures IsNew(Abs()) && this.kind == kind && wrId == anyId
    {
      this.kind := kind;
      wrId := anyId;
      fields := anyFields;
      next := anyNext;
      realSgl, realCap, builtSgl, builtWr := [], 0, false, false;
      opcode, sgl, length, remote, notified := None, [], 0, None, false;
      carryImm, immData := false, 0;
      operands := Operands(0, 0, 0, 0);
    }

    method SetId(id: Word)
      modifies this
      ensures Step(false, old(Abs()), Op.SetId(id)) == Some(Abs()) && next == old(next)
    {
      if wrId != id {
        wrId := id;
        builtWr := false;
      }
    }

    method SetOp(op: Opcode)
      requires kind.SendWr?
      modifies this
      ensures Step(false, old(Abs()), Op.SetOp(op)) == Some(Abs()) && next == old(next)
    {
      if opcode != Some(op) {
        opcode := Some(op);
        builtWr := false;
      }
    }

    method SetSglEntry(entry: Slice)
      modifies this
      ensures Step(false, old(Abs()), SetSgl(entry)) == Some(Abs()) && next == old(next)
    {
      sgl := [];
      length := 0;
      builtSgl := false;
      var ok := AddSglEntry(entry);
    }

    method AddSglEntry(entry: Slice) returns (ok: bool)
      modifies this
      ensures ok <==> |old(sgl)| < 16
      ensures Step(false, old(Abs()), AddSgl(entry)) == if ok then Some(Abs()) else None
      ensures next == old(next)
    {
      if |sgl| >= MAX_SGE {
        return false;
      }
      sgl := sgl + [entry];
      length := (length + entry.size) % WORD;
      builtSgl := false;
      return true;
    }

    method SetRemoteMemory(remote: Remote)
      requires kind.SendWr?
      modifies this
      ensures Step(false, old(Abs()), SetRemote(remote)) == Some(Abs()) && next == old(next)
    {
      this.remote := Some(remote);
      builtWr := false;
    }

    method SetNotify(notify: bool)
      requires kind.SendWr?
      modifies this
      ensures Step(false, old(Abs()), Op.SetNotify(notify)) == Some(Abs()) && next == old(next)
    {
      if notified != notify {
        notified := notify;
        builtWr := false;
      }
    }

    method SetImm(data: nat)
      requires kind.SendWr?
      modifies this
      ensures Step(false, old(Abs()), Op.SetImm(data)) == Some(Abs()) && next == old(next)
    {
      carryImm := true;
      immData := data;
      builtWr := false;
    }

    method ClearImm()
      requires kind.SendWr?
      modifies this
      ensures Step(false, old(Abs()), Op.ClearImm) == Some(Abs()) && next == old(next)
    {
      if carryImm {
        carryImm := false;
        builtWr := false;
      }
    }

    method SetCas(compare: Word, swap: Word)
      requires kind.SendWr?
      modifies this
      ensures Step(false, old(Abs()), Op.SetCas(compare, swap)) == Some(Abs()) && next == old(next)
    {
      opcode := Some(Cas);
      operands := operands.(compareAdd := compare, swap := swap);
      builtWr := false;
    }

    method SetFaa(add: Word)
      requires kind.SendWr?
      modifies this
      ensures Step(false, old(Abs()), Op.SetFaa(add)) == Some(Abs()) && next == old(next)
    {
      opcode := Some(Faa);
      operands := operands.(compareAdd := add);
      builtWr := false;
    }

    method SetMaskedCas(compare: Word, swap: Word, compareMask: Word, swapMask: Word)
      requires kind.SendWr?
      modifies this
      ensures Step(false, old(Abs()), Op.SetMaskedCas(compare, swap, compareMask, swapMask)) == Some(Abs())
      ensures next == old(next)
    {
      opcode := Some(MaskedCas);
      operands := Operands(compare, swap, compareMask, swapMask);
      builtWr := false;
    }

    method SetMaskedFaa(add: Word, addMask: Word)
      requires kind.SendWr?
      modifies this
      ensures Step(false, old(Abs()), Op.SetMaskedFaa(add, addMask)) == Some(Abs()) && next == old(next)
    {
      opcode := Some(MaskedFaa);
      operands := operands.(compareAdd := add, compareAddMask := addMask);
      builtWr := false;
    }

    method SetCompare(compare: Word)
      requires kind.SendWr?
      modifies this
      ensures Step(false, old(Abs()), Op.SetCompare(compare)) == Some(Abs()) && next == old(next)
    {
      operands := operands.(compareAdd := compare);
      builtWr := false;
    }

    method SetSwap(swap: Word)
      requires kind.SendWr?
      modifies this
      ensures Step(false, old(Abs()), Op.SetSwap(swap)) == Some(Abs()) && next == old(next)
    {
      operands := operands.(swap := swap);
      builtWr := false;
    }

    method SetCompareMask(compareMask: Word)
      requires kind.SendWr?
      modifies this
      ensures Step(false, old(Abs()), Op.SetCompareMask(compareMask)) == Some(Abs()) && next == old(next)
    {
      operands := operands.(compareAddMask := compareMask);
      builtWr := false;
    }

    method SetSwapMask(swapMask: Word)
      requires kind.SendWr?
      modifies this
      ensures Step(false, old(Abs()), Op.SetSwapMask(swapMask)) == Some(Abs()) && next == old(next)
    {
      operands := operands.(swapMask := swapMask);
      builtWr := false;
    }

    method SetAdd(add: Word)
      requires kind.SendWr?
      modifies this
      ensures Step(false, old(Abs()), Op.SetAdd(add)) == Some(Abs()) && next == old(next)
    {
      operands := operands.(compareAdd := add);
      builtWr := false;
    }

    method SetAddMask(addMask: Word)
      requires kind.SendWr?
      modifies this
      ensures Step(false, old(Abs()), Op.SetAddMask(addMask)) == Some(Abs()) && next == old(next)
    {
      operands := operands.(compareAddMask := addMask);
      builtWr := false;
    }

    /** `real_sgl.resize(n)`: reallocates exactly when `n` exceeds the capacity. */
    method Resize(n: nat, spare: nat)
      modifies this`realSgl, this`realCap, this`realBuf
      ensures |realSgl| == n
      ensures forall i :: 0 <= i < n && i < |old(realSgl)| ==> realSgl[i] == old(realSgl)[i]
      ensures realCap == if n > old(realCap) then n + spare else old(realCap)
      ensures realBuf == if n > old(realCap) then old(realBuf) + 1 else old(realBuf)
    {
      if n > realCap {
        realCap := n + spare;
        realBuf := realBuf + 1;
      }
      realSgl := if n <= |realSgl| then realSgl[..n]
                 else realSgl + seq(n - |realSgl|, _ => Sge(0, 0, 0));
    }

    method FillRealSgl(spare: nat) returns (ok: bool)
      modifies this
      ensures ok <==> ConstructSgl(old(Abs()), spare).Some?
      ensures ok ==> ConstructSgl(old(Abs()), spare) == Some(Abs())
      ensures next == old(next)
    {
      if builtSgl {
        return true;
      }
      Resize(|sgl|, spare);
      ghost var resized := Abs();
      for i := 0 to |sgl|
        invariant |realSgl| == |sgl| && next == old(next)
        invariant Abs() == resized.(realSgl := realSgl)
        invariant forall j :: 0 <= j < i ==> Fits(sgl[j]) && realSgl[j] == SgeOf(sgl[j])
      {
        if sgl[i].size > UINT32_MAX {
          assert sgl[i] in old(sgl) && !Fits(sgl[i]);
          return false;
        }
        realSgl := realSgl[i := Sge(sgl[i].ptr, sgl[i].size, sgl[i].region.lkey)];
      }
      assert realSgl == SgesOf(sgl);
      builtSgl := true;
      return true;
    }

    /** `construct_wr`: overwrites the cached request, unless it is marked built. */
    method FillWr() returns (ok: bool)
      modifies this
      ensures ok <==> ConstructWr(old(Abs())).Some?
      ensures ok ==> ConstructWr(old(Abs())) == Some(Abs())
      ensures old(builtWr) ==> next == old(next)
      ensures ok && !old(builtWr) ==> next == null
    {
      if builtWr {
        return true;
      }
      fields := Fields(wrId, None, false, 0, NoTarget);
      next := null;
      wrBuf := realBuf;
      numSge := |realSgl|;
      if kind.SendWr? {
        ok := FillSendFields();
        if !ok {
          return false;
        }
      }
      builtWr := true;
      return true;
    }

    /** The part of `construct_wr` for send requests, up to the union member. */
    method FillSendFields() returns (ok: bool)
      requires kind.SendWr? && fields == Fields(wrId, None, false, 0, NoTarget)
      modifies this`fields
      ensures ok <==> FreshFields(Src()).Some?
      ensures ok ==> FreshFields(Src()) == Some(fields)
    {
      if opcode.None? {
        return false;
      }
      var op := opcode.value;
      fields := fields.(opcode := opcode);
      if notified {
        fields := fields.(signaled := true);
      }
      if carryImm {
        fields := fields.(immData := immData);
      }
      if op != Send && op != SendImm && remote.None? {
        return false;
      }
      ok := FillTarget(op);
    }

    method FillTarget(op: Opcode) returns (ok: bool)
      requires kind.SendWr? && opcode == Some(op) && (!IsTwoSided(op) ==> remote.Some?)
      requires fields.target == NoTarget
      modifies this`fields
      ensures ok <==> PassesAtomicCheck(Src()) && TargetOf(Src()).Some?
      ensures ok ==> fields == old(fields).(target := TargetOf(Src()).value)
    {
      if op == Read || op == Write || op == WriteImm {
        fields := fields.(target := Rdma(remote.value.addr, remote.value.rkey));
      } else if op == Cas || op == Faa {
        var capable := CheckAtomicCapable();
        if !capable {
          return false;
        }
        fields := fields.(target := Atomic(remote.value.addr, remote.value.rkey,
                                           operands.compareAdd, operands.swap));
      } else if op == MaskedCas || op == MaskedFaa {
        var capable := CheckAtomicCapable();
        if !capable {
          return false;
        }
        if op == MaskedCas {
          fields := fields.(target := MaskedCmpSwap(remote.value.addr, remote.value.rkey,
                                                    operands.compareAdd, operands.swap,
                                                    operands.compareAddMask, operands.swapMask));
        } else {
          fields := fields.(target := MaskedFetchAdd(remote.value.addr, remote.value.rkey,
                                                     operands.compareAdd, operands.compareAddMask));
        }
      } else if op != Send && op != SendImm {
        return false;
      }
      return true;
    }

    /** `is_atomic_capable`: it looks at `length`, but finds out about the one entry's size. */
    method CheckAtomicCapable() returns (capable: bool)
      ensures capable <==> IsAtomicCapable(Src())
      ensures LengthInv(Src()) ==> (capable <==> |sgl| == 1 && sgl[0].size == 8 && sgl[0].ptr % 8 == 0)
    {
      capable := length == 8 && |sgl| == 1 && sgl[0].ptr % 8 == 0;
      if LengthInv(Src()) {
        CapableExactly(Src());
      }
    }

    /** `get_wr`: the `GetWr` step, and the request is left unchained. */
    method GetWr(spare: nat) returns (ok: bool)
      modifies this
      ensures GetWrStep(old(Abs()), spare) == if ok then Some(Abs()) else None
      ensures ok ==> next == null
      ensures ok <==> Fetch(old(Abs())).Returned?
      ensures ok ==> Fetched(old(Abs()), Abs())
    {
      if kind.SendWr? && opcode.None? {
        return false;
      }
      ok := FillRealSgl(spare);
      if ok {
        ok := FillWr();
        next := null;
      }
    }

    /** `set_next`, with the call of `get_wr` on the next verb that it intends. */
    method SetNext(successor: Verb, spare: nat) returns (ok: bool)
      requires successor != this
      modifies this`next, successor
      ensures GetWrStep(old(successor.Abs()), spare) == if ok then Some(successor.Abs()) else None
      ensures ok <==> Fetch(old(successor.Abs())).Returned?
      ensures ok ==> Fetched(old(successor.Abs()), successor.Abs())
      ensures ok ==> next == successor && successor.next == null
      ensures !ok ==> next == old(next)
    {
      ok := successor.GetWr(spare);
      if ok {
        next := successor;
      }
    }

    method ClearNext()
      modifies this`next
      ensures next == null
    {
      next := null;
    }
  }
}
