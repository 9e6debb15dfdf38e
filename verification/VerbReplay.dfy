/**
 Whole histories on an object: making any calls on a `Verb` one after another is a run of the model, so
 the theorems about runs hold of the object and of the requests its `get_wr` gave along the way.
 */
module VerbReplay {
  import opened Words
  import opened Memory
  import opened VerbModel
  import opened VerbHistory
  import opened LastWrites
  import opened VerbObject

  /** A receive request has an id and a list; every other setter is for sends only. */
  predicate Offered(kind: Kind, op: Op) {
    kind.SendWr? || op.SetId? || op.SetSgl? || op.AddSgl? || op.GetWr?
  }

  /** The call that `op` stands for; it panics iff `ok` is false. */
  method Apply(v: Verb, op: Op) returns (ok: bool)
    requires Offered(v.kind, op)
    modifies v
    ensures Step(false, old(v.Abs()), op) == if ok then Some(v.Abs()) else None
  {
    ok := true;
    match op {
      case SetId(id) => v.SetId(id);
      case SetOp(opcode) => v.SetOp(opcode);
      case SetSgl(entry) => v.SetSglEntry(entry);
      case AddSgl(entry) => ok := v.AddSglEntry(entry);
      case SetRemote(remote) => v.SetRemoteMemory(remote);
      case SetNotify(notify) => v.SetNotify(notify);
      case SetImm(data) => v.SetImm(data);
      case ClearImm => v.ClearImm();
      case SetCas(compare, swap) => v.SetCas(compare, swap);
      case SetFaa(add) => v.SetFaa(add);
      case SetMaskedCas(compare, swap, compareMask, swapMask) =>
        v.SetMaskedCas(compare, swap, compareMask, swapMask);
      case SetMaskedFaa(add, addMask) => v.SetMaskedFaa(add, addMask);
      case SetCompare(compare) => v.SetCompare(compare);
      case SetSwap(swap) => v.SetSwap(swap);
      case SetCompareMask(compareMask) => v.SetCompareMask(compareMask);
      case SetSwapMask(swapMask) => v.SetSwapMask(swapMask);
      case SetAdd(add) => v.SetAdd(add);
      case SetAddMask(addMask) => v.SetAddMask(addMask);
      case GetWr(spare) => ok := v.GetWr(spare);
    }
  }

  /** What a `get_wr` that has just been made came to, as the device would read it. */
  function OutcomeOf(v: Verb, ok: bool): Outcome
    reads v
  {
    if ok then Returned(View(v.Abs())) else Panicked
  }

  lemma RunSnoc(s: State, ops: seq<Op>, op: Op)
    requires Run(false, s, ops).Some?
    ensures Run(false, s, ops + [op]) == Step(false, Run(false, s, ops).value, op)
  {
    assert (ops + [op])[..|ops|] == ops;
    RunLast(false, s, ops + [op]);
  }

  lemma {:induction false} RunStopsAtPanic(s: State, ops: seq<Op>, rest: seq<Op>)
    requires Run(false, s, ops).None?
    ensures Run(false, s, ops + rest).None?
    decreases |ops|
  {
    assert (ops + rest)[1..] == ops[1..] + rest;
    if Step(false, s, ops[0]).Some? {
      RunStopsAtPanic(Step(false, s, ops[0]).value, ops[1..], rest);
    }
  }

  lemma {:induction false} AgreesSnoc(s: State, ops: seq<Op>, op: Op)
    requires Run(false, s, ops).Some?
    ensures var t := Run(false, s, ops).value;
            EveryGetAgrees(s, ops + [op]) <==> EveryGetAgrees(s, ops) && (op.GetWr? ==> Fetch(t) == Build(t.src))
    decreases |ops|
  {
    if ops == [] {
      assert ops + [op] == [op];
      assert [op][1..] == [];
    } else {
      assert (ops + [op])[1..] == ops[1..] + [op];
      AgreesSnoc(Step(false, s, ops[0]).value, ops[1..], op);
    }
  }

  lemma {:induction false} AgreesStopsAtPanic(s: State, ops: seq<Op>, rest: seq<Op>)
    requires Run(false, s, ops).None?
    ensures EveryGetAgrees(s, ops + rest) <==> EveryGetAgrees(s, ops)
    decreases |ops|
  {
    assert (ops + rest)[1..] == ops[1..] + rest;
    if Step(false, s, ops[0]).Some? {
      AgreesStopsAtPanic(Step(false, s, ops[0]).value, ops[1..], rest);
    }
  }

  /** A run that has made `ops[..i]` makes one more call. */
  lemma ReplayedOneMore(s: State, ops: seq<Op>, i: nat, now: State)
    requires i < |ops| && Run(false, s, ops[..i]) == Some(now)
    ensures Run(false, s, ops[..i + 1]) == Step(false, now, ops[i])
    ensures EveryGetAgrees(s, ops[..i + 1])
            <==> EveryGetAgrees(s, ops[..i]) && (ops[i].GetWr? ==> Fetch(now) == Build(now.src))
    ensures Step(false, now, ops[i]).None? ==>
              Run(false, s, ops).None? && (EveryGetAgrees(s, ops) <==> EveryGetAgrees(s, ops[..i + 1]))
  {
    assert ops[..i + 1] == ops[..i] + [ops[i]];
    RunSnoc(s, ops[..i], ops[i]);
    AgreesSnoc(s, ops[..i], ops[i]);
    if Step(false, now, ops[i]).None? {
      assert ops == ops[..i + 1] + ops[i + 1..];
      RunStopsAtPanic(s, ops[..i + 1], ops[i + 1..]);
      AgreesStopsAtPanic(s, ops[..i + 1], ops[i + 1..]);
    }
  }

  /** The request that a history ending in `get_wr` leaves in the verb. */
  lemma LastGetWr(start: State, ops: seq<Op>, now: State)
    requires IsNew(start) && Run(false, start, ops) == Some(now) && ops != [] && ops[|ops| - 1].GetWr?
    ensures FieldsFollow(start.src.kind, start.src.wrId, ops, View(now).fields)
    ensures EveryGetAgrees(start, ops) ==> View(now).Request? && SgesFollow(ops, View(now).sges)
  {
    var before := ops[..|ops| - 1];
    RunLast(false, start, ops);
    assert ops == before + [ops[|ops| - 1]];
    AgreesSnoc(start, before, ops[|ops| - 1]);
    var t := Run(false, start, before).value;
    assert Fetched(t, now);
    FetchedIsStable(t, now, 0);
    RequestIsLastWritten(false, start, ops);
    WrittenAgreesExactly(start, ops);
  }

  lemma NewVerbReplayed(start: State, ops: seq<Op>)
    requires IsNew(start)
    ensures EveryGetAgrees(start, ops) <==> EveryGetKeepsCount(start, ops)
    ensures Run(false, start, ops).Some? ==>
              var now := Run(false, start, ops).value;
              && (Fetch(now) == Build(now.src) <==> CacheCurrent(now))
              && (ops != [] && ops[|ops| - 1].GetWr? ==>
                    && FieldsFollow(start.src.kind, start.src.wrId, ops, View(now).fields)
                    && (EveryGetAgrees(start, ops) ==> View(now).Request? && SgesFollow(ops, View(now).sges)))
  {
    EveryGetAgreesExactly(start, ops);
    if Run(false, start, ops).Some? {
      WrittenAgreesExactly(start, ops);
      if ops != [] && ops[|ops| - 1].GetWr? {
        LastGetWr(start, ops, Run(false, start, ops).value);
      }
    }
  }

  /** How far the vector grows makes no difference to the request. */
  lemma FetchedBy(before: State, spare: nat, v: Verb, ok: bool)
    requires GetWrStep(before, spare) == if ok then Some(v.Abs()) else None
    ensures OutcomeOf(v, ok) == Fetch(before)
  {
  }

  /** The calls themselves. `agreed`: each `get_wr` gave what the source fields described at that moment. */
  method MakeCalls(v: Verb, ops: seq<Op>) returns (ok: bool, agreed: bool)
    requires forall op <- ops :: Offered(v.kind, op)
    modifies v
    ensures Run(false, old(v.Abs()), ops) == if ok then Some(v.Abs()) else None
    ensures agreed <==> EveryGetAgrees(old(v.Abs()), ops)
  {
    ghost var start := v.Abs();
    ok, agreed := true, true;
    for i := 0 to |ops|
      invariant Run(false, start, ops[..i]) == Some(v.Abs())
      invariant agreed <==> EveryGetAgrees(start, ops[..i])
      invariant ok
    {
      ghost var now := v.Abs();
      var described := Build(v.Src());
      ok := Apply(v, ops[i]);
      ReplayedOneMore(start, ops, i, now);
      if ops[i].GetWr? {
        FetchedBy(now, ops[i].spare, v, ok);
        agreed := agreed && OutcomeOf(v, ok) == described;
      }
      if !ok {
        break;
      }
    }
    assert ok ==> ops[..|ops|] == ops;
  }

  /**
   Any calls on any verb, in any order, up to the end or the first panic: the object ends where the run of the
   model ends. `agreed` is whether each `get_wr` on the way gave what its source fields described at that moment;
   on a new verb that is so exactly when none of them found its list longer or shorter than at the last rebuild,
   or an atomic without a fit list. If the last call is `get_wr`, the request it leaves has in each field what the
   last call that writes it said.
   */
  method Replay(v: Verb, ops: seq<Op>) returns (ok: bool, agreed: bool)
    requires forall op <- ops :: Offered(v.kind, op)
    modifies v
    ensures Run(false, old(v.Abs()), ops) == if ok then Some(v.Abs()) else None
    ensures agreed <==> EveryGetAgrees(old(v.Abs()), ops)
    ensures old(IsNew(v.Abs())) ==> (agreed <==> EveryGetKeepsCount(old(v.Abs()), ops))
    ensures old(IsNew(v.Abs())) && ok ==> (Fetch(v.Abs()) == Build(v.Src()) <==> CacheCurrent(v.Abs()))
    ensures old(IsNew(v.Abs())) && ok && ops != [] && ops[|ops| - 1].GetWr? ==>
              && FieldsFollow(v.kind, old(v.wrId), ops, v.fields)
              && (agreed ==> View(v.Abs()).Request? && SgesFollow(ops, View(v.Abs()).sges))
  {
    ghost var start := v.Abs();
    ok, agreed := MakeCalls(v, ops);
    if IsNew(start) {
      NewVerbReplayed(start, ops);
    }
  }
}
