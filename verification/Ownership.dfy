/**
 Ownership of device handles: `rdma_cq`, `rdma_qp` and `rdma_memory_region` are move-only
 wrappers with a destructor, and assign by destroying themselves and moving in place.
 A queue or queue pair owns one handle, a memory region one or two.
 */
module Ownership {
  import opened Words

  /**
   `held`: the handles of each wrapper now alive, in the order its destructor gives them back.
   The device counts what it created and logs what was destroyed.
   */
  datatype State<O(==)> = State(held: map<O, seq<nat>>, created: nat, live: set<nat>, destroyed: seq<nat>)

  datatype Op<O> =
    | Create(o: O, count: nat)
    | MoveConstruct(o: O, from: O)
    | MoveAssign(o: O, from: O)
    | Destruct(o: O)

  function NewHandles(first: nat, count: nat): (hs: seq<nat>)
    ensures |hs| == count && forall i :: 0 <= i < count ==> hs[i] == first + i
  {
    seq(count, i requires 0 <= i < count => first + i)
  }

  function ToSet(hs: seq<nat>): set<nat> {
    set h | h in hs
  }

  /** The destructor's body: gives back what `o` holds and leaves it empty. */
  function Clear<O(==)>(s: State<O>, o: O): State<O>
    requires o in s.held
  {
    s.(held := s.held[o := []], live := s.live - ToSet(s.held[o]), destroyed := s.destroyed + s.held[o])
  }

  /** What a move leaves: all in `o`, nothing in `from`. */
  function Moved<O(==)>(s: State<O>, o: O, from: O): State<O>
    requires from in s.held
  {
    s.(held := s.held[o := s.held[from]][from := []])
  }

  /** `None`: a call that names a wrapper which is not alive, or makes one which is. */
  function Step<O(==)>(s: State<O>, op: Op<O>): Option<State<O>> {
    match op
    case Create(o, count) =>
      if o in s.held then None
      else
        var hs := NewHandles(s.created, count);
        Some(s.(held := s.held[o := hs], created := s.created + count, live := s.live + ToSet(hs)))
    case MoveConstruct(o, from) =>
      if o in s.held || from !in s.held then None else Some(Moved(s, o, from))
    case MoveAssign(o, from) =>
      if o !in s.held || from !in s.held then None
      else if o == from then Some(s)
      else Some(Moved(Clear(s, o), o, from))
    case Destruct(o) =>
      if o !in s.held then None
      else var cleared := Clear(s, o); Some(cleared.(held := cleared.held - {o}))
  }

  function Run<O(==)>(s: State<O>, ops: seq<Op<O>>): Option<State<O>>
    decreases |ops|
  {
    if ops == [] then Some(s) else
      match Step(s, ops[0])
      case None => None
      case Some(t) => Run(t, ops[1..])
  }

  predicate NoRepeats(hs: seq<nat>) {
    forall i, j :: 0 <= i < j < |hs| ==> hs[i] != hs[j]
  }

  predicate Holds<O(==)>(s: State<O>, o: O, h: nat) {
    o in s.held && h in s.held[o]
  }

  ghost predicate IsHeld<O>(s: State<O>, h: nat) {
    exists o :: o in s.held && Holds(s, o, h)
  }

  /** The live handles are exactly those some wrapper holds, and no two wrappers hold the same one. */
  ghost predicate UniquelyHeld<O>(s: State<O>) {
    && (forall h :: h in s.live <==> IsHeld(s, h))
    && (forall o :: o in s.held ==> NoRepeats(s.held[o]))
    && (forall o, p, h :: o in s.held && p in s.held && Holds(s, o, h) && Holds(s, p, h) ==> o == p)
  }

  predicate LiveOrDestroyed<O>(s: State<O>, h: nat) {
    h in s.live || h in s.destroyed
  }

  /** Every handle created is live or destroyed and not both, and none was destroyed twice. */
  ghost predicate Accounted<O>(s: State<O>) {
    && NoRepeats(s.destroyed)
    && (forall h <- s.destroyed :: h !in s.live)
    && (forall h: nat :: LiveOrDestroyed(s, h) <==> h < s.created)
  }

  ghost predicate Inv<O>(s: State<O>) {
    UniquelyHeld(s) && Accounted(s)
  }

  lemma CreateIsAccounted<O>(s: State<O>, o: O, count: nat)
    requires Inv(s) && o !in s.held
    ensures Accounted(Step(s, Create(o, count)).value)
  {
    var t := Step(s, Create(o, count)).value;
    var hs := NewHandles(s.created, count);
    forall h: nat ensures LiveOrDestroyed(t, h) <==> h < t.created {
      assert LiveOrDestroyed(s, h) <==> h < s.created;
      if s.created <= h < t.created {
        assert hs[h - s.created] == h;
      }
    }
    forall h | h in s.destroyed ensures h !in t.live {
      assert LiveOrDestroyed(s, h);
    }
  }

  lemma CreateIsUnique<O>(s: State<O>, o: O, count: nat)
    requires Inv(s) && o !in s.held
    ensures UniquelyHeld(Step(s, Create(o, count)).value)
  {
    var t := Step(s, Create(o, count)).value;
    var hs := NewHandles(s.created, count);
    forall p, h | p in s.held && Holds(s, p, h) ensures h !in hs {
      assert IsHeld(s, h) && LiveOrDestroyed(s, h);
    }
    assert forall p, h :: p in s.held ==> (Holds(t, p, h) <==> Holds(s, p, h));
    forall h ensures h in t.live <==> IsHeld(t, h) {
      if h in s.live {
        assert IsHeld(s, h);
        var p :| p in s.held && Holds(s, p, h);
        assert Holds(t, p, h);
      } else if h in hs {
        assert Holds(t, o, h);
      } else if IsHeld(t, h) {
        var p :| p in t.held && Holds(t, p, h);
        assert Holds(s, p, h) && IsHeld(s, h);
      }
    }
  }

  lemma NoRepeatsConcat(a: seq<nat>, b: seq<nat>)
    requires NoRepeats(a) && NoRepeats(b) && forall h <- b :: h !in a
    ensures NoRepeats(a + b)
  {
    var ab := a + b;
    forall i, j | 0 <= i < j < |ab| ensures ab[i] != ab[j] {
      if i < |a| <= j {
        assert ab[i] in a && ab[j] == b[j - |a|];
      }
    }
  }

  lemma ClearIsAccounted<O>(s: State<O>, o: O)
    requires Inv(s) && o in s.held
    ensures Accounted(Clear(s, o))
  {
    var t := Clear(s, o);
    forall h | h in s.held[o] ensures h in s.live {
      assert Holds(s, o, h) && IsHeld(s, h);
    }
    NoRepeatsConcat(s.destroyed, s.held[o]);
    forall h: nat ensures LiveOrDestroyed(t, h) <==> h < t.created {
      assert LiveOrDestroyed(s, h) <==> h < s.created;
    }
  }

  lemma ClearIsUnique<O>(s: State<O>, o: O)
    requires Inv(s) && o in s.held
    ensures UniquelyHeld(Clear(s, o))
  {
    var t := Clear(s, o);
    assert forall p, h :: p in s.held && p != o ==> (Holds(t, p, h) <==> Holds(s, p, h));
    assert forall h :: h in s.held[o] ==> Holds(s, o, h);
    forall h ensures h in t.live <==> IsHeld(t, h) {
      if h in t.live {
        assert IsHeld(s, h);
        var p :| p in s.held && Holds(s, p, h);
        assert Holds(t, p, h);
      } else if IsHeld(t, h) {
        var p :| p in t.held && Holds(t, p, h);
        assert p != o && Holds(s, p, h) && IsHeld(s, h);
        assert Holds(s, o, h);
      }
    }
  }

  lemma MovedKeepsInv<O>(s: State<O>, o: O, from: O)
    requires Inv(s) && from in s.held && o != from && (o in s.held ==> s.held[o] == [])
    ensures Inv(Moved(s, o, from))
  {
    var t := Moved(s, o, from);
    assert forall h: nat :: LiveOrDestroyed(t, h) <==> LiveOrDestroyed(s, h);
    forall h ensures h in t.live <==> IsHeld(t, h) {
      if IsHeld(s, h) {
        var p :| p in s.held && Holds(s, p, h);
        assert Holds(t, if p == from then o else p, h);
      }
      if IsHeld(t, h) {
        var p :| p in t.held && Holds(t, p, h);
        assert Holds(s, if p == o then from else p, h);
      }
    }
    assert forall p, h :: p in t.held && Holds(t, p, h) ==> Holds(s, if p == o then from else p, h);
  }

  lemma ForgetKeepsInv<O>(s: State<O>, o: O)
    requires Inv(s) && o in s.held && s.held[o] == []
    ensures Inv(s.(held := s.held - {o}))
  {
    var t := s.(held := s.held - {o});
    assert forall h: nat :: LiveOrDestroyed(t, h) <==> LiveOrDestroyed(s, h);
    forall h ensures IsHeld(s, h) <==> IsHeld(t, h) {
      if IsHeld(s, h) {
        var p :| p in s.held && Holds(s, p, h);
        assert Holds(t, p, h);
      }
      if IsHeld(t, h) {
        var p :| p in t.held && Holds(t, p, h);
        assert Holds(s, p, h);
      }
    }
    assert forall p, h :: p in t.held && Holds(t, p, h) ==> Holds(s, p, h);
  }

  lemma StepKeepsInv<O>(s: State<O>, op: Op<O>)
    requires Inv(s) && Step(s, op).Some?
    ensures Inv(Step(s, op).value)
  {
    match op {
      case Create(o, count) =>
        CreateIsAccounted(s, o, count);
        CreateIsUnique(s, o, count);
      case MoveConstruct(o, from) => MovedKeepsInv(s, o, from);
      case MoveAssign(o, from) =>
        if o != from {
          ClearIsAccounted(s, o);
          ClearIsUnique(s, o);
          MovedKeepsInv(Clear(s, o), o, from);
        }
      case Destruct(o) =>
        ClearIsAccounted(s, o);
        ClearIsUnique(s, o);
        ForgetKeepsInv(Clear(s, o), o);
    }
  }

  predicate IsInitial<O(==)>(s: State<O>) {
    s == State(map[], 0, {}, [])
  }

  lemma {:induction false} RunKeepsInv<O>(s: State<O>, ops: seq<Op<O>>)
    requires Inv(s) && Run(s, ops).Some?
    ensures Inv(Run(s, ops).value)
    decreases |ops|
  {
    if ops != [] {
      StepKeepsInv(s, ops[0]);
      RunKeepsInv(Step(s, ops[0]).value, ops[1..]);
    }
  }

  /**
   Over any run of creations, moves, assignments (to itself included) and destructions: live handles are
   held by exactly one wrapper each, no handle is destroyed twice, and every handle created is live or destroyed.
   */
  lemma HandlesHaveOneOwner<O>(init: State<O>, ops: seq<Op<O>>)
    requires IsInitial(init) && Run(init, ops).Some?
    ensures UniquelyHeld(Run(init, ops).value) && Accounted(Run(init, ops).value)
  {
    assert forall h: nat :: !LiveOrDestroyed(init, h);
    RunKeepsInv(init, ops);
  }

  /** Once every wrapper has died nothing is live, and every handle created has been destroyed exactly once. */
  lemma NothingLeaks<O>(init: State<O>, ops: seq<Op<O>>)
    requires IsInitial(init) && Run(init, ops).Some? && Run(init, ops).value.held == map[]
    ensures var s := Run(init, ops).value;
            && s.live == {}
            && NoRepeats(s.destroyed) && forall h: nat :: h in s.destroyed <==> h < s.created
  {
    HandlesHaveOneOwner(init, ops);
    var s := Run(init, ops).value;
    forall h: nat ensures h !in s.live && (h in s.destroyed <==> h < s.created) {
      assert !IsHeld(s, h);
      assert LiveOrDestroyed(s, h) <==> h < s.created;
    }
  }

  // ---------- where a handle goes ----------

  /** How many handles the calls have created; they are numbered in the order of creation. */
  function MadeBy<O>(ops: seq<Op<O>>): nat {
    if ops == [] then 0
    else
      MadeBy(ops[..|ops| - 1]) + match ops[|ops| - 1] case Create(_, count) => count case _ => 0
  }

  /** Who holds handle `h` after these calls: it starts with its creator, goes with moves and ends with its holder. */
  function HolderOf<O(==)>(ops: seq<Op<O>>, h: nat): Option<O> {
    if ops == [] then None
    else
      var before := ops[..|ops| - 1];
      var holder := HolderOf(before, h);
      match ops[|ops| - 1]
      case Create(o, count) => if MadeBy(before) <= h < MadeBy(before) + count then Some(o) else holder
      case MoveConstruct(o, from) => if holder == Some(from) then Some(o) else holder
      case MoveAssign(o, from) =>
        if o == from then holder
        else if holder == Some(from) then Some(o)
        else if holder == Some(o) then None
        else holder
      case Destruct(o) => if holder == Some(o) then None else holder
  }

  lemma {:induction false} RunLast<O>(s: State<O>, ops: seq<Op<O>>)
    requires ops != []
    ensures var before := Run(s, ops[..|ops| - 1]);
            Run(s, ops) == if before.None? then None else Step(before.value, ops[|ops| - 1])
    decreases |ops|
  {
    var before := ops[..|ops| - 1];
    if |ops| == 1 {
      assert ops[1..] == [];
    } else if Step(s, ops[0]).Some? {
      assert before[1..] == ops[1..][..|ops| - 2];
      RunLast(Step(s, ops[0]).value, ops[1..]);
    }
  }

  /** Handle `h` is with this wrapper and no other, or with none. */
  ghost predicate IsWith<O>(s: State<O>, h: nat, holder: Option<O>) {
    && (holder.Some? ==> Holds(s, holder.value, h))
    && (forall o :: o in s.held && Holds(s, o, h) ==> holder == Some(o))
  }

  lemma NewHandlesAre(first: nat, count: nat, h: nat)
    ensures h in NewHandles(first, count) <==> first <= h < first + count
  {
    if first <= h < first + count {
      assert NewHandles(first, count)[h - first] == h;
    }
  }

  lemma CreateWith<O>(s: State<O>, o: O, count: nat, h: nat, holder: Option<O>)
    requires Inv(s) && IsWith(s, h, holder) && o !in s.held
    ensures IsWith(Step(s, Create(o, count)).value, h, if s.created <= h < s.created + count then Some(o) else holder)
  {
    var t := Step(s, Create(o, count)).value;
    NewHandlesAre(s.created, count, h);
    if holder.Some? {
      assert IsHeld(s, h) && LiveOrDestroyed(s, h);
    }
    assert forall p :: p in s.held ==> (Holds(t, p, h) <==> Holds(s, p, h));
  }

  lemma MovedWith<O>(s: State<O>, o: O, from: O, h: nat, holder: Option<O>)
    requires IsWith(s, h, holder) && from in s.held && o != from && (o in s.held ==> s.held[o] == [])
    ensures IsWith(Moved(s, o, from), h, if holder == Some(from) then Some(o) else holder)
  {
    var t := Moved(s, o, from);
    assert forall p :: p in s.held && p != o && p != from ==> (Holds(t, p, h) <==> Holds(s, p, h));
    assert Holds(t, o, h) <==> Holds(s, from, h);
  }

  lemma ClearWith<O>(s: State<O>, o: O, h: nat, holder: Option<O>)
    requires IsWith(s, h, holder) && o in s.held
    ensures IsWith(Clear(s, o), h, if holder == Some(o) then None else holder)
  {
    assert forall p :: p in s.held && p != o ==> (Holds(Clear(s, o), p, h) <==> Holds(s, p, h));
  }

  lemma ForgetWith<O>(s: State<O>, o: O, h: nat, holder: Option<O>)
    requires IsWith(s, h, holder) && o in s.held && s.held[o] == []
    ensures IsWith(s.(held := s.held - {o}), h, holder)
  {
    var t := s.(held := s.held - {o});
    assert forall p :: p in t.held ==> (Holds(t, p, h) <==> Holds(s, p, h));
  }

  lemma HolderStep<O>(s: State<O>, ops: seq<Op<O>>, h: nat)
    requires ops != [] && Inv(s) && Step(s, ops[|ops| - 1]).Some?
    requires s.created == MadeBy(ops[..|ops| - 1]) && IsWith(s, h, HolderOf(ops[..|ops| - 1], h))
    ensures Step(s, ops[|ops| - 1]).value.created == MadeBy(ops)
    ensures IsWith(Step(s, ops[|ops| - 1]).value, h, HolderOf(ops, h))
  {
    var holder := HolderOf(ops[..|ops| - 1], h);
    match ops[|ops| - 1] {
      case Create(o, count) => CreateWith(s, o, count, h, holder);
      case MoveConstruct(o, from) => MovedWith(s, o, from, h, holder);
      case MoveAssign(o, from) =>
        if o != from {
          ClearWith(s, o, h, holder);
          MovedWith(Clear(s, o), o, from, h, if holder == Some(o) then None else holder);
        }
      case Destruct(o) =>
        ClearWith(s, o, h, holder);
        ForgetWith(Clear(s, o), o, h, if holder == Some(o) then None else holder);
    }
  }

  lemma {:induction false} WithHolderAlong<O>(init: State<O>, ops: seq<Op<O>>, h: nat)
    requires IsInitial(init) && Run(init, ops).Some?
    ensures Run(init, ops).value.created == MadeBy(ops) && IsWith(Run(init, ops).value, h, HolderOf(ops, h))
    decreases |ops|
  {
    if ops != [] {
      var before := ops[..|ops| - 1];
      RunLast(init, ops);
      WithHolderAlong(init, before, h);
      HandlesHaveOneOwner(init, before);
      HolderStep(Run(init, before).value, ops, h);
    }
  }

  /**
   Over any run: a handle is with the wrapper that the calls say, from its creation through all the moves and
   assignments since, and with no other; it has been destroyed exactly when it was created and they say nobody.
   */
  lemma HandlesGoWhereTheyAreMoved<O>(init: State<O>, ops: seq<Op<O>>, h: nat)
    requires IsInitial(init) && Run(init, ops).Some?
    ensures var s := Run(init, ops).value;
            && (forall o :: o in s.held ==> (h in s.held[o] <==> HolderOf(ops, h) == Some(o)))
            && (HolderOf(ops, h).Some? ==> HolderOf(ops, h).value in s.held)
            && (h in s.destroyed <==> h < MadeBy(ops) && HolderOf(ops, h).None?)
  {
    var s := Run(init, ops).value;
    HandlesHaveOneOwner(init, ops);
    WithHolderAlong(init, ops, h);
    assert forall o :: o in s.held ==> (h in s.held[o] <==> Holds(s, o, h));
    assert LiveOrDestroyed(s, h) <==> h < s.created;
    assert h in s.live <==> IsHeld(s, h);
  }

  // ---------- the wrappers as objects ----------

  /** The device's side: creates handles and destroys them. */
  class HandleTable {
    var created: nat
    var live: set<nat>
    var destroyed: seq<nat>

    constructor ()
      ensures created == 0 && live == {} && destroyed == []
    {
      created, live, destroyed := 0, {}, [];
    }

    method Create() returns (h: nat)
      modifies this
      ensures h == old(created) && created == old(created) + 1
      ensures live == old(live) + {h} && destroyed == old(destroyed)
    {
      h := created;
      created := created + 1;
      live := live + {h};
    }

    method Destroy(h: nat)
      modifies this
      ensures created == old(created) && live == old(live) - {h} && destroyed == old(destroyed) + [h]
    {
      live := live - {h};
      destroyed := destroyed + [h];
    }
  }

  /** The wrappers alive, and the device, as one state. */
  ghost function AbsOf(alive: set<Wrapper>, table: HandleTable): State<Wrapper>
    reads alive, table
  {
    State(map w | w in alive :: w.held, table.created, table.live, table.destroyed)
  }

  /** `held` is what the source keeps in one pointer (`cq`, `qp`) or two (`mr`, `dm`), less those that are null. */
  class Wrapper {
    var held: seq<nat>

    constructor Create(table: HandleTable, count: nat, ghost alive: set<Wrapper>)
      modifies table
      ensures fresh(this)
      ensures Step(old(AbsOf(alive, table)), Op.Create(this, count)) == Some(AbsOf(alive + {this}, table))
      ensures |held| == count && forall i :: 0 <= i < count ==> held[i] == old(table.created) + i
    {
      held := [];
      new;
      for i := 0 to count
        invariant forall w <- alive :: w.held == old(w.held)
        invariant held == NewHandles(old(table.created), i) && table.created == old(table.created) + i
        invariant table.live == old(table.live) + ToSet(held) && table.destroyed == old(table.destroyed)
      {
        var h := table.Create();
        held := held + [h];
      }
      assert AbsOf(alive + {this}, table).held == old(AbsOf(alive, table)).held[this := held];
    }

    constructor MoveFrom(other: Wrapper, table: HandleTable, ghost alive: set<Wrapper>)
      requires other in alive
      modifies other
      ensures fresh(this)
      ensures Step(old(AbsOf(alive, table)), MoveConstruct(this, other)) == Some(AbsOf(alive + {this}, table))
      ensures held == old(other.held) && other.held == []
    {
      held := other.held;
      new;
      other.held := [];
      assert AbsOf(alive + {this}, table).held
          == old(AbsOf(alive, table)).held[this := old(other.held)][other := []];
    }

    /** The destructor's body, shared with the assignment. */
    method GiveBack(table: HandleTable, ghost alive: set<Wrapper>)
      requires this in alive
      modifies this, table
      ensures AbsOf(alive, table) == Clear(old(AbsOf(alive, table)), this)
      ensures held == [] && table.destroyed == old(table.destroyed) + old(held) && table.created == old(table.created)
      ensures forall w <- alive :: w != this ==> w.held == old(w.held)
    {
      var n := |held|;
      ghost var all := held;
      for i := 0 to n
        invariant held == all && forall w <- alive :: w.held == old(w.held)
        invariant table.created == old(table.created)
        invariant table.live == old(table.live) - ToSet(all[..i])
        invariant table.destroyed == old(table.destroyed) + all[..i]
      {
        table.Destroy(held[i]);
        assert all[..i + 1] == all[..i] + [all[i]];
      }
      held := [];
      assert all[..n] == all;
      assert AbsOf(alive, table).held == old(AbsOf(alive, table)).held[this := []];
    }

    /** `operator=(T &&)`: nothing for self-assignment, else destroy and move-construct in place. */
    method Assign(other: Wrapper, table: HandleTable, ghost alive: set<Wrapper>)
      requires this in alive && other in alive
      modifies this, other, table
      ensures Step(old(AbsOf(alive, table)), MoveAssign(this, other)) == Some(AbsOf(alive, table))
      ensures this != other ==>
                && held == old(other.held) && other.held == []
                && table.destroyed == old(table.destroyed) + old(held)
      ensures this == other ==> held == old(held) && table.destroyed == old(table.destroyed)
    {
      if this != other {
        GiveBack(table, alive);
        ghost var cleared := AbsOf(alive, table);
        held := other.held;
        other.held := [];
        assert AbsOf(alive, table).held == Moved(cleared, this, other).held;
      }
    }

    /** The destructor: afterwards this wrapper is no longer among those alive. */
    method Die(table: HandleTable, ghost alive: set<Wrapper>)
      requires this in alive
      modifies this, table
      ensures Step(old(AbsOf(alive, table)), Op.Destruct(this)) == Some(AbsOf(alive - {this}, table))
      ensures table.destroyed == old(table.destroyed) + old(held)
    {
      GiveBack(table, alive);
      assert AbsOf(alive - {this}, table).held == AbsOf(alive, table).held - {this};
    }
  }
}
