/**
 Memory regions and slices (mem.h): slicing over 64-bit modular arithmetic.
 A `None` result stands for `panic()`, which ends the process.
 */
module Memory {
  import opened Words

  /** A registered region; `lkey` is the local key of its `ibv_mr`. */
  datatype Region = Region(ptr: Word, size: Word, lkey: nat)

  datatype Slice = Slice(region: Region, ptr: Word, size: Word)

  /** `ibv_sge`. */
  datatype Sge = Sge(addr: Word, length: nat, lkey: nat)

  function AddPtr(p: Word, offset: Word): Word {
    (p + offset) % WORD
  }

  /** The slice constructor: the offset always counts from the region. */
  function At(r: Region, offset: Word, size: Word): Slice {
    Slice(r, AddPtr(r.ptr, offset), size)
  }

  function Whole(r: Region): Slice {
    At(r, 0, r.size)
  }

  function RegionSlice(r: Region, offset: Word, size: Word): Option<Slice> {
    if (offset + size) % WORD > r.size then None else Some(At(r, offset, size))
  }

  function RegionSliceFrom(r: Region, offset: Word): Option<Slice> {
    RegionSlice(r, offset, (r.size - offset) % WORD)
  }

  /** `rdma_memory_slice::slice` as written: checked against the parent, based on the region. */
  function SubSlice(s: Slice, offset: Word, size: Word): Option<Slice> {
    if (offset + size) % WORD > s.size then None else Some(At(s.region, offset, size))
  }

  function SubSliceFrom(s: Slice, offset: Word): Option<Slice> {
    SubSlice(s, offset, (s.size - offset) % WORD)
  }

  /** The same check, with the child based on the parent's own pointer. */
  function IntendedSubSlice(s: Slice, offset: Word, size: Word): Option<Slice> {
    if (offset + size) % WORD > s.size then None else Some(Slice(s.region, AddPtr(s.ptr, offset), size))
  }

  predicate Fits(s: Slice) {
    s.size <= UINT32_MAX
  }

  /** The entry `to_sge` returns when the slice fits; the length is cast to 32 bits. */
  function SgeOf(s: Slice): Sge {
    Sge(s.ptr, s.size % (UINT32_MAX + 1), s.region.lkey)
  }

  predicate IsAligned(s: Slice) {
    s.ptr % 8 == 0
  }

  /** The region is real memory: even its one-past-the-end pointer is an address. */
  predicate Mapped(r: Region) {
    r.ptr + r.size < WORD
  }

  /** The bytes of `s`, read without wrap-around, all lie in `r`. */
  predicate Inside(s: Slice, r: Region) {
    r.ptr <= s.ptr && s.ptr + s.size <= r.ptr + r.size
  }

  // ---------- one slice ----------

  lemma RegionSliceInsideExactly(r: Region, offset: Word, size: Word)
    requires Mapped(r) && RegionSlice(r, offset, size).Some?
    ensures Inside(RegionSlice(r, offset, size).value, r) <==> offset + size < WORD
  {
    if offset + size < WORD {
      assert (offset + size) % WORD == offset + size;
    }
    if r.ptr + offset >= WORD {
      assert (r.ptr + offset) % WORD == r.ptr + offset - WORD;
    }
  }

  /** The check shared by all the slicing calls, on the true sum: it lets through what fits, and what wraps to fit. */
  predicate PassesCheck(offset: Word, size: Word, limit: Word) {
    offset + size <= limit || 0x1_0000_0000_0000_0000 <= offset + size <= limit + 0x1_0000_0000_0000_0000
  }

  /**
   A slice is made, of a region or of a slice, exactly when offset + size fits or wraps to fit; it has the size asked
   for, and lies that far behind the region's start, in either case.
   */
  lemma SliceMadeExactly(s: Slice, offset: Word, size: Word)
    ensures RegionSlice(s.region, offset, size).Some? <==> PassesCheck(offset, size, s.region.size)
    ensures SubSlice(s, offset, size).Some? <==> PassesCheck(offset, size, s.size)
    ensures IntendedSubSlice(s, offset, size).Some? <==> PassesCheck(offset, size, s.size)
    ensures forall t :: Some(t) == RegionSlice(s.region, offset, size) || Some(t) == SubSlice(s, offset, size) ==>
              && t.region == s.region && t.size == size
              && (t.ptr == s.region.ptr + offset || t.ptr == s.region.ptr + offset - 0x1_0000_0000_0000_0000)
    ensures forall t :: Some(t) == IntendedSubSlice(s, offset, size) ==>
              && t.region == s.region && t.size == size
              && (t.ptr == s.ptr + offset || t.ptr == s.ptr + offset - 0x1_0000_0000_0000_0000)
  {
    WrappedOnce(offset, size);
    WrappedOnce(s.region.ptr, offset);
    WrappedOnce(s.ptr, offset);
  }

  /** The slice of a whole region is what both slicing calls of the region give for offset 0 and its full size. */
  lemma WholeIsTheFullSlice(r: Region)
    ensures Whole(r).region == r && Whole(r).ptr == r.ptr && Whole(r).size == r.size
    ensures RegionSlice(r, 0, r.size) == RegionSliceFrom(r, 0) == SubSliceFrom(Whole(r), 0) == Some(Whole(r))
  {
  }

  lemma WrappedOnce(a: Word, b: Word)
    ensures (a + b) % WORD == if a + b < WORD then a + b else a + b - WORD
  {
  }

  /** The one-argument form on a slice never panics, and leaves the region exactly for offsets past the slice's end. */
  lemma SubSliceFromNeverPanics(s: Slice, offset: Word)
    requires Mapped(s.region) && s.size <= s.region.size
    ensures SubSliceFrom(s, offset).Some?
    ensures var size := s.size - offset;
            SubSliceFrom(s, offset).value.size == if size >= 0 then size else size + 0x1_0000_0000_0000_0000
    ensures SubSliceFrom(s, offset).value.ptr == (s.region.ptr + offset) % WORD
    ensures Inside(SubSliceFrom(s, offset).value, s.region) <==> offset <= s.size
  {
    var size: Word := (s.size - offset) % WORD;
    if offset <= s.size {
      assert size == s.size - offset;
    } else {
      assert size == s.size - offset + WORD;
      assert (offset + size) % WORD == s.size;
    }
    RegionSliceInsideExactly(s.region, offset, size);
  }

  /** The same holds of the region's own one-argument form. */
  lemma RegionSliceFromNeverPanics(r: Region, offset: Word)
    requires Mapped(r)
    ensures RegionSliceFrom(r, offset).Some?
    ensures var size := r.size - offset;
            RegionSliceFrom(r, offset).value.size == if size >= 0 then size else size + 0x1_0000_0000_0000_0000
    ensures RegionSliceFrom(r, offset).value.ptr == (r.ptr + offset) % WORD
    ensures Inside(RegionSliceFrom(r, offset).value, r) <==> offset <= r.size
  {
    SubSliceFromNeverPanics(Whole(r), offset);
  }

  // ---------- chains of slices ----------

  datatype Cut = Cut(offset: Word, size: Word)

  /** Slicing a slice of a slice ..., as written. */
  function Written(s: Slice, cuts: seq<Cut>): Option<Slice>
    decreases |cuts|
  {
    if cuts == [] then Some(s) else
      match SubSlice(s, cuts[0].offset, cuts[0].size)
      case None => None
      case Some(t) => Written(t, cuts[1..])
  }

  /** The same chain with every child based on its parent. */
  function Intended(s: Slice, cuts: seq<Cut>): Option<Slice>
    decreases |cuts|
  {
    if cuts == [] then Some(s) else
      match IntendedSubSlice(s, cuts[0].offset, cuts[0].size)
      case None => None
      case Some(t) => Intended(t, cuts[1..])
  }

  function Total(cuts: seq<Cut>): nat {
    if cuts == [] then 0 else cuts[0].offset + Total(cuts[1..])
  }

  predicate NoWrap(cuts: seq<Cut>) {
    forall c <- cuts :: c.offset + c.size < WORD
  }

  /** Every slice made along the written chain lies in the region. */
  predicate AllInside(s: Slice, cuts: seq<Cut>)
    decreases |cuts|
  {
    cuts != [] ==>
      match SubSlice(s, cuts[0].offset, cuts[0].size)
      case None => true
      case Some(t) => Inside(t, s.region) && AllInside(t, cuts[1..])
  }

  /** For a chain of any depth that does not panic: all slices stay in the region iff no addition wraps. */
  lemma {:induction false} ChainInsideExactly(s: Slice, cuts: seq<Cut>)
    requires Mapped(s.region) && s.size <= s.region.size && Written(s, cuts).Some?
    ensures AllInside(s, cuts) <==> NoWrap(cuts)
    decreases |cuts|
  {
    if cuts != [] {
      var c := cuts[0];
      var t := SubSlice(s, c.offset, c.size).value;
      assert RegionSlice(s.region, c.offset, c.size) == Some(t);
      RegionSliceInsideExactly(s.region, c.offset, c.size);
      if c.offset + c.size < WORD {
        ChainInsideExactly(t, cuts[1..]);
      }
      assert cuts == [c] + cuts[1..];
    }
  }

  /** The intended chain also stays inside, whatever the depth. */
  lemma {:induction false} IntendedChainInside(s: Slice, cuts: seq<Cut>)
    requires Mapped(s.region) && Inside(s, s.region)
    requires NoWrap(cuts) && Intended(s, cuts).Some?
    ensures Inside(Intended(s, cuts).value, s.region)
    decreases |cuts|
  {
    if cuts != [] {
      var c := cuts[0];
      assert c.offset + c.size <= s.size;
      assert s.ptr + c.offset < WORD;
      IntendedChainInside(IntendedSubSlice(s, cuts[0].offset, cuts[0].size).value, cuts[1..]);
    }
  }

  /** As written, only the last offset of a chain has any effect on where the slice lies. */
  lemma {:induction false} WrittenChainIsLastCut(s: Slice, cuts: seq<Cut>)
    requires cuts != [] && Written(s, cuts).Some?
    ensures var last := cuts[|cuts| - 1]; Written(s, cuts).value == At(s.region, last.offset, last.size)
    decreases |cuts|
  {
    if |cuts| > 1 {
      WrittenChainIsLastCut(SubSlice(s, cuts[0].offset, cuts[0].size).value, cuts[1..]);
    }
  }

  /** A chain of children based on their parents, wrapping or not, lies at the sum of the offsets. */
  lemma {:induction false} IntendedChainPtr(s: Slice, cuts: seq<Cut>)
    requires cuts != [] && Intended(s, cuts).Some?
    ensures Intended(s, cuts).value == Slice(s.region, AddPtr(s.ptr, Total(cuts) % WORD), cuts[|cuts| - 1].size)
    decreases |cuts|
  {
    var c := cuts[0];
    var rest := cuts[1..];
    if rest != [] {
      assert rest[|rest| - 1] == cuts[|cuts| - 1];
      IntendedChainPtr(IntendedSubSlice(s, c.offset, c.size).value, rest);
      AddPtrTwice(s.ptr, c.offset, Total(rest));
    } else {
      SmallMod(c.offset);
    }
  }

  /** When no addition wraps, the sum of the offsets is inside the slice too. */
  lemma {:induction false} IntendedChainSum(s: Slice, cuts: seq<Cut>)
    requires cuts != [] && NoWrap(cuts) && Intended(s, cuts).Some?
    ensures Total(cuts) + cuts[|cuts| - 1].size <= s.size
    decreases |cuts|
  {
    var c := cuts[0];
    var rest := cuts[1..];
    assert c in cuts;
    SmallMod(c.offset + c.size);
    if rest != [] {
      assert rest[|rest| - 1] == cuts[|cuts| - 1];
      IntendedChainSum(IntendedSubSlice(s, c.offset, c.size).value, rest);
    }
  }

  /**
   Slicing composes: a chain of children based on their parents is the one slice at the sum of the offsets
   exactly when that one call does not panic, and it never does when no addition of the chain wraps.
   */
  lemma IntendedChainIsOneSlice(s: Slice, cuts: seq<Cut>)
    requires cuts != [] && Intended(s, cuts).Some?
    ensures var sum, size := Total(cuts) % WORD, cuts[|cuts| - 1].size;
            && (Intended(s, cuts) == IntendedSubSlice(s, sum, size) <==> (sum + size) % WORD <= s.size)
            && (NoWrap(cuts) ==> sum == Total(cuts) && (sum + size) % WORD <= s.size)
  {
    IntendedChainPtr(s, cuts);
    if NoWrap(cuts) {
      IntendedChainSum(s, cuts);
      SmallMod(Total(cuts));
      SmallMod(Total(cuts) + cuts[|cuts| - 1].size);
    }
  }

  lemma SmallMod(n: nat)
    requires n < WORD
    ensures n % WORD == n
  {
  }

  lemma ModAdd(a: nat, b: nat)
    ensures (a % WORD + b) % WORD == (a + b) % WORD
  {
  }

  lemma AddPtrTwice(p: Word, a: Word, b: nat)
    ensures AddPtr(AddPtr(p, a), b % WORD) == AddPtr(p, (a + b) % WORD)
  {
    ModAdd(p + a, b % WORD);
    ModAdd(b, p + a);
    ModAdd(a + b, p);
  }

  /** The two forms check sizes alike, so they panic on the same chains. */
  lemma {:induction false} SamePanics(s: Slice, t: Slice, cuts: seq<Cut>)
    requires s.size == t.size
    ensures Written(s, cuts).Some? <==> Intended(t, cuts).Some?
    decreases |cuts|
  {
    if cuts != [] && SubSlice(s, cuts[0].offset, cuts[0].size).Some? {
      SamePanics(SubSlice(s, cuts[0].offset, cuts[0].size).value,
                 IntendedSubSlice(t, cuts[0].offset, cuts[0].size).value, cuts[1..]);
    }
  }

  /**
   The composition law on every chain the code accepts, wrapping or not: the written form is the one slice at the
   sum of the offsets exactly when the offsets before the last add up to 0 modulo 2^64 and that one slice
   passes the region's check.
   */
  lemma CompositionExactly(r: Region, cuts: seq<Cut>)
    requires cuts != [] && Written(Whole(r), cuts).Some?
    ensures var last := cuts[|cuts| - 1];
            Written(Whole(r), cuts) == RegionSlice(r, Total(cuts) % WORD, last.size)
            <==> (Total(cuts) - last.offset) % WORD == 0 && (last.offset + last.size) % WORD <= r.size
  {
    var last := cuts[|cuts| - 1];
    WrittenChainIsLastCut(Whole(r), cuts);
    TotalIsLastExactly(cuts);
    AddPtrInjective(r.ptr, last.offset, Total(cuts) % WORD);
    SameResidue(Total(cuts), last.offset);
  }

  /** When no addition wraps, that is exactly when every offset before the last is 0. */
  lemma CompositionWithoutWrapExactly(r: Region, cuts: seq<Cut>)
    requires cuts != [] && NoWrap(cuts) && Written(Whole(r), cuts).Some?
    ensures Total(cuts) <= r.size
    ensures Written(Whole(r), cuts) == RegionSlice(r, Total(cuts), cuts[|cuts| - 1].size)
            <==> forall i :: 0 <= i < |cuts| - 1 ==> cuts[i].offset == 0
  {
    SamePanics(Whole(r), Whole(r), cuts);
    IntendedChainSum(Whole(r), cuts);
    WrittenChainIsLastCut(Whole(r), cuts);
    TotalIsLastExactly(cuts);
    AddPtrInjective(r.ptr, cuts[|cuts| - 1].offset, Total(cuts));
    SmallMod(Total(cuts) + cuts[|cuts| - 1].size);
  }

  lemma SameResidue(total: nat, last: Word)
    requires total >= last
    ensures total % WORD == last <==> (total - last) % WORD == 0
  {
  }

  lemma {:induction false} TotalIsLastExactly(cuts: seq<Cut>)
    requires cuts != []
    ensures Total(cuts) >= cuts[|cuts| - 1].offset
    ensures Total(cuts) == cuts[|cuts| - 1].offset <==> forall i :: 0 <= i < |cuts| - 1 ==> cuts[i].offset == 0
  {
    var rest := cuts[1..];
    if rest != [] {
      TotalIsLastExactly(rest);
      assert forall i :: 0 <= i < |rest| ==> rest[i] == cuts[i + 1];
      if Total(rest) == rest[|rest| - 1].offset && cuts[0].offset == 0 {
        forall i | 0 <= i < |cuts| - 1 ensures cuts[i].offset == 0 {
          if i > 0 { assert cuts[i] == rest[i - 1]; }
        }
      }
    }
  }

  lemma AddPtrInjective(p: Word, a: Word, b: Word)
    ensures AddPtr(p, a) == AddPtr(p, b) <==> a == b
  {
  }
}
