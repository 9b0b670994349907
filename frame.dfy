/**
 * The per-function record of the IR (`Function`): its locals and memory
 * variables, the loop labels and scratch data the IR generator keeps on it,
 * the stack-frame depth, the layout that gives every variable an fp-relative
 * slot, the check that no two variables share a slot, and the renaming that
 * numbers the function's values and labels for printing.
 */
module Frame {
  import opened Common
  import opened IR

  /** `framePointerReg` of `reallocateMemory`: r11. */
  const FRAME_POINTER: int := 11

  /**
   * Name prefixes of printed IR for temporaries, locals and labels
   * (`IR_TEMP_VARNAME_PREFIX`, `IR_LOCAL_VARNAME_PREFIX`, `IR_LABEL_PREFIX`).
   * All three are two characters long.
   */
  const TEMP_PREFIX: string := "%t"
  const LOCAL_PREFIX: string := "%l"
  const LABEL_PREFIX: string := ".L"

  /** The instructions the IR generator passes between the logical operators (`ExtraData`). */
  datatype ExtraData = ExtraData(boolCheckInst: Option<IRInst>, moveInst: Option<IRInst>)

  // ---------------------------------------------------------------------------
  // Sizes and the 8-byte rounding of the frame
  // ---------------------------------------------------------------------------

  /** `calculateVariableSize(type)`; `None` stands for a null type. */
  function VariableSize(t: Option<Ty>): int {
    if t.None? then 4
    else if t.value.ArrayTy? then ArrayBytes(t.value)
    else 4
  }

  function SizeOf(v: Value): int {
    VariableSize(Some(v.ty))
  }

  /** A null type, a pointer and a scalar take a word; an array takes 4 bytes per element. */
  lemma VariableSizes(t: Ty)
    ensures VariableSize(None) == 4
    ensures !t.ArrayTy? ==> VariableSize(Some(t)) == 4
    ensures t.ArrayTy? && (forall i :: 0 <= i < |t.dims| ==> t.dims[i] > 0) ==>
              VariableSize(Some(t)) >= 4 && VariableSize(Some(t)) % 4 == 0
  {
    if t.ArrayTy? && (forall i :: 0 <= i < |t.dims| ==> t.dims[i] > 0) {
      ProductPositive(t.dims);
    }
  }

  /** `(x + 7) & ~7`: clearing the low three bits of `x + 7` rounds `x` up to a multiple of 8. */
  function RoundUp8(x: int): (r: int)
    ensures r % 8 == 0 && x <= r < x + 8
  {
    (x + 7) - (x + 7) % 8
  }

  // ---------------------------------------------------------------------------
  // The layout of reallocateMemory
  // ---------------------------------------------------------------------------

  /** What the layout reads of a variable: whether it is an array, and its size in bytes. */
  datatype Extent = Extent(isArray: bool, size: int)

  function ExtentOf(v: Value): Extent {
    Extent(v.ty.ArrayTy?, SizeOf(v))
  }

  function Extents(vs: seq<Value>): (r: seq<Extent>)
    ensures |r| == |vs|
  {
    seq(|vs|, i requires 0 <= i < |vs| => ExtentOf(vs[i]))
  }

  /** Every variable takes at least one byte (every array dimension is positive). */
  predicate PositiveSizes(es: seq<Extent>) {
    forall i :: 0 <= i < |es| ==> es[i].size > 0
  }

  /** `v` after `setMemoryAddr(fp, off)`. */
  function Placed(v: Value, off: int): Value {
    v.(addr := Some(MemAddr(FRAME_POINTER, off)))
  }

  /** The running offset once the arrays among `es[..k]` are placed: from -4, each takes its size and a 4-byte gap. */
  function ArraysEnd(es: seq<Extent>, k: nat): int
    requires k <= |es|
  {
    if k == 0 then -4
    else
      var c := ArraysEnd(es, k - 1);
      if es[k - 1].isArray then c - es[k - 1].size - 4 else c
  }

  /** The running offset once the non-array locals among `es[..k]` are placed, from `c0`. */
  function ScalarsEnd(es: seq<Extent>, k: nat, c0: int): int
    requires k <= |es|
  {
    if k == 0 then c0
    else
      var c := ScalarsEnd(es, k - 1, c0);
      if es[k - 1].isArray then c else c - es[k - 1].size
  }

  /** The running offset once the memory variables `es[..k]` are placed, from `c0`. */
  function MemsEnd(es: seq<Extent>, k: nat, c0: int): int
    requires k <= |es|
  {
    if k == 0 then c0 else MemsEnd(es, k - 1, c0) - es[k - 1].size
  }

  /** The slot of local `i`: an array's base is 4 below the running offset, a scalar sits at it. */
  function VarSlot(es: seq<Extent>, i: nat): int
    requires i < |es|
  {
    if es[i].isArray then ArraysEnd(es, i) - 4 else ScalarsEnd(es, i, ArraysEnd(es, |es|))
  }

  /** The running offset where the memory variables start. */
  function LocalsEnd(es: seq<Extent>): int {
    ScalarsEnd(es, |es|, ArraysEnd(es, |es|))
  }

  function MemSlot(ev: seq<Extent>, em: seq<Extent>, k: nat): int
    requires k < |em|
  {
    MemsEnd(em, k, LocalsEnd(ev))
  }

  /** The final running offset. */
  function LayoutEnd(ev: seq<Extent>, em: seq<Extent>): int {
    MemsEnd(em, |em|, LocalsEnd(ev))
  }

  /** The frame depth `setMaxDep` receives: the bytes below fp-4 in use, rounded up to 8. */
  function FrameDepth(ev: seq<Extent>, em: seq<Extent>): int {
    RoundUp8(-(LayoutEnd(ev, em) + 4))
  }

  /** The locals once placed, given their extents `es`. */
  function PlaceVars(vars: seq<Value>, es: seq<Extent>): (r: seq<Value>)
    requires |es| == |vars|
    ensures |r| == |vars|
  {
    seq(|vars|, i requires 0 <= i < |vars| => Placed(vars[i], VarSlot(es, i)))
  }

  /** The memory variables once placed, given the extents of the locals and their own. */
  function PlaceMems(mems: seq<Value>, ev: seq<Extent>, em: seq<Extent>): (r: seq<Value>)
    requires |em| == |mems|
    ensures |r| == |mems|
  {
    seq(|mems|, k requires 0 <= k < |mems| => Placed(mems[k], MemSlot(ev, em, k)))
  }

  /** `vars` once the array pass has visited `vars[..i]`. */
  function ArraysPlacedUpTo(vars: seq<Value>, es: seq<Extent>, i: nat): (r: seq<Value>)
    requires |es| == |vars| && i <= |vars|
    ensures |r| == |vars|
  {
    seq(|vars|, j requires 0 <= j < |vars| =>
      if j < i && es[j].isArray then Placed(vars[j], ArraysEnd(es, j) - 4) else vars[j])
  }

  /** `vars` once the arrays are placed and the scalar pass, from `c0`, has visited `vars[..i]`. */
  function ScalarsPlacedUpTo(vars: seq<Value>, es: seq<Extent>, i: nat, c0: int): (r: seq<Value>)
    requires |es| == |vars| && i <= |vars|
    ensures |r| == |vars|
  {
    seq(|vars|, j requires 0 <= j < |vars| =>
      if es[j].isArray then Placed(vars[j], ArraysEnd(es, j) - 4)
      else if j < i then Placed(vars[j], ScalarsEnd(es, j, c0)) else vars[j])
  }

  /** `mems` once the pass, from `c0`, has visited `mems[..k]`. */
  function MemsPlacedUpTo(mems: seq<Value>, es: seq<Extent>, k: nat, c0: int): (r: seq<Value>)
    requires |es| == |mems| && k <= |mems|
    ensures |r| == |mems|
  {
    seq(|mems|, j requires 0 <= j < |mems| => if j < k then Placed(mems[j], MemsEnd(es, j, c0)) else mems[j])
  }

  lemma ArraysPlacedStep(vars: seq<Value>, es: seq<Extent>, i: nat)
    requires |es| == |vars| && i < |vars|
    ensures ArraysPlacedUpTo(vars, es, i)[i] == vars[i]
    ensures es[i].isArray ==>
      ArraysPlacedUpTo(vars, es, i)[i := Placed(vars[i], ArraysEnd(es, i) - 4)] == ArraysPlacedUpTo(vars, es, i + 1)
    ensures !es[i].isArray ==> ArraysPlacedUpTo(vars, es, i) == ArraysPlacedUpTo(vars, es, i + 1)
  {
  }

  lemma ScalarsPlacedStart(vars: seq<Value>, es: seq<Extent>, c0: int)
    requires |es| == |vars|
    ensures ArraysPlacedUpTo(vars, es, |vars|) == ScalarsPlacedUpTo(vars, es, 0, c0)
  {
  }

  lemma ScalarsPlacedStep(vars: seq<Value>, es: seq<Extent>, i: nat, c0: int)
    requires |es| == |vars| && i < |vars|
    ensures ScalarsPlacedUpTo(vars, es, i, c0)[i].ty == vars[i].ty
    ensures !es[i].isArray ==> ScalarsPlacedUpTo(vars, es, i, c0)[i] == vars[i]
    ensures !es[i].isArray ==>
      ScalarsPlacedUpTo(vars, es, i, c0)[i := Placed(vars[i], ScalarsEnd(es, i, c0))] == ScalarsPlacedUpTo(vars, es, i + 1, c0)
    ensures es[i].isArray ==> ScalarsPlacedUpTo(vars, es, i, c0) == ScalarsPlacedUpTo(vars, es, i + 1, c0)
  {
  }

  lemma ScalarsPlacedAll(vars: seq<Value>, es: seq<Extent>)
    requires |es| == |vars|
    ensures ScalarsPlacedUpTo(vars, es, |vars|, ArraysEnd(es, |es|)) == PlaceVars(vars, es)
  {
    var a := ScalarsPlacedUpTo(vars, es, |vars|, ArraysEnd(es, |es|));
    var b := PlaceVars(vars, es);
    forall j | 0 <= j < |vars| ensures a[j] == b[j] {
      assert b[j] == Placed(vars[j], VarSlot(es, j));
    }
  }

  lemma MemsPlacedStep(mems: seq<Value>, es: seq<Extent>, k: nat, c0: int)
    requires |es| == |mems| && k < |mems|
    ensures MemsPlacedUpTo(mems, es, k, c0)[k] == mems[k]
    ensures MemsPlacedUpTo(mems, es, k, c0)[k := Placed(mems[k], MemsEnd(es, k, c0))] == MemsPlacedUpTo(mems, es, k + 1, c0)
  {
  }

  lemma MemsPlacedAll(mems: seq<Value>, ev: seq<Extent>, em: seq<Extent>)
    requires |em| == |mems|
    ensures MemsPlacedUpTo(mems, em, |mems|, LocalsEnd(ev)) == PlaceMems(mems, ev, em)
  {
    var a := MemsPlacedUpTo(mems, em, |mems|, LocalsEnd(ev));
    var b := PlaceMems(mems, ev, em);
    forall j | 0 <= j < |mems| ensures a[j] == b[j] {
      assert b[j] == Placed(mems[j], MemSlot(ev, em, j));
    }
  }

  // ---------------------------------------------------------------------------
  // Offsets collected by validateMemoryAllocation
  // ---------------------------------------------------------------------------

  /** The offsets of the variables that have an address, in order. */
  function Offsets(vs: seq<Value>): seq<int> {
    if |vs| == 0 then []
    else
      var v := vs[|vs| - 1];
      Offsets(vs[..|vs| - 1]) + (if v.addr.Some? then [v.addr.value.offset] else [])
  }

  /** The number of entries at each offset (`offsetMap[offset].size()`). */
  function Tally(offs: seq<int>): map<int, nat> {
    if |offs| == 0 then map[]
    else
      var t := Tally(offs[..|offs| - 1]);
      var o := offs[|offs| - 1];
      t[o := if o in t then t[o] + 1 else 1]
  }

  predicate NoSharedOffset(offs: seq<int>) {
    forall i, j :: 0 <= i < j < |offs| ==> offs[i] != offs[j]
  }

  /** The counted offsets are exactly those that occur. */
  lemma {:induction false} TallyKeys(offs: seq<int>)
    ensures forall o :: o in Tally(offs) <==> o in offs
    decreases |offs|
  {
    if |offs| > 0 {
      var x := offs[..|offs| - 1];
      TallyKeys(x);
      forall p ensures p in Tally(offs) <==> p in offs {
        assert offs == x + [offs[|offs| - 1]];
        assert p in offs <==> p in x || p == offs[|offs| - 1];
      }
    }
  }

  /** An offset counted twice or more occurs at two positions. */
  lemma {:induction false} TallySharedIfRepeat(offs: seq<int>, p: int) returns (i: nat, j: nat)
    requires p in Tally(offs) && Tally(offs)[p] > 1
    ensures i < j < |offs| && offs[i] == offs[j] == p
    decreases |offs|
  {
    var m := |offs| - 1;
    var x := offs[..m];
    var t := Tally(x);
    if p == offs[m] {
      assert p in t;
      TallyKeys(x);
      i :| 0 <= i < |x| && x[i] == p;
      j := m;
    } else {
      i, j := TallySharedIfRepeat(x, p);
    }
  }

  /** Two positions holding the same offset make it counted twice or more. */
  lemma {:induction false} TallyRepeatIfShared(offs: seq<int>, i: nat, j: nat)
    requires i < j < |offs| && offs[i] == offs[j]
    ensures offs[i] in Tally(offs) && Tally(offs)[offs[i]] > 1
    decreases |offs|
  {
    var m := |offs| - 1;
    var x := offs[..m];
    if j < m {
      TallyRepeatIfShared(x, i, j);
      assert x[i] == offs[i];
    } else {
      TallyKeys(x);
      TallyPositive(x);
      assert x[i] in x;
    }
  }

  /** An offset is counted iff it occurs, and some offset is counted twice or more iff two entries share it. */
  lemma TallySpec(offs: seq<int>)
    ensures forall o :: o in Tally(offs) <==> o in offs
    ensures (exists o :: o in Tally(offs) && Tally(offs)[o] > 1) <==> !NoSharedOffset(offs)
  {
    TallyKeys(offs);
    if exists p :: p in Tally(offs) && Tally(offs)[p] > 1 {
      var p :| p in Tally(offs) && Tally(offs)[p] > 1;
      var i, j := TallySharedIfRepeat(offs, p);
    }
    if !NoSharedOffset(offs) {
      var i, j :| 0 <= i < j < |offs| && offs[i] == offs[j];
      TallyRepeatIfShared(offs, i, j);
    }
  }

  lemma {:induction false} TallyPositive(offs: seq<int>)
    ensures forall o :: o in Tally(offs) ==> Tally(offs)[o] >= 1
    decreases |offs|
  {
    if |offs| > 0 {
      TallyPositive(offs[..|offs| - 1]);
    }
  }

  /** When every variable has an address, the offsets are exactly theirs. */
  lemma {:induction false} AllAddressedOffsets(vs: seq<Value>)
    requires forall i :: 0 <= i < |vs| ==> vs[i].addr.Some?
    ensures |Offsets(vs)| == |vs|
    ensures forall i :: 0 <= i < |vs| ==> Offsets(vs)[i] == vs[i].addr.value.offset
    decreases |vs|
  {
    if |vs| > 0 {
      AllAddressedOffsets(vs[..|vs| - 1]);
    }
  }

  lemma TallyStep(pre: seq<int>, vs: seq<Value>, i: nat)
    requires i < |vs|
    ensures var t := Tally(pre + Offsets(vs[..i]));
      Tally(pre + Offsets(vs[..i + 1])) ==
        if vs[i].addr.Some? then
          var o := vs[i].addr.value.offset;
          t[o := if o in t then t[o] + 1 else 1]
        else t
  {
    assert vs[..i + 1][..i] == vs[..i];
    var x := pre + Offsets(vs[..i]);
    if vs[i].addr.Some? {
      var o := vs[i].addr.value.offset;
      assert pre + Offsets(vs[..i + 1]) == x + [o];
      assert (x + [o])[..|x|] == x;
    } else {
      assert pre + Offsets(vs[..i + 1]) == x;
    }
  }

  /** The counting loop of `validateMemoryAllocation`: adds the offsets of `vs` to the counts of `pre`. */
  method TallyInto(vs: seq<Value>, ghost pre: seq<int>, m0: map<int, nat>) returns (m: map<int, nat>)
    requires m0 == Tally(pre)
    ensures m == Tally(pre + Offsets(vs))
  {
    m := m0;
    var i := 0;
    assert pre + Offsets(vs[..0]) == pre;
    while i < |vs|
      invariant 0 <= i <= |vs|
      invariant m == Tally(pre + Offsets(vs[..i]))
    {
      TallyStep(pre, vs, i);
      var v := vs[i];
      if v.addr.Some? {
        var off := v.addr.value.offset;
        m := m[off := if off in m then m[off] + 1 else 1];
      }
      i := i + 1;
    }
    assert vs[..i] == vs;
  }

  /** The conflict scan of `validateMemoryAllocation`: some offset counted more than once. */
  method HasRepeat(m: map<int, nat>) returns (hasConflict: bool)
    ensures hasConflict <==> exists o :: o in m && m[o] > 1
  {
    hasConflict := false;
    var keys := m.Keys;
    while keys != {}
      invariant keys <= m.Keys
      invariant hasConflict <==> exists o :: o in m && o !in keys && m[o] > 1
      decreases keys
    {
      if forall x :: x !in keys {
        assert false;
      }
      var o :| o in keys;
      if m[o] > 1 {
        hasConflict := true;
      }
      keys := keys - {o};
    }
  }

  // ---------------------------------------------------------------------------
  // No two slots coincide
  // ---------------------------------------------------------------------------

  lemma {:induction false} ArraysEndDecreases(es: seq<Extent>, i: nat, j: nat)
    requires i <= j <= |es| && PositiveSizes(es)
    ensures ArraysEnd(es, j) <= ArraysEnd(es, i)
    ensures i < j && es[i].isArray ==> ArraysEnd(es, j) <= ArraysEnd(es, i) - es[i].size - 4
    decreases j - i
  {
    if i < j {
      ArraysEndDecreases(es, i, j - 1);
    }
  }

  lemma {:induction false} ScalarsEndDecreases(es: seq<Extent>, i: nat, j: nat, c0: int)
    requires i <= j <= |es| && PositiveSizes(es)
    ensures ScalarsEnd(es, j, c0) <= ScalarsEnd(es, i, c0) <= c0
    ensures i < j && !es[i].isArray ==> ScalarsEnd(es, j, c0) <= ScalarsEnd(es, i, c0) - es[i].size
    decreases j
  {
    if i < j {
      ScalarsEndDecreases(es, i, j - 1, c0);
    } else if i > 0 {
      ScalarsEndDecreases(es, i - 1, i - 1, c0);
    }
  }

  lemma {:induction false} MemsEndDecreases(es: seq<Extent>, i: nat, j: nat, c0: int)
    requires i <= j <= |es| && PositiveSizes(es)
    ensures MemsEnd(es, j, c0) <= MemsEnd(es, i, c0) <= c0
    ensures i < j ==> MemsEnd(es, j, c0) < MemsEnd(es, i, c0)
    decreases j
  {
    if i < j {
      MemsEndDecreases(es, i, j - 1, c0);
    } else if i > 0 {
      MemsEndDecreases(es, i - 1, i - 1, c0);
    }
  }

  /** Every local's slot lies above the point where the memory variables start, and below fp. */
  lemma VarSlotInLocals(es: seq<Extent>, i: nat)
    requires i < |es| && PositiveSizes(es)
    ensures LocalsEnd(es) < VarSlot(es, i) <= -4
  {
    var a := ArraysEnd(es, |es|);
    ScalarsEndDecreases(es, i, |es|, a);
    ArraysEndDecreases(es, 0, i);
    ArraysEndDecreases(es, 0, |es|);
    if es[i].isArray {
      ArraysEndDecreases(es, i, |es|);
    } else {
      ScalarsEndDecreases(es, i, i + 1, a);
      ScalarsEndDecreases(es, i + 1, |es|, a);
    }
  }

  lemma VarSlotsDistinct(es: seq<Extent>, i: nat, j: nat)
    requires i < j < |es| && PositiveSizes(es)
    ensures VarSlot(es, i) != VarSlot(es, j)
  {
    var a := ArraysEnd(es, |es|);
    if es[i].isArray && es[j].isArray {
      ArraysEndDecreases(es, i, j);
    } else if !es[i].isArray && !es[j].isArray {
      ScalarsEndDecreases(es, i, j, a);
    } else if es[i].isArray {
      ArraysEndDecreases(es, i, |es|);
      ScalarsEndDecreases(es, j, j, a);
    } else {
      ArraysEndDecreases(es, j, |es|);
      ScalarsEndDecreases(es, i, i, a);
    }
  }

  function VarSlots(es: seq<Extent>): (r: seq<int>)
    ensures |r| == |es|
  {
    seq(|es|, i requires 0 <= i < |es| => VarSlot(es, i))
  }

  function MemSlots(ev: seq<Extent>, em: seq<Extent>): (r: seq<int>)
    ensures |r| == |em|
  {
    seq(|em|, k requires 0 <= k < |em| => MemSlot(ev, em, k))
  }

  /** The offsets of a sequence whose every entry has an address, read off entry by entry. */
  lemma AddressedOffsetsAre(vs: seq<Value>, slots: seq<int>)
    requires |vs| == |slots|
    requires forall i :: 0 <= i < |vs| ==> vs[i].addr.Some? && vs[i].addr.value.offset == slots[i]
    ensures Offsets(vs) == slots
  {
    AllAddressedOffsets(vs);
  }

  lemma PlacedVarOffsets(vars: seq<Value>, es: seq<Extent>)
    requires |es| == |vars|
    ensures Offsets(PlaceVars(vars, es)) == VarSlots(es)
  {
    AddressedOffsetsAre(PlaceVars(vars, es), VarSlots(es));
  }

  lemma PlacedMemOffsets(mems: seq<Value>, ev: seq<Extent>, em: seq<Extent>)
    requires |em| == |mems|
    ensures Offsets(PlaceMems(mems, ev, em)) == MemSlots(ev, em)
  {
    AddressedOffsetsAre(PlaceMems(mems, ev, em), MemSlots(ev, em));
  }

  /** No two slots of the layout coincide. */
  lemma SlotsDistinct(ev: seq<Extent>, em: seq<Extent>)
    requires PositiveSizes(ev) && PositiveSizes(em)
    ensures NoSharedOffset(VarSlots(ev) + MemSlots(ev, em))
  {
    var s := VarSlots(ev) + MemSlots(ev, em);
    var nv := |ev|;
    forall i, j | 0 <= i < j < |s| ensures s[i] != s[j] {
      if j < nv {
        assert s[i] == VarSlot(ev, i) && s[j] == VarSlot(ev, j);
        VarSlotsDistinct(ev, i, j);
      } else if i < nv {
        assert s[i] == VarSlot(ev, i) && s[j] == MemSlot(ev, em, j - nv);
        VarSlotInLocals(ev, i);
        MemsEndDecreases(em, j - nv, j - nv, LocalsEnd(ev));
      } else {
        assert s[i] == MemSlot(ev, em, i - nv) && s[j] == MemSlot(ev, em, j - nv);
        MemsEndDecreases(em, i - nv, j - nv, LocalsEnd(ev));
      }
    }
  }

  /**
   * After the layout no two variables, locals or memory variables, share an
   * offset, so the conflict check of `validateMemoryAllocation` passes.
   */
  lemma LayoutHasNoSharedOffset(vars: seq<Value>, mems: seq<Value>, ev: seq<Extent>, em: seq<Extent>)
    requires |ev| == |vars| && |em| == |mems| && PositiveSizes(ev) && PositiveSizes(em)
    ensures NoSharedOffset(Offsets(PlaceVars(vars, ev)) + Offsets(PlaceMems(mems, ev, em)))
  {
    PlacedVarOffsets(vars, ev);
    PlacedMemOffsets(mems, ev, em);
    SlotsDistinct(ev, em);
  }

  /** The frame covers every slot handed out: the depth is a multiple of 8 at least the bytes in use. */
  lemma FrameDepthCoversLayout(ev: seq<Extent>, em: seq<Extent>)
    requires PositiveSizes(ev) && PositiveSizes(em)
    ensures FrameDepth(ev, em) % 8 == 0
    ensures FrameDepth(ev, em) >= -(LayoutEnd(ev, em) + 4) >= 0
    ensures forall i :: 0 <= i < |ev| ==> -FrameDepth(ev, em) - 4 < VarSlot(ev, i) < 0
    ensures forall k :: 0 <= k < |em| ==> -FrameDepth(ev, em) - 4 < MemSlot(ev, em, k) < 0
  {
    var l := LocalsEnd(ev);
    ArraysEndDecreases(ev, 0, |ev|);
    ScalarsEndDecreases(ev, 0, |ev|, ArraysEnd(ev, |ev|));
    MemsEndDecreases(em, 0, |em|, l);
    forall i | 0 <= i < |ev| ensures -FrameDepth(ev, em) - 4 < VarSlot(ev, i) < 0 {
      VarSlotInLocals(ev, i);
    }
    forall k | 0 <= k < |em| ensures -FrameDepth(ev, em) - 4 < MemSlot(ev, em, k) < 0 {
      MemsEndDecreases(em, k, |em|, l);
      MemsEndDecreases(em, k, k + 1, l);
    }
  }

  // ---------------------------------------------------------------------------
  // The array base of reallocateMemory against its own comment
  // ---------------------------------------------------------------------------

  /**
   * An array's elements are reached upward from its base (`base + 4*i`).
   * Placed 4 below the running offset, the array `int a[3]` standing first
   * gets base fp-8, so its last element lies at fp+0, outside the frame that
   * ends below fp.
   */
  lemma ArrayBaseAsWrittenLeavesFrame()
    ensures var a := Value(0, LocalVar, "a", ArrayTy(IntTy, [3]), -1, None);
      var es := Extents([a]);
      VarSlot(es, 0) == -8 && es[0].size == 12 && VarSlot(es, 0) + es[0].size - 4 == 0
  {
    assert Product([3]) == 3 by {
      assert [3][..0] == [];
    }
  }

  /** The base the comment describes: the lowest address of the array's block. */
  function CorrectedArrayBase(es: seq<Extent>, i: nat): int
    requires i < |es|
  {
    ArraysEnd(es, i) - es[i].size
  }

  /**
   * With the base at the block's lowest address, every byte of an array lies
   * below fp-4 and above the locals that follow, and the blocks of two arrays
   * do not overlap.
   */
  lemma CorrectedArraysInsideFrame(es: seq<Extent>, i: nat, j: nat)
    requires i < j < |es| && PositiveSizes(es) && es[i].isArray
    ensures CorrectedArrayBase(es, i) + es[i].size <= -4
    ensures CorrectedArrayBase(es, i) > LocalsEnd(es)
    ensures es[j].isArray ==> CorrectedArrayBase(es, j) + es[j].size < CorrectedArrayBase(es, i)
  {
    ArraysEndDecreases(es, 0, i);
    ArraysEndDecreases(es, i, j);
    ArraysEndDecreases(es, i, |es|);
    ScalarsEndDecreases(es, 0, |es|, ArraysEnd(es, |es|));
  }

  // ---------------------------------------------------------------------------
  // renameIR
  // ---------------------------------------------------------------------------

  /** Instructions `renameIR` names: labels and instructions with a result value. */
  predicate Named(i: IRInst) {
    i.op == OpLabel || i.result.Some?
  }

  /** Named instructions among `code[..k]`. */
  function NamedCount(code: seq<IRInst>, k: nat): nat
    requires k <= |code|
  {
    if k == 0 then 0 else NamedCount(code, k - 1) + (if Named(code[k - 1]) then 1 else 0)
  }

  function InstName(i: IRInst, num: nat): string {
    (if i.op == OpLabel then LABEL_PREFIX else TEMP_PREFIX) + NatToString(num)
  }

  /** The names `renameIR` gives `code[..k]`, numbering from `start`; `None` for an instruction it leaves alone. */
  function InstNames(code: seq<IRInst>, k: nat, start: nat): (r: seq<Option<string>>)
    requires k <= |code|
    ensures |r| == k
  {
    if k == 0 then []
    else
      InstNames(code, k - 1, start)
      + [if Named(code[k - 1]) then Some(InstName(code[k - 1], start + NamedCount(code, k - 1))) else None]
  }

  function ParamNames(np: nat): (r: seq<string>)
    ensures |r| == np
  {
    seq(np, i requires 0 <= i < np => TEMP_PREFIX + NatToString(i))
  }

  function VarNames(np: nat, nv: nat): (r: seq<string>)
    ensures |r| == nv
  {
    seq(nv, j requires 0 <= j < nv => LOCAL_PREFIX + NatToString(np + j))
  }

  lemma InstNamesAt(code: seq<IRInst>, k: nat, start: nat, i: nat)
    requires i < k <= |code|
    ensures InstNames(code, k, start)[i] == InstNames(code, i + 1, start)[i]
    decreases k
  {
    if i < k - 1 {
      InstNamesAt(code, k - 1, start, i);
    }
  }

  lemma {:induction false} NamedCountGrows(code: seq<IRInst>, i: nat, j: nat)
    requires i < j <= |code| && Named(code[i])
    ensures NamedCount(code, j) > NamedCount(code, i)
    decreases j
  {
    if j > i + 1 {
      NamedCountGrows(code, i, j - 1);
    }
  }

  /** Two-character prefixes followed by different numbers, or by a number under different prefixes, differ. */
  lemma NamesDiffer(p: string, q: string, a: nat, b: nat)
    requires |p| == 2 && |q| == 2 && (p != q || a != b)
    ensures p + NatToString(a) != q + NatToString(b)
  {
    if p == q {
      PrefixedNamesDistinct(p, a, b);
    } else {
      assert (p + NatToString(a))[..2] == p;
      assert (q + NatToString(b))[..2] == q;
    }
  }

  /** The parameters and the locals get pairwise different names. */
  lemma ParamAndVarNamesDistinct(np: nat, nv: nat)
    ensures forall i, j :: 0 <= i < j < np ==> ParamNames(np)[i] != ParamNames(np)[j]
    ensures forall i, j :: 0 <= i < j < nv ==> VarNames(np, nv)[i] != VarNames(np, nv)[j]
    ensures forall i, j :: 0 <= i < np && 0 <= j < nv ==> ParamNames(np)[i] != VarNames(np, nv)[j]
  {
    forall i, j | 0 <= i < j < np ensures ParamNames(np)[i] != ParamNames(np)[j] {
      NamesDiffer(TEMP_PREFIX, TEMP_PREFIX, i, j);
    }
    forall i, j | 0 <= i < j < nv ensures VarNames(np, nv)[i] != VarNames(np, nv)[j] {
      NamesDiffer(LOCAL_PREFIX, LOCAL_PREFIX, np + i, np + j);
    }
    forall i, j | 0 <= i < np && 0 <= j < nv ensures ParamNames(np)[i] != VarNames(np, nv)[j] {
      NamesDiffer(TEMP_PREFIX, LOCAL_PREFIX, i, np + j);
    }
  }

  /** The named instruction at `k` carries the number `start` plus the named instructions before it. */
  lemma InstNameOf(code: seq<IRInst>, start: nat, k: nat)
    requires k < |code| && Named(code[k])
    ensures InstNames(code, |code|, start)[k] == Some(InstName(code[k], start + NamedCount(code, k)))
  {
    InstNamesAt(code, |code|, start, k);
  }

  /** Two named instructions get different names. */
  lemma InstNamesDistinct(code: seq<IRInst>, start: nat, k1: nat, k2: nat)
    requires k1 < k2 < |code| && Named(code[k1]) && Named(code[k2])
    ensures InstNames(code, |code|, start)[k1] != InstNames(code, |code|, start)[k2]
  {
    InstNameOf(code, start, k1);
    InstNameOf(code, start, k2);
    NamedCountGrows(code, k1, k2);
    var p1 := if code[k1].op == OpLabel then LABEL_PREFIX else TEMP_PREFIX;
    var p2 := if code[k2].op == OpLabel then LABEL_PREFIX else TEMP_PREFIX;
    NamesDiffer(p1, p2, start + NamedCount(code, k1), start + NamedCount(code, k2));
  }

  /** A named instruction's name is no parameter's. */
  lemma InstNameNotParam(np: nat, nv: nat, code: seq<IRInst>, k: nat, i: nat)
    requires k < |code| && Named(code[k]) && i < np
    ensures InstNames(code, |code|, np + nv)[k] != Some(ParamNames(np)[i])
  {
    InstNameOf(code, np + nv, k);
    var p := if code[k].op == OpLabel then LABEL_PREFIX else TEMP_PREFIX;
    NamesDiffer(p, TEMP_PREFIX, np + nv + NamedCount(code, k), i);
  }

  /** A named instruction's name is no local's. */
  lemma InstNameNotLocal(np: nat, nv: nat, code: seq<IRInst>, k: nat, j: nat)
    requires k < |code| && Named(code[k]) && j < nv
    ensures InstNames(code, |code|, np + nv)[k] != Some(VarNames(np, nv)[j])
  {
    InstNameOf(code, np + nv, k);
    var p := if code[k].op == OpLabel then LABEL_PREFIX else TEMP_PREFIX;
    NamesDiffer(p, LOCAL_PREFIX, np + nv + NamedCount(code, k), np + j);
  }

  /**
   * `renameIR` hands out 0, 1, 2, ... in the order parameters, locals, named
   * instructions, so no two of the names it gives coincide.
   */
  lemma RenamedNamesDistinct(np: nat, nv: nat, code: seq<IRInst>)
    ensures forall i, j :: 0 <= i < j < np ==> ParamNames(np)[i] != ParamNames(np)[j]
    ensures forall i, j :: 0 <= i < j < nv ==> VarNames(np, nv)[i] != VarNames(np, nv)[j]
    ensures forall i, j :: 0 <= i < np && 0 <= j < nv ==> ParamNames(np)[i] != VarNames(np, nv)[j]
    ensures forall k1, k2 :: 0 <= k1 < k2 < |code| && Named(code[k1]) && Named(code[k2]) ==>
              InstNames(code, |code|, np + nv)[k1] != InstNames(code, |code|, np + nv)[k2]
    ensures forall k, i :: 0 <= k < |code| && Named(code[k]) && 0 <= i < np ==>
              InstNames(code, |code|, np + nv)[k] != Some(ParamNames(np)[i])
    ensures forall k, j :: 0 <= k < |code| && Named(code[k]) && 0 <= j < nv ==>
              InstNames(code, |code|, np + nv)[k] != Some(VarNames(np, nv)[j])
  {
    ParamAndVarNamesDistinct(np, nv);
    forall k1, k2 | 0 <= k1 < k2 < |code| && Named(code[k1]) && Named(code[k2])
      ensures InstNames(code, |code|, np + nv)[k1] != InstNames(code, |code|, np + nv)[k2]
    {
      InstNamesDistinct(code, np + nv, k1, k2);
    }
    forall k, i | 0 <= k < |code| && Named(code[k]) && 0 <= i < np
      ensures InstNames(code, |code|, np + nv)[k] != Some(ParamNames(np)[i])
    {
      InstNameNotParam(np, nv, code, k, i);
    }
    forall k, j | 0 <= k < |code| && Named(code[k]) && 0 <= j < nv
      ensures InstNames(code, |code|, np + nv)[k] != Some(VarNames(np, nv)[j])
    {
      InstNameNotLocal(np, nv, code, k, j);
    }
  }

  // ---------------------------------------------------------------------------
  // The function object
  // ---------------------------------------------------------------------------

  class Function {
    const name: string
    const builtin: bool
    const params: seq<Value>
    var code: seq<IRInst>
    /** `varsVector`, exposed by `getVarValues`. */
    var varsVector: seq<Value>
    /** `memVector`, exposed by `getMemValues`. */
    var memVector: seq<Value>
    /** The identity the next value this function creates receives. */
    var nextId: nat
    var breakLabel: Option<Label>
    var continueLabel: Option<Label>
    var extraData: ExtraData
    var maxDepth: int
    var relocated: bool
    var realArgCount: int
    var memoryFixed: bool
    var maxFuncCallArgCnt: int
    var protectedRegs: seq<int>
    var protectedRegStr: string
    /** IR names of the parameters, the locals and the instructions, as `renameIR` sets them. */
    var paramNames: seq<string>
    var varNames: seq<string>
    var instNames: seq<Option<string>>

    constructor(fname: string, fparams: seq<Value>, isBuiltin: bool, firstId: nat)
      ensures name == fname && params == fparams && builtin == isBuiltin && nextId == firstId
      ensures breakLabel.None? && continueLabel.None?
      ensures extraData == ExtraData(None, None)
      ensures !memoryFixed && maxDepth == 0 && !relocated && realArgCount == 0 && maxFuncCallArgCnt == 0
      ensures code == [] && varsVector == [] && memVector == []
      ensures protectedRegs == [] && protectedRegStr == ""
      ensures paramNames == [] && varNames == [] && instNames == []
    {
      name := fname;
      builtin := isBuiltin;
      params := fparams;
      code := [];
      varsVector := [];
      memVector := [];
      nextId := firstId;
      breakLabel := None;
      continueLabel := None;
      extraData := ExtraData(None, None);
      maxDepth := 0;
      relocated := false;
      realArgCount := 0;
      memoryFixed := false;
      maxFuncCallArgCnt := 0;
      protectedRegs := [];
      protectedRegStr := "";
      paramNames := [];
      varNames := [];
      instNames := [];
    }

    method SetBreakLabel(l: Option<Label>)
      modifies this`breakLabel
      ensures breakLabel == l
    {
      breakLabel := l;
    }

    method SetContinueLabel(l: Option<Label>)
      modifies this`continueLabel
      ensures continueLabel == l
    {
      continueLabel := l;
    }

    /** `setMaxDep(dep)`: a new depth marks the frame as relocated. */
    method SetMaxDep(dep: int)
      modifies this`maxDepth, this`relocated
      ensures maxDepth == dep && relocated
    {
      maxDepth := dep;
      relocated := true;
    }

    method RealArgCountInc()
      modifies this`realArgCount
      ensures realArgCount == old(realArgCount) + 1
    {
      realArgCount := realArgCount + 1;
    }

    method RealArgCountReset()
      modifies this`realArgCount
      ensures realArgCount == 0
    {
      realArgCount := 0;
    }

    /** `newLocalVarValue(type, name)`: a new local, appended to `varsVector`. */
    method NewLocalVarValue(ty: Ty, vname: string) returns (v: Value)
      modifies this`varsVector, this`nextId
      ensures v == Value(old(nextId), LocalVar, vname, ty, -1, None)
      ensures varsVector == old(varsVector) + [v] && nextId == old(nextId) + 1
    {
      v := Value(nextId, LocalVar, vname, ty, -1, None);
      varsVector := varsVector + [v];
      nextId := nextId + 1;
    }

    /** `newMemVariable(type)`: a new memory variable, appended to `memVector`. */
    method NewMemVariable(ty: Ty) returns (v: Value)
      modifies this`memVector, this`nextId
      ensures v == Value(old(nextId), MemVar, "", ty, -1, None)
      ensures memVector == old(memVector) + [v] && nextId == old(nextId) + 1
    {
      v := Value(nextId, MemVar, "", ty, -1, None);
      memVector := memVector + [v];
      nextId := nextId + 1;
    }

    /** `setMemoryAddr` on the memory variable at position `k`. */
    method SetMemAddr(k: nat, a: MemAddr)
      requires k < |memVector|
      modifies this`memVector
      ensures memVector == old(memVector)[k := old(memVector)[k].(addr := Some(a))]
    {
      memVector := memVector[k := memVector[k].(addr := Some(a))];
    }

    /**
     * `reallocateMemory`: arrays first, each based 4 below the running offset,
     * then the other locals, then the memory variables, each at the running
     * offset; the depth is the bytes used rounded up to 8.  Later calls change
     * nothing.
     */
    method ReallocateMemory()
      modifies this`varsVector, this`memVector, this`maxDepth, this`relocated, this`memoryFixed
      ensures old(memoryFixed) ==> (varsVector == old(varsVector) && memVector == old(memVector)
        && maxDepth == old(maxDepth) && relocated == old(relocated))
      ensures !old(memoryFixed) ==> (varsVector == PlaceVars(old(varsVector), Extents(old(varsVector)))
        && memVector == PlaceMems(old(memVector), Extents(old(varsVector)), Extents(old(memVector)))
        && maxDepth == FrameDepth(Extents(old(varsVector)), Extents(old(memVector))) && relocated)
      ensures memoryFixed
    {
      if memoryFixed {
        return;
      }
      ghost var m0 := memVector;
      var v0 := varsVector;
      var vs, c := PlaceArrays(v0);
      vs, c := PlaceScalars(v0, vs, c);
      var ms;
      ms, c := PlaceMemVars(Extents(v0), memVector, c);
      assert c == LayoutEnd(Extents(v0), Extents(m0));
      varsVector, memVector := vs, ms;
      var totalStackSize := -(c + 4);
      totalStackSize := RoundUp8(totalStackSize);
      SetMaxDep(totalStackSize);
      memoryFixed := true;
    }

    /** The offsets of the variables that have an address, locals first. */
    function AllOffsets(): seq<int>
      reads this
    {
      Offsets(varsVector) + Offsets(memVector)
    }

    /** `validateMemoryAllocation`: true iff no offset is held by two variables (base registers are ignored). */
    method ValidateMemoryAllocation() returns (ok: bool)
      ensures ok <==> NoSharedOffset(AllOffsets())
    {
      assert [] + Offsets(varsVector) == Offsets(varsVector);
      var offsetMap := TallyInto(varsVector, [], map[]);
      offsetMap := TallyInto(memVector, Offsets(varsVector), offsetMap);
      var hasConflict := HasRepeat(offsetMap);
      TallySpec(AllOffsets());
      ok := !hasConflict;
    }

    /**
     * `renameIR`: nothing for a builtin; otherwise one counter numbers the
     * parameters, then the locals, then the labels and result-bearing
     * instructions in code order.
     */
    method RenameIR()
      modifies this`paramNames, this`varNames, this`instNames
      ensures builtin ==> (paramNames == old(paramNames) && varNames == old(varNames) && instNames == old(instNames))
      ensures !builtin ==> (paramNames == ParamNames(|params|)
        && varNames == VarNames(|params|, |varsVector|)
        && instNames == InstNames(code, |code|, |params| + |varsVector|))
    {
      if builtin {
        return;
      }
      var nameIndex := 0;
      var pnames := [];
      while nameIndex < |params|
        invariant 0 <= nameIndex <= |params|
        invariant pnames == ParamNames(nameIndex)
      {
        pnames := pnames + [TEMP_PREFIX + NatToString(nameIndex)];
        nameIndex := nameIndex + 1;
      }
      var vnames;
      vnames, nameIndex := NameLocals(varsVector, nameIndex);
      var inames;
      inames, nameIndex := NameInsts(code, nameIndex);
      paramNames, varNames, instNames := pnames, vnames, inames;
    }
  }

  /** The array pass of `reallocateMemory` over the locals `v0`; returns them and the running offset. */
  method PlaceArrays(v0: seq<Value>) returns (vs: seq<Value>, c: int)
    ensures c == ArraysEnd(Extents(v0), |v0|)
    ensures vs == ArraysPlacedUpTo(v0, Extents(v0), |v0|)
  {
    ghost var es := Extents(v0);
    vs := v0;
    c := -4;
    for i := 0 to |vs|
      invariant |vs| == |v0|
      invariant c == ArraysEnd(es, i)
      invariant vs == ArraysPlacedUpTo(v0, es, i)
    {
      ArraysPlacedStep(v0, es, i);
      var v := vs[i];
      assert v == v0[i] && es[i] == ExtentOf(v);
      if v.ty.ArrayTy? {
        var arraySize := VariableSize(Some(v.ty));
        c := c - arraySize;
        var arrayBaseOffset := c + arraySize - 4;
        vs := vs[i := Placed(v, arrayBaseOffset)];
        c := c - 4;
      }
    }
  }

  /** The pass over the other locals of `v0`, given them with their arrays placed and the offset `c0` the arrays left. */
  method PlaceScalars(ghost v0: seq<Value>, vs0: seq<Value>, c0: int) returns (vs: seq<Value>, c: int)
    requires vs0 == ArraysPlacedUpTo(v0, Extents(v0), |v0|) && c0 == ArraysEnd(Extents(v0), |v0|)
    ensures c == LocalsEnd(Extents(v0)) && vs == PlaceVars(v0, Extents(v0))
  {
    ghost var es := Extents(v0);
    vs := vs0;
    c := c0;
    ScalarsPlacedStart(v0, es, c0);
    for i := 0 to |vs|
      invariant |vs| == |v0|
      invariant c == ScalarsEnd(es, i, c0)
      invariant vs == ScalarsPlacedUpTo(v0, es, i, c0)
    {
      ScalarsPlacedStep(v0, es, i, c0);
      var v := vs[i];
      assert es[i] == ExtentOf(v0[i]) && v.ty == v0[i].ty;
      if !v.ty.ArrayTy? {
        var varSize := VariableSize(Some(v.ty));
        assert varSize == es[i].size;
        vs := vs[i := Placed(v, c)];
        c := c - varSize;
      }
    }
    ScalarsPlacedAll(v0, es);
  }

  /** The pass over the memory variables `m0`, from the offset `c0` the locals left. */
  method PlaceMemVars(ghost ev: seq<Extent>, m0: seq<Value>, c0: int) returns (ms: seq<Value>, c: int)
    requires c0 == LocalsEnd(ev)
    ensures c == LayoutEnd(ev, Extents(m0))
    ensures ms == PlaceMems(m0, ev, Extents(m0))
  {
    ghost var es := Extents(m0);
    ms := m0;
    c := c0;
    for k := 0 to |ms|
      invariant |ms| == |m0|
      invariant c == MemsEnd(es, k, c0)
      invariant ms == MemsPlacedUpTo(m0, es, k, c0)
    {
      MemsPlacedStep(m0, es, k, c0);
      assert es[k] == ExtentOf(m0[k]);
      var varSize := VariableSize(Some(ms[k].ty));
      ms := ms[k := Placed(ms[k], c)];
      c := c - varSize;
    }
    MemsPlacedAll(m0, ev, es);
  }

  /** The locals' loop of `renameIR`, numbering from `start`. */
  method NameLocals(vars: seq<Value>, start: nat) returns (names: seq<string>, next: nat)
    ensures names == VarNames(start, |vars|) && next == start + |vars|
  {
    names := [];
    next := start;
    var j := 0;
    while j < |vars|
      invariant 0 <= j <= |vars| && next == start + j
      invariant names == VarNames(start, j)
    {
      names := names + [LOCAL_PREFIX + NatToString(next)];
      next := next + 1;
      j := j + 1;
    }
  }

  /** The instructions' loop of `renameIR`, numbering from `start`. */
  method NameInsts(code: seq<IRInst>, start: nat) returns (names: seq<Option<string>>, next: nat)
    ensures names == InstNames(code, |code|, start) && next == start + NamedCount(code, |code|)
  {
    names := [];
    next := start;
    var k := 0;
    while k < |code|
      invariant 0 <= k <= |code| && next == start + NamedCount(code, k)
      invariant names == InstNames(code, k, start)
    {
      var inst := code[k];
      if inst.op == OpLabel {
        names := names + [Some(LABEL_PREFIX + NatToString(next))];
        next := next + 1;
      } else if inst.result.Some? {
        names := names + [Some(TEMP_PREFIX + NatToString(next))];
        next := next + 1;
      } else {
        names := names + [None];
      }
      k := k + 1;
    }
  }
}
