/**
 * What the address code of an array access computes.
 *
 * A store maps value ids to integers; `Exec` runs the copies, additions and
 * multiplications of generated code over it (other instructions leave it
 * alone, and arithmetic is over unbounded integers).  Run from any store,
 * the address code of `ir_array_access` leaves in its pointer the array's
 * address plus four times a linear index: `(row * C + col)` on the
 * two-index path, and on the general path the same index the ARM backend's
 * `calc_multi_array_addr` computes, which is row-major for one and two
 * dimensions but not from three on.
 */
module IRGenExec {
  import opened Common
  import opened IR
  import opened IRGen
  import ArmCode

  type Store = map<nat, int>

  function Get(s: Store, id: nat): int {
    if id in s then s[id] else 0
  }

  /** A constant is its value; any other value is what the store holds for its id. */
  function ValueOf(s: Store, v: Value): int {
    if v.kind.ConstInt? then v.kind.val as int else Get(s, v.id)
  }

  /** One instruction: a plain copy, an addition or a multiplication; anything else changes nothing. */
  function Step(i: IRInst, s: Store): Store {
    if i.op == OpAssign && |i.operands| == 2 && !i.ptrStore && !i.ptrLoad then
      s[i.operands[0].id := ValueOf(s, i.operands[1])]
    else if i.op == OpAddI && |i.operands| == 2 && i.result.Some? then
      s[i.result.value.id := ValueOf(s, i.operands[0]) + ValueOf(s, i.operands[1])]
    else if i.op == OpMulI && |i.operands| == 2 && i.result.Some? then
      s[i.result.value.id := ValueOf(s, i.operands[0]) * ValueOf(s, i.operands[1])]
    else s
  }

  function Exec(code: seq<IRInst>, s: Store): Store
    decreases |code|
  {
    if |code| == 0 then s else Exec(code[1..], Step(code[0], s))
  }

  /** Running `a + b` is running `a`, then `b`. */
  lemma {:induction false} ExecCat(a: seq<IRInst>, b: seq<IRInst>, s: Store)
    ensures Exec(a + b, s) == Exec(b, Exec(a, s))
    decreases |a|
  {
    if |a| == 0 {
      assert a + b == b;
    } else {
      assert (a + b)[0] == a[0];
      assert (a + b)[1..] == a[1..] + b;
      ExecCat(a[1..], b, Step(a[0], s));
    }
  }

  lemma Exec4(a: IRInst, b: IRInst, c: IRInst, d: IRInst, s: Store)
    ensures Exec([a, b, c, d], s) == Step(d, Step(c, Step(b, Step(a, s))))
  {
    assert [a, b, c, d][1..] == [b, c, d];
    assert [b, c, d][1..] == [c, d];
    assert [c, d][1..] == [d];
    assert [d][1..] == [];
    var s1 := Step(a, s);
    var s2 := Step(b, s1);
    var s3 := Step(c, s2);
    assert Exec([d], s3) == Step(d, s3);
    assert Exec([c, d], s2) == Exec([d], s3);
    assert Exec([b, c, d], s1) == Exec([c, d], s2);
  }

  lemma Exec5(a: IRInst, b: IRInst, c: IRInst, d: IRInst, e: IRInst, s: Store)
    ensures Exec([a, b, c, d, e], s) == Step(e, Step(d, Step(c, Step(b, Step(a, s)))))
  {
    assert [a, b, c, d, e][1..] == [b, c, d, e];
    Exec4(b, c, d, e, Step(a, s));
  }

  /** `s` and `r` agree on every id below `lo` except `except`. */
  predicate AgreeBelow(s: Store, r: Store, lo: nat, except: nat) {
    forall id: nat :: id < lo && id != except ==> Get(r, id) == Get(s, id)
  }

  /** The index the general path accumulates: `cur = i0`, then `cur = cur * strides[k] + ik`. */
  function Linear(ivals: seq<int>, strides: seq<int>, k: nat): int
    requires k < |ivals| <= |strides|
  {
    if k == 0 then ivals[0] else Linear(ivals, strides, k - 1) * strides[k] + ivals[k]
  }

  /** One step of the general path: `m = cur * k; cur = m + x`, with fresh ids from `st` on. */
  lemma StepComputes(st: GenState, cur: Value, k: i32, x: Value, s: Store)
    requires !cur.kind.ConstInt? && cur.id < st.nextId && x.id < st.nextId
    ensures var mulR := NewVar(st, IntTy, "");
      var kc := NewConst(mulR.st, k);
      var mul := NewBinary(kc.st, OpMulI, cur, kc.v, IntTy);
      var add := NewBinary(mul.st, OpAddI, mulR.v, x, IntTy);
      var r := Exec([mul.inst, Copy(mulR.v, mul.res), add.inst, Copy(cur, add.res)], s);
      ValueOf(r, cur) == ValueOf(s, cur) * k + ValueOf(s, x) && AgreeBelow(s, r, st.nextId, cur.id)
  {
    var mulR := NewVar(st, IntTy, "");
    var kc := NewConst(mulR.st, k);
    var mul := NewBinary(kc.st, OpMulI, cur, kc.v, IntTy);
    var add := NewBinary(mul.st, OpAddI, mulR.v, x, IntTy);
    HeadShape(cur, kc.v, mul.res, mulR.v, x, add.res, cur, s);
  }

  /**
   * Steps `i ..` of the general path, run from a store where the
   * accumulator holds the index of the first `i` indices, leave in it the
   * index of all of them, and change no older value.
   */
  lemma {:induction false} StepsCompute(st: GenState, cur: Value, strides: seq<i32>, idx: seq<Value>, i: nat,
                                        ivals: seq<int>, s: Store)
    requires 1 <= i <= |idx| <= |strides| && |ivals| == |idx|
    requires !cur.kind.ConstInt? && cur.id < st.nextId
    requires forall j :: i <= j < |idx| ==> idx[j].id < st.nextId && idx[j].id != cur.id && ValueOf(s, idx[j]) == ivals[j]
    requires ValueOf(s, cur) == Linear(ivals, strides, i - 1)
    ensures var r := Exec(IndexSteps(st, cur, strides, idx, i).code, s);
      ValueOf(r, cur) == Linear(ivals, strides, |idx| - 1) && AgreeBelow(s, r, st.nextId, cur.id)
    decreases |idx| - i
  {
    if i < |idx| {
      var mulR := NewVar(st, IntTy, "");
      var kc := NewConst(mulR.st, strides[i]);
      var mul := NewBinary(kc.st, OpMulI, cur, kc.v, IntTy);
      var add := NewBinary(mul.st, OpAddI, mulR.v, idx[i], IntTy);
      var head := [mul.inst, Copy(mulR.v, mul.res), add.inst, Copy(cur, add.res)];
      StepComputes(st, cur, strides[i], idx[i], s);
      var t := Exec(head, s);
      forall j | i + 1 <= j < |idx|
        ensures idx[j].id < add.st.nextId && idx[j].id != cur.id && ValueOf(t, idx[j]) == ivals[j]
      {
      }
      assert ValueOf(t, cur) == Linear(ivals, strides, i);
      var rest := IndexSteps(add.st, cur, strides, idx, i + 1);
      StepsCompute(add.st, cur, strides, idx, i + 1, ivals, t);
      assert IndexSteps(st, cur, strides, idx, i).code == head + rest.code;
      ExecCat(head, rest.code, s);
      var r := Exec(rest.code, t);
      assert Exec(IndexSteps(st, cur, strides, idx, i).code, s) == r;
      AgreeTrans(s, t, r, st.nextId, add.st.nextId, cur.id);
      assert ValueOf(r, cur) == Linear(ivals, strides, |idx| - 1) && AgreeBelow(s, r, st.nextId, cur.id);
    } else {
      assert IndexSteps(st, cur, strides, idx, i).code == [];
      assert Exec(IndexSteps(st, cur, strides, idx, i).code, s) == s;
    }
  }

  lemma AgreeTrans(s: Store, t: Store, r: Store, lo: nat, lo': nat, except: nat)
    requires lo <= lo' && AgreeBelow(s, t, lo, except) && AgreeBelow(t, r, lo', except)
    ensures AgreeBelow(s, r, lo, except)
  {
  }

  lemma Exec1(a: IRInst, s: Store)
    ensures Exec([a], s) == Step(a, s)
  {
    assert [a][1..] == [];
  }

  /** `r = a * b` then `d = r`, on values whose ids the two writes do not clobber. */
  lemma MulCopy(a: Value, b: Value, res: Value, d: Value, s: Store)
    requires !res.kind.ConstInt? && !d.kind.ConstInt?
    ensures var r := Step(Copy(d, res), Step(Binary(OpMulI, a, b, res), s));
      ValueOf(r, d) == ValueOf(s, a) * ValueOf(s, b)
      && forall id: nat :: id != res.id && id != d.id ==> Get(r, id) == Get(s, id)
  {
  }

  /** `r = a + b` then `d = r`. */
  lemma AddCopy(a: Value, b: Value, res: Value, d: Value, s: Store)
    requires !res.kind.ConstInt? && !d.kind.ConstInt?
    ensures var r := Step(Copy(d, res), Step(Binary(OpAddI, a, b, res), s));
      ValueOf(r, d) == ValueOf(s, a) + ValueOf(s, b)
      && forall id: nat :: id != res.id && id != d.id ==> Get(r, id) == Get(s, id)
  {
  }

  /** `o = cur * 4; off = o; p = av + off; ptr = p; elem = *ptr`, with the four written ids distinct from the others. */
  lemma ScaleShape(cur: Value, four: Value, offRes: Value, offR: Value, av: Value, ptrRes: Value, ptrR: Value, elem: Value, s: Store)
    requires four.kind == ConstInt(4)
    requires !offRes.kind.ConstInt? && !offR.kind.ConstInt? && !ptrRes.kind.ConstInt? && !ptrR.kind.ConstInt?
    requires av.id != offRes.id && av.id != offR.id && offR.id != ptrRes.id && offR.id != ptrR.id
    ensures var r := Exec([Binary(OpMulI, cur, four, offRes), Copy(offR, offRes), Binary(OpAddI, av, offR, ptrRes),
                           Copy(ptrR, ptrRes), LoadThrough(elem, ptrR)], s);
      ValueOf(r, offR) == ValueOf(s, cur) * 4 && ValueOf(r, ptrR) == ValueOf(s, av) + ValueOf(s, cur) * 4
  {
    Exec5(Binary(OpMulI, cur, four, offRes), Copy(offR, offRes), Binary(OpAddI, av, offR, ptrRes),
          Copy(ptrR, ptrRes), LoadThrough(elem, ptrR), s);
    MulCopy(cur, four, offRes, offR, s);
    var s2 := Step(Copy(offR, offRes), Step(Binary(OpMulI, cur, four, offRes), s));
    AddCopy(av, offR, ptrRes, ptrR, s2);
    var s4 := Step(Copy(ptrR, ptrRes), Step(Binary(OpAddI, av, offR, ptrRes), s2));
    assert ValueOf(s2, av) == ValueOf(s, av);
    assert ValueOf(s4, offR) == ValueOf(s2, offR);
    assert Step(LoadThrough(elem, ptrR), s4) == s4;
  }

  /** The end of the general path: the offset is four times the accumulator, the pointer the array's address plus the offset. */
  lemma ScaleComputes(st: GenState, av: Value, cur: Value, s: Store)
    requires cur.id < st.nextId && av.id < st.nextId
    ensures var a := ScaleAndLoad(st, av, cur); var r := Exec(a.code, s);
      ValueOf(r, a.offset) == ValueOf(s, cur) * 4 && ValueOf(r, a.ptr) == ValueOf(s, av) + ValueOf(s, cur) * 4
  {
    var offR := NewVar(st, IntTy, "");
    var four := NewConst(offR.st, 4);
    var off := NewBinary(four.st, OpMulI, cur, four.v, IntTy);
    var ptrR := NewVar(off.st, PtrTy(IntTy), "");
    var ptr := NewBinary(ptrR.st, OpAddI, av, offR.v, PtrTy(IntTy));
    var elem := NewVar(ptr.st, IntTy, "");
    ScaleShape(cur, four.v, off.res, offR.v, av, ptr.res, ptrR.v, elem.v, s);
  }

  /** The general path up to its scaling: the accumulator ends up holding the linear index, the array's address untouched. */
  lemma PrefixComputes(st: GenState, cur: Value, av: Value, strides: seq<i32>, idx: seq<Value>, ivals: seq<int>, s: Store)
    requires 1 <= |idx| <= |strides| && |ivals| == |idx| && av.id < cur.id && !cur.kind.ConstInt? && cur.id + 1 == st.nextId
    requires forall j :: 0 <= j < |idx| ==> idx[j].id < cur.id && ValueOf(s, idx[j]) == ivals[j]
    ensures var r := Exec([Copy(cur, idx[0])] + IndexSteps(st, cur, strides, idx, 1).code, s);
      ValueOf(r, cur) == Linear(ivals, strides, |idx| - 1) && ValueOf(r, av) == ValueOf(s, av)
  {
    var first := [Copy(cur, idx[0])];
    var steps := IndexSteps(st, cur, strides, idx, 1);
    var s0 := Exec(first, s);
    Exec1(Copy(cur, idx[0]), s);
    assert s0 == s[cur.id := ValueOf(s, idx[0])];
    forall j | 1 <= j < |idx|
      ensures idx[j].id < st.nextId && idx[j].id != cur.id && ValueOf(s0, idx[j]) == ivals[j]
    {
    }
    StepsCompute(st, cur, strides, idx, 1, ivals, s0);
    var s1 := Exec(steps.code, s0);
    assert Get(s1, av.id) == Get(s0, av.id);
    ExecCat(first, steps.code, s);
    assert Exec(first + steps.code, s) == s1;
  }

  lemma GeneralComputes(st: GenState, av: Value, strides: seq<i32>, idx: seq<Value>, ivals: seq<int>, s: Store)
    requires 1 <= |idx| <= |strides| && |ivals| == |idx| && av.id < st.nextId
    requires forall j :: 0 <= j < |idx| ==> idx[j].id < st.nextId && ValueOf(s, idx[j]) == ivals[j]
    ensures var a := GeneralAccess(st, av, strides, idx);
      ValueOf(Exec(a.code, s), a.ptr) == ValueOf(s, av) + 4 * Linear(ivals, strides, |idx| - 1)
  {
    var cur := NewVar(st, IntTy, "");
    var steps := IndexSteps(cur.st, cur.v, strides, idx, 1);
    var tail := ScaleAndLoad(steps.st, av, cur.v);
    var prefix := [Copy(cur.v, idx[0])] + steps.code;
    PrefixComputes(cur.st, cur.v, av, strides, idx, ivals, s);
    ScaleComputes(steps.st, av, cur.v, Exec(prefix, s));
    ExecCat(prefix, tail.code, s);
    assert GeneralAccess(st, av, strides, idx) == Access(tail.st, prefix + tail.code, tail.offset, tail.ptr, tail.elem);
  }

  /** `m = row * c; mr = m; a = mr + col; ar = a`: the two-index head. */
  lemma HeadShape(row: Value, c: Value, mulRes: Value, mulR: Value, col: Value, addRes: Value, addR: Value, s: Store)
    requires !mulRes.kind.ConstInt? && !mulR.kind.ConstInt? && !addRes.kind.ConstInt? && !addR.kind.ConstInt?
    requires col.id != mulRes.id && col.id != mulR.id
    ensures var r := Exec([Binary(OpMulI, row, c, mulRes), Copy(mulR, mulRes), Binary(OpAddI, mulR, col, addRes), Copy(addR, addRes)], s);
      ValueOf(r, addR) == ValueOf(s, row) * ValueOf(s, c) + ValueOf(s, col)
      && forall id: nat :: id != mulRes.id && id != mulR.id && id != addRes.id && id != addR.id ==> Get(r, id) == Get(s, id)
  {
    Exec4(Binary(OpMulI, row, c, mulRes), Copy(mulR, mulRes), Binary(OpAddI, mulR, col, addRes), Copy(addR, addRes), s);
    MulCopy(row, c, mulRes, mulR, s);
    var s2 := Step(Copy(mulR, mulRes), Step(Binary(OpMulI, row, c, mulRes), s));
    AddCopy(mulR, col, addRes, addR, s2);
    assert ValueOf(s2, col) == ValueOf(s, col);
  }

  /** The two-index head, run from `s`, leaves `row * C + col` in its sum and the array's address alone. */
  lemma TwoDimHead(st: GenState, av: Value, cols: int, row: Value, col: Value, s: Store)
    requires av.id < st.nextId && row.id < st.nextId && col.id < st.nextId
    ensures var mulR := NewVar(st, IntTy, ""); var addR := NewVar(mulR.st, IntTy, "");
      var offR := NewVar(addR.st, IntTy, ""); var ptrR := NewVar(offR.st, PtrTy(IntTy), "");
      var elem := NewVar(ptrR.st, IntTy, ""); var c := NewConst(elem.st, ArmCode.Trunc32(cols));
      var mul := NewBinary(c.st, OpMulI, row, c.v, IntTy); var add := NewBinary(mul.st, OpAddI, mulR.v, col, IntTy);
      var r := Exec([mul.inst, Copy(mulR.v, mul.res), add.inst, Copy(addR.v, add.res)], s);
      ValueOf(r, addR.v) == ValueOf(s, row) * ArmCode.Trunc32(cols) + ValueOf(s, col)
      && ValueOf(r, av) == ValueOf(s, av)
  {
    var mulR := NewVar(st, IntTy, "");
    var addR := NewVar(mulR.st, IntTy, "");
    var offR := NewVar(addR.st, IntTy, "");
    var ptrR := NewVar(offR.st, PtrTy(IntTy), "");
    var elem := NewVar(ptrR.st, IntTy, "");
    var c := NewConst(elem.st, ArmCode.Trunc32(cols));
    var mul := NewBinary(c.st, OpMulI, row, c.v, IntTy);
    HeadShape(row, c.v, mul.res, mulR.v, col, NewBinary(mul.st, OpAddI, mulR.v, col, IntTy).res, addR.v, s);
  }

  /** The two-index path leaves in its pointer the array's address plus `(row * C + col) * 4`. */
  lemma TwoDimComputes(st: GenState, av: Value, cols: int, row: Value, col: Value, s: Store)
    requires av.id < st.nextId && row.id < st.nextId && col.id < st.nextId
    ensures var a := TwoDimAccess(st, av, cols, row, col);
      ValueOf(Exec(a.code, s), a.ptr) == ValueOf(s, av) + (ValueOf(s, row) * ArmCode.Trunc32(cols) + ValueOf(s, col)) * 4
  {
    var mulR := NewVar(st, IntTy, "");
    var addR := NewVar(mulR.st, IntTy, "");
    var offR := NewVar(addR.st, IntTy, "");
    var ptrR := NewVar(offR.st, PtrTy(IntTy), "");
    var elem := NewVar(ptrR.st, IntTy, "");
    var c := NewConst(elem.st, ArmCode.Trunc32(cols));
    var mul := NewBinary(c.st, OpMulI, row, c.v, IntTy);
    var add := NewBinary(mul.st, OpAddI, mulR.v, col, IntTy);
    var four := NewConst(add.st, 4);
    var off := NewBinary(four.st, OpMulI, addR.v, four.v, IntTy);
    var ptr := NewBinary(off.st, OpAddI, av, offR.v, PtrTy(IntTy));
    var head := [mul.inst, Copy(mulR.v, mul.res), add.inst, Copy(addR.v, add.res)];
    var tail := [off.inst, Copy(offR.v, off.res), ptr.inst, Copy(ptrR.v, ptr.res), LoadThrough(elem.v, ptrR.v)];
    TwoDimHead(st, av, cols, row, col, s);
    ScaleShape(addR.v, four.v, off.res, offR.v, av, ptr.res, ptrR.v, elem.v, Exec(head, s));
    ExecCat(head, tail, s);
  }

  /** `Trunc32` leaves a value that already fits in 32 bits alone. */
  lemma Trunc32Keeps(x: int)
    requires -0x8000_0000 <= x < 0x8000_0000
    ensures ArmCode.Trunc32(x) == x
  {
    if x < 0 {
      assert ArmCode.U32(x) == x + ArmCode.TWO32;
    } else {
      assert ArmCode.U32(x) == x;
    }
  }

  /** With multipliers that fit in 32 bits, the strides of the general path are the back end's multipliers. */
  lemma StridesAgree(dims: seq<int>, n: nat)
    requires 1 <= n <= |dims| && ArmCode.MultipliersFit(dims, n - 1)
    ensures forall j :: 1 <= j < n ==> StrideConsts(dims, n)[j] == ArmCode.Multiplier(dims, j - 1)
  {
    forall j | 1 <= j < n
      ensures StrideConsts(dims, n)[j] == ArmCode.Multiplier(dims, j - 1)
    {
      assert dims[j..] == dims[j - 1 + 1..];
      assert Stride(dims, j) == ArmCode.Multiplier(dims, j - 1);
      Trunc32Keeps(Stride(dims, j));
    }
  }

  /**
   * With the back end's multipliers as strides, the index the general path
   * accumulates is the one `calc_multi_array_addr` computes.
   */
  lemma {:induction false} LinearAgrees(ivals: seq<int>, strides: seq<int>, dims: seq<int>, k: nat)
    requires k < |ivals| <= |strides|
    requires forall j :: 1 <= j <= k ==> strides[j] == ArmCode.Multiplier(dims, j - 1)
    ensures Linear(ivals, strides, k) == ArmCode.LinearIndex(ivals, dims, k)
  {
    if k > 0 {
      LinearAgrees(ivals, strides, dims, k - 1);
    }
  }

  /**
   * Whichever path it takes, the access code leaves in its pointer the
   * array's address plus four times the back end's linear index.
   */
  lemma AccessComputes(st: GenState, av: Value, dims: seq<int>, idx: seq<Value>, ivals: seq<int>, s: Store)
    requires 1 <= |idx| <= |dims| && |ivals| == |idx| && av.id < st.nextId && ArmCode.MultipliersFit(dims, |idx| - 1)
    requires forall j :: 0 <= j < |idx| ==> idx[j].id < st.nextId && ValueOf(s, idx[j]) == ivals[j]
    ensures var a := AccessCode(st, av, dims, idx);
      ValueOf(Exec(a.code, s), a.ptr) == ValueOf(s, av) + 4 * ArmCode.LinearIndex(ivals, dims, |idx| - 1)
  {
    if |idx| == 2 && |dims| == 2 {
      TwoDimAgrees(st, av, dims, idx, ivals, s);
    } else {
      StridesAgree(dims, |idx|);
      GeneralAgrees(st, av, dims, StrideConsts(dims, |idx|), idx, ivals, s);
    }
  }

  /** The general path agrees with the back end's linear index. */
  lemma GeneralAgrees(st: GenState, av: Value, dims: seq<int>, strides: seq<i32>, idx: seq<Value>, ivals: seq<int>, s: Store)
    requires 1 <= |idx| <= |strides| && |ivals| == |idx| && av.id < st.nextId
    requires forall j :: 1 <= j < |idx| ==> strides[j] == ArmCode.Multiplier(dims, j - 1)
    requires forall j :: 0 <= j < |idx| ==> idx[j].id < st.nextId && ValueOf(s, idx[j]) == ivals[j]
    ensures var a := GeneralAccess(st, av, strides, idx);
      ValueOf(Exec(a.code, s), a.ptr) == ValueOf(s, av) + 4 * ArmCode.LinearIndex(ivals, dims, |idx| - 1)
  {
    LinearAgrees(ivals, strides, dims, |idx| - 1);
    var lin := Linear(ivals, strides, |idx| - 1);
    assert lin == ArmCode.LinearIndex(ivals, dims, |idx| - 1);
    GeneralComputes(st, av, strides, idx, ivals, s);
  }

  /** In a two-dimensional array the first index is scaled by the second dimension. */
  lemma MultiplierOfPair(dims: seq<int>)
    requires |dims| == 2
    ensures ArmCode.Multiplier(dims, 0) == dims[1]
  {
    assert dims[1..] == [dims[1]] && [dims[1]][..0] == [];
    assert Product([dims[1]]) == Product([]) * dims[1];
  }

  /** The two-index path agrees with the back end's linear index. */
  lemma TwoDimAgrees(st: GenState, av: Value, dims: seq<int>, idx: seq<Value>, ivals: seq<int>, s: Store)
    requires |idx| == 2 && |dims| == 2 && |ivals| == 2 && av.id < st.nextId && ArmCode.MultipliersFit(dims, 1)
    requires forall j :: 0 <= j < 2 ==> idx[j].id < st.nextId && ValueOf(s, idx[j]) == ivals[j]
    ensures var a := TwoDimAccess(st, av, dims[1], idx[0], idx[1]);
      ValueOf(Exec(a.code, s), a.ptr) == ValueOf(s, av) + 4 * ArmCode.LinearIndex(ivals, dims, 1)
  {
    var a := TwoDimAccess(st, av, dims[1], idx[0], idx[1]);
    TwoDimComputes(st, av, dims[1], idx[0], idx[1], s);
    ArmCode.MultiArrayTwoDimensional(ivals, dims);
    MultiplierOfPair(dims);
    Trunc32Keeps(dims[1]);
    assert ValueOf(s, idx[0]) == ivals[0] && ValueOf(s, idx[1]) == ivals[1];
    assert ValueOf(s, idx[0]) * ArmCode.Trunc32(dims[1]) + ValueOf(s, idx[1]) == ArmCode.LinearIndex(ivals, dims, 1);
  }

  /**
   * `a[1][0][0]` in `int a[2][2][2]`: the generated code points 32 bytes
   * past the array, where row-major order puts the element at 16.
   */
  lemma AccessThreeDimensionalNotRowMajor(st: GenState, av: Value, idx: seq<Value>, s: Store)
    requires |idx| == 3 && av.id < st.nextId
    requires forall j :: 0 <= j < 3 ==> idx[j].id < st.nextId && ValueOf(s, idx[j]) == [1, 0, 0][j]
    ensures var a := AccessCode(st, av, [2, 2, 2], idx);
      ValueOf(Exec(a.code, s), a.ptr) == ValueOf(s, av) + 32
      && 4 * ArmCode.RowMajor([1, 0, 0], [2, 2, 2]) == 16
  {
    var d := [2, 2, 2];
    assert ArmCode.MultipliersFit(d, 2) by {
      assert d[1..] == [2, 2] && d[2..] == [2];
      assert Product([2]) == 2 by {
        assert [2][..0] == [];
      }
      assert Product([2, 2]) == 4 by {
        assert [2, 2][..1] == [2];
      }
    }
    AccessComputes(st, av, d, idx, [1, 0, 0], s);
    ArmCode.MultiArrayThreeDimensionalNotRowMajor();
  }

  /** With the next dimension as each stride, the general path accumulates the corrected linear index. */
  lemma {:induction false} CorrectedStridesAgree(ivals: seq<int>, strides: seq<int>, dims: seq<int>, k: nat)
    requires k < |ivals| <= |strides| && |ivals| <= |dims|
    requires forall j :: 1 <= j <= k ==> strides[j] == dims[j]
    ensures Linear(ivals, strides, k) == ArmCode.CorrectedLinearIndex(ivals, dims, k)
  {
    if k > 0 {
      CorrectedStridesAgree(ivals, strides, dims, k - 1);
    }
  }

  /**
   * The general path with the evidently intended strides (stride `j` is
   * dimension `j`, not the product of dimensions `j ..`) leaves in its
   * pointer the array's address plus four times the row-major index, for any
   * number of dimensions.
   */
  lemma CorrectedGeneralIsRowMajor(st: GenState, av: Value, dims: seq<int>, strides: seq<i32>, idx: seq<Value>, ivals: seq<int>, s: Store)
    requires 1 <= |idx| == |dims| <= |strides| && |ivals| == |idx| && av.id < st.nextId
    requires forall j :: 1 <= j < |idx| ==> strides[j] == dims[j]
    requires forall j :: 0 <= j < |idx| ==> idx[j].id < st.nextId && ValueOf(s, idx[j]) == ivals[j]
    ensures var a := GeneralAccess(st, av, strides, idx);
      ValueOf(Exec(a.code, s), a.ptr) == ValueOf(s, av) + 4 * ArmCode.RowMajor(ivals, dims)
  {
    CorrectedStridesAgree(ivals, strides, dims, |idx| - 1);
    ArmCode.CorrectedMultiArrayIsRowMajor(ivals, dims);
    var lin := Linear(ivals, strides, |idx| - 1);
    assert lin == ArmCode.RowMajor(ivals, dims);
    GeneralComputes(st, av, strides, idx, ivals, s);
  }
}
