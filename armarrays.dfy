/**
 * What the array helpers of the ARM32 emitter compute, on the machine of
 * `ArmSem`: the element address of `calc_array_addr` and
 * `calc_multi_array_addr`, and the load and store through a base and an
 * offset register of `load_array_dynamic` and `store_array_dynamic`.
 */
module ArmArrays {
  import opened Common
  import opened IR
  import opened ArmCode
  import opened ArmSem

  /** The element sizes the address helpers scale without a multiplication. */
  predicate ShiftedSize(size: int) {
    size == 1 || size == 4 || size == 8
  }

  /** A comment record in front of `rest` changes nothing. */
  lemma CommentThen(c: ArmInst, rest: seq<ArmInst>, m: Machine, m': Machine)
    requires c.opcode == "@" && Exec(rest, m) == Some(m')
    ensures Exec([c] + rest, m) == Some(m')
  {
    ExecOne(c, m);
    ExecThen([c], rest, m, m, m');
  }

  /** Writing `r`, another register `t`, then `r` again is writing `t`, then `r`. */
  lemma SetRegShadow(m: Machine, r: string, t: string, a: int, b: int, c: int)
    requires r != t
    ensures SetReg(SetReg(SetReg(m, r, a), t, b), r, c) == SetReg(SetReg(m, t, b), r, c)
  {
    assert m.regs[r := U32(a)][t := U32(b)][r := U32(c)] == m.regs[t := U32(b)][r := U32(c)];
  }

  /**
   * `calc_array_addr(rs, b, idx, size, tmp)` leaves `b + idx * size` in `rs`.
   * A size other than 1, 4 and 8 goes through `tmp`, which then holds
   * `idx * size` and must differ from the base and the index.
   */
  lemma CalcArrayAddrComputes(rs: int, b: int, idx: int, size: i32, tmp: int, x: int, m: Machine)
    requires IsReg(rs) && IsReg(b) && IsReg(idx) && IsReg(tmp)
    requires !ShiftedSize(size) ==> tmp != b && tmp != idx
    requires x == Reg(m, RegName(idx)) * size
    ensures Exec(CalcArrayAddrCode(rs, b, idx, size, tmp), m)
            == Some(SetReg(AfterScratch(m, !ShiftedSize(size), tmp, x), RegName(rs), Reg(m, RegName(b)) + x))
  {
    if size == 1 {
      CalcArrayAddrByte(rs, b, idx, size, tmp, x, m);
    } else if size == 4 || size == 8 {
      CalcArrayAddrShifted(rs, b, idx, size, tmp, x, m);
    } else {
      CalcArrayAddrScaled(rs, b, idx, size, tmp, x, m);
    }
  }

  /** Size 1: `add rs,b,idx`. */
  lemma CalcArrayAddrByte(rs: int, b: int, idx: int, size: i32, tmp: int, x: int, m: Machine)
    requires IsReg(rs) && IsReg(b) && IsReg(idx) && IsReg(tmp) && size == 1
    requires x == Reg(m, RegName(idx)) * size
    ensures Exec(CalcArrayAddrCode(rs, b, idx, size, tmp), m)
            == Some(SetReg(AfterScratch(m, !ShiftedSize(size), tmp, x), RegName(rs), Reg(m, RegName(b)) + x))
  {
    var c := CommentInst("array element address: base + index * " + IntToString(size));
    var add := Inst("add", RegName(rs), RegName(b), RegName(idx));
    assert x == Reg(m, RegName(idx));
    assert CalcArrayAddrCode(rs, b, idx, size, tmp) == [c] + [add];
    AddRegister(m, RegName(rs), RegName(b), idx);
    CommentThen(c, [add], m, SetReg(m, RegName(rs), Reg(m, RegName(b)) + Reg(m, RegName(idx))));
  }

  /** `add r,a,i` adds register `i` to `a`. */
  lemma AddRegister(m: Machine, r: string, a: string, i: int)
    requires Writes(r) && IsReg(i)
    ensures Exec([Inst("add", r, a, RegName(i))], m) == Some(SetReg(m, r, Reg(m, a) + Reg(m, RegName(i))))
  {
    RegisterOperand(m, i);
    StepAdd(m, r, a, RegName(i), Reg(m, RegName(i)));
  }

  /** Sizes 4 and 8: `add rs,b,idx, lsl #k` with `2^k` the size. */
  lemma CalcArrayAddrShifted(rs: int, b: int, idx: int, size: i32, tmp: int, x: int, m: Machine)
    requires IsReg(rs) && IsReg(b) && IsReg(idx) && IsReg(tmp) && (size == 4 || size == 8)
    requires x == Reg(m, RegName(idx)) * size
    ensures Exec(CalcArrayAddrCode(rs, b, idx, size, tmp), m)
            == Some(SetReg(AfterScratch(m, !ShiftedSize(size), tmp, x), RegName(rs), Reg(m, RegName(b)) + x))
  {
    var k: nat := if size == 4 then 2 else 3;
    var c := CommentInst("array element address: base + index * " + IntToString(size));
    var add := Inst("add", RegName(rs), RegName(b), RegName(idx) + ", lsl #" + IntToString(k));
    if k == 2 {
      assert Pow2(2) == 4;
      assert IntToString(2) == "2";
      assert RegName(idx) + ", lsl #" + IntToString(2) == RegName(idx) + ", lsl #2";
    } else {
      assert Pow2(3) == 8;
      assert IntToString(3) == "3";
      assert RegName(idx) + ", lsl #" + IntToString(3) == RegName(idx) + ", lsl #3";
    }
    assert CalcArrayAddrCode(rs, b, idx, size, tmp) == [c] + [add];
    AddShifted(rs, b, idx, k, x, m);
    CommentThen(c, [add], m, SetReg(m, RegName(rs), Reg(m, RegName(b)) + x));
  }

  /** Any other size goes through `tmp`. */
  lemma CalcArrayAddrScaled(rs: int, b: int, idx: int, size: i32, tmp: int, x: int, m: Machine)
    requires IsReg(rs) && IsReg(b) && IsReg(idx) && IsReg(tmp) && !ShiftedSize(size) && tmp != b && tmp != idx
    requires x == Reg(m, RegName(idx)) * size
    ensures Exec(CalcArrayAddrCode(rs, b, idx, size, tmp), m)
            == Some(SetReg(AfterScratch(m, !ShiftedSize(size), tmp, x), RegName(rs), Reg(m, RegName(b)) + x))
  {
    var c := CommentInst("array element address: base + index * " + IntToString(size));
    var t := RegName(tmp);
    var rest := LoadImmCode(tmp, size) + [Inst("mul", t, RegName(idx), t)] + [Inst("add", RegName(rs), RegName(b), t)];
    assert CalcArrayAddrCode(rs, b, idx, size, tmp) == [c] + rest;
    CalcArrayAddrThroughMul(rs, b, idx, size, tmp, x, m);
    CommentThen(c, rest, m, SetReg(SetReg(m, t, x), RegName(rs), Reg(m, RegName(b)) + x));
  }

  /** `add rs,b,idx, lsl #k` adds `x`, the index times `2^k`, to the base. */
  lemma AddShifted(rs: int, b: int, idx: int, k: nat, x: int, m: Machine)
    requires IsReg(rs) && IsReg(b) && IsReg(idx) && x == Reg(m, RegName(idx)) * Pow2(k)
    ensures Exec([Inst("add", RegName(rs), RegName(b), RegName(idx) + ", lsl #" + IntToString(k))], m)
            == Some(SetReg(m, RegName(rs), Reg(m, RegName(b)) + x))
  {
    ShiftedOperand(m, idx, k);
    AddOperandComputes(m, RegName(rs), RegName(b), RegName(idx) + ", lsl #" + IntToString(k), x);
  }

  /** `add r,a,s` with an operand `s` that reads as `x` modulo 2^32 adds `x`. */
  lemma AddOperandComputes(m: Machine, r: string, a: string, s: string, x: int)
    requires Writes(r) && Operand2(m, s) == Some(U32(x))
    ensures Exec([Inst("add", r, a, s)], m) == Some(SetReg(m, r, Reg(m, a) + x))
  {
    StepAdd(m, r, a, s, U32(x));
    U32Add(Reg(m, a), x);
    SetRegSame(m, r, Reg(m, a) + U32(x), Reg(m, a) + x);
  }

  /** `tmp = size`, `tmp = idx * tmp`, `rs = b + tmp`, with `x` the index times the size. */
  lemma CalcArrayAddrThroughMul(rs: int, b: int, idx: int, size: i32, tmp: int, x: int, m: Machine)
    requires IsReg(rs) && IsReg(b) && IsReg(idx) && IsReg(tmp) && tmp != b && tmp != idx
    requires x == Reg(m, RegName(idx)) * size
    ensures Exec(LoadImmCode(tmp, size) + [Inst("mul", RegName(tmp), RegName(idx), RegName(tmp))]
                 + [Inst("add", RegName(rs), RegName(b), RegName(tmp))], m)
            == Some(SetReg(SetReg(m, RegName(tmp), x), RegName(rs), Reg(m, RegName(b)) + x))
  {
    var t := RegName(tmp);
    var mul := Inst("mul", t, RegName(idx), t);
    var add := Inst("add", RegName(rs), RegName(b), t);
    var m1 := SetReg(m, t, size);
    var m2 := SetReg(m, t, x);
    RegNameInjective(tmp, idx);
    LoadImmComputes(tmp, size, m);
    IndexTimesSize(m, t, RegName(idx), size, x);
    ExecThen(LoadImmCode(tmp, size), [mul], m, m1, m2);
    AddScratch(rs, b, tmp, x, m);
    ExecThen(LoadImmCode(tmp, size) + [mul], [add], m, m2, SetReg(m2, RegName(rs), Reg(m, RegName(b)) + x));
  }

  /** `add rs,b,tmp` after `x` was written to `tmp`, a register other than `b`, adds `x` to the base. */
  lemma AddScratch(rs: int, b: int, tmp: int, x: int, m: Machine)
    requires IsReg(rs) && IsReg(b) && IsReg(tmp) && tmp != b
    ensures var m2 := SetReg(m, RegName(tmp), x);
            Exec([Inst("add", RegName(rs), RegName(b), RegName(tmp))], m2)
            == Some(SetReg(m2, RegName(rs), Reg(m, RegName(b)) + x))
  {
    var m2 := SetReg(m, RegName(tmp), x);
    RegNameInjective(tmp, b);
    assert Reg(m2, RegName(b)) == Reg(m, RegName(b));
    RegisterOperand(m2, tmp);
    AddOperandComputes(m2, RegName(rs), RegName(b), RegName(tmp), x);
  }

  /** `mul t,i,t` after `t` was loaded with `size` leaves `i * size` in `t`. */
  lemma IndexTimesSize(m: Machine, t: string, i: string, size: int, x: int)
    requires Writes(t) && t != i && x == Reg(m, i) * size
    ensures Exec([Inst("mul", t, i, t)], SetReg(m, t, size)) == Some(SetReg(m, t, x))
  {
    var m1 := SetReg(m, t, size);
    StepMul(m1, t, i, t);
    SetRegTwice(m, t, size, Reg(m, i) * U32(size));
    U32Mul(Reg(m, i), size);
    SetRegSame(m, t, Reg(m, i) * U32(size), x);
  }

  /**
   * Step `i` of the loop of `calc_multi_array_addr`, for an `i` the loop
   * reaches: `tmp1` gets the multiplier `k`, and `rs` goes from `acc` to
   * `p = acc * k` plus the next index register.
   */
  lemma MultiStepComputes(rs: int, idx: seq<int>, dims: seq<int>, tmp1: int, i: nat, k: i32, acc: int, p: int, m: Machine)
    requires IsReg(rs) && IsReg(tmp1) && AllRegs(idx) && i + 1 < |idx| && MultipliersFit(dims, |idx|)
    requires rs != tmp1 && idx[i + 1] != rs && idx[i + 1] != tmp1
    requires Reg(m, RegName(rs)) == U32(acc) && k == Multiplier(dims, i) && p == acc * k
    ensures Exec(MultiStepCode(rs, idx, dims, tmp1, i), m)
            == Some(SetReg(SetReg(m, RegName(tmp1), k), RegName(rs), p + Reg(m, RegName(idx[i + 1]))))
  {
    MultiStepRuns(MultiStepCode(rs, idx, dims, tmp1, i), rs, idx, dims, tmp1, i, k, acc, p, m);
  }

  /** The same, for `code` the step's instructions. */
  lemma MultiStepRuns(code: seq<ArmInst>, rs: int, idx: seq<int>, dims: seq<int>, tmp1: int, i: nat, k: i32, acc: int, p: int, m: Machine)
    requires IsReg(rs) && IsReg(tmp1) && AllRegs(idx) && i + 1 < |idx| && MultipliersFit(dims, |idx|)
    requires rs != tmp1 && idx[i + 1] != rs && idx[i + 1] != tmp1
    requires Reg(m, RegName(rs)) == U32(acc) && k == Multiplier(dims, i) && p == acc * k
    requires code == MultiStepCode(rs, idx, dims, tmp1, i)
    ensures Exec(code, m) == Some(SetReg(SetReg(m, RegName(tmp1), k), RegName(rs), p + Reg(m, RegName(idx[i + 1]))))
  {
    MultiStepShape(rs, idx, dims, tmp1, i, k);
    LoadThenMulAdd(code, rs, tmp1, idx[i + 1], k, acc, p, m);
  }

  /** `tmp1 = k`, `rs = rs * tmp1`, `rs = rs + nx`, from `acc` in `rs`. */
  lemma LoadThenMulAdd(code: seq<ArmInst>, rs: int, tmp1: int, nx: int, k: i32, acc: int, p: int, m: Machine)
    requires IsReg(rs) && IsReg(tmp1) && IsReg(nx) && rs != tmp1 && nx != rs && nx != tmp1
    requires Reg(m, RegName(rs)) == U32(acc) && p == acc * k
    requires code == LoadImmCode(tmp1, k) + [Inst("mul", RegName(rs), RegName(rs), RegName(tmp1)),
                                             Inst("add", RegName(rs), RegName(rs), RegName(nx))]
    ensures Exec(code, m) == Some(SetReg(SetReg(m, RegName(tmp1), k), RegName(rs), p + Reg(m, RegName(nx))))
  {
    var t := RegName(tmp1);
    var r := RegName(rs);
    var pair := [Inst("mul", r, r, t), Inst("add", r, r, RegName(nx))];
    LoadImmComputes(tmp1, k, m);
    MulAddPair(m, rs, tmp1, nx, k, acc, p);
    ExecThen(LoadImmCode(tmp1, k), pair, m, SetReg(m, t, k), SetReg(SetReg(m, t, k), r, p + Reg(m, RegName(nx))));
  }

  /** A step the loop reaches ends with the `add` of the next index register. */
  lemma MultiStepShape(rs: int, idx: seq<int>, dims: seq<int>, tmp1: int, i: nat, k: i32)
    requires IsReg(rs) && IsReg(tmp1) && AllRegs(idx) && i + 1 < |idx| && MultipliersFit(dims, |idx|)
    requires k == Multiplier(dims, i)
    ensures MultiStepCode(rs, idx, dims, tmp1, i)
            == LoadImmCode(tmp1, k) + [Inst("mul", RegName(rs), RegName(rs), RegName(tmp1)),
                                       Inst("add", RegName(rs), RegName(rs), RegName(idx[i + 1]))]
  {
    var mul := Inst("mul", RegName(rs), RegName(rs), RegName(tmp1));
    var add := Inst("add", RegName(rs), RegName(rs), RegName(idx[i + 1]));
    assert [mul] + [add] == [mul, add];
  }

  /**
   * After `tmp1` was loaded with `k`, `mul rs,rs,tmp1` then `add rs,rs,nx`
   * takes `rs` from `acc` to `p = acc * k` plus `nx`.
   */
  lemma MulAddPair(m: Machine, rs: int, tmp1: int, nx: int, k: int, acc: int, p: int)
    requires IsReg(rs) && IsReg(tmp1) && IsReg(nx) && rs != tmp1 && nx != rs && nx != tmp1
    requires Reg(m, RegName(rs)) == U32(acc) && p == acc * k
    ensures var r := RegName(rs);
            var m1 := SetReg(m, RegName(tmp1), k);
            Exec([Inst("mul", r, r, RegName(tmp1)), Inst("add", r, r, RegName(nx))], m1)
            == Some(SetReg(m1, r, p + Reg(m, RegName(nx))))
  {
    var r := RegName(rs);
    var t := RegName(tmp1);
    var m1 := SetReg(m, t, k);
    var mul := Inst("mul", r, r, t);
    var add := Inst("add", r, r, RegName(nx));
    RegNameInjective(rs, tmp1);
    RegNameInjective(nx, tmp1);
    assert Reg(m1, r) == U32(acc);
    assert Reg(m1, RegName(nx)) == Reg(m, RegName(nx));
    MulStep(m1, r, t, acc, k, p);
    AddAfter([mul] + [add], [mul], rs, nx, p, p + Reg(m, RegName(nx)), m1, m1);
    assert [mul] + [add] == [mul, add];
  }

  /** `tmp1 = k`, then `rs = rs * tmp1`, with `acc` in `rs`, leaves `p = acc * k` in `rs`. */
  lemma MulComputes(rs: int, tmp1: int, k: i32, acc: int, p: int, m: Machine)
    requires IsReg(rs) && IsReg(tmp1) && rs != tmp1 && Reg(m, RegName(rs)) == U32(acc) && p == acc * k
    ensures Exec(LoadImmCode(tmp1, k) + [Inst("mul", RegName(rs), RegName(rs), RegName(tmp1))], m)
            == Some(SetReg(SetReg(m, RegName(tmp1), k), RegName(rs), p))
  {
    var r := RegName(rs);
    var t := RegName(tmp1);
    RegNameInjective(rs, tmp1);
    var m1 := SetReg(m, t, k);
    LoadImmComputes(tmp1, k, m);
    MulStep(m1, r, t, acc, k, p);
    ExecThen(LoadImmCode(tmp1, k), [Inst("mul", r, r, t)], m, m1, SetReg(m1, r, p));
  }

  /** `mul r,r,t` with `x` in `r` and `y` in `t` leaves `x * y` in `r`. */
  lemma MulStep(m: Machine, r: string, t: string, x: int, y: int, p: int)
    requires Writes(r) && Reg(m, r) == U32(x) && Reg(m, t) == U32(y) && p == x * y
    ensures Exec([Inst("mul", r, r, t)], m) == Some(SetReg(m, r, p))
  {
    StepMul(m, r, r, t);
    U32Mul(U32(x), y);
    U32Mul(y, x);
    SetRegSame(m, r, U32(x) * U32(y), p);
  }

  /** After code `a` left `p` in `rs`, `add rs,rs,nx` for a register `nx` other than `rs` leaves `v = p + nx` in it. */
  lemma AddAfter(code: seq<ArmInst>, a: seq<ArmInst>, rs: int, nx: int, p: int, v: int, m: Machine, s: Machine)
    requires IsReg(rs) && IsReg(nx) && nx != rs && code == a + [Inst("add", RegName(rs), RegName(rs), RegName(nx))]
    requires Exec(a, m) == Some(SetReg(s, RegName(rs), p)) && v == p + Reg(s, RegName(nx))
    ensures Exec(code, m) == Some(SetReg(s, RegName(rs), v))
  {
    var r := RegName(rs);
    var s1 := SetReg(s, r, p);
    RegNameInjective(nx, rs);
    assert Reg(s1, RegName(nx)) == Reg(s, RegName(nx));
    AddRegister(s1, r, r, nx);
    SetRegTwice(s, r, p, Reg(s1, r) + Reg(s, RegName(nx)));
    U32Add(Reg(s, RegName(nx)), p);
    SetRegSame(s, r, U32(p) + Reg(s, RegName(nx)), p + Reg(s, RegName(nx)));
    ExecThen(a, [Inst("add", r, r, RegName(nx))], m, s1, SetReg(s, r, v));
  }

  /**
   * The register conditions of `calc_multi_array_addr`: `rs` and `tmp1` differ
   * from each other and from the later index registers, and `ivals` are the
   * contents of the index registers in `m`.
   */
  predicate IndexRegs(rs: int, idx: seq<int>, dims: seq<int>, tmp1: int, ivals: seq<int>, m: Machine) {
    IsReg(rs) && IsReg(tmp1) && AllRegs(idx) && |idx| >= 1 && MultipliersFit(dims, |idx|) && rs != tmp1
    && (forall j :: 1 <= j < |idx| ==> idx[j] != rs && idx[j] != tmp1)
    && |ivals| == |idx| && (forall j :: 0 <= j < |idx| ==> ivals[j] == Reg(m, RegName(idx[j])))
  }

  /** The scratch register after steps `0 .. k-1` of the loop: the last multiplier, once a step ran. */
  function MultiScratch(m: Machine, tmp1: int, dims: seq<int>, k: nat): Machine
    requires IsReg(tmp1)
  {
    if k == 0 then m else SetReg(m, RegName(tmp1), Multiplier(dims, k - 1))
  }

  /**
   * From `rs` holding the first index, steps `0 .. k-1` leave
   * `lin = LinearIndex(ivals, dims, k)` in `rs`, as long as neither `rs` nor
   * `tmp1` is one of the later index registers.
   */
  lemma {:induction false} MultiStepsComputes(rs: int, idx: seq<int>, dims: seq<int>, tmp1: int, ivals: seq<int>, k: nat, lin: int, m: Machine)
    requires IndexRegs(rs, idx, dims, tmp1, ivals, m) && k < |idx| && lin == LinearIndex(ivals, dims, k)
    ensures Exec(MultiStepsCode(rs, idx, dims, tmp1, k), SetReg(m, RegName(rs), ivals[0]))
            == Some(SetReg(MultiScratch(m, tmp1, dims, k), RegName(rs), lin))
    decreases k
  {
    if k > 0 {
      var acc := LinearIndex(ivals, dims, k - 1);
      var before := SetReg(MultiScratch(m, tmp1, dims, k - 1), RegName(rs), acc);
      MultiStepsComputes(rs, idx, dims, tmp1, ivals, k - 1, acc, m);
      MultiStepAfter(rs, idx, dims, tmp1, ivals, k, acc, lin, m);
      ExecThen(MultiStepsCode(rs, idx, dims, tmp1, k - 1), MultiStepCode(rs, idx, dims, tmp1, k - 1),
               SetReg(m, RegName(rs), ivals[0]), before, SetReg(MultiScratch(m, tmp1, dims, k), RegName(rs), lin));
    }
  }

  /** Step `k - 1` takes `rs` from `acc`, the linear index of the first `k` indices, to `lin`, that of the first `k + 1`. */
  lemma MultiStepAfter(rs: int, idx: seq<int>, dims: seq<int>, tmp1: int, ivals: seq<int>, k: nat, acc: int, lin: int, m: Machine)
    requires IsReg(rs) && IsReg(tmp1) && AllRegs(idx) && 0 < k < |idx| && MultipliersFit(dims, |idx|) && rs != tmp1
    requires idx[k] != rs && idx[k] != tmp1
    requires |ivals| == |idx| && Reg(m, RegName(idx[k])) == ivals[k]
    requires acc == LinearIndex(ivals, dims, k - 1) && lin == LinearIndex(ivals, dims, k)
    ensures Exec(MultiStepCode(rs, idx, dims, tmp1, k - 1), SetReg(MultiScratch(m, tmp1, dims, k - 1), RegName(rs), acc))
            == Some(SetReg(MultiScratch(m, tmp1, dims, k), RegName(rs), lin))
  {
    var r := RegName(rs);
    var t := RegName(tmp1);
    var before := MultiScratch(m, tmp1, dims, k - 1);
    var prev := SetReg(before, r, acc);
    assert -0x8000_0000 <= Multiplier(dims, k - 1) < 0x8000_0000;
    var mk: i32 := Multiplier(dims, k - 1);
    var p := acc * mk;
    assert lin == p + ivals[k];
    RegNameInjective(idx[k], rs);
    RegNameInjective(idx[k], tmp1);
    assert Reg(prev, RegName(idx[k])) == ivals[k];
    MultiStepComputes(rs, idx, dims, tmp1, k - 1, mk, acc, p, prev);
    RegNameInjective(rs, tmp1);
    SetRegShadow(before, r, t, acc, mk, lin);
    if k > 1 {
      SetRegTwice(m, t, Multiplier(dims, k - 2), mk);
    }
  }

  /** The scaling by the element size turns `acc` in `rs` into `p = acc * size`, through `tmp1` for sizes other than 1, 4 and 8. */
  lemma ScaleComputes(rs: int, size: i32, tmp1: int, acc: int, p: int, m: Machine)
    requires IsReg(rs) && IsReg(tmp1) && rs != tmp1 && p == acc * size
    ensures Exec(ScaleCode(rs, size, tmp1), SetReg(m, RegName(rs), acc))
            == Some(SetReg(AfterScratch(m, !ShiftedSize(size), tmp1, size), RegName(rs), p))
  {
    if size == 4 {
      ScaleShifted(rs, size, tmp1, 2, acc, p, m);
    } else if size == 8 {
      ScaleShifted(rs, size, tmp1, 3, acc, p, m);
    } else if size != 1 {
      ScaleMul(rs, size, tmp1, acc, p, m);
    }
  }

  /** Sizes 4 and 8: `lsl rs,rs,#k`. */
  lemma ScaleShifted(rs: int, size: i32, tmp1: int, k: nat, acc: int, p: int, m: Machine)
    requires IsReg(rs) && IsReg(tmp1) && ((size == 4 && k == 2) || (size == 8 && k == 3)) && p == acc * size
    ensures Exec(ScaleCode(rs, size, tmp1), SetReg(m, RegName(rs), acc)) == Some(SetReg(m, RegName(rs), p))
  {
    var r := RegName(rs);
    if k == 2 {
      assert "#" + IntToString(2) == "#2";
    } else {
      assert "#" + IntToString(3) == "#3";
    }
    assert ScaleCode(rs, size, tmp1) == [Inst("lsl", r, r, "#" + IntToString(k))];
    assert Pow2(k) == size;
    var m1 := SetReg(m, r, acc);
    StepLsl(m1, r, r, k);
    SetRegTwice(m, r, acc, U32(acc) * size);
    U32Mul(size, acc);
    SetRegSame(m, r, U32(acc) * size, p);
  }

  /** Any other size but 1: `tmp1 = size`, `rs = rs * tmp1`. */
  lemma ScaleMul(rs: int, size: i32, tmp1: int, acc: int, p: int, m: Machine)
    requires IsReg(rs) && IsReg(tmp1) && rs != tmp1 && !ShiftedSize(size) && p == acc * size
    ensures Exec(ScaleCode(rs, size, tmp1), SetReg(m, RegName(rs), acc))
            == Some(SetReg(SetReg(m, RegName(tmp1), size), RegName(rs), p))
  {
    var r := RegName(rs);
    var t := RegName(tmp1);
    RegNameInjective(rs, tmp1);
    assert ScaleCode(rs, size, tmp1) == LoadImmCode(tmp1, size) + [Inst("mul", r, r, RegName(tmp1))];
    MulComputes(rs, tmp1, size, acc, p, SetReg(m, r, acc));
    SetRegShadow(m, r, t, acc, size, p);
  }

  /** The register state `calc_multi_array_addr` leaves apart from `rs`: `tmp1` as the last step or the scaling left it. */
  function MultiAddrScratch(m: Machine, tmp1: int, dims: seq<int>, last: nat, size: i32): Machine
    requires IsReg(tmp1)
  {
    AfterScratch(MultiScratch(m, tmp1, dims, last), !ShiftedSize(size), tmp1, size)
  }

  /**
   * `calc_multi_array_addr(rs, b, idx, dims, size, tmp1, tmp2)` leaves
   * `b + p` in `rs`, where `p = LinearIndex(ivals, dims, |idx| - 1) * size`
   * is the byte offset of the element and `ivals` are the contents of the
   * index registers, and changes no register but `rs` and `tmp1`.  The base
   * and the later index registers must differ from `rs` and `tmp1`, which are
   * overwritten on the way.
   */
  lemma MultiArrayAddrComputes(rs: int, b: int, idx: seq<int>, dims: seq<int>, size: i32, tmp1: int, ivals: seq<int>, p: int, m: Machine)
    requires IsReg(rs) && IsReg(b) && IsReg(tmp1) && AllRegs(idx) && |idx| >= 1 && MultipliersFit(dims, |idx|)
    requires rs != tmp1 && b != rs && b != tmp1
    requires forall j :: 1 <= j < |idx| ==> idx[j] != rs && idx[j] != tmp1
    requires |ivals| == |idx| && forall j :: 0 <= j < |idx| ==> ivals[j] == Reg(m, RegName(idx[j]))
    requires p == LinearIndex(ivals, dims, |idx| - 1) * size
    ensures Exec(MultiArrayAddrCode(rs, b, idx, dims, size, tmp1), m)
            == Some(SetReg(MultiAddrScratch(m, tmp1, dims, |idx| - 1, size), RegName(rs), Reg(m, RegName(b)) + p))
  {
    assert IndexRegs(rs, idx, dims, tmp1, ivals, m);
    MultiArrayAddrJoin(MultiArrayAddrCode(rs, b, idx, dims, size, tmp1), MultiAddrPrefix(rs, idx, dims, size, tmp1),
                       rs, b, idx, dims, size, tmp1, ivals, p, m);
  }

  /** The same for `code`, which is `pre` followed by the final `add`. */
  lemma MultiArrayAddrJoin(code: seq<ArmInst>, pre: seq<ArmInst>, rs: int, b: int, idx: seq<int>, dims: seq<int>, size: i32, tmp1: int, ivals: seq<int>, p: int, m: Machine)
    requires IndexRegs(rs, idx, dims, tmp1, ivals, m) && IsReg(b) && b != rs && b != tmp1
    requires p == LinearIndex(ivals, dims, |idx| - 1) * size
    requires pre == MultiAddrPrefix(rs, idx, dims, size, tmp1) && code == pre + [Inst("add", RegName(rs), RegName(b), RegName(rs))]
    ensures Exec(code, m) == Some(SetReg(MultiAddrScratch(m, tmp1, dims, |idx| - 1, size), RegName(rs), Reg(m, RegName(b)) + p))
  {
    MultiArrayAddrRuns(rs, b, idx, dims, size, tmp1, ivals, p, m);
    MultiArrayAddrFinish(code, pre, rs, b, dims, size, tmp1, |idx| - 1, p, m);
  }

  /** Once `pre` has left `p` in `rs`, the final `add` leaves the base plus `p`; only `tmp1` changed besides. */
  lemma MultiArrayAddrFinish(code: seq<ArmInst>, pre: seq<ArmInst>, rs: int, b: int, dims: seq<int>, size: i32, tmp1: int, last: nat, p: int, m: Machine)
    requires IsReg(rs) && IsReg(b) && IsReg(tmp1) && b != rs && b != tmp1
    requires code == pre + [Inst("add", RegName(rs), RegName(b), RegName(rs))]
    requires Exec(pre, m) == Some(SetReg(MultiAddrScratch(m, tmp1, dims, last, size), RegName(rs), p))
    ensures Exec(code, m) == Some(SetReg(MultiAddrScratch(m, tmp1, dims, last, size), RegName(rs), Reg(m, RegName(b)) + p))
  {
    MultiAddrScratchKeeps(m, tmp1, dims, last, size, b);
    AddBase(code, pre, rs, b, p, m, MultiAddrScratch(m, tmp1, dims, last, size));
  }

  /** Everything `calc_multi_array_addr` emits before the final `add`. */
  function MultiAddrPrefix(rs: int, idx: seq<int>, dims: seq<int>, size: i32, tmp1: int): (code: seq<ArmInst>)
    requires IsReg(rs) && IsReg(tmp1) && AllRegs(idx) && |idx| >= 1 && MultipliersFit(dims, |idx|)
    ensures forall b :: IsReg(b) ==> MultiArrayAddrCode(rs, b, idx, dims, size, tmp1) == code + [Inst("add", RegName(rs), RegName(b), RegName(rs))]
  {
    [CommentInst("multi-dimensional array element address")] + MovRegCode(rs, idx[0])
    + MultiStepsCode(rs, idx, dims, tmp1, |idx| - 1) + ScaleCode(rs, size, tmp1)
  }

  /** A register other than `tmp1` keeps its contents through the address computation. */
  lemma MultiAddrScratchKeeps(m: Machine, tmp1: int, dims: seq<int>, last: nat, size: i32, b: int)
    requires IsReg(tmp1) && IsReg(b) && b != tmp1
    ensures Reg(MultiAddrScratch(m, tmp1, dims, last, size), RegName(b)) == Reg(m, RegName(b))
  {
    RegNameInjective(b, tmp1);
  }

  /** After code `a` left `p` in `rs` and `b` as it was, `add rs,b,rs` leaves `b + p` in `rs`. */
  lemma AddBase(code: seq<ArmInst>, a: seq<ArmInst>, rs: int, b: int, p: int, m: Machine, s: Machine)
    requires IsReg(rs) && IsReg(b) && rs != b && code == a + [Inst("add", RegName(rs), RegName(b), RegName(rs))]
    requires Exec(a, m) == Some(SetReg(s, RegName(rs), p)) && Reg(s, RegName(b)) == Reg(m, RegName(b))
    ensures Exec(code, m) == Some(SetReg(s, RegName(rs), Reg(m, RegName(b)) + p))
  {
    AddThroughRegister(a, rs, b, p, m, s);
  }

  /** Everything up to the final `add`: the running index scaled by the element size, `p`, in `rs`. */
  lemma MultiArrayAddrRuns(rs: int, b: int, idx: seq<int>, dims: seq<int>, size: i32, tmp1: int, ivals: seq<int>, p: int, m: Machine)
    requires IndexRegs(rs, idx, dims, tmp1, ivals, m)
    requires p == LinearIndex(ivals, dims, |idx| - 1) * size
    ensures Exec(MultiAddrPrefix(rs, idx, dims, size, tmp1), m)
            == Some(SetReg(MultiAddrScratch(m, tmp1, dims, |idx| - 1, size), RegName(rs), p))
  {
    var r := RegName(rs);
    var last := |idx| - 1;
    var c := CommentInst("multi-dimensional array element address");
    var start := SetReg(m, r, ivals[0]);
    MovRegComputes(rs, idx[0], m);
    CommentThen(c, MovRegCode(rs, idx[0]), m, start);
    var s1 := MultiScratch(m, tmp1, dims, last);
    var lin := LinearIndex(ivals, dims, last);
    MultiStepsComputes(rs, idx, dims, tmp1, ivals, last, lin, m);
    ExecThen([c] + MovRegCode(rs, idx[0]), MultiStepsCode(rs, idx, dims, tmp1, last), m, start, SetReg(s1, r, lin));
    ScaleComputes(rs, size, tmp1, lin, p, s1);
    ExecThen([c] + MovRegCode(rs, idx[0]) + MultiStepsCode(rs, idx, dims, tmp1, last), ScaleCode(rs, size, tmp1),
             m, SetReg(s1, r, lin), SetReg(MultiAddrScratch(m, tmp1, dims, last, size), r, p));
  }

  /** `load_array_dynamic(rs, b, off)` loads the word at `b + off` into `rs`. */
  lemma LoadArrayDynamicComputes(rs: int, b: int, off: int, m: Machine)
    requires IsReg(rs) && IsReg(b) && IsReg(off)
    ensures Exec(LoadArrayDynamicCode(rs, b, off), m)
            == Some(SetReg(m, RegName(rs), Load(m, U32(Reg(m, RegName(b)) + Reg(m, RegName(off))))))
  {
    var code := LoadArrayDynamicCode(rs, b, off);
    var a := Reg(m, RegName(b)) + Reg(m, RegName(off));
    AddThenLoad(code[1..], rs, b, off, a, m);
    assert code == [code[0]] + code[1..];
    CommentThen(code[0], code[1..], m, SetReg(m, RegName(rs), Load(m, U32(a))));
  }

  /** `add rs,b,off` then `ldr rs,[rs]` loads the word at `a`, the sum of `b` and `off`, into `rs`. */
  lemma AddThenLoad(code: seq<ArmInst>, rs: int, b: int, off: int, a: int, m: Machine)
    requires IsReg(rs) && IsReg(b) && IsReg(off) && a == Reg(m, RegName(b)) + Reg(m, RegName(off))
    requires code == [Inst("add", RegName(rs), RegName(b), RegName(off)), Inst("ldr", RegName(rs), AddrOperand(RegName(rs), ""), "")]
    ensures Exec(code, m) == Some(SetReg(m, RegName(rs), Load(m, U32(a))))
  {
    var r := RegName(rs);
    var m1 := SetReg(m, r, a);
    RegisterOperand(m, off);
    StepAdd(m, r, RegName(b), RegName(off), Reg(m, RegName(off)));
    AddressOfRegister(m1, rs);
    U32Idem(a);
    StepLdr(m1, r, AddrOperand(r, ""), U32(a));
    SetRegTwice(m, r, a, Load(m, U32(a)));
    assert code == [code[0]] + [code[1]];
    ExecThen([code[0]], [code[1]], m, m1, SetReg(m, r, Load(m, U32(a))));
  }

  /**
   * `store_array_dynamic(src, b, off)` stores `src` at `b + off` and leaves
   * that address in `off`; when `src` is `off` itself, the address is what
   * gets stored.
   */
  lemma StoreArrayDynamicComputes(src: int, b: int, off: int, m: Machine)
    requires IsReg(src) && IsReg(b) && IsReg(off)
    ensures var a := Reg(m, RegName(b)) + Reg(m, RegName(off));
            Exec(StoreArrayDynamicCode(src, b, off), m)
            == Some(StoreWord(SetReg(m, RegName(off), a), U32(a), if src == off then U32(a) else Reg(m, RegName(src))))
  {
    var code := StoreArrayDynamicCode(src, b, off);
    var a := Reg(m, RegName(b)) + Reg(m, RegName(off));
    var v := if src == off then U32(a) else Reg(m, RegName(src));
    AddThenStore(code[1..], src, b, off, a, v, m);
    assert code == [code[0]] + code[1..];
    CommentThen(code[0], code[1..], m, StoreWord(SetReg(m, RegName(off), a), U32(a), v));
  }

  /** `add off,b,off` then `str src,[off]` stores `v` at `a`, the sum of `b` and `off`, and leaves `a` in `off`. */
  lemma AddThenStore(code: seq<ArmInst>, src: int, b: int, off: int, a: int, v: int, m: Machine)
    requires IsReg(src) && IsReg(b) && IsReg(off) && a == Reg(m, RegName(b)) + Reg(m, RegName(off))
    requires v == if src == off then U32(a) else Reg(m, RegName(src))
    requires code == [Inst("add", RegName(off), RegName(b), RegName(off)), Inst("str", RegName(src), AddrOperand(RegName(off), ""), "")]
    ensures Exec(code, m) == Some(StoreWord(SetReg(m, RegName(off), a), U32(a), v))
  {
    var o := RegName(off);
    var m1 := SetReg(m, o, a);
    RegisterOperand(m, off);
    StepAdd(m, o, RegName(b), o, Reg(m, o));
    AddressOfRegister(m1, off);
    U32Idem(a);
    StepStr(m1, RegName(src), AddrOperand(o, ""), U32(a));
    if src != off {
      RegNameInjective(src, off);
    }
    assert code == [code[0]] + [code[1]];
    ExecThen([code[0]], [code[1]], m, m1, StoreWord(m1, U32(a), v));
  }
}
