/**
 * The ARM32 instruction selector (`InstSelectorArm32`): one translation rule
 * per IR opcode, each of which asks the register allocator for registers and
 * appends records to the emitter.
 *
 * Every rule is specified by a function from the allocator's state to the
 * records appended and the allocator's next state.  A rule may ask for a
 * register when none is free and no value holds one; the source then takes
 * the front of an empty queue, and the specification answers `None`.  The
 * class `Selector` at the end performs the rules on the allocator and emitter
 * objects and is proved against these functions.
 */
module InstSelector {
  import opened Common
  import opened IR
  import opened RegAlloc
  import opened ArmCode
  import opened ArmSem
  import Frame
  import ArmVars

  // ---------------------------------------------------------------------------
  // Operands and allocation steps
  // ---------------------------------------------------------------------------

  /** The register numbers a value names can index `regName`. */
  predicate ValueOk(v: Value) {
    (v.regId == -1 || IsReg(v.regId))
    && (v.addr.Some? && v.addr.value.base != -1 ==> IsReg(v.addr.value.base))
  }

  /** An allocator over 8 to 16 registers that keeps its binding invariant. */
  ghost predicate Ready(s: RegState, n: nat) {
    8 <= n <= 16 && Inv(s, n)
  }

  lemma LoadRegInRange(s: RegState, n: nat, v: Value)
    requires Ready(s, n) && ValueOk(v)
    ensures RegsInRange(v, LoadRegOf(s, v))
  {
  }

  /** The records appended and the allocator's state afterwards. */
  datatype Out = Out(code: seq<ArmInst>, regs: RegState)

  /**
   * `Allocate(v, no)` as one step of a rule: `None` where the source would take
   * the front of an empty queue.
   */
  function AllocStep(s: RegState, v: Option<Value>, no: int, n: nat): (r: Option<(RegState, int)>)
    requires Ready(s, n) && (no == -1 || 0 <= no < n)
    ensures r.Some? <==> AllocatePre(s, v, no, n)
    ensures r.Some? ==> r.value == AllocateSpec(s, v, no, n) && Ready(r.value.0, n) && IsReg(r.value.1) && r.value.1 < n
  {
    if (v.Some? && v.value in s.loadReg) || ChooseRegister(s, no, n) != -1 || |s.regValues| > 0 then
      Some(AllocateSpec(s, v, no, n))
    else
      None
  }

  /** `load_var(rs, v)` with the load register the allocator records for `v`. */
  function LoadVarFor(rs: int, v: Value, s: RegState, n: nat): seq<ArmInst>
    requires Ready(s, n) && IsReg(rs) && ValueOk(v)
  {
    LoadRegInRange(s, n, v);
    LoadVarCode(rs, v, LoadRegOf(s, v))
  }

  /** `store_var(src, v, ARM32_TMP_REG_NO)` with the load register the allocator records for `v`. */
  function StoreVarFor(src: int, v: Value, s: RegState, n: nat): seq<ArmInst>
    requires Ready(s, n) && IsReg(src) && ValueOk(v)
  {
    LoadRegInRange(s, n, v);
    StoreVarCode(src, v, LoadRegOf(s, v), TMP_REG)
  }

  /** The `movw` the rules emit for a constant: `#:lower16:` of its decimal text. */
  function MovwCode(rs: int, c: int): seq<ArmInst>
    requires IsReg(rs)
  {
    [Inst("movw", RegName(rs), "#:lower16:" + IntToString(c), "")]
  }

  /** A constant operand is set with one `movw`, any other with `load_var`. */
  function SetOrLoad(rs: int, v: Value, s: RegState, n: nat): seq<ArmInst>
    requires Ready(s, n) && IsReg(rs) && ValueOk(v)
  {
    if v.kind.ConstInt? then MovwCode(rs, v.kind.val) else LoadVarFor(rs, v, s, n)
  }

  // ---------------------------------------------------------------------------
  // goto, label, entry and exit
  // ---------------------------------------------------------------------------

  /**
   * A conditional goto: `Allocate` binds the condition to `rC` before
   * `load_var(rC, condition)` runs, so a condition that held no register is
   * found "already loaded" and is not read from its location
   * (`CondGotoAsWrittenSkipsLoad`); then `cmp rC,#0`, `bne` and `b`.
   */
  function CondGotoSpec(s: RegState, n: nat, c: Value, t: string, f: string): (r: Option<Out>)
    requires Ready(s, n) && ValueOk(c)
    ensures r.Some? ==> Ready(r.value.regs, n)
  {
    match AllocStep(s, Some(c), -1, n)
    case None => None
    case Some(p) =>
      var (s1, rc) := p;
      Some(Out(LoadVarFor(rc, c, s1, n) + CompareBranchCode(rc, t, f), FreeValueSpec(s1, Some(c), n)))
  }

  /** `cmp rC,#0`, `bne t`, `b f`. */
  function CompareBranchCode(rc: int, t: string, f: string): seq<ArmInst>
    requires IsReg(rc)
  {
    [Inst("cmp", RegName(rc), "#0", ""), Inst("bne", t, "", ""), Inst("b", f, "", "")]
  }

  /** The names of registers. */
  function NamesOf(regs: seq<int>): (r: seq<string>)
    requires forall i :: 0 <= i < |regs| ==> IsReg(regs[i])
    ensures |r| == |regs| && forall i :: 0 <= i < |regs| ==> r[i] == RegName(regs[i])
  {
    seq(|regs|, i requires 0 <= i < |regs| => RegName(regs[i]))
  }

  /** The protected registers' names joined by commas. */
  function RegList(regs: seq<int>): string
    requires forall i :: 0 <= i < |regs| ==> IsReg(regs[i])
  {
    Join(NamesOf(regs), ",")
  }

  /**
   * The register string after `translate_entry`: rebuilt from the protected
   * registers when there are some, otherwise left as it was.
   */
  function EntryRegStr(regs: seq<int>, regStr: string): string
    requires forall i :: 0 <= i < |regs| ==> IsReg(regs[i])
  {
    if |regs| > 0 then RegList(regs) else regStr
  }

  /** `push {list}` when the list is not empty, then the frame set-up. */
  function EntryCode(regStr: string, fname: string, vars: seq<Value>): seq<ArmInst>
    requires -0x8000_0000 <= FrameBytes(vars) < 0x8000_0000
  {
    (if regStr != "" then [Inst("push", "{" + regStr + "}", "", "")] else [])
    + AllocStackCode(fname, vars, TMP_REG)
  }

  /** The return value into r0, `mov sp,fp`, `pop {list}` when the list is not empty, `bx lr`. */
  function ExitCode(s: RegState, n: nat, ret: Option<Value>, regStr: string): seq<ArmInst>
    requires Ready(s, n) && (ret.Some? ==> ValueOk(ret.value))
  {
    (if ret.Some? then LoadVarFor(0, ret.value, s, n) else [])
    + [Inst("mov", "sp", "fp", "")]
    + (if regStr != "" then [Inst("pop", "{" + regStr + "}", "", "")] else [])
    + [Inst("bx", "lr", "", "")]
  }

  // ---------------------------------------------------------------------------
  // Copies and pointer accesses
  // ---------------------------------------------------------------------------

  /**
   * The copy `res = arg` by residency: a source in a fixed register is stored,
   * a destination in a fixed register is loaded, otherwise a scratch register
   * carries the value.
   */
  function CopySpec(s: RegState, n: nat, res: Value, arg: Value): (r: Option<Out>)
    requires Ready(s, n) && ValueOk(res) && ValueOk(arg)
    ensures r.Some? ==> Ready(r.value.regs, n)
  {
    if arg.regId != -1 then Some(Out(StoreVarFor(arg.regId, res, s, n), s))
    else if res.regId != -1 then Some(Out(SetOrLoad(res.regId, arg, s, n), s))
    else
      match AllocStep(s, None, -1, n)
      case None => None
      case Some(p) =>
        var (s1, t) := p;
        Some(Out(SetOrLoad(t, arg, s1, n) + StoreVarFor(t, res, s1, n), FreeRegSpec(s1, t, n)))
  }

  /** `res = *ptr`: `ldr` through the pointer's value, then `store_var` of the result. */
  function LoadPtrSpec(s: RegState, n: nat, res: Value, ptr: Value): (r: Option<Out>)
    requires Ready(s, n) && ValueOk(res) && ValueOk(ptr)
    ensures r.Some? ==> Ready(r.value.regs, n)
  {
    match AllocStep(s, None, -1, n)
    case None => None
    case Some(p1) =>
      match AllocStep(p1.0, None, -1, n)
      case None => None
      case Some(p2) =>
        var (s2, pr, rr) := (p2.0, p1.1, p2.1);
        Some(Out(LoadVarFor(pr, ptr, s2, n) + [Inst("ldr", RegName(rr), AddrOperand(RegName(pr), ""), "")]
                 + StoreVarFor(rr, res, s2, n),
                 FreeRegSpec(FreeRegSpec(s2, pr, n), rr, n)))
  }

  /** The pointer and the value report the same frame slot. */
  predicate SameSlot(ptr: Value, val: Value) {
    ptr.addr.Some? && val.addr.Some? && ptr.addr.value == val.addr.value
  }

  /**
   * `*ptr = val`: nothing when both report the same slot and the text starts
   * with `*`; otherwise `str` of the value through the pointer's value.
   */
  function StorePtrSpec(s: RegState, n: nat, ptr: Value, val: Value, text: string): (r: Option<Out>)
    requires Ready(s, n) && ValueOk(ptr) && ValueOk(val)
    ensures r.Some? ==> Ready(r.value.regs, n)
  {
    if SameSlot(ptr, val) && StartsWith(text, "*") then Some(Out([], s))
    else
      match AllocStep(s, None, -1, n)
      case None => None
      case Some(p1) =>
        match AllocStep(p1.0, None, -1, n)
        case None => None
        case Some(p2) =>
          var (s2, pr, vr) := (p2.0, p1.1, p2.1);
          Some(Out(LoadVarFor(pr, ptr, s2, n) + SetOrLoad(vr, val, s2, n)
                   + [Inst("str", RegName(vr), AddrOperand(RegName(pr), ""), "")],
                   FreeRegSpec(FreeRegSpec(s2, pr, n), vr, n)))
  }

  /** `translate_assign`: a pointer load, a pointer store, or a copy, decided on the printed form. */
  function AssignSpec(s: RegState, n: nat, res: Value, arg: Value, text: string): (r: Option<Out>)
    requires Ready(s, n) && ValueOk(res) && ValueOk(arg)
    ensures r.Some? ==> Ready(r.value.regs, n)
  {
    if Contains(text, " = *") then LoadPtrSpec(s, n, res, arg)
    else if StartsWith(text, "*") && Contains(text, " = ") then StorePtrSpec(s, n, res, arg, text)
    else CopySpec(s, n, res, arg)
  }

  /** `base + offset` into the result, through three scratch registers. */
  function AddPtrSpec(s: RegState, n: nat, base: Value, off: Value, res: Value): (r: Option<Out>)
    requires Ready(s, n) && ValueOk(base) && ValueOk(off) && ValueOk(res)
    ensures r.Some? ==> Ready(r.value.regs, n)
  {
    match AllocStep(s, None, -1, n)
    case None => None
    case Some(p1) =>
      match AllocStep(p1.0, None, -1, n)
      case None => None
      case Some(p2) =>
        match AllocStep(p2.0, None, -1, n)
        case None => None
        case Some(p3) =>
          var (s3, br, or, rr) := (p3.0, p1.1, p2.1, p3.1);
          Some(Out(LoadVarFor(br, base, s3, n) + LoadVarFor(or, off, s3, n)
                   + [Inst("add", RegName(rr), RegName(br), RegName(or))] + StoreVarFor(rr, res, s3, n),
                   FreeRegSpec(FreeRegSpec(FreeRegSpec(s3, br, n), or, n), rr, n)))
  }

  /** The three scratch registers of `translate_add_ptr`, one after another. */
  lemma AddPtrParts(s: RegState, n: nat, base: Value, off: Value, res: Value)
    requires Ready(s, n) && ValueOk(base) && ValueOk(off) && ValueOk(res)
    requires AddPtrSpec(s, n, base, off, res).Some?
    ensures AllocStep(s, None, -1, n).Some?
    ensures var p1 := AllocStep(s, None, -1, n).value;
      AllocStep(p1.0, None, -1, n).Some?
      && var p2 := AllocStep(p1.0, None, -1, n).value;
      AllocStep(p2.0, None, -1, n).Some?
      && var p3 := AllocStep(p2.0, None, -1, n).value;
      AddPtrSpec(s, n, base, off, res).value
        == Out(LoadVarFor(p1.1, base, p3.0, n) + LoadVarFor(p2.1, off, p3.0, n)
               + [Inst("add", RegName(p3.1), RegName(p1.1), RegName(p2.1))] + StoreVarFor(p3.1, res, p3.0, n),
               FreeRegSpec(FreeRegSpec(FreeRegSpec(p3.0, p1.1, n), p2.1, n), p3.1, n))
  {
  }

  // ---------------------------------------------------------------------------
  // The two-operand rule and multiplication
  // ---------------------------------------------------------------------------

  /** An operand's register, the allocator afterwards, and the records that set it. */
  datatype Loaded = Loaded(reg: int, regs: RegState, code: seq<ArmInst>)

  /** An operand without a fixed register gets one from `Allocate(v)` and is set by `movw` or `load_var`. */
  function OperandLoad(s: RegState, n: nat, v: Value): (r: Option<Loaded>)
    requires Ready(s, n) && ValueOk(v)
    ensures r.Some? ==> Ready(r.value.regs, n) && IsReg(r.value.reg)
  {
    if v.regId != -1 then Some(Loaded(v.regId, s, []))
    else
      match AllocStep(s, Some(v), -1, n)
      case None => None
      case Some(p) => Some(Loaded(p.1, p.0, SetOrLoad(p.1, v, p.0, n)))
  }

  /** The result's fixed register, or one from `Allocate(result)`. */
  function ResultReg(s: RegState, n: nat, res: Value): (r: Option<(RegState, int)>)
    requires Ready(s, n) && ValueOk(res)
    ensures r.Some? ==> Ready(r.value.0, n) && IsReg(r.value.1)
  {
    if res.regId != -1 then Some((s, res.regId)) else AllocStep(s, Some(res), -1, n)
  }

  /** The three frees that end the two-operand rule. */
  function FreeThree(s: RegState, n: nat, a: Value, b: Value, c: Value): (r: RegState)
    requires Inv(s, n)
    ensures Inv(r, n)
  {
    FreeValueSpec(FreeValueSpec(FreeValueSpec(s, Some(a), n), Some(b), n), Some(c), n)
  }

  /**
   * `translate_two_operator(inst, op)`: operands without a fixed register are
   * set, one `op rd,ra,rb`, a store when the result has no fixed register, and
   * the three values are freed.
   */
  function TwoOperatorSpec(s: RegState, n: nat, op: string, a: Value, b: Value, res: Value): (r: Option<Out>)
    requires Ready(s, n) && ValueOk(a) && ValueOk(b) && ValueOk(res)
    ensures r.Some? ==> Ready(r.value.regs, n)
  {
    match OperandLoad(s, n, a)
    case None => None
    case Some(la) =>
      match OperandLoad(la.regs, n, b)
      case None => None
      case Some(lb) =>
        match ResultReg(lb.regs, n, res)
        case None => None
        case Some(p) =>
          Some(Out(la.code + lb.code + OperationCode(op, p.1, la.reg, lb.reg, res, p.0, n),
                   FreeThree(p.0, n, a, b, res)))
  }

  /** The stages of the two-operand rule, one after another. */
  lemma TwoOperatorParts(s: RegState, n: nat, op: string, a: Value, b: Value, res: Value)
    requires Ready(s, n) && ValueOk(a) && ValueOk(b) && ValueOk(res)
    requires TwoOperatorSpec(s, n, op, a, b, res).Some?
    ensures OperandLoad(s, n, a).Some?
    ensures var la := OperandLoad(s, n, a).value;
      OperandLoad(la.regs, n, b).Some?
      && var lb := OperandLoad(la.regs, n, b).value;
      ResultReg(lb.regs, n, res).Some?
      && var p := ResultReg(lb.regs, n, res).value;
      TwoOperatorSpec(s, n, op, a, b, res).value
        == Out(la.code + lb.code + OperationCode(op, p.1, la.reg, lb.reg, res, p.0, n), FreeThree(p.0, n, a, b, res))
  {
  }

  /** `op rr,ra,rb`, then the result stored when it has no fixed register. */
  function OperationCode(op: string, rr: int, ra: int, rb: int, res: Value, s: RegState, n: nat): seq<ArmInst>
    requires Ready(s, n) && IsReg(rr) && IsReg(ra) && IsReg(rb) && ValueOk(res)
  {
    [Inst(op, RegName(rr), RegName(ra), RegName(rb))] + (if res.regId == -1 then StoreVarFor(rr, res, s, n) else [])
  }

  /** Bitwise and of two non-negative integers, as `&` computes it bit by bit. */
  function BitAnd(a: nat, b: nat): nat {
    if a == 0 || b == 0 then 0
    else 2 * BitAnd(a / 2, b / 2) + (if a % 2 == 1 && b % 2 == 1 then 1 else 0)
  }

  /** `isPowerOfTwo(v)`: `v > 0 && (v & (v - 1)) == 0`. */
  predicate IsPowerOfTwo(v: int) {
    v > 0 && BitAnd(v, v - 1) == 0
  }

  /** The number of halvings that bring `v` down to 1. */
  function ShiftAmount(v: int): nat
    requires v >= 1
  {
    if v == 1 then 0 else 1 + ShiftAmount(v / 2)
  }

  /** The constant `translate_mul_int32` looks at, `arg1` first, and the other operand. */
  function MulConstant(a: Value, b: Value): Option<(int, Value)> {
    if a.kind.ConstInt? then Some((a.kind.val as int, b))
    else if b.kind.ConstInt? then Some((b.kind.val as int, a))
    else None
  }

  /** `mov` for a shift of 0, `lsl rd,rs,#k` otherwise. */
  function ShiftCode(rd: int, rs: int, k: nat): seq<ArmInst>
    requires IsReg(rd) && IsReg(rs)
  {
    if k == 0 then MovRegCode(rd, rs) else LslImmCode(rd, rs, k)
  }

  /**
   * `translate_mul_int32`: a power-of-two constant becomes a shift through two
   * scratch registers; anything else goes to the two-operand rule with `mul`.
   */
  function MulSpec(s: RegState, n: nat, a: Value, b: Value, res: Value): (r: Option<Out>)
    requires Ready(s, n) && ValueOk(a) && ValueOk(b) && ValueOk(res)
    ensures r.Some? ==> Ready(r.value.regs, n)
  {
    var mc := MulConstant(a, b);
    if mc.Some? && IsPowerOfTwo(mc.value.0) then
      var (c, x) := mc.value;
      match AllocStep(s, None, -1, n)
      case None => None
      case Some(p1) =>
        match AllocStep(p1.0, None, -1, n)
        case None => None
        case Some(p2) =>
          var (s2, xr, rr) := (p2.0, p1.1, p2.1);
          Some(Out(SetOrLoad(xr, x, s2, n) + ShiftCode(rr, xr, ShiftAmount(c)) + StoreVarFor(rr, res, s2, n),
                   FreeRegSpec(FreeRegSpec(s2, xr, n), rr, n)))
    else
      TwoOperatorSpec(s, n, "mul", a, b, res)
  }

  // ---------------------------------------------------------------------------
  // Calls
  // ---------------------------------------------------------------------------

  /** `PlatformArm32::intRegVal[k]`: the register variable of register `k`. */
  function RegValue(k: int): Value
    requires IsReg(k)
  {
    Value(k, RegVar, RegName(k), IntTy, k, None)
  }

  /** The memory variable that passes a stack argument: SP-based, `off` bytes up. */
  function Slot(id: nat, arg: Value, off: int): Value {
    Value(id, MemVar, "", PtrTy(arg.ty), -1, Some(MemAddr(SP_REG, off)))
  }

  /** The slots of the stack arguments `stack`, numbered from `id0`, 4 bytes apart from `[sp]`. */
  function Slots(stack: seq<Value>, id0: nat): (r: seq<Value>)
    ensures |r| == |stack|
  {
    seq(|stack|, i requires 0 <= i < |stack| => Slot(id0 + i, stack[i], 4 * i))
  }

  predicate AllOk(vs: seq<Value>) {
    forall i :: 0 <= i < |vs| ==> ValueOk(vs[i])
  }

  /** The copy of one stack argument into its slot. */
  function SlotCopy(s: RegState, n: nat, arg: Value, id: nat, off: int): (r: Option<Out>)
    requires Ready(s, n) && ValueOk(arg)
    ensures r.Some? ==> Ready(r.value.regs, n)
  {
    var slot := Slot(id, arg, off);
    AssignSpec(s, n, slot, arg, MoveText(slot, arg, false, false))
  }

  /** The copies of the stack arguments from position `i` on into their slots, in order. */
  function StackArgs(s: RegState, n: nat, stack: seq<Value>, id0: nat, i: nat): (r: Option<Out>)
    requires Ready(s, n) && AllOk(stack) && i <= |stack|
    ensures r.Some? ==> Ready(r.value.regs, n)
    decreases |stack| - i
  {
    if i == |stack| then Some(Out([], s))
    else
      match SlotCopy(s, n, stack[i], id0 + i, 4 * i)
      case None => None
      case Some(o) =>
        match StackArgs(o.regs, n, stack, id0, i + 1)
        case None => None
        case Some(o2) => Some(Out(o.code + o2.code, o2.regs))
  }

  /** The copy of argument `i` into register `i`. */
  function RegCopy(s: RegState, n: nat, arg: Value, i: nat): (r: Option<Out>)
    requires Ready(s, n) && ValueOk(arg) && i < 4
    ensures r.Some? ==> Ready(r.value.regs, n)
  {
    AssignSpec(s, n, RegValue(i), arg, MoveText(RegValue(i), arg, false, false))
  }

  /** The copies of the first (at most four) arguments from position `i` on into r`i`, r`i+1`, ..., in order. */
  function RegArgs(s: RegState, n: nat, first: seq<Value>, i: nat): (r: Option<Out>)
    requires Ready(s, n) && AllOk(first) && |first| <= 4 && i <= |first|
    ensures r.Some? ==> Ready(r.value.regs, n)
    decreases |first| - i
  {
    if i == |first| then Some(Out([], s))
    else
      match RegCopy(s, n, first[i], i)
      case None => None
      case Some(o) =>
        match RegArgs(o.regs, n, first, i + 1)
        case None => None
        case Some(o2) => Some(Out(o.code + o2.code, o2.regs))
  }

  /** Forced claims of r0 up to r(k-1), in that order. */
  function ClaimArgRegs(s: RegState, n: nat, k: nat): (r: RegState)
    requires Ready(s, n) && k <= 4
    ensures Ready(r, n)
  {
    if k == 0 then s else ForceAllocateSpec(ClaimArgRegs(s, n, k - 1), k - 1, n)
  }

  /** `free(0)` up to `free(k-1)`, in that order. */
  function ReleaseArgRegs(s: RegState, n: nat, k: nat): (r: RegState)
    requires Ready(s, n) && k <= 4
    ensures Ready(r, n)
  {
    if k == 0 then s else FreeRegSpec(ReleaseArgRegs(s, n, k - 1), k - 1, n)
  }

  function StackPart(args: seq<Value>): seq<Value> {
    if |args| > 4 then args[4..] else []
  }

  function RegPart(args: seq<Value>): (r: seq<Value>)
    ensures |r| <= 4
  {
    if |args| > 4 then args[..4] else args
  }

  /**
   * The marshalling of a call with arguments: r0-r3 claimed, the stack
   * arguments copied to their slots, the first four copied to r0-r3, `bl`, and
   * r0-r3 released.
   */
  function MarshalSpec(s: RegState, n: nat, args: seq<Value>, callee: string, id0: nat): (r: Option<Out>)
    requires Ready(s, n) && AllOk(args) && |args| > 0
    ensures r.Some? ==> Ready(r.value.regs, n)
  {
    StackPartOk(args);
    match StackArgs(ClaimArgRegs(s, n, 4), n, StackPart(args), id0, 0)
    case None => None
    case Some(o1) =>
      match RegArgs(o1.regs, n, RegPart(args), 0)
      case None => None
      case Some(o2) => Some(Out(o1.code + o2.code + CallFunCode(callee), ReleaseArgRegs(o2.regs, n, 4)))
  }

  lemma StackPartOk(args: seq<Value>)
    requires AllOk(args)
    ensures AllOk(StackPart(args)) && AllOk(RegPart(args))
  {
    var st := StackPart(args);
    forall i | 0 <= i < |st| ensures ValueOk(st[i]) {
      assert st[i] == args[i + 4];
    }
  }

  /** The three stages of the marshalling, one after another. */
  lemma MarshalParts(s: RegState, n: nat, args: seq<Value>, callee: string, id0: nat)
    requires Ready(s, n) && AllOk(args) && |args| > 0 && MarshalSpec(s, n, args, callee, id0).Some?
    ensures AllOk(StackPart(args)) && AllOk(RegPart(args))
    ensures var s1 := ClaimArgRegs(s, n, 4);
      StackArgs(s1, n, StackPart(args), id0, 0).Some?
      && var o1 := StackArgs(s1, n, StackPart(args), id0, 0).value;
      RegArgs(o1.regs, n, RegPart(args), 0).Some?
      && var o2 := RegArgs(o1.regs, n, RegPart(args), 0).value;
      MarshalSpec(s, n, args, callee, id0).value
        == Out(o1.code + o2.code + CallFunCode(callee), ReleaseArgRegs(o2.regs, n, 4))
  {
    StackPartOk(args);
    var m := MarshalSpec(s, n, args, callee, id0);
    var a := StackArgs(ClaimArgRegs(s, n, 4), n, StackPart(args), id0, 0);
    assert a.Some?;
    var b := RegArgs(a.value.regs, n, RegPart(args), 0);
    assert b.Some?;
    assert m == Some(Out(a.value.code + b.value.code + CallFunCode(callee), ReleaseArgRegs(b.value.regs, n, 4)));
  }

  /** `translate_call`: the marshalling (or just `bl`), then r0 copied into the result if there is one. */
  function CallSpec(s: RegState, n: nat, args: seq<Value>, res: Option<Value>, callee: string, id0: nat): (r: Option<Out>)
    requires Ready(s, n) && AllOk(args) && (res.Some? ==> ValueOk(res.value))
    ensures r.Some? ==> Ready(r.value.regs, n)
  {
    var m := if |args| > 0 then MarshalSpec(s, n, args, callee, id0) else Some(Out(CallFunCode(callee), s));
    match m
    case None => None
    case Some(o) =>
      if res.None? then m
      else
        match AssignSpec(o.regs, n, res.value, RegValue(0), MoveText(res.value, RegValue(0), false, false))
        case None => None
        case Some(o2) => Some(Out(o.code + o2.code, o2.regs))
  }

  /**
   * What `translate_arg` accepts as argument number `count`: one of the first
   * four must sit in the register of its position, a later one in an SP slot.
   */
  predicate ArgOk(v: Value, count: int) {
    if count < 4 then v.regId != -1 && v.regId == count
    else v.addr.Some? && v.addr.value.base == SP_REG
  }

  /** `translate_call`'s consistency check between the ARG instructions seen and the arguments. */
  predicate CallCountOk(argc: int, realArgCount: int) {
    argc == realArgCount || realArgCount == 0
  }

  // ---------------------------------------------------------------------------
  // Dispatch and the run over a function's instructions
  // ---------------------------------------------------------------------------

  /** What the rules read of the function: register count, name, locals, protected registers. */
  datatype Ctx = Ctx(n: nat, fname: string, vars: seq<Value>, protectedRegs: seq<int>, showLinearIR: bool)

  /** The records emitted, the allocator, the register string, the memory variables, the id counter and the ARG count. */
  datatype SelState = SelState(code: seq<ArmInst>, regs: RegState, regStr: string, mems: seq<Value>, nextId: nat, argCount: int)

  ghost predicate CtxOk(c: Ctx) {
    8 <= c.n <= 16
    && (forall i :: 0 <= i < |c.protectedRegs| ==> IsReg(c.protectedRegs[i]))
    && -0x8000_0000 <= FrameBytes(c.vars) < 0x8000_0000
  }

  /** The opcodes with a rule in this model, and `NOP`, which has none. */
  predicate Supported(op: IROp) {
    !(op.OpDivI? || op.OpModI? || op.OpNegI? || op.OpLtI? || op.OpGtI? || op.OpLeI? || op.OpGeI? || op.OpEqI? || op.OpNeI?)
  }

  /** The operands and targets each rule reads are present and name registers in range. */
  predicate Shaped(i: IRInst) {
    AllOk(i.operands) && (i.result.Some? ==> ValueOk(i.result.value))
    && match i.op
      case OpLabel => i.target.Some?
      case OpGoto => i.target.Some? && (|i.operands| > 0 ==> i.falseTarget.Some?)
      case OpAssign => |i.operands| >= 2
      case OpStorePtr => |i.operands| >= 2
      case OpLoadPtr => |i.operands| >= 2
      case OpAddI => |i.operands| >= 2 && i.result.Some?
      case OpSubI => |i.operands| >= 2 && i.result.Some?
      case OpMulI => |i.operands| >= 2 && i.result.Some?
      case OpAddPtr => |i.operands| >= 2 && i.result.Some?
      case OpArrayAddr => |i.operands| >= 2 && i.result.Some?
      case OpArg => |i.operands| >= 1
      case _ => true
  }

  /** The records appended and the allocator's state applied to the selector's state. */
  function Apply(st: SelState, r: Option<Out>): Option<SelState> {
    if r.None? then None else Some(st.(code := st.code + r.value.code, regs := r.value.regs))
  }

  /** `outputIRInstruction`: the printed instruction as a comment when enabled and not empty. */
  function IRComment(c: Ctx, i: IRInst): seq<ArmInst> {
    if c.showLinearIR && Text(i) != "" then [CommentInst(Text(i))] else []
  }

  /** The rule of one instruction with a handler, after the optional comment. */
  function HandlerSpec(c: Ctx, st: SelState, i: IRInst): (r: Option<SelState>)
    requires CtxOk(c) && Ready(st.regs, c.n) && Supported(i.op) && !i.op.OpNop? && Shaped(i)
    ensures r.Some? ==> Ready(r.value.regs, c.n)
  {
    var ops := i.operands;
    match i.op
    case OpEntry =>
      var rs := EntryRegStr(c.protectedRegs, st.regStr);
      Some(st.(code := st.code + EntryCode(rs, c.fname, c.vars), regStr := rs))
    case OpExit =>
      Some(st.(code := st.code + ExitCode(st.regs, c.n, if |ops| > 0 then Some(ops[0]) else None, st.regStr)))
    case OpLabel => Some(st.(code := st.code + LabelCode(i.target.value.name)))
    case OpGoto =>
      if |ops| > 0 then Apply(st, CondGotoSpec(st.regs, c.n, ops[0], i.target.value.name, i.falseTarget.value.name))
      else Some(st.(code := st.code + JumpCode(i.target.value.name)))
    case OpAssign => Apply(st, AssignSpec(st.regs, c.n, ops[0], ops[1], Text(i)))
    case OpAddI => Apply(st, TwoOperatorSpec(st.regs, c.n, "add", ops[0], ops[1], i.result.value))
    case OpSubI => Apply(st, TwoOperatorSpec(st.regs, c.n, "sub", ops[0], ops[1], i.result.value))
    case OpMulI => Apply(st, MulSpec(st.regs, c.n, ops[0], ops[1], i.result.value))
    case OpStorePtr => Apply(st, StorePtrSpec(st.regs, c.n, ops[0], ops[1], Text(i)))
    case OpLoadPtr => Apply(st, LoadPtrSpec(st.regs, c.n, ops[0], ops[1]))
    case OpAddPtr => Apply(st, AddPtrSpec(st.regs, c.n, ops[0], ops[1], i.result.value))
    case OpArrayAddr => Apply(st, TwoOperatorSpec(st.regs, c.n, "add", ops[0], ops[1], i.result.value))
    case OpFuncCall =>
      var stack := StackPart(ops);
      var r := Apply(st, CallSpec(st.regs, c.n, ops, i.result, i.callee, st.nextId));
      if r.None? then None
      else Some(r.value.(mems := st.mems + Slots(stack, st.nextId), nextId := st.nextId + |stack|, argCount := 0))
    case OpArg => Some(st.(argCount := st.argCount + 1))
  }

  /** `translate(inst)`: nothing for an opcode without a handler, else the comment and the rule. */
  function TranslateSpec(c: Ctx, st: SelState, i: IRInst): (r: Option<SelState>)
    requires CtxOk(c) && Ready(st.regs, c.n) && Supported(i.op) && Shaped(i)
    ensures r.Some? ==> Ready(r.value.regs, c.n)
  {
    if i.op.OpNop? then Some(st)
    else HandlerSpec(c, st.(code := st.code + IRComment(c, i)), i)
  }

  /** An instruction with a handler is its comment, then its rule. */
  lemma TranslateHandles(c: Ctx, st: SelState, i: IRInst)
    requires CtxOk(c) && Ready(st.regs, c.n) && Supported(i.op) && Shaped(i) && !i.op.OpNop?
    ensures TranslateSpec(c, st, i) == HandlerSpec(c, st.(code := st.code + IRComment(c, i)), i)
  {
  }

  predicate AllTranslatable(insts: seq<IRInst>) {
    forall k :: 0 <= k < |insts| ==> Supported(insts[k].op) && Shaped(insts[k])
  }

  /** One round of `run()`: a dead instruction is skipped, any other translated. */
  function RunStep(c: Ctx, st: SelState, i: IRInst): (r: Option<SelState>)
    requires CtxOk(c) && Ready(st.regs, c.n) && Supported(i.op) && Shaped(i)
    ensures r.Some? ==> Ready(r.value.regs, c.n)
  {
    if i.dead then Some(st) else TranslateSpec(c, st, i)
  }

  /** `run()`: the instructions not marked dead, translated in order. */
  function RunSpec(c: Ctx, st: SelState, insts: seq<IRInst>): (r: Option<SelState>)
    requires CtxOk(c) && Ready(st.regs, c.n) && AllTranslatable(insts)
    ensures r.Some? ==> Ready(r.value.regs, c.n)
    decreases |insts|
  {
    if |insts| == 0 then Some(st)
    else
      match RunStep(c, st, insts[0])
      case None => None
      case Some(st1) => RunSpec(c, st1, insts[1..])
  }

  /** The instructions not marked dead, in order. */
  function Live(insts: seq<IRInst>): (r: seq<IRInst>)
    ensures |r| <= |insts|
    ensures forall k :: 0 <= k < |r| ==> !r[k].dead
  {
    if |insts| == 0 then []
    else (if insts[0].dead then [] else [insts[0]]) + Live(insts[1..])
  }

  lemma {:induction false} LiveTranslatable(insts: seq<IRInst>)
    requires AllTranslatable(insts)
    ensures AllTranslatable(Live(insts))
    decreases |insts|
  {
    if |insts| > 0 {
      assert AllTranslatable(insts[1..]);
      LiveTranslatable(insts[1..]);
      var l := Live(insts);
      var t := Live(insts[1..]);
      if !insts[0].dead {
        assert l == [insts[0]] + t;
        forall k | 0 <= k < |l| ensures Supported(l[k].op) && Shaped(l[k]) {
          if k > 0 { assert l[k] == t[k - 1]; }
        }
      } else {
        assert l == t;
      }
    }
  }

  /** Dead instructions contribute nothing: running the whole list is running its live part. */
  lemma {:induction false} RunSkipsDead(c: Ctx, st: SelState, insts: seq<IRInst>)
    requires CtxOk(c) && Ready(st.regs, c.n) && AllTranslatable(insts)
    ensures AllTranslatable(Live(insts)) && RunSpec(c, st, insts) == RunSpec(c, st, Live(insts))
    decreases |insts|
  {
    LiveTranslatable(insts);
    if |insts| > 0 {
      var rest := insts[1..];
      assert AllTranslatable(rest);
      LiveTranslatable(rest);
      var l := Live(insts);
      var t := Live(rest);
      if insts[0].dead {
        assert l == t;
        RunSkipsDead(c, st, rest);
      } else {
        assert l == [insts[0]] + t;
        assert l[0] == insts[0] && l[1..] == t;
        match TranslateSpec(c, st, insts[0])
        case None =>
        case Some(st1) => RunSkipsDead(c, st1, rest);
      }
    }
  }

  // ---------------------------------------------------------------------------
  // Properties of the rules
  // ---------------------------------------------------------------------------

  /** `Allocate(v)` of a value binds it to the register returned. */
  lemma AllocBinds(s: RegState, n: nat, v: Value)
    requires Ready(s, n) && AllocStep(s, Some(v), -1, n).Some?
    ensures var p := AllocStep(s, Some(v), -1, n).value; v in p.0.loadReg && p.0.loadReg[v] == p.1
  {
    if v !in s.loadReg {
      var k := ChooseRegister(s, -1, n);
      if k == -1 {
        AllocateEvictsOldest(s, Some(v), -1, n);
      }
    }
  }

  /** The two-operand rule releases both operands and the result. */
  lemma TwoOperatorReleases(s: RegState, n: nat, op: string, a: Value, b: Value, res: Value)
    requires Ready(s, n) && ValueOk(a) && ValueOk(b) && ValueOk(res)
    requires TwoOperatorSpec(s, n, op, a, b, res).Some?
    ensures var t := TwoOperatorSpec(s, n, op, a, b, res).value.regs;
      a !in t.loadReg && b !in t.loadReg && res !in t.loadReg
  {
    var la := OperandLoad(s, n, a).value;
    var lb := OperandLoad(la.regs, n, b).value;
    var s3 := ResultReg(lb.regs, n, res).value.0;
    FreeGone(s3, n, a);
    var t1 := FreeValueSpec(s3, Some(a), n);
    FreeGone(t1, n, b);
    FreeKeepsGone(t1, n, b, a);
    var t2 := FreeValueSpec(t1, Some(b), n);
    FreeGone(t2, n, res);
    FreeKeepsGone(t2, n, res, a);
    FreeKeepsGone(t2, n, res, b);
  }

  /** After `free(x)` the value `x` holds no register. */
  lemma FreeGone(s: RegState, n: nat, x: Value)
    requires Inv(s, n)
    ensures x !in FreeValueSpec(s, Some(x), n).loadReg
  {
    if x in s.loadReg {
      FreeValueEffect(s, x, n);
    }
  }

  /** `free(x)` binds nothing new: a value without a register stays without one. */
  lemma FreeKeepsGone(s: RegState, n: nat, x: Value, y: Value)
    requires Inv(s, n) && y !in s.loadReg
    ensures y !in FreeValueSpec(s, Some(x), n).loadReg
  {
    if x in s.loadReg {
      FreeValueEffect(s, x, n);
    }
  }

  /** The conditional goto releases the condition and ends with the compare and the two branches. */
  lemma CondGotoReleases(s: RegState, n: nat, c: Value, t: string, f: string)
    requires Ready(s, n) && ValueOk(c) && CondGotoSpec(s, n, c, t, f).Some?
    ensures var o := CondGotoSpec(s, n, c, t, f).value;
      c !in o.regs.loadReg && |o.code| >= 3
      && o.code[|o.code| - 3].opcode == "cmp" && o.code[|o.code| - 3].arg1 == "#0"
      && o.code[|o.code| - 2] == Inst("bne", t, "", "") && o.code[|o.code| - 1] == Inst("b", f, "", "")
  {
    var p := AllocStep(s, Some(c), -1, n).value;
    FreeGone(p.0, n, c);
  }

  /** A sub-map: every binding of `t` is one of `s`. */
  predicate NoNewBindings(s: RegState, t: RegState) {
    forall v :: v in t.loadReg ==> v in s.loadReg && t.loadReg[v] == s.loadReg[v]
  }

  lemma ScratchAllocNoNewBindings(s: RegState, n: nat)
    requires Ready(s, n) && AllocStep(s, None, -1, n).Some?
    ensures NoNewBindings(s, AllocStep(s, None, -1, n).value.0)
  {
    if ChooseRegister(s, -1, n) == -1 {
      var t := AllocStep(s, None, -1, n).value.0;
      assert t.loadReg == s.loadReg - {s.regValues[0]};
    }
  }

  lemma FreeRegNoNewBindings(s: RegState, n: nat, no: int)
    requires Inv(s, n) && 0 <= no < n
    ensures NoNewBindings(s, FreeRegSpec(s, no, n))
  {
    FreeRegEffect(s, no, n);
  }

  /**
   * A copy binds no value to a register: every register it takes is a scratch
   * register, and what it leaves bound was bound before, to the same register.
   */
  lemma CopyNoNewBindings(s: RegState, n: nat, res: Value, arg: Value)
    requires Ready(s, n) && ValueOk(res) && ValueOk(arg) && CopySpec(s, n, res, arg).Some?
    ensures NoNewBindings(s, CopySpec(s, n, res, arg).value.regs)
  {
    if arg.regId == -1 && res.regId == -1 {
      var p := AllocStep(s, None, -1, n).value;
      ScratchAllocNoNewBindings(s, n);
      FreeRegNoNewBindings(p.0, n, p.1);
    }
  }

  /** With protected registers, the entry pushes exactly the list the exit pops. */
  lemma EntryPushesWhatExitPops(regs: seq<int>, regStr0: string, fname: string, vars: seq<Value>,
                                s: RegState, n: nat, ret: Option<Value>)
    requires forall i :: 0 <= i < |regs| ==> IsReg(regs[i])
    requires -0x8000_0000 <= FrameBytes(vars) < 0x8000_0000
    requires Ready(s, n) && (ret.Some? ==> ValueOk(ret.value)) && |regs| > 0
    ensures var rs := EntryRegStr(regs, regStr0);
      var e := EntryCode(rs, fname, vars); var x := ExitCode(s, n, ret, rs);
      StartsWith(rs, RegName(regs[0]))
      && e[0] == Inst("push", "{" + rs + "}", "", "")
      && |x| >= 2 && x[|x| - 2] == Inst("pop", "{" + rs + "}", "", "")
  {
    var names := NamesOf(regs);
    assert names[0] == RegName(regs[0]);
  }

  /** The shift the multiplication rule emits computes the product by the constant, as `mul` would. */
  lemma ShiftMatchesMul(rd: int, rs: int, rc: int, c: int, m: Machine)
    requires IsReg(rd) && IsReg(rs) && IsReg(rc) && IsPowerOfTwo(c) && Reg(m, RegName(rc)) == c
    ensures Exec(ShiftCode(rd, rs, ShiftAmount(c)), m) == Exec([Inst("mul", RegName(rd), RegName(rs), RegName(rc))], m)
  {
    PowerOfTwoIff(c);
    StepMul(m, RegName(rd), RegName(rs), RegName(rc));
    if ShiftAmount(c) == 0 {
      MovRegComputes(rd, rs, m);
      assert Reg(m, RegName(rs)) * c == Reg(m, RegName(rs));
    } else {
      StepLsl(m, RegName(rd), RegName(rs), ShiftAmount(c));
    }
  }

  lemma {:induction false} BitAndSelf(x: nat)
    ensures BitAnd(x, x) == x
  {
    if x > 0 {
      BitAndSelf(x / 2);
    }
  }

  /** `isPowerOfTwo(v)` holds exactly when `v` is 2 to the number of halvings that bring it to 1. */
  lemma {:induction false} PowerOfTwoIff(v: int)
    requires v > 0
    ensures IsPowerOfTwo(v) <==> Pow2(ShiftAmount(v)) == v
    decreases v
  {
    if v > 1 {
      PowerOfTwoIff(v / 2);
      if v % 2 == 1 {
        BitAndSelf(v / 2);
        assert BitAnd(v, v - 1) == 2 * BitAnd(v / 2, v / 2);
      } else {
        assert BitAnd(v, v - 1) == 2 * BitAnd(v / 2, v / 2 - 1);
      }
    }
  }

  /** The loop of `translate_mul_int32` that counts the halvings of the constant. */
  method ComputeShift(c: int) returns (shift: nat)
    requires c >= 1
    ensures shift == ShiftAmount(c)
    ensures IsPowerOfTwo(c) <==> Pow2(shift) == c
  {
    var value := c;
    shift := 0;
    while value > 1
      invariant value >= 1 && shift + ShiftAmount(value) == ShiftAmount(c)
    {
      value := value / 2;
      shift := shift + 1;
    }
    PowerOfTwoIff(c);
  }

  /** Freeing one register clears its bit only and binds nothing new. */
  lemma FreeRegStep(s: RegState, n: nat, no: int)
    requires Inv(s, n) && 0 <= no < n
    ensures var r := FreeRegSpec(s, no, n); r.regBitmap == s.regBitmap[no := false] && NoNewBindings(s, r)
  {
    FreeRegEffect(s, no, n);
  }

  lemma {:induction false} ReleasedRegsFree(s: RegState, n: nat, k: nat)
    requires Ready(s, n) && k <= 4
    ensures forall j :: 0 <= j < k ==> ReleaseArgRegs(s, n, k).regBitmap[j] == false
  {
    if k > 0 {
      ReleasedRegsFree(s, n, k - 1);
      FreeRegStep(ReleaseArgRegs(s, n, k - 1), n, k - 1);
    }
  }

  lemma {:induction false} ReleaseNoNewBindings(s: RegState, n: nat, k: nat)
    requires Ready(s, n) && k <= 4
    ensures NoNewBindings(s, ReleaseArgRegs(s, n, k))
  {
    if k > 0 {
      ReleaseNoNewBindings(s, n, k - 1);
      FreeRegStep(ReleaseArgRegs(s, n, k - 1), n, k - 1);
    }
  }

  /** After a call's releases r0 to r3 are free and nothing new is bound. */
  lemma ReleaseArgRegsFrees(s: RegState, n: nat)
    requires Ready(s, n)
    ensures var r := ReleaseArgRegs(s, n, 4);
      (forall j :: 0 <= j < 4 ==> r.regBitmap[j] == false) && NoNewBindings(s, r)
  {
    ReleasedRegsFree(s, n, 4);
    ReleaseNoNewBindings(s, n, 4);
  }

  /** After the forced claims of r0 up to r(k-1), those registers are occupied. */
  lemma {:induction false} ClaimArgRegsHolds(s: RegState, n: nat, k: nat)
    requires Ready(s, n) && k <= 4
    ensures forall j :: 0 <= j < k ==> ClaimArgRegs(s, n, k).regBitmap[j] == true
  {
    if k > 0 {
      ClaimArgRegsHolds(s, n, k - 1);
      ForceAllocateStep(ClaimArgRegs(s, n, k - 1), n, k - 1);
    }
  }

  /** A forced claim sets its own bit only. */
  lemma ForceAllocateStep(s: RegState, n: nat, no: int)
    requires Inv(s, n) && 0 <= no < n
    ensures ForceAllocateSpec(s, no, n).regBitmap == s.regBitmap[no := true]
  {
    if s.regBitmap[no] {
      FreeRegEffect(s, no, n);
    }
  }

  /** The stack arguments go to consecutive words from `[sp]` up, in argument order, in fresh memory variables. */
  lemma StackSlotsLayout(args: seq<Value>, id0: nat)
    requires |args| > 4
    ensures var sl := Slots(StackPart(args), id0);
      |sl| == |args| - 4
      && (forall i :: 0 <= i < |sl| ==>
            sl[i].addr == Some(MemAddr(SP_REG, 4 * i)) && sl[i].ty == PtrTy(args[4 + i].ty) && sl[i].id >= id0 && sl[i].kind.MemVar?)
      && (forall i, j :: 0 <= i < j < |sl| ==> sl[i].id != sl[j].id && sl[i].addr != sl[j].addr)
  {
  }

  // ---------------------------------------------------------------------------
  // Findings
  // ---------------------------------------------------------------------------

  /**
   * As written, the two-operand rule never reads a frame operand nor writes a
   * frame result: `Allocate(v)` records the register it returns as `v`'s load
   * register, and `load_var`/`store_var` then see the value already there.
   * With both operands and the result outside registers, the whole rule is
   * the one arithmetic record.
   */
  lemma TwoOperatorAsWrittenSkipsMemory(s: RegState, n: nat, op: string, a: Value, b: Value, res: Value)
    requires Ready(s, n) && ValueOk(a) && ValueOk(b) && ValueOk(res)
    requires !a.kind.ConstInt? && !b.kind.ConstInt? && a.regId == -1 && b.regId == -1 && res.regId == -1
    requires TwoOperatorSpec(s, n, op, a, b, res).Some?
    ensures var code := TwoOperatorSpec(s, n, op, a, b, res).value.code; |code| == 1 && code[0].opcode == op
  {
    TwoOperatorParts(s, n, op, a, b, res);
    var la := OperandLoad(s, n, a).value;
    OperandLoadAsWrittenEmpty(s, n, a);
    var lb := OperandLoad(la.regs, n, b).value;
    OperandLoadAsWrittenEmpty(la.regs, n, b);
    ResultStoreAsWrittenEmpty(lb.regs, n, op, la.reg, lb.reg, res);
  }

  /** A variable operand without a register: `Allocate` binds it, so its load emits nothing. */
  lemma OperandLoadAsWrittenEmpty(s: RegState, n: nat, v: Value)
    requires Ready(s, n) && ValueOk(v) && !v.kind.ConstInt? && v.regId == -1 && OperandLoad(s, n, v).Some?
    ensures OperandLoad(s, n, v).value.code == []
  {
    AllocBinds(s, n, v);
    var p := AllocStep(s, Some(v), -1, n).value;
    BoundLoadsNothing(p.1, v, p.0, n);
  }

  /** A result without a register: `Allocate` binds it, so its store emits nothing. */
  lemma ResultStoreAsWrittenEmpty(s: RegState, n: nat, op: string, ra: int, rb: int, res: Value)
    requires Ready(s, n) && ValueOk(res) && IsReg(ra) && IsReg(rb) && res.regId == -1 && ResultReg(s, n, res).Some?
    ensures var p := ResultReg(s, n, res).value;
      OperationCode(op, p.1, ra, rb, res, p.0, n) == [Inst(op, RegName(p.1), RegName(ra), RegName(rb))]
  {
    AllocBinds(s, n, res);
    var p := ResultReg(s, n, res).value;
    BoundStoresNothing(p.1, res, p.0, n);
  }

  /** A variable bound to `rs` is not loaded into `rs`. */
  lemma BoundLoadsNothing(rs: int, v: Value, s: RegState, n: nat)
    requires Ready(s, n) && IsReg(rs) && ValueOk(v) && !v.kind.ConstInt?
    requires v in s.loadReg && s.loadReg[v] == rs
    ensures SetOrLoad(rs, v, s, n) == []
  {
  }

  /** A value bound to `rs` is not stored from `rs`. */
  lemma BoundStoresNothing(rs: int, v: Value, s: RegState, n: nat)
    requires Ready(s, n) && IsReg(rs) && ValueOk(v)
    requires v in s.loadReg && s.loadReg[v] == rs
    ensures StoreVarFor(rs, v, s, n) == []
  {
  }

  /**
   * The evident intent: each operand is loaded with the load register it had
   * before the allocation (none for a value not in a register), and a constant
   * goes through `load_imm`.
   */
  function CorrectedOperandLoad(s: RegState, n: nat, v: Value): (r: Option<Loaded>)
    requires Ready(s, n) && ValueOk(v)
    ensures r.Some? ==> Ready(r.value.regs, n) && IsReg(r.value.reg)
  {
    if v.regId != -1 then Some(Loaded(v.regId, s, []))
    else
      match AllocStep(s, Some(v), -1, n)
      case None => None
      case Some(p) => Some(Loaded(p.1, p.0, LoadVarFor(p.1, v, s, n)))
  }

  /** The corrected load puts a constant's full 32-bit value in the register. */
  lemma CorrectedLoadOfConstant(s: RegState, n: nat, v: Value, m: Machine)
    requires Ready(s, n) && ValueOk(v) && v.kind.ConstInt? && v.regId == -1
    requires CorrectedOperandLoad(s, n, v).Some?
    ensures var l := CorrectedOperandLoad(s, n, v).value;
      Exec(l.code, m) == Some(SetReg(m, RegName(l.reg), v.kind.val))
  {
    var l := CorrectedOperandLoad(s, n, v).value;
    LoadImmComputes(l.reg, v.kind.val, m);
  }

  /** The corrected load puts the word of a frame operand's slot in the register. */
  lemma CorrectedLoadOfFrameVariable(s: RegState, n: nat, v: Value, m: Machine)
    requires Ready(s, n) && ValueOk(v) && !v.kind.ConstInt? && !v.kind.GlobalVar? && v.regId == -1
    requires v !in s.loadReg && HasValidAddr(v)
    requires CorrectedOperandLoad(s, n, v).Some?
    ensures var l := CorrectedOperandLoad(s, n, v).value; var off := Trunc32(v.addr.value.offset);
      (IsDisp(off) || l.reg != v.addr.value.base)
      ==> Exec(l.code, m) == Some(SetReg(m, RegName(l.reg), Load(m, BaseAddr(m, v.addr.value.base, off))))
  {
    var l := CorrectedOperandLoad(s, n, v).value;
    var off := Trunc32(v.addr.value.offset);
    if IsDisp(off) || l.reg != v.addr.value.base {
      LoadBaseComputes(l.reg, v.addr.value.base, off, m);
    }
  }

  /**
   * The evident intent for the result: it is stored with the load register it
   * had before the allocation (none for a value not in a register), so the
   * register the operation wrote goes to the result's slot.
   */
  function CorrectedResultStore(s: RegState, n: nat, res: Value): (r: Option<Loaded>)
    requires Ready(s, n) && ValueOk(res)
    ensures r.Some? <==> ResultReg(s, n, res).Some?
    ensures r.Some? ==> r.value.regs == ResultReg(s, n, res).value.0 && r.value.reg == ResultReg(s, n, res).value.1
  {
    if res.regId != -1 then Some(Loaded(res.regId, s, []))
    else
      match AllocStep(s, Some(res), -1, n)
      case None => None
      case Some(p) => Some(Loaded(p.1, p.0, StoreVarFor(p.1, res, s, n)))
  }

  /** The corrected store writes the result register to a frame result's slot. */
  lemma CorrectedStoreOfFrameVariable(s: RegState, n: nat, res: Value, m: Machine)
    requires Ready(s, n) && ValueOk(res) && !res.kind.GlobalVar? && res.regId == -1
    requires res !in s.loadReg && HasValidAddr(res)
    requires CorrectedResultStore(s, n, res).Some?
    ensures var l := CorrectedResultStore(s, n, res).value; var off := Trunc32(res.addr.value.offset);
      (IsDisp(off) || (TMP_REG != res.addr.value.base && TMP_REG != l.reg))
      ==> Exec(l.code, m)
          == Some(StoreWord(AfterScratch(m, !IsDisp(off), TMP_REG, off), BaseAddr(m, res.addr.value.base, off), Reg(m, RegName(l.reg))))
  {
    var l := CorrectedResultStore(s, n, res).value;
    var off := Trunc32(res.addr.value.offset);
    if IsDisp(off) || (TMP_REG != res.addr.value.base && TMP_REG != l.reg) {
      StoreBaseComputes(l.reg, res.addr.value.base, off, TMP_REG, m);
    }
  }

  /**
   * As written, a condition that is not a constant is never loaded: after
   * `Allocate` binds it to `rC`, `load_var` emits nothing and the rule is the
   * compare of whatever `rC` held, and the two branches.
   */
  lemma CondGotoAsWrittenSkipsLoad(s: RegState, n: nat, c: Value, t: string, f: string)
    requires Ready(s, n) && ValueOk(c) && !c.kind.ConstInt? && CondGotoSpec(s, n, c, t, f).Some?
    ensures CondGotoSpec(s, n, c, t, f).value.code == CompareBranchCode(AllocStep(s, Some(c), -1, n).value.1, t, f)
  {
    AllocBinds(s, n, c);
    var p := AllocStep(s, Some(c), -1, n).value;
    BoundLoadsNothing(p.1, c, p.0, n);
  }

  /**
   * The evident intent for a conditional goto: the condition is loaded with the
   * load register it had before the allocation, then compared with 0.
   */
  function CorrectedCondGoto(s: RegState, n: nat, c: Value, t: string, f: string): (r: Option<Out>)
    requires Ready(s, n) && ValueOk(c)
    ensures r.Some? <==> CondGotoSpec(s, n, c, t, f).Some?
    ensures r.Some? ==> r.value.regs == CondGotoSpec(s, n, c, t, f).value.regs && Ready(r.value.regs, n)
    ensures r.Some? ==>
              |r.value.code| >= 3
              && r.value.code[|r.value.code| - 3..] == CompareBranchCode(AllocStep(s, Some(c), -1, n).value.1, t, f)
  {
    match AllocStep(s, Some(c), -1, n)
    case None => None
    case Some(p) =>
      var (s1, rc) := p;
      Some(Out(LoadVarFor(rc, c, s, n) + CompareBranchCode(rc, t, f), FreeValueSpec(s1, Some(c), n)))
  }

  /**
   * The corrected conditional goto compares the condition itself: for a
   * condition in a frame slot, the records before the compare leave the slot's
   * word in `rC` and change nothing else.
   */
  lemma CorrectedCondGotoLoadsSlot(s: RegState, n: nat, c: Value, t: string, f: string, m: Machine)
    requires Ready(s, n) && ValueOk(c) && !c.kind.ConstInt? && !c.kind.GlobalVar? && c.regId == -1
    requires c !in s.loadReg && HasValidAddr(c)
    requires CorrectedCondGoto(s, n, c, t, f).Some?
    ensures var code := CorrectedCondGoto(s, n, c, t, f).value.code;
      var rc := AllocStep(s, Some(c), -1, n).value.1; var off := Trunc32(c.addr.value.offset);
      (IsDisp(off) || rc != c.addr.value.base)
      ==> Exec(code[..|code| - 3], m) == Some(SetReg(m, RegName(rc), Load(m, BaseAddr(m, c.addr.value.base, off))))
  {
    var code := CorrectedCondGoto(s, n, c, t, f).value.code;
    var rc := AllocStep(s, Some(c), -1, n).value.1;
    var off := Trunc32(c.addr.value.offset);
    if IsDisp(off) || rc != c.addr.value.base {
      LoadRegInRange(s, n, c);
      assert code[..|code| - 3] == LoadVarCode(rc, c, -1);
      ArmVars.LoadVarComputes(rc, c, -1, m);
    }
  }

  /** As written, a constant operand is set with one `movw`, which keeps only the low 16 bits: 65536 reads as 0. */
  lemma MovwAsWrittenTruncates(rs: int, m: Machine)
    requires IsReg(rs)
    ensures Exec(MovwCode(rs, 65536), m) == Some(SetReg(m, RegName(rs), 0))
    ensures Exec(MovwCode(rs, -1), m) == Some(SetReg(m, RegName(rs), 65535))
  {
    MovwKeepsLowHalf(rs, 65536, 0, m);
    MovwKeepsLowHalf(rs, -1, 65535, m);
  }

  /** The `movw` of constant `c` leaves `lo`, the low 16 bits of its 32-bit pattern. */
  lemma MovwKeepsLowHalf(rs: int, c: int, lo: int, m: Machine)
    requires IsReg(rs) && lo == U32(c) % 0x1_0000
    ensures Exec(MovwCode(rs, c), m) == Some(SetReg(m, RegName(rs), lo))
  {
    MovwOfInt(RegName(rs), c, m);
  }

  // ---------------------------------------------------------------------------
  // Steps of the recursive specifications
  // ---------------------------------------------------------------------------

  lemma SlotsStep(stack: seq<Value>, id0: nat, k: nat)
    requires k < |stack|
    ensures Slots(stack[..k + 1], id0) == Slots(stack[..k], id0) + [Slot(id0 + k, stack[k], 4 * k)]
  {
  }

  /** No character of `s` is `c`. */
  predicate Lacks(s: string, c: char) {
    forall i :: 0 <= i < |s| ==> s[i] != c
  }

  lemma {:induction false} LacksNotContains(s: string, p: string, j: nat)
    requires j < |p| && Lacks(s, p[j])
    ensures !Contains(s, p)
    decreases |s|
  {
    if |s| > 0 {
      LacksNotContains(s[1..], p, j);
    }
  }

  /** One round of the stack-argument copies, with the code emitted so far in front. */
  lemma StackArgsStep(s: RegState, n: nat, stack: seq<Value>, id0: nat, k: nat, done: seq<ArmInst>, whole: seq<ArmInst>)
    requires Ready(s, n) && AllOk(stack) && k < |stack| && StackArgs(s, n, stack, id0, k).Some?
    requires done + StackArgs(s, n, stack, id0, k).value.code == whole
    ensures SlotCopy(s, n, stack[k], id0 + k, 4 * k).Some?
    ensures var o := SlotCopy(s, n, stack[k], id0 + k, 4 * k).value;
      StackArgs(o.regs, n, stack, id0, k + 1).Some?
      && done + o.code + StackArgs(o.regs, n, stack, id0, k + 1).value.code == whole
      && StackArgs(o.regs, n, stack, id0, k + 1).value.regs == StackArgs(s, n, stack, id0, k).value.regs
  {
    var o := SlotCopy(s, n, stack[k], id0 + k, 4 * k).value;
    AppendAssoc(done, o.code, StackArgs(o.regs, n, stack, id0, k + 1).value.code);
  }

  /** One round of the register-argument copies, with the code emitted so far in front. */
  lemma RegArgsStep(s: RegState, n: nat, first: seq<Value>, k: nat, done: seq<ArmInst>, whole: seq<ArmInst>)
    requires Ready(s, n) && AllOk(first) && |first| <= 4 && k < |first| && RegArgs(s, n, first, k).Some?
    requires done + RegArgs(s, n, first, k).value.code == whole
    ensures RegCopy(s, n, first[k], k).Some?
    ensures var o := RegCopy(s, n, first[k], k).value;
      RegArgs(o.regs, n, first, k + 1).Some?
      && done + o.code + RegArgs(o.regs, n, first, k + 1).value.code == whole
      && RegArgs(o.regs, n, first, k + 1).value.regs == RegArgs(s, n, first, k).value.regs
  {
    var o := RegCopy(s, n, first[k], k).value;
    AppendAssoc(done, o.code, RegArgs(o.regs, n, first, k + 1).value.code);
  }

  /** A plain copy's printed form has no `*`, so `translate_assign` takes it as a copy. */
  lemma PlainMoveIsCopy(s: RegState, n: nat, res: Value, arg: Value)
    requires Ready(s, n) && ValueOk(res) && ValueOk(arg)
    ensures AssignSpec(s, n, res, arg, MoveText(res, arg, false, false)) == CopySpec(s, n, res, arg)
  {
    var t := MoveText(res, arg, false, false);
    var a := NatToString(res.id);
    var b := NatToString(arg.id);
    assert t == "%v" + a + " = " + "%v" + b;
    assert Lacks(t, '*') by {
      forall i | 0 <= i < |t|
        ensures t[i] != '*'
      {
        if 2 <= i < 2 + |a| {
          assert t[i] == a[i - 2] && IsDigit(a[i - 2]);
        } else if 7 + |a| <= i {
          assert t[i] == b[i - 7 - |a|] && IsDigit(b[i - 7 - |a|]);
        }
      }
    }
    LacksNotContains(t, " = *", 3);
  }

  // ---------------------------------------------------------------------------
  // The selector object
  // ---------------------------------------------------------------------------

  /** `InstSelectorArm32`: translates one function's IR into records of its emitter. */
  class Selector {
    const iloc: ILoc
    const alloc: Allocator
    const func: Frame.Function
    /** Whether each instruction is also emitted as a comment. */
    const showLinearIR: bool
    /** The ARG instructions seen since the last call. */
    var realArgCount: int

    ghost predicate Valid()
      reads this, alloc
    {
      alloc.Valid() && alloc.n <= 16
    }

    /** What the rules read of the function. */
    function Context(): Ctx
      reads this, func
    {
      Ctx(alloc.n, func.name, func.varsVector, func.protectedRegs, showLinearIR)
    }

    /** Everything the rules change. */
    function Snapshot(): SelState
      reads this, iloc, alloc, func
    {
      SelState(iloc.code, alloc.State(), func.protectedRegStr, func.memVector, func.nextId, realArgCount)
    }

    /**
     * The constructor checks the function's frame and lays it out again when
     * two variables share an offset.
     */
    constructor(il: ILoc, f: Frame.Function, a: Allocator, showIR: bool)
      modifies f`varsVector, f`memVector, f`maxDepth, f`relocated, f`memoryFixed
      ensures iloc == il && func == f && alloc == a && showLinearIR == showIR && realArgCount == 0
      ensures Frame.NoSharedOffset(old(f.AllOffsets())) ==> f.varsVector == old(f.varsVector) && f.memVector == old(f.memVector)
      ensures !Frame.NoSharedOffset(old(f.AllOffsets())) ==> f.memoryFixed
    {
      iloc := il;
      func := f;
      alloc := a;
      showLinearIR := showIR;
      realArgCount := 0;
      new;
      var ok := f.ValidateMemoryAllocation();
      if !ok {
        f.ReallocateMemory();
      }
    }

    /** `Allocate(v)` without a requested register. */
    method Take(v: Option<Value>) returns (r: int)
      requires Valid() && AllocStep(alloc.State(), v, -1, alloc.n).Some?
      modifies alloc`regBitmap, alloc`usedBitmap, alloc`regValues, alloc`loadReg, alloc`dynamicTempAllocations, alloc`tempVarPriority
      ensures Valid() && Some((alloc.State(), r)) == AllocStep(old(alloc.State()), v, -1, alloc.n)
    {
      r := alloc.Allocate(v, -1);
    }

    /** `iloc.load_var(rs, v)`. */
    method LoadInto(rs: int, v: Value)
      requires Valid() && IsReg(rs) && ValueOk(v)
      modifies iloc
      ensures iloc.code == old(iloc.code) + LoadVarFor(rs, v, alloc.State(), alloc.n)
    {
      LoadRegInRange(alloc.State(), alloc.n, v);
      iloc.LoadVar(rs, v, alloc.LoadRegId(v));
    }

    /** `iloc.store_var(src, v, ARM32_TMP_REG_NO)`. */
    method StoreFrom(src: int, v: Value)
      requires Valid() && IsReg(src) && ValueOk(v)
      modifies iloc
      ensures iloc.code == old(iloc.code) + StoreVarFor(src, v, alloc.State(), alloc.n)
    {
      LoadRegInRange(alloc.State(), alloc.n, v);
      iloc.StoreVar(src, v, alloc.LoadRegId(v), TMP_REG);
    }

    /** A constant by `movw`, anything else by `load_var`. */
    method SetOperand(rs: int, v: Value)
      requires Valid() && IsReg(rs) && ValueOk(v)
      modifies iloc
      ensures iloc.code == old(iloc.code) + SetOrLoad(rs, v, alloc.State(), alloc.n)
    {
      if v.kind.ConstInt? {
        iloc.Instr("movw", RegName(rs), "#:lower16:" + IntToString(v.kind.val), "");
      } else {
        LoadInto(rs, v);
      }
    }

    /** `translate_label`. */
    method TranslateLabel(name: string)
      modifies iloc
      ensures iloc.code == old(iloc.code) + LabelCode(name)
    {
      iloc.Label(name);
    }

    /** `translate_goto` without a condition. */
    method TranslateJump(target: string)
      modifies iloc
      ensures iloc.code == old(iloc.code) + JumpCode(target)
    {
      iloc.Jump(target);
    }

    /** `cmp r,#0`, `bne t`, `b f`. */
    method EmitCompareBranch(r: int, t: string, f: string)
      requires IsReg(r)
      modifies iloc
      ensures iloc.code == old(iloc.code) + CompareBranchCode(r, t, f)
    {
      ghost var c0 := iloc.code;
      iloc.Instr("cmp", RegName(r), "#0", "");
      iloc.Instr("bne", t, "", "");
      iloc.Instr("b", f, "", "");
      assert iloc.code == c0 + [Inst("cmp", RegName(r), "#0", "")] + [Inst("bne", t, "", "")] + [Inst("b", f, "", "")];
    }

    /** `translate_goto` with a condition. */
    method TranslateCondGoto(c: Value, t: string, f: string)
      requires Valid() && ValueOk(c) && CondGotoSpec(alloc.State(), alloc.n, c, t, f).Some?
      modifies iloc, alloc`regBitmap, alloc`usedBitmap, alloc`regValues, alloc`loadReg, alloc`dynamicTempAllocations, alloc`tempVarPriority
      ensures Valid()
      ensures var o := CondGotoSpec(old(alloc.State()), alloc.n, c, t, f).value;
        iloc.code == old(iloc.code) + o.code && alloc.State() == o.regs
    {
      ghost var c0 := iloc.code;
      var r := Take(Some(c));
      ghost var l := LoadVarFor(r, c, alloc.State(), alloc.n);
      LoadInto(r, c);
      EmitCompareBranch(r, t, f);
      AppendAssoc(c0, l, CompareBranchCode(r, t, f));
      alloc.FreeValue(Some(c));
    }

    /** The loop of `translate_entry` that joins the protected registers' names. */
    static method JoinRegNames(regs: seq<int>, init: string) returns (str: string)
      requires forall i :: 0 <= i < |regs| ==> IsReg(regs[i])
      ensures str == EntryRegStr(regs, init)
    {
      ghost var names := NamesOf(regs);
      str := init;
      var first := true;
      for k := 0 to |regs|
        invariant first <==> k == 0
        invariant k == 0 ==> str == init
        invariant k > 0 ==> str == Join(names[..k], ",")
      {
        if first {
          str := RegName(regs[k]);
          first := false;
          assert names[..k + 1] == [names[0]];
        } else {
          str := str + "," + RegName(regs[k]);
          assert names[..k + 1][..k] == names[..k];
        }
      }
      assert |regs| > 0 ==> names[..|regs|] == names;
    }

    /** `translate_entry`: the protected register list, `push`, and the frame set-up. */
    method TranslateEntry()
      requires forall i :: 0 <= i < |func.protectedRegs| ==> IsReg(func.protectedRegs[i])
      requires -0x8000_0000 <= FrameBytes(func.varsVector) < 0x8000_0000
      modifies iloc, func`protectedRegStr
      ensures func.protectedRegStr == EntryRegStr(func.protectedRegs, old(func.protectedRegStr))
      ensures iloc.code == old(iloc.code) + EntryCode(func.protectedRegStr, func.name, func.varsVector)
    {
      var str := JoinRegNames(func.protectedRegs, func.protectedRegStr);
      func.protectedRegStr := str;
      ghost var c0 := iloc.code;
      ghost var p := if str != "" then [Inst("push", "{" + str + "}", "", "")] else [];
      ghost var f := AllocStackCode(func.name, func.varsVector, TMP_REG);
      if str != "" {
        iloc.Instr("push", "{" + str + "}", "", "");
      }
      assert iloc.code == c0 + p;
      iloc.AllocStack(func.name, func.varsVector, TMP_REG);
      AppendAssoc(c0, p, f);
    }

    /** `translate_exit`: the return value into r0, then the frame and the protected registers restored. */
    method TranslateExit(ret: Option<Value>)
      requires Valid() && (ret.Some? ==> ValueOk(ret.value))
      modifies iloc
      ensures iloc.code == old(iloc.code) + ExitCode(alloc.State(), alloc.n, ret, func.protectedRegStr)
    {
      ghost var c0 := iloc.code;
      ghost var a := if ret.Some? then LoadVarFor(0, ret.value, alloc.State(), alloc.n) else [];
      if ret.Some? {
        LoadInto(0, ret.value);
      }
      assert iloc.code == c0 + a;
      ghost var m := [Inst("mov", "sp", "fp", "")];
      ghost var p := if func.protectedRegStr != "" then [Inst("pop", "{" + func.protectedRegStr + "}", "", "")] else [];
      ghost var x := [Inst("bx", "lr", "", "")];
      iloc.Instr("mov", "sp", "fp", "");
      AppendAssoc(c0, a, m);
      if func.protectedRegStr != "" {
        iloc.Instr("pop", "{" + func.protectedRegStr + "}", "", "");
      }
      assert iloc.code == c0 + (a + m) + p;
      AppendAssoc(c0, a + m, p);
      iloc.Instr("bx", "lr", "", "");
      AppendAssoc(c0, a + m + p, x);
    }

    /** The copy branch of `translate_assign`. */
    method TranslateCopy(res: Value, arg: Value)
      requires Valid() && ValueOk(res) && ValueOk(arg) && CopySpec(alloc.State(), alloc.n, res, arg).Some?
      modifies iloc, alloc`regBitmap, alloc`usedBitmap, alloc`regValues, alloc`loadReg, alloc`dynamicTempAllocations, alloc`tempVarPriority
      ensures Valid()
      ensures var o := CopySpec(old(alloc.State()), alloc.n, res, arg).value;
        iloc.code == old(iloc.code) + o.code && alloc.State() == o.regs
    {
      if arg.regId != -1 {
        StoreFrom(arg.regId, res);
      } else if res.regId != -1 {
        SetOperand(res.regId, arg);
      } else {
        ghost var c0 := iloc.code;
        var t := Take(None);
        ghost var a := SetOrLoad(t, arg, alloc.State(), alloc.n);
        ghost var b := StoreVarFor(t, res, alloc.State(), alloc.n);
        SetOperand(t, arg);
        assert iloc.code == c0 + a;
        StoreFrom(t, res);
        AppendAssoc(c0, a, b);
        alloc.FreeReg(t);
      }
    }

    /** `translate_load_ptr`: `res = *ptr`. */
    method TranslateLoadPtr(res: Value, ptr: Value)
      requires Valid() && ValueOk(res) && ValueOk(ptr) && LoadPtrSpec(alloc.State(), alloc.n, res, ptr).Some?
      modifies iloc, alloc`regBitmap, alloc`usedBitmap, alloc`regValues, alloc`loadReg, alloc`dynamicTempAllocations, alloc`tempVarPriority
      ensures Valid()
      ensures var o := LoadPtrSpec(old(alloc.State()), alloc.n, res, ptr).value;
        iloc.code == old(iloc.code) + o.code && alloc.State() == o.regs
    {
      ghost var c0 := iloc.code;
      var pr := Take(None);
      var rr := Take(None);
      ghost var a := LoadVarFor(pr, ptr, alloc.State(), alloc.n);
      ghost var ld := [Inst("ldr", RegName(rr), AddrOperand(RegName(pr), ""), "")];
      ghost var b := StoreVarFor(rr, res, alloc.State(), alloc.n);
      LoadInto(pr, ptr);
      iloc.Instr("ldr", RegName(rr), AddrOperand(RegName(pr), ""), "");
      AppendAssoc(c0, a, ld);
      assert iloc.code == c0 + (a + ld);
      StoreFrom(rr, res);
      AppendAssoc(c0, a + ld, b);
      alloc.FreeReg(pr);
      alloc.FreeReg(rr);
    }

    /** `translate_store_ptr`: `*ptr = val`, skipped when both report the same slot and the text starts with `*`. */
    method TranslateStorePtr(ptr: Value, val: Value, text: string)
      requires Valid() && ValueOk(ptr) && ValueOk(val) && StorePtrSpec(alloc.State(), alloc.n, ptr, val, text).Some?
      modifies iloc, alloc`regBitmap, alloc`usedBitmap, alloc`regValues, alloc`loadReg, alloc`dynamicTempAllocations, alloc`tempVarPriority
      ensures Valid()
      ensures var o := StorePtrSpec(old(alloc.State()), alloc.n, ptr, val, text).value;
        iloc.code == old(iloc.code) + o.code && alloc.State() == o.regs
    {
      if SameSlot(ptr, val) && StartsWith(text, "*") {
        assert iloc.code == old(iloc.code) + [];
        return;
      }
      ghost var c0 := iloc.code;
      var pr := Take(None);
      var vr := Take(None);
      ghost var a := LoadVarFor(pr, ptr, alloc.State(), alloc.n);
      ghost var b := SetOrLoad(vr, val, alloc.State(), alloc.n);
      ghost var st := [Inst("str", RegName(vr), AddrOperand(RegName(pr), ""), "")];
      LoadInto(pr, ptr);
      SetOperand(vr, val);
      AppendAssoc(c0, a, b);
      assert iloc.code == c0 + (a + b);
      iloc.Instr("str", RegName(vr), AddrOperand(RegName(pr), ""), "");
      AppendAssoc(c0, a + b, st);
      alloc.FreeReg(pr);
      alloc.FreeReg(vr);
    }

    /** `translate_assign`. */
    method TranslateAssign(res: Value, arg: Value, text: string)
      requires Valid() && ValueOk(res) && ValueOk(arg) && AssignSpec(alloc.State(), alloc.n, res, arg, text).Some?
      modifies iloc, alloc`regBitmap, alloc`usedBitmap, alloc`regValues, alloc`loadReg, alloc`dynamicTempAllocations, alloc`tempVarPriority
      ensures Valid()
      ensures var o := AssignSpec(old(alloc.State()), alloc.n, res, arg, text).value;
        iloc.code == old(iloc.code) + o.code && alloc.State() == o.regs
    {
      if Contains(text, " = *") {
        TranslateLoadPtr(res, arg);
      } else if StartsWith(text, "*") && Contains(text, " = ") {
        TranslateStorePtr(res, arg, text);
      } else {
        TranslateCopy(res, arg);
      }
    }

    /** The first or second operand block of `translate_two_operator`. */
    method OperandRegister(v: Value) returns (r: int)
      requires Valid() && ValueOk(v) && OperandLoad(alloc.State(), alloc.n, v).Some?
      modifies iloc, alloc`regBitmap, alloc`usedBitmap, alloc`regValues, alloc`loadReg, alloc`dynamicTempAllocations, alloc`tempVarPriority
      ensures Valid()
      ensures var l := OperandLoad(old(alloc.State()), alloc.n, v).value;
        r == l.reg && alloc.State() == l.regs && iloc.code == old(iloc.code) + l.code
    {
      if v.regId == -1 {
        r := Take(Some(v));
        SetOperand(r, v);
      } else {
        r := v.regId;
      }
    }

    /** The result block of `translate_two_operator`. */
    method ResultRegister(res: Value) returns (r: int)
      requires Valid() && ValueOk(res) && ResultReg(alloc.State(), alloc.n, res).Some?
      modifies alloc`regBitmap, alloc`usedBitmap, alloc`regValues, alloc`loadReg, alloc`dynamicTempAllocations, alloc`tempVarPriority
      ensures Valid() && (alloc.State(), r) == ResultReg(old(alloc.State()), alloc.n, res).value
    {
      if res.regId == -1 {
        r := Take(Some(res));
      } else {
        r := res.regId;
      }
    }

    /** The three `free` calls that end `translate_two_operator`. */
    method FreeOperands(a: Value, b: Value, res: Value)
      requires Valid()
      modifies alloc`regBitmap, alloc`usedBitmap, alloc`regValues, alloc`loadReg, alloc`dynamicTempAllocations, alloc`tempVarPriority
      ensures Valid() && alloc.State() == FreeThree(old(alloc.State()), alloc.n, a, b, res)
    {
      alloc.FreeValue(Some(a));
      alloc.FreeValue(Some(b));
      alloc.FreeValue(Some(res));
    }

    /** The operation itself and, for a result without a fixed register, its store. */
    method EmitOperation(op: string, rr: int, ra: int, rb: int, res: Value)
      requires Valid() && IsReg(rr) && IsReg(ra) && IsReg(rb) && ValueOk(res)
      modifies iloc
      ensures iloc.code == old(iloc.code) + OperationCode(op, rr, ra, rb, res, alloc.State(), alloc.n)
    {
      iloc.Instr(op, RegName(rr), RegName(ra), RegName(rb));
      if res.regId == -1 {
        StoreFrom(rr, res);
      }
    }

    /** `translate_two_operator(inst, op)`. */
    method TranslateTwoOperator(op: string, a: Value, b: Value, res: Value)
      requires Valid() && ValueOk(a) && ValueOk(b) && ValueOk(res)
      requires TwoOperatorSpec(alloc.State(), alloc.n, op, a, b, res).Some?
      modifies iloc, alloc`regBitmap, alloc`usedBitmap, alloc`regValues, alloc`loadReg, alloc`dynamicTempAllocations, alloc`tempVarPriority
      ensures Valid()
      ensures var o := TwoOperatorSpec(old(alloc.State()), alloc.n, op, a, b, res).value;
        iloc.code == old(iloc.code) + o.code && alloc.State() == o.regs
    {
      ghost var c0 := iloc.code;
      TwoOperatorParts(alloc.State(), alloc.n, op, a, b, res);
      ghost var la := OperandLoad(alloc.State(), alloc.n, a).value;
      var ra := OperandRegister(a);
      ghost var c1 := iloc.code;
      ghost var lb := OperandLoad(alloc.State(), alloc.n, b).value;
      var rb := OperandRegister(b);
      AppendAssoc(c0, la.code, lb.code);
      assert iloc.code == c0 + (la.code + lb.code);
      var rr := ResultRegister(res);
      ghost var oc := OperationCode(op, rr, ra, rb, res, alloc.State(), alloc.n);
      EmitOperation(op, rr, ra, rb, res);
      AppendAssoc(c0, la.code + lb.code, oc);
      FreeOperands(a, b, res);
    }

    /** `translate_mul_int32`. */
    method TranslateMul(a: Value, b: Value, res: Value)
      requires Valid() && ValueOk(a) && ValueOk(b) && ValueOk(res)
      requires MulSpec(alloc.State(), alloc.n, a, b, res).Some?
      modifies iloc, alloc`regBitmap, alloc`usedBitmap, alloc`regValues, alloc`loadReg, alloc`dynamicTempAllocations, alloc`tempVarPriority
      ensures Valid()
      ensures var o := MulSpec(old(alloc.State()), alloc.n, a, b, res).value;
        iloc.code == old(iloc.code) + o.code && alloc.State() == o.regs
    {
      var constVal: Option<int> := None;
      var varVal := a;
      if a.kind.ConstInt? {
        constVal := Some(a.kind.val as int);
        varVal := b;
      } else if b.kind.ConstInt? {
        constVal := Some(b.kind.val as int);
        varVal := a;
      }
      if constVal.Some? && IsPowerOfTwo(constVal.value) {
        var shiftAmount := ComputeShift(constVal.value);
        ghost var c0 := iloc.code;
        var varReg := Take(None);
        var resultReg := Take(None);
        ghost var x := SetOrLoad(varReg, varVal, alloc.State(), alloc.n);
        ghost var sh := ShiftCode(resultReg, varReg, shiftAmount);
        ghost var st := StoreVarFor(resultReg, res, alloc.State(), alloc.n);
        SetOperand(varReg, varVal);
        if shiftAmount == 0 {
          iloc.MovReg(resultReg, varReg);
        } else {
          iloc.Instr("lsl", RegName(resultReg), RegName(varReg), "#" + IntToString(shiftAmount));
        }
        AppendAssoc(c0, x, sh);
        assert iloc.code == c0 + (x + sh);
        StoreFrom(resultReg, res);
        AppendAssoc(c0, x + sh, st);
        alloc.FreeReg(varReg);
        alloc.FreeReg(resultReg);
      } else {
        TranslateTwoOperator("mul", a, b, res);
      }
    }

    /** `translate_add_ptr`: `res = base + offset` through three scratch registers. */
    method TranslateAddPtr(base: Value, off: Value, res: Value)
      requires Valid() && ValueOk(base) && ValueOk(off) && ValueOk(res)
      requires AddPtrSpec(alloc.State(), alloc.n, base, off, res).Some?
      modifies iloc, alloc`regBitmap, alloc`usedBitmap, alloc`regValues, alloc`loadReg, alloc`dynamicTempAllocations, alloc`tempVarPriority
      ensures Valid()
      ensures var o := AddPtrSpec(old(alloc.State()), alloc.n, base, off, res).value;
        iloc.code == old(iloc.code) + o.code && alloc.State() == o.regs
    {
      ghost var c0 := iloc.code;
      AddPtrParts(alloc.State(), alloc.n, base, off, res);
      var br := Take(None);
      var orr := Take(None);
      var rr := Take(None);
      ghost var a := LoadVarFor(br, base, alloc.State(), alloc.n);
      ghost var b := LoadVarFor(orr, off, alloc.State(), alloc.n);
      ghost var ad := [Inst("add", RegName(rr), RegName(br), RegName(orr))];
      ghost var st := StoreVarFor(rr, res, alloc.State(), alloc.n);
      LoadInto(br, base);
      LoadInto(orr, off);
      AppendAssoc(c0, a, b);
      assert iloc.code == c0 + (a + b);
      iloc.Instr("add", RegName(rr), RegName(br), RegName(orr));
      AppendAssoc(c0, a + b, ad);
      assert iloc.code == c0 + (a + b + ad);
      StoreFrom(rr, res);
      AppendAssoc(c0, a + b + ad, st);
      alloc.FreeReg(br);
      alloc.FreeReg(orr);
      alloc.FreeReg(rr);
    }

    /** `translate_arg`: counts the argument and reports whether it sits where argument number `realArgCount` must. */
    method TranslateArg(v: Value) returns (ok: bool)
      modifies this`realArgCount
      ensures ok <==> ArgOk(v, old(realArgCount))
      ensures realArgCount == old(realArgCount) + 1
    {
      if realArgCount < 4 {
        ok := v.regId != -1 && v.regId == realArgCount;
      } else {
        ok := v.addr.Some? && v.addr.value.base == SP_REG;
      }
      realArgCount := realArgCount + 1;
    }

    /** The four forced `Allocate(0)` ... `Allocate(3)` before a call. */
    method ClaimArgRegisters()
      requires Valid()
      modifies alloc`regBitmap, alloc`usedBitmap, alloc`regValues, alloc`loadReg, alloc`dynamicTempAllocations, alloc`tempVarPriority
      ensures Valid() && alloc.State() == ClaimArgRegs(old(alloc.State()), alloc.n, 4)
    {
      ghost var s0 := alloc.State();
      alloc.ForceAllocate(0);
      assert alloc.State() == ClaimArgRegs(s0, alloc.n, 1);
      alloc.ForceAllocate(1);
      assert alloc.State() == ClaimArgRegs(s0, alloc.n, 2);
      alloc.ForceAllocate(2);
      assert alloc.State() == ClaimArgRegs(s0, alloc.n, 3);
      alloc.ForceAllocate(3);
    }

    /** The four `free(0)` ... `free(3)` after a call. */
    method ReleaseArgRegisters()
      requires Valid()
      modifies alloc`regBitmap, alloc`usedBitmap, alloc`regValues, alloc`loadReg, alloc`dynamicTempAllocations, alloc`tempVarPriority
      ensures Valid() && alloc.State() == ReleaseArgRegs(old(alloc.State()), alloc.n, 4)
    {
      ghost var s0 := alloc.State();
      alloc.FreeReg(0);
      assert alloc.State() == ReleaseArgRegs(s0, alloc.n, 1);
      alloc.FreeReg(1);
      assert alloc.State() == ReleaseArgRegs(s0, alloc.n, 2);
      alloc.FreeReg(2);
      assert alloc.State() == ReleaseArgRegs(s0, alloc.n, 3);
      alloc.FreeReg(3);
    }

    /** One round of the stack-argument loop: a new memory variable at `[sp, #esp]`, and the copy into it. */
    method PassStackArg(arg: Value, esp: int)
      requires Valid() && ValueOk(arg) && SlotCopy(alloc.State(), alloc.n, arg, func.nextId, esp).Some?
      modifies iloc, alloc`regBitmap, alloc`usedBitmap, alloc`regValues, alloc`loadReg, alloc`dynamicTempAllocations, alloc`tempVarPriority, func`memVector, func`nextId
      ensures Valid()
      ensures var o := SlotCopy(old(alloc.State()), alloc.n, arg, old(func.nextId), esp).value;
        iloc.code == old(iloc.code) + o.code && alloc.State() == o.regs
      ensures func.memVector == old(func.memVector) + [Slot(old(func.nextId), arg, esp)]
      ensures func.nextId == old(func.nextId) + 1
    {
      var v := func.NewMemVariable(PtrTy(arg.ty));
      func.SetMemAddr(|func.memVector| - 1, MemAddr(SP_REG, esp));
      var newVal := v.(addr := Some(MemAddr(SP_REG, esp)));
      assert newVal == Slot(old(func.nextId), arg, esp);
      ReplaceLast(old(func.memVector), v, newVal);
      TranslateAssign(newVal, arg, MoveText(newVal, arg, false, false));
    }

    /**
     * The loop of `translate_call` over the arguments after the fourth: each
     * gets a new memory variable at `[sp, #esp]` and is copied there.
     */
    method PassStackArgs(stack: seq<Value>)
      requires Valid() && AllOk(stack) && StackArgs(alloc.State(), alloc.n, stack, func.nextId, 0).Some?
      modifies iloc, alloc`regBitmap, alloc`usedBitmap, alloc`regValues, alloc`loadReg, alloc`dynamicTempAllocations, alloc`tempVarPriority, func`memVector, func`nextId
      ensures Valid()
      ensures var o := StackArgs(old(alloc.State()), alloc.n, stack, old(func.nextId), 0).value;
        iloc.code == old(iloc.code) + o.code && alloc.State() == o.regs
      ensures func.memVector == old(func.memVector) + Slots(stack, old(func.nextId))
      ensures func.nextId == old(func.nextId) + |stack|
    {
      ghost var c0 := iloc.code;
      ghost var id0 := func.nextId;
      ghost var m0 := func.memVector;
      ghost var total := StackArgs(alloc.State(), alloc.n, stack, id0, 0).value;
      var esp := 0;
      assert stack[..0] == [];
      for k := 0 to |stack|
        invariant Valid()
        invariant esp == 4 * k
        invariant func.nextId == id0 + k && func.memVector == m0 + Slots(stack[..k], id0)
        invariant StackArgs(alloc.State(), alloc.n, stack, id0, k).Some?
        invariant iloc.code + StackArgs(alloc.State(), alloc.n, stack, id0, k).value.code == c0 + total.code
        invariant StackArgs(alloc.State(), alloc.n, stack, id0, k).value.regs == total.regs
      {
        SlotsStep(stack, id0, k);
        ghost var m1 := func.memVector;
        StackArgsStep(alloc.State(), alloc.n, stack, id0, k, iloc.code, c0 + total.code);
        PassStackArg(stack[k], esp);
        esp := esp + 4;
        AppendAssoc(m0, Slots(stack[..k], id0), [Slot(id0 + k, stack[k], 4 * k)]);
      }
      assert stack[..|stack|] == stack;
    }

    /** The loop of `translate_call` over the first four arguments: each is copied into its register. */
    method PassRegArgs(first: seq<Value>)
      requires Valid() && AllOk(first) && |first| <= 4 && RegArgs(alloc.State(), alloc.n, first, 0).Some?
      modifies iloc, alloc`regBitmap, alloc`usedBitmap, alloc`regValues, alloc`loadReg, alloc`dynamicTempAllocations, alloc`tempVarPriority
      ensures Valid()
      ensures var o := RegArgs(old(alloc.State()), alloc.n, first, 0).value;
        iloc.code == old(iloc.code) + o.code && alloc.State() == o.regs
    {
      ghost var c0 := iloc.code;
      ghost var total := RegArgs(alloc.State(), alloc.n, first, 0).value;
      for k := 0 to |first|
        invariant Valid()
        invariant RegArgs(alloc.State(), alloc.n, first, k).Some?
        invariant iloc.code + RegArgs(alloc.State(), alloc.n, first, k).value.code == c0 + total.code
        invariant RegArgs(alloc.State(), alloc.n, first, k).value.regs == total.regs
      {
        RegArgsStep(alloc.State(), alloc.n, first, k, iloc.code, c0 + total.code);
        var dst := RegValue(k);
        TranslateAssign(dst, first[k], MoveText(dst, first[k], false, false));
      }
    }

    /** The argument passing of `translate_call`: r0 to r3 claimed, the stack arguments stored, the first four moved. */
    method PassArgs(args: seq<Value>)
      requires Valid() && AllOk(args) && AllOk(StackPart(args)) && AllOk(RegPart(args))
      requires StackArgs(ClaimArgRegs(alloc.State(), alloc.n, 4), alloc.n, StackPart(args), func.nextId, 0).Some?
      requires RegArgs(StackArgs(ClaimArgRegs(alloc.State(), alloc.n, 4), alloc.n, StackPart(args), func.nextId, 0).value.regs,
                       alloc.n, RegPart(args), 0).Some?
      modifies iloc, alloc`regBitmap, alloc`usedBitmap, alloc`regValues, alloc`loadReg, alloc`dynamicTempAllocations, alloc`tempVarPriority, func`memVector, func`nextId
      ensures Valid()
      ensures var o1 := StackArgs(ClaimArgRegs(old(alloc.State()), alloc.n, 4), alloc.n, StackPart(args), old(func.nextId), 0).value;
        var o2 := RegArgs(o1.regs, alloc.n, RegPart(args), 0).value;
        iloc.code == old(iloc.code) + (o1.code + o2.code) && alloc.State() == o2.regs
      ensures func.memVector == old(func.memVector) + Slots(StackPart(args), old(func.nextId))
      ensures func.nextId == old(func.nextId) + |StackPart(args)|
    {
      ghost var c0 := iloc.code;
      var stack := StackPart(args);
      var first := RegPart(args);
      ClaimArgRegisters();
      ghost var o1 := StackArgs(alloc.State(), alloc.n, stack, func.nextId, 0).value;
      PassStackArgs(stack);
      ghost var o2 := RegArgs(alloc.State(), alloc.n, first, 0).value;
      PassRegArgs(first);
      AppendAssoc(c0, o1.code, o2.code);
    }

    /** The part of `translate_call` for a call with arguments. */
    method Marshal(args: seq<Value>, callee: string)
      requires Valid() && AllOk(args) && |args| > 0 && MarshalSpec(alloc.State(), alloc.n, args, callee, func.nextId).Some?
      modifies iloc, alloc`regBitmap, alloc`usedBitmap, alloc`regValues, alloc`loadReg, alloc`dynamicTempAllocations, alloc`tempVarPriority, func`memVector, func`nextId
      ensures Valid()
      ensures var o := MarshalSpec(old(alloc.State()), alloc.n, args, callee, old(func.nextId)).value;
        iloc.code == old(iloc.code) + o.code && alloc.State() == o.regs
      ensures func.memVector == old(func.memVector) + Slots(StackPart(args), old(func.nextId))
      ensures func.nextId == old(func.nextId) + |StackPart(args)|
    {
      ghost var c0 := iloc.code;
      ghost var s0 := alloc.State();
      MarshalParts(alloc.State(), alloc.n, args, callee, func.nextId);
      ghost var o1 := StackArgs(ClaimArgRegs(s0, alloc.n, 4), alloc.n, StackPart(args), func.nextId, 0).value;
      ghost var o2 := RegArgs(o1.regs, alloc.n, RegPart(args), 0).value;
      PassArgs(args);
      iloc.CallFun(callee);
      AppendAssoc(c0, o1.code + o2.code, CallFunCode(callee));
      ReleaseArgRegisters();
    }

    /**
     * `translate_call`: reports whether the ARG instructions seen agree with
     * the argument count, marshals, calls, copies r0 into the result, and
     * resets the ARG count.
     */
    method TranslateCall(args: seq<Value>, res: Option<Value>, callee: string) returns (countOk: bool)
      requires Valid() && AllOk(args) && (res.Some? ==> ValueOk(res.value))
      requires CallSpec(alloc.State(), alloc.n, args, res, callee, func.nextId).Some?
      modifies this`realArgCount, iloc, alloc`regBitmap, alloc`usedBitmap, alloc`regValues, alloc`loadReg, alloc`dynamicTempAllocations, alloc`tempVarPriority, func`memVector, func`nextId
      ensures Valid() && realArgCount == 0
      ensures countOk <==> CallCountOk(|args|, old(realArgCount))
      ensures var o := CallSpec(old(alloc.State()), alloc.n, args, res, callee, old(func.nextId)).value;
        iloc.code == old(iloc.code) + o.code && alloc.State() == o.regs
      ensures func.memVector == old(func.memVector) + Slots(StackPart(args), old(func.nextId))
      ensures func.nextId == old(func.nextId) + |StackPart(args)|
    {
      countOk := |args| == realArgCount || realArgCount == 0;
      ghost var c0 := iloc.code;
      if |args| > 0 {
        Marshal(args, callee);
      } else {
        iloc.CallFun(callee);
        assert StackPart(args) == [] && Slots([], old(func.nextId)) == [];
      }
      if res.Some? {
        ghost var c1 := iloc.code;
        var r0 := RegValue(0);
        ghost var o2 := AssignSpec(alloc.State(), alloc.n, res.value, r0, MoveText(res.value, r0, false, false)).value;
        TranslateAssign(res.value, r0, MoveText(res.value, r0, false, false));
        AppendAssoc(c0, c1[|c0|..], o2.code);
        assert c1 == c0 + c1[|c0|..];
      }
      realArgCount := 0;
    }

    /** `outputIRInstruction`, when `showLinearIR` is on. */
    method OutputIRInstruction(inst: IRInst)
      modifies iloc
      ensures iloc.code == old(iloc.code) + IRComment(Context(), inst)
    {
      if showLinearIR && Text(inst) != "" {
        iloc.Comment(Text(inst));
      }
    }

    /** The handlers of the function's entry and exit. */
    method DispatchFrame(inst: IRInst)
      requires Valid() && CtxOk(Context()) && Shaped(inst) && (inst.op.OpEntry? || inst.op.OpExit?)
      requires HandlerSpec(Context(), Snapshot(), inst).Some?
      modifies iloc, func`protectedRegStr
      ensures Valid()
      ensures Snapshot() == HandlerSpec(Context(), old(Snapshot()), inst).value
    {
      var ops := inst.operands;
      if inst.op.OpEntry? {
        TranslateEntry();
      } else {
        TranslateExit(if |ops| > 0 then Some(ops[0]) else None);
      }
    }

    /** The handlers of labels, jumps and ARG. */
    method DispatchControl(inst: IRInst)
      requires Valid() && CtxOk(Context()) && Shaped(inst) && (inst.op.OpLabel? || inst.op.OpGoto? || inst.op.OpArg?)
      requires HandlerSpec(Context(), Snapshot(), inst).Some?
      modifies this`realArgCount, iloc, alloc`regBitmap, alloc`usedBitmap, alloc`regValues, alloc`loadReg, alloc`dynamicTempAllocations, alloc`tempVarPriority
      ensures Valid()
      ensures Snapshot() == HandlerSpec(Context(), old(Snapshot()), inst).value
    {
      var ops := inst.operands;
      match inst.op
      case OpLabel =>
        TranslateLabel(inst.target.value.name);
      case OpGoto =>
        if |ops| > 0 {
          TranslateCondGoto(ops[0], inst.target.value.name, inst.falseTarget.value.name);
        } else {
          TranslateJump(inst.target.value.name);
        }
      case OpArg =>
        var _ := TranslateArg(ops[0]);
    }

    /** The handlers of copies, arithmetic and pointer instructions. */
    method DispatchData(inst: IRInst)
      requires Valid() && CtxOk(Context()) && Shaped(inst)
      requires inst.op.OpAssign? || inst.op.OpAddI? || inst.op.OpSubI? || inst.op.OpMulI? || inst.op.OpStorePtr?
        || inst.op.OpLoadPtr? || inst.op.OpAddPtr? || inst.op.OpArrayAddr?
      requires HandlerSpec(Context(), Snapshot(), inst).Some?
      modifies iloc, alloc`regBitmap, alloc`usedBitmap, alloc`regValues, alloc`loadReg, alloc`dynamicTempAllocations, alloc`tempVarPriority
      ensures Valid()
      ensures Snapshot() == HandlerSpec(Context(), old(Snapshot()), inst).value
    {
      var ops := inst.operands;
      match inst.op
      case OpAssign => TranslateAssign(ops[0], ops[1], Text(inst));
      case OpAddI => TranslateTwoOperator("add", ops[0], ops[1], inst.result.value);
      case OpSubI => TranslateTwoOperator("sub", ops[0], ops[1], inst.result.value);
      case OpMulI => TranslateMul(ops[0], ops[1], inst.result.value);
      case OpStorePtr => TranslateStorePtr(ops[0], ops[1], Text(inst));
      case OpLoadPtr => TranslateLoadPtr(ops[0], ops[1]);
      case OpAddPtr => TranslateAddPtr(ops[0], ops[1], inst.result.value);
      case OpArrayAddr => TranslateTwoOperator("add", ops[0], ops[1], inst.result.value);
    }

    /** The handler of a function call. */
    method DispatchCall(inst: IRInst)
      requires Valid() && CtxOk(Context()) && Shaped(inst) && inst.op.OpFuncCall?
      requires HandlerSpec(Context(), Snapshot(), inst).Some?
      modifies this`realArgCount, iloc, alloc`regBitmap, alloc`usedBitmap, alloc`regValues, alloc`loadReg, alloc`dynamicTempAllocations, alloc`tempVarPriority, func`protectedRegStr, func`memVector, func`nextId
      ensures Valid()
      ensures Snapshot() == HandlerSpec(Context(), old(Snapshot()), inst).value
    {
      var _ := TranslateCall(inst.operands, inst.result, inst.callee);
    }

    /** `translate(inst)`: an opcode without a handler is skipped; otherwise the comment, then the handler. */
    method Translate(inst: IRInst)
      requires Valid() && CtxOk(Context()) && Supported(inst.op) && Shaped(inst)
      requires TranslateSpec(Context(), Snapshot(), inst).Some?
      modifies this`realArgCount, iloc, alloc`regBitmap, alloc`usedBitmap, alloc`regValues, alloc`loadReg, alloc`dynamicTempAllocations, alloc`tempVarPriority, func`protectedRegStr, func`memVector, func`nextId
      ensures Valid()
      ensures Snapshot() == TranslateSpec(Context(), old(Snapshot()), inst).value
    {
      if inst.op.OpNop? {
        return;
      }
      ghost var s0 := Snapshot();
      TranslateHandles(Context(), s0, inst);
      OutputIRInstruction(inst);
      assert Snapshot() == s0.(code := s0.code + IRComment(Context(), inst));
      if inst.op.OpEntry? || inst.op.OpExit? {
        DispatchFrame(inst);
      } else if inst.op.OpLabel? || inst.op.OpGoto? || inst.op.OpArg? {
        DispatchControl(inst);
      } else if inst.op.OpFuncCall? {
        DispatchCall(inst);
      } else {
        DispatchData(inst);
      }
    }

    /** `run()`: every instruction not marked dead, translated in order. */
    method Run(insts: seq<IRInst>)
      requires Valid() && CtxOk(Context()) && AllTranslatable(insts)
      requires RunSpec(Context(), Snapshot(), insts).Some?
      modifies this`realArgCount, iloc, alloc`regBitmap, alloc`usedBitmap, alloc`regValues, alloc`loadReg, alloc`dynamicTempAllocations, alloc`tempVarPriority, func`protectedRegStr, func`memVector, func`nextId
      ensures Valid()
      ensures Snapshot() == RunSpec(Context(), old(Snapshot()), insts).value
    {
      ghost var ctx := Context();
      ghost var total := RunSpec(ctx, Snapshot(), insts);
      for k := 0 to |insts|
        invariant Valid() && Context() == ctx
        invariant AllTranslatable(insts[k..])
        invariant RunSpec(ctx, Snapshot(), insts[k..]) == total
      {
        assert insts[k..][0] == insts[k] && insts[k..][1..] == insts[k + 1..];
        if !insts[k].dead {
          Translate(insts[k]);
        }
      }
      assert insts[|insts|..] == [];
    }
  }
}
