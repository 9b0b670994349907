/**
 * ARM32 instruction records and the instruction emitter of the backend
 * (`ArmInst` and `ILocArm32`).
 *
 * A record is a value: `replace` and `setDead` become functions returning the
 * updated record, and the emitter's list of records is a sequence field that
 * every emit helper extends.  Each helper is specified by a `...Code`
 * function giving exactly the records it appends; what those records compute
 * is proved against a small machine semantics in module `ArmSem`.
 *
 * `PlatformArm32` is not part of this model.  Its register names, its
 * displacement test `isDisp` and its immediate test `constExpr` are defined
 * here as the ARM-state encodings of section A8.8 of the ARMv7-A/R
 * Architecture Reference Manual describe them (LDR/STR immediate offsets of
 * 12 bits, modified immediates as an 8-bit value rotated by an even amount).
 * Comment records carry English descriptions in place of the original texts.
 */
module ArmCode {
  import opened Common
  import opened IR

  // ---------------------------------------------------------------------------
  // Platform
  // ---------------------------------------------------------------------------

  /** `ARM32_FP_REG_NO`, `ARM32_SP_REG_NO` and the reserved scratch register `ARM32_TMP_REG_NO`. */
  const FP_REG: int := 11
  const SP_REG: int := 13
  const TMP_REG: int := 10

  /** 2^32: register contents are 32-bit words. */
  const TWO32: int := 0x1_0000_0000

  /** A register number that `regName` can be indexed with. */
  predicate IsReg(k: int) {
    0 <= k < 16
  }

  predicate NoComma(s: string) {
    forall i :: 0 <= i < |s| ==> s[i] != ','
  }

  /** `PlatformArm32::regName`: r0 to r10, then fp, ip, sp, lr and pc. */
  const RegNames: seq<string> :=
    ["r0", "r1", "r2", "r3", "r4", "r5", "r6", "r7", "r8", "r9", "r10", "fp", "ip", "sp", "lr", "pc"]

  function RegName(k: int): (r: string)
    requires IsReg(k)
    ensures 2 <= |r| <= 3 && r[0] != '#' && r[0] != '[' && NoComma(r)
    ensures r[0] == 'r' <==> k <= 10
  {
    RegNames[k]
  }

  /** Different register numbers have different names. */
  lemma RegNameInjective(a: int, b: int)
    requires IsReg(a) && IsReg(b) && a != b
    ensures RegName(a) != RegName(b)
  {
  }

  /** The 32-bit pattern of an integer, read as unsigned. */
  function U32(x: int): (r: int)
    ensures 0 <= r < TWO32
  {
    x % TWO32
  }

  /** The implicit conversion of a 64-bit offset to a C++ `int` parameter. */
  function Trunc32(x: int): (r: i32)
    ensures U32(r) == U32(x)
  {
    var u := U32(x);
    if u >= 0x8000_0000 then u - TWO32 else u
  }

  /** `PlatformArm32::isDisp`: an offset the LDR/STR immediate form can encode. */
  predicate IsDisp(off: int) {
    -4096 < off < 4096
  }

  /** Rotation of a 32-bit word left by two bits. */
  function Rotl2(u: int): int
    requires 0 <= u < TWO32
  {
    (u * 4) % TWO32 + u / 0x4000_0000
  }

  function ConstExprFrom(u: int, i: nat): bool
    requires 0 <= u < TWO32
    decreases 16 - i
  {
    if i >= 16 then false
    else if u <= 0xff then true
    else ConstExprFrom(U32(Rotl2(u)), i + 1)
  }

  /** `PlatformArm32::constExpr`: the value is an 8-bit constant rotated by an even amount. */
  predicate ConstExpr(num: int) {
    ConstExprFrom(U32(num), 0)
  }

  // ---------------------------------------------------------------------------
  // Records and their rendering
  // ---------------------------------------------------------------------------

  /** One assembly record: `opcode cond result,arg1,arg2,addition`, or a label when `result` is ":". */
  datatype ArmInst = ArmInst(
    opcode: string,
    cond: string,
    result: string,
    arg1: string,
    arg2: string,
    addition: string,
    dead: bool)

  /** `ArmInst(opcode, result, arg1, arg2, cond, addition)`: a new record is live. */
  function NewInst(opcode: string, result: string, arg1: string, arg2: string, cond: string, addition: string): (i: ArmInst)
    ensures !i.dead
  {
    ArmInst(opcode, cond, result, arg1, arg2, addition, false)
  }

  /** The record built by the `emit` macro with the condition and addition defaulted. */
  function Inst(opcode: string, result: string, arg1: string, arg2: string): ArmInst {
    NewInst(opcode, result, arg1, arg2, "", "")
  }

  /** `ArmInst::replace`: every field is overwritten except the dead flag. */
  function Replace(i: ArmInst, opcode: string, result: string, arg1: string, arg2: string, cond: string, addition: string): (r: ArmInst)
    ensures r.dead == i.dead
    ensures r.(dead := false) == NewInst(opcode, result, arg1, arg2, cond, addition)
  {
    i.(opcode := opcode, result := result, arg1 := arg1, arg2 := arg2, cond := cond, addition := addition)
  }

  /** `ArmInst::setDead`: only the dead flag changes, and it becomes set. */
  function SetDead(i: ArmInst): (r: ArmInst)
    ensures r.dead && r.(dead := i.dead) == i
  {
    i.(dead := true)
  }

  /** `,x` for a non-empty operand, nothing otherwise. */
  function Field(x: string): string {
    if x == "" then "" else "," + x
  }

  /** `ArmInst::outPut`. */
  function OutPut(i: ArmInst): (s: string)
    ensures s == "" <==> i.dead || i.opcode == ""
    ensures s != "" ==> StartsWith(s, i.opcode + i.cond)
  {
    if i.dead || i.opcode == "" then ""
    else
      var head := i.opcode + i.cond;
      var res := if i.result == "" then head else if i.result == ":" then head + ":" else head + " " + i.result;
      assert StartsWith(res, head);
      var s := res + Field(i.arg1) + Field(i.arg2) + Field(i.addition);
      assert s[..|head|] == head;
      s
  }

  /** A label record renders as its name followed by a colon, with no space. */
  lemma LabelRendersWithColon(name: string)
    requires name != ""
    ensures OutPut(LabelCode(name)[0]) == name + ":"
  {
  }

  /** A three-operand record renders as `op rd,ra,rb`. */
  lemma ThreeOperandRendering(op: string, rd: string, ra: string, rb: string)
    requires op != "" && rd != "" && rd != ":" && ra != "" && rb != ""
    ensures OutPut(Inst(op, rd, ra, rb)) == op + " " + rd + "," + ra + "," + rb
  {
  }

  /** A replaced record that was dead still renders as nothing. */
  lemma ReplaceKeepsDeadSilent(i: ArmInst, opcode: string, result: string, arg1: string, arg2: string, cond: string, addition: string)
    requires i.dead
    ensures OutPut(Replace(i, opcode, result, arg1, arg2, cond, addition)) == ""
  {
  }

  /**
   * The per-record decision of `outPut(FILE*, bool)`: label records are printed
   * without a tab (even when dead, which leaves a blank line), other non-empty
   * renderings after a tab, and an empty rendering only when `outputEmpty`.
   */
  function OutputLine(i: ArmInst, outputEmpty: bool): (line: Option<string>)
    ensures i.result == ":" ==> line == Some(OutPut(i) + "\n")
    ensures i.result != ":" && (i.dead || i.opcode == "") ==> (line.Some? <==> outputEmpty)
  {
    if i.result == ":" then Some(OutPut(i) + "\n")
    else
      var s := OutPut(i);
      if s != "" then Some("\t" + s + "\n")
      else if outputEmpty then Some("\n")
      else None
  }

  /** Dead label records still print a blank line, whatever `outputEmpty` says. */
  lemma DeadLabelPrintsBlankLine(i: ArmInst, outputEmpty: bool)
    requires i.result == ":" && i.dead
    ensures OutputLine(i, outputEmpty) == Some("\n")
  {
    assert OutPut(i) == "";
    assert OutPut(i) + "\n" == "\n";
  }

  // ---------------------------------------------------------------------------
  // The record sequences each emit helper appends
  // ---------------------------------------------------------------------------

  /** `comment(str)`: a record with opcode "@". */
  function CommentInst(text: string): ArmInst {
    Inst("@", text, "", "")
  }

  /** `label(name)`. */
  function LabelCode(name: string): seq<ArmInst> {
    [Inst(name, ":", "", "")]
  }

  /** `toStr(num, flag)`: the decimal text, immediate-marked with `#` when `flag`. */
  function ToStr(num: int, flag: bool): (r: string)
    ensures StartsWith(r, "#") <==> flag
  {
    var digits := IntToString(num);
    assert digits[0] != '#';
    var r := (if flag then "#" else "") + digits;
    assert !flag ==> r[..1] == [digits[0]];
    r
  }

  /** `(c >> 16) & 0xFFFF` on a 32-bit `int` (an arithmetic shift). */
  function UpperHalf(c: i32): int {
    (c / 0x1_0000) % 0x1_0000
  }

  /** `load_imm(rs, c)`. */
  function LoadImmCode(rs: int, c: i32): (r: seq<ArmInst>)
    requires IsReg(rs)
    ensures |r| == 1 <==> 0 <= c < 0x1_0000
    ensures 1 <= |r| <= 2 && r[0].opcode == "movw" && (|r| == 2 ==> r[1].opcode == "movt")
  {
    var movw := Inst("movw", RegName(rs), "#:lower16:" + IntToString(c), "");
    if UpperHalf(c) == 0 then [movw]
    else [movw, Inst("movt", RegName(rs), "#:upper16:" + IntToString(c), "")]
  }

  /** `load_symbol(rs, name)`: both halves of the symbol's address. */
  function LoadSymbolCode(rs: int, name: string): seq<ArmInst>
    requires IsReg(rs)
  {
    [Inst("movw", RegName(rs), "#:lower16:" + name, ""), Inst("movt", RegName(rs), "#:upper16:" + name, "")]
  }

  /** A memory operand `[base]` or `[base,disp]`. */
  function AddrOperand(base: string, disp: string): string {
    "[" + base + (if disp == "" then "" else "," + disp) + "]"
  }

  /** `load_base(rs, b, off)`. */
  function LoadBaseCode(rs: int, b: int, off: i32): (r: seq<ArmInst>)
    requires IsReg(rs) && IsReg(b)
    ensures |r| == 1 <==> IsDisp(off)
    ensures |r| >= 1 && r[|r| - 1].opcode == "ldr"
  {
    if IsDisp(off) then
      [Inst("ldr", RegName(rs), AddrOperand(RegName(b), if off != 0 then ToStr(off, true) else ""), "")]
    else
      LoadImmCode(rs, off) + [Inst("ldr", RegName(rs), AddrOperand(RegName(b), RegName(rs)), "")]
  }

  /** `store_base(src, b, off, tmp)`: a far offset goes through the scratch register. */
  function StoreBaseCode(src: int, b: int, off: i32, tmp: int): (r: seq<ArmInst>)
    requires IsReg(src) && IsReg(b) && IsReg(tmp)
    ensures |r| == 1 <==> IsDisp(off)
    ensures |r| >= 1 && r[|r| - 1].opcode == "str"
  {
    if IsDisp(off) then
      [Inst("str", RegName(src), AddrOperand(RegName(b), if off != 0 then ToStr(off, true) else ""), "")]
    else
      LoadImmCode(tmp, off) + [Inst("str", RegName(src), AddrOperand(RegName(b), RegName(tmp)), "")]
  }

  /** `mov_reg(rd, rs)`. */
  function MovRegCode(rd: int, rs: int): seq<ArmInst>
    requires IsReg(rd) && IsReg(rs)
  {
    [Inst("mov", RegName(rd), RegName(rs), "")]
  }

  /** `getMemoryAddr` succeeds with a base register and an offset other than -1. */
  predicate HasValidAddr(v: Value) {
    v.addr.Some? && v.addr.value.base != -1 && v.addr.value.offset != -1
  }

  /** The registers a value names are ones `regName` can be indexed with. */
  predicate RegsInRange(v: Value, loadReg: int) {
    (loadReg == -1 || IsReg(loadReg))
    && (v.regId == -1 || IsReg(v.regId))
    && (v.addr.Some? && v.addr.value.base != -1 ==> IsReg(v.addr.value.base))
  }

  /** `load_var(rs, v)`, with `loadReg` the load register the allocator records for `v`. */
  function LoadVarCode(rs: int, v: Value, loadReg: int): seq<ArmInst>
    requires IsReg(rs) && RegsInRange(v, loadReg)
  {
    if v.kind.ConstInt? then LoadImmCode(rs, v.kind.val)
    else if loadReg != -1 then (if loadReg != rs then MovRegCode(rs, loadReg) else [])
    else if v.regId != -1 then (if v.regId != rs then MovRegCode(rs, v.regId) else [])
    else if v.kind.GlobalVar? then
      LoadSymbolCode(rs, v.name)
      + (if v.ty.ArrayTy? then [CommentInst("global array: its address")]
         else [CommentInst("global variable: its value"), Inst("ldr", RegName(rs), AddrOperand(RegName(rs), ""), "")])
    else if HasValidAddr(v) then LoadBaseCode(rs, v.addr.value.base, Trunc32(v.addr.value.offset))
    else [CommentInst("warning: " + v.name + " has no valid address, loading 0")] + LoadImmCode(rs, 0)
  }

  /** `leaStack(rs, b, off)`: `add rs,b,#off` when `off` is an immediate, else through `rs`. */
  function LeaStackCode(rs: int, b: int, off: i32): (r: seq<ArmInst>)
    requires IsReg(rs) && IsReg(b)
    ensures |r| >= 1 && r[|r| - 1].opcode == "add"
  {
    if ConstExpr(off) then [Inst("add", RegName(rs), RegName(b), ToStr(off, true))]
    else LoadImmCode(rs, off) + [Inst("add", RegName(rs), RegName(b), RegName(rs))]
  }

  /** `lea_var(rs, v)`: the address of a global symbol, or of a stack slot. */
  function LeaVarCode(rs: int, v: Value): seq<ArmInst>
    requires IsReg(rs) && (v.kind.GlobalVar? || (v.addr.Some? && IsReg(v.addr.value.base)))
  {
    if v.kind.GlobalVar? then [CommentInst("address of global " + v.name)] + LoadSymbolCode(rs, v.name)
    else [CommentInst("address of a local variable")] + LeaStackCode(rs, v.addr.value.base, Trunc32(v.addr.value.offset))
  }

  /** `store_var(src, v, tmp)`, with `loadReg` the load register the allocator records for `v`. */
  function StoreVarCode(src: int, v: Value, loadReg: int, tmp: int): seq<ArmInst>
    requires IsReg(src) && IsReg(tmp) && RegsInRange(v, loadReg)
  {
    if loadReg != -1 then (if src != loadReg then MovRegCode(loadReg, src) else [])
    else if v.regId != -1 then (if src != v.regId then MovRegCode(v.regId, src) else [])
    else if v.kind.GlobalVar? then
      LoadSymbolCode(tmp, v.name) + [Inst("str", RegName(src), AddrOperand(RegName(tmp), ""), "")]
    else if HasValidAddr(v) then StoreBaseCode(src, v.addr.value.base, Trunc32(v.addr.value.offset), tmp)
    else [CommentInst("temporary " + v.name + " has no memory address"), CommentInst("store of " + v.name + " skipped")]
  }

  /** The destination of `store_var` is neither a register nor a memory slot: nothing but comments. */
  lemma StoreVarWithoutLocationEmitsComments(src: int, v: Value, tmp: int)
    requires IsReg(src) && IsReg(tmp) && RegsInRange(v, -1)
    requires v.regId == -1 && !v.kind.GlobalVar? && !HasValidAddr(v)
    ensures forall i :: 0 <= i < |StoreVarCode(src, v, -1, tmp)| ==> StoreVarCode(src, v, -1, tmp)[i].opcode == "@"
  {
  }

  // ---------------------------------------------------------------------------
  // Frame allocation
  // ---------------------------------------------------------------------------

  /** The locals `allocStack` gives no frame space: unnamed ones, and names containing "tmp" or starting with 't'. */
  predicate SkippedInFrame(v: Value) {
    v.name == "" || Contains(v.name, "tmp") || StartsWith(v.name, "t")
  }

  function SlotBytes(v: Value): int {
    if v.ty.ArrayTy? then ArrayBytes(v.ty) else 4
  }

  /** Bytes of the locals that `allocStack` counts. */
  function LocalBytes(vars: seq<Value>): int {
    if |vars| == 0 then 0
    else LocalBytes(vars[..|vars| - 1]) + (if SkippedInFrame(vars[|vars| - 1]) then 0 else SlotBytes(vars[|vars| - 1]))
  }

  /** `(x + 15) & ~15`. */
  function Align16(x: int): int {
    (x + 15) / 16 * 16
  }

  /** The frame size `allocStack` reserves: the counted locals plus 32 spill bytes, 16-aligned. */
  function FrameBytes(vars: seq<Value>): int {
    Align16(LocalBytes(vars) + 32)
  }

  predicate ArraySizesNonNegative(vars: seq<Value>) {
    forall i :: 0 <= i < |vars| && vars[i].ty.ArrayTy? ==> ArrayBytes(vars[i].ty) >= 0
  }

  lemma {:induction false} LocalBytesNonNegative(vars: seq<Value>)
    requires ArraySizesNonNegative(vars)
    ensures LocalBytes(vars) >= 0
  {
    if |vars| > 0 {
      LocalBytesNonNegative(vars[..|vars| - 1]);
    }
  }

  /**
   * The frame is at least 32 bytes, 16-aligned, and covers the counted locals
   * with fewer than 16 bytes of padding; so the `size == 0` branch cannot be taken.
   */
  lemma FrameBytesBounds(vars: seq<Value>)
    requires ArraySizesNonNegative(vars)
    ensures FrameBytes(vars) >= 32 && FrameBytes(vars) % 16 == 0
    ensures LocalBytes(vars) + 32 <= FrameBytes(vars) < LocalBytes(vars) + 48
  {
    LocalBytesNonNegative(vars);
  }

  /** The comment `allocStack` writes for one local. */
  function VarComment(v: Value): ArmInst {
    if SkippedInFrame(v) then CommentInst("skipping temporary " + v.name)
    else if v.ty.ArrayTy? then CommentInst("array " + v.name + ": " + IntToString(ArrayBytes(v.ty)) + " bytes")
    else CommentInst("local variable " + v.name + ": 4 bytes")
  }

  function VarComments(vars: seq<Value>): (r: seq<ArmInst>)
    ensures |r| == |vars|
  {
    if |vars| == 0 then [] else VarComments(vars[..|vars| - 1]) + [VarComment(vars[|vars| - 1])]
  }

  /** `sub sp,sp,#size`, or through the scratch register when `size` is not an immediate. */
  function SubSpCode(size: i32, tmp: int): seq<ArmInst>
    requires IsReg(tmp)
  {
    if ConstExpr(size) then [Inst("sub", "sp", "sp", ToStr(size, true))]
    else LoadImmCode(tmp, size) + [Inst("sub", "sp", "sp", RegName(tmp))]
  }

  /** The part of `allocStack` after the size is known. */
  function ReserveCode(size: i32, tmp: int): seq<ArmInst>
    requires IsReg(tmp)
  {
    [CommentInst("spill space: 32 bytes"), CommentInst("frame size: " + IntToString(size) + " bytes")]
    + (if size == 0 then [CommentInst("no stack space needed")]
       else MovRegCode(FP_REG, SP_REG) + SubSpCode(size, tmp) + [CommentInst("frame allocated"), CommentInst("stack frame end")])
  }

  /** `allocStack(func, tmp)` for a function named `fname` with locals `vars`. */
  function AllocStackCode(fname: string, vars: seq<Value>, tmp: int): seq<ArmInst>
    requires IsReg(tmp) && -0x8000_0000 <= FrameBytes(vars) < 0x8000_0000
  {
    [CommentInst("stack frame begin"), CommentInst("function " + fname + ", variables: " + NatToString(|vars|))]
    + VarComments(vars) + ReserveCode(FrameBytes(vars), tmp)
  }

  // ---------------------------------------------------------------------------
  // Calls, jumps and array addressing
  // ---------------------------------------------------------------------------

  /** `call_fun(name)`. */
  function CallFunCode(name: string): seq<ArmInst> {
    [Inst("bl", name, "", "")]
  }

  /** `nop()`: an empty record, which renders as nothing. */
  function NopCode(): (r: seq<ArmInst>)
    ensures |r| == 1 && OutPut(r[0]) == ""
  {
    [Inst("", "", "", "")]
  }

  /** `jump(target)`. */
  function JumpCode(target: string): seq<ArmInst> {
    [Inst("b", target, "", "")]
  }

  /** `calc_array_addr(rs, b, idx, size, tmp)`: element sizes 1, 4 and 8 need no multiplication. */
  function CalcArrayAddrCode(rs: int, b: int, idx: int, size: i32, tmp: int): (r: seq<ArmInst>)
    requires IsReg(rs) && IsReg(b) && IsReg(idx) && IsReg(tmp)
    ensures |r| == 2 <==> size == 1 || size == 4 || size == 8
    ensures |r| > 2 ==> r[|r| - 2].opcode == "mul"
  {
    [CommentInst("array element address: base + index * " + IntToString(size))]
    + (if size == 1 then [Inst("add", RegName(rs), RegName(b), RegName(idx))]
       else if size == 4 then [Inst("add", RegName(rs), RegName(b), RegName(idx) + ", lsl #2")]
       else if size == 8 then [Inst("add", RegName(rs), RegName(b), RegName(idx) + ", lsl #3")]
       else LoadImmCode(tmp, size) + [Inst("mul", RegName(tmp), RegName(idx), RegName(tmp)), Inst("add", RegName(rs), RegName(b), RegName(tmp))])
  }

  /** The multiplier of step `i` of `calc_multi_array_addr`: the product of the dimensions after `i`. */
  function Multiplier(dims: seq<int>, i: nat): int {
    if i + 1 <= |dims| then Product(dims[i + 1..]) else 1
  }

  /** The multipliers of the first `n` steps fit in an `int`. */
  predicate MultipliersFit(dims: seq<int>, n: nat) {
    forall i :: 0 <= i < n ==> -0x8000_0000 <= Multiplier(dims, i) < 0x8000_0000
  }

  predicate AllRegs(rs: seq<int>) {
    forall i :: 0 <= i < |rs| ==> IsReg(rs[i])
  }

  /** Step `i` of the loop: multiply the running index, then add the next index register. */
  function MultiStepCode(rs: int, idx: seq<int>, dims: seq<int>, tmp1: int, i: nat): seq<ArmInst>
    requires IsReg(rs) && IsReg(tmp1) && AllRegs(idx) && i < |idx| && MultipliersFit(dims, |idx|)
  {
    LoadImmCode(tmp1, Multiplier(dims, i))
    + [Inst("mul", RegName(rs), RegName(rs), RegName(tmp1))]
    + (if i + 1 < |idx| then [Inst("add", RegName(rs), RegName(rs), RegName(idx[i + 1]))] else [])
  }

  /** Steps `0 .. k-1` of the loop. */
  function MultiStepsCode(rs: int, idx: seq<int>, dims: seq<int>, tmp1: int, k: nat): seq<ArmInst>
    requires IsReg(rs) && IsReg(tmp1) && AllRegs(idx) && k < |idx| && MultipliersFit(dims, |idx|)
  {
    if k == 0 then [] else MultiStepsCode(rs, idx, dims, tmp1, k - 1) + MultiStepCode(rs, idx, dims, tmp1, k - 1)
  }

  /** Scaling by the element size: shifts for 4 and 8, nothing for 1, a multiplication otherwise. */
  function ScaleCode(rs: int, size: i32, tmp1: int): seq<ArmInst>
    requires IsReg(rs) && IsReg(tmp1)
  {
    if size == 4 then [Inst("lsl", RegName(rs), RegName(rs), "#2")]
    else if size == 8 then [Inst("lsl", RegName(rs), RegName(rs), "#3")]
    else if size != 1 then LoadImmCode(tmp1, size) + [Inst("mul", RegName(rs), RegName(rs), RegName(tmp1))]
    else []
  }

  /** `calc_multi_array_addr(rs, b, idx, dims, size, tmp1, tmp2)`; the index list must not be empty. */
  function MultiArrayAddrCode(rs: int, b: int, idx: seq<int>, dims: seq<int>, size: i32, tmp1: int): seq<ArmInst>
    requires IsReg(rs) && IsReg(b) && IsReg(tmp1) && AllRegs(idx) && |idx| >= 1 && MultipliersFit(dims, |idx|)
  {
    [CommentInst("multi-dimensional array element address")]
    + MovRegCode(rs, idx[0])
    + MultiStepsCode(rs, idx, dims, tmp1, |idx| - 1)
    + ScaleCode(rs, size, tmp1)
    + [Inst("add", RegName(rs), RegName(b), RegName(rs))]
  }

  /** The linear index the loop computes: `r = i0`, then `r = r * multiplier(i) + i(i+1)`. */
  function LinearIndex(ivals: seq<int>, dims: seq<int>, k: nat): int
    requires k < |ivals|
  {
    if k == 0 then ivals[0] else LinearIndex(ivals, dims, k - 1) * Multiplier(dims, k - 1) + ivals[k]
  }

  /** Row-major linear index of `ivals` in an array of shape `dims`. */
  function RowMajor(ivals: seq<int>, dims: seq<int>): int
    requires |ivals| == |dims|
    decreases |ivals|
  {
    if |ivals| == 0 then 0 else RowMajor(ivals[..|ivals| - 1], dims[..|dims| - 1]) * dims[|dims| - 1] + ivals[|ivals| - 1]
  }

  /** For a two-dimensional array the loop computes `i0 * d1 + i1`, the row-major index. */
  lemma MultiArrayTwoDimensional(ivals: seq<int>, dims: seq<int>)
    requires |ivals| == 2 && |dims| == 2
    ensures LinearIndex(ivals, dims, 1) == ivals[0] * dims[1] + ivals[1]
    ensures LinearIndex(ivals, dims, 1) == RowMajor(ivals, dims)
  {
    assert dims[1..] == [dims[1]];
    assert Product([dims[1]]) == dims[1] by {
      assert [dims[1]][..0] == [];
    }
    assert RowMajor(ivals[..1], dims[..1]) == ivals[0] by {
      assert ivals[..1][..0] == [] && dims[..1][..0] == [];
      assert RowMajor(ivals[..1][..0], dims[..1][..0]) == 0;
    }
  }

  /** From three dimensions on the loop is not row-major: index (1,0,0) of a 2x2x2 array lands on 8, not 4. */
  lemma MultiArrayThreeDimensionalNotRowMajor()
    ensures LinearIndex([1, 0, 0], [2, 2, 2], 2) == 8
    ensures RowMajor([1, 0, 0], [2, 2, 2]) == 4
  {
    var d := [2, 2, 2];
    assert d[1..] == [2, 2] && d[2..] == [2];
    assert Product([2]) == 2 by {
      assert [2][..0] == [];
    }
    assert Product([2, 2]) == 4 by {
      assert [2, 2][..1] == [2];
    }
    var i := [1, 0, 0];
    assert i[..2] == [1, 0] && d[..2] == [2, 2];
    assert RowMajor([1], [2]) == 1 by {
      assert [1][..0] == [] && [2][..0] == [];
      assert RowMajor([1][..0], [2][..0]) == 0;
    }
    assert RowMajor([1, 0], [2, 2]) == 2 by {
      assert [1, 0][..1] == [1] && [2, 2][..1] == [2];
    }
  }

  /**
   * The multiplier the row-major formula in the comment of
   * `calc_multi_array_addr` calls for at step `i`: the next dimension alone,
   * the later ones being applied by the later steps.
   */
  function CorrectedMultiplier(dims: seq<int>, i: nat): int {
    if i + 1 < |dims| then dims[i + 1] else 1
  }

  /** The linear index of the loop with the corrected multipliers. */
  function CorrectedLinearIndex(ivals: seq<int>, dims: seq<int>, k: nat): int
    requires k < |ivals|
  {
    if k == 0 then ivals[0] else CorrectedLinearIndex(ivals, dims, k - 1) * CorrectedMultiplier(dims, k - 1) + ivals[k]
  }

  /** With the corrected multipliers the first `k + 1` steps give the row-major index of the first `k + 1` indices. */
  lemma {:induction false} CorrectedLinearIsRowMajor(ivals: seq<int>, dims: seq<int>, k: nat)
    requires |ivals| == |dims| && k < |ivals|
    ensures CorrectedLinearIndex(ivals, dims, k) == RowMajor(ivals[..k + 1], dims[..k + 1])
  {
    var iv := ivals[..k + 1];
    var ds := dims[..k + 1];
    assert iv[..|iv| - 1] == ivals[..k] && ds[..|ds| - 1] == dims[..k];
    if k == 0 {
      assert ivals[..0] == [] && dims[..0] == [];
      assert RowMajor(ivals[..0], dims[..0]) == 0;
    } else {
      CorrectedLinearIsRowMajor(ivals, dims, k - 1);
    }
  }

  /** A full index list gives the row-major index, for every shape and every number of dimensions. */
  lemma CorrectedMultiArrayIsRowMajor(ivals: seq<int>, dims: seq<int>)
    requires |ivals| == |dims| >= 1
    ensures CorrectedLinearIndex(ivals, dims, |ivals| - 1) == RowMajor(ivals, dims)
  {
    CorrectedLinearIsRowMajor(ivals, dims, |ivals| - 1);
    assert ivals[..|ivals|] == ivals && dims[..|dims|] == dims;
  }

  /** The correction changes nothing for two dimensions, where the source is right. */
  lemma CorrectedAgreesOnTwoDimensions(ivals: seq<int>, dims: seq<int>)
    requires |ivals| == 2 && |dims| == 2
    ensures CorrectedLinearIndex(ivals, dims, 1) == LinearIndex(ivals, dims, 1)
  {
    MultiArrayTwoDimensional(ivals, dims);
    CorrectedMultiArrayIsRowMajor(ivals, dims);
  }

  /** `load_array_element(rs, addr)`. */
  function LoadArrayElementCode(rs: int, addr: int): seq<ArmInst>
    requires IsReg(rs) && IsReg(addr)
  {
    [CommentInst("load array element"), Inst("ldr", RegName(rs), AddrOperand(RegName(addr), ""), "")]
  }

  /** `store_array_element(src, addr)`. */
  function StoreArrayElementCode(src: int, addr: int): seq<ArmInst>
    requires IsReg(src) && IsReg(addr)
  {
    [CommentInst("store array element"), Inst("str", RegName(src), AddrOperand(RegName(addr), ""), "")]
  }

  /** `lsl_imm(rs, src, k)`. */
  function LslImmCode(rs: int, src: int, k: int): seq<ArmInst>
    requires IsReg(rs) && IsReg(src)
  {
    [Inst("lsl", RegName(rs), RegName(src), "#" + IntToString(k))]
  }

  /** The offsets `load/store_array_static` address directly. */
  predicate StaticInRange(off: int) {
    -4095 <= off <= 4095
  }

  /** `load_array_static(rs, b, off)`. */
  function LoadArrayStaticCode(rs: int, b: int, off: i32): (r: seq<ArmInst>)
    requires IsReg(rs) && IsReg(b)
    ensures |r| == 2 <==> StaticInRange(off)
  {
    [CommentInst("static array access at offset " + IntToString(off) + " from " + RegName(b))]
    + (if StaticInRange(off) then [Inst("ldr", RegName(rs), AddrOperand(RegName(b), ToStr(off, true)), "")]
       else LoadImmCode(rs, off) + [Inst("add", RegName(rs), RegName(b), RegName(rs)), Inst("ldr", RegName(rs), AddrOperand(RegName(rs), ""), "")])
  }

  /** `store_array_static(src, b, off, tmp)`. */
  function StoreArrayStaticCode(src: int, b: int, off: i32, tmp: int): (r: seq<ArmInst>)
    requires IsReg(src) && IsReg(b) && IsReg(tmp)
    ensures |r| == 2 <==> StaticInRange(off)
  {
    [CommentInst("static array store at offset " + IntToString(off) + " from " + RegName(b))]
    + (if StaticInRange(off) then [Inst("str", RegName(src), AddrOperand(RegName(b), ToStr(off, true)), "")]
       else LoadImmCode(tmp, off) + [Inst("add", RegName(tmp), RegName(b), RegName(tmp)), Inst("str", RegName(src), AddrOperand(RegName(tmp), ""), "")])
  }

  /** `load_array_dynamic(rs, b, offReg)`. */
  function LoadArrayDynamicCode(rs: int, b: int, offReg: int): seq<ArmInst>
    requires IsReg(rs) && IsReg(b) && IsReg(offReg)
  {
    [CommentInst("dynamic array access: " + RegName(b) + "+" + RegName(offReg)),
     Inst("add", RegName(rs), RegName(b), RegName(offReg)),
     Inst("ldr", RegName(rs), AddrOperand(RegName(rs), ""), "")]
  }

  /** `store_array_dynamic(src, b, offReg)`: the offset register is overwritten with the address. */
  function StoreArrayDynamicCode(src: int, b: int, offReg: int): seq<ArmInst>
    requires IsReg(src) && IsReg(b) && IsReg(offReg)
  {
    [CommentInst("dynamic array store: " + RegName(b) + "+" + RegName(offReg)),
     Inst("add", RegName(offReg), RegName(b), RegName(offReg)),
     Inst("str", RegName(src), AddrOperand(RegName(offReg), ""), "")]
  }

  // ---------------------------------------------------------------------------
  // Dead-label elimination
  // ---------------------------------------------------------------------------

  /** A live label record: opcode starting with '.', result ":". */
  predicate IsLabelInst(i: ArmInst) {
    !i.dead && StartsWith(i.opcode, ".") && i.result == ":"
  }

  /** A live record whose opcode starts with 'b' and whose result is `l`. */
  predicate IsBranchTo(i: ArmInst, l: string) {
    !i.dead && StartsWith(i.opcode, "b") && i.result == l
  }

  predicate Targeted(c: seq<ArmInst>, l: string) {
    exists j :: 0 <= j < |c| && IsBranchTo(c[j], l)
  }

  /** The record at `k` after `deleteUnusedLabel`. */
  function PruneAt(c: seq<ArmInst>, k: int): ArmInst
    requires 0 <= k < |c|
  {
    if IsLabelInst(c[k]) && !Targeted(c, c[k].opcode) then SetDead(c[k]) else c[k]
  }

  /** The code after `deleteUnusedLabel`: live labels no live branch names are marked dead. */
  function PruneLabels(c: seq<ArmInst>): (r: seq<ArmInst>)
    ensures |r| == |c|
  {
    seq(|c|, k requires 0 <= k < |c| => PruneAt(c, k))
  }

  /** Pruning changes only dead flags, and only from clear to set. */
  lemma PruneOnlyKills(c: seq<ArmInst>)
    ensures forall k :: 0 <= k < |c| ==> PruneLabels(c)[k].(dead := c[k].dead) == c[k]
    ensures forall k :: 0 <= k < |c| && c[k].dead ==> PruneLabels(c)[k].dead
    ensures forall k :: 0 <= k < |c| && !IsLabelInst(c[k]) ==> PruneLabels(c)[k] == c[k]
  {
  }

  /** Pruning leaves every branch record as it was, so the same labels stay targeted. */
  lemma PruneKeepsTargets(c: seq<ArmInst>, l: string)
    ensures Targeted(PruneLabels(c), l) <==> Targeted(c, l)
  {
    var r := PruneLabels(c);
    if Targeted(c, l) {
      var j :| 0 <= j < |c| && IsBranchTo(c[j], l);
      assert !IsLabelInst(c[j]);
      assert r[j] == c[j];
    }
    if Targeted(r, l) {
      var j :| 0 <= j < |r| && IsBranchTo(r[j], l);
      assert r[j] == c[j];
    }
  }

  /** A label that a live jump names survives pruning. */
  lemma PruneKeepsJumpTarget(c: seq<ArmInst>, j: int, k: int)
    requires 0 <= j < |c| && 0 <= k < |c| && IsLabelInst(c[k])
    requires c[j] == JumpCode(c[k].opcode)[0]
    ensures !PruneLabels(c)[k].dead
  {
    assert IsBranchTo(c[j], c[k].opcode);
  }

  /** Pruning twice is pruning once. */
  lemma PruneIdempotent(c: seq<ArmInst>)
    ensures PruneLabels(PruneLabels(c)) == PruneLabels(c)
  {
    var r := PruneLabels(c);
    forall k | 0 <= k < |r|
      ensures PruneAt(r, k) == r[k]
    {
      if IsLabelInst(r[k]) {
        assert r[k] == c[k];
        PruneKeepsTargets(c, c[k].opcode);
      }
    }
  }

  /** The inner loop of `calc_multi_array_addr`: `multiplier *= dims[j]` for `j > i`. */
  method ComputeMultiplier(dims: seq<int>, i: nat) returns (multiplier: int)
    ensures multiplier == Multiplier(dims, i)
  {
    multiplier := 1;
    var j := i + 1;
    while j < |dims|
      invariant i + 1 <= j && (i + 1 <= |dims| ==> j <= |dims|)
      invariant multiplier == if i + 1 <= |dims| then Product(dims[i + 1..j]) else 1
    {
      assert dims[i + 1..j + 1][..j - i - 1] == dims[i + 1..j];
      multiplier := multiplier * dims[j];
      j := j + 1;
    }
    if i + 1 <= |dims| {
      assert dims[i + 1..j] == dims[i + 1..];
    }
  }

  // ---------------------------------------------------------------------------
  // The emitter object
  // ---------------------------------------------------------------------------

  /** `ILocArm32`: the list of records emitted so far. */
  class ILoc {
    var code: seq<ArmInst>

    constructor()
      ensures code == []
    {
      code := [];
    }

    /** The `emit` macro. */
    method Emit(i: ArmInst)
      modifies this
      ensures code == old(code) + [i]
    {
      code := code + [i];
    }

    /** Two records in a row. */
    method Emit2(i: ArmInst, j: ArmInst)
      modifies this
      ensures code == old(code) + [i, j]
    {
      Emit(i);
      Emit(j);
      assert old(code) + [i] + [j] == old(code) + [i, j];
    }

    /** `label(name)`. */
    method Label(name: string)
      modifies this
      ensures code == old(code) + LabelCode(name)
    {
      Emit(Inst(name, ":", "", ""));
    }

    /** `inst(op, rs)`, `inst(op, rs, arg1)` and `inst(op, rs, arg1, arg2)`; absent operands are "". */
    method Instr(op: string, rs: string, arg1: string, arg2: string)
      modifies this
      ensures code == old(code) + [Inst(op, rs, arg1, arg2)]
    {
      Emit(Inst(op, rs, arg1, arg2));
    }

    /** `comment(str)`. */
    method Comment(text: string)
      modifies this
      ensures code == old(code) + [CommentInst(text)]
    {
      Emit(CommentInst(text));
    }

    /** `load_imm(rs, c)`. */
    method LoadImm(rs: int, c: i32)
      requires IsReg(rs)
      modifies this
      ensures code == old(code) + LoadImmCode(rs, c)
    {
      var movw := Inst("movw", RegName(rs), "#:lower16:" + IntToString(c), "");
      if UpperHalf(c) == 0 {
        Emit(movw);
      } else {
        Emit2(movw, Inst("movt", RegName(rs), "#:upper16:" + IntToString(c), ""));
      }
    }

    /** `load_symbol(rs, name)`. */
    method LoadSymbol(rs: int, name: string)
      requires IsReg(rs)
      modifies this
      ensures code == old(code) + LoadSymbolCode(rs, name)
    {
      Emit2(Inst("movw", RegName(rs), "#:lower16:" + name, ""), Inst("movt", RegName(rs), "#:upper16:" + name, ""));
    }

    /** `load_base(rs, b, off)`. */
    method LoadBase(rs: int, b: int, off: i32)
      requires IsReg(rs) && IsReg(b)
      modifies this
      ensures code == old(code) + LoadBaseCode(rs, b, off)
    {
      var rsReg := RegName(rs);
      var base := RegName(b);
      var disp := "";
      if IsDisp(off) {
        if off != 0 {
          disp := ToStr(off, true);
        }
      } else {
        LoadImm(rs, off);
        disp := rsReg;
      }
      Emit(Inst("ldr", rsReg, AddrOperand(base, disp), ""));
    }

    /** `store_base(src, b, off, tmp)`. */
    method StoreBase(src: int, b: int, off: i32, tmp: int)
      requires IsReg(src) && IsReg(b) && IsReg(tmp)
      modifies this
      ensures code == old(code) + StoreBaseCode(src, b, off, tmp)
    {
      var base := RegName(b);
      var disp := "";
      if IsDisp(off) {
        if off != 0 {
          disp := ToStr(off, true);
        }
      } else {
        LoadImm(tmp, off);
        disp := RegName(tmp);
      }
      Emit(Inst("str", RegName(src), AddrOperand(base, disp), ""));
    }

    /** `mov_reg(rd, rs)`. */
    method MovReg(rd: int, rs: int)
      requires IsReg(rd) && IsReg(rs)
      modifies this
      ensures code == old(code) + MovRegCode(rd, rs)
    {
      Emit(Inst("mov", RegName(rd), RegName(rs), ""));
    }

    /** `load_var(rs, v)`. */
    method LoadVar(rs: int, v: Value, loadReg: int)
      requires IsReg(rs) && RegsInRange(v, loadReg)
      modifies this
      ensures code == old(code) + LoadVarCode(rs, v, loadReg)
    {
      ghost var c0 := code;
      if v.kind.ConstInt? {
        LoadImm(rs, v.kind.val);
      } else if loadReg != -1 {
        if loadReg != rs {
          MovReg(rs, loadReg);
        }
      } else if v.regId != -1 {
        if v.regId != rs {
          MovReg(rs, v.regId);
        }
      } else if v.kind.GlobalVar? {
        LoadSymbol(rs, v.name);
        ghost var c1 := code;
        if v.ty.ArrayTy? {
          Comment("global array: its address");
          AppendAssoc(c0, LoadSymbolCode(rs, v.name), [CommentInst("global array: its address")]);
        } else {
          ghost var tail := [CommentInst("global variable: its value"), Inst("ldr", RegName(rs), AddrOperand(RegName(rs), ""), "")];
          Emit2(CommentInst("global variable: its value"), Inst("ldr", RegName(rs), AddrOperand(RegName(rs), ""), ""));
          AppendAssoc(c0, LoadSymbolCode(rs, v.name), tail);
        }
      } else if HasValidAddr(v) {
        LoadBase(rs, v.addr.value.base, Trunc32(v.addr.value.offset));
      } else {
        ghost var warn := [CommentInst("warning: " + v.name + " has no valid address, loading 0")];
        Comment("warning: " + v.name + " has no valid address, loading 0");
        LoadImm(rs, 0);
        AppendAssoc(c0, warn, LoadImmCode(rs, 0));
      }
    }

    /** `lea_var(rs, v)`. */
    method LeaVar(rs: int, v: Value)
      requires IsReg(rs) && (v.kind.GlobalVar? || (v.addr.Some? && IsReg(v.addr.value.base)))
      modifies this
      ensures code == old(code) + LeaVarCode(rs, v)
    {
      ghost var c0 := code;
      if v.kind.GlobalVar? {
        Comment("address of global " + v.name);
        LoadSymbol(rs, v.name);
        AppendAssoc(c0, [CommentInst("address of global " + v.name)], LoadSymbolCode(rs, v.name));
        return;
      }
      Comment("address of a local variable");
      LeaStack(rs, v.addr.value.base, Trunc32(v.addr.value.offset));
      AppendAssoc(c0, [CommentInst("address of a local variable")], LeaStackCode(rs, v.addr.value.base, Trunc32(v.addr.value.offset)));
    }

    /** `store_var(src, v, tmp)`. */
    method StoreVar(src: int, v: Value, loadReg: int, tmp: int)
      requires IsReg(src) && IsReg(tmp) && RegsInRange(v, loadReg)
      modifies this
      ensures code == old(code) + StoreVarCode(src, v, loadReg, tmp)
    {
      ghost var c0 := code;
      if loadReg != -1 {
        if src != loadReg {
          MovReg(loadReg, src);
        }
      } else if v.regId != -1 {
        if src != v.regId {
          MovReg(v.regId, src);
        }
      } else if v.kind.GlobalVar? {
        LoadSymbol(tmp, v.name);
        Emit(Inst("str", RegName(src), AddrOperand(RegName(tmp), ""), ""));
        AppendAssoc(c0, LoadSymbolCode(tmp, v.name), [Inst("str", RegName(src), AddrOperand(RegName(tmp), ""), "")]);
      } else if HasValidAddr(v) {
        StoreBase(src, v.addr.value.base, Trunc32(v.addr.value.offset), tmp);
      } else {
        Emit2(CommentInst("temporary " + v.name + " has no memory address"), CommentInst("store of " + v.name + " skipped"));
      }
    }

    /** `leaStack(rs, b, off)`. */
    method LeaStack(rs: int, b: int, off: i32)
      requires IsReg(rs) && IsReg(b)
      modifies this
      ensures code == old(code) + LeaStackCode(rs, b, off)
    {
      if ConstExpr(off) {
        Emit(Inst("add", RegName(rs), RegName(b), ToStr(off, true)));
      } else {
        ghost var c0 := code;
        LoadImm(rs, off);
        Emit(Inst("add", RegName(rs), RegName(b), RegName(rs)));
        AppendAssoc(c0, LoadImmCode(rs, off), [Inst("add", RegName(rs), RegName(b), RegName(rs))]);
      }
    }

    /** `allocStack(func, tmp)`: the size loop over the locals, then the frame set-up. */
    method AllocStack(fname: string, vars: seq<Value>, tmp: int)
      requires IsReg(tmp) && -0x8000_0000 <= FrameBytes(vars) < 0x8000_0000
      modifies this
      ensures code == old(code) + AllocStackCode(fname, vars, tmp)
    {
      ghost var c0 := code;
      ghost var h := [CommentInst("stack frame begin"), CommentInst("function " + fname + ", variables: " + NatToString(|vars|))];
      Emit2(CommentInst("stack frame begin"), CommentInst("function " + fname + ", variables: " + NatToString(|vars|)));
      ghost var c1 := code;
      assert c1 == c0 + h;
      var size := CountLocals(vars);
      ghost var v := VarComments(vars);
      ghost var c2 := code;
      assert c2 == c1 + v;
      size := size + 32;
      size := Align16(size);
      assert size == FrameBytes(vars);
      Reserve(size, tmp);
      ghost var r := ReserveCode(size, tmp);
      assert code == c2 + r;
      AppendAssoc(c0, h, v);
      AppendAssoc(c0, h + v, r);
    }

    /** The loop of `allocStack` summing the sizes of the counted locals. */
    method CountLocals(vars: seq<Value>) returns (size: int)
      modifies this
      ensures size == LocalBytes(vars)
      ensures code == old(code) + VarComments(vars)
    {
      size := 0;
      var i := 0;
      while i < |vars|
        invariant 0 <= i <= |vars|
        invariant size == LocalBytes(vars[..i])
        invariant code == old(code) + VarComments(vars[..i])
      {
        var v := vars[i];
        assert vars[..i + 1][..i] == vars[..i];
        ghost var c1 := code;
        if SkippedInFrame(v) {
          Comment("skipping temporary " + v.name);
        } else if v.ty.ArrayTy? {
          var arraySize := ArrayBytes(v.ty);
          size := size + arraySize;
          Comment("array " + v.name + ": " + IntToString(arraySize) + " bytes");
        } else {
          size := size + 4;
          Comment("local variable " + v.name + ": 4 bytes");
        }
        assert code == c1 + [VarComment(v)];
        AppendAssoc(old(code), VarComments(vars[..i]), [VarComment(v)]);
        i := i + 1;
      }
      assert vars[..|vars|] == vars;
    }

    /** The frame set-up of `allocStack` once the size is known. */
    method Reserve(size: i32, tmp: int)
      requires IsReg(tmp)
      modifies this
      ensures code == old(code) + ReserveCode(size, tmp)
    {
      ghost var c0 := code;
      ghost var h := [CommentInst("spill space: 32 bytes"), CommentInst("frame size: " + IntToString(size) + " bytes")];
      Emit2(CommentInst("spill space: 32 bytes"), CommentInst("frame size: " + IntToString(size) + " bytes"));
      if size == 0 {
        Comment("no stack space needed");
        AppendAssoc(c0, h, [CommentInst("no stack space needed")]);
        return;
      }
      ghost var c1 := code;
      MovReg(FP_REG, SP_REG);
      SubSp(size, tmp);
      ghost var t := [CommentInst("frame allocated"), CommentInst("stack frame end")];
      Emit2(CommentInst("frame allocated"), CommentInst("stack frame end"));
      ghost var m := MovRegCode(FP_REG, SP_REG);
      ghost var u := SubSpCode(size, tmp);
      assert code == c1 + m + u + t;
      AppendAssoc(c1 + m, u, t);
      AppendAssoc(c1, m, u + t);
      AppendAssoc(m, u, t);
      AppendAssoc(c0, h, m + u + t);
    }

    /** The stack-pointer adjustment of `allocStack`. */
    method SubSp(size: i32, tmp: int)
      requires IsReg(tmp)
      modifies this
      ensures code == old(code) + SubSpCode(size, tmp)
    {
      if ConstExpr(size) {
        Instr("sub", "sp", "sp", ToStr(size, true));
      } else {
        ghost var c0 := code;
        LoadImm(tmp, size);
        Instr("sub", "sp", "sp", RegName(tmp));
        AppendAssoc(c0, LoadImmCode(tmp, size), [Inst("sub", "sp", "sp", RegName(tmp))]);
      }
    }

    /** `call_fun(name)`. */
    method CallFun(name: string)
      modifies this
      ensures code == old(code) + CallFunCode(name)
    {
      Emit(Inst("bl", name, "", ""));
    }

    /** `nop()`. */
    method Nop()
      modifies this
      ensures code == old(code) + NopCode()
    {
      Emit(Inst("", "", "", ""));
    }

    /** `jump(target)`. */
    method Jump(target: string)
      modifies this
      ensures code == old(code) + JumpCode(target)
    {
      Emit(Inst("b", target, "", ""));
    }

    /** `calc_array_addr(rs, b, idx, size, tmp)`. */
    method CalcArrayAddr(rs: int, b: int, idx: int, size: i32, tmp: int)
      requires IsReg(rs) && IsReg(b) && IsReg(idx) && IsReg(tmp)
      modifies this
      ensures code == old(code) + CalcArrayAddrCode(rs, b, idx, size, tmp)
    {
      ghost var c0 := code;
      ghost var h := [CommentInst("array element address: base + index * " + IntToString(size))];
      Comment("array element address: base + index * " + IntToString(size));
      if size == 1 {
        Emit(Inst("add", RegName(rs), RegName(b), RegName(idx)));
      } else if size == 4 {
        Emit(Inst("add", RegName(rs), RegName(b), RegName(idx) + ", lsl #2"));
      } else if size == 8 {
        Emit(Inst("add", RegName(rs), RegName(b), RegName(idx) + ", lsl #3"));
      } else {
        ghost var c1 := code;
        LoadImm(tmp, size);
        ghost var t := [Inst("mul", RegName(tmp), RegName(idx), RegName(tmp)), Inst("add", RegName(rs), RegName(b), RegName(tmp))];
        Emit2(Inst("mul", RegName(tmp), RegName(idx), RegName(tmp)), Inst("add", RegName(rs), RegName(b), RegName(tmp)));
        AppendAssoc(c1, LoadImmCode(tmp, size), t);
        AppendAssoc(c0, h, LoadImmCode(tmp, size) + t);
      }
    }

    /** `calc_multi_array_addr(rs, b, idx, dims, size, tmp1, tmp2)`. */
    method CalcMultiArrayAddr(rs: int, b: int, idx: seq<int>, dims: seq<int>, size: i32, tmp1: int, tmp2: int)
      requires IsReg(rs) && IsReg(b) && IsReg(tmp1) && IsReg(tmp2) && AllRegs(idx)
      requires |idx| >= 1 && MultipliersFit(dims, |idx|)
      modifies this
      ensures code == old(code) + MultiArrayAddrCode(rs, b, idx, dims, size, tmp1)
    {
      ghost var c0 := code;
      ghost var h := [CommentInst("multi-dimensional array element address")] + MovRegCode(rs, idx[0]);
      Emit2(CommentInst("multi-dimensional array element address"), Inst("mov", RegName(rs), RegName(idx[0]), ""));
      ghost var c1 := code;
      assert c1 == c0 + h;
      MultiSteps(rs, idx, dims, tmp1);
      ghost var steps := MultiStepsCode(rs, idx, dims, tmp1, |idx| - 1);
      ghost var c2 := code;
      assert c2 == c1 + steps;
      Scale(rs, size, tmp1);
      ghost var sc := ScaleCode(rs, size, tmp1);
      ghost var c3 := code;
      assert c3 == c2 + sc;
      ghost var last := [Inst("add", RegName(rs), RegName(b), RegName(rs))];
      Emit(Inst("add", RegName(rs), RegName(b), RegName(rs)));
      assert code == c3 + last;
      AppendAssoc(c0, h, steps);
      AppendAssoc(c0, h + steps, sc);
      AppendAssoc(c0, h + steps + sc, last);
    }

    /** The outer loop of `calc_multi_array_addr`, over all indices but the last. */
    method MultiSteps(rs: int, idx: seq<int>, dims: seq<int>, tmp1: int)
      requires IsReg(rs) && IsReg(tmp1) && AllRegs(idx) && |idx| >= 1 && MultipliersFit(dims, |idx|)
      modifies this
      ensures code == old(code) + MultiStepsCode(rs, idx, dims, tmp1, |idx| - 1)
    {
      ghost var start := code;
      var i := 0;
      while i < |idx| - 1
        invariant 0 <= i <= |idx| - 1
        invariant code == start + MultiStepsCode(rs, idx, dims, tmp1, i)
      {
        ghost var done := MultiStepsCode(rs, idx, dims, tmp1, i);
        ghost var step := MultiStepCode(rs, idx, dims, tmp1, i);
        MultiStep(rs, idx, dims, tmp1, i);
        assert code == start + done + step;
        AppendAssoc(start, done, step);
        assert MultiStepsCode(rs, idx, dims, tmp1, i + 1) == done + step;
        i := i + 1;
      }
    }

    /** One pass of the outer loop of `calc_multi_array_addr`. */
    method MultiStep(rs: int, idx: seq<int>, dims: seq<int>, tmp1: int, i: nat)
      requires IsReg(rs) && IsReg(tmp1) && AllRegs(idx) && i < |idx| && MultipliersFit(dims, |idx|)
      modifies this
      ensures code == old(code) + MultiStepCode(rs, idx, dims, tmp1, i)
    {
      var multiplier := ComputeMultiplier(dims, i);
      LoadImm(tmp1, multiplier);
      ghost var c1 := code;
      Emit(Inst("mul", RegName(rs), RegName(rs), RegName(tmp1)));
      ghost var mul := [Inst("mul", RegName(rs), RegName(rs), RegName(tmp1))];
      if i + 1 < |idx| {
        Emit(Inst("add", RegName(rs), RegName(rs), RegName(idx[i + 1])));
        ghost var add := [Inst("add", RegName(rs), RegName(rs), RegName(idx[i + 1]))];
        AppendAssoc(old(code) + LoadImmCode(tmp1, multiplier), mul, add);
      }
    }

    /** The element-size scaling at the end of `calc_multi_array_addr`. */
    method Scale(rs: int, size: i32, tmp1: int)
      requires IsReg(rs) && IsReg(tmp1)
      modifies this
      ensures code == old(code) + ScaleCode(rs, size, tmp1)
    {
      if size == 4 {
        Emit(Inst("lsl", RegName(rs), RegName(rs), "#2"));
      } else if size == 8 {
        Emit(Inst("lsl", RegName(rs), RegName(rs), "#3"));
      } else if size != 1 {
        ghost var c0 := code;
        LoadImm(tmp1, size);
        Emit(Inst("mul", RegName(rs), RegName(rs), RegName(tmp1)));
        AppendAssoc(c0, LoadImmCode(tmp1, size), [Inst("mul", RegName(rs), RegName(rs), RegName(tmp1))]);
      }
    }

    /** `load_array_element(rs, addr)`. */
    method LoadArrayElement(rs: int, addr: int)
      requires IsReg(rs) && IsReg(addr)
      modifies this
      ensures code == old(code) + LoadArrayElementCode(rs, addr)
    {
      Emit2(CommentInst("load array element"), Inst("ldr", RegName(rs), AddrOperand(RegName(addr), ""), ""));
    }

    /** `store_array_element(src, addr)`. */
    method StoreArrayElement(src: int, addr: int)
      requires IsReg(src) && IsReg(addr)
      modifies this
      ensures code == old(code) + StoreArrayElementCode(src, addr)
    {
      Emit2(CommentInst("store array element"), Inst("str", RegName(src), AddrOperand(RegName(addr), ""), ""));
    }

    /** `lsl_imm(rs, src, k)`. */
    method LslImm(rs: int, src: int, k: int)
      requires IsReg(rs) && IsReg(src)
      modifies this
      ensures code == old(code) + LslImmCode(rs, src, k)
    {
      Emit(Inst("lsl", RegName(rs), RegName(src), "#" + IntToString(k)));
    }

    /** `load_array_static(rs, b, off)`. */
    method LoadArrayStatic(rs: int, b: int, off: i32)
      requires IsReg(rs) && IsReg(b)
      modifies this
      ensures code == old(code) + LoadArrayStaticCode(rs, b, off)
    {
      ghost var c0 := code;
      ghost var h := [CommentInst("static array access at offset " + IntToString(off) + " from " + RegName(b))];
      Comment("static array access at offset " + IntToString(off) + " from " + RegName(b));
      if StaticInRange(off) {
        Instr("ldr", RegName(rs), AddrOperand(RegName(b), ToStr(off, true)), "");
      } else {
        ghost var c1 := code;
        LoadImm(rs, off);
        ghost var t := [Inst("add", RegName(rs), RegName(b), RegName(rs)), Inst("ldr", RegName(rs), AddrOperand(RegName(rs), ""), "")];
        Emit2(Inst("add", RegName(rs), RegName(b), RegName(rs)), Inst("ldr", RegName(rs), AddrOperand(RegName(rs), ""), ""));
        AppendAssoc(c1, LoadImmCode(rs, off), t);
        AppendAssoc(c0, h, LoadImmCode(rs, off) + t);
      }
    }

    /** `store_array_static(src, b, off, tmp)`. */
    method StoreArrayStatic(src: int, b: int, off: i32, tmp: int)
      requires IsReg(src) && IsReg(b) && IsReg(tmp)
      modifies this
      ensures code == old(code) + StoreArrayStaticCode(src, b, off, tmp)
    {
      ghost var c0 := code;
      ghost var h := [CommentInst("static array store at offset " + IntToString(off) + " from " + RegName(b))];
      Comment("static array store at offset " + IntToString(off) + " from " + RegName(b));
      if StaticInRange(off) {
        Instr("str", RegName(src), AddrOperand(RegName(b), ToStr(off, true)), "");
      } else {
        ghost var c1 := code;
        LoadImm(tmp, off);
        ghost var t := [Inst("add", RegName(tmp), RegName(b), RegName(tmp)), Inst("str", RegName(src), AddrOperand(RegName(tmp), ""), "")];
        Emit2(Inst("add", RegName(tmp), RegName(b), RegName(tmp)), Inst("str", RegName(src), AddrOperand(RegName(tmp), ""), ""));
        AppendAssoc(c1, LoadImmCode(tmp, off), t);
        AppendAssoc(c0, h, LoadImmCode(tmp, off) + t);
      }
    }

    /** `load_array_dynamic(rs, b, offReg)`. */
    method LoadArrayDynamic(rs: int, b: int, offReg: int)
      requires IsReg(rs) && IsReg(b) && IsReg(offReg)
      modifies this
      ensures code == old(code) + LoadArrayDynamicCode(rs, b, offReg)
    {
      Comment("dynamic array access: " + RegName(b) + "+" + RegName(offReg));
      Emit2(Inst("add", RegName(rs), RegName(b), RegName(offReg)), Inst("ldr", RegName(rs), AddrOperand(RegName(rs), ""), ""));
      AppendAssoc(old(code), [CommentInst("dynamic array access: " + RegName(b) + "+" + RegName(offReg))],
        [Inst("add", RegName(rs), RegName(b), RegName(offReg)), Inst("ldr", RegName(rs), AddrOperand(RegName(rs), ""), "")]);
    }

    /** `store_array_dynamic(src, b, offReg)`. */
    method StoreArrayDynamic(src: int, b: int, offReg: int)
      requires IsReg(src) && IsReg(b) && IsReg(offReg)
      modifies this
      ensures code == old(code) + StoreArrayDynamicCode(src, b, offReg)
    {
      Comment("dynamic array store: " + RegName(b) + "+" + RegName(offReg));
      Emit2(Inst("add", RegName(offReg), RegName(b), RegName(offReg)), Inst("str", RegName(src), AddrOperand(RegName(offReg), ""), ""));
      AppendAssoc(old(code), [CommentInst("dynamic array store: " + RegName(b) + "+" + RegName(offReg))],
        [Inst("add", RegName(offReg), RegName(b), RegName(offReg)), Inst("str", RegName(src), AddrOperand(RegName(offReg), ""), "")]);
    }

    /** `deleteUnusedLabel()`: collect the live labels, then search the code for a branch to each. */
    method DeleteUnusedLabel()
      modifies this
      ensures code == PruneLabels(old(code))
    {
      ghost var c0 := code;
      var labels: seq<int> := [];
      var i := 0;
      while i < |code|
        invariant 0 <= i <= |code| && code == c0
        invariant forall q :: 0 <= q < |labels| ==> 0 <= labels[q] < i && IsLabelInst(c0[labels[q]])
        invariant forall k :: 0 <= k < i && IsLabelInst(c0[k]) ==> k in labels
      {
        if !code[i].dead && StartsWith(code[i].opcode, ".") && code[i].result == ":" {
          labels := labels + [i];
        }
        i := i + 1;
      }
      ghost var done: set<int> := {};
      var p := 0;
      while p < |labels|
        invariant 0 <= p <= |labels| && |code| == |c0|
        invariant done == set q | 0 <= q < p :: labels[q]
        invariant forall k :: 0 <= k < |code| ==> code[k] == (if k in done then PruneAt(c0, k) else c0[k])
      {
        var k := labels[p];
        var l := code[k].opcode;
        var labelUsed := false;
        var j := 0;
        while j < |code| && !labelUsed
          invariant 0 <= j <= |code|
          invariant labelUsed ==> Targeted(c0, l)
          invariant !labelUsed ==> forall jj :: 0 <= jj < j ==> !IsBranchTo(c0[jj], l)
        {
          assert code[j] == c0[j] || (IsLabelInst(c0[j]) && code[j] == SetDead(c0[j]));
          if !code[j].dead && StartsWith(code[j].opcode, "b") && code[j].result == l {
            labelUsed := true;
          }
          j := j + 1;
        }
        if !labelUsed {
          code := code[k := SetDead(code[k])];
        }
        done := done + {k};
        p := p + 1;
      }
      forall k | 0 <= k < |code|
        ensures code[k] == PruneAt(c0, k)
      {
        if k !in done {
          assert !IsLabelInst(c0[k]);
        }
      }
    }
  }
}
