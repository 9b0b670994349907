/**
 * The linear IR shared by the AST-to-IR lowering, the frame layout of a
 * function and the ARM32 instruction selector.
 *
 * A `Value` is the tagged union that stands for the class hierarchy of the
 * compiler (constants, local, global and memory variables, register
 * variables, instruction results and formal parameters).  Every value carries
 * a unique `id`, which plays the role of the object's address: maps keyed by
 * values stand for the fields the source updates in place on shared objects.
 */
module IR {
  import opened Common

  /** The types the backend looks at: 32-bit int, 1-byte bool, void, pointers and arrays. */
  datatype Ty = IntTy | BoolTy | VoidTy | PtrTy(elem: Ty) | ArrayTy(elem: Ty, dims: seq<int>)

  /**
   * Byte size of an array type (`ArrayType::getSize`/`getTotalSize`, which are not
   * part of this model): 4 bytes per element times the product of the dimensions.
   */
  function ArrayBytes(t: Ty): int
    requires t.ArrayTy?
  {
    4 * Product(t.dims)
  }

  /** A 1-byte boolean type (`isInt1Byte`). */
  predicate IsBoolTy(t: Ty) {
    t.BoolTy?
  }

  datatype ValueKind =
    | ConstInt(val: i32)
    | LocalVar
    | GlobalVar
    | MemVar
    | RegVar
    | InstResult
    | FormalParam

  /** A frame slot: base register number and byte offset. */
  datatype MemAddr = MemAddr(base: int, offset: int)

  /**
   * A value of the IR.  `regId` is the fixed register of a register variable
   * (-1 for none); `addr` is the memory address `getMemoryAddr` reports, if any.
   * The load register a value temporarily occupies is not a field here: it is
   * kept by the register allocator.
   */
  datatype Value = Value(id: nat, kind: ValueKind, name: string, ty: Ty, regId: int, addr: Option<MemAddr>)

  predicate IsConst(v: Value) {
    v.kind.ConstInt?
  }

  predicate IsGlobal(v: Value) {
    v.kind.GlobalVar?
  }

  /** A label instruction's identity and printed name. */
  datatype Label = Label(id: nat, name: string)

  datatype IROp =
    | OpEntry | OpExit | OpLabel | OpGoto | OpAssign | OpNop
    | OpAddI | OpSubI | OpMulI | OpDivI | OpModI | OpNegI
    | OpLtI | OpGtI | OpLeI | OpGeI | OpEqI | OpNeI
    | OpStorePtr | OpLoadPtr | OpAddPtr | OpArrayAddr
    | OpFuncCall | OpArg

  /**
   * One IR instruction.  `result` is the instruction itself viewed as a value
   * when it has a result (`hasResultValue`); `target`/`falseTarget` are the
   * branch targets of a goto and `target` is the label of a label instruction;
   * `ptrStore`/`ptrLoad` are the flags of a copy through a pointer
   * (`setIsPointerStore`, `setIsPointerLoad`), from which its printed form is
   * derived; `text` is the printed form of the other instructions.
   */
  datatype IRInst = IRInst(
    op: IROp,
    operands: seq<Value>,
    result: Option<Value>,
    target: Option<Label>,
    falseTarget: Option<Label>,
    callee: string,
    text: string,
    ptrStore: bool,
    ptrLoad: bool,
    dead: bool)

  /** The printed form of a copy: `*d = s` for a store through a pointer, `d = *s` for a load. */
  function MoveText(dst: Value, src: Value, ptrStore: bool, ptrLoad: bool): (t: string)
    ensures StartsWith(t, "*") <==> ptrStore
  {
    var body := "%v" + NatToString(dst.id) + " = " + (if ptrLoad then "*" else "") + "%v" + NatToString(src.id);
    assert body[0] == '%';
    var t := (if ptrStore then "*" else "") + body;
    assert t[0] == (if ptrStore then '*' else '%');
    t
  }

  /**
   * The printed form of an instruction (`toString`), which the selector
   * inspects: a copy's is derived from its operands and flags.
   */
  function Text(i: IRInst): string {
    if i.op == OpAssign && |i.operands| == 2 then MoveText(i.operands[0], i.operands[1], i.ptrStore, i.ptrLoad) else i.text
  }
}
