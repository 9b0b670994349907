/**
 * AST-to-IR lowering (`IRGenerator`).
 *
 * The generator walks the abstract syntax tree and appends linear IR to each
 * node's instruction list; the handlers modelled here are the control-flow
 * statements, the short-circuit logical operators, assignment, return,
 * function calls and definitions, and array definition and access.  The
 * source appends in place and updates the current function's fields (the
 * break/continue labels, `extraData`, `maxFuncCallArgCnt`); here every
 * handler is a function from a `GenState` to a new `GenState` and the code it
 * produced.  The state is returned on failure too, because one handler (`if`
 * without `else`) carries on with the state a failed sub-lowering left.
 *
 * Fresh values, labels and instructions are numbered by `nextId`, which
 * stands for the identity of a newly allocated object.  The symbol table of
 * the module (`findVarValue`, `newVarValue`, scopes) is a map that a scoped
 * block saves and restores.
 */
module IRGen {
  import opened Common
  import opened IR
  import ArmCode

  /** No label and no jump: the code of the expression handlers that are not part of this model. */
  predicate NoControl(c: seq<IRInst>) {
    forall i :: 0 <= i < |c| ==> c[i].op != OpLabel && c[i].op != OpGoto
  }

  type PlainCode = c: seq<IRInst> | NoControl(c) witness []

  /**
   * The AST node kinds the model lowers.  `Opaque` stands for a node whose
   * handler is not part of this model (arithmetic, comparisons,
   * declarations): it yields the given straight-line code and value.
   * `sons` fields keep the source's son lists where the handler checks how
   * many sons there are; `ArrayDef`/`ArrayAccess` hold the sons after the
   * name.
   */
  datatype Node =
    | Literal(k: i32)
    | VarId(name: string)
    | Opaque(code: PlainCode, val: Option<Value>)
    | Block(stmts: seq<Node>, needScope: bool)
    | If(cond: Node, thenPart: Option<Node>)
    | IfElse(cond: Node, thenStmt: Node, elseStmt: Node)
    | While(cond: Node, body: Node)
    | Break
    | Continue
    | LogicAnd(sons: seq<Node>)
    | LogicOr(sons: seq<Node>)
    | LogicNot(sons: seq<Node>)
    | Assign(lhs: Node, rhs: Node)
    | Return(expr: Option<Node>)
    | Call(callee: string, args: seq<Node>)
    | ArrayDef(name: string, sons: seq<Node>)
    | ArrayAccess(name: string, indices: seq<Node>)
    | EmptyStmt

  /** A function's formal parameters (values of kind `FormalParam`) and return type. */
  datatype Sig = Sig(params: seq<Value>, ret: Ty)

  /**
   * The generator's state: the id counter, the symbol table and the function
   * table of the module, and the fields of the current function that the
   * handlers read and write.  `boolCheck`/`boolMove` are `extraData`.
   */
  datatype GenState = GenState(
    nextId: nat,
    vars: map<string, Value>,
    funcs: map<string, Sig>,
    current: Option<string>,
    exitLabel: Option<Label>,
    retValue: Option<Value>,
    breakLabel: Option<Label>,
    continueLabel: Option<Label>,
    boolCheck: Option<IRInst>,
    boolMove: Option<IRInst>,
    maxArgCnt: int,
    existCall: bool,
    locals: seq<Value>)

  /** What a successful handler leaves on its node: `blockInsts`, `val` and `arrayPtr`. */
  datatype Out = Out(code: seq<IRInst>, val: Option<Value>, arrayPtr: Option<Value>)

  /** A handler's result: the new state, and `None` when the handler returned false. */
  datatype Gen = Gen(st: GenState, out: Option<Out>)

  datatype Outs = Outs(code: seq<IRInst>, vals: seq<Option<Value>>)

  datatype Gens = Gens(st: GenState, outs: Option<Outs>)

  datatype Dims = Dims(st: GenState, dims: Option<seq<int>>)

  // ---------------------------------------------------------------------
  // The instructions the generator creates

  /** A copy instruction `dst = src` (`MoveInstruction`); operand 0 is the destination. */
  function Copy(dst: Value, src: Value): IRInst {
    IRInst(OpAssign, [dst, src], None, None, None, "", "", false, false, false)
  }

  /** A copy marked as a store through pointer `ptr`, `*ptr = val` (`setIsPointerStore`). */
  function StoreThrough(ptr: Value, val: Value): IRInst {
    IRInst(OpAssign, [ptr, val], None, None, None, "", "", true, false, false)
  }

  /** A copy marked as a load through pointer `ptr`, `dst = *ptr` (`setIsPointerLoad`). */
  function LoadThrough(dst: Value, ptr: Value): IRInst {
    IRInst(OpAssign, [dst, ptr], None, None, None, "", "", false, true, false)
  }

  /** The result value of an instruction with identity `id` and type `t`. */
  function ResultValue(id: nat, t: Ty): Value {
    Value(id, InstResult, "", t, -1, None)
  }

  /** A binary instruction `res = a op b`. */
  function Binary(op: IROp, a: Value, b: Value, res: Value): IRInst {
    IRInst(op, [a, b], Some(res), None, None, "", "", false, false, false)
  }

  function LabelInst(l: Label): IRInst {
    IRInst(OpLabel, [], None, Some(l), None, "", "", false, false, false)
  }

  function Goto(l: Label): IRInst {
    IRInst(OpGoto, [], None, Some(l), None, "", "", false, false, false)
  }

  function CondGoto(c: Value, t: Label, f: Label): IRInst {
    IRInst(OpGoto, [c], None, Some(t), Some(f), "", "", false, false, false)
  }

  function EntryInst(): IRInst {
    IRInst(OpEntry, [], None, None, None, "", "", false, false, false)
  }

  function ExitInst(ret: Option<Value>): IRInst {
    IRInst(OpExit, if ret.Some? then [ret.value] else [], None, None, None, "", "", false, false, false)
  }

  function CallInst(callee: string, args: seq<Value>, res: Option<Value>): IRInst {
    IRInst(OpFuncCall, args, res, None, None, callee, "", false, false, false)
  }

  // ---------------------------------------------------------------------
  // Fresh objects

  /** The `k`-th label a handler creates first thing. */
  function LabelAt(st: GenState, k: nat): Label {
    Label(st.nextId + k, "")
  }

  function Skip(st: GenState, k: nat): GenState {
    st.(nextId := st.nextId + k)
  }

  datatype Fresh = Fresh(v: Value, st: GenState)

  /**
   * `newVarValue(ty, name)`: a local variable inside a function (recorded in
   * its variable list), a global one outside; a named variable enters the
   * symbol table.
   */
  function NewVar(st: GenState, ty: Ty, name: string): (f: Fresh)
    ensures f.v.id == st.nextId && f.st.nextId == st.nextId + 1 && f.v.ty == ty
  {
    var v := Value(st.nextId, if st.current.Some? then LocalVar else GlobalVar, name, ty, -1, None);
    Fresh(v, st.(nextId := st.nextId + 1, vars := Declared(st.vars, name, v), locals := Recorded(st, v)))
  }

  /** The symbol table after a new variable: a named one enters (or shadows) the table, a temporary does not. */
  function Declared(vars: map<string, Value>, name: string, v: Value): map<string, Value> {
    if name != "" then vars[name := v] else vars
  }

  /** The current function's variable list after a new variable; a global is not listed. */
  function Recorded(st: GenState, v: Value): seq<Value> {
    if st.current.Some? then st.locals + [v] else st.locals
  }

  /** `newConstInt(k)`. */
  function NewConst(st: GenState, k: i32): (f: Fresh)
    ensures f.v.kind == ConstInt(k) && f.st == Skip(st, 1)
  {
    Fresh(Value(st.nextId, ConstInt(k), "", IntTy, -1, None), Skip(st, 1))
  }

  datatype Made = Made(inst: IRInst, res: Value, st: GenState)

  /** A new `BinaryInstruction`; the instruction is its own result value. */
  function NewBinary(st: GenState, op: IROp, a: Value, b: Value, ty: Ty): (m: Made)
    ensures m.inst == Binary(op, a, b, m.res) && m.res.id == st.nextId && m.st == Skip(st, 1)
  {
    var r := ResultValue(st.nextId, ty);
    Made(Binary(op, a, b, r), r, Skip(st, 1))
  }

  predicate AllSome(vs: seq<Option<Value>>) {
    forall i :: 0 <= i < |vs| ==> vs[i].Some?
  }

  function Unwrap(vs: seq<Option<Value>>): (r: seq<Value>)
    requires AllSome(vs)
    ensures |r| == |vs| && forall i :: 0 <= i < |vs| ==> vs[i] == Some(r[i])
  {
    if |vs| == 0 then [] else [vs[0].value] + Unwrap(vs[1..])
  }

  // ---------------------------------------------------------------------
  // int_to_bool and the pending `extraData` instructions

  /**
   * `int_to_bool(v)`: a 1-byte bool is its own truth value; any other value
   * gets a fresh bool `b` and the instructions `t = ne v, 0` and `b = t`,
   * which are parked in `extraData` rather than emitted.
   */
  function IntToBool(v: Value, st: GenState): Fresh {
    if IsBoolTy(v.ty) then Fresh(v, st)
    else
      var r := NewVar(st, BoolTy, "");
      var z := NewConst(r.st, 0);
      var chk := NewBinary(z.st, OpNeI, v, z.v, BoolTy);
      Fresh(r.v, st.(nextId := chk.st.nextId, locals := r.st.locals,
                     boolCheck := Some(chk.inst), boolMove := Some(Copy(r.v, chk.res))))
  }

  /** The instructions the logical operators take out of `extraData`: the check, then the copy if there is one. */
  function Pending(st: GenState): seq<IRInst> {
    if st.boolCheck.Some? then [st.boolCheck.value] + (if st.boolMove.Some? then [st.boolMove.value] else []) else []
  }

  /** `extraData` after the logical operators have taken its instructions. */
  function Taken(st: GenState): GenState {
    if st.boolCheck.Some? then st.(boolCheck := None, boolMove := None) else st
  }

  // ---------------------------------------------------------------------
  // The lowering (`ir_visit_ast_node` and the handlers)

  /** `ir_visit_ast_node(n)`: dispatch on the node kind. */
  function Lower(n: Node, st: GenState): Gen
    decreases n, 1
  {
    match n
    case Literal(_) => LowerLeaf(n, st)
    case VarId(_) => LowerLeaf(n, st)
    case Opaque(_, _) => LowerLeaf(n, st)
    case EmptyStmt => LowerLeaf(n, st)
    case Break => LowerJump(n, st)
    case Continue => LowerJump(n, st)
    case Block(_, _) => LowerBlock(n, st)
    case If(_, _) => LowerIf(n, st)
    case IfElse(_, _, _) => LowerIfElse(n, st)
    case While(_, _) => LowerWhile(n, st)
    case LogicAnd(_) => LowerAnd(n, st)
    case LogicOr(_) => LowerOr(n, st)
    case LogicNot(_) => LowerNot(n, st)
    case Assign(_, _) => LowerAssign(n, st)
    case Return(_) => LowerReturn(n, st)
    case Call(_, _) => LowerCall(n, st)
    case ArrayDef(_, _) => LowerArrayDef(n, st)
    case ArrayAccess(_, _) => LowerArrayAccess(n, st)
  }

  /**
   * The leaves: `ir_leaf_node_uint` makes an integer constant,
   * `ir_leaf_node_var_id` looks the name up in the symbol table, an empty
   * statement produces nothing.
   */
  function LowerLeaf(n: Node, st: GenState): Gen
    requires n.Literal? || n.VarId? || n.Opaque? || n.EmptyStmt?
  {
    match n
    case Literal(k) =>
      var c := NewConst(st, k);
      Gen(c.st, Some(Out([], Some(c.v), None)))
    case VarId(name) =>
      if name != "" && name in st.vars then Gen(st, Some(Out([], Some(st.vars[name]), None))) else Gen(st, None)
    case Opaque(code, val) => Gen(st, Some(Out(code, val, None)))
    case EmptyStmt => Gen(st, Some(Out([], None, None)))
  }

  /** `ir_break` and `ir_continue`: a jump to the innermost loop's end or condition label; outside a loop they fail. */
  function LowerJump(n: Node, st: GenState): Gen
    requires n.Break? || n.Continue?
  {
    var target := if n.Break? then st.breakLabel else st.continueLabel;
    if st.current.None? || target.None? then Gen(st, None)
    else Gen(st, Some(Out([Goto(target.value)], None, None)))
  }

  /** Lower a list of sons left to right, stopping at the first failure. */
  function LowerList(ns: seq<Node>, st: GenState): (r: Gens)
    ensures r.outs.Some? ==> |r.outs.value.vals| == |ns|
    decreases ns
  {
    if |ns| == 0 then Gens(st, Some(Outs([], [])))
    else
      var h := Lower(ns[0], st);
      if h.out.None? then Gens(h.st, None)
      else
        var t := LowerList(ns[1..], h.st);
        if t.outs.None? then t
        else Gens(t.st, Some(Outs(h.out.value.code + t.outs.value.code, [h.out.value.val] + t.outs.value.vals)))
  }

  /** `ir_block`: the statements in order; a scoped block drops the names declared in it. */
  function LowerBlock(n: Node, st: GenState): Gen
    requires n.Block?
    decreases n, 0
  {
    var r := LowerList(n.stmts, st);
    if r.outs.None? then Gen(r.st, None)
    else Gen(if n.needScope then r.st.(vars := st.vars) else r.st, Some(Out(r.outs.value.code, None, None)))
  }

  /**
   * `ir_if`: `cond; goto c ? then : end; then: body; end:`.  A then-branch
   * that fails makes the statement fail, as the earlier, commented-out
   * version of the handler did; `LowerIfAsWritten` is the handler as it
   * stands.
   */
  function LowerIf(n: Node, st: GenState): Gen
    requires n.If?
    decreases n, 0
  {
    if st.current.None? then Gen(st, None)
    else
      var thenL := LabelAt(st, 0);
      var endL := LabelAt(st, 1);
      var c := Lower(n.cond, Skip(st, 2));
      if c.out.None? || c.out.value.val.None? then Gen(c.st, None)
      else
        var head := c.out.value.code + [CondGoto(c.out.value.val.value, thenL, endL), LabelInst(thenL)];
        if n.thenPart.None? then Gen(c.st, Some(Out(head + [LabelInst(endL)], None, None)))
        else
          var t := Lower(n.thenPart.value, c.st);
          if t.out.Some? then Gen(t.st, Some(Out(head + t.out.value.code + [LabelInst(endL)], None, None)))
          else Gen(t.st, None)
  }

  /**
   * `ir_if` as the source has it: a then-branch that fails is dropped and the
   * statement still succeeds, with the state the failed branch left.  It
   * agrees with `LowerIf` whenever `LowerIf` succeeds, and fails only when
   * `LowerIf` does.
   */
  function LowerIfAsWritten(n: Node, st: GenState): (g: Gen)
    requires n.If?
    ensures LowerIf(n, st).out.Some? ==> g == LowerIf(n, st)
    ensures g.out.None? ==> LowerIf(n, st).out.None?
    ensures g.out.Some? && LowerIf(n, st).out.None? ==> n.thenPart.Some?
  {
    if st.current.None? then Gen(st, None)
    else
      var thenL := LabelAt(st, 0);
      var endL := LabelAt(st, 1);
      var c := Lower(n.cond, Skip(st, 2));
      if c.out.None? || c.out.value.val.None? then Gen(c.st, None)
      else
        var head := c.out.value.code + [CondGoto(c.out.value.val.value, thenL, endL), LabelInst(thenL)];
        if n.thenPart.None? then Gen(c.st, Some(Out(head + [LabelInst(endL)], None, None)))
        else
          var t := Lower(n.thenPart.value, c.st);
          if t.out.Some? then Gen(t.st, Some(Out(head + t.out.value.code + [LabelInst(endL)], None, None)))
          else Gen(t.st, Some(Out(head + [LabelInst(endL)], None, None)))
  }

  /**
   * As written, a then-branch that fails is replaced by nothing: the
   * statement keeps the condition, the branch and the two labels, while
   * `LowerIf` fails.
   */
  lemma IfDropsFailedThen(n: Node, st: GenState, c: Gen)
    requires n.If? && n.thenPart.Some? && st.current.Some?
    requires c == Lower(n.cond, Skip(st, 2)) && c.out.Some? && c.out.value.val.Some?
    requires Lower(n.thenPart.value, c.st).out.None?
    ensures LowerIf(n, st).out.None?
    ensures LowerIfAsWritten(n, st).out
         == Some(Out(c.out.value.code + [CondGoto(c.out.value.val.value, LabelAt(st, 0), LabelAt(st, 1)),
                                         LabelInst(LabelAt(st, 0)), LabelInst(LabelAt(st, 1))], None, None))
  {
    var head := c.out.value.code + [CondGoto(c.out.value.val.value, LabelAt(st, 0), LabelAt(st, 1)), LabelInst(LabelAt(st, 0))];
    assert head + [LabelInst(LabelAt(st, 1))]
        == c.out.value.code + [CondGoto(c.out.value.val.value, LabelAt(st, 0), LabelAt(st, 1)),
                               LabelInst(LabelAt(st, 0)), LabelInst(LabelAt(st, 1))];
  }

  /**
   * The as-written `if` accepts `if (1) break;` outside a loop: the `break`
   * fails for want of a loop, the failure is dropped, and the statement
   * lowers to a branch around nothing; `LowerIf` rejects it.
   */
  lemma IfSwallowsFailedThen(st: GenState, n: Node)
    requires st.current.Some? && st.breakLabel.None? && n == If(Literal(1), Some(Break))
    ensures var g := LowerIfAsWritten(n, st);
      g.out.Some? && LowerIf(n, st).out.None?
      && g.out.value.code == [CondGoto(Value(st.nextId + 2, ConstInt(1), "", IntTy, -1, None), LabelAt(st, 0), LabelAt(st, 1)),
                              LabelInst(LabelAt(st, 0)), LabelInst(LabelAt(st, 1))]
  {
    var c := Lower(n.cond, Skip(st, 2));
    assert c == LowerLeaf(n.cond, Skip(st, 2));
    assert c.out == Some(Out([], Some(Value(st.nextId + 2, ConstInt(1), "", IntTy, -1, None)), None)) && c.st.breakLabel.None?;
    assert Lower(n.thenPart.value, c.st) == LowerJump(n.thenPart.value, c.st);
    IfDropsFailedThen(n, st, c);
  }

  /** `ir_if_else`: `cond; goto c ? then : else; then: A; goto end; else: B; end:`. */
  function LowerIfElse(n: Node, st: GenState): Gen
    requires n.IfElse?
    decreases n, 0
  {
    if st.current.None? then Gen(st, None)
    else
      var thenL := LabelAt(st, 0);
      var elseL := LabelAt(st, 1);
      var endL := LabelAt(st, 2);
      var c := Lower(n.cond, Skip(st, 3));
      if c.out.None? || c.out.value.val.None? then Gen(c.st, None)
      else
        var t := Lower(n.thenStmt, c.st);
        if t.out.None? then Gen(t.st, None)
        else
          var e := Lower(n.elseStmt, t.st);
          if e.out.None? then Gen(e.st, None)
          else
            Gen(e.st, Some(Out(
              c.out.value.code + [CondGoto(c.out.value.val.value, thenL, elseL), LabelInst(thenL)]
              + t.out.value.code + [Goto(endL), LabelInst(elseL)]
              + e.out.value.code + [LabelInst(endL)], None, None)))
  }

  /**
   * `ir_while`: `cond: c; goto c ? body : end; body: B; goto cond; end:`.
   * Inside the loop `break` goes to `end` and `continue` to `cond`; the
   * enclosing labels come back only when the whole loop succeeds.
   */
  function LowerWhile(n: Node, st: GenState): Gen
    requires n.While?
    decreases n, 0
  {
    if st.current.None? then Gen(st, None)
    else
      var condL := LabelAt(st, 0);
      var bodyL := LabelAt(st, 1);
      var endL := LabelAt(st, 2);
      var st1 := Skip(st, 3).(breakLabel := Some(endL), continueLabel := Some(condL));
      var c := Lower(n.cond, st1);
      if c.out.None? || c.out.value.val.None? then Gen(c.st, None)
      else
        var b := Lower(n.body, c.st);
        if b.out.None? then Gen(b.st, None)
        else
          Gen(b.st.(breakLabel := st.breakLabel, continueLabel := st.continueLabel), Some(Out(
            [LabelInst(condL)] + c.out.value.code + [CondGoto(c.out.value.val.value, bodyL, endL), LabelInst(bodyL)]
            + b.out.value.code + [Goto(condL), LabelInst(endL)], None, None)))
  }

  /**
   * `ir_logic_and`: `r` is 0 on the short-circuit path and the right
   * operand's value otherwise; the right operand's code runs only after the
   * second-operand label.
   */
  function LowerAnd(n: Node, st: GenState): Gen
    requires n.LogicAnd?
    decreases n, 0
  {
    if st.current.None? || |n.sons| < 2 then Gen(st, None)
    else
      var secondL := LabelAt(st, 0);
      var falseL := LabelAt(st, 1);
      var endL := LabelAt(st, 2);
      var r := NewVar(Skip(st, 3), IntTy, "");
      var left := Lower(n.sons[0], r.st);
      if left.out.None? || left.out.value.val.None? then Gen(left.st, None)
      else
        var b := IntToBool(left.out.value.val.value, left.st);
        var right := Lower(n.sons[1], Taken(b.st));
        if right.out.None? || right.out.value.val.None? then Gen(right.st, None)
        else
          var zero := NewConst(right.st, 0);
          Gen(zero.st, Some(Out(
            left.out.value.code + Pending(b.st) + [CondGoto(b.v, secondL, falseL), LabelInst(secondL)]
            + right.out.value.code
            + [Copy(r.v, right.out.value.val.value), Goto(endL), LabelInst(falseL), Copy(r.v, zero.v), LabelInst(endL)],
            Some(r.v), None)))
  }

  /** `ir_logic_or`: as `&&` with the roles swapped; `r` is 1 on the short-circuit path. */
  function LowerOr(n: Node, st: GenState): Gen
    requires n.LogicOr?
    decreases n, 0
  {
    if st.current.None? || |n.sons| < 2 then Gen(st, None)
    else
      var secondL := LabelAt(st, 0);
      var trueL := LabelAt(st, 1);
      var endL := LabelAt(st, 2);
      var r := NewVar(Skip(st, 3), IntTy, "");
      var left := Lower(n.sons[0], r.st);
      if left.out.None? || left.out.value.val.None? then Gen(left.st, None)
      else
        var b := IntToBool(left.out.value.val.value, left.st);
        var right := Lower(n.sons[1], Taken(b.st));
        if right.out.None? || right.out.value.val.None? then Gen(right.st, None)
        else
          var one := NewConst(right.st, 1);
          Gen(one.st, Some(Out(
            left.out.value.code + Pending(b.st) + [CondGoto(b.v, trueL, secondL), LabelInst(secondL)]
            + right.out.value.code
            + [Copy(r.v, right.out.value.val.value), Goto(endL), LabelInst(trueL), Copy(r.v, one.v), LabelInst(endL)],
            Some(r.v), None)))
  }

  /** `ir_logic_not`: `t = eq v, 0; r = t`. */
  function LowerNot(n: Node, st: GenState): Gen
    requires n.LogicNot?
    decreases n, 0
  {
    if st.current.None? || |n.sons| == 0 then Gen(st, None)
    else
      var o := Lower(n.sons[0], st);
      if o.out.None? || o.out.value.val.None? then Gen(o.st, None)
      else
        var r := NewVar(o.st, IntTy, "");
        var zero := NewConst(r.st, 0);
        var eq := NewBinary(zero.st, OpEqI, o.out.value.val.value, zero.v, BoolTy);
        Gen(eq.st, Some(Out(o.out.value.code + [eq.inst, Copy(r.v, eq.res)], Some(r.v), None)))
  }

  /**
   * `ir_assign`: the right side first, then the left side; an array element
   * on the left is stored through its element pointer.
   */
  function LowerAssign(n: Node, st: GenState): Gen
    requires n.Assign?
    decreases n, 0
  {
    var right := Lower(n.rhs, st);
    if right.out.None? || right.out.value.val.None? then Gen(right.st, None)
    else
      var rv := right.out.value.val.value;
      var left := Lower(n.lhs, right.st);
      if left.out.None? then Gen(left.st, None)
      else if n.lhs.ArrayAccess? && left.out.value.arrayPtr.Some? then
        Gen(left.st, Some(Out(right.out.value.code + left.out.value.code + [StoreThrough(left.out.value.arrayPtr.value, rv)], Some(rv), None)))
      else if left.out.value.val.None? then Gen(left.st, None)
      else
        Gen(left.st, Some(Out(right.out.value.code + left.out.value.code + [Copy(left.out.value.val.value, rv)], Some(rv), None)))
  }

  /** `ir_return`: copy the value into the return variable, then jump to the exit label. */
  function LowerReturn(n: Node, st: GenState): Gen
    requires n.Return?
    decreases n, 0
  {
    if st.current.None? || st.exitLabel.None? then Gen(st, None)
    else if n.expr.None? then Gen(st, Some(Out([Goto(st.exitLabel.value)], None, None)))
    else
      var r := Lower(n.expr.value, st);
      if r.out.None? || r.out.value.val.None? || r.st.retValue.None? then Gen(r.st, None)
      else
        Gen(r.st, Some(Out(r.out.value.code + [Copy(r.st.retValue.value, r.out.value.val.value), Goto(st.exitLabel.value)],
                           r.out.value.val, None)))
  }

  /**
   * `ir_function_call`: the callee must be known; the caller's largest
   * argument count is raised before the arguments are lowered left to right;
   * the number of arguments must equal the number of formal parameters.
   */
  function LowerCall(n: Node, st: GenState): Gen
    requires n.Call?
    decreases n, 0
  {
    if n.callee !in st.funcs || st.current.None? then Gen(st, None)
    else
      var sig := st.funcs[n.callee];
      var st1 := st.(existCall := true, maxArgCnt := if |n.args| > st.maxArgCnt then |n.args| else st.maxArgCnt);
      var a := LowerList(n.args, st1);
      if a.outs.None? || !AllSome(a.outs.value.vals) || |a.outs.value.vals| != |sig.params| then Gen(a.st, None)
      else
        var res := ResultValue(a.st.nextId, sig.ret);
        Gen(Skip(a.st, 1), Some(Out(
          a.outs.value.code + [CallInst(n.callee, Unwrap(a.outs.value.vals), if sig.ret.VoidTy? then None else Some(res))],
          Some(res), None)))
  }

  /**
   * How many sons after the name are dimensions: all of them when the last
   * one is an integer literal, otherwise all but the last (taken to be an
   * initialiser).
   */
  function DimCount(sons: seq<Node>): nat
    requires |sons| >= 1
  {
    if sons[|sons| - 1].Literal? then |sons| else |sons| - 1
  }

  /**
   * `ir_array_def`: a literal dimension must be positive; any other one must
   * lower to a positive integer constant, and its code is dropped.  The
   * initialiser is ignored.
   */
  function LowerArrayDef(n: Node, st: GenState): Gen
    requires n.ArrayDef?
    decreases n, 0
  {
    if |n.sons| < 1 then Gen(st, None)
    else
      var d := ArrayDims(n, 0, DimCount(n.sons), st);
      if d.dims.None? || |d.dims.value| == 0 then Gen(d.st, None)
      else
        var v := NewVar(d.st, ArrayTy(IntTy, d.dims.value), n.name);
        Gen(v.st, Some(Out([], Some(v.v), None)))
  }

  /** The dimensions of sons `i .. end-1` of an array definition. */
  function ArrayDims(n: Node, i: nat, end: nat, st: GenState): Dims
    requires n.ArrayDef? && end <= |n.sons|
    decreases n, 0, end - i
  {
    if i >= end then Dims(st, Some([]))
    else
      var s := n.sons[i];
      if s.Literal? then
        if s.k <= 0 then Dims(st, None)
        else
          var rest := ArrayDims(n, i + 1, end, st);
          Dims(rest.st, if rest.dims.None? then None else Some([s.k as int] + rest.dims.value))
      else
        var e := Lower(s, st);
        if e.out.None? || e.out.value.val.None? || !e.out.value.val.value.kind.ConstInt? || e.out.value.val.value.kind.val <= 0 then
          Dims(e.st, None)
        else
          var rest := ArrayDims(n, i + 1, end, e.st);
          Dims(rest.st, if rest.dims.None? then None else Some([e.out.value.val.value.kind.val as int] + rest.dims.value))
  }

  /**
   * `ir_array_access`: the name must be a visible array, the number of
   * indices must not exceed its rank, and the indices are lowered left to
   * right before the address computation.
   */
  function LowerArrayAccess(n: Node, st: GenState): Gen
    requires n.ArrayAccess?
    decreases n, 0
  {
    if |n.indices| < 1 || n.name !in st.vars || !st.vars[n.name].ty.ArrayTy?
       || |n.indices| > |st.vars[n.name].ty.dims| || st.current.None? then Gen(st, None)
    else
      var av := st.vars[n.name];
      var ix := LowerList(n.indices, st);
      if ix.outs.None? || !AllSome(ix.outs.value.vals) then Gen(ix.st, None)
      else
        var acc := AccessCode(ix.st, av, av.ty.dims, Unwrap(ix.outs.value.vals));
        Gen(acc.st, Some(Out(ix.outs.value.code + acc.code, Some(acc.elem), Some(acc.ptr))))
  }

  // ---------------------------------------------------------------------
  // Array element addresses

  /** The address computation of an access: its code, the byte offset, the element pointer and the loaded element. */
  datatype Access = Access(st: GenState, code: seq<IRInst>, offset: Value, ptr: Value, elem: Value)

  /** The stride the general path multiplies by before adding index `i`: the product of the dimensions from `i` on. */
  function Stride(dims: seq<int>, i: nat): int
    requires i <= |dims|
  {
    Product(dims[i..])
  }

  /** The inner loop of the general path: `stride = 1; for j in i .. stride *= dims[j]`. */
  method ComputeStride(dims: seq<int>, i: nat) returns (stride: int)
    requires i <= |dims|
    ensures stride == Stride(dims, i)
  {
    stride := 1;
    for j := i to |dims|
      invariant stride == Product(dims[i..j])
    {
      assert dims[i..j + 1][..j - i] == dims[i..j];
      stride := stride * dims[j];
    }
    assert dims[i..|dims|] == dims[i..];
  }

  /** The constants the general path multiplies by: the stride of each index, truncated to 32 bits. */
  function StrideConsts(dims: seq<int>, n: nat): (r: seq<i32>)
    requires n <= |dims|
    ensures |r| == n
  {
    seq(n, i requires 0 <= i < n => ArmCode.Trunc32(Stride(dims, i)))
  }

  function AccessCode(st: GenState, av: Value, dims: seq<int>, idx: seq<Value>): (a: Access)
    requires 1 <= |idx| <= |dims|
    ensures NoControl(a.code) && (Calm(st) ==> Keeps(st, a.st))
  {
    if |idx| == 2 && |dims| == 2 then TwoDimAccess(st, av, dims[1], idx[0], idx[1])
    else GeneralAccess(st, av, StrideConsts(dims, |idx|), idx)
  }

  /**
   * The two-index path for a two-dimensional array:
   * `((row * C) + col) * 4` added to the array's address, then loaded.
   */
  function TwoDimAccess(st: GenState, av: Value, cols: int, row: Value, col: Value): (a: Access)
    ensures NoControl(a.code) && (Calm(st) ==> Keeps(st, a.st))
  {
    var mulR := NewVar(st, IntTy, "");
    var addR := NewVar(mulR.st, IntTy, "");
    var offR := NewVar(addR.st, IntTy, "");
    var ptrR := NewVar(offR.st, PtrTy(IntTy), "");
    var elem := NewVar(ptrR.st, IntTy, "");
    var c := NewConst(elem.st, ArmCode.Trunc32(cols));
    var mul := NewBinary(c.st, OpMulI, row, c.v, IntTy);
    var add := NewBinary(mul.st, OpAddI, mulR.v, col, IntTy);
    var four := NewConst(add.st, 4);
    var off := NewBinary(four.st, OpMulI, addR.v, four.v, IntTy);
    var ptr := NewBinary(off.st, OpAddI, av, offR.v, PtrTy(IntTy));
    StepPlain(mul.inst, Copy(mulR.v, mul.res), add.inst, Copy(addR.v, add.res));
    TailPlain(off.inst, Copy(offR.v, off.res), ptr.inst, Copy(ptrR.v, ptr.res), LoadThrough(elem.v, ptrR.v));
    PlainCat([mul.inst, Copy(mulR.v, mul.res), add.inst, Copy(addR.v, add.res)],
             [off.inst, Copy(offR.v, off.res), ptr.inst, Copy(ptrR.v, ptr.res), LoadThrough(elem.v, ptrR.v)]);
    Access(ptr.st,
      [mul.inst, Copy(mulR.v, mul.res), add.inst, Copy(addR.v, add.res)]
      + [off.inst, Copy(offR.v, off.res), ptr.inst, Copy(ptrR.v, ptr.res), LoadThrough(elem.v, ptrR.v)],
      offR.v, ptrR.v, elem.v)
  }

  datatype Steps = Steps(st: GenState, code: seq<IRInst>)

  /** Steps `i ..` of the general path: `m = cur * strides[i]; cur = m + idx[i]`. */
  function IndexSteps(st: GenState, cur: Value, strides: seq<i32>, idx: seq<Value>, i: nat): (r: Steps)
    requires 1 <= i <= |idx| <= |strides|
    ensures NoControl(r.code) && st.nextId <= r.st.nextId && (Calm(st) ==> Keeps(st, r.st))
    decreases |idx| - i
  {
    if i == |idx| then Steps(st, [])
    else
      var mulR := NewVar(st, IntTy, "");
      var s := NewConst(mulR.st, strides[i]);
      var mul := NewBinary(s.st, OpMulI, cur, s.v, IntTy);
      var add := NewBinary(mul.st, OpAddI, mulR.v, idx[i], IntTy);
      var rest := IndexSteps(add.st, cur, strides, idx, i + 1);
      StepPlain(mul.inst, Copy(mulR.v, mul.res), add.inst, Copy(cur, add.res));
      PlainCat([mul.inst, Copy(mulR.v, mul.res), add.inst, Copy(cur, add.res)], rest.code);
      Steps(rest.st, [mul.inst, Copy(mulR.v, mul.res), add.inst, Copy(cur, add.res)] + rest.code)
  }

  /** The general path: accumulate the linear index in `cur`, then scale, add and load. */
  function GeneralAccess(st: GenState, av: Value, strides: seq<i32>, idx: seq<Value>): (a: Access)
    requires 1 <= |idx| <= |strides|
    ensures NoControl(a.code) && (Calm(st) ==> Keeps(st, a.st))
  {
    var cur := NewVar(st, IntTy, "");
    var steps := IndexSteps(cur.st, cur.v, strides, idx, 1);
    var tail := ScaleAndLoad(steps.st, av, cur.v);
    PlainCat([Copy(cur.v, idx[0])], steps.code);
    PlainCat([Copy(cur.v, idx[0])] + steps.code, tail.code);
    Access(tail.st, [Copy(cur.v, idx[0])] + steps.code + tail.code, tail.offset, tail.ptr, tail.elem)
  }

  /** The end of the general path: `off = cur * 4`, `ptr = base + off`, load through `ptr`. */
  function ScaleAndLoad(st: GenState, av: Value, cur: Value): (a: Access)
    ensures NoControl(a.code) && (Calm(st) ==> Keeps(st, a.st))
  {
    var offR := NewVar(st, IntTy, "");
    var four := NewConst(offR.st, 4);
    var off := NewBinary(four.st, OpMulI, cur, four.v, IntTy);
    var ptrR := NewVar(off.st, PtrTy(IntTy), "");
    var ptr := NewBinary(ptrR.st, OpAddI, av, offR.v, PtrTy(IntTy));
    var elem := NewVar(ptr.st, IntTy, "");
    TailPlain(off.inst, Copy(offR.v, off.res), ptr.inst, Copy(ptrR.v, ptr.res), LoadThrough(elem.v, ptrR.v));
    Access(elem.st, [off.inst, Copy(offR.v, off.res), ptr.inst, Copy(ptrR.v, ptr.res), LoadThrough(elem.v, ptrR.v)],
           offR.v, ptrR.v, elem.v)
  }

  // ---------------------------------------------------------------------
  // Function definitions

  /** A formal parameter as the AST gives it; `None` is a parameter node with fewer than two sons. */
  datatype Param = Param(ty: Ty, name: string)

  /** A function definition node: return type, name, formal parameters and body statements. */
  datatype FuncDef = FuncDef(retTy: Ty, name: string, params: seq<Option<Param>>, body: seq<Node>)

  /** A lowered function: its IR and what the backend reads from the `Function` object. */
  datatype FuncIR = FuncIR(name: string, code: seq<IRInst>, locals: seq<Value>, retValue: Option<Value>,
                           maxArgCnt: int, existCall: bool)

  datatype Defined = Defined(st: GenState, f: Option<FuncIR>)

  datatype Formals = Formals(st: GenState, params: Option<seq<Value>>)

  /** The `FormalParam` objects `newFunction` is given, built from the parameter nodes. */
  function FormalsOf(ps: seq<Option<Param>>, st: GenState): (r: Formals)
    ensures r.params.Some? <==> forall j :: 0 <= j < |ps| ==> ps[j].Some?
    ensures r.params.Some? ==> |r.params.value| == |ps|
                               && forall j :: 0 <= j < |ps| ==> r.params.value[j].name == ps[j].value.name
                                                                && r.params.value[j].ty == ps[j].value.ty
    ensures r.st == st.(nextId := r.st.nextId) && st.nextId <= r.st.nextId
    decreases |ps|
  {
    if |ps| == 0 then Formals(st, Some([]))
    else if ps[0].None? then Formals(st, None)
    else
      var p := Value(st.nextId, FormalParam, ps[0].value.name, ps[0].value.ty, -1, None);
      var rest := FormalsOf(ps[1..], Skip(st, 1));
      Formals(rest.st, if rest.params.None? then None else Some([p] + rest.params.value))
  }

  /** `ir_function_formal_params`: a local copy of each formal parameter, `local = param`. */
  function ParamMoves(st: GenState, params: seq<Value>, i: nat): (r: Steps)
    requires i <= |params|
    ensures |r.code| == |params| - i && NoControl(r.code) && r.st.nextId == st.nextId + |params| - i
    ensures Calm(st) ==> Keeps(st, r.st)
    decreases |params| - i
  {
    if i == |params| then Steps(st, [])
    else
      var local := NewVar(st, params[i].ty, params[i].name);
      var rest := ParamMoves(local.st, params, i + 1);
      Steps(rest.st, [Copy(local.v, params[i])] + rest.code)
  }

  /** The `j`-th parameter copy moves formal parameter `i + j` into a new local of the same name, numbered `st.nextId + j`. */
  lemma {:induction false} ParamMovesCopy(st: GenState, params: seq<Value>, i: nat, j: nat)
    requires i <= |params| && j < |params| - i
    ensures var c := ParamMoves(st, params, i).code[j];
      c.op == OpAssign && |c.operands| == 2 && c.operands[1] == params[i + j]
      && c.operands[0].id == st.nextId + j && c.operands[0].name == params[i + j].name
    decreases j
  {
    if j > 0 {
      var local := NewVar(st, params[i].ty, params[i].name);
      ParamMovesCopy(local.st, params, i + 1, j - 1);
      assert ParamMoves(st, params, i).code[j] == ParamMoves(local.st, params, i + 1).code[j - 1];
    }
  }

  /**
   * `ir_function_define`: no definition inside a function; a function not
   * declared before is created from its parameter nodes.  The IR is
   * `entry`, the parameter copies, the body, the exit label and `exit`
   * (with the return variable when the return type is not void).
   */
  function DefineFunction(d: FuncDef, st: GenState): Defined {
    if st.current.Some? then Defined(st, None)
    else
      var fs := if d.name in st.funcs then Formals(st, Some(st.funcs[d.name].params)) else FormalsOf(d.params, st);
      if fs.params.None? then Defined(fs.st, None)
      else
        var sig := if d.name in st.funcs then st.funcs[d.name] else Sig(fs.params.value, d.retTy);
        var exitL := LabelAt(fs.st, 0);
        var st1 := Skip(fs.st, 1).(funcs := fs.st.funcs[d.name := sig], current := Some(d.name),
                                   exitLabel := Some(exitL), retValue := None,
                                   breakLabel := None, continueLabel := None, boolCheck := None, boolMove := None,
                                   maxArgCnt := 0, existCall := false, locals := []);
        var pm := ParamMoves(st1, sig.params, 0);
        var st2 := if d.retTy.VoidTy? then pm.st
                   else var r := NewVar(pm.st, d.retTy, ""); r.st.(retValue := Some(r.v));
        var b := Lower(Block(d.body, false), st2);
        if b.out.None? then Defined(b.st, None)
        else
          Defined(b.st.(current := None, vars := st.vars),
                  Some(FuncIR(d.name, [EntryInst()] + pm.code + b.out.value.code + [LabelInst(exitL), ExitInst(st2.retValue)],
                              b.st.locals, st2.retValue, b.st.maxArgCnt, b.st.existCall)))
  }

  // ---------------------------------------------------------------------
  // Labels and jumps of generated code, one label id at a time

  /** Instruction `i` is the label `id`. */
  predicate Defines(i: IRInst, id: nat) {
    i.op == OpLabel && i.target.Some? && i.target.value.id == id
  }

  /** Instruction `i` is a goto that may jump to label `id`. */
  predicate Targets(i: IRInst, id: nat) {
    i.op == OpGoto && ((i.target.Some? && i.target.value.id == id) || (i.falseTarget.Some? && i.falseTarget.value.id == id))
  }

  /** How many times `c` defines label `id`. */
  function Defs(c: seq<IRInst>, id: nat): nat {
    if |c| == 0 then 0 else (if Defines(c[0], id) then 1 else 0) + Defs(c[1..], id)
  }

  /** Some goto of `c` may jump to label `id`. */
  predicate JumpsTo(c: seq<IRInst>, id: nat) {
    |c| > 0 && (Targets(c[0], id) || JumpsTo(c[1..], id))
  }

  /** The labels of the enclosing context a statement may jump to: the loop's end and condition labels and the function's exit label. */
  datatype Enclosing = Enclosing(breakL: Option<Label>, continueL: Option<Label>, exitL: Option<Label>)

  function EnclosingOf(st: GenState): Enclosing {
    Enclosing(st.breakLabel, st.continueLabel, st.exitLabel)
  }

  predicate InCtx(e: Enclosing, id: nat) {
    (e.breakL.Some? && e.breakL.value.id == id) || (e.continueL.Some? && e.continueL.value.id == id)
    || (e.exitL.Some? && e.exitL.value.id == id)
  }

  /** No pending `int_to_bool` instructions in `extraData`. */
  predicate Calm(st: GenState) {
    st.boolCheck.None? && st.boolMove.None?
  }

  /**
   * What a successful handler leaves alone: the current function, its exit
   * label and return variable, the enclosing loop's labels and the function
   * table; ids only grow, `extraData` is empty again and the largest
   * argument count does not shrink.
   */
  predicate Keeps(st: GenState, st': GenState) {
    st.nextId <= st'.nextId && st'.current == st.current && st'.exitLabel == st.exitLabel
    && st'.retValue == st.retValue && st'.breakLabel == st.breakLabel && st'.continueLabel == st.continueLabel
    && st'.funcs == st.funcs && Calm(st') && st.maxArgCnt <= st'.maxArgCnt
  }

  /**
   * Code `c` seen from label `id`: `c` defines `id` at most once, and only
   * if `lo <= id < hi`; a jump to `id` in `c` goes to a label `c` defines or
   * to one of the enclosing context `e`.
   */
  predicate LabelsOk(c: seq<IRInst>, id: nat, lo: nat, hi: nat, e: Enclosing) {
    Defs(c, id) <= 1 && (Defs(c, id) == 1 ==> lo <= id < hi) && (JumpsTo(c, id) ==> Defs(c, id) == 1 || InCtx(e, id))
  }

  /**
   * The invariant of a successful lowering from `st` to `st'` producing `c`,
   * seen from label `id`: the state is kept, and `c` defines `id` at most
   * once, only if `id` was handed out during the lowering, and jumps to it
   * only if it defines it or it belongs to the enclosing context.
   */
  predicate GoodAt(st: GenState, st': GenState, c: seq<IRInst>, id: nat) {
    Keeps(st, st') && LabelsOk(c, id, st.nextId, st'.nextId, EnclosingOf(st))
  }

  lemma {:induction false} Cat(a: seq<IRInst>, b: seq<IRInst>, id: nat)
    ensures Defs(a + b, id) == Defs(a, id) + Defs(b, id)
    ensures JumpsTo(a + b, id) <==> JumpsTo(a, id) || JumpsTo(b, id)
    decreases |a|
  {
    if |a| == 0 {
      assert a + b == b;
    } else {
      assert (a + b)[0] == a[0];
      assert (a + b)[1..] == a[1..] + b;
      Cat(a[1..], b, id);
    }
  }

  lemma Cat3(a: seq<IRInst>, b: seq<IRInst>, c: seq<IRInst>, id: nat)
    ensures Defs(a + b + c, id) == Defs(a, id) + Defs(b, id) + Defs(c, id)
    ensures JumpsTo(a + b + c, id) <==> JumpsTo(a, id) || JumpsTo(b, id) || JumpsTo(c, id)
  {
    Cat(a, b, id);
    Cat(a + b, c, id);
  }

  lemma Cat4(a: seq<IRInst>, b: seq<IRInst>, c: seq<IRInst>, d: seq<IRInst>, id: nat)
    ensures Defs(a + b + c + d, id) == Defs(a, id) + Defs(b, id) + Defs(c, id) + Defs(d, id)
    ensures JumpsTo(a + b + c + d, id) <==> JumpsTo(a, id) || JumpsTo(b, id) || JumpsTo(c, id) || JumpsTo(d, id)
  {
    Cat3(a, b, c, id);
    Cat(a + b + c, d, id);
  }

  lemma Cat5(a: seq<IRInst>, b: seq<IRInst>, c: seq<IRInst>, d: seq<IRInst>, e: seq<IRInst>, id: nat)
    ensures Defs(a + b + c + d + e, id) == Defs(a, id) + Defs(b, id) + Defs(c, id) + Defs(d, id) + Defs(e, id)
    ensures JumpsTo(a + b + c + d + e, id) <==> JumpsTo(a, id) || JumpsTo(b, id) || JumpsTo(c, id) || JumpsTo(d, id) || JumpsTo(e, id)
  {
    Cat4(a, b, c, d, id);
    Cat(a + b + c + d, e, id);
  }

  lemma Cat6(a: seq<IRInst>, b: seq<IRInst>, c: seq<IRInst>, d: seq<IRInst>, e: seq<IRInst>, f: seq<IRInst>, id: nat)
    ensures Defs(a + b + c + d + e + f, id) == Defs(a, id) + Defs(b, id) + Defs(c, id) + Defs(d, id) + Defs(e, id) + Defs(f, id)
    ensures JumpsTo(a + b + c + d + e + f, id)
            <==> JumpsTo(a, id) || JumpsTo(b, id) || JumpsTo(c, id) || JumpsTo(d, id) || JumpsTo(e, id) || JumpsTo(f, id)
  {
    Cat5(a, b, c, d, e, id);
    Cat(a + b + c + d + e, f, id);
  }

  lemma Single(i: IRInst, id: nat)
    ensures Defs([i], id) == (if Defines(i, id) then 1 else 0) && (JumpsTo([i], id) <==> Targets(i, id))
  {
    assert [i][1..] == [];
  }

  lemma Pair(x: IRInst, y: IRInst, id: nat)
    ensures Defs([x, y], id) == (if Defines(x, id) then 1 else 0) + (if Defines(y, id) then 1 else 0)
    ensures JumpsTo([x, y], id) <==> Targets(x, id) || Targets(y, id)
  {
    assert [x, y] == [x] + [y];
    Cat([x], [y], id);
    Single(x, id);
    Single(y, id);
  }

  lemma {:induction false} Plain(c: seq<IRInst>, id: nat)
    requires NoControl(c)
    ensures Defs(c, id) == 0 && !JumpsTo(c, id)
    decreases |c|
  {
    if |c| > 0 {
      assert NoControl(c[1..]) by {
        forall i | 0 <= i < |c[1..]| ensures c[1..][i].op != OpLabel && c[1..][i].op != OpGoto {
          assert c[1..][i] == c[i + 1];
        }
      }
      Plain(c[1..], id);
    }
  }

  /** The fresh-object helpers change nothing but the id counter, the symbol table and the local list. */
  lemma PlainCat(a: seq<IRInst>, b: seq<IRInst>)
    requires NoControl(a) && NoControl(b)
    ensures NoControl(a + b)
  {
  }

  /** One step of the general path: `t = mul cur, s; m = t; u = add m, i; cur = u`. */
  lemma StepPlain(mul: IRInst, c1: IRInst, add: IRInst, c2: IRInst)
    requires mul.op == OpMulI && c1.op == OpAssign && add.op == OpAddI && c2.op == OpAssign
    ensures NoControl([mul, c1, add, c2])
  {
  }

  /** The end of both paths: scale by 4, add to the base, load. */
  lemma TailPlain(off: IRInst, c1: IRInst, ptr: IRInst, c2: IRInst, ld: IRInst)
    requires off.op == OpMulI && c1.op == OpAssign && ptr.op == OpAddI && c2.op == OpAssign && ld.op == OpAssign
    ensures NoControl([off, c1, ptr, c2, ld])
  {
  }

  /** `int_to_bool` followed by the logical operator taking `extraData`: straight-line code, nothing else disturbed. */
  lemma IntToBoolTaken(v: Value, st: GenState)
    requires Calm(st)
    ensures var b := IntToBool(v, st); NoControl(Pending(b.st)) && Keeps(st, Taken(b.st))
  {
  }

  /** The tail of `&&` and `||`: `r = right; goto end; mid: r = k; end:`. */
  lemma ShortCircuitTail(r: Value, rv: Value, k: Value, endL: Label, midL: Label, id: nat)
    ensures var t := [Copy(r, rv), Goto(endL), LabelInst(midL), Copy(r, k), LabelInst(endL)];
      Defs(t, id) == (if id == midL.id then 1 else 0) + (if id == endL.id then 1 else 0)
      && (JumpsTo(t, id) <==> id == endL.id)
  {
    var t := [Copy(r, rv), Goto(endL), LabelInst(midL), Copy(r, k), LabelInst(endL)];
    assert t == [Copy(r, rv), Goto(endL)] + [LabelInst(midL), Copy(r, k)] + [LabelInst(endL)];
    Pair(Copy(r, rv), Goto(endL), id);
    Pair(LabelInst(midL), Copy(r, k), id);
    Single(LabelInst(endL), id);
    Cat3([Copy(r, rv), Goto(endL)], [LabelInst(midL), Copy(r, k)], [LabelInst(endL)], id);
  }

  /** Two pieces whose labels come from consecutive id ranges. */
  lemma SeqAt(a: seq<IRInst>, b: seq<IRInst>, id: nat, lo: nat, mid: nat, hi: nat, e: Enclosing)
    requires lo <= mid <= hi && LabelsOk(a, id, lo, mid, e) && LabelsOk(b, id, mid, hi, e)
    ensures LabelsOk(a + b, id, lo, hi, e)
  {
    Cat(a, b, id);
  }

  /** Code without labels or jumps is fine for every label and every range. */
  lemma PlainAt(c: seq<IRInst>, id: nat, lo: nat, hi: nat, e: Enclosing)
    requires NoControl(c)
    ensures LabelsOk(c, id, lo, hi, e)
  {
    Plain(c, id);
  }

  /**
   * The shape of `if`: `cond; goto c ? L0 : L1; L0: body; L1:` with the two
   * labels taken from `base` before the condition and the body.
   */
  lemma IfAt(base: nat, lo1: nat, hi1: nat, lo2: nat, hi2: nat, hi: nat, e: Enclosing,
             cc: seq<IRInst>, cv: Value, body: seq<IRInst>, code: seq<IRInst>, id: nat)
    requires base + 2 <= lo1 <= hi1 <= lo2 <= hi2 <= hi
    requires LabelsOk(cc, id, lo1, hi1, e) && LabelsOk(body, id, lo2, hi2, e)
    requires var thenL := Label(base, ""); var endL := Label(base + 1, "");
      code == cc + [CondGoto(cv, thenL, endL), LabelInst(thenL)] + body + [LabelInst(endL)]
    ensures LabelsOk(code, id, base, hi, e)
  {
    var thenL := Label(base, "");
    var endL := Label(base + 1, "");
    Pair(CondGoto(cv, thenL, endL), LabelInst(thenL), id);
    Single(LabelInst(endL), id);
    Cat4(cc, [CondGoto(cv, thenL, endL), LabelInst(thenL)], body, [LabelInst(endL)], id);
  }

  /** The shape of `if`/`else`: `cond; goto c ? L0 : L1; L0: A; goto L2; L1: B; L2:`. */
  lemma IfElseAt(base: nat, lo1: nat, hi1: nat, lo2: nat, hi2: nat, lo3: nat, hi3: nat, hi: nat, e: Enclosing,
                 cc: seq<IRInst>, cv: Value, tc: seq<IRInst>, ec: seq<IRInst>, code: seq<IRInst>, id: nat)
    requires base + 3 <= lo1 <= hi1 <= lo2 <= hi2 <= lo3 <= hi3 <= hi
    requires LabelsOk(cc, id, lo1, hi1, e) && LabelsOk(tc, id, lo2, hi2, e) && LabelsOk(ec, id, lo3, hi3, e)
    requires var thenL := Label(base, ""); var elseL := Label(base + 1, ""); var endL := Label(base + 2, "");
      code == cc + [CondGoto(cv, thenL, elseL), LabelInst(thenL)] + tc + [Goto(endL), LabelInst(elseL)] + ec + [LabelInst(endL)]
    ensures LabelsOk(code, id, base, hi, e)
  {
    var thenL := Label(base, "");
    var elseL := Label(base + 1, "");
    var endL := Label(base + 2, "");
    Pair(CondGoto(cv, thenL, elseL), LabelInst(thenL), id);
    Pair(Goto(endL), LabelInst(elseL), id);
    Single(LabelInst(endL), id);
    Cat6(cc, [CondGoto(cv, thenL, elseL), LabelInst(thenL)], tc, [Goto(endL), LabelInst(elseL)], ec, [LabelInst(endL)], id);
  }

  /**
   * The shape of `while`: `L0: cond; goto c ? L1 : L2; L1: body; goto L0; L2:`,
   * where the condition and the body may also jump to `L0` and `L2`.
   */
  lemma WhileAt(base: nat, lo1: nat, hi1: nat, lo2: nat, hi2: nat, hi: nat, e: Enclosing, inner: Enclosing,
                cc: seq<IRInst>, cv: Value, bc: seq<IRInst>, code: seq<IRInst>, id: nat)
    requires base + 3 <= lo1 <= hi1 <= lo2 <= hi2 <= hi
    requires InCtx(inner, id) ==> InCtx(e, id) || id == base || id == base + 2
    requires LabelsOk(cc, id, lo1, hi1, inner) && LabelsOk(bc, id, lo2, hi2, inner)
    requires var condL := Label(base, ""); var bodyL := Label(base + 1, ""); var endL := Label(base + 2, "");
      code == [LabelInst(condL)] + cc + [CondGoto(cv, bodyL, endL), LabelInst(bodyL)] + bc + [Goto(condL), LabelInst(endL)]
    ensures LabelsOk(code, id, base, hi, e)
  {
    var condL := Label(base, "");
    var bodyL := Label(base + 1, "");
    var endL := Label(base + 2, "");
    Single(LabelInst(condL), id);
    Pair(CondGoto(cv, bodyL, endL), LabelInst(bodyL), id);
    Pair(Goto(condL), LabelInst(endL), id);
    Cat5([LabelInst(condL)], cc, [CondGoto(cv, bodyL, endL), LabelInst(bodyL)], bc, [Goto(condL), LabelInst(endL)], id);
  }

  /**
   * The shape shared by `&&` and `||`: the left operand, the pending
   * `int_to_bool` code, `goto b ? .. : ..; L0:`, the right operand and the
   * tail, which defines `L1` and `L2` and jumps to `L2`.
   */
  lemma ShortCircuitAt(base: nat, lo1: nat, hi1: nat, lo2: nat, hi2: nat, hi: nat, e: Enclosing,
                       lc: seq<IRInst>, pc: seq<IRInst>, p1: seq<IRInst>, rc: seq<IRInst>, tail: seq<IRInst>, id: nat)
    requires base + 3 <= lo1 <= hi1 <= lo2 <= hi2 <= hi
    requires LabelsOk(lc, id, lo1, hi1, e) && LabelsOk(rc, id, lo2, hi2, e)
    requires Defs(pc, id) == 0 && !JumpsTo(pc, id)
    requires Defs(p1, id) == (if id == base then 1 else 0) && (JumpsTo(p1, id) <==> id == base || id == base + 1)
    requires Defs(tail, id) == (if id == base + 1 then 1 else 0) + (if id == base + 2 then 1 else 0)
    requires JumpsTo(tail, id) <==> id == base + 2
    ensures LabelsOk(lc + pc + p1 + rc + tail, id, base, hi, e)
  {
    Cat5(lc, pc, p1, rc, tail, id);
  }

  /** `&&` with its labels `base` (second operand), `base + 1` (false) and `base + 2` (end). */
  lemma AndAt(base: nat, lo1: nat, hi1: nat, lo2: nat, hi2: nat, e: Enclosing,
              lc: seq<IRInst>, pc: seq<IRInst>, bv: Value, rc: seq<IRInst>, r: Value, rv: Value, k: Value,
              code: seq<IRInst>, hi: nat, id: nat)
    requires base + 3 <= lo1 <= hi1 <= lo2 <= hi2 && hi == hi2 + 1
    requires LabelsOk(lc, id, lo1, hi1, e) && LabelsOk(rc, id, lo2, hi2, e) && NoControl(pc)
    requires var secondL := Label(base, ""); var falseL := Label(base + 1, ""); var endL := Label(base + 2, "");
      code == lc + pc + [CondGoto(bv, secondL, falseL), LabelInst(secondL)] + rc
              + [Copy(r, rv), Goto(endL), LabelInst(falseL), Copy(r, k), LabelInst(endL)]
    ensures LabelsOk(code, id, base, hi, e)
  {
    var secondL := Label(base, "");
    var falseL := Label(base + 1, "");
    var endL := Label(base + 2, "");
    Plain(pc, id);
    Pair(CondGoto(bv, secondL, falseL), LabelInst(secondL), id);
    ShortCircuitTail(r, rv, k, endL, falseL, id);
    ShortCircuitAt(base, lo1, hi1, lo2, hi2, hi2 + 1, e, lc, pc, [CondGoto(bv, secondL, falseL), LabelInst(secondL)], rc,
                   [Copy(r, rv), Goto(endL), LabelInst(falseL), Copy(r, k), LabelInst(endL)], id);
  }

  /** `||` with its labels `base` (second operand), `base + 1` (true) and `base + 2` (end). */
  lemma OrAt(base: nat, lo1: nat, hi1: nat, lo2: nat, hi2: nat, e: Enclosing,
             lc: seq<IRInst>, pc: seq<IRInst>, bv: Value, rc: seq<IRInst>, r: Value, rv: Value, k: Value,
             code: seq<IRInst>, hi: nat, id: nat)
    requires base + 3 <= lo1 <= hi1 <= lo2 <= hi2 && hi == hi2 + 1
    requires LabelsOk(lc, id, lo1, hi1, e) && LabelsOk(rc, id, lo2, hi2, e) && NoControl(pc)
    requires var secondL := Label(base, ""); var trueL := Label(base + 1, ""); var endL := Label(base + 2, "");
      code == lc + pc + [CondGoto(bv, trueL, secondL), LabelInst(secondL)] + rc
              + [Copy(r, rv), Goto(endL), LabelInst(trueL), Copy(r, k), LabelInst(endL)]
    ensures LabelsOk(code, id, base, hi, e)
  {
    var secondL := Label(base, "");
    var trueL := Label(base + 1, "");
    var endL := Label(base + 2, "");
    Plain(pc, id);
    Pair(CondGoto(bv, trueL, secondL), LabelInst(secondL), id);
    ShortCircuitTail(r, rv, k, endL, trueL, id);
    ShortCircuitAt(base, lo1, hi1, lo2, hi2, hi2 + 1, e, lc, pc, [CondGoto(bv, trueL, secondL), LabelInst(secondL)], rc,
                   [Copy(r, rv), Goto(endL), LabelInst(trueL), Copy(r, k), LabelInst(endL)], id);
  }

  /** Every successful intended lowering satisfies `GoodAt` for every label id. */
  lemma {:induction false} LowerGood(n: Node, st: GenState, id: nat)
    requires Calm(st)
    ensures Lower(n, st).out.Some? ==> GoodAt(st, Lower(n, st).st, Lower(n, st).out.value.code, id)
    decreases n, 1
  {
    if Lower(n, st).out.Some? {
      match n
      case Literal(_) => LeafGood(n, st, id);
      case VarId(_) => LeafGood(n, st, id);
      case Opaque(_, _) => LeafGood(n, st, id);
      case EmptyStmt => LeafGood(n, st, id);
      case Break => JumpGood(n, st, id);
      case Continue => JumpGood(n, st, id);
      case Block(_, _) => BlockGood(n, st, id);
      case If(_, _) => IfGood(n, st, id);
      case IfElse(_, _, _) => IfElseGood(n, st, id);
      case While(_, _) => WhileGood(n, st, id);
      case LogicAnd(_) => AndGood(n, st, id);
      case LogicOr(_) => OrGood(n, st, id);
      case LogicNot(_) => NotGood(n, st, id);
      case Assign(_, _) => AssignGood(n, st, id);
      case Return(_) => ReturnGood(n, st, id);
      case Call(_, _) => CallGood(n, st, id);
      case ArrayDef(_, _) => ArrayDefGood(n, st, id);
      case ArrayAccess(_, _) => ArrayAccessGood(n, st, id);
    }
  }

  /** Literals, variables, the handlers outside this model and empty statements: straight-line code. */
  lemma LeafGood(n: Node, st: GenState, id: nat)
    requires (n.Literal? || n.VarId? || n.Opaque? || n.EmptyStmt?) && Calm(st)
    ensures var g := LowerLeaf(n, st); g.out.Some? ==> GoodAt(st, g.st, g.out.value.code, id)
  {
    if n.Opaque? {
      Plain(n.code, id);
    }
  }

  /** `break` and `continue` jump only to the enclosing loop's labels. */
  lemma JumpGood(n: Node, st: GenState, id: nat)
    requires (n.Break? || n.Continue?) && Calm(st)
    ensures var g := LowerJump(n, st); g.out.Some? ==> GoodAt(st, g.st, g.out.value.code, id)
  {
    if LowerJump(n, st).out.Some? {
      Single(Goto((if n.Break? then st.breakLabel else st.continueLabel).value), id);
    }
  }

  lemma {:induction false} LowerListGood(ns: seq<Node>, st: GenState, id: nat)
    requires Calm(st)
    ensures LowerList(ns, st).outs.Some? ==> GoodAt(st, LowerList(ns, st).st, LowerList(ns, st).outs.value.code, id)
    decreases ns
  {
    if LowerList(ns, st).outs.Some? {
      if |ns| > 0 {
        var h := Lower(ns[0], st);
        LowerGood(ns[0], st, id);
        var t := LowerList(ns[1..], h.st);
        LowerListGood(ns[1..], h.st, id);
        Cat(h.out.value.code, t.outs.value.code, id);
      }
    }
  }

  lemma {:induction false} BlockGood(n: Node, st: GenState, id: nat)
    requires n.Block? && Calm(st)
    ensures var g := LowerBlock(n, st); g.out.Some? ==> GoodAt(st, g.st, g.out.value.code, id)
    decreases n, 0
  {
    if LowerBlock(n, st).out.Some? {
      LowerListGood(n.stmts, st, id);
    }
  }

  lemma {:induction false} IfGood(n: Node, st: GenState, id: nat)
    requires n.If? && Calm(st)
    ensures var g := LowerIf(n, st); g.out.Some? ==> GoodAt(st, g.st, g.out.value.code, id)
    decreases n, 0
  {
    if LowerIf(n, st).out.Some? {
      var c := Lower(n.cond, Skip(st, 2));
      LowerGood(n.cond, Skip(st, 2), id);
      if n.thenPart.None? {
        assert LowerIf(n, st).out.value.code
            == c.out.value.code + [CondGoto(c.out.value.val.value, LabelAt(st, 0), LabelAt(st, 1)), LabelInst(LabelAt(st, 0))]
               + [] + [LabelInst(LabelAt(st, 1))];
        IfAt(st.nextId, st.nextId + 2, c.st.nextId, c.st.nextId, c.st.nextId, LowerIf(n, st).st.nextId, EnclosingOf(st),
             c.out.value.code, c.out.value.val.value, [], LowerIf(n, st).out.value.code, id);
      } else {
        var t := Lower(n.thenPart.value, c.st);
        LowerGood(n.thenPart.value, c.st, id);
        IfAt(st.nextId, st.nextId + 2, c.st.nextId, c.st.nextId, t.st.nextId, LowerIf(n, st).st.nextId, EnclosingOf(st),
             c.out.value.code, c.out.value.val.value, t.out.value.code, LowerIf(n, st).out.value.code, id);
      }
    }
  }

  lemma {:induction false} IfElseGood(n: Node, st: GenState, id: nat)
    requires n.IfElse? && Calm(st)
    ensures var g := LowerIfElse(n, st); g.out.Some? ==> GoodAt(st, g.st, g.out.value.code, id)
    decreases n, 0
  {
    if LowerIfElse(n, st).out.Some? {
      var c := Lower(n.cond, Skip(st, 3));
      LowerGood(n.cond, Skip(st, 3), id);
      var t := Lower(n.thenStmt, c.st);
      LowerGood(n.thenStmt, c.st, id);
      var e := Lower(n.elseStmt, t.st);
      LowerGood(n.elseStmt, t.st, id);
      IfElseAt(st.nextId, st.nextId + 3, c.st.nextId, c.st.nextId, t.st.nextId, t.st.nextId, e.st.nextId,
               LowerIfElse(n, st).st.nextId, EnclosingOf(st), c.out.value.code, c.out.value.val.value,
               t.out.value.code, e.out.value.code, LowerIfElse(n, st).out.value.code, id);
    }
  }

  lemma {:induction false} WhileGood(n: Node, st: GenState, id: nat)
    requires n.While? && Calm(st)
    ensures var g := LowerWhile(n, st); g.out.Some? ==> GoodAt(st, g.st, g.out.value.code, id)
    decreases n, 0
  {
    if LowerWhile(n, st).out.Some? {
      var st1 := Skip(st, 3).(breakLabel := Some(LabelAt(st, 2)), continueLabel := Some(LabelAt(st, 0)));
      var c := Lower(n.cond, st1);
      LowerGood(n.cond, st1, id);
      var b := Lower(n.body, c.st);
      LowerGood(n.body, c.st, id);
      WhileAt(st.nextId, st.nextId + 3, c.st.nextId, c.st.nextId, b.st.nextId, LowerWhile(n, st).st.nextId,
              EnclosingOf(st), EnclosingOf(st1), c.out.value.code, c.out.value.val.value, b.out.value.code,
              LowerWhile(n, st).out.value.code, id);
    }
  }

  lemma {:induction false} AndGood(n: Node, st: GenState, id: nat)
    requires n.LogicAnd? && Calm(st)
    ensures var g := LowerAnd(n, st); g.out.Some? ==> GoodAt(st, g.st, g.out.value.code, id)
    decreases n, 0
  {
    if LowerAnd(n, st).out.Some? {
      AndKeeps(n, st);
      AndLabels(n, st, id);
    }
  }

  lemma {:induction false} AndKeeps(n: Node, st: GenState)
    requires n.LogicAnd? && Calm(st)
    ensures LowerAnd(n, st).out.Some? ==> Keeps(st, LowerAnd(n, st).st)
    decreases n, 0, 1
  {
    if LowerAnd(n, st).out.Some? {
      var r := NewVar(Skip(st, 3), IntTy, "");
      var left := Lower(n.sons[0], r.st);
      LowerGood(n.sons[0], r.st, 0);
      var b := IntToBool(left.out.value.val.value, left.st);
      IntToBoolTaken(left.out.value.val.value, left.st);
      LowerGood(n.sons[1], Taken(b.st), 0);
    }
  }

  lemma {:induction false} AndLabels(n: Node, st: GenState, id: nat)
    requires n.LogicAnd? && Calm(st)
    ensures var g := LowerAnd(n, st); g.out.Some? ==> LabelsOk(g.out.value.code, id, st.nextId, g.st.nextId, EnclosingOf(st))
    decreases n, 0, 1
  {
    if LowerAnd(n, st).out.Some? {
      var r := NewVar(Skip(st, 3), IntTy, "");
      var left := Lower(n.sons[0], r.st);
      LowerGood(n.sons[0], r.st, id);
      var b := IntToBool(left.out.value.val.value, left.st);
      IntToBoolTaken(left.out.value.val.value, left.st);
      var right := Lower(n.sons[1], Taken(b.st));
      LowerGood(n.sons[1], Taken(b.st), id);
      AndAt(st.nextId, r.st.nextId, left.st.nextId, Taken(b.st).nextId, right.st.nextId, EnclosingOf(st),
            left.out.value.code, Pending(b.st), b.v, right.out.value.code, r.v, right.out.value.val.value, NewConst(right.st, 0).v,
            LowerAnd(n, st).out.value.code, LowerAnd(n, st).st.nextId, id);
    }
  }

  lemma {:induction false} OrGood(n: Node, st: GenState, id: nat)
    requires n.LogicOr? && Calm(st)
    ensures var g := LowerOr(n, st); g.out.Some? ==> GoodAt(st, g.st, g.out.value.code, id)
    decreases n, 0
  {
    if LowerOr(n, st).out.Some? {
      OrKeeps(n, st);
      OrLabels(n, st, id);
    }
  }

  lemma {:induction false} OrKeeps(n: Node, st: GenState)
    requires n.LogicOr? && Calm(st)
    ensures LowerOr(n, st).out.Some? ==> Keeps(st, LowerOr(n, st).st)
    decreases n, 0, 1
  {
    if LowerOr(n, st).out.Some? {
      var r := NewVar(Skip(st, 3), IntTy, "");
      var left := Lower(n.sons[0], r.st);
      LowerGood(n.sons[0], r.st, 0);
      var b := IntToBool(left.out.value.val.value, left.st);
      IntToBoolTaken(left.out.value.val.value, left.st);
      LowerGood(n.sons[1], Taken(b.st), 0);
    }
  }

  lemma {:induction false} OrLabels(n: Node, st: GenState, id: nat)
    requires n.LogicOr? && Calm(st)
    ensures var g := LowerOr(n, st); g.out.Some? ==> LabelsOk(g.out.value.code, id, st.nextId, g.st.nextId, EnclosingOf(st))
    decreases n, 0, 1
  {
    if LowerOr(n, st).out.Some? {
      var r := NewVar(Skip(st, 3), IntTy, "");
      var left := Lower(n.sons[0], r.st);
      LowerGood(n.sons[0], r.st, id);
      var b := IntToBool(left.out.value.val.value, left.st);
      IntToBoolTaken(left.out.value.val.value, left.st);
      var right := Lower(n.sons[1], Taken(b.st));
      LowerGood(n.sons[1], Taken(b.st), id);
      OrAt(st.nextId, r.st.nextId, left.st.nextId, Taken(b.st).nextId, right.st.nextId, EnclosingOf(st),
           left.out.value.code, Pending(b.st), b.v, right.out.value.code, r.v, right.out.value.val.value, NewConst(right.st, 1).v,
           LowerOr(n, st).out.value.code, LowerOr(n, st).st.nextId, id);
    }
  }

  lemma {:induction false} NotGood(n: Node, st: GenState, id: nat)
    requires n.LogicNot? && Calm(st)
    ensures var g := LowerNot(n, st); g.out.Some? ==> GoodAt(st, g.st, g.out.value.code, id)
    decreases n, 0
  {
    if LowerNot(n, st).out.Some? {
      var o := Lower(n.sons[0], st);
      LowerGood(n.sons[0], st, id);
      var r := NewVar(o.st, IntTy, "");
      var zero := NewConst(r.st, 0);
      var eq := NewBinary(zero.st, OpEqI, o.out.value.val.value, zero.v, BoolTy);
      Pair(eq.inst, Copy(r.v, eq.res), id);
      Cat(o.out.value.code, [eq.inst, Copy(r.v, eq.res)], id);
    }
  }

  lemma {:induction false} AssignGood(n: Node, st: GenState, id: nat)
    requires n.Assign? && Calm(st)
    ensures var g := LowerAssign(n, st); g.out.Some? ==> GoodAt(st, g.st, g.out.value.code, id)
    decreases n, 0
  {
    if LowerAssign(n, st).out.Some? {
      var right := Lower(n.rhs, st);
      LowerGood(n.rhs, st, id);
      var left := Lower(n.lhs, right.st);
      LowerGood(n.lhs, right.st, id);
      var rv := right.out.value.val.value;
      var store := if n.lhs.ArrayAccess? && left.out.value.arrayPtr.Some? then StoreThrough(left.out.value.arrayPtr.value, rv)
                   else Copy(left.out.value.val.value, rv);
      Single(store, id);
      Cat3(right.out.value.code, left.out.value.code, [store], id);
    }
  }

  lemma {:induction false} ReturnGood(n: Node, st: GenState, id: nat)
    requires n.Return? && Calm(st)
    ensures var g := LowerReturn(n, st); g.out.Some? ==> GoodAt(st, g.st, g.out.value.code, id)
    decreases n, 0
  {
    if LowerReturn(n, st).out.Some? {
      if n.expr.None? {
        Single(Goto(st.exitLabel.value), id);
      } else {
        var r := Lower(n.expr.value, st);
        LowerGood(n.expr.value, st, id);
        Pair(Copy(r.st.retValue.value, r.out.value.val.value), Goto(st.exitLabel.value), id);
        Cat(r.out.value.code, [Copy(r.st.retValue.value, r.out.value.val.value), Goto(st.exitLabel.value)], id);
      }
    }
  }

  lemma {:induction false} CallGood(n: Node, st: GenState, id: nat)
    requires n.Call? && Calm(st)
    ensures var g := LowerCall(n, st); g.out.Some? ==> GoodAt(st, g.st, g.out.value.code, id)
    decreases n, 0
  {
    if LowerCall(n, st).out.Some? {
      var sig := st.funcs[n.callee];
      var st1 := st.(existCall := true, maxArgCnt := if |n.args| > st.maxArgCnt then |n.args| else st.maxArgCnt);
      var a := LowerList(n.args, st1);
      LowerListGood(n.args, st1, id);
      var res := ResultValue(a.st.nextId, sig.ret);
      var call := CallInst(n.callee, Unwrap(a.outs.value.vals), if sig.ret.VoidTy? then None else Some(res));
      Single(call, id);
      Cat(a.outs.value.code, [call], id);
    }
  }

  /** The dimensions of an array definition keep the state (label 0 stands for any label: `Keeps` does not depend on it). */
  lemma {:induction false} DimsKeep(n: Node, i: nat, end: nat, st: GenState)
    requires n.ArrayDef? && end <= |n.sons| && Calm(st)
    ensures ArrayDims(n, i, end, st).dims.Some? ==> Keeps(st, ArrayDims(n, i, end, st).st)
    decreases n, 0, end - i
  {
    if ArrayDims(n, i, end, st).dims.Some? {
      if i < end {
        var s := n.sons[i];
        if s.Literal? {
          DimsKeep(n, i + 1, end, st);
        } else {
          var e := Lower(s, st);
          LowerGood(s, st, 0);
          DimsKeep(n, i + 1, end, e.st);
        }
      }
    }
  }

  lemma {:induction false} ArrayDefGood(n: Node, st: GenState, id: nat)
    requires n.ArrayDef? && Calm(st)
    ensures var g := LowerArrayDef(n, st); g.out.Some? ==> GoodAt(st, g.st, g.out.value.code, id)
    decreases n, 0
  {
    if LowerArrayDef(n, st).out.Some? {
      DimsKeep(n, 0, DimCount(n.sons), st);
    }
  }

  lemma {:induction false} ArrayAccessGood(n: Node, st: GenState, id: nat)
    requires n.ArrayAccess? && Calm(st)
    ensures var g := LowerArrayAccess(n, st); g.out.Some? ==> GoodAt(st, g.st, g.out.value.code, id)
    decreases n, 0
  {
    if LowerArrayAccess(n, st).out.Some? {
      var av := st.vars[n.name];
      var ix := LowerList(n.indices, st);
      LowerListGood(n.indices, st, id);
      var acc := AccessCode(ix.st, av, av.ty.dims, Unwrap(ix.outs.value.vals));
      Plain(acc.code, id);
      Cat(ix.outs.value.code, acc.code, id);
    }
  }
}
