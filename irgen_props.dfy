/**
 * Properties of single IR generator handlers: the failure conditions of
 * `break`/`continue`, calls and array definitions and accesses, the two
 * cases of `int_to_bool`, what a failing loop leaves in the loop labels,
 * the raw value `&&` and `||` yield, and the label discipline of a whole
 * function definition.
 */
module IRGenProps {
  import opened Common
  import opened IR
  import opened IRGen

  /** `break` and `continue` succeed exactly inside a function and a loop, with a single jump to the loop's label. */
  lemma JumpNeedsLabel(n: Node, st: GenState)
    requires n.Break? || n.Continue?
    ensures var g := LowerJump(n, st); var target := if n.Break? then st.breakLabel else st.continueLabel;
      (g.out.Some? <==> st.current.Some? && target.Some?) && g.st == st
      && (g.out.Some? ==> g.out.value.code == [Goto(target.value)] && g.out.value.val.None?)
  {
  }

  /**
   * A loop whose body fails leaves its own labels in the state: `while (1)
   * x` with `x` unknown returns failure with `break` still aimed at the
   * loop's end and `continue` at its condition.
   */
  lemma WhileFailureKeepsLoopLabels(st: GenState)
    requires st.current.Some?
    ensures var g := LowerWhile(While(Literal(1), VarId("")), st);
      g.out.None? && g.st.breakLabel == Some(LabelAt(st, 2)) && g.st.continueLabel == Some(LabelAt(st, 0))
  {
    var st1 := Skip(st, 3).(breakLabel := Some(LabelAt(st, 2)), continueLabel := Some(LabelAt(st, 0)));
    var c := Lower(Literal(1), st1);
    assert c == LowerLeaf(Literal(1), st1);
    assert Lower(VarId(""), c.st) == LowerLeaf(VarId(""), c.st);
  }

  /** A successful loop gives the enclosing loop's labels back. */
  lemma WhileRestoresLabels(n: Node, st: GenState)
    requires n.While?
    ensures var g := LowerWhile(n, st);
      g.out.Some? ==> g.st.breakLabel == st.breakLabel && g.st.continueLabel == st.continueLabel
  {
  }

  /**
   * `int_to_bool(v)`: a bool is its own truth value and nothing is parked;
   * any other value yields a fresh bool `b` and parks `t = ne v, 0; b = t`.
   */
  lemma IntToBoolCases(v: Value, st: GenState)
    ensures var f := IntToBool(v, st);
      (IsBoolTy(v.ty) ==> f.v == v && f.st == st)
      && (!IsBoolTy(v.ty) ==>
            var zero := Value(st.nextId + 1, ConstInt(0), "", IntTy, -1, None);
            var t := ResultValue(st.nextId + 2, BoolTy);
            f.v.id == st.nextId && f.v.ty == BoolTy && !f.v.kind.ConstInt? && f.st.nextId == st.nextId + 3
            && Pending(f.st) == [Binary(OpNeI, v, zero, t), Copy(f.v, t)])
  {
  }

  /**
   * A call succeeds only for a known callee inside a function with as many
   * arguments as the callee has parameters; the caller's largest argument
   * count becomes at least the larger of its old value and this call's
   * argument count.
   */
  lemma CallChecks(n: Node, st: GenState)
    requires n.Call? && Calm(st)
    ensures var g := LowerCall(n, st);
      (n.callee !in st.funcs || st.current.None? ==> g.out.None? && g.st == st)
      && (g.out.Some? ==> n.callee in st.funcs && |n.args| == |st.funcs[n.callee].params| && st.current.Some?
                          && g.st.maxArgCnt >= st.maxArgCnt && g.st.maxArgCnt >= |n.args|)
  {
    if LowerCall(n, st).out.Some? {
      var st1 := st.(existCall := true, maxArgCnt := if |n.args| > st.maxArgCnt then |n.args| else st.maxArgCnt);
      LowerListGood(n.args, st1, 0);
    }
  }

  /** The dimensions of sons `i .. end-1`: one per son, each positive. */
  lemma {:induction false} DimsPositive(n: Node, i: nat, end: nat, st: GenState)
    requires n.ArrayDef? && i <= end <= |n.sons|
    ensures var d := ArrayDims(n, i, end, st);
      d.dims.Some? ==> |d.dims.value| == end - i && forall k :: 0 <= k < |d.dims.value| ==> d.dims.value[k] > 0
    decreases end - i
  {
    if i < end {
      var s := n.sons[i];
      if s.Literal? {
        DimsPositive(n, i + 1, end, st);
      } else {
        DimsPositive(n, i + 1, end, Lower(s, st).st);
      }
    }
  }

  /**
   * An array definition succeeds only with at least one dimension, every
   * dimension positive; the new variable's type is an int array of exactly
   * those dimensions, one per dimension son.
   */
  lemma ArrayDefChecks(n: Node, st: GenState)
    requires n.ArrayDef?
    ensures var g := LowerArrayDef(n, st);
      g.out.Some? ==>
        |n.sons| >= 1 && g.out.value.code == [] && g.out.value.val.Some? && g.out.value.val.value.ty.ArrayTy?
        && g.out.value.val.value.ty.elem == IntTy && g.out.value.val.value.name == n.name
        && |g.out.value.val.value.ty.dims| == DimCount(n.sons) >= 1
        && forall k :: 0 <= k < |g.out.value.val.value.ty.dims| ==> g.out.value.val.value.ty.dims[k] > 0
  {
    if |n.sons| >= 1 {
      DimsPositive(n, 0, DimCount(n.sons), st);
    }
  }

  /**
   * An access to a visible array with more indices than its rank, or with
   * none, fails and changes nothing; a successful access names a visible
   * array and uses between one index and its rank.
   */
  lemma ArrayAccessRank(n: Node, st: GenState)
    requires n.ArrayAccess?
    ensures var g := LowerArrayAccess(n, st);
      ((|n.indices| == 0 || (n.name in st.vars && st.vars[n.name].ty.ArrayTy? && |n.indices| > |st.vars[n.name].ty.dims|))
       ==> g.out.None? && g.st == st)
      && (g.out.Some? ==> n.name in st.vars && st.vars[n.name].ty.ArrayTy?
                          && 1 <= |n.indices| <= |st.vars[n.name].ty.dims| && g.out.value.arrayPtr.Some?)
  {
  }

  /** An integer literal lowers to a fresh constant and no code. */
  lemma LowerLiteral(k: i32, st: GenState)
    ensures Lower(Literal(k), st) == Gen(Skip(st, 1), Some(Out([], Some(Value(st.nextId, ConstInt(k), "", IntTy, -1, None)), None)))
  {
    assert Lower(Literal(k), st) == LowerLeaf(Literal(k), st);
  }

  /** The code of a successful `&&`, given its two operands' lowerings. */
  lemma AndParts(n: Node, st: GenState, left: Gen, b: Fresh, right: Gen)
    requires n.LogicAnd? && st.current.Some? && |n.sons| >= 2
    requires left == Lower(n.sons[0], NewVar(Skip(st, 3), IntTy, "").st) && left.out.Some? && left.out.value.val.Some?
    requires b == IntToBool(left.out.value.val.value, left.st)
    requires right == Lower(n.sons[1], Taken(b.st)) && right.out.Some? && right.out.value.val.Some?
    ensures LowerAnd(n, st).out == Some(Out(
      left.out.value.code + Pending(b.st) + [CondGoto(b.v, LabelAt(st, 0), LabelAt(st, 1)), LabelInst(LabelAt(st, 0))]
      + right.out.value.code
      + [Copy(NewVar(Skip(st, 3), IntTy, "").v, right.out.value.val.value), Goto(LabelAt(st, 2)), LabelInst(LabelAt(st, 1)),
         Copy(NewVar(Skip(st, 3), IntTy, "").v, NewConst(right.st, 0).v), LabelInst(LabelAt(st, 2))],
      Some(NewVar(Skip(st, 3), IntTy, "").v), None))
  {
  }

  /** The code of a successful `||`, given its two operands' lowerings. */
  lemma OrParts(n: Node, st: GenState, left: Gen, b: Fresh, right: Gen)
    requires n.LogicOr? && st.current.Some? && |n.sons| >= 2
    requires left == Lower(n.sons[0], NewVar(Skip(st, 3), IntTy, "").st) && left.out.Some? && left.out.value.val.Some?
    requires b == IntToBool(left.out.value.val.value, left.st)
    requires right == Lower(n.sons[1], Taken(b.st)) && right.out.Some? && right.out.value.val.Some?
    ensures LowerOr(n, st).out == Some(Out(
      left.out.value.code + Pending(b.st) + [CondGoto(b.v, LabelAt(st, 1), LabelAt(st, 0)), LabelInst(LabelAt(st, 0))]
      + right.out.value.code
      + [Copy(NewVar(Skip(st, 3), IntTy, "").v, right.out.value.val.value), Goto(LabelAt(st, 2)), LabelInst(LabelAt(st, 1)),
         Copy(NewVar(Skip(st, 3), IntTy, "").v, NewConst(right.st, 1).v), LabelInst(LabelAt(st, 2))],
      Some(NewVar(Skip(st, 3), IntTy, "").v), None))
  {
  }

  /**
   * The operands of a logical operator over two literals `k` and `m`: the
   * left one needs no code, its truth check takes three fresh numbers, and
   * the right one needs no code either.
   */
  lemma LiteralOperands(n: Node, st: GenState, k: i32, m: i32)
    requires (n.LogicAnd? || n.LogicOr?) && n.sons == [Literal(k), Literal(m)] && st.current.Some?
    ensures var left := Lower(n.sons[0], NewVar(Skip(st, 3), IntTy, "").st);
      left.out == Some(Out([], Some(Value(st.nextId + 4, ConstInt(k), "", IntTy, -1, None)), None))
      && var b := IntToBool(left.out.value.val.value, left.st);
      b.v == Value(st.nextId + 5, LocalVar, "", BoolTy, -1, None)
      && Pending(b.st) == [Binary(OpNeI, left.out.value.val.value, Value(st.nextId + 6, ConstInt(0), "", IntTy, -1, None),
                                  ResultValue(st.nextId + 7, BoolTy)),
                           Copy(b.v, ResultValue(st.nextId + 7, BoolTy))]
      && var right := Lower(n.sons[1], Taken(b.st));
      right.out == Some(Out([], Some(Value(st.nextId + 8, ConstInt(m), "", IntTy, -1, None)), None))
      && right.st.nextId == st.nextId + 9
  {
    var r := NewVar(Skip(st, 3), IntTy, "");
    LowerLiteral(k, r.st);
    var left := Lower(Literal(k), r.st);
    IntToBoolCases(left.out.value.val.value, left.st);
    var b := IntToBool(left.out.value.val.value, left.st);
    LowerLiteral(m, Taken(b.st));
  }

  /** The code of a logical operator whose operands need no code, written out. */
  lemma Flattened(lc: seq<IRInst>, pend: seq<IRInst>, br: seq<IRInst>, rc: seq<IRInst>, tail: seq<IRInst>)
    requires lc == [] && rc == [] && |pend| == 2 && |br| == 2 && |tail| == 5
    ensures lc + pend + br + rc + tail
            == [pend[0], pend[1], br[0], br[1], tail[0], tail[1], tail[2], tail[3], tail[4]]
  {
  }

  /** A successful `&&` whose operands need no code, written out instruction by instruction. */
  lemma AndOfCodeless(n: Node, st: GenState, left: Gen, b: Fresh, right: Gen,
                       p0: IRInst, p1: IRInst, bv: Value, rv: Value, c: Value, r: Value)
    requires n.LogicAnd? && st.current.Some? && |n.sons| >= 2
    requires left == Lower(n.sons[0], NewVar(Skip(st, 3), IntTy, "").st) && left.out.Some? && left.out.value.val.Some?
    requires b == IntToBool(left.out.value.val.value, left.st)
    requires right == Lower(n.sons[1], Taken(b.st)) && right.out.Some? && right.out.value.val.Some?
    requires left.out.value.code == [] && right.out.value.code == [] && Pending(b.st) == [p0, p1]
    requires b.v == bv && right.out.value.val.value == rv && NewConst(right.st, 0).v == c && NewVar(Skip(st, 3), IntTy, "").v == r
    ensures LowerAnd(n, st).out == Some(Out(
        [p0, p1, CondGoto(bv, LabelAt(st, 0), LabelAt(st, 1)), LabelInst(LabelAt(st, 0)),
         Copy(r, rv), Goto(LabelAt(st, 2)), LabelInst(LabelAt(st, 1)), Copy(r, c), LabelInst(LabelAt(st, 2))], Some(r), None))
  {
    AndParts(n, st, left, b, right);
    Flattened(left.out.value.code, Pending(b.st), [CondGoto(b.v, LabelAt(st, 0), LabelAt(st, 1)), LabelInst(LabelAt(st, 0))],
              right.out.value.code,
              [Copy(r, rv), Goto(LabelAt(st, 2)), LabelInst(LabelAt(st, 1)), Copy(r, c), LabelInst(LabelAt(st, 2))]);
  }


  /** A successful `||` whose operands need no code, written out instruction by instruction. */
  lemma OrOfCodeless(n: Node, st: GenState, left: Gen, b: Fresh, right: Gen,
                       p0: IRInst, p1: IRInst, bv: Value, rv: Value, c: Value, r: Value)
    requires n.LogicOr? && st.current.Some? && |n.sons| >= 2
    requires left == Lower(n.sons[0], NewVar(Skip(st, 3), IntTy, "").st) && left.out.Some? && left.out.value.val.Some?
    requires b == IntToBool(left.out.value.val.value, left.st)
    requires right == Lower(n.sons[1], Taken(b.st)) && right.out.Some? && right.out.value.val.Some?
    requires left.out.value.code == [] && right.out.value.code == [] && Pending(b.st) == [p0, p1]
    requires b.v == bv && right.out.value.val.value == rv && NewConst(right.st, 1).v == c && NewVar(Skip(st, 3), IntTy, "").v == r
    ensures LowerOr(n, st).out == Some(Out(
        [p0, p1, CondGoto(bv, LabelAt(st, 1), LabelAt(st, 0)), LabelInst(LabelAt(st, 0)),
         Copy(r, rv), Goto(LabelAt(st, 2)), LabelInst(LabelAt(st, 1)), Copy(r, c), LabelInst(LabelAt(st, 2))], Some(r), None))
  {
    OrParts(n, st, left, b, right);
    Flattened(left.out.value.code, Pending(b.st), [CondGoto(b.v, LabelAt(st, 1), LabelAt(st, 0)), LabelInst(LabelAt(st, 0))],
              right.out.value.code,
              [Copy(r, rv), Goto(LabelAt(st, 2)), LabelInst(LabelAt(st, 1)), Copy(r, c), LabelInst(LabelAt(st, 2))]);
  }


  /**
   * `k && m` over two literals, as written: the whole code.  On the path
   * where `k` is true the result `r` receives the right operand's own
   * constant `m`, not its truth value; on the short-circuit path it
   * receives 0.  So `1 && 5` yields 5.
   */
  lemma AndYieldsRightValue(st: GenState, k: i32, m: i32)
    requires st.current.Some?
    ensures var left := Value(st.nextId + 4, ConstInt(k), "", IntTy, -1, None);
      var b := Value(st.nextId + 5, LocalVar, "", BoolTy, -1, None);
      var z := Value(st.nextId + 6, ConstInt(0), "", IntTy, -1, None);
      var t := ResultValue(st.nextId + 7, BoolTy);
      var r := Value(st.nextId + 3, LocalVar, "", IntTy, -1, None);
      var right := Value(st.nextId + 8, ConstInt(m), "", IntTy, -1, None);
      var zero := Value(st.nextId + 9, ConstInt(0), "", IntTy, -1, None);
      LowerAnd(LogicAnd([Literal(k), Literal(m)]), st).out
      == Some(Out([Binary(OpNeI, left, z, t), Copy(b, t), CondGoto(b, LabelAt(st, 0), LabelAt(st, 1)), LabelInst(LabelAt(st, 0)),
                   Copy(r, right), Goto(LabelAt(st, 2)), LabelInst(LabelAt(st, 1)), Copy(r, zero), LabelInst(LabelAt(st, 2))],
                  Some(r), None))
  {
    var n := LogicAnd([Literal(k), Literal(m)]);
    LiteralOperands(n, st, k, m);
    var left := Lower(n.sons[0], NewVar(Skip(st, 3), IntTy, "").st);
    var b := IntToBool(left.out.value.val.value, left.st);
    var right := Lower(n.sons[1], Taken(b.st));
    var t := ResultValue(st.nextId + 7, BoolTy);
    var bv := Value(st.nextId + 5, LocalVar, "", BoolTy, -1, None);
    AndOfCodeless(n, st, left, b, right,
                   Binary(OpNeI, Value(st.nextId + 4, ConstInt(k), "", IntTy, -1, None), Value(st.nextId + 6, ConstInt(0), "", IntTy, -1, None), t), Copy(bv, t), bv,
                   Value(st.nextId + 8, ConstInt(m), "", IntTy, -1, None), Value(st.nextId + 9, ConstInt(0), "", IntTy, -1, None),
                   Value(st.nextId + 3, LocalVar, "", IntTy, -1, None));
  }

  /**
   * `k || m` over two literals, as written: the whole code.  The result
   * receives the constant `m` itself when `k` is false and 1 on the
   * short-circuit path.  So `0 || 5` yields 5.
   */
  lemma OrYieldsRightValue(st: GenState, k: i32, m: i32)
    requires st.current.Some?
    ensures var left := Value(st.nextId + 4, ConstInt(k), "", IntTy, -1, None);
      var b := Value(st.nextId + 5, LocalVar, "", BoolTy, -1, None);
      var z := Value(st.nextId + 6, ConstInt(0), "", IntTy, -1, None);
      var t := ResultValue(st.nextId + 7, BoolTy);
      var r := Value(st.nextId + 3, LocalVar, "", IntTy, -1, None);
      var right := Value(st.nextId + 8, ConstInt(m), "", IntTy, -1, None);
      var one := Value(st.nextId + 9, ConstInt(1), "", IntTy, -1, None);
      LowerOr(LogicOr([Literal(k), Literal(m)]), st).out
      == Some(Out([Binary(OpNeI, left, z, t), Copy(b, t), CondGoto(b, LabelAt(st, 1), LabelAt(st, 0)), LabelInst(LabelAt(st, 0)),
                   Copy(r, right), Goto(LabelAt(st, 2)), LabelInst(LabelAt(st, 1)), Copy(r, one), LabelInst(LabelAt(st, 2))],
                  Some(r), None))
  {
    var n := LogicOr([Literal(k), Literal(m)]);
    LiteralOperands(n, st, k, m);
    var left := Lower(n.sons[0], NewVar(Skip(st, 3), IntTy, "").st);
    var b := IntToBool(left.out.value.val.value, left.st);
    var right := Lower(n.sons[1], Taken(b.st));
    var t := ResultValue(st.nextId + 7, BoolTy);
    var bv := Value(st.nextId + 5, LocalVar, "", BoolTy, -1, None);
    OrOfCodeless(n, st, left, b, right,
                   Binary(OpNeI, Value(st.nextId + 4, ConstInt(k), "", IntTy, -1, None), Value(st.nextId + 6, ConstInt(0), "", IntTy, -1, None), t), Copy(bv, t), bv,
                   Value(st.nextId + 8, ConstInt(m), "", IntTy, -1, None), Value(st.nextId + 9, ConstInt(1), "", IntTy, -1, None),
                   Value(st.nextId + 3, LocalVar, "", IntTy, -1, None));
  }

  /**
   * The pieces of a successful function definition: the exit label, the
   * parameter copies and the state the body is lowered in, which is calm,
   * has no loop around it and has the exit label as its exit.
   */
  lemma DefineParts(d: FuncDef, st: GenState) returns (exitL: Label, pm: Steps, st2: GenState)
    requires DefineFunction(d, st).f.Some?
    ensures var g := DefineFunction(d, st); var b := Lower(Block(d.body, false), st2);
      st.current.None? && b.out.Some? && g.st == b.st.(current := None, vars := st.vars) && NoControl(pm.code)
      && g.f.value.code == [EntryInst()] + pm.code + b.out.value.code + [LabelInst(exitL), ExitInst(st2.retValue)]
      && g.f.value.retValue == st2.retValue && g.f.value.name == d.name && d.name in g.st.funcs
      && (st2.retValue.Some? <==> !d.retTy.VoidTy?)
      && Calm(st2) && EnclosingOf(st2) == Enclosing(None, None, Some(exitL)) && st.nextId <= exitL.id < st2.nextId
  {
    var fs := if d.name in st.funcs then Formals(st, Some(st.funcs[d.name].params)) else FormalsOf(d.params, st);
    var sig := if d.name in st.funcs then st.funcs[d.name] else Sig(fs.params.value, d.retTy);
    exitL := LabelAt(fs.st, 0);
    var st1 := Skip(fs.st, 1).(funcs := fs.st.funcs[d.name := sig], current := Some(d.name),
                               exitLabel := Some(exitL), retValue := None,
                               breakLabel := None, continueLabel := None, boolCheck := None, boolMove := None,
                               maxArgCnt := 0, existCall := false, locals := []);
    pm := ParamMoves(st1, sig.params, 0);
    st2 := if d.retTy.VoidTy? then pm.st
           else var r := NewVar(pm.st, d.retTy, ""); r.st.(retValue := Some(r.v));
    assert Calm(st2) && d.name in st2.funcs;
    LowerGood(Block(d.body, false), st2, 0);
  }

  /**
   * `ir_function_define`: a definition inside a function fails and changes
   * nothing; a new function with a parameter node lacking its sons fails; a
   * successful definition returns to the global scope, records the
   * function, and its code starts with `entry` and ends with the exit label
   * and `exit`, which carries the return variable exactly when the return
   * type is not void.
   */
  lemma DefineChecks(d: FuncDef, st: GenState)
    ensures st.current.Some? ==> DefineFunction(d, st) == Defined(st, None)
    ensures d.name !in st.funcs && !(forall j :: 0 <= j < |d.params| ==> d.params[j].Some?) ==> DefineFunction(d, st).f.None?
    ensures var g := DefineFunction(d, st);
      g.f.Some? ==>
        st.current.None? && g.st.current.None? && g.st.vars == st.vars && d.name in g.st.funcs
        && g.f.value.name == d.name && |g.f.value.code| >= 3 && g.f.value.code[0] == EntryInst()
        && g.f.value.code[|g.f.value.code| - 2].op == OpLabel
        && g.f.value.code[|g.f.value.code| - 1] == ExitInst(g.f.value.retValue)
        && (g.f.value.retValue.Some? <==> !d.retTy.VoidTy?)
  {
    var g := DefineFunction(d, st);
    if g.f.Some? {
      var exitL, pm, st2 := DefineParts(d, st);
      var b := Lower(Block(d.body, false), st2);
      var tail := [LabelInst(exitL), ExitInst(st2.retValue)];
      var code := [EntryInst()] + pm.code + b.out.value.code + tail;
      assert code[|code| - 2] == tail[0] && code[|code| - 1] == tail[1];
    }
  }

  /**
   * The labels of a whole function: its code defines each label at most
   * once, only labels handed out while it was generated, and every jump in
   * it goes to a label it defines.
   */
  lemma DefineGood(d: FuncDef, st: GenState, id: nat)
    ensures var g := DefineFunction(d, st);
      g.f.Some? ==> LabelsOk(g.f.value.code, id, st.nextId, g.st.nextId, Enclosing(None, None, None))
  {
    var g := DefineFunction(d, st);
    if g.f.Some? {
      var exitL, pm, st2 := DefineParts(d, st);
      var b := Lower(Block(d.body, false), st2);
      LowerGood(Block(d.body, false), st2, id);
      Single(EntryInst(), id);
      Plain(pm.code, id);
      Pair(LabelInst(exitL), ExitInst(st2.retValue), id);
      Cat4([EntryInst()], pm.code, b.out.value.code, [LabelInst(exitL), ExitInst(st2.retValue)], id);
    }
  }
}
