/**
 * What `load_var` and `store_var` of the ARM32 emitter compute on the
 * machine of `ArmSem`: which value a load leaves in its register, where a
 * store puts its register, and that a load after a store of the same
 * variable reads back what was stored.
 */
module ArmVars {
  import opened Common
  import opened IR
  import opened ArmCode
  import opened ArmSem
  import ArmArrays

  /**
   * The register a variable lives in, or -1: the load register the allocator
   * recorded for it takes precedence over its own register.
   */
  function HomeReg(v: Value, loadReg: int): (h: int)
    ensures h == -1 <==> loadReg == -1 && v.regId == -1
    ensures loadReg != -1 ==> h == loadReg
  {
    if loadReg != -1 then loadReg else v.regId
  }

  /** The frame offset of a variable with a frame slot, as `load_base`/`store_base` receive it. */
  function SlotOffset(v: Value): i32
    requires v.addr.Some?
  {
    Trunc32(v.addr.value.offset)
  }

  /**
   * The value of variable `v` in machine `m`: the constant itself, the
   * content of its register, the address of a global array or the word at a
   * global scalar's address, the word in its frame slot, or 0 for a variable
   * with no location.
   */
  function VarValue(m: Machine, v: Value, loadReg: int): int
    requires RegsInRange(v, loadReg)
  {
    if v.kind.ConstInt? then v.kind.val
    else if HomeReg(v, loadReg) != -1 then Reg(m, RegName(HomeReg(v, loadReg)))
    else if v.kind.GlobalVar? then
      if v.name !in m.syms then 0
      else if v.ty.ArrayTy? then m.syms[v.name]
      else Load(m, U32(m.syms[v.name]))
    else if HasValidAddr(v) then Load(m, BaseAddr(m, v.addr.value.base, SlotOffset(v)))
    else 0
  }

  /**
   * What a load of `v` into `rs` needs from the machine: a global has a
   * symbol the machine knows, and a slot too far for an immediate offset has
   * a base other than `rs`, which carries the offset.
   */
  predicate LoadVarReady(rs: int, v: Value, loadReg: int, m: Machine) {
    !v.kind.ConstInt? && HomeReg(v, loadReg) == -1 ==>
      (v.kind.GlobalVar? ==> IsSymbolName(v.name) && v.name in m.syms)
      && (!v.kind.GlobalVar? && HasValidAddr(v) ==> IsDisp(SlotOffset(v)) || rs != v.addr.value.base)
  }

  /**
   * `load_var(rs, v)` leaves the value of `v` in `rs` and changes no other
   * register or memory word; when `v` already lives in `rs` it emits nothing
   * and the machine stays as it is.
   */
  lemma LoadVarComputes(rs: int, v: Value, loadReg: int, m: Machine)
    requires IsReg(rs) && RegsInRange(v, loadReg) && LoadVarReady(rs, v, loadReg, m)
    ensures Exec(LoadVarCode(rs, v, loadReg), m)
            == Some(if !v.kind.ConstInt? && HomeReg(v, loadReg) == rs then m
                    else SetReg(m, RegName(rs), VarValue(m, v, loadReg)))
  {
    var h := HomeReg(v, loadReg);
    if v.kind.ConstInt? {
      LoadImmComputes(rs, v.kind.val, m);
    } else if h != -1 {
      if h != rs {
        MovRegComputes(rs, h, m);
      }
    } else if v.kind.GlobalVar? {
      LoadGlobalComputes(rs, v, m);
    } else if HasValidAddr(v) {
      LoadBaseComputes(rs, v.addr.value.base, SlotOffset(v), m);
    } else {
      var c := CommentInst("warning: " + v.name + " has no valid address, loading 0");
      LoadImmComputes(rs, 0, m);
      ArmArrays.CommentThen(c, LoadImmCode(rs, 0), m, SetReg(m, RegName(rs), 0));
    }
  }

  /** A global array loads its symbol's address; a global scalar the word at that address. */
  lemma LoadGlobalComputes(rs: int, v: Value, m: Machine)
    requires IsReg(rs) && v.kind.GlobalVar? && IsSymbolName(v.name) && v.name in m.syms
    ensures Exec(LoadSymbolCode(rs, v.name)
                 + (if v.ty.ArrayTy? then [CommentInst("global array: its address")]
                    else [CommentInst("global variable: its value"), Inst("ldr", RegName(rs), AddrOperand(RegName(rs), ""), "")]), m)
            == Some(SetReg(m, RegName(rs), if v.ty.ArrayTy? then m.syms[v.name] else Load(m, U32(m.syms[v.name]))))
  {
    var r := RegName(rs);
    var a := m.syms[v.name];
    var m1 := SetReg(m, r, a);
    LoadSymbolComputes(rs, v.name, m);
    if v.ty.ArrayTy? {
      var c := CommentInst("global array: its address");
      ExecOne(c, m1);
      ExecThen(LoadSymbolCode(rs, v.name), [c], m, m1, m1);
    } else {
      var c := CommentInst("global variable: its value");
      var ld := Inst("ldr", r, AddrOperand(r, ""), "");
      LoadThroughRegister(rs, a, m);
      ArmArrays.CommentThen(c, [ld], m1, SetReg(m, r, Load(m, U32(a))));
      assert [c, ld] == [c] + [ld];
      ExecThen(LoadSymbolCode(rs, v.name), [c, ld], m, m1, SetReg(m, r, Load(m, U32(a))));
    }
  }

  /** With address `a` in `rs`, `ldr rs,[rs]` replaces it by the word at `a`. */
  lemma LoadThroughRegister(rs: int, a: int, m: Machine)
    requires IsReg(rs)
    ensures Exec([Inst("ldr", RegName(rs), AddrOperand(RegName(rs), ""), "")], SetReg(m, RegName(rs), a))
            == Some(SetReg(m, RegName(rs), Load(m, U32(a))))
  {
    var r := RegName(rs);
    var m1 := SetReg(m, r, a);
    AddressOfRegister(m1, rs);
    U32Idem(a);
    StepLdr(m1, r, AddrOperand(r, ""), U32(a));
    SetRegTwice(m, r, a, Load(m, U32(a)));
  }

  /**
   * The machine after `store_var(src, v, tmp)`: a register variable gets a
   * copy of `src`; a global gets `src` at its symbol's address, which is left
   * in `tmp` (so with `tmp` equal to `src` the address itself is stored); a
   * slot gets `src`, with a far offset left in `tmp`; a variable with no
   * location is not stored at all.
   */
  function StoreVarState(m: Machine, src: int, v: Value, loadReg: int, tmp: int): Machine
    requires IsReg(src) && IsReg(tmp) && RegsInRange(v, loadReg)
  {
    var h := HomeReg(v, loadReg);
    if h != -1 then
      if src != h then SetReg(m, RegName(h), Reg(m, RegName(src))) else m
    else if v.kind.GlobalVar? then
      if v.name !in m.syms then m
      else
        var a := m.syms[v.name];
        StoreWord(SetReg(m, RegName(tmp), a), U32(a), if src == tmp then U32(a) else Reg(m, RegName(src)))
    else if HasValidAddr(v) then
      StoreWord(AfterScratch(m, !IsDisp(SlotOffset(v)), tmp, SlotOffset(v)),
                BaseAddr(m, v.addr.value.base, SlotOffset(v)), Reg(m, RegName(src)))
    else m
  }

  /**
   * What a store into `v` needs from the machine: a global has a symbol the
   * machine knows, and a slot too far for an immediate offset has a scratch
   * register other than its base and the stored register.
   */
  predicate StoreVarReady(src: int, v: Value, loadReg: int, tmp: int, m: Machine) {
    HomeReg(v, loadReg) == -1 ==>
      (v.kind.GlobalVar? ==> IsSymbolName(v.name) && v.name in m.syms)
      && (!v.kind.GlobalVar? && HasValidAddr(v) && !IsDisp(SlotOffset(v)) ==> tmp != v.addr.value.base && tmp != src)
  }

  /** `store_var(src, v, tmp)` leaves the machine `StoreVarState` describes. */
  lemma StoreVarComputes(src: int, v: Value, loadReg: int, tmp: int, m: Machine)
    requires IsReg(src) && IsReg(tmp) && RegsInRange(v, loadReg) && StoreVarReady(src, v, loadReg, tmp, m)
    ensures Exec(StoreVarCode(src, v, loadReg, tmp), m) == Some(StoreVarState(m, src, v, loadReg, tmp))
  {
    var h := HomeReg(v, loadReg);
    if h != -1 {
      if src != h {
        MovRegComputes(h, src, m);
      }
    } else if v.kind.GlobalVar? {
      StoreGlobalComputes(src, v.name, tmp, m);
    } else if HasValidAddr(v) {
      StoreBaseComputes(src, v.addr.value.base, SlotOffset(v), tmp, m);
    } else {
      var c1 := CommentInst("temporary " + v.name + " has no memory address");
      var c2 := CommentInst("store of " + v.name + " skipped");
      ExecOne(c2, m);
      ArmArrays.CommentThen(c1, [c2], m, m);
      assert [c1, c2] == [c1] + [c2];
    }
  }

  /** A store into a global: its address into `tmp`, then `str src,[tmp]`. */
  lemma StoreGlobalComputes(src: int, name: string, tmp: int, m: Machine)
    requires IsReg(src) && IsReg(tmp) && IsSymbolName(name) && name in m.syms
    ensures var a := m.syms[name];
            Exec(LoadSymbolCode(tmp, name) + [Inst("str", RegName(src), AddrOperand(RegName(tmp), ""), "")], m)
            == Some(StoreWord(SetReg(m, RegName(tmp), a), U32(a), if src == tmp then U32(a) else Reg(m, RegName(src))))
  {
    var a := m.syms[name];
    var t := RegName(tmp);
    var m1 := SetReg(m, t, a);
    LoadSymbolComputes(tmp, name, m);
    AddressOfRegister(m1, tmp);
    U32Idem(a);
    StepStr(m1, RegName(src), AddrOperand(t, ""), U32(a));
    if src != tmp {
      RegNameInjective(src, tmp);
    }
    ExecThen(LoadSymbolCode(tmp, name), [Inst("str", RegName(src), AddrOperand(t, ""), "")],
             m, m1, StoreWord(m1, U32(a), Reg(m1, RegName(src))));
  }

  /**
   * After a store of `src` into a variable that has a location and is
   * neither a constant nor a global array, the value of that variable is
   * what `src` held, as a 32-bit word.
   */
  lemma StoreVarKeepsValue(src: int, v: Value, loadReg: int, tmp: int, m: Machine)
    requires IsReg(src) && IsReg(tmp) && RegsInRange(v, loadReg) && StoreVarReady(src, v, loadReg, tmp, m)
    requires !v.kind.ConstInt? && !(v.kind.GlobalVar? && v.ty.ArrayTy?) && src != tmp
    requires HomeReg(v, loadReg) != -1 || v.kind.GlobalVar? || HasValidAddr(v)
    ensures U32(VarValue(StoreVarState(m, src, v, loadReg, tmp), v, loadReg)) == U32(Reg(m, RegName(src)))
  {
    var h := HomeReg(v, loadReg);
    if h != -1 {
      U32Idem(Reg(m, RegName(src)));
    } else if !v.kind.GlobalVar? {
      var off := SlotOffset(v);
      var b := v.addr.value.base;
      if !IsDisp(off) {
        RegNameInjective(tmp, b);
      }
      assert Reg(AfterScratch(m, !IsDisp(off), tmp, off), RegName(b)) == Reg(m, RegName(b));
    }
  }

  /**
   * A store of `src` into `v` followed by a load of `v` into `rs` leaves in
   * `rs` what `src` held: the round trip through a register, a global or a
   * frame slot.
   */
  lemma StoreThenLoadVar(src: int, rs: int, v: Value, loadReg: int, tmp: int, m: Machine)
    requires IsReg(src) && IsReg(rs) && IsReg(tmp) && RegsInRange(v, loadReg)
    requires StoreVarReady(src, v, loadReg, tmp, m) && LoadVarReady(rs, v, loadReg, m)
    requires !v.kind.ConstInt? && !(v.kind.GlobalVar? && v.ty.ArrayTy?) && src != tmp
    requires HomeReg(v, loadReg) != -1 || v.kind.GlobalVar? || HasValidAddr(v)
    ensures Exec(StoreVarCode(src, v, loadReg, tmp) + LoadVarCode(rs, v, loadReg), m).Some?
    ensures U32(Reg(Exec(StoreVarCode(src, v, loadReg, tmp) + LoadVarCode(rs, v, loadReg), m).value, RegName(rs)))
            == U32(Reg(m, RegName(src)))
  {
    var m1 := StoreVarState(m, src, v, loadReg, tmp);
    StoreVarComputes(src, v, loadReg, tmp, m);
    LoadVarComputes(rs, v, loadReg, m1);
    var m2 := if HomeReg(v, loadReg) == rs then m1 else SetReg(m1, RegName(rs), VarValue(m1, v, loadReg));
    ExecThen(StoreVarCode(src, v, loadReg, tmp), LoadVarCode(rs, v, loadReg), m, m1, m2);
    StoreVarKeepsValue(src, v, loadReg, tmp, m);
    U32Idem(VarValue(m1, v, loadReg));
  }
}
