/**
 * A small machine semantics for the records the ARM32 emitter produces, strong
 * enough to say what each emit helper computes.
 *
 * A machine holds 32-bit register contents by register name, memory words by
 * byte address, and the link-time address of every global symbol.  Only the
 * data-processing and memory records the helpers emit are given a meaning:
 * `movw`, `movt`, `mov`, `add`, `sub`, `mul`, `lsl`, `ldr` and `str` (with the
 * operand forms the emitter writes), and comments, labels, empty and dead
 * records, which do nothing.  Branches, calls, `push`/`pop` and compares have
 * no meaning here, so the semantics covers straight-line code only.
 * The operand forms follow section A8.8 of the ARMv7-A/R Architecture
 * Reference Manual: MOVW writes the low half and clears the high half, MOVT
 * writes the high half and keeps the low half, arithmetic wraps modulo 2^32.
 */
module ArmSem {
  import opened Common
  import opened IR
  import opened ArmCode

  datatype Machine = Machine(regs: map<string, int>, mem: map<int, int>, syms: map<string, int>)

  /** The content of a register; a register never written reads as 0. */
  function Reg(m: Machine, r: string): int {
    if r in m.regs then m.regs[r] else 0
  }

  /** Writing the 32-bit pattern of `v` into register `r`. */
  function SetReg(m: Machine, r: string, v: int): (m': Machine)
    ensures Reg(m', r) == U32(v)
    ensures m'.mem == m.mem && m'.syms == m.syms
  {
    m.(regs := m.regs[r := U32(v)])
  }

  /** The word at byte address `a`; memory never written reads as 0. */
  function Load(m: Machine, a: int): int {
    if a in m.mem then m.mem[a] else 0
  }

  function StoreWord(m: Machine, a: int, v: int): (m': Machine)
    ensures Load(m', a) == v && m'.regs == m.regs && m'.syms == m.syms
  {
    m.(mem := m.mem[a := v])
  }

  function Pow2(k: nat): (r: nat)
    ensures r >= 1
  {
    if k == 0 then 1 else 2 * Pow2(k - 1)
  }

  // ---------------------------------------------------------------------------
  // Reading operands back
  // ---------------------------------------------------------------------------

  /** A decimal integer with an optional minus sign, as the assembler reads it. */
  function ParseInt(s: string): Option<int> {
    if |s| >= 2 && s[0] == '-' && AllDigits(s[1..]) then Some(-(DecimalValue(s[1..]) as int))
    else if |s| >= 1 && AllDigits(s) then Some(DecimalValue(s))
    else None
  }

  /** Reading back a rendered integer gives the integer. */
  lemma ParseIntToString(i: int)
    ensures ParseInt(IntToString(i)) == Some(i)
  {
    if i < 0 {
      ParseNegative(-i);
    } else {
      ParseNatural(i);
    }
  }

  lemma ParseNatural(n: nat)
    ensures ParseInt(IntToString(n)) == Some(n)
  {
    var d := NatToString(n);
    assert IntToString(n) == d;
    assert IsDigit(d[0]);
    DecimalValueOfNatToString(n);
  }

  lemma ParseNegative(n: int)
    requires n > 0
    ensures ParseInt(IntToString(-n)) == Some(-n)
  {
    var d := NatToString(n);
    var s := "-" + d;
    assert IntToString(-n) == s;
    assert s[1..] == d;
    DecimalValueOfNatToString(n);
  }

  /** The position of the first comma, if any. */
  function FirstComma(s: string): Option<nat>
    decreases |s|
  {
    if |s| == 0 then None
    else if s[0] == ',' then Some(0)
    else match FirstComma(s[1..])
      case None => None
      case Some(k) => Some(k + 1)
  }

  lemma {:induction false} FirstCommaNone(a: string)
    requires NoComma(a)
    ensures FirstComma(a) == None
    decreases |a|
  {
    if |a| > 0 {
      FirstCommaNone(a[1..]);
    }
  }

  lemma {:induction false} FirstCommaAt(a: string, b: string)
    requires NoComma(a) && |b| > 0 && b[0] == ','
    ensures FirstComma(a + b) == Some(|a|)
    decreases |a|
  {
    if |a| > 0 {
      assert (a + b)[1..] == a[1..] + b;
      FirstCommaAt(a[1..], b);
    } else {
      assert a + b == b;
    }
  }

  /**
   * A flexible second operand: `#n`, a register, or a register shifted left
   * (`r, lsl #k`).
   */
  function Operand2(m: Machine, s: string): Option<int> {
    if |s| >= 1 && s[0] == '#' then ParseInt(s[1..])
    else match FirstComma(s)
      case None => Some(Reg(m, s))
      case Some(i) =>
        if i < |s| && StartsWith(s[i..], ", lsl #") then
          match ParseInt(s[i + 7..])
            case None => None
            case Some(k) => if k >= 0 then Some(U32(Reg(m, s[..i]) * Pow2(k))) else None
        else None
  }

  /** A memory operand `[b]` or `[b,op]`: the address it names. */
  function Address(m: Machine, s: string): Option<int> {
    if |s| >= 2 && s[0] == '[' && s[|s| - 1] == ']' then
      var inner := s[1..|s| - 1];
      match FirstComma(inner)
        case None => Some(U32(Reg(m, inner)))
        case Some(i) =>
          if i < |inner| then
            match Operand2(m, inner[i + 1..])
              case None => None
              case Some(d) => Some(U32(Reg(m, inner[..i]) + d))
          else None
    else None
  }

  /** The 32-bit value behind a `#:lower16:x`/`#:upper16:x` operand: a number or a symbol. */
  function HalfOperand(m: Machine, s: string, prefix: string): Option<int> {
    if StartsWith(s, prefix) then
      var t := s[|prefix|..];
      match ParseInt(t)
        case Some(n) => Some(U32(n))
        case None => if t in m.syms then Some(U32(m.syms[t])) else None
    else None
  }

  /** A register name reads back as that register. */
  lemma RegisterOperand(m: Machine, r: int)
    requires IsReg(r)
    ensures Operand2(m, RegName(r)) == Some(Reg(m, RegName(r)))
  {
    FirstCommaNone(RegName(r));
  }

  /** `#n` reads back as `n`. */
  lemma ImmediateOperand(m: Machine, n: int)
    ensures Operand2(m, ToStr(n, true)) == Some(n)
  {
    assert ToStr(n, true)[1..] == IntToString(n);
    ParseIntToString(n);
  }

  /** `r, lsl #k` reads back as `r * 2^k` modulo 2^32. */
  lemma ShiftedOperand(m: Machine, r: int, k: nat)
    requires IsReg(r)
    ensures Operand2(m, RegName(r) + ", lsl #" + IntToString(k)) == Some(U32(Reg(m, RegName(r)) * Pow2(k)))
  {
    ShiftedSplit(RegName(r), IntToString(k));
    ParseIntToString(k);
  }

  /** Where `a, lsl #n` splits, for a register name `a`. */
  lemma ShiftedSplit(a: string, n: string)
    requires NoComma(a) && |a| >= 1 && a[0] != '#'
    ensures var s := a + ", lsl #" + n;
            s[0] != '#' && FirstComma(s) == Some(|a|) && |a| < |s| && StartsWith(s[|a|..], ", lsl #")
            && s[|a| + 7..] == n && s[..|a|] == a
  {
    var s := a + ", lsl #" + n;
    assert s == a + (", lsl #" + n);
    FirstCommaAt(a, ", lsl #" + n);
    assert s[|a|..] == ", lsl #" + n;
  }

  /** `[b]` names the content of `b`; `[b,op]` the content of `b` plus the operand. */
  lemma AddressOfOperand(m: Machine, b: int, disp: string)
    requires IsReg(b) && (disp == "" || Operand2(m, disp).Some?)
    ensures Address(m, AddrOperand(RegName(b), disp))
            == Some(if disp == "" then U32(Reg(m, RegName(b))) else U32(Reg(m, RegName(b)) + Operand2(m, disp).value))
  {
    if disp == "" {
      AddressOfRegister(m, b);
    } else {
      AddressOfSum(m, b, disp);
    }
  }

  lemma AddressOfRegister(m: Machine, b: int)
    requires IsReg(b)
    ensures Address(m, AddrOperand(RegName(b), "")) == Some(U32(Reg(m, RegName(b))))
  {
    var base := RegName(b);
    var s := AddrOperand(base, "");
    assert s[1..|s| - 1] == base;
    FirstCommaNone(base);
  }

  lemma AddressOfSum(m: Machine, b: int, disp: string)
    requires IsReg(b) && disp != "" && Operand2(m, disp).Some?
    ensures Address(m, AddrOperand(RegName(b), disp)) == Some(U32(Reg(m, RegName(b)) + Operand2(m, disp).value))
  {
    var base := RegName(b);
    var s := AddrOperand(base, disp);
    var inner := base + "," + disp;
    assert s[1..|s| - 1] == inner;
    assert inner == base + ("," + disp);
    FirstCommaAt(base, "," + disp);
    assert inner[|base| + 1..] == disp;
    assert inner[..|base|] == base;
  }

  // ---------------------------------------------------------------------------
  // Executing records
  // ---------------------------------------------------------------------------

  /** A record that leaves the machine unchanged. */
  predicate Inert(i: ArmInst) {
    i.dead || i.opcode == "" || i.opcode == "@" || i.result == ":"
  }

  /** One record; `None` for a record the semantics gives no meaning. */
  function Step(i: ArmInst, m: Machine): Option<Machine> {
    if Inert(i) then Some(m)
    else if i.opcode == "movw" then
      match HalfOperand(m, i.arg1, "#:lower16:")
        case None => None
        case Some(u) => Some(SetReg(m, i.result, u % 0x1_0000))
    else if i.opcode == "movt" then
      match HalfOperand(m, i.arg1, "#:upper16:")
        case None => None
        case Some(u) => Some(SetReg(m, i.result, Reg(m, i.result) % 0x1_0000 + u / 0x1_0000 * 0x1_0000))
    else if i.opcode == "mov" then
      match Operand2(m, i.arg1)
        case None => None
        case Some(v) => Some(SetReg(m, i.result, v))
    else if i.opcode == "add" then
      match Operand2(m, i.arg2)
        case None => None
        case Some(v) => Some(SetReg(m, i.result, Reg(m, i.arg1) + v))
    else if i.opcode == "sub" then
      match Operand2(m, i.arg2)
        case None => None
        case Some(v) => Some(SetReg(m, i.result, Reg(m, i.arg1) - v))
    else if i.opcode == "mul" then
      Some(SetReg(m, i.result, Reg(m, i.arg1) * Reg(m, i.arg2)))
    else if i.opcode == "lsl" then
      if |i.arg2| >= 1 && i.arg2[0] == '#' then
        match ParseInt(i.arg2[1..])
          case None => None
          case Some(k) => if k >= 0 then Some(SetReg(m, i.result, Reg(m, i.arg1) * Pow2(k))) else None
      else None
    else if i.opcode == "ldr" then
      match Address(m, i.arg1)
        case None => None
        case Some(a) => Some(SetReg(m, i.result, Load(m, a)))
    else if i.opcode == "str" then
      match Address(m, i.arg1)
        case None => None
        case Some(a) => Some(StoreWord(m, a, Reg(m, i.result)))
    else None
  }

  /** A sequence of records, front to back; `None` once a record has no meaning. */
  function Exec(c: seq<ArmInst>, m: Machine): Option<Machine>
    decreases |c|
  {
    if |c| == 0 then Some(m)
    else match Step(c[0], m)
      case None => None
      case Some(m1) => Exec(c[1..], m1)
  }

  /** Running `a + b` is running `a`, then `b`. */
  lemma {:induction false} ExecAppend(a: seq<ArmInst>, b: seq<ArmInst>, m: Machine)
    ensures Exec(a + b, m) == (match Exec(a, m) case None => None case Some(m1) => Exec(b, m1))
    decreases |a|
  {
    if |a| == 0 {
      assert a + b == b;
    } else {
      assert (a + b)[1..] == a[1..] + b;
      match Step(a[0], m)
      case None =>
      case Some(m1) =>
        ExecAppend(a[1..], b, m1);
    }
  }

  lemma ExecSeq(a: seq<ArmInst>, b: seq<ArmInst>, m: Machine, m1: Machine)
    requires Exec(a, m) == Some(m1)
    ensures Exec(a + b, m) == Exec(b, m1)
  {
    ExecAppend(a, b, m);
  }

  /** Equal record sequences run alike. */
  lemma ExecSame(a: seq<ArmInst>, b: seq<ArmInst>, m: Machine, m': Machine)
    requires a == b && Exec(b, m) == Some(m')
    ensures Exec(a, m) == Some(m')
  {
  }

  lemma ExecOne(i: ArmInst, m: Machine)
    ensures Exec([i], m) == Step(i, m)
  {
    match Step(i, m)
    case None =>
    case Some(m1) =>
      assert [i][1..] == [];
  }

  /** Records that are all comments do nothing. */
  lemma {:induction false} CommentsInert(c: seq<ArmInst>, m: Machine)
    requires forall k :: 0 <= k < |c| ==> c[k].opcode == "@"
    ensures Exec(c, m) == Some(m)
    decreases |c|
  {
    if |c| > 0 {
      assert Step(c[0], m) == Some(m);
      CommentsInert(c[1..], m);
    }
  }

  lemma SetRegTwice(m: Machine, r: string, a: int, b: int)
    ensures SetReg(SetReg(m, r, a), r, b) == SetReg(m, r, b)
  {
    assert m.regs[r := U32(a)][r := U32(b)] == m.regs[r := U32(b)];
  }

  // ---------------------------------------------------------------------------
  // Arithmetic modulo 2^32
  // ---------------------------------------------------------------------------

  lemma {:induction false} ModMultiple(x: int, k: int)
    ensures U32(x + k * TWO32) == U32(x)
    decreases if k >= 0 then k else -k
  {
    if k > 0 {
      ModMultiple(x, k - 1);
      assert x + k * TWO32 == (x + (k - 1) * TWO32) + TWO32;
    } else if k < 0 {
      ModMultiple(x, k + 1);
      assert x + k * TWO32 == (x + (k + 1) * TWO32) - TWO32;
    }
  }

  lemma U32Add(a: int, b: int)
    ensures U32(a + U32(b)) == U32(a + b)
  {
    assert b == U32(b) + (b / TWO32) * TWO32;
    ModMultiple(a + U32(b), b / TWO32);
  }

  lemma U32Mul(a: int, b: int)
    ensures U32(a * U32(b)) == U32(a * b)
  {
    var q := b / TWO32;
    assert b == U32(b) + q * TWO32;
    assert a * b == a * U32(b) + (a * q) * TWO32;
    ModMultiple(a * U32(b), a * q);
  }

  lemma U32Idem(a: int)
    ensures U32(U32(a)) == U32(a)
  {
  }

  // ---------------------------------------------------------------------------
  // One record of each kind
  // ---------------------------------------------------------------------------

  /** A register name is not the label marker, so a record writing it is not inert. */
  predicate Writes(r: string) {
    |r| >= 2
  }

  lemma HalfOfInt(m: Machine, prefix: string, c: int)
    ensures HalfOperand(m, prefix + IntToString(c), prefix) == Some(U32(c))
  {
    assert (prefix + IntToString(c))[|prefix|..] == IntToString(c);
    ParseIntToString(c);
  }

  /** A symbol name is not a number. */
  predicate IsSymbolName(name: string) {
    name != "" && !IsDigit(name[0]) && name[0] != '-'
  }

  lemma HalfOfSymbol(m: Machine, prefix: string, name: string)
    requires IsSymbolName(name) && name in m.syms
    ensures HalfOperand(m, prefix + name, prefix) == Some(U32(m.syms[name]))
  {
    assert (prefix + name)[|prefix|..] == name;
    assert ParseInt(name) == None;
  }

  lemma StepMovw(m: Machine, r: string, x: string, u: int)
    requires Writes(r) && HalfOperand(m, x, "#:lower16:") == Some(u)
    ensures Exec([Inst("movw", r, x, "")], m) == Some(SetReg(m, r, u % 0x1_0000))
  {
    ExecOne(Inst("movw", r, x, ""), m);
  }

  lemma StepMovt(m: Machine, r: string, x: string, u: int)
    requires Writes(r) && HalfOperand(m, x, "#:upper16:") == Some(u)
    ensures Exec([Inst("movt", r, x, "")], m) == Some(SetReg(m, r, Reg(m, r) % 0x1_0000 + u / 0x1_0000 * 0x1_0000))
  {
    ExecOne(Inst("movt", r, x, ""), m);
  }

  lemma StepMov(m: Machine, r: string, x: string, v: int)
    requires Writes(r) && Operand2(m, x) == Some(v)
    ensures Exec([Inst("mov", r, x, "")], m) == Some(SetReg(m, r, v))
  {
    ExecOne(Inst("mov", r, x, ""), m);
  }

  lemma StepAdd(m: Machine, r: string, a: string, x: string, v: int)
    requires Writes(r) && Operand2(m, x) == Some(v)
    ensures Exec([Inst("add", r, a, x)], m) == Some(SetReg(m, r, Reg(m, a) + v))
  {
    ExecOne(Inst("add", r, a, x), m);
  }

  lemma StepSub(m: Machine, r: string, a: string, x: string, v: int)
    requires Writes(r) && Operand2(m, x) == Some(v)
    ensures Exec([Inst("sub", r, a, x)], m) == Some(SetReg(m, r, Reg(m, a) - v))
  {
    ExecOne(Inst("sub", r, a, x), m);
  }

  lemma StepMul(m: Machine, r: string, a: string, b: string)
    requires Writes(r)
    ensures Exec([Inst("mul", r, a, b)], m) == Some(SetReg(m, r, Reg(m, a) * Reg(m, b)))
  {
    ExecOne(Inst("mul", r, a, b), m);
  }

  lemma StepLsl(m: Machine, r: string, a: string, k: nat)
    requires Writes(r)
    ensures Exec([Inst("lsl", r, a, "#" + IntToString(k))], m) == Some(SetReg(m, r, Reg(m, a) * Pow2(k)))
  {
    var x := "#" + IntToString(k);
    assert x[1..] == IntToString(k);
    ParseIntToString(k);
    ExecOne(Inst("lsl", r, a, x), m);
  }

  lemma StepLdr(m: Machine, r: string, x: string, a: int)
    requires Writes(r) && Address(m, x) == Some(a)
    ensures Exec([Inst("ldr", r, x, "")], m) == Some(SetReg(m, r, Load(m, a)))
  {
    ExecOne(Inst("ldr", r, x, ""), m);
  }

  lemma StepStr(m: Machine, r: string, x: string, a: int)
    requires Writes(r) && Address(m, x) == Some(a)
    ensures Exec([Inst("str", r, x, "")], m) == Some(StoreWord(m, a, Reg(m, r)))
  {
    ExecOne(Inst("str", r, x, ""), m);
  }

  /** Running `a` to `m1`, then `b` to `m2`, runs `a + b` to `m2`. */
  lemma ExecThen(a: seq<ArmInst>, b: seq<ArmInst>, m: Machine, m1: Machine, m2: Machine)
    requires Exec(a, m) == Some(m1) && Exec(b, m1) == Some(m2)
    ensures Exec(a + b, m) == Some(m2)
  {
    ExecAppend(a, b, m);
  }

  /** Both halves of a 32-bit word put back together give the word. */
  lemma Halves(u: int)
    requires 0 <= u < TWO32
    ensures U32(U32(u % 0x1_0000) % 0x1_0000 + u / 0x1_0000 * 0x1_0000) == u
  {
  }

  // ---------------------------------------------------------------------------
  // What the emit helpers compute
  // ---------------------------------------------------------------------------

  /** `load_imm(rs, c)` leaves the 32-bit pattern of `c` in `rs` and changes nothing else. */
  lemma LoadImmComputes(rs: int, c: i32, m: Machine)
    requires IsReg(rs)
    ensures Exec(LoadImmCode(rs, c), m) == Some(SetReg(m, RegName(rs), c))
  {
    if UpperHalf(c) == 0 {
      LoadImmLow(rs, c, m);
    } else {
      LoadImmHigh(rs, c, m);
    }
  }

  /** A constant below 2^16 takes one `movw`. */
  lemma LoadImmLow(rs: int, c: i32, m: Machine)
    requires IsReg(rs) && UpperHalf(c) == 0
    ensures Exec(LoadImmCode(rs, c), m) == Some(SetReg(m, RegName(rs), c))
  {
    var r := RegName(rs);
    var lo := "#:lower16:" + IntToString(c);
    assert LoadImmCode(rs, c) == [Inst("movw", r, lo, "")];
    assert 0 <= c < 0x1_0000 by {
      assert |LoadImmCode(rs, c)| == 1;
    }
    assert U32(c) % 0x1_0000 == c;
    MovwOfInt(r, c, m);
    SetRegSame(m, r, U32(c) % 0x1_0000, c);
  }

  /** Any other constant takes a `movw` for the low half and a `movt` for the high half. */
  lemma LoadImmHigh(rs: int, c: i32, m: Machine)
    requires IsReg(rs) && UpperHalf(c) != 0
    ensures Exec(LoadImmCode(rs, c), m) == Some(SetReg(m, RegName(rs), c))
  {
    var r := RegName(rs);
    var movw := Inst("movw", r, "#:lower16:" + IntToString(c), "");
    var movt := Inst("movt", r, "#:upper16:" + IntToString(c), "");
    assert LoadImmCode(rs, c) == [movw] + [movt];
    MovwMovtComputes(r, c, m);
    ExecSame(LoadImmCode(rs, c), [movw] + [movt], m, SetReg(m, r, c));
  }

  /** The `movw`/`movt` pair of a constant leaves the constant. */
  lemma MovwMovtComputes(r: string, c: int, m: Machine)
    requires Writes(r)
    ensures Exec([Inst("movw", r, "#:lower16:" + IntToString(c), "")] + [Inst("movt", r, "#:upper16:" + IntToString(c), "")], m)
            == Some(SetReg(m, r, c))
  {
    var movw := Inst("movw", r, "#:lower16:" + IntToString(c), "");
    var movt := Inst("movt", r, "#:upper16:" + IntToString(c), "");
    var m1 := SetReg(m, r, U32(c) % 0x1_0000);
    var m2 := SetReg(m1, r, Reg(m1, r) % 0x1_0000 + U32(c) / 0x1_0000 * 0x1_0000);
    MovwOfInt(r, c, m);
    MovtOfInt(r, c, m1);
    ExecThen([movw], [movt], m, m1, m2);
    MovwMovt(m, r, U32(c));
    SetRegU32(m, r, c);
  }

  lemma MovwOfInt(r: string, c: int, m: Machine)
    requires Writes(r)
    ensures Exec([Inst("movw", r, "#:lower16:" + IntToString(c), "")], m) == Some(SetReg(m, r, U32(c) % 0x1_0000))
  {
    HalfOfInt(m, "#:lower16:", c);
    StepMovw(m, r, "#:lower16:" + IntToString(c), U32(c));
  }

  lemma MovtOfInt(r: string, c: int, m: Machine)
    requires Writes(r)
    ensures Exec([Inst("movt", r, "#:upper16:" + IntToString(c), "")], m)
            == Some(SetReg(m, r, Reg(m, r) % 0x1_0000 + U32(c) / 0x1_0000 * 0x1_0000))
  {
    HalfOfInt(m, "#:upper16:", c);
    StepMovt(m, r, "#:upper16:" + IntToString(c), U32(c));
  }

  lemma SetRegU32(m: Machine, r: string, v: int)
    ensures SetReg(m, r, U32(v)) == SetReg(m, r, v)
  {
    U32Idem(v);
  }

  /** `movt` after `movw` of the same word leaves the word. */
  lemma MovwMovt(m: Machine, r: string, u: int)
    requires 0 <= u < TWO32
    ensures SetReg(SetReg(m, r, u % 0x1_0000), r, Reg(SetReg(m, r, u % 0x1_0000), r) % 0x1_0000 + u / 0x1_0000 * 0x1_0000)
            == SetReg(m, r, u)
  {
    var v := Reg(SetReg(m, r, u % 0x1_0000), r) % 0x1_0000 + u / 0x1_0000 * 0x1_0000;
    Halves(u);
    assert U32(v) == u;
    SetRegTwice(m, r, u % 0x1_0000, v);
  }

  /** `load_symbol(rs, name)` leaves the symbol's address in `rs`. */
  lemma LoadSymbolComputes(rs: int, name: string, m: Machine)
    requires IsReg(rs) && IsSymbolName(name) && name in m.syms
    ensures Exec(LoadSymbolCode(rs, name), m) == Some(SetReg(m, RegName(rs), m.syms[name]))
  {
    var r := RegName(rs);
    var a := U32(m.syms[name]);
    var lo := "#:lower16:" + name;
    var hi := "#:upper16:" + name;
    var movw := Inst("movw", r, lo, "");
    var movt := Inst("movt", r, hi, "");
    assert LoadSymbolCode(rs, name) == [movw] + [movt];
    HalfOfSymbol(m, "#:lower16:", name);
    StepMovw(m, r, lo, a);
    var m1 := SetReg(m, r, a % 0x1_0000);
    HalfOfSymbol(m1, "#:upper16:", name);
    var m2 := SetReg(m1, r, Reg(m1, r) % 0x1_0000 + a / 0x1_0000 * 0x1_0000);
    StepMovt(m1, r, hi, a);
    MovwMovt(m, r, a);
    SetRegU32(m, r, m.syms[name]);
    assert m2 == SetReg(m, r, m.syms[name]);
    ExecThen([movw], [movt], m, m1, m2);
  }

  /** `mov_reg(rd, rs)` copies `rs` into `rd`. */
  lemma MovRegComputes(rd: int, rs: int, m: Machine)
    requires IsReg(rd) && IsReg(rs)
    ensures Exec(MovRegCode(rd, rs), m) == Some(SetReg(m, RegName(rd), Reg(m, RegName(rs))))
  {
    RegisterOperand(m, rs);
    StepMov(m, RegName(rd), RegName(rs), Reg(m, RegName(rs)));
  }

  /** The address `load_base`/`store_base` use: base register plus offset, modulo 2^32. */
  function BaseAddr(m: Machine, b: int, off: int): int
    requires IsReg(b)
  {
    U32(Reg(m, RegName(b)) + off)
  }

  /** The memory operand of an offset `load_base`/`store_base` can encode directly. */
  lemma NearAddress(m: Machine, b: int, off: i32)
    requires IsReg(b) && IsDisp(off)
    ensures Address(m, AddrOperand(RegName(b), if off != 0 then ToStr(off, true) else "")) == Some(BaseAddr(m, b, off))
  {
    if off != 0 {
      ImmediateOperand(m, off);
    }
    AddressOfOperand(m, b, if off != 0 then ToStr(off, true) else "");
  }

  /** `[b,x]` after `x` was loaded with `off`, for a register `x` other than `b`. */
  lemma FarAddress(m: Machine, b: int, x: int, off: i32)
    requires IsReg(b) && IsReg(x) && x != b
    ensures Address(SetReg(m, RegName(x), off), AddrOperand(RegName(b), RegName(x))) == Some(BaseAddr(m, b, off))
  {
    var m1 := SetReg(m, RegName(x), off);
    RegNameInjective(x, b);
    assert Reg(m1, RegName(b)) == Reg(m, RegName(b));
    RegisterOperand(m1, x);
    AddressOfOperand(m1, b, RegName(x));
    U32Add(Reg(m, RegName(b)), off);
  }

  /**
   * `load_base(rs, b, off)` loads the word at `b + off` into `rs`.  A far offset
   * is first built in `rs`, so this holds only when `rs` is not the base.
   */
  lemma LoadBaseComputes(rs: int, b: int, off: i32, m: Machine)
    requires IsReg(rs) && IsReg(b)
    requires !IsDisp(off) ==> rs != b
    ensures Exec(LoadBaseCode(rs, b, off), m) == Some(SetReg(m, RegName(rs), Load(m, BaseAddr(m, b, off))))
  {
    var r := RegName(rs);
    if IsDisp(off) {
      NearAddress(m, b, off);
      StepLdr(m, r, AddrOperand(RegName(b), if off != 0 then ToStr(off, true) else ""), BaseAddr(m, b, off));
    } else {
      var m1 := SetReg(m, r, off);
      LoadImmComputes(rs, off, m);
      FarAddress(m, b, rs, off);
      var ld := Inst("ldr", r, AddrOperand(RegName(b), r), "");
      StepLdr(m1, r, AddrOperand(RegName(b), r), BaseAddr(m, b, off));
      assert Load(m1, BaseAddr(m, b, off)) == Load(m, BaseAddr(m, b, off));
      ExecThen(LoadImmCode(rs, off), [ld], m, m1, SetReg(m1, r, Load(m, BaseAddr(m, b, off))));
      SetRegTwice(m, r, off, Load(m, BaseAddr(m, b, off)));
    }
  }

  /** The register state `store_base` leaves: the scratch register holds a far offset. */
  function AfterScratch(m: Machine, far: bool, tmp: int, v: int): Machine
    requires IsReg(tmp)
  {
    if far then SetReg(m, RegName(tmp), v) else m
  }

  /**
   * `store_base(src, b, off, tmp)` stores `src` at `b + off`.  A far offset is
   * built in `tmp`, which must then differ from the base and the source.
   */
  lemma StoreBaseComputes(src: int, b: int, off: i32, tmp: int, m: Machine)
    requires IsReg(src) && IsReg(b) && IsReg(tmp)
    requires !IsDisp(off) ==> tmp != b && tmp != src
    ensures Exec(StoreBaseCode(src, b, off, tmp), m)
            == Some(StoreWord(AfterScratch(m, !IsDisp(off), tmp, off), BaseAddr(m, b, off), Reg(m, RegName(src))))
  {
    var r := RegName(src);
    if IsDisp(off) {
      NearAddress(m, b, off);
      StepStr(m, r, AddrOperand(RegName(b), if off != 0 then ToStr(off, true) else ""), BaseAddr(m, b, off));
    } else {
      var m1 := SetReg(m, RegName(tmp), off);
      LoadImmComputes(tmp, off, m);
      FarAddress(m, b, tmp, off);
      RegNameInjective(tmp, src);
      assert Reg(m1, r) == Reg(m, r);
      var st := Inst("str", r, AddrOperand(RegName(b), RegName(tmp)), "");
      StepStr(m1, r, AddrOperand(RegName(b), RegName(tmp)), BaseAddr(m, b, off));
      ExecThen(LoadImmCode(tmp, off), [st], m, m1, StoreWord(m1, BaseAddr(m, b, off), Reg(m, r)));
    }
  }

  /** `leaStack(rs, b, off)` computes `b + off` into `rs`; a non-immediate offset needs `rs` other than `b`. */
  lemma LeaStackComputes(rs: int, b: int, off: i32, m: Machine)
    requires IsReg(rs) && IsReg(b)
    requires !ConstExpr(off) ==> rs != b
    ensures Exec(LeaStackCode(rs, b, off), m) == Some(SetReg(m, RegName(rs), Reg(m, RegName(b)) + off))
  {
    if ConstExpr(off) {
      assert LeaStackCode(rs, b, off) == [Inst("add", RegName(rs), RegName(b), ToStr(off, true))];
      AddImmediate(rs, b, off, m);
    } else {
      LeaStackThroughRegister(rs, b, off, m);
    }
  }

  /** `add rs,b,#off` adds `off` to the base. */
  lemma AddImmediate(rs: int, b: int, off: i32, m: Machine)
    requires IsReg(rs) && IsReg(b)
    ensures Exec([Inst("add", RegName(rs), RegName(b), ToStr(off, true))], m) == Some(SetReg(m, RegName(rs), Reg(m, RegName(b)) + off))
  {
    var add := Inst("add", RegName(rs), RegName(b), ToStr(off, true));
    AddImmediateStep(rs, b, off, m);
    ExecOne(add, m);
  }

  lemma AddImmediateStep(rs: int, b: int, off: i32, m: Machine)
    requires IsReg(rs) && IsReg(b)
    ensures Step(Inst("add", RegName(rs), RegName(b), ToStr(off, true)), m) == Some(SetReg(m, RegName(rs), Reg(m, RegName(b)) + off))
  {
    ImmediateOperand(m, off);
  }

  lemma LeaStackThroughRegister(rs: int, b: int, off: i32, m: Machine)
    requires IsReg(rs) && IsReg(b) && !ConstExpr(off) && rs != b
    ensures Exec(LeaStackCode(rs, b, off), m) == Some(SetReg(m, RegName(rs), Reg(m, RegName(b)) + off))
  {
    assert LeaStackCode(rs, b, off) == LoadImmCode(rs, off) + [Inst("add", RegName(rs), RegName(b), RegName(rs))];
    LoadImmComputes(rs, off, m);
    AddThroughRegister(LoadImmCode(rs, off), rs, b, off, m, m);
  }

  /**
   * Records `a` that run from `m` to `s` with `off` in `rs`, followed by
   * `add rs,b,rs` for `rs` other than `b`, leave base plus `off` in `rs`.
   */
  lemma AddThroughRegister(a: seq<ArmInst>, rs: int, b: int, off: int, m: Machine, s: Machine)
    requires IsReg(rs) && IsReg(b) && rs != b
    requires Exec(a, m) == Some(SetReg(s, RegName(rs), off))
    ensures Exec(a + [Inst("add", RegName(rs), RegName(b), RegName(rs))], m)
            == Some(SetReg(s, RegName(rs), Reg(s, RegName(b)) + off))
  {
    var r := RegName(rs);
    var x := Reg(s, RegName(b));
    var s1 := SetReg(s, r, off);
    AddAfterLoad(rs, b, off, s);
    ExecThen(a, [Inst("add", r, RegName(b), r)], m, s1, SetReg(s1, r, x + U32(off)));
    SameFinalRegister(s, r, off, x);
  }

  /** The `add rs,b,rs` after `rs` was loaded with `off` adds `off` to the base. */
  lemma AddAfterLoad(rs: int, b: int, off: int, m: Machine)
    requires IsReg(rs) && IsReg(b) && rs != b
    ensures var m1 := SetReg(m, RegName(rs), off);
            Exec([Inst("add", RegName(rs), RegName(b), RegName(rs))], m1)
            == Some(SetReg(m1, RegName(rs), Reg(m, RegName(b)) + U32(off)))
  {
    var r := RegName(rs);
    var m1 := SetReg(m, r, off);
    RegNameInjective(rs, b);
    assert Reg(m1, RegName(b)) == Reg(m, RegName(b));
    RegisterOperand(m1, rs);
    StepAdd(m1, r, RegName(b), r, U32(off));
  }

  /** Overwriting a register twice, the second time with a sum that wraps, leaves the plain sum. */
  lemma SameFinalRegister(m: Machine, r: string, off: int, x: int)
    ensures SetReg(SetReg(m, r, off), r, x + U32(off)) == SetReg(m, r, x + off)
  {
    SetRegTwice(m, r, off, x + U32(off));
    U32Add(x, off);
    SetRegSame(m, r, x + U32(off), x + off);
  }

  lemma SetRegSame(m: Machine, r: string, a: int, b: int)
    requires U32(a) == U32(b)
    ensures SetReg(m, r, a) == SetReg(m, r, b)
  {
  }
}
