/**
 What the code generator of lcode.c computes, with every jump list written as the sequence of
 its jumps. A pending jump holds the offset NO_JUMP, whatever its place in a list. The class in
 lua_codegen.dfy threads the lists through the operands and is proved to compute these functions.
 */
module LuaGen {
  import opened LuaVm

  datatype Kind = VNil | VTrue | VFalse | VK | VKNum | VNonReloc | VLocal | VJmp | VReloc

  /** An expression descriptor; `t` and `f` are its patch lists of exits when true and when false. */
  datatype Exp = Exp(k: Kind, info: int, nval: Num, t: seq<int>, f: seq<int>)

  /** Key under which a constant is remembered. The table itself stands for nil. */
  datatype Key = Of(v: Value) | Self

  /** The state of the generator; `freereg`, `lasttarget` and so on are the fields of FuncState,
      `maxstack` is the frame size, `k` the constants and `h` their index. */
  datatype FS = FS(code: seq<Instr>, jpc: seq<int>, lasttarget: int, freereg: int, nactvar: int,
                   maxstack: int, k: seq<Value>, h: map<Key, int>)

  /** What no generator operation undoes. */
  ghost predicate Grows(s: FS, s': FS) {
    s'.nactvar == s.nactvar && s'.maxstack >= s.maxstack && s.k <= s'.k && |s.code| <= |s'.code|
  }

  function WithLists(e: Exp, t: seq<int>, f: seq<int>): Exp { e.(t := t, f := f) }

  function Descriptor(k: Kind, info: int): Exp { Exp(k, info, Finite(0.0), [], []) }

  function Number0(n: Num): Exp { Exp(VKNum, 0, n, [], []) }

  predicate HasJumps(e: Exp) { e.t != [] || e.f != [] }

  predicate IsNumeral(e: Exp) { e.k == VKNum && e.t == [] && e.f == [] }

  // ---------- jump lists ----------

  /** The jump at `j` is controlled by a TESTSET, so it carries a value. */
  predicate Valued(code: seq<Instr>, j: int) { 1 <= j <= |code| && code[j - 1].TestSet? }

  predicate NeedValue(code: seq<Instr>, list: seq<int>) { exists j :: j in list && !Valued(code, j) }

  /** patchtestreg on a TESTSET. */
  function PatchTest(i: Instr, reg: int): Instr
    requires i.TestSet?
  {
    if reg != NO_REG && reg != i.b then TestSet(reg, i.b, i.cond) else Test(i.b, i.cond)
  }

  function PatchedAt(code: seq<Instr>, list: seq<int>, vtarget: int, reg: int, dtarget: int, i: int): Instr
    requires 0 <= i < |code|
  {
    if i in list then Jmp((if Valued(code, i) then vtarget else dtarget) - (i + 1))
    else if i + 1 in list && code[i].TestSet? then PatchTest(code[i], reg)
    else code[i]
  }

  /** patchlistaux: jumps that carry a value go to `vtarget` leaving it in `reg`, the others to `dtarget`. */
  function Patch(code: seq<Instr>, list: seq<int>, vtarget: int, reg: int, dtarget: int): (r: seq<Instr>)
    ensures |r| == |code|
  {
    seq(|code|, i requires 0 <= i < |code| => PatchedAt(code, list, vtarget, reg, dtarget, i))
  }

  /** removevalues: the jumps stay pending but carry no value any more. */
  function RemoveValues(code: seq<Instr>, list: seq<int>): (r: seq<Instr>)
    ensures |r| == |code|
  {
    seq(|code|, i requires 0 <= i < |code| =>
      if i + 1 in list && code[i].TestSet? then PatchTest(code[i], NO_REG) else code[i])
  }

  // ---------- emitting code ----------

  function GetLabel(s: FS): FS { s.(lasttarget := |s.code|) }

  function Discharged(s: FS): seq<Instr> { Patch(s.code, s.jpc, |s.code|, NO_REG, |s.code|) }

  function Code(s: FS, i: Instr): FS { s.(code := Discharged(s) + [i], jpc := []) }

  function Jump(s: FS): (FS, seq<int>) {
    (s.(code := s.code + [Jmp(NO_JUMP)], jpc := []), [|s.code|] + s.jpc)
  }

  function CondJump(s: FS, i: Instr): (FS, seq<int>) { Jump(Code(s, i)) }

  function PatchToHere(s: FS, list: seq<int>): FS { GetLabel(s).(jpc := s.jpc + list) }

  function Max(a: int, b: int): int { if a > b then a else b }

  function Min(a: int, b: int): int { if a < b then a else b }

  /** Two runs of registers that touch or overlap. */
  predicate Connects(pfrom: int, pl: int, from: int, l: int) {
    (pfrom <= from <= pl + 1) || (from <= pfrom <= l + 1)
  }

  function CodeNil(s: FS, from: int, n: int): FS {
    if 0 < |s.code| && |s.code| > s.lasttarget && s.code[|s.code| - 1].LoadNil?
       && Connects(s.code[|s.code| - 1].a, s.code[|s.code| - 1].a + s.code[|s.code| - 1].b, from, from + n - 1)
    then
      var previous := s.code[|s.code| - 1];
      var first := Min(previous.a, from);
      var last := Max(previous.a + previous.b, from + n - 1);
      s.(code := s.code[|s.code| - 1 := LoadNil(first, last - first)])
    else Code(s, LoadNil(from, n - 1))
  }

  // ---------- constants ----------

  function AddK(s: FS, key: Key, v: Value): (r: (FS, int))
    ensures Grows(s, r.0)
  {
    if key in s.h && 0 <= s.h[key] < |s.k| && RawEqual(s.k[s.h[key]], v) then (s, s.h[key])
    else (s.(k := s.k + [v], h := s.h[key := |s.k|]), |s.k|)
  }

  /** The bytes of a number that is zero or NaN, used as a string key. */
  function RawBytes(n: Num): string {
    match n
    case NegZero => "\0\0\0\0\0\0\0" + ['\U{80}']
    case Finite(_) => "\0\0\0\0\0\0\0\0"
    case _ => "\0\0\0\0\0\0" + ['\U{F8}', '\U{7F}']
  }

  function NumberKey(n: Num): Key {
    if IsZero(n) || n == NaN then Of(String(RawBytes(n))) else Of(Number(n))
  }

  function NumberK(s: FS, n: Num): (r: (FS, int))
    ensures Grows(s, r.0)
  { AddK(s, NumberKey(n), Number(n)) }

  function StringK(s: FS, str: string): (r: (FS, int))
    ensures Grows(s, r.0)
  { AddK(s, Of(String(str)), String(str)) }

  function BoolK(s: FS, b: bool): (r: (FS, int))
    ensures Grows(s, r.0)
  { AddK(s, Of(Bool(b)), Bool(b)) }

  function NilK(s: FS): (r: (FS, int))
    ensures Grows(s, r.0)
  { AddK(s, Self, Nil) }

  // ---------- registers ----------

  function ReserveRegs(s: FS, n: int): FS {
    s.(freereg := s.freereg + n, maxstack := Max(s.maxstack, s.freereg + n))
  }

  function FreeReg(s: FS, reg: int): FS {
    if reg < BITRK && reg >= s.nactvar then s.(freereg := s.freereg - 1) else s
  }

  function FreeExp(s: FS, e: Exp): FS { if e.k == VNonReloc then FreeReg(s, e.info) else s }

  // ---------- putting values into registers ----------

  function DischargeVars(e: Exp): Exp { if e.k == VLocal then e.(k := VNonReloc) else e }

  function InReg(e: Exp, reg: int): Exp { e.(k := VNonReloc, info := reg) }

  function SetA(code: seq<Instr>, at: int, reg: int): (r: seq<Instr>)
    ensures |r| == |code|
  {
    if 0 <= at < |code| then
      match code[at]
      case Arith(op, _, b, c) => code[at := Arith(op, reg, b, c)]
      case Unm(_, b) => code[at := Unm(reg, b)]
      case Len(_, b) => code[at := Len(reg, b)]
      case Not(_, b) => code[at := Not(reg, b)]
      case _ => code
    else code
  }

  /** discharge2reg after luaK_dischargevars. */
  function LoadInto(s: FS, e: Exp, reg: int): (r: FS)
    ensures Grows(s, r)
  {
    match e.k
    case VNil => CodeNil(s, reg, 1)
    case VFalse => Code(s, LoadBool(reg, false, false))
    case VTrue => Code(s, LoadBool(reg, true, false))
    case VK => Code(s, LoadK(reg, e.info))
    case VKNum => var (s1, i) := NumberK(s, e.nval); Code(s1, LoadK(reg, i))
    case VReloc => s.(code := SetA(s.code, e.info, reg))
    case VJmp => s
    case _ => if reg != e.info then Code(s, Move(reg, e.info)) else s
  }

  function Discharge2Reg(s: FS, e: Exp, reg: int): (r: (FS, Exp))
    ensures Grows(s, r.0)
  {
    (LoadInto(s, e, reg), if e.k == VJmp then e else InReg(e, reg))
  }

  function Discharge2AnyReg(s: FS, e: Exp): (r: (FS, Exp))
    ensures Grows(s, r.0)
  {
    if e.k == VNonReloc then (s, e)
    else var s1 := ReserveRegs(s, 1); Discharge2Reg(s1, e, s1.freereg - 1)
  }

  /** The two LOADBOOLs of exp2reg, and the positions they are at; a falling value jumps over them. */
  function LoadBools(s: FS, reg: int, fallsIn: bool): (r: (FS, int, int))
    ensures Grows(s, r.0)
  {
    var (s2, fj) := if fallsIn then (s, []) else Jump(s);
    var s3 := Code(GetLabel(s2), LoadBool(reg, false, true));
    var s4 := Code(GetLabel(s3), LoadBool(reg, true, false));
    (PatchToHere(s4, fj), |s3.code| - 1, |s4.code| - 1)
  }

  /** The end of exp2reg: give every pending exit its value in `reg`. */
  function CloseLists(s: FS, t: seq<int>, f: seq<int>, reg: int, fallsIn: bool): (r: FS)
    ensures Grows(s, r)
  {
    var (s4, pf, pt) :=
      if NeedValue(s.code, t) || NeedValue(s.code, f) then LoadBools(s, reg, fallsIn) else (s, NO_JUMP, NO_JUMP);
    var final := |s4.code|;
    GetLabel(s4).(code := Patch(Patch(s4.code, f, final, reg, pf), t, final, reg, pt))
  }

  function Exp2Reg(s: FS, e: Exp, reg: int): (r: (FS, Exp))
    ensures Grows(s, r.0)
  {
    var (s1, e1) := Discharge2Reg(s, e, reg);
    var t := if e1.k == VJmp then e1.t + [e1.info] else e1.t;
    var s2 := if t != [] || e1.f != [] then CloseLists(s1, t, e1.f, reg, e1.k == VJmp) else s1;
    (s2, WithLists(InReg(e1, reg), [], []))
  }

  function Exp2NextReg(s: FS, e0: Exp): (r: (FS, Exp))
    ensures Grows(s, r.0)
  {
    var e := DischargeVars(e0);
    var s1 := ReserveRegs(FreeExp(s, e), 1);
    Exp2Reg(s1, e, s1.freereg - 1)
  }

  function Exp2AnyReg(s: FS, e0: Exp): (r: (FS, Exp))
    ensures Grows(s, r.0)
  {
    var e := DischargeVars(e0);
    if e.k == VNonReloc && !HasJumps(e) then (s, e)
    else if e.k == VNonReloc && e.info >= s.nactvar then Exp2Reg(s, e, e.info)
    else Exp2NextReg(s, e)
  }

  function Exp2Val(s: FS, e: Exp): (r: (FS, Exp))
    ensures Grows(s, r.0)
  {
    if HasJumps(e) then Exp2AnyReg(s, e) else (s, DischargeVars(e))
  }

  /** luaK_exp2RK after luaK_exp2val. */
  function ToRK(s: FS, e: Exp): (r: (FS, Exp, int))
    ensures Grows(s, r.0)
  {
    if (e.k == VNil || e.k == VTrue || e.k == VFalse) && |s.k| <= MAX_INDEX_RK then
      var (s1, i) := if e.k == VNil then NilK(s) else BoolK(s, e.k == VTrue);
      (s1, e.(k := VK, info := i), BITRK + i)
    else
      var (s1, e1) := if e.k == VKNum then var (sn, i) := NumberK(s, e.nval); (sn, e.(k := VK, info := i)) else (s, e);
      if e1.k == VK && e1.info <= MAX_INDEX_RK then (s1, e1, BITRK + e1.info)
      else var (s2, e2) := Exp2AnyReg(s1, e1); (s2, e2, e2.info)
  }

  /** luaK_exp2RK: the operand is a register or BITRK plus the index of a constant. */
  function Exp2RK(s: FS, e: Exp): (r: (FS, Exp, int))
    ensures Grows(s, r.0)
  {
    var (s1, e1) := Exp2Val(s, e);
    ToRK(s1, e1)
  }

  // ---------- conditional jumps ----------

  function NegateCond(code: seq<Instr>, at: int): (r: seq<Instr>)
    ensures |r| == |code|
  {
    if 0 <= at < |code| && code[at].Cmp? then
      code[at := Cmp(code[at].cop, !code[at].cond, code[at].b, code[at].c)]
    else code
  }

  function JumpOnCond(s: FS, e: Exp, cond: bool): (r: (FS, seq<int>))
    ensures Grows(s, r.0)
  {
    if e.k == VReloc && 0 <= e.info < |s.code| && s.code[e.info].Not? then
      CondJump(s.(code := s.code[..|s.code| - 1]), Test(s.code[e.info].b, !cond))
    else
      var (s1, e1) := Discharge2AnyReg(s, e);
      CondJump(FreeExp(s1, e1), TestSet(NO_REG, e1.info, cond))
  }

  function GoIfTrue(s: FS, e0: Exp): (r: (FS, Exp))
    ensures Grows(s, r.0)
  {
    var e := DischargeVars(e0);
    var (s1, pc) :=
      if e.k == VJmp then (s.(code := NegateCond(s.code, e.info - 1)), [e.info])
      else if e.k == VK || e.k == VKNum || e.k == VTrue then (s, [])
      else JumpOnCond(s, e, false);
    (PatchToHere(s1, e.t), WithLists(e, [], e.f + pc))
  }

  function GoIfFalse(s: FS, e0: Exp): (r: (FS, Exp))
    ensures Grows(s, r.0)
  {
    var e := DischargeVars(e0);
    var (s1, pc) :=
      if e.k == VJmp then (s, [e.info])
      else if e.k == VNil || e.k == VFalse then (s, [])
      else JumpOnCond(s, e, true);
    (PatchToHere(s1, e.f), WithLists(e, e.t + pc, []))
  }

  /** codenot before the lists are exchanged. */
  function NotValue(s: FS, e: Exp): (r: (FS, Exp))
    ensures Grows(s, r.0)
  {
    match e.k
    case VNil => (s, e.(k := VTrue))
    case VFalse => (s, e.(k := VTrue))
    case VK => (s, e.(k := VFalse))
    case VKNum => (s, e.(k := VFalse))
    case VTrue => (s, e.(k := VFalse))
    case VJmp => (s.(code := NegateCond(s.code, e.info - 1)), e)
    case _ =>
      var (s1, e1) := Discharge2AnyReg(s, e);
      var s2 := Code(FreeExp(s1, e1), Not(0, e1.info));
      (s2, e1.(k := VReloc, info := |s2.code| - 1))
  }

  function CodeNot(s: FS, e0: Exp): (r: (FS, Exp))
    ensures Grows(s, r.0)
  {
    var (s1, e1) := NotValue(s, DischargeVars(e0));
    (s1.(code := RemoveValues(RemoveValues(s1.code, e1.t), e1.f)), WithLists(e1, e1.f, e1.t))
  }

  // ---------- operators ----------

  datatype UnOp = OpNeg | OpNot | OpLen

  /** OpDiffers(EqOp), OpDiffers(LtOp) and OpDiffers(LeOp) are ~=, > and >=. */
  datatype BinOp = OpArith(a: ArithOp) | OpCompare(c: CmpOp) | OpDiffers(c: CmpOp) | OpAnd | OpOr

  function FreeBoth(s: FS, e1: Exp, e2: Exp, o1: int, o2: int): FS {
    if o1 > o2 then FreeExp(FreeExp(s, e1), e2) else FreeExp(FreeExp(s, e2), e1)
  }

  function Relocatable(s: FS, e: Exp): Exp { e.(k := VReloc, info := |s.code| - 1) }

  predicate Foldable(op: ArithOp, e1: Exp, e2: Exp) {
    IsNumeral(e1) && IsNumeral(e2) && !((op == Div || op == Mod) && IsZero(e2.nval))
  }

  function CodeArith(m: Machine, s: FS, op: ArithOp, e1: Exp, e2: Exp): (r: (FS, Exp))
    ensures Grows(s, r.0)
  {
    if Foldable(op, e1, e2) then (s, e1.(nval := m.arith(op, e1.nval, e2.nval)))
    else
      var (s1, e2', o2) := Exp2RK(s, e2);
      var (s2, e1', o1) := Exp2RK(s1, e1);
      var s3 := Code(FreeBoth(s2, e1', e2', o1, o2), Arith(op, 0, o1, o2));
      assert Grows(s, s1) && Grows(s1, s2);
      assert s2.nactvar == s3.nactvar && s2.maxstack == s3.maxstack && s2.k == s3.k && |s2.code| < |s3.code|;
      (s3, Relocatable(s3, e1'))
  }

  function UnaryInstr(len: bool, o: int): Instr { if len then Len(0, o) else Unm(0, o) }

  /** codearith for the two unary operators that need a register. */
  function CodeUnary(s: FS, len: bool, e: Exp): (r: (FS, Exp))
    ensures Grows(s, r.0)
  {
    var (s1, e1) := Exp2AnyReg(s, e);
    var (s2, e2, o) := Exp2RK(s1, e1);
    var s3 := Code(FreeExp(s2, e2), UnaryInstr(len, o));
    (s3, Relocatable(s3, e2))
  }

  /** > and >= become < and <= with their operands exchanged. */
  function CompInstr(op: CmpOp, cond: bool, o1: int, o2: int): Instr {
    if !cond && op != EqOp then Cmp(op, true, o2, o1) else Cmp(op, cond, o1, o2)
  }

  function CodeComp(s: FS, op: CmpOp, cond: bool, e1: Exp, e2: Exp): (r: (FS, Exp))
    ensures Grows(s, r.0)
  {
    var (s1, e1', o1) := Exp2RK(s, e1);
    var (s2, e2', o2) := Exp2RK(s1, e2);
    var s3 := FreeExp(FreeExp(s2, e2'), e1');
    var (s4, j) := CondJump(s3, CompInstr(op, cond, o1, o2));
    (s4, e1'.(k := VJmp, info := |s4.code| - 1))
  }

  function Prefix(m: Machine, s: FS, op: UnOp, e: Exp): (r: (FS, Exp))
    ensures Grows(s, r.0)
  {
    match op
    case OpNeg => if IsNumeral(e) then (s, e.(nval := m.neg(e.nval))) else CodeUnary(s, false, e)
    case OpNot => CodeNot(s, e)
    case OpLen => CodeUnary(s, true, e)
  }

  function Infix(s: FS, op: BinOp, e: Exp): (r: (FS, Exp))
    ensures Grows(s, r.0)
  {
    match op
    case OpAnd => GoIfTrue(s, e)
    case OpOr => GoIfFalse(s, e)
    case OpArith(_) => if IsNumeral(e) then (s, e) else var (s1, e1, _) := Exp2RK(s, e); (s1, e1)
    case _ => var (s1, e1, _) := Exp2RK(s, e); (s1, e1)
  }

  function Posfix(m: Machine, s: FS, op: BinOp, e1: Exp, e2: Exp): (r: (FS, Exp))
    ensures Grows(s, r.0)
  {
    match op
    case OpAnd => (s, WithLists(DischargeVars(e2), e2.t, e2.f + e1.f))
    case OpOr => (s, WithLists(DischargeVars(e2), e2.t + e1.t, e2.f))
    case OpArith(a) => CodeArith(m, s, a, e1, e2)
    case OpCompare(c) => CodeComp(s, c, true, e1, e2)
    case OpDiffers(c) => CodeComp(s, c, false, e1, e2)
  }

  // ---------- the parser's driving of the generator ----------

  datatype Expr =
    | ENil | ETrue | EFalse
    | ENum(n: Num)
    | EStr(str: string)
    | ELocal(r: int)
    | EParen(e: Expr)
    | EUn(uop: UnOp, e: Expr)
    | EBin(bop: BinOp, left: Expr, right: Expr)

  /** simpleexp and subexpr: left operand, luaK_infix, right operand, luaK_posfix. */
  function Compile(m: Machine, s: FS, x: Expr): (r: (FS, Exp))
    ensures Grows(s, r.0)
    decreases x
  {
    match x
    case ENil => (s, Descriptor(VNil, 0))
    case ETrue => (s, Descriptor(VTrue, 0))
    case EFalse => (s, Descriptor(VFalse, 0))
    case ENum(n) => (s, Number0(n))
    case EStr(str) => var (s1, i) := StringK(s, str); (s1, Descriptor(VK, i))
    case ELocal(reg) => (s, Descriptor(VLocal, reg))
    case EParen(e) => var (s1, d) := Compile(m, s, e); (s1, DischargeVars(d))
    case EUn(op, e) => var (s1, d) := Compile(m, s, e); Prefix(m, s1, op, d)
    case EBin(op, l, r) =>
      var (s1, d1) := Compile(m, s, l);
      var (s2, d2) := Infix(s1, op, d1);
      var (s3, d3) := Compile(m, s2, r);
      Posfix(m, s3, op, d2, d3)
  }

  // ---------- what an expression means ----------

  function BoolResult(r: Result<bool>): Result<Value> {
    match r
    case Ok(b) => Ok(Bool(b))
    case Err(msg) => Err(msg)
  }

  /** The strict binary operators on two values. */
  function Apply(m: Machine, op: BinOp, a: Value, b: Value): Result<Value> {
    match op
    case OpArith(o) => ArithValue(m, o, a, b)
    case OpCompare(c) => BoolResult(CompareValues(m, c, a, b))
    case OpDiffers(c) =>
      if c == EqOp then Ok(Bool(!RawEqual(a, b))) else BoolResult(CompareValues(m, c, b, a))
    case _ => Ok(b)
  }

  function Apply1(m: Machine, op: UnOp, a: Value): Result<Value> {
    match op
    case OpNeg => NegValue(m, a)
    case OpNot => Ok(Bool(!Truthy(a)))
    case OpLen => m.length(a)
  }

  /** Evaluation as the manual defines it: operands from left to right, the first error wins. */
  function Eval(m: Machine, x: Expr, r: Regs): Result<Value> {
    match x
    case ENil => Ok(Nil)
    case ETrue => Ok(Bool(true))
    case EFalse => Ok(Bool(false))
    case ENum(n) => Ok(Number(n))
    case EStr(str) => Ok(String(str))
    case ELocal(reg) => Ok(Get(r, reg))
    case EParen(e) => Eval(m, e, r)
    case EUn(op, e) =>
      (match Eval(m, e, r)
       case Err(msg) => Err(msg)
       case Ok(v) => Apply1(m, op, v))
    case EBin(op, a, b) =>
      match Eval(m, a, r)
      case Err(msg) => Err(msg)
      case Ok(v) =>
        if (op == OpAnd && !Truthy(v)) || (op == OpOr && Truthy(v)) then Ok(v)
        else
          match Eval(m, b, r)
          case Err(msg) => Err(msg)
          case Ok(w) => Apply(m, op, v, w)
  }

  /** Every local the expression names is an active one. */
  predicate LocalsBelow(x: Expr, n: int) {
    match x
    case ELocal(reg) => 0 <= reg < n
    case EParen(e) => LocalsBelow(e, n)
    case EUn(_, e) => LocalsBelow(e, n)
    case EBin(_, l, r) => LocalsBelow(l, n) && LocalsBelow(r, n)
    case _ => true
  }
}
