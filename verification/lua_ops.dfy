/**
 The strict operators: codearith and codecomp on operands that luaK_infix and luaK_exp2RK prepared.
 */
module LuaOps {
  import opened LuaVm
  import opened LuaGen
  import opened LuaPatch
  import opened LuaRun
  import opened LuaExp
  import opened LuaRegs
  import opened LuaCond
  import opened LuaNot

  /** The descriptor is an operand: a small constant or a register. */
  ghost predicate Held(e: Exp, o: int) {
    && !HasJumps(e)
    && (if e.k == VK then 0 <= e.info <= MAX_INDEX_RK && o == BITRK + e.info
        else e.k == VNonReloc && o == e.info && 0 <= o < NO_REG)
  }

  /** `y` is the run after `x0` with the value `v` in the operand `o`. */
  ghost predicate Holds(env: Env, x0: Outcome, y: Outcome, v: Result<Value>, base: int, o: int) {
    match x0
    case Fall(r) => Gets(env, y, v, r, base, o)
    case z => y == z
  }

  /** Both operand values are in place, or the first error has stopped the run. */
  ghost predicate Both(env: Env, x0: Outcome, y: Outcome, v1: Result<Value>, v2: Result<Value>, base: int, o1: int,
      o2: int) {
    match x0
    case Fall(r) =>
      (match v1
       case Err(msg) => y == Failed(msg)
       case Ok(a) =>
         match v2
         case Err(msg) => y == Failed(msg)
         case Ok(b) => y.Fall? && SameBelow(r, y.regs, base) && RK(env, y.regs, o1) == a && RK(env, y.regs, o2) == b)
    case z => y == z
  }

  function Strict(m: Machine, op: BinOp, v1: Result<Value>, v2: Result<Value>): Result<Value> {
    match v1
    case Err(msg) => Err(msg)
    case Ok(a) =>
      match v2
      case Err(msg) => Err(msg)
      case Ok(b) => Apply(m, op, a, b)
  }

  /** A stored descriptor holds the value that the descriptor stood for. */
  lemma StoredHolds(c: Ctx, s: FS, e: Exp, lo: int, s': FS, e': Exp, o: int, x0: Outcome, v: Result<Value>, base: int)
    requires Stored(c, s, e, lo, s', e', o) && Entry(c, Core(s, e))
    requires Means(c.env, x0, Run(c, Core(s, e)), s.code, e, v, base) && base <= Base(s, e)
    requires x0.Jumped? ==> x0.at !in e.t && x0.at !in e.f
    ensures Holds(c.env, x0, Run(c, s'), v, base, o) && Held(e', o)
  {
    hide Exec, CodeOK, Discharged, ValueOf;
  }

  /** An operand is already in its place. */
  lemma HeldStays(s: FS, e: Exp, o: int)
    requires Held(e, o)
    ensures Exp2RK(s, e) == (s, e, o)
  {}

  /** The operand `o1` survives whatever keeps the registers below `top`. */
  lemma HoldBoth(env: Env, x0: Outcome, x2: Outcome, x4: Outcome, v1: Result<Value>, v2: Result<Value>,
                 base: int, top: int, o1: int, o2: int)
    requires Holds(env, x0, x2, v1, base, o1) && Holds(env, x2, x4, v2, top, o2)
    requires base <= top && (o1 < top || o1 >= BITRK)
    ensures Both(env, x0, x4, v1, v2, base, o1, o2)
  {}

  /** The two operands lie on top of the register stack over `b`. */
  ghost predicate Stacked(s: FS, e1: Exp, e2: Exp, b: int) {
    var t1, t2 := Temp(s, e1), Temp(s, e2);
    && (t1 && t2 ==> (e1.info == b && e2.info == b + 1) || (e2.info == b && e1.info == b + 1))
    && (t1 && !t2 ==> e1.info == b) && (t2 && !t1 ==> e2.info == b)
    && s.freereg == b + (if t1 then 1 else 0) + (if t2 then 1 else 0)
  }

  predicate Temp(s: FS, e: Exp) { e.k == VNonReloc && e.info >= s.nactvar }

  /** The assertion in freereg: the register freed is the topmost one. */
  ghost predicate FreesTop(s: FS, e: Exp) { Temp(s, e) && e.info < BITRK ==> e.info == s.freereg - 1 }

  /** The order in which codearith frees its operands always frees the topmost register. */
  lemma FreeBothTop(s: FS, e1: Exp, e2: Exp, o1: int, o2: int, b: int)
    requires Held(e1, o1) && Held(e2, o2) && Stacked(s, e1, e2, b)
    ensures FreeBoth(s, e1, e2, o1, o2) == s.(freereg := b)
    ensures o1 > o2 ==> FreesTop(s, e1) && FreesTop(FreeExp(s, e1), e2)
    ensures o1 <= o2 ==> FreesTop(s, e2) && FreesTop(FreeExp(s, e2), e1)
  {}

  /** What an operator leaves behind. */
  ghost predicate Result3(c: Ctx, s: FS, lo: int, s': FS, e': Exp, b: int, x0: Outcome, v: Result<Value>) {
    && StateOK(s') && ExpOK(s', e', lo) && Keeps(s, s') && s'.jpc == [] && s'.freereg == b && Base(s', e') == b
    && |s.code| <= |Core(s', e').code| && Entry(c, Core(s', e'))
    && Means(c.env, x0, Run(c, Core(s', e')), s'.code, e', v, b)
  }

  /** The end of codearith. */
  lemma ArithEnd(c: Ctx, s: FS, op: ArithOp, e1: Exp, e2: Exp, o1: int, o2: int, lo: int, b: int,
                 x0: Outcome, v1: Result<Value>, v2: Result<Value>)
    requires StateOK(s) && Entry(c, s) && 0 <= lo <= |s.code| && s.nactvar <= b
    requires Held(e1, o1) && Held(e2, o2) && Stacked(s, e1, e2, b)
    requires Both(c.env, x0, Run(c, s), v1, v2, b, o1, o2)
    ensures var s3 := Code(FreeBoth(s, e1, e2, o1, o2), Arith(op, 0, o1, o2));
      Result3(c, s, lo, s3, Relocatable(s3, e1), b, x0, Strict(c.env.m, OpArith(op), v1, v2))
  {
    hide Exec, CodeOK, ConstsOK, Discharged, ListOK, FreeBoth, Both, Means, Strict;
    FreeBothTop(s, e1, e2, o1, o2, b);
    var s2 := s.(freereg := b);
    SameCode(c, s, s2, Descriptor(VNil, 0), lo);
    var i, e := Arith(op, 0, o1, o2), e1.(k := VReloc, info := |s2.code|);
    NoLists(s2.code, lo);
    DelayedRun(c, s2, i, e, lo);
    ArithMeans(c.env, x0, Run(c, s), Code(s2, i).code, e, op, o1, o2, v1, v2, b);
  }

  lemma NoLists(code: seq<Instr>, lo: int)
    ensures ListOK(code, [], lo)
  {}

  /** The relocatable instruction on the two operands has the value of the operator. */
  lemma ArithMeans(env: Env, x0: Outcome, y: Outcome, code: seq<Instr>, e: Exp, op: ArithOp, o1: int, o2: int,
                   v1: Result<Value>, v2: Result<Value>, b: int)
    requires Both(env, x0, y, v1, v2, b, o1, o2)
    requires e.k == VReloc && 0 <= e.info < |code| && code[e.info] == Arith(op, 0, o1, o2)
    ensures Means(env, x0, y, code, e, Strict(env.m, OpArith(op), v1, v2), b)
  {
    hide Exec, ArithValue;
  }

  function CompOp(cop: CmpOp, cond: bool): BinOp { if cond then OpCompare(cop) else OpDiffers(cop) }

  /** The comparison, with its operands exchanged for > and >=, decides as the operator does. */
  lemma CompareMeans(env: Env, x0: Outcome, y: Outcome, code: seq<Instr>, e: Exp, cop: CmpOp, cond: bool, o1: int,
      o2: int, v1: Result<Value>, v2: Result<Value>, b: int)
    requires Both(env, x0, y, v1, v2, b, o1, o2)
    requires e.k == VJmp && 1 <= e.info <= |code| && code[e.info - 1] == CompInstr(cop, cond, o1, o2)
    ensures Means(env, x0, y, code, e, Strict(env.m, CompOp(cop, cond), v1, v2), b)
  {
    hide Exec;
  }

  /** condjump on a comparison, as a descriptor. */
  lemma CompShape(c: Ctx, s: FS, i: Instr, e: Exp, lo: int)
    requires StateOK(s) && Entry(c, s) && 0 <= lo <= |s.code| && i.Cmp?
    requires e.k == VJmp && e.info == |s.code| + 1 && !HasJumps(e)
    ensures var s4 := CondJump(s, i).0;
      && StateOK(s4) && ExpOK(s4, e, lo) && Keeps(s, s4) && s4.jpc == [] && s4.freereg == s.freereg
      && |s4.code| == |s.code| + 2 && s4.code[|s.code|] == i
      && |Core(s4, e).code| == |s.code| && Entry(c, Core(s4, e)) && Run(c, Core(s4, e)) == Run(c, s)
  {
    hide Exec, CodeOK, ConstsOK, Discharged;
    CondJumpRun(c, s, i);
    CondJumpFrame(s, i);
    SettleRun(c, s);
    assert Core(CondJump(s, i).0, e) == Settle(s);
  }

  /** The end of codecomp. */
  lemma CompEnd(c: Ctx, s: FS, cop: CmpOp, cond: bool, e1: Exp, e2: Exp, o1: int, o2: int, lo: int, b: int,
                x0: Outcome, v1: Result<Value>, v2: Result<Value>)
    requires StateOK(s) && Entry(c, s) && 0 <= lo <= |s.code| && s.nactvar <= b
    requires Held(e1, o1) && Held(e2, o2) && Stacked(s, e1, e2, b)
    requires Temp(s, e1) ==> e1.info == b
    requires Both(c.env, x0, Run(c, s), v1, v2, b, o1, o2)
    ensures FreesTop(s, e2) && FreesTop(FreeExp(s, e2), e1)
    ensures var s4 := CondJump(FreeExp(FreeExp(s, e2), e1), CompInstr(cop, cond, o1, o2)).0;
      Result3(c, s, lo, s4, e1.(k := VJmp, info := |s4.code| - 1), b, x0, Strict(c.env.m, CompOp(cop, cond), v1, v2))
  {
    hide Exec, CodeOK, ConstsOK, Discharged, CondJump, Strict, CompInstr, Both, Means;
    var s3 := s.(freereg := b);
    assert FreeExp(FreeExp(s, e2), e1) == s3;
    SameCode(c, s, s3, Descriptor(VNil, 0), lo);
    var i := CompInstr(cop, cond, o1, o2);
    var e := e1.(k := VJmp, info := |s3.code| + 1);
    assert i.Cmp? by { CompIsTest(cop, cond, o1, o2); }
    CompShape(c, s3, i, e, lo);
    CondJumpFrame(s3, i);
    CompareMeans(c.env, x0, Run(c, s), CondJump(s3, i).0.code, e, cop, cond, o1, o2, v1, v2, b);
  }

  lemma CompIsTest(cop: CmpOp, cond: bool, o1: int, o2: int)
    ensures CompInstr(cop, cond, o1, o2).Cmp?
  {}

  /** The end of codearith for the unary operators. */
  lemma UnaryEnd(c: Ctx, s: FS, len: bool, e: Exp, o: int, lo: int, b: int, x0: Outcome, v: Result<Value>)
    requires StateOK(s) && Entry(c, s) && 0 <= lo <= |s.code| && s.nactvar <= b
    requires Held(e, o) && e.k == VNonReloc && (if Temp(s, e) then e.info == b == s.freereg - 1 else s.freereg == b)
    requires Holds(c.env, x0, Run(c, s), v, b, o)
    ensures var s3 := Code(FreeExp(s, e), UnaryInstr(len, o));
      Result3(c, s, lo, s3, Relocatable(s3, e), b, x0, Unary(c.env.m, if len then OpLen else OpNeg, v))
  {
    hide Exec, CodeOK, ConstsOK, Discharged, Unary, Holds, Means, Disjoint;
    var s2 := s.(freereg := b);
    assert FreeExp(s, e) == s2;
    SameCode(c, s, s2, Descriptor(VNil, 0), lo);
    var e' := e.(k := VReloc, info := |s2.code|);
    DelayedRun(c, s2, UnaryInstr(len, o), e', lo);
    UnaryMeans(c.env, x0, Run(c, s), Code(s2, UnaryInstr(len, o)).code, e', len, o, v, b);
  }

  lemma UnaryMeans(env: Env, x0: Outcome, y: Outcome, code: seq<Instr>, e: Exp, len: bool, o: int, v: Result<Value>,
      b: int)
    requires Holds(env, x0, y, v, b, o) && o < BITRK
    requires e.k == VReloc && 0 <= e.info < |code| && code[e.info] == UnaryInstr(len, o)
    ensures Means(env, x0, y, code, e, Unary(env.m, if len then OpLen else OpNeg, v), b)
  {
    hide Exec;
  }

  function Unary(m: Machine, op: UnOp, v: Result<Value>): Result<Value> {
    match v
    case Err(msg) => Err(msg)
    case Ok(a) => Apply1(m, op, a)
  }
}
