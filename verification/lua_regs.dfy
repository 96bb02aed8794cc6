/**
 exp2reg and the operations built on it: the value of any descriptor, exits included, ends up in
 a register or operand, with the stack discipline on registers.
 */
module LuaRegs {
  import opened LuaVm
  import opened LuaGen
  import opened LuaPatch
  import opened LuaRun
  import opened LuaExp
  import opened LuaClose

  /** Pending jumps that the descriptor does not own stay pending. */
  ghost predicate Releases(s: FS, e: Exp, s': FS) {
    forall j {:trigger Open(s'.code, j)} ::
      Open(s.code, j) && j !in s.jpc && j !in e.t && j !in e.f && !(e.k == VJmp && j == e.info) ==> Open(s'.code, j)
  }

  /** `y` is `x` with the descriptor's value, or that of the exit taken, put into `reg`. */
  ghost predicate Delivers(env: Env, x: Outcome, code: seq<Instr>, e: Exp, reg: int, y: Outcome) {
    match x
    case Fall(r) => Puts(y, ValueOf(env, code, e, r), r, reg)
    case Jumped(j, r, w) => if j in e.t || j in e.f then Puts(y, Ok(ExitValue(j in e.t, w)), r, reg) else y == x
    case z => y == z
  }

  /** A comparison descriptor is its core followed by condjump. */
  lemma JumpCore(c: Ctx, s: FS, e: Exp, lo: int)
    requires StateOK(s) && ExpOK(s, e, lo) && e.k == VJmp
    requires Entry(c, Core(s, e))
    ensures Entry(c, s) && Run(c, s) == Tested(c.env, Run(c, Core(s, e)), s.code[e.info - 1], e.info)
  {
    var core := Core(s, e);
    CoreOK(s, e, lo);
    CondJumpRun(c, core, s.code[e.info - 1]);
    DischargeNothing(core);
    var (s', l) := CondJump(core, s.code[e.info - 1]);
    assert s.code == core.code + [s.code[e.info - 1], Jmp(NO_JUMP)] == s'.code;
    assert s == s';
  }

  /** exp2reg. */
  lemma Exp2RegRun(c: Ctx, s: FS, e: Exp, reg: int, lo: int)
    requires StateOK(s) && ExpOK(s, e, lo) && 0 <= reg < NO_REG
    requires Exp2Reg(s, e, reg).0.k <= c.env.k
    ensures var (s', e') := Exp2Reg(s, e, reg);
      InRegister(c, s, e, reg, s') && e' == WithLists(InReg(e, reg), [], [])
  {
    if e.k == VJmp {
      JumpInRegister(c, s, e, reg, lo);
    } else {
      PlainInRegister(c, s, e, reg, lo);
    }
  }

  /** The descriptor's value, exits included, is in `reg`, and its lists are closed. */
  ghost predicate InRegister(c: Ctx, s: FS, e: Exp, reg: int, s': FS) {
    && StateOK(s') && Releases(s, e, s') && JpcFrom(s, s') && s'.freereg == s.freereg && |s.code| <= |s'.code|
    && (Entry(c, Core(s, e)) ==> Entry(c, s') && Delivers(c.env, Run(c, Core(s, e)), s.code, e, reg, Run(c, s')))
  }

  lemma PlainInRegister(c: Ctx, s: FS, e: Exp, reg: int, lo: int)
    requires StateOK(s) && ExpOK(s, e, lo) && 0 <= reg < NO_REG && e.k != VJmp
    requires Exp2Reg(s, e, reg).0.k <= c.env.k
    ensures InRegister(c, s, e, reg, Exp2Reg(s, e, reg).0)
  {
    hide CodeOK, LoadInto, CloseLists, Patch, Exec;
    LoadRun(c, s, e, reg, lo);
    var s1 := LoadInto(s, e, reg);
    if HasJumps(e) { CloseRun(c, s1, e.t, e.f, reg, false); }
  }

  lemma JumpInRegister(c: Ctx, s: FS, e: Exp, reg: int, lo: int)
    requires StateOK(s) && ExpOK(s, e, lo) && 0 <= reg < NO_REG && e.k == VJmp
    ensures InRegister(c, s, e, reg, Exp2Reg(s, e, reg).0)
  {
    hide CodeOK, CloseLists, Patch, Exec, Delivers, ClosedRun, ConstsOK;
    var t := e.t + [e.info];
    NoDupConcat(e.t, [e.info]);
    assert !Valued(s.code, e.info) && e.info in t;
    CloseRun(c, s, t, e.f, reg, true);
    if Entry(c, Core(s, e)) {
      JumpCore(c, s, e, lo);
      CoreExits(c, s, e, lo);
      JumpDelivers(c.env, Run(c, Core(s, e)), s.code, e, reg, Run(c, Exp2Reg(s, e, reg).0));
    }
  }

  /** Closing the lists of a comparison delivers its value: its own jump is one of the exits when true. */
  lemma JumpDelivers(env: Env, x: Outcome, code: seq<Instr>, e: Exp, reg: int, y: Outcome)
    requires e.k == VJmp && 1 <= e.info <= |code| && code[e.info - 1].Cmp? && e.info !in e.t && e.info !in e.f
    requires x.Jumped? ==> x.at != e.info
    requires ClosedRun(Tested(env, x, code[e.info - 1], e.info), e.t + [e.info], e.f, reg, true, y)
    ensures Delivers(env, x, code, e, reg, y)
  {
    hide CompareValues;
    assert forall j :: j in e.t + [e.info] <==> j in e.t || j == e.info;
  }

  /** The core exits through pending jumps of the core only. */
  lemma CoreExits(c: Ctx, s: FS, e: Exp, lo: int)
    requires StateOK(s) && ExpOK(s, e, lo) && Entry(c, Core(s, e))
    ensures var x := Run(c, Core(s, e)); x.Jumped? ==> Open(Core(s, e).code, x.at) && x.at !in s.jpc
  {
    CoreOK(s, e, lo);
    WeakenTarget(Core(s, e).code, s.lasttarget, |Core(s, e).code|);
    JumpedAt(c.env, Core(s, e).code, c.p, c.r);
  }

  // ---------- registers and operands ----------

  /** The first register that the descriptor and everything above it may use. */
  function Base(s: FS, e: Exp): int {
    if e.k == VNonReloc && e.info >= s.nactvar then s.freereg - 1 else s.freereg
  }

  ghost predicate Gets(env: Env, y: Outcome, v: Result<Value>, r: Regs, base: int, loc: int) {
    match v
    case Ok(x) => y.Fall? && SameBelow(r, y.regs, base) && RK(env, y.regs, loc) == x
    case Err(msg) => y == Failed(msg)
  }

  /** `y` is `x` with the value to be found in the operand `loc` and registers below `base` as they were. */
  ghost predicate Yields(env: Env, x: Outcome, code: seq<Instr>, e: Exp, base: int, loc: int, y: Outcome) {
    match x
    case Fall(r) => Gets(env, y, ValueOf(env, code, e, r), r, base, loc)
    case Jumped(j, r, w) =>
      if j in e.t || j in e.f then Gets(env, y, Ok(ExitValue(j in e.t, w)), r, base, loc) else y == x
    case z => y == z
  }

  lemma DeliversYields(env: Env, x: Outcome, code: seq<Instr>, e: Exp, reg: int, y: Outcome, base: int)
    requires Delivers(env, x, code, e, reg, y) && base <= reg < BITRK
    ensures Yields(env, x, code, e, base, reg, y)
  {}

  /** What an operation that stores a descriptor's value leaves behind. */
  ghost predicate Stored(c: Ctx, s: FS, e: Exp, lo: int, s': FS, e': Exp, loc: int) {
    && StateOK(s') && ExpOK(s', e', lo) && !HasJumps(e') && Base(s', e') == Base(s, e)
    && Releases(s, e, s') && JpcFrom(s, s') && |s.code| <= |s'.code|
    && (if e'.k == VK then 0 <= e'.info <= MAX_INDEX_RK && loc == BITRK + e'.info
        else e'.k == VNonReloc && loc == e'.info && 0 <= loc < NO_REG)
    && (Entry(c, Core(s, e)) ==>
        Entry(c, s') && Yields(c.env, Run(c, Core(s, e)), s.code, e, Base(s, e), loc, Run(c, s')))
  }

  lemma SameCode(c: Ctx, s: FS, s': FS, e: Exp, lo: int)
    requires s'.code == s.code && s'.jpc == s.jpc && s'.lasttarget == s.lasttarget
    requires StateOK(s) && RegsOK(s') && ConstsOK(s'.k, s'.h)
    ensures StateOK(s') && Run(c, Core(s', e)) == Run(c, Core(s, e)) && (Entry(c, Core(s, e)) ==> Entry(c, Core(s', e)))
  {}

  lemma Exp2NextRegRun(c: Ctx, s: FS, e0: Exp, lo: int)
    requires StateOK(s) && ExpOK(s, e0, lo)
    requires var s' := Exp2NextReg(s, e0).0; s'.k <= c.env.k && s'.maxstack < MAX_STACK
    ensures var (s', e') := Exp2NextReg(s, e0);
      && Stored(c, s, e0, lo, s', e', e'.info)
      && e'.k == VNonReloc && e'.info == Base(s, e0) && s'.freereg == Base(s, e0) + 1
      && (Entry(c, Core(s, e0)) ==> Delivers(c.env, Run(c, Core(s, e0)), s.code, e0, e'.info, Run(c, s')))
  {
    hide StateOK, ExpOK, Exp2Reg, Entry, Run, Core, Stored, Delivers, InRegister;
    var e := DischargeVars(e0);
    var s1 := ReserveRegs(FreeExp(s, e), 1);
    var reg := s1.freereg - 1;
    Reserved(c, s, e0, lo);
    Exp2RegRun(c, s1, e, reg, lo);
    NextRegStored(c, s, e0, lo, s1, reg, Exp2NextReg(s, e0).0);
  }

  lemma RegsInOrder(s: FS)
    requires StateOK(s)
    ensures 0 <= s.nactvar <= s.freereg <= s.maxstack
  {
    hide CodeOK, ListOK, ConstsOK;
  }

  /** The state with the register reserved that the descriptor will go to. */
  lemma Reserved(c: Ctx, s: FS, e0: Exp, lo: int)
    requires StateOK(s) && ExpOK(s, e0, lo) && ReserveRegs(FreeExp(s, DischargeVars(e0)), 1).maxstack < MAX_STACK
    ensures var e := DischargeVars(e0);
      var s1 := ReserveRegs(FreeExp(s, e), 1);
      && StateOK(s1) && ExpOK(s1, e, lo) && s1.freereg == Base(s, e0) + 1 && 0 <= Base(s, e0) < NO_REG
      && s1.nactvar == s.nactvar && s1.k == s.k
      && Run(c, Core(s1, e)) == Run(c, Core(s, e)) && (Entry(c, Core(s, e)) ==> Entry(c, Core(s1, e)))
  {
    hide CodeOK, ListOK, ConstsOK, Exec;
    SameCode(c, s, ReserveRegs(FreeExp(s, DischargeVars(e0)), 1), DischargeVars(e0), lo);
  }

  /** What exp2reg did from the state with the register reserved, seen from the state before. */
  lemma NextRegStored(c: Ctx, s: FS, e0: Exp, lo: int, s1: FS, reg: int, s': FS)
    requires StateOK(s) && ExpOK(s, e0, lo) && reg == Base(s, e0) && 0 <= reg < NO_REG
    requires var e := DischargeVars(e0);
      s1 == ReserveRegs(FreeExp(s, e), 1) && s1.freereg == reg + 1 && Run(c, Core(s1, e)) == Run(c, Core(s, e))
      && (Entry(c, Core(s, e)) ==> Entry(c, Core(s1, e))) && InRegister(c, s1, e, reg, s') && s'.nactvar == s.nactvar
    ensures var e' := WithLists(InReg(DischargeVars(e0), reg), [], []);
      && Stored(c, s, e0, lo, s', e', reg)
      && (Entry(c, Core(s, e0)) ==> Delivers(c.env, Run(c, Core(s, e0)), s.code, e0, reg, Run(c, s')))
  {
    hide CodeOK, Exec, ConstsOK, Discharged, InstrValue, TestResult, Yields, Puts, ExitValue;
    if Entry(c, Core(s, e0)) {
      DeliversYields(c.env, Run(c, Core(s, e0)), s.code, e0, reg, Run(c, s'), Base(s, e0));
    }
  }

  lemma Exp2AnyRegRun(c: Ctx, s: FS, e0: Exp, lo: int)
    requires StateOK(s) && ExpOK(s, e0, lo)
    requires var s' := Exp2AnyReg(s, e0).0; s'.k <= c.env.k && s'.maxstack < MAX_STACK
    ensures var (s', e') := Exp2AnyReg(s, e0);
      e'.k == VNonReloc && Stored(c, s, e0, lo, s', e', e'.info)
  {
    hide CodeOK, Exp2Reg, Exp2NextReg, Exec, ConstsOK;
    var e := DischargeVars(e0);
    if e.k == VNonReloc && !HasJumps(e) {
    } else if e.k == VNonReloc && e.info >= s.nactvar {
      Exp2RegRun(c, s, e, e.info, lo);
      if Entry(c, Core(s, e0)) {
        var s' := Exp2AnyReg(s, e0).0;
        DeliversYields(c.env, Run(c, Core(s, e0)), s.code, e0, e.info, Run(c, s'), Base(s, e0));
      }
    } else {
      Exp2NextRegRun(c, s, e, lo);
    }
  }

  /** luaK_exp2RK: the operand it returns holds the value. */
  lemma Exp2RKRun(c: Ctx, s: FS, e0: Exp, lo: int)
    requires StateOK(s) && ExpOK(s, e0, lo)
    requires var s' := Exp2RK(s, e0).0; s'.k <= c.env.k && s'.maxstack < MAX_STACK
    ensures var (s', e', o) := Exp2RK(s, e0);
      Stored(c, s, e0, lo, s', e', o)
  {
    if HasJumps(e0) {
      hide CodeOK, Exec;
      Exp2AnyRegRun(c, s, e0, lo);
      var (s1, e1) := Exp2AnyReg(s, e0);
      assert ToRK(s1, e1) == (s1, e1, e1.info);
    } else {
      hide ToRK;
      var e := DischargeVars(e0);
      ToRKRun(c, s, e, lo);
      assert Core(s, e0) == Core(s, e) && Base(s, e0) == Base(s, e);
    }
  }

  lemma ToRKRun(c: Ctx, s: FS, e: Exp, lo: int)
    requires StateOK(s) && ExpOK(s, e, lo) && !HasJumps(e) && e.k != VLocal
    requires var s' := ToRK(s, e).0; s'.k <= c.env.k && s'.maxstack < MAX_STACK
    ensures var (s', e', o) := ToRK(s, e);
      Stored(c, s, e, lo, s', e', o)
  {
    hide Exp2AnyReg, CodeOK, Exec, Grows, ListOK, Discharged, ConstsOK;
    if (e.k == VNil || e.k == VTrue || e.k == VFalse) && |s.k| <= MAX_INDEX_RK {
      hide ToRK;
      NamedConstant(c, s, e, lo);
    } else if e.k == VKNum {
      hide ToRK;
      NumberOperand(c, s, e, lo);
    } else if !(e.k == VK && e.info <= MAX_INDEX_RK) {
      hide Stored;
      Exp2AnyRegRun(c, s, e, lo);
    }
  }

  /** nil, true and false as constants. */
  lemma NamedConstant(c: Ctx, s: FS, e: Exp, lo: int)
    requires StateOK(s) && ExpOK(s, e, lo) && !HasJumps(e) && (e.k == VNil || e.k == VTrue || e.k == VFalse)
    requires |s.k| <= MAX_INDEX_RK && ToRK(s, e).0.k <= c.env.k
    ensures var (s', e', o) := ToRK(s, e);
      Stored(c, s, e, lo, s', e', o)
  {
    hide CodeOK, Exec, ListOK, Discharged, ConstsOK;
    var key := if e.k == VNil then Self else Of(Bool(e.k == VTrue));
    var v := if e.k == VNil then Nil else Bool(e.k == VTrue);
    AddKFinds(s, key, v);
    SameCode(c, s, AddK(s, key, v).0, e, lo);
  }

  /** numberK puts the number among the constants and changes nothing else. */
  lemma NumberConstant(c: Ctx, s: FS, e: Exp, lo: int, s1: FS, e1: Exp)
    requires StateOK(s) && ExpOK(s, e, lo) && !HasJumps(e) && e.k == VKNum
    requires (s1, e1.info) == NumberK(s, e.nval) && e1 == e.(k := VK, info := e1.info) && s1.k <= c.env.k
    ensures s1.code == s.code && s1.jpc == s.jpc && s1.lasttarget == s.lasttarget && s1.freereg == s.freereg
    ensures s1.nactvar == s.nactvar && s.k <= s1.k && s1.maxstack == s.maxstack
    ensures Run(c, Core(s1, e1)) == Run(c, Core(s, e)) && StateOK(s1) && ExpOK(s1, e1, lo)
    ensures Entry(c, Core(s, e)) ==> Entry(c, Core(s1, e1)) && Constant(c.env, e1.info) == Number(e.nval)
  {
    hide CodeOK, Exec, TestResult, ListOK, Discharged;
    AddKFinds(s, NumberKey(e.nval), Number(e.nval));
    SameCode(c, s, s1, e1, lo);
  }

  lemma NumberOperand(c: Ctx, s: FS, e: Exp, lo: int)
    requires StateOK(s) && ExpOK(s, e, lo) && !HasJumps(e) && e.k == VKNum
    requires var s' := ToRK(s, e).0; s'.k <= c.env.k && s'.maxstack < MAX_STACK
    ensures var (s', e', o) := ToRK(s, e);
      Stored(c, s, e, lo, s', e', o)
  {
    hide Exp2AnyReg, CodeOK, Exec, TestResult, ListOK, AddK, NumberKey, Discharged, ConstsOK;
    var (s1, i) := NumberK(s, e.nval);
    var e1 := e.(k := VK, info := i);
    NumberConstant(c, s, e, lo, s1, e1);
    if i > MAX_INDEX_RK {
      Exp2AnyRegRun(c, s1, e1, lo);
      NumberInRegister(c, s, e, lo, s1, e1);
    }
  }

  /** A number constant that no operand can name, put into a register. */
  lemma NumberInRegister(c: Ctx, s: FS, e: Exp, lo: int, s1: FS, e1: Exp)
    requires s1.code == s.code && s1.jpc == s.jpc && s1.lasttarget == s.lasttarget && s1.freereg == s.freereg
    requires s1.nactvar == s.nactvar && s.k <= s1.k && s1.maxstack == s.maxstack && e.k == VKNum && !HasJumps(e)
    requires e1 == e.(k := VK, info := e1.info) && Run(c, Core(s1, e1)) == Run(c, Core(s, e))
    requires Entry(c, Core(s, e)) ==> Entry(c, Core(s1, e1)) && Constant(c.env, e1.info) == Number(e.nval)
    requires var (s2, e2) := Exp2AnyReg(s1, e1); e2.k == VNonReloc && Stored(c, s1, e1, lo, s2, e2, e2.info)
    ensures var (s2, e2) := Exp2AnyReg(s1, e1); Stored(c, s, e, lo, s2, e2, e2.info)
  {
    hide Exp2AnyReg, CodeOK, Exec, TestResult, ListOK, StateOK, ExpOK, Discharged;
  }
}
