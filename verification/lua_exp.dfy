/**
 Expression descriptors: what they promise about the runs of the code, and how that value
 reaches a register.
 */
module LuaExp {
  import opened LuaVm
  import opened LuaGen
  import opened LuaPatch
  import opened LuaRun

  /** A relocatable instruction, and a comparison with its jump, are not part of the finished code yet. */
  function Tail(e: Exp): int { if e.k == VReloc then 1 else if e.k == VJmp then 2 else 0 }

  ghost function Core(s: FS, e: Exp): FS {
    if 0 < Tail(e) <= |s.code| then s.(code := s.code[..|s.code| - Tail(e)]) else s
  }

  predicate IsDelayed(i: Instr) { i.Arith? || i.Unm? || i.Len? || i.Not? }

  ghost predicate KindOK(s: FS, e: Exp, lo: int)
    requires 0 <= lo
  {
    match e.k
    case VReloc =>
      lo <= e.info == |s.code| - 1 && s.jpc == [] && s.lasttarget <= e.info && IsDelayed(s.code[e.info])
    case VJmp =>
      && lo + 1 <= e.info == |s.code| - 1 && s.jpc == [] && s.lasttarget <= e.info - 1
      && s.code[e.info - 1].Cmp? && Open(s.code, e.info) && e.info !in e.t && e.info !in e.f
    case VK => 0 <= e.info < |s.k|
    case VLocal => 0 <= e.info < s.nactvar
    case VNonReloc => 0 <= e.info < s.nactvar || s.nactvar <= e.info == s.freereg - 1
    case _ => true
  }

  /** The descriptor's lists are disjoint lists of pending jumps emitted at or after `lo`. */
  ghost predicate ExpOK(s: FS, e: Exp, lo: int) {
    && 0 <= lo <= |s.code|
    && ListOK(s.code, e.t, lo) && ListOK(s.code, e.f, lo)
    && Disjoint(e.t, e.f) && Disjoint(s.jpc, e.t) && Disjoint(s.jpc, e.f)
    && KindOK(s, e, lo)
  }

  /** The value a descriptor stands for once the core code has run. */
  ghost function ValueOf(env: Env, code: seq<Instr>, e: Exp, r: Regs): Result<Value> {
    match e.k
    case VNil => Ok(Nil)
    case VTrue => Ok(Bool(true))
    case VFalse => Ok(Bool(false))
    case VK => Ok(Constant(env, e.info))
    case VKNum => Ok(Number(e.nval))
    case VNonReloc => Ok(Get(r, e.info))
    case VLocal => Ok(Get(r, e.info))
    case VReloc => if 0 <= e.info < |code| then InstrValue(env, code[e.info], r) else Err("")
    case VJmp => if 1 <= e.info <= |code| then BoolResult(TestResult(env, code[e.info - 1], r)) else Err("")
  }

  ghost predicate SameExcept(r: Regs, q: Regs, reg: int) { forall i :: i != reg ==> Get(q, i) == Get(r, i) }

  ghost predicate SameBelow(r: Regs, q: Regs, n: int) { forall i :: i < n ==> Get(q, i) == Get(r, i) }

  /** `y` is `r` with `v` put into `reg`, or the error. */
  ghost predicate Puts(y: Outcome, v: Result<Value>, r: Regs, reg: int) {
    match v
    case Ok(x) => y.Fall? && SameExcept(r, y.regs, reg) && Get(y.regs, reg) == x
    case Err(msg) => y == Failed(msg)
  }

  lemma CoreOK(s: FS, e: Exp, lo: int)
    requires StateOK(s) && ExpOK(s, e, lo)
    ensures StateOK(Core(s, e)) && lo <= |Core(s, e).code|
    ensures forall j :: Open(s.code, j) && !(e.k == VJmp && j == e.info) ==> Open(Core(s, e).code, j)
    ensures ListOK(Core(s, e).code, e.t, lo) && ListOK(Core(s, e).code, e.f, lo)
  {
    if Tail(e) != 0 {
      var A, B := s.code, Core(s, e).code;
      forall i | 0 <= i < |B| ensures InstrOK(B, s.lasttarget, i) {
        assert InstrOK(A, s.lasttarget, i);
      }
    }
  }

  lemma DischargeNothing(s: FS)
    requires s.jpc == []
    ensures Discharged(s) == s.code
  {}

  // ---------- discharge2reg ----------

  ghost predicate LoadedAs(env: Env, x: Outcome, code: seq<Instr>, e: Exp, reg: int, y: Outcome) {
    match x
    case Fall(r) => Puts(y, ValueOf(env, code, e, r), r, reg)
    case z => y == z
  }

  /** Loading `e` into a register does what it should: the new state is in order, and the register has the value. */
  ghost predicate Loads(c: Ctx, s: FS, e: Exp, reg: int) {
    var s' := LoadInto(s, e, reg);
    && StateOK(s') && Keeps(s, s') && s'.freereg == s.freereg && s'.maxstack == s.maxstack
    && |s.code| <= |s'.code| && (s'.jpc == [] || s'.jpc == s.jpc)
    && (Entry(c, Core(s, e)) ==> Entry(c, s') && LoadedAs(c.env, Run(c, Core(s, e)), s.code, e, reg, Run(c, s')))
  }

  lemma LoadNumber(c: Ctx, s: FS, e: Exp, reg: int, lo: int)
    requires StateOK(s) && ExpOK(s, e, lo) && e.k == VKNum
    requires LoadInto(s, e, reg).k <= c.env.k
    ensures Loads(c, s, e, reg)
  {
    hide Exec, CodeOK, ListOK;
    AddKFinds(s, NumberKey(e.nval), Number(e.nval));
    var (s1, i) := NumberK(s, e.nval);
    CodeRun(c, s1, LoadK(reg, i));
  }

  lemma LoadReloc(c: Ctx, s: FS, e: Exp, reg: int, lo: int)
    requires StateOK(s) && ExpOK(s, e, lo) && e.k == VReloc
    requires LoadInto(s, e, reg).k <= c.env.k
    ensures Loads(c, s, e, reg)
  {
    CoreOK(s, e, lo);
    var s' := LoadInto(s, e, reg);
    var core := Core(s, e);
    var i := s'.code[e.info];
    DischargeNothing(core);
    assert s' == Code(core, i);
    CodeRun(c, core, i);
  }

  /** discharge2reg puts the value of any descriptor but a comparison into `reg`. */
  lemma LoadRun(c: Ctx, s: FS, e: Exp, reg: int, lo: int)
    requires StateOK(s) && ExpOK(s, e, lo) && e.k != VJmp
    requires LoadInto(s, e, reg).k <= c.env.k
    ensures Loads(c, s, e, reg)
  {
    hide StateOK, ExpOK, Entry, Run, Loads, Code, CodeNil, AddK, SetA;
    match e.k {
      case VNil => LoadNothing(c, s, e, reg);
      case VFalse => LoadOne(c, s, e, reg, LoadBool(reg, false, false));
      case VTrue => LoadOne(c, s, e, reg, LoadBool(reg, true, false));
      case VK => LoadOne(c, s, e, reg, LoadK(reg, e.info));
      case VKNum => LoadNumber(c, s, e, reg, lo);
      case VReloc => LoadReloc(c, s, e, reg, lo);
      case _ => if reg != e.info { LoadOne(c, s, e, reg, Move(reg, e.info)); } else { LoadStays(c, s, e, reg); }
    }
  }

  /** A value that one instruction loads. */
  lemma LoadOne(c: Ctx, s: FS, e: Exp, reg: int, i: Instr)
    requires StateOK(s) && LoadInto(s, e, reg) == Code(s, i) && Core(s, e) == s
    requires IsValueInstr(i) && Dest(i) == reg
    requires forall r :: InstrValue(c.env, i, r) == ValueOf(c.env, s.code, e, r)
    ensures Loads(c, s, e, reg)
  {
    hide StateOK, Run, Entry, InstrValue, ValueOf;
    CodeRun(c, s, i);
  }

  lemma LoadStays(c: Ctx, s: FS, e: Exp, reg: int)
    requires StateOK(s) && (e.k == VNonReloc || e.k == VLocal) && e.info == reg
    ensures Loads(c, s, e, reg)
  {
    hide StateOK, Run, Entry;
  }

  lemma LoadNothing(c: Ctx, s: FS, e: Exp, reg: int)
    requires StateOK(s) && e.k == VNil
    ensures Loads(c, s, e, reg)
  {
    hide StateOK, Run, Entry;
    CodeNilRun(c, s, reg, 1);
  }
}
