/**
 Conditional jumps and `not`: luaK_goiftrue, luaK_goiffalse and codenot.
 */
module LuaCond {
  import opened LuaVm
  import opened LuaGen
  import opened LuaPatch
  import opened LuaRun
  import opened LuaExp
  import opened LuaClose
  import opened LuaRegs

  /** The value carried by an exit, or the boolean its list stands for, is `v`. */
  ghost predicate Carries(w: Option<Value>, v: Value, inT: bool) { ExitValue(inT, w) == v }

  // ---------- discharge2anyreg ----------

  /** `y` is `x` with the main value in register `reg`; exits are as they were. */
  ghost predicate LoadedBelow(env: Env, x: Outcome, code: seq<Instr>, e: Exp, base: int, reg: int, y: Outcome) {
    match x
    case Fall(r) => Gets(env, y, ValueOf(env, code, e, r), r, base, reg)
    case z => y == z
  }

  ghost predicate InAnyReg(c: Ctx, s: FS, e: Exp, lo: int, s1: FS, e1: Exp) {
    && StateOK(s1) && ExpOK(s1, e1, lo) && e1.k == VNonReloc && 0 <= e1.info < NO_REG
    && e1.t == e.t && e1.f == e.f
    && Keeps(s, s1) && |s.code| <= |s1.code| && (s1.jpc == [] || s1.jpc == s.jpc) && Base(s1, e1) == Base(s, e)
    && (Entry(c, Core(s, e)) ==>
        Entry(c, s1) && LoadedBelow(c.env, Run(c, Core(s, e)), s.code, e, Base(s, e), e1.info, Run(c, s1)))
  }

  lemma Discharge2AnyRegRun(c: Ctx, s: FS, e: Exp, lo: int)
    requires StateOK(s) && ExpOK(s, e, lo) && e.k != VJmp && e.k != VLocal
    requires var s1 := Discharge2AnyReg(s, e).0; s1.k <= c.env.k && s1.maxstack < MAX_STACK
    ensures var (s1, e1) := Discharge2AnyReg(s, e); InAnyReg(c, s, e, lo, s1, e1)
  {
    hide StateOK, ExpOK, InAnyReg, LoadInto;
    if e.k == VNonReloc { StaysInReg(c, s, e, lo); } else { LoadsOnTop(c, s, e, lo); }
  }

  lemma LoadsOnTop(c: Ctx, s: FS, e: Exp, lo: int)
    requires StateOK(s) && ExpOK(s, e, lo) && e.k != VJmp && e.k != VLocal && e.k != VNonReloc
    requires var s1 := Discharge2AnyReg(s, e).0; s1.k <= c.env.k && s1.maxstack < MAX_STACK
    ensures var (s1, e1) := Discharge2AnyReg(s, e); InAnyReg(c, s, e, lo, s1, e1)
  {
    hide StateOK, Run, LoadInto, LoadedAs, LoadedBelow, ListOK, Disjoint, Keeps, ConstsOK;
    var s0 := ReserveRegs(s, 1);
    RegsInOrder(s);
    Reserved(c, s, e, lo);
    LoadRun(c, s0, e, s0.freereg - 1, lo);
    LoadedExp(s0, LoadInto(s0, e, s0.freereg - 1), e, lo);
    SameKeeps(s, s0, LoadInto(s0, e, s0.freereg - 1));
    if Entry(c, Core(s, e)) {
      LoadedOnTop(c.env, Run(c, Core(s, e)), s.code, e, s.freereg, Run(c, LoadInto(s0, e, s0.freereg - 1)));
    }
  }

  lemma SameKeeps(s: FS, s0: FS, s1: FS)
    requires s0.code == s.code && s0.jpc == s.jpc && Keeps(s0, s1)
    ensures Keeps(s, s1)
  {}

  lemma StaysInReg(c: Ctx, s: FS, e: Exp, lo: int)
    requires StateOK(s) && ExpOK(s, e, lo) && e.k == VNonReloc && s.maxstack < MAX_STACK
    ensures InAnyReg(c, s, e, lo, s, e)
  {
    hide Exec, CodeOK, ConstsOK;
  }

  /** The descriptor is now the topmost register; its lists are as they were. */
  lemma LoadedExp(s: FS, s1: FS, e: Exp, lo: int)
    requires ExpOK(s, e, lo) && e.k != VJmp && Keeps(s, s1) && (s1.jpc == [] || s1.jpc == s.jpc)
    requires s1.freereg == s.freereg && s1.nactvar == s.nactvar < s.freereg && |s.code| <= |s1.code|
    ensures ExpOK(s1, InReg(e, s.freereg - 1), lo)
  {
    hide NoDup;
  }

  lemma LoadedOnTop(env: Env, x: Outcome, code: seq<Instr>, e: Exp, reg: int, y: Outcome)
    requires LoadedAs(env, x, code, e, reg, y) && 0 <= reg < BITRK
    ensures LoadedBelow(env, x, code, e, reg, reg, y)
  {
    hide ValueOf;
  }

  // ---------- jumponcond ----------

  /** The jump at `j` is taken exactly when the value's truth is `cond`, carrying the value. */
  ghost predicate JumpsIf(y: Outcome, v: Result<Value>, cond: bool, r: Regs, base: int, j: int) {
    match v
    case Err(msg) => y == Failed(msg)
    case Ok(x) =>
      if Truthy(x) == cond then y.Jumped? && y.at == j && SameBelow(r, y.regs, base) && Carries(y.carried, x, cond)
      else y.Fall? && SameBelow(r, y.regs, base)
  }

  ghost predicate JumpsOn(env: Env, x: Outcome, code: seq<Instr>, e: Exp, cond: bool, base: int, j: int, y: Outcome) {
    match x
    case Fall(r) => JumpsIf(y, ValueOf(env, code, e, r), cond, r, base, j)
    case z => y == z
  }

  /** The descriptor's value now decides the pending jump at `j`. */
  ghost predicate Decides(c: Ctx, s: FS, e: Exp, lo: int, cond: bool, s': FS, j: int) {
    && StateOK(s') && s'.jpc == [] && s'.freereg == Base(s, e) && Keeps(s, s') && |s.code| <= |s'.code|
    && ListOK(s'.code, e.t, lo) && ListOK(s'.code, e.f, lo)
    && lo <= j && Open(s'.code, j) && j !in e.t && j !in e.f
    && (Entry(c, Core(s, e)) ==>
        Entry(c, s') && JumpsOn(c.env, Run(c, Core(s, e)), s.code, e, cond, Base(s, e), j, Run(c, s')))
  }

  lemma JumpOnCondRun(c: Ctx, s: FS, e: Exp, cond: bool, lo: int)
    requires StateOK(s) && ExpOK(s, e, lo) && e.k != VJmp && e.k != VLocal
    requires var s' := JumpOnCond(s, e, cond).0; s'.k <= c.env.k && s'.maxstack < MAX_STACK
    ensures var (s', l) := JumpOnCond(s, e, cond);
      |l| == 1 && Decides(c, s, e, lo, cond, s', l[0])
  {
    if e.k == VReloc && s.code[e.info].Not? {
      NotJump(c, s, e, cond, lo);
    } else {
      TestSetJump(c, s, e, cond, lo);
    }
  }

  /** A pending OP_NOT is removed and its operand tested the other way round. */
  lemma NotJump(c: Ctx, s: FS, e: Exp, cond: bool, lo: int)
    requires StateOK(s) && ExpOK(s, e, lo) && e.k == VReloc && s.code[e.info].Not?
    ensures var (s', l) := JumpOnCond(s, e, cond);
      |l| == 1 && Decides(c, s, e, lo, cond, s', l[0])
  {
    hide Exec, CodeOK, ConstsOK, CondJump, JumpsOn, Tested;
    var core := Core(s, e);
    var i := Test(s.code[e.info].b, !cond);
    CoreOK(s, e, lo);
    CondJumpFrame(core, i);
    CondJumpRun(c, core, i);
    if Entry(c, core) {
      NotDecides(c.env, Run(c, core), s.code, e, cond, Base(s, e), |core.code| + 1);
    }
  }

  /** The operand of a not, tested the other way round. */
  lemma NotDecides(env: Env, x: Outcome, code: seq<Instr>, e: Exp, cond: bool, base: int, j: int)
    requires e.k == VReloc && 0 <= e.info < |code| && code[e.info].Not?
    ensures JumpsOn(env, x, code, e, cond, base, j, Tested(env, x, Test(code[e.info].b, !cond), j))
  {}

  lemma TestSetJump(c: Ctx, s: FS, e: Exp, cond: bool, lo: int)
    requires StateOK(s) && ExpOK(s, e, lo) && e.k != VJmp && e.k != VLocal
    requires !(e.k == VReloc && s.code[e.info].Not?)
    requires var s' := JumpOnCond(s, e, cond).0; s'.k <= c.env.k && s'.maxstack < MAX_STACK
    ensures var (s', l) := JumpOnCond(s, e, cond);
      |l| == 1 && Decides(c, s, e, lo, cond, s', l[0])
  {
    hide Exec, CodeOK, ConstsOK, CondJump, Discharge2AnyReg, LoadedBelow, JumpsOn, Tested, ListOK, Keeps;
    var (s1, e1) := Discharge2AnyReg(s, e);
    var s2 := FreeExp(s1, e1);
    CondJumpFrame(s2, TestSet(NO_REG, e1.info, cond));
    Discharge2AnyRegRun(c, s, e, lo);
    SameCode(c, s1, s2, Descriptor(VNil, 0), lo);
    CondJumpRun(c, s2, TestSet(NO_REG, e1.info, cond));
    ListsStay(s, s1, s2, CondJump(s2, TestSet(NO_REG, e1.info, cond)).0, e1, lo);
    if Entry(c, Core(s, e)) {
      LoadedDecides(c.env, Run(c, Core(s, e)), s.code, e, cond, Base(s, e), e1.info, Run(c, s1), |s2.code| + 1);
    }
  }

  /** The lists of a descriptor while a conditional jump is emitted after it. */
  lemma ListsStay(s: FS, s1: FS, s2: FS, s': FS, e: Exp, lo: int)
    requires ExpOK(s1, e, lo) && Keeps(s, s1) && (s1.jpc == [] || s1.jpc == s.jpc)
    requires s2.code == s1.code && s2.jpc == s1.jpc && Keeps(s2, s')
    ensures Keeps(s, s') && ListOK(s'.code, e.t, lo) && ListOK(s'.code, e.f, lo)
    ensures |s1.code| + 1 !in e.t && |s1.code| + 1 !in e.f
  {
    hide NoDup, KindOK;
  }

  /** A value in a register, tested by a TESTSET. */
  lemma LoadedDecides(env: Env, x: Outcome, code: seq<Instr>, e: Exp, cond: bool, base: int, reg: int, y: Outcome,
      j: int)
    requires LoadedBelow(env, x, code, e, base, reg, y) && 0 <= reg < NO_REG
    ensures JumpsOn(env, x, code, e, cond, base, j, Tested(env, y, TestSet(NO_REG, reg, cond), j))
  {
    hide ValueOf;
  }

  lemma CondJumpFrame(s: FS, i: Instr)
    ensures var s' := CondJump(s, i).0;
      s'.freereg == s.freereg && s'.nactvar == s.nactvar && s'.maxstack == s.maxstack && s'.k == s.k && s'.h == s.h
  {}

  // ---------- goiftrue and goiffalse ----------

  /** The value falls through when its truth is `pass` and takes one of `exits` otherwise. */
  ghost predicate Chooses(y: Outcome, v: Result<Value>, pass: bool, r: Regs, base: int, exits: seq<int>) {
    match v
    case Err(msg) => y == Failed(msg)
    case Ok(x) =>
      if Truthy(x) == pass then y.Fall? && SameBelow(r, y.regs, base)
      else y.Jumped? && y.at in exits && SameBelow(r, y.regs, base) && Carries(y.carried, x, !pass)
  }

  ghost predicate ShortCut(env: Env, x: Outcome, code: seq<Instr>, e: Exp, pass: bool, base: int, exits: seq<int>,
      y: Outcome) {
    match x
    case Fall(r) => Chooses(y, ValueOf(env, code, e, r), pass, r, base, exits)
    case Jumped(j, r, w) => if j in (if pass then e.t else e.f) then y == Fall(r) else y == x
    case z => y == z
  }

  function GoIf(s: FS, e: Exp, pass: bool): (FS, Exp) { if pass then GoIfTrue(s, e) else GoIfFalse(s, e) }

  /** The list of exits that goiftrue or goiffalse leaves, and the one it sends to the next instruction. */
  function Exits(e: Exp, pass: bool): seq<int> { if pass then e.f else e.t }

  ghost predicate Branches(c: Ctx, s: FS, e: Exp, lo: int, pass: bool, s': FS, e': Exp) {
    && StateOK(s') && s'.freereg == Base(s, e) && Releases(s, e, s') && |Core(s, e).code| <= |s'.code|
    && (forall j :: j in s'.jpc ==> j in s.jpc || lo <= j)
    && ListOK(s'.code, Exits(e', pass), lo) && Exits(e', !pass) == [] && Disjoint(s'.jpc, Exits(e', pass))
    && (forall j :: j in Exits(e, pass) ==> j in Exits(e', pass))
    && (Entry(c, Core(s, e)) ==>
        Entry(c, s') && ShortCut(c.env, Run(c, Core(s, e)), s.code, e, pass, Base(s, e), Exits(e', pass), Run(c, s')))
  }

  /** The value of the descriptor is known to have the truth `pass`. */
  predicate Settled(e: Exp, pass: bool) {
    if pass then e.k == VK || e.k == VKNum || e.k == VTrue else e.k == VNil || e.k == VFalse
  }

  lemma GoIfRun(c: Ctx, s: FS, e0: Exp, pass: bool, lo: int)
    requires StateOK(s) && ExpOK(s, e0, lo)
    requires e0.k == VK ==> Truthy(Constant(c.env, e0.info))
    requires var s' := GoIf(s, e0, pass).0; s'.k <= c.env.k && s'.maxstack < MAX_STACK
    ensures var (s', e') := GoIf(s, e0, pass); Branches(c, s, e0, lo, pass, s', e')
  {
    hide Grows, StateOK, ExpOK, Branches, Decides, JumpOnCond, NegateCond;
    var e := DischargeVars(e0);
    LocalOK(s, e0, lo);
    if e.k == VJmp {
      GoIfJump(c, s, e, pass, lo);
    } else if Settled(e, pass) {
      GoIfEnd(c, s, e, pass, lo, s, []);
    } else {
      JumpOnCondRun(c, s, e, !pass, lo);
      var (s1, l) := JumpOnCond(s, e, !pass);
      GoIfEnd(c, s, e, pass, lo, s1, l);
    }
    var (s', e') := GoIf(s, e0, pass);
    LocalBranches(c, s, e0, lo, pass, s', e');
  }

  /** A local is its register. */
  lemma LocalOK(s: FS, e0: Exp, lo: int)
    requires ExpOK(s, e0, lo)
    ensures ExpOK(s, DischargeVars(e0), lo) && Base(s, DischargeVars(e0)) == Base(s, e0)
  {
    hide ListOK;
  }

  lemma LocalBranches(c: Ctx, s: FS, e0: Exp, lo: int, pass: bool, s': FS, e': Exp)
    requires ExpOK(s, e0, lo) && Branches(c, s, DischargeVars(e0), lo, pass, s', e')
    ensures Branches(c, s, e0, lo, pass, s', e')
  {
    hide StateOK, ListOK, Exec;
  }

  /** What is known before the lists are joined: the jumps of `pc` are taken when the truth is not `pass`. */
  ghost predicate Ready(c: Ctx, s: FS, e: Exp, lo: int, pass: bool, s1: FS, pc: seq<int>) {
    && StateOK(s1) && s1.freereg == Base(s, e) && |Core(s, e).code| <= |s1.code| && (s1.jpc == [] || s1.jpc == s.jpc)
    && (forall j {:trigger Open(s1.code, j)} :: Open(s.code, j) && j !in s.jpc ==> Open(s1.code, j))
    && NoDup(pc) && (forall j :: j in pc ==> lo <= j && Open(s1.code, j) && j !in e.t && j !in e.f && j !in s1.jpc)
    && (Entry(c, Core(s, e)) ==>
      Entry(c, s1) && Splits(c.env, Run(c, Core(s, e)), s.code, e, pass, Base(s, e), pc, Run(c, s1)))
  }

  ghost predicate Splits(env: Env, x: Outcome, code: seq<Instr>, e: Exp, pass: bool, base: int, pc: seq<int>,
      y: Outcome) {
    match x
    case Fall(r) => Chooses(y, ValueOf(env, code, e, r), pass, r, base, pc)
    case z => y == z
  }

  function GoIfLists(s1: FS, e: Exp, pass: bool, pc: seq<int>): (FS, Exp) {
    if pass then (PatchToHere(s1, e.t), WithLists(e, [], e.f + pc))
    else (PatchToHere(s1, e.f), WithLists(e, e.t + pc, []))
  }

  lemma GoIfEnd(c: Ctx, s: FS, e: Exp, pass: bool, lo: int, s1: FS, pc: seq<int>)
    requires StateOK(s) && ExpOK(s, e, lo) && e.k != VJmp && e.k != VLocal
    requires e.k == VK ==> Truthy(Constant(c.env, e.info))
    requires
      || (Settled(e, pass) && s1 == s && pc == [])
      || (|pc| == 1 && Decides(c, s, e, lo, !pass, s1, pc[0]))
    ensures var (s', e') := GoIfLists(s1, e, pass, pc); Branches(c, s, e, lo, pass, s', e')
  {
    hide Exec, CodeOK, ConstsOK;
    assert Ready(c, s, e, lo, pass, s1, pc);
    GoIfClose(c, s, e, pass, lo, s1, pc);
  }

  lemma GoIfClose(c: Ctx, s: FS, e: Exp, pass: bool, lo: int, s1: FS, pc: seq<int>)
    requires StateOK(s) && ExpOK(s, e, lo) && Ready(c, s, e, lo, pass, s1, pc)
    requires e.k == VJmp ==> pc == [e.info]
    ensures var (s', e') := GoIfLists(s1, e, pass, pc); Branches(c, s, e, lo, pass, s', e')
  {
    hide Exec, CodeOK, ConstsOK, Splits, ShortCut, ListOK, Disjoint, NoDup;
    ListsJoin(c, s, e, pass, lo, s1, pc);
    PatchToHereRun(c, s1, Exits(e, !pass));
    if Entry(c, Core(s, e)) {
      SplitsCut(c.env, Run(c, Core(s, e)), s.code, e, pass, Base(s, e), pc, Run(c, s1));
    }
  }

  /** The new jumps join the exits that stay. */
  lemma ListsJoin(c: Ctx, s: FS, e: Exp, pass: bool, lo: int, s1: FS, pc: seq<int>)
    requires StateOK(s) && ExpOK(s, e, lo) && Ready(c, s, e, lo, pass, s1, pc)
    requires e.k == VJmp ==> pc == [e.info]
    ensures var here, exits := Exits(e, !pass), Exits(e, pass) + pc;
      && ListOK(s1.code, here, 0) && Disjoint(s1.jpc, here)
      && ListOK(s1.code, exits, lo) && Disjoint(s1.jpc + here, exits)
      && (forall j :: j in s1.jpc + here ==> j in s.jpc || lo <= j)
      && (forall j :: j in Exits(e, pass) ==> j in exits)
    ensures forall j :: j in pc ==> j !in Exits(e, !pass)
    ensures forall j {:trigger Open(s1.code, j)} ::
      Open(s.code, j) && j !in s.jpc && j !in e.t && j !in e.f && !(e.k == VJmp && j == e.info) ==> Open(s1.code, j)
  {
    hide Exec, CodeOK, ConstsOK, Splits;
    NoDupConcat(Exits(e, pass), pc);
  }

  /** One list arrives here, the other is joined with the new jumps. */
  lemma SplitsCut(env: Env, x: Outcome, code: seq<Instr>, e: Exp, pass: bool, base: int, pc: seq<int>, y: Outcome)
    requires Splits(env, x, code, e, pass, base, pc, y) && forall j :: j in pc ==> j !in Exits(e, !pass)
    ensures ShortCut(env, x, code, e, pass, base, Exits(e, pass) + pc, Arrive(y, Exits(e, !pass)))
  {
    hide ValueOf;
    assert forall j :: j in Exits(e, pass) + pc <==> j in Exits(e, pass) || j in pc;
  }

  /** A comparison's own jump is used, inverted when it must be taken on false. */
  lemma GoIfJump(c: Ctx, s: FS, e: Exp, pass: bool, lo: int)
    requires StateOK(s) && ExpOK(s, e, lo) && e.k == VJmp
    ensures var (s', e') := GoIf(s, e, pass); Branches(c, s, e, lo, pass, s', e')
  {
    hide CodeOK, NegateCond, Exec, ConstsOK, Splits, Branches;
    var s1 := if pass then s.(code := NegateCond(s.code, e.info - 1)) else s;
    if pass { NegatedOK(s, e, lo); }
    if Entry(c, Core(s, e)) {
      JumpCore(c, s1, e, lo);
      JumpSplits(c.env, Run(c, Core(s, e)), s.code, e, pass, Base(s, e), s1.code[e.info - 1]);
    }
    assert Ready(c, s, e, lo, pass, s1, [e.info]);
    GoIfClose(c, s, e, pass, lo, s1, [e.info]);
  }

  /** A comparison jumps when it comes out as `!pass`. */
  lemma JumpSplits(env: Env, x: Outcome, code: seq<Instr>, e: Exp, pass: bool, base: int, i: Instr)
    requires e.k == VJmp && 1 <= e.info <= |code| && code[e.info - 1].Cmp? && i.Cmp?
    requires var k := code[e.info - 1]; i == Cmp(k.cop, if pass then !k.cond else k.cond, k.b, k.c)
    ensures Splits(env, x, code, e, pass, base, [e.info], Tested(env, x, i, e.info))
  {
    hide CompareValues;
  }

  /** invertjump keeps the invariant, the core, and negates the value. */
  lemma NegatedOK(s: FS, e: Exp, lo: int)
    requires StateOK(s) && ExpOK(s, e, lo) && e.k == VJmp
    ensures var s1 := s.(code := NegateCond(s.code, e.info - 1));
      && StateOK(s1) && ExpOK(s1, e, lo) && Core(s1, e) == Core(s, e)
      && (forall j :: Open(s.code, j) <==> Open(s1.code, j))
      && s1.code[e.info - 1]
        == Cmp(s.code[e.info - 1].cop, !s.code[e.info - 1].cond, s.code[e.info - 1].b, s.code[e.info - 1].c)
  {
    var A, B := s.code, NegateCond(s.code, e.info - 1);
    forall i | 0 <= i < |A| ensures InstrOK(B, s.lasttarget, i) { assert InstrOK(A, s.lasttarget, i); }
    assert A[..|A| - 2] == B[..|A| - 2];
  }
}
