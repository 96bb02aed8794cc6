/**
 The compiled code of an expression computes the expression's value.
 */
module LuaCorrect {
  import opened LuaVm
  import opened LuaGen
  import opened LuaPatch
  import opened LuaRun
  import opened LuaExp
  import opened LuaRegs
  import opened LuaCond
  import opened LuaNot
  import opened LuaOps

  /** From state `s` to `s1` an expression worth `v` was compiled into the descriptor `e`: registers are
      balanced, other lists are intact, and the code runs to that value with lower registers unchanged. */
  ghost predicate Compiled(c: Ctx, s: FS, s1: FS, e: Exp, v: Result<Value>) {
    && StateOK(s1) && ExpOK(s1, e, |s.code|) && Keeps(s, s1) && JpcFrom(s, s1)
    && s1.freereg == s.freereg && !Temp(s1, e) && s1.nactvar == s.nactvar
    && |s.code| <= |Core(s1, e).code|
    && (e.k == VK ==> Truthy(Constant(c.env, e.info)))
    && Entry(c, Core(s1, e))
    && Means(c.env, Run(c, s), Run(c, Core(s1, e)), s1.code, e, v, s.freereg)
  }

  /** The value of `x` in the registers that the run so far leaves. */
  ghost function EvalAt(env: Env, x: Expr, y: Outcome): Result<Value> {
    if y.Fall? then Eval(env.m, x, y.regs) else Err("")
  }

  lemma {:induction false} EvalSame(m: Machine, x: Expr, r: Regs, q: Regs, n: int)
    requires LocalsBelow(x, n) && SameBelow(r, q, n)
    ensures Eval(m, x, r) == Eval(m, x, q)
  {
    match x {
      case EParen(e) => EvalSame(m, e, r, q, n);
      case EUn(_, e) => EvalSame(m, e, r, q, n);
      case EBin(_, a, b) => EvalSame(m, a, r, q, n); EvalSame(m, b, r, q, n);
      case _ =>
    }
  }

  /** Exits of the run so far come from older code. */
  lemma OlderExits(c: Ctx, s: FS)
    requires StateOK(s) && Entry(c, s)
    ensures Run(c, s).Jumped? ==> Open(s.code, Run(c, s).at) && Run(c, s).at !in s.jpc
  {
    WeakenTarget(s.code, s.lasttarget, |s.code|);
    JumpedAt(c.env, s.code, c.p, c.r);
  }

  // ---------- unary operators ----------

  lemma PrefixRun(c: Ctx, s: FS, s1: FS, d: Exp, op: UnOp, v: Result<Value>)
    requires StateOK(s) && Entry(c, s) && Compiled(c, s, s1, d, v)
    requires var s' := Prefix(c.env.m, s1, op, d).0; s'.k <= c.env.k && s'.maxstack < MAX_STACK
    ensures var (s', e') := Prefix(c.env.m, s1, op, d); Compiled(c, s, s', e', Unary(c.env.m, op, v))
  {
    OlderExits(c, s);
    if op == OpNot {
      NotRun(c, s, s1, d, v);
    } else if op == OpNeg && IsNumeral(d) {
      NegNumeral(c, s, s1, d, v);
    } else {
      UnaryRun(c, s, s1, d, op == OpLen, v);
    }
  }

  lemma NotRun(c: Ctx, s: FS, s1: FS, d: Exp, v: Result<Value>)
    requires StateOK(s) && Entry(c, s) && Compiled(c, s, s1, d, v)
    requires var s' := CodeNot(s1, d).0; s'.k <= c.env.k && s'.maxstack < MAX_STACK
    ensures var (s', e') := CodeNot(s1, d); Compiled(c, s, s', e', Unary(c.env.m, OpNot, v))
  {
    hide Exec, CodeOK, CodeNot, Means;
    OlderExits(c, s);
    CodeNotMeans(c, s1, d, |s.code|, Run(c, s), v, s.freereg);
    NotKind(s1, d);
  }

  lemma NotKind(s: FS, e: Exp)
    ensures var (s', e') := CodeNot(s, e); e'.k == VTrue || e'.k == VFalse || e'.k == VJmp || e'.k == VReloc
    ensures CodeNot(s, e).0.nactvar == s.nactvar
  {}

  lemma NegNumeral(c: Ctx, s: FS, s1: FS, d: Exp, v: Result<Value>)
    requires Compiled(c, s, s1, d, v) && IsNumeral(d)
    ensures Compiled(c, s, s1, d.(nval := c.env.m.neg(d.nval)), Unary(c.env.m, OpNeg, v))
  {
    hide Exec, CodeOK;
  }

  lemma UnaryRun(c: Ctx, s: FS, s1: FS, d: Exp, len: bool, v: Result<Value>)
    requires StateOK(s) && Entry(c, s) && Compiled(c, s, s1, d, v)
    requires var s' := CodeUnary(s1, len, d).0; s'.k <= c.env.k && s'.maxstack < MAX_STACK
    ensures var (s', e') := CodeUnary(s1, len, d);
      Compiled(c, s, s', e', Unary(c.env.m, if len then OpLen else OpNeg, v))
  {
    hide Exec, CodeOK, Exp2AnyReg, Code, Means, Holds, Yields, ConstsOK;
    NewExits(c, s, d);
    var lo := |s.code|;
    var (s2, e2) := Exp2AnyReg(s1, d);
    var (s3, e3, o) := Exp2RK(s2, e2);
    CodeKeeps(FreeExp(s3, e3), UnaryInstr(len, o));
    Exp2AnyRegRun(c, s1, d, lo);
    HeldStaysReg(s2, e2);
    StoredHolds(c, s1, d, lo, s2, e2, e2.info, Run(c, s), v, s.freereg);
    UnaryEnd(c, s2, len, e2, e2.info, lo, s.freereg, Run(c, s), v);
  }

  lemma CodeKeeps(s: FS, i: Instr)
    ensures Grows(s, Code(s, i)) && Code(s, i).k == s.k && Code(s, i).maxstack == s.maxstack && Code(s, i).jpc == []
    ensures |Code(s, i).code| == |s.code| + 1
  {}

  lemma HeldStaysReg(s: FS, e: Exp)
    requires e.k == VNonReloc && !HasJumps(e)
    ensures Exp2RK(s, e) == (s, e, e.info)
  {}

  // ---------- and, or ----------

  function Logic(pass: bool, v1: Result<Value>, v2: Result<Value>): Result<Value> {
    match v1
    case Err(msg) => Err(msg)
    case Ok(a) => if Truthy(a) == pass then v2 else v1
  }

  function LogicJoin(s: FS, e1: Exp, e2: Exp, pass: bool): (FS, Exp) {
    if pass then (s, WithLists(DischargeVars(e2), e2.t, e2.f + e1.f))
    else (s, WithLists(DischargeVars(e2), e2.t + e1.t, e2.f))
  }

  /** The run after luaK_infix of `and` (pass) or `or`: on to the right operand, or out with the left value. */
  ghost predicate Gated(x0: Outcome, x2: Outcome, v1: Result<Value>, pass: bool, base: int, exits: seq<int>) {
    match x0
    case Fall(r) => Chooses(x2, v1, pass, r, base, exits)
    case z => x2 == z
  }

  /** luaK_infix of a short-circuit operator. */
  lemma GateRun(c: Ctx, s: FS, s1: FS, d: Exp, pass: bool, v: Result<Value>)
    requires StateOK(s) && Entry(c, s) && Compiled(c, s, s1, d, v)
    requires var s' := GoIf(s1, d, pass).0; s'.k <= c.env.k && s'.maxstack < MAX_STACK
    ensures var (s2, d2) := GoIf(s1, d, pass);
      && StateOK(s2) && Entry(c, s2) && Keeps(s, s2) && JpcFrom(s, s2) && s2.freereg == s.freereg
      && |s.code| <= |s2.code|
      && ListOK(s2.code, Exits(d2, pass), |s.code|) && Exits(d2, !pass) == [] && Disjoint(s2.jpc, Exits(d2, pass))
      && Gated(Run(c, s), Run(c, s2), v, pass, s.freereg, Exits(d2, pass))
  {
    hide Exec, CodeOK, GoIf, ValueOf;
    OlderExits(c, s);
    GoIfRun(c, s1, d, pass, |s.code|);
  }

  /** luaK_posfix of a short-circuit operator, on runs: `x2` after the gate, `y` after the right operand. */
  lemma LogicMeans(env: Env, x0: Outcome, x2: Outcome, y: Outcome, code: seq<Instr>, exits: seq<int>, e2: Exp,
      pass: bool, v1: Result<Value>, v2: Result<Value>, base: int)
    requires Gated(x0, x2, v1, pass, base, exits)
    requires Means(env, x2, y, code, e2, v2, base)
    requires Disjoint(exits, e2.t) && Disjoint(exits, e2.f) && Disjoint(e2.t, e2.f)
    requires e2.k == VReloc || e2.k == VJmp ==> 0 <= e2.info < |code|
    ensures var (t, f) := if pass then (e2.t, e2.f + exits) else (e2.t + exits, e2.f);
      var e := WithLists(DischargeVars(e2), t, f);
      Means(env, x0, y, code, e, Logic(pass, v1, v2), base)
  {
    hide Exec;
    var e := WithLists(DischargeVars(e2), if pass then e2.t else e2.t + exits, if pass then e2.f + exits else e2.f);
    assert forall r :: ValueOf(env, code, e, r) == ValueOf(env, code, e2, r);
  }

  /** The exits of the left operand stay pending while the right one is compiled. */
  lemma ExitsLater(s: FS, s2: FS, s3: FS, exits: seq<int>, lo: int)
    requires ListOK(s2.code, exits, lo) && Disjoint(s2.jpc, exits) && Keeps(s2, s3) && JpcFrom(s2, s3)
    requires Keeps(s, s2) && JpcFrom(s, s2) && |s.code| <= |s2.code|
    ensures ListOK(s3.code, exits, lo) && Disjoint(s3.jpc, exits) && forall j :: j in exits ==> j < |s2.code|
    ensures Keeps(s, s3) && JpcFrom(s, s3)
  {
    hide NoDup;
    forall j | Open(s.code, j) && j !in s.jpc ensures Open(s3.code, j) { assert Open(s2.code, j); }
  }

  /** The joined lists are the descriptor's own. */
  lemma JoinedExp(s3: FS, d3: Exp, exits: seq<int>, pass: bool, lo: int, mid: int)
    requires 0 <= lo <= mid && ExpOK(s3, d3, mid) && ListOK(s3.code, exits, lo) && Disjoint(s3.jpc, exits)
    requires forall j :: j in exits ==> j < mid
    ensures Disjoint(exits, d3.t) && Disjoint(exits, d3.f) && Disjoint(d3.t, d3.f)
    ensures d3.k == VReloc || d3.k == VJmp ==> 0 <= d3.info < |s3.code|
    ensures var e' :=
              WithLists(DischargeVars(d3), if pass then d3.t else d3.t + exits, if pass then d3.f + exits else d3.f);
      ExpOK(s3, e', lo) && Core(s3, e') == Core(s3, d3) && (Temp(s3, e') ==> Temp(s3, d3))
  {
    NoDupConcat(if pass then d3.f else d3.t, exits);
  }

  lemma LogicRun(c: Ctx, s: FS, s2: FS, d2: Exp, s3: FS, d3: Exp, pass: bool, v1: Result<Value>, v2: Result<Value>)
    requires StateOK(s) && StateOK(s2) && Entry(c, s) && Entry(c, s2)
    requires Keeps(s, s2) && JpcFrom(s, s2) && s2.freereg == s.freereg && s2.nactvar == s.nactvar
      && |s.code| <= |s2.code|
    requires ListOK(s2.code, Exits(d2, pass), |s.code|) && Exits(d2, !pass) == [] && Disjoint(s2.jpc, Exits(d2, pass))
    requires Gated(Run(c, s), Run(c, s2), v1, pass, s.freereg, Exits(d2, pass))
    requires Compiled(c, s2, s3, d3, v2)
    ensures var (s', e') := LogicJoin(s3, d2, d3, pass); Compiled(c, s, s', e', Logic(pass, v1, v2))
  {
    hide StateOK, ListOK, ExpOK, Entry, Run, Core, Gated, Means, Disjoint, Keeps, JpcFrom;
    var exits := Exits(d2, pass);
    ExitsLater(s, s2, s3, exits, |s.code|);
    JoinedExp(s3, d3, exits, pass, |s.code|, |s2.code|);
    LogicMeans(c.env, Run(c, s), Run(c, s2), Run(c, Core(s3, d3)), s3.code, exits, d3, pass, v1, v2, s.freereg);
  }

  // ---------- strict binary operators ----------

  /** The left operand after luaK_infix: an operand in its place, or a number kept for folding. */
  ghost predicate LeftReady(c: Ctx, s: FS, s2: FS, d2: Exp, v: Result<Value>) {
    && StateOK(s2) && ExpOK(s2, d2, |s.code|) && Keeps(s, s2) && JpcFrom(s, s2) && s2.nactvar == s.nactvar
    && Base(s2, d2) == s.freereg && |s.code| <= |s2.code| && Entry(c, s2)
    && (IsNumeral(d2) || Held(d2, OperandOf(d2)))
    && (IsNumeral(d2) ==> Means(c.env, Run(c, s), Run(c, s2), s2.code, d2, v, s.freereg))
    && (!IsNumeral(d2) ==> Holds(c.env, Run(c, s), Run(c, s2), v, s.freereg, OperandOf(d2)))
  }

  function OperandOf(e: Exp): int { if e.k == VK then BITRK + e.info else e.info }

  lemma InfixRun(c: Ctx, s: FS, s1: FS, d: Exp, op: BinOp, v: Result<Value>)
    requires StateOK(s) && Entry(c, s) && Compiled(c, s, s1, d, v) && op != OpAnd && op != OpOr
    requires var s' := Infix(s1, op, d).0; s'.k <= c.env.k && s'.maxstack < MAX_STACK
    ensures var (s2, d2) := Infix(s1, op, d);
      LeftReady(c, s, s2, d2, v) && (IsNumeral(d2) ==> op.OpArith?)
  {
    hide Exec, CodeOK, Exp2RK, Compiled, LeftReady;
    if op.OpArith? && IsNumeral(d) {
      NumeralKept(c, s, s1, d, v);
    } else {
      OperandRun(c, s, s1, d, v);
    }
  }

  /** A numeral is kept for folding. */
  lemma NumeralKept(c: Ctx, s: FS, s1: FS, d: Exp, v: Result<Value>)
    requires StateOK(s) && Entry(c, s) && Compiled(c, s, s1, d, v) && IsNumeral(d)
    ensures LeftReady(c, s, s1, d, v)
  {
    hide StateOK, Keeps, JpcFrom, Run, Means;
  }

  lemma OperandRun(c: Ctx, s: FS, s1: FS, d: Exp, v: Result<Value>)
    requires StateOK(s) && Entry(c, s) && Compiled(c, s, s1, d, v)
    requires var s' := Exp2RK(s1, d).0; s'.k <= c.env.k && s'.maxstack < MAX_STACK
    ensures var (s2, d2, _) := Exp2RK(s1, d); LeftReady(c, s, s2, d2, v) && !IsNumeral(d2)
  {
    hide Exec, CodeOK, Exp2RK, Means, Holds, Yields, ConstsOK;
    NewExits(c, s, d);
    Exp2RKRun(c, s1, d, |s.code|);
    var (s2, d2, o) := Exp2RK(s1, d);
    StoredHolds(c, s1, d, |s.code|, s2, d2, o, Run(c, s), v, s.freereg);
  }

  /** An exit of the run so far is older than the lists of a new descriptor. */
  lemma NewExits(c: Ctx, s: FS, e: Exp)
    requires StateOK(s) && Entry(c, s)
    requires (forall j :: j in e.t ==> |s.code| <= j) && (forall j :: j in e.f ==> |s.code| <= j)
    ensures Run(c, s).Jumped? ==> Run(c, s).at !in e.t && Run(c, s).at !in e.f
  {
    hide Exec, CodeOK;
    OlderExits(c, s);
  }

  /** The right operand of a strict operator, compiled and made an operand. */
  ghost predicate RightReady(c: Ctx, s: FS, s2: FS, d2: Exp, s4: FS, d4: Exp, o4: int, v2: Result<Value>) {
    && StateOK(s4) && Keeps(s, s4) && JpcFrom(s, s4) && s4.nactvar == s.nactvar && ExpOK(s4, d4, |s2.code|)
    && Base(s4, d4) == s2.freereg && |s.code| <= |s4.code| && Entry(c, s4)
    && Held(d4, o4) && Holds(c.env, Run(c, s2), Run(c, s4), v2, s2.freereg, o4)
  }

  lemma RightRun(c: Ctx, s: FS, s2: FS, d2: Exp, s3: FS, d3: Exp, v1: Result<Value>, v2: Result<Value>)
    requires StateOK(s) && Entry(c, s) && LeftReady(c, s, s2, d2, v1) && Compiled(c, s2, s3, d3, v2)
    requires var s' := Exp2RK(s3, d3).0; s'.k <= c.env.k && s'.maxstack < MAX_STACK
    ensures var (s4, d4, o4) := Exp2RK(s3, d3); RightReady(c, s, s2, d2, s4, d4, o4, v2)
  {
    hide Exec, CodeOK, Exp2RK, Means, ConstsOK, Discharged;
    OlderExits(c, s2);
    Exp2RKRun(c, s3, d3, |s2.code|);
    var (s4, d4, o4) := Exp2RK(s3, d3);
    StoredHolds(c, s3, d3, |s2.code|, s4, d4, o4, Run(c, s2), v2, s2.freereg);
  }

  lemma ResultCompiled(c: Ctx, s: FS, s4: FS, s': FS, e': Exp, v: Result<Value>)
    requires StateOK(s) && StateOK(s4) && Keeps(s, s4) && JpcFrom(s, s4) && |s.code| <= |s4.code|
    requires Result3(c, s4, |s.code|, s', e', s.freereg, Run(c, s), v)
    requires e'.k == VReloc || e'.k == VJmp
    requires s'.nactvar == s.nactvar
    ensures Compiled(c, s, s', e', v)
  {
    hide Exec, CodeOK, Means, ConstsOK, Discharged;
  }

  lemma CompRun(c: Ctx, s: FS, s2: FS, d2: Exp, s3: FS, d3: Exp, cop: CmpOp, cond: bool, v1: Result<Value>,
      v2: Result<Value>)
    requires StateOK(s) && Entry(c, s) && LeftReady(c, s, s2, d2, v1) && !IsNumeral(d2) && Compiled(c, s2, s3, d3, v2)
    requires var s' := CodeComp(s3, cop, cond, d2, d3).0; s'.k <= c.env.k && s'.maxstack < MAX_STACK
    ensures var (s', e') := CodeComp(s3, cop, cond, d2, d3);
      Compiled(c, s, s', e', Strict(c.env.m, CompOp(cop, cond), v1, v2))
  {
    hide Exec, CodeOK, Means, ConstsOK, Exp2RK, CondJump, CompInstr, Strict, Holds, Both, Keeps, JpcFrom, ListOK;
    HeldStays(s3, d2, OperandOf(d2));
    var (s4, d4, o4) := Exp2RK(s3, d3);
    CondJumpFrame(FreeExp(FreeExp(s4, d4), d2), CompInstr(cop, cond, OperandOf(d2), o4));
    RightRun(c, s, s2, d2, s3, d3, v1, v2);
    HoldBoth(c.env, Run(c, s), Run(c, s2), Run(c, s4), v1, v2, s.freereg, s2.freereg, OperandOf(d2), o4);
    CompEnd(c, s4, cop, cond, d2, d4, OperandOf(d2), o4, |s.code|, s.freereg, Run(c, s), v1, v2);
    var (s', e') := CodeComp(s3, cop, cond, d2, d3);
    ResultCompiled(c, s, s4, s', e', Strict(c.env.m, CompOp(cop, cond), v1, v2));
  }

  lemma ArithRun(c: Ctx, s: FS, s2: FS, d2: Exp, s3: FS, d3: Exp, op: ArithOp, v1: Result<Value>, v2: Result<Value>)
    requires StateOK(s) && Entry(c, s) && LeftReady(c, s, s2, d2, v1) && Compiled(c, s2, s3, d3, v2)
    requires var s' := CodeArith(c.env.m, s3, op, d2, d3).0; s'.k <= c.env.k && s'.maxstack < MAX_STACK
    ensures var (s', e') := CodeArith(c.env.m, s3, op, d2, d3);
      Compiled(c, s, s', e', Strict(c.env.m, OpArith(op), v1, v2))
  {
    hide Exec, CodeOK, Compiled, LeftReady, CodeArith, Strict;
    if Foldable(op, d2, d3) {
      FoldRun(c, s, s2, d2, s3, d3, op, v1, v2);
    } else {
      EmitRun(c, s, s2, d2, s3, d3, op, v1, v2);
    }
  }

  lemma EmitRun(c: Ctx, s: FS, s2: FS, d2: Exp, s3: FS, d3: Exp, op: ArithOp, v1: Result<Value>, v2: Result<Value>)
    requires StateOK(s) && Entry(c, s) && LeftReady(c, s, s2, d2, v1) && Compiled(c, s2, s3, d3, v2)
    requires !Foldable(op, d2, d3)
    requires var s' := CodeArith(c.env.m, s3, op, d2, d3).0; s'.k <= c.env.k && s'.maxstack < MAX_STACK
    ensures var (s', e') := CodeArith(c.env.m, s3, op, d2, d3);
      Compiled(c, s, s', e', Strict(c.env.m, OpArith(op), v1, v2))
  {
    hide Exec, CodeOK, Means, ConstsOK, Discharged, Exp2RK, Code, Strict, Holds, Both, Keeps, FreeBoth, FreeExp;
    var (s4, d4, o4) := Exp2RK(s3, d3);
    var (s5, d5, o5) := Exp2RK(s4, d2);
    var s6 := FreeBoth(s5, d5, d4, o5, o4);
    FreeKeeps(s5, d5, d4, o5, o4);
    CodeKeeps(s6, Arith(op, 0, o5, o4));
    RightRun(c, s, s2, d2, s3, d3, v1, v2);
    LeftAgain(c, s, s2, d2, s4, d4, o4, v1, v2);
    ArithEnd(c, s5, op, d5, d4, o5, o4, |s.code|, s.freereg, Run(c, s), v1, v2);
    var (s', e') := CodeArith(c.env.m, s3, op, d2, d3);
    ResultCompiled(c, s, s5, s', e', Strict(c.env.m, OpArith(op), v1, v2));
  }

  lemma FreeKeeps(s: FS, e1: Exp, e2: Exp, o1: int, o2: int)
    ensures var s' := FreeBoth(s, e1, e2, o1, o2);
      s'.nactvar == s.nactvar && s'.k == s.k && s'.maxstack == s.maxstack
  {}

  /** luaK_exp2RK on the left operand: nothing to do, or a number that was kept for folding. */
  lemma LeftAgain(c: Ctx, s: FS, s2: FS, d2: Exp, s4: FS, d4: Exp, o4: int, v1: Result<Value>, v2: Result<Value>)
    requires StateOK(s) && Entry(c, s) && LeftReady(c, s, s2, d2, v1) && RightReady(c, s, s2, d2, s4, d4, o4, v2)
    requires var s' := Exp2RK(s4, d2).0; s'.k <= c.env.k && s'.maxstack < MAX_STACK
    ensures var (s5, d5, o5) := Exp2RK(s4, d2);
      && StateOK(s5) && Keeps(s, s5) && JpcFrom(s, s5) && s5.nactvar == s.nactvar && |s.code| <= |s5.code|
      && Entry(c, s5)
      && Held(d5, o5) && Stacked(s5, d5, d4, s.freereg)
      && Both(c.env, Run(c, s), Run(c, s5), v1, v2, s.freereg, o5, o4)
  {
    hide Exec, CodeOK, ConstsOK, Exp2RK, LeftReady, RightReady, Both, Stacked, StateOK, Keeps, JpcFrom;
    if IsNumeral(d2) {
      NumeralAgain(c, s, s2, d2, s4, d4, o4, v1, v2);
    } else {
      OperandAgain(c, s, s2, d2, s4, d4, o4, v1, v2);
    }
  }

  lemma OperandAgain(c: Ctx, s: FS, s2: FS, d2: Exp, s4: FS, d4: Exp, o4: int, v1: Result<Value>, v2: Result<Value>)
    requires LeftReady(c, s, s2, d2, v1) && RightReady(c, s, s2, d2, s4, d4, o4, v2) && !IsNumeral(d2)
    ensures Exp2RK(s4, d2) == (s4, d2, OperandOf(d2)) && Held(d2, OperandOf(d2)) && Stacked(s4, d2, d4, s.freereg)
    ensures StateOK(s4) && Keeps(s, s4) && JpcFrom(s, s4) && s4.nactvar == s.nactvar && |s.code| <= |s4.code|
      && Entry(c, s4)
    ensures Both(c.env, Run(c, s), Run(c, s4), v1, v2, s.freereg, OperandOf(d2), o4)
  {
    hide Exec, CodeOK, ConstsOK, Exp2RK, Both, Holds, Keeps, JpcFrom, ListOK;
    HeldStays(s4, d2, OperandOf(d2));
    HoldBoth(c.env, Run(c, s), Run(c, s2), Run(c, s4), v1, v2, s.freereg, s2.freereg, OperandOf(d2), o4);
  }

  lemma NumeralAgain(c: Ctx, s: FS, s2: FS, d2: Exp, s4: FS, d4: Exp, o4: int, v1: Result<Value>, v2: Result<Value>)
    requires StateOK(s) && Entry(c, s) && LeftReady(c, s, s2, d2, v1) && RightReady(c, s, s2, d2, s4, d4, o4, v2)
    requires IsNumeral(d2)
    requires var s' := Exp2RK(s4, d2).0; s'.k <= c.env.k && s'.maxstack < MAX_STACK
    ensures var (s5, d5, o5) := Exp2RK(s4, d2);
      && StateOK(s5) && Keeps(s, s5) && JpcFrom(s, s5) && s5.nactvar == s.nactvar && |s.code| <= |s5.code|
      && Entry(c, s5)
      && Held(d5, o5) && Stacked(s5, d5, d4, s.freereg)
      && Both(c.env, Run(c, s), Run(c, s5), v1, v2, s.freereg, o5, o4)
  {
    hide Exec, CodeOK, ConstsOK, Discharged, Exp2RK;
    OlderExits(c, s4);
    Exp2RKRun(c, s4, d2, |s.code|);
  }

  /** Folding two numerals gives what execution would give. */
  lemma FoldRun(c: Ctx, s: FS, s2: FS, d2: Exp, s3: FS, d3: Exp, op: ArithOp, v1: Result<Value>, v2: Result<Value>)
    requires StateOK(s) && Entry(c, s) && LeftReady(c, s, s2, d2, v1) && Compiled(c, s2, s3, d3, v2)
    requires Foldable(op, d2, d3)
    ensures var (s', e') := CodeArith(c.env.m, s3, op, d2, d3);
      Compiled(c, s, s', e', Strict(c.env.m, OpArith(op), v1, v2))
  {
    hide Exec, CodeOK, ConstsOK, Discharged;
    assert Core(s3, d2) == s3 == Core(s3, d3);
  }

  lemma BinaryRun(c: Ctx, s: FS, s2: FS, d2: Exp, s3: FS, d3: Exp, op: BinOp, v1: Result<Value>, v2: Result<Value>)
    requires StateOK(s) && Entry(c, s) && LeftReady(c, s, s2, d2, v1) && (IsNumeral(d2) ==> op.OpArith?)
    requires op != OpAnd && op != OpOr && Compiled(c, s2, s3, d3, v2)
    requires var s' := Posfix(c.env.m, s3, op, d2, d3).0; s'.k <= c.env.k && s'.maxstack < MAX_STACK
    ensures var (s', e') := Posfix(c.env.m, s3, op, d2, d3); Compiled(c, s, s', e', Strict(c.env.m, op, v1, v2))
  {
    hide Exec, CodeOK, CodeArith, CodeComp, Compiled, LeftReady, Strict;
    match op {
      case OpArith(a) => ArithRun(c, s, s2, d2, s3, d3, a, v1, v2);
      case OpCompare(o) => CompRun(c, s, s2, d2, s3, d3, o, true, v1, v2);
      case OpDiffers(o) => CompRun(c, s, s2, d2, s3, d3, o, false, v1, v2);
      case _ =>
    }
  }

  // ---------- the theorem ----------

  /** The code compiled for an expression, run after any code before it, leaves the expression's
      value in its descriptor, or stops with the first error of the evaluation. */
  lemma {:induction false} CompileRun(c: Ctx, s: FS, x: Expr)
    requires StateOK(s) && Entry(c, s) && LocalsBelow(x, s.nactvar)
    requires var s' := Compile(c.env.m, s, x).0; s'.k <= c.env.k && s'.maxstack < MAX_STACK
    ensures var (s', e) := Compile(c.env.m, s, x); Compiled(c, s, s', e, EvalAt(c.env, x, Run(c, s)))
    decreases x
  {
    match x {
      case EStr(str) => AddKFinds(s, Of(String(str)), String(str)); SimpleRun(c, s, x);
      case EParen(e) => CompileRun(c, s, e); ParenRun(c, s, e);
      case EUn(op, e) =>
        CompileRun(c, s, e);
        var (s1, d) := Compile(c.env.m, s, e);
        PrefixRun(c, s, s1, d, op, EvalAt(c.env, e, Run(c, s)));
        UnaryValue(c, s, op, e);
      case EBin(op, l, r) => CompileBinary(c, s, op, l, r);
      case _ => SimpleRun(c, s, x);
    }
  }

  lemma SimpleRun(c: Ctx, s: FS, x: Expr)
    requires StateOK(s) && Entry(c, s) && LocalsBelow(x, s.nactvar) && !x.EParen? && !x.EUn? && !x.EBin?
    requires Compile(c.env.m, s, x).0.k <= c.env.k
    ensures var (s', e) := Compile(c.env.m, s, x); Compiled(c, s, s', e, EvalAt(c.env, x, Run(c, s)))
  {
    hide Exec, CodeOK, ConstsOK, AddK, Compiled;
    if x.EStr? {
      StringRun(c, s, x.str);
    } else {
      ImmediateRun(c, s, Compile(c.env.m, s, x).1, EvalAt(c.env, x, Run(c, s)));
    }
  }

  /** A descriptor that needs no code yet. */
  lemma ImmediateRun(c: Ctx, s: FS, e: Exp, v: Result<Value>)
    requires StateOK(s) && Entry(c, s) && !HasJumps(e)
    requires e.k == VNil || e.k == VTrue || e.k == VFalse || e.k == VKNum || (e.k == VLocal && 0 <= e.info < s.nactvar)
    requires Run(c, s).Fall? ==> v == ValueOf(c.env, s.code, e, Run(c, s).regs)
    ensures Compiled(c, s, s, e, v)
  {
    hide Exec, CodeOK, ConstsOK;
  }

  lemma StringRun(c: Ctx, s: FS, str: string)
    requires StateOK(s) && Entry(c, s) && StringK(s, str).0.k <= c.env.k
    ensures var (s', i) := StringK(s, str);
      Compiled(c, s, s', Descriptor(VK, i), if Run(c, s).Fall? then Ok(String(str)) else Err(""))
  {
    hide Exec, CodeOK, ConstsOK;
    AddKFinds(s, Of(String(str)), String(str));
    SameCode(c, s, StringK(s, str).0, Descriptor(VNil, 0), |s.code|);
  }

  lemma ParenRun(c: Ctx, s: FS, e: Expr)
    requires var (s1, d) := Compile(c.env.m, s, e); Compiled(c, s, s1, d, EvalAt(c.env, e, Run(c, s)))
    ensures var (s1, d) := Compile(c.env.m, s, EParen(e)); Compiled(c, s, s1, d, EvalAt(c.env, EParen(e), Run(c, s)))
  {
    hide Compiled, AddK;
    var (s1, d) := Compile(c.env.m, s, e);
    LocalCompiled(c, s, s1, d, EvalAt(c.env, e, Run(c, s)));
  }

  lemma LocalCompiled(c: Ctx, s: FS, s1: FS, d: Exp, v: Result<Value>)
    requires Compiled(c, s, s1, d, v)
    ensures Compiled(c, s, s1, DischargeVars(d), v)
  {
    hide StateOK, Keeps, JpcFrom, Run, Entry, Means, ListOK;
    LocalOK(s1, d, |s.code|);
    PlainMeans(c, s1, d, Run(c, s), v, s.freereg);
  }

  lemma UnaryValue(c: Ctx, s: FS, op: UnOp, e: Expr)
    requires var (s1, d) := Compile(c.env.m, s, EUn(op, e));
      Compiled(c, s, s1, d, Unary(c.env.m, op, EvalAt(c.env, e, Run(c, s))))
    ensures var (s1, d) := Compile(c.env.m, s, EUn(op, e)); Compiled(c, s, s1, d, EvalAt(c.env, EUn(op, e), Run(c, s)))
  {
    hide Exec, CodeOK, Compile, StateOK, ExpOK;
  }

  /** The value only matters when the code before fell through. */
  lemma SameValue(c: Ctx, s: FS, s': FS, e: Exp, v: Result<Value>, w: Result<Value>)
    requires Compiled(c, s, s', e, v) && (Run(c, s).Fall? ==> v == w)
    ensures Compiled(c, s, s', e, w)
  {
    hide Exec, CodeOK;
  }

  /** The right operand is evaluated after a left value `v`. */
  predicate Reached(op: BinOp, v: Value) { (op == OpAnd ==> Truthy(v)) && (op == OpOr ==> !Truthy(v)) }

  /** Evaluating the right operand after the left one's code gives its value in the original registers. */
  lemma RightValue(m: Machine, x0: Outcome, x2: Outcome, op: BinOp, l: Expr, r: Expr, env: Env, n: int)
    requires env.m == m && x0.Fall? && LocalsBelow(r, n)
    requires x2.Fall? ==> SameBelow(x0.regs, x2.regs, n)
    requires Eval(m, l, x0.regs).Ok? && Reached(op, Eval(m, l, x0.regs).value) ==> x2.Fall?
    ensures op != OpAnd && op != OpOr ==>
      Strict(m, op, EvalAt(env, l, x0), EvalAt(env, r, x2)) == Eval(m, EBin(op, l, r), x0.regs)
    ensures op == OpAnd || op == OpOr ==>
      Logic(op == OpAnd, EvalAt(env, l, x0), EvalAt(env, r, x2)) == Eval(m, EBin(op, l, r), x0.regs)
  {
    if x2.Fall? { EvalSame(m, r, x0.regs, x2.regs, n); }
  }

  lemma {:induction false} CompileBinary(c: Ctx, s: FS, op: BinOp, l: Expr, r: Expr)
    requires StateOK(s) && Entry(c, s) && LocalsBelow(EBin(op, l, r), s.nactvar)
    requires var s' := Compile(c.env.m, s, EBin(op, l, r)).0; s'.k <= c.env.k && s'.maxstack < MAX_STACK
    ensures var (s', e) := Compile(c.env.m, s, EBin(op, l, r));
      Compiled(c, s, s', e, EvalAt(c.env, EBin(op, l, r), Run(c, s)))
    decreases EBin(op, l, r), 0
  {
    if op == OpAnd || op == OpOr {
      CompileLogic(c, s, op, l, r);
    } else {
      CompileStrict(c, s, op, l, r);
    }
  }

  lemma {:induction false} CompileLogic(c: Ctx, s: FS, op: BinOp, l: Expr, r: Expr)
    requires StateOK(s) && Entry(c, s) && LocalsBelow(EBin(op, l, r), s.nactvar) && (op == OpAnd || op == OpOr)
    requires var s' := Compile(c.env.m, s, EBin(op, l, r)).0; s'.k <= c.env.k && s'.maxstack < MAX_STACK
    ensures var (s', e) := Compile(c.env.m, s, EBin(op, l, r));
      Compiled(c, s, s', e, EvalAt(c.env, EBin(op, l, r), Run(c, s)))
    decreases EBin(op, l, r), 0, 0
  {
    hide Exec, CodeOK, GoIf, Compiled, Logic, ConstsOK, Eval, Keeps, JpcFrom, ListOK, Disjoint;
    var m, pass := c.env.m, op == OpAnd;
    var (s1, d1) := Compile(m, s, l);
    var (s2, d2) := Infix(s1, op, d1);
    var (s3, d3) := Compile(m, s2, r);
    InfixIsGate(s1, op, d1);
    CompileRun(c, s, l);
    var v1 := EvalAt(c.env, l, Run(c, s));
    GateRun(c, s, s1, d1, pass, v1);
    CompileRun(c, s2, r);
    var v2 := EvalAt(c.env, r, Run(c, s2));
    LogicRun(c, s, s2, d2, s3, d3, pass, v1, v2);
    var (s', e) := Posfix(m, s3, op, d2, d3);
    GatedRight(c, s, s2, op, l, r, Exits(d2, pass));
    SameValue(c, s, s', e, Logic(pass, v1, v2), EvalAt(c.env, EBin(op, l, r), Run(c, s)));
  }

  lemma GatedRight(c: Ctx, s: FS, s2: FS, op: BinOp, l: Expr, r: Expr, exits: seq<int>)
    requires LocalsBelow(r, s.nactvar) && s.nactvar <= s.freereg && (op == OpAnd || op == OpOr)
    requires Gated(Run(c, s), Run(c, s2), EvalAt(c.env, l, Run(c, s)), op == OpAnd, s.freereg, exits)
    ensures Run(c, s).Fall? ==>
      Logic(op == OpAnd, EvalAt(c.env, l, Run(c, s)), EvalAt(c.env, r, Run(c, s2)))
      == EvalAt(c.env, EBin(op, l, r), Run(c, s))
  {
    hide Exec, Logic, Eval;
    if Run(c, s).Fall? { RightValue(c.env.m, Run(c, s), Run(c, s2), op, l, r, c.env, s.nactvar); }
  }

  lemma InfixIsGate(s: FS, op: BinOp, e: Exp)
    requires op == OpAnd || op == OpOr
    ensures Infix(s, op, e) == GoIf(s, e, op == OpAnd)
  {}

  lemma {:induction false} CompileStrict(c: Ctx, s: FS, op: BinOp, l: Expr, r: Expr)
    requires StateOK(s) && Entry(c, s) && LocalsBelow(EBin(op, l, r), s.nactvar) && op != OpAnd && op != OpOr
    requires var s' := Compile(c.env.m, s, EBin(op, l, r)).0; s'.k <= c.env.k && s'.maxstack < MAX_STACK
    ensures var (s', e) := Compile(c.env.m, s, EBin(op, l, r));
      Compiled(c, s, s', e, EvalAt(c.env, EBin(op, l, r), Run(c, s)))
    decreases EBin(op, l, r), 0, 0
  {
    hide Exec, CodeOK, Infix, Posfix, Compiled, Strict, ConstsOK, Eval, Keeps, JpcFrom, ExpOK, Held;
    var m := c.env.m;
    var (s1, d1) := Compile(m, s, l);
    var (s2, d2) := Infix(s1, op, d1);
    var (s3, d3) := Compile(m, s2, r);
    CompileRun(c, s, l);
    var v1 := EvalAt(c.env, l, Run(c, s));
    InfixRun(c, s, s1, d1, op, v1);
    CompileRun(c, s2, r);
    var v2 := EvalAt(c.env, r, Run(c, s2));
    BinaryRun(c, s, s2, d2, s3, d3, op, v1, v2);
    var (s', e) := Posfix(m, s3, op, d2, d3);
    ReadyRight(c, s, s2, d2, op, l, r);
    SameValue(c, s, s', e, Strict(m, op, v1, v2), EvalAt(c.env, EBin(op, l, r), Run(c, s)));
  }

  lemma ReadyRight(c: Ctx, s: FS, s2: FS, d2: Exp, op: BinOp, l: Expr, r: Expr)
    requires StateOK(s) && LocalsBelow(r, s.nactvar) && op != OpAnd && op != OpOr
    requires LeftReady(c, s, s2, d2, EvalAt(c.env, l, Run(c, s)))
    ensures Run(c, s).Fall? ==>
      Strict(c.env.m, op, EvalAt(c.env, l, Run(c, s)), EvalAt(c.env, r, Run(c, s2)))
      == EvalAt(c.env, EBin(op, l, r), Run(c, s))
  {
    hide Exec, CodeOK, ConstsOK, ListOK, Strict, Eval, Keeps, JpcFrom;
    if Run(c, s).Fall? { RightValue(c.env.m, Run(c, s), Run(c, s2), op, l, r, c.env, s.nactvar); }
  }
}
