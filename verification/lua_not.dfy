/**
 What it means for a descriptor to stand for a value, and that codenot negates it.
 */
module LuaNot {
  import opened LuaVm
  import opened LuaGen
  import opened LuaPatch
  import opened LuaRun
  import opened LuaExp
  import opened LuaRegs
  import opened LuaCond

  /** The core falls through with the descriptor worth `v`, or has failed with that error. */
  ghost predicate Worth(env: Env, y: Outcome, code: seq<Instr>, e: Exp, v: Result<Value>, r: Regs, base: int) {
    || (y.Fall? && SameBelow(r, y.regs, base) && ValueOf(env, code, e, y.regs) == v)
    || (v.Err? && y == Failed(v.msg))
  }

  /** Started from registers `r`, the code leaves `v` in the descriptor: as its value when it falls
      through, or by an exit of the list that the truth of `v` belongs to. */
  ghost predicate Gives(env: Env, y: Outcome, code: seq<Instr>, e: Exp, v: Result<Value>, r: Regs, base: int) {
    || Worth(env, y, code, e, v, r, base)
    || (y.Jumped? && v.Ok? && SameBelow(r, y.regs, base) && (y.at in e.t || y.at in e.f)
        && Truthy(v.value) == (y.at in e.t) && Carries(y.carried, v.value, y.at in e.t))
  }

  /** `x0` is the run before the expression, `y` the run of the core after it. */
  ghost predicate Means(env: Env, x0: Outcome, y: Outcome, code: seq<Instr>, e: Exp, v: Result<Value>, base: int) {
    match x0
    case Fall(r) => Gives(env, y, code, e, v, r, base)
    case z => y == z
  }

  function NotOf(v: Result<Value>): Result<Value> {
    match v
    case Ok(x) => Ok(Bool(!Truthy(x)))
    case Err(msg) => Err(msg)
  }

  // ---------- instructions that stay relocatable ----------

  /** The code as the next instruction will find it. */
  ghost function Settle(s: FS): FS { s.(code := Discharged(s), jpc := []) }

  lemma SettleRun(c: Ctx, s: FS)
    requires StateOK(s)
    ensures StateOK(Settle(s)) && Keeps(s, Settle(s))
    ensures Entry(c, s) ==> Entry(c, Settle(s)) && Run(c, Settle(s)) == Run(c, s)
  {
    assert Discharged(s) + [] == Discharged(s);
    DischargedOK(s, [], s.lasttarget);
    SameSlots(s, []);
    if Entry(c, s) { Continue(c, s, []); }
  }

  /** The code after emitting a relocatable instruction is the settled code and that instruction. */
  lemma DelayedRun(c: Ctx, s: FS, i: Instr, e: Exp, lo: int)
    requires StateOK(s) && IsDelayed(i) && 0 <= lo <= |s.code|
    requires e.k == VReloc && e.info == |s.code|
    requires ListOK(s.code, e.t, lo) && ListOK(s.code, e.f, lo) && Disjoint(e.t, e.f)
    requires Disjoint(s.jpc, e.t) && Disjoint(s.jpc, e.f)
    ensures var s' := Code(s, i);
      && StateOK(s') && ExpOK(s', e, lo) && Keeps(s, s') && Core(s', e) == Settle(s) && s'.code[e.info] == i
      && (Entry(c, s) ==> Entry(c, Core(s', e)) && Run(c, Core(s', e)) == Run(c, s))
  {
    CodeRun(c, s, i);
    SettleRun(c, s);
    assert Code(s, i).code[..|s.code|] == Discharged(s);
  }

  // ---------- codenot ----------

  /** The main value of `e1` is the negation of that of `e`; exits are as they were. */
  ghost predicate Negates(env: Env, x: Outcome, code: seq<Instr>, e: Exp, base: int, code1: seq<Instr>, e1: Exp,
      y: Outcome) {
    match x
    case Fall(r) => Worth(env, y, code1, e1, NotOf(ValueOf(env, code, e, r)), r, base)
    case z => y == z
  }

  ghost predicate Negated(c: Ctx, s: FS, e: Exp, lo: int, s1: FS, e1: Exp) {
    && StateOK(s1) && ExpOK(s1, e1, lo) && e1.t == e.t && e1.f == e.f && Keeps(s, s1)
    && |Core(s, e).code| <= |Core(s1, e1).code|
    && (s1.jpc == [] || s1.jpc == s.jpc) && s1.freereg == Base(s, e) && Base(s1, e1) == s1.freereg
    && (Entry(c, Core(s, e)) ==>
        Entry(c, Core(s1, e1))
          && Negates(c.env, Run(c, Core(s, e)), s.code, e, Base(s, e), s1.code, e1, Run(c, Core(s1, e1))))
  }

  lemma NotValueRun(c: Ctx, s: FS, e: Exp, lo: int)
    requires StateOK(s) && ExpOK(s, e, lo) && e.k != VLocal
    requires e.k == VK ==> Truthy(Constant(c.env, e.info))
    requires var s' := NotValue(s, e).0; s'.k <= c.env.k && s'.maxstack < MAX_STACK
    ensures var (s1, e1) := NotValue(s, e); Negated(c, s, e, lo, s1, e1)
  {
    if e.k == VJmp {
      NotComparison(c, s, e, lo);
    } else if e.k == VReloc || e.k == VNonReloc {
      NotInstr(c, s, e, lo);
    } else {
      hide CodeOK, Exec, Discharge2AnyReg, ConstsOK, NegateCond;
    }
  }

  lemma NotComparison(c: Ctx, s: FS, e: Exp, lo: int)
    requires StateOK(s) && ExpOK(s, e, lo) && e.k == VJmp
    ensures var (s1, e1) := NotValue(s, e); Negated(c, s, e, lo, s1, e1)
  {
    hide CodeOK, Exec, Discharge2AnyReg, ConstsOK, NegateCond;
    NegatedOK(s, e, lo);
  }

  lemma NotInstr(c: Ctx, s: FS, e: Exp, lo: int)
    requires StateOK(s) && ExpOK(s, e, lo) && (e.k == VReloc || e.k == VNonReloc)
    requires var s' := NotValue(s, e).0; s'.k <= c.env.k && s'.maxstack < MAX_STACK
    ensures var (s1, e1) := NotValue(s, e); Negated(c, s, e, lo, s1, e1)
  {
    hide CodeOK, Exec, Discharge2AnyReg, ConstsOK, TestResult, Patch, ListOK, Negated, InAnyReg, Discharged;
    Discharge2AnyRegRun(c, s, e, lo);
    var (s1, e1) := Discharge2AnyReg(s, e);
    NotInRegister(c, s, e, lo, s1, e1);
  }

  /** OP_NOT on the register that the value is in. */
  lemma NotInRegister(c: Ctx, s: FS, e: Exp, lo: int, s1: FS, e1: Exp)
    requires StateOK(s) && ExpOK(s, e, lo) && (e.k == VReloc || e.k == VNonReloc)
    requires InAnyReg(c, s, e, lo, s1, e1) && s1.nactvar == s.nactvar
    ensures var s2 := Code(FreeExp(s1, e1), Not(0, e1.info));
      Negated(c, s, e, lo, s2, e1.(k := VReloc, info := |s2.code| - 1))
  {
    hide CodeOK, Exec, ConstsOK, Patch, ListOK, LoadedBelow, Negates;
    var s2 := FreeExp(s1, e1);
    var i, e2 := Not(0, e1.info), e1.(k := VReloc, info := |s2.code|);
    SameCode(c, s1, s2, Descriptor(VNil, 0), lo);
    DelayedRun(c, s2, i, e2, lo);
    if Entry(c, Core(s, e)) {
      LoadedNegates(c.env, Run(c, Core(s, e)), s.code, e, Base(s, e), e1.info, Run(c, s1), Code(s2, i).code, e2);
    }
  }

  /** A not on the register that holds the value. */
  lemma LoadedNegates(env: Env, x: Outcome, code: seq<Instr>, e: Exp, base: int, reg: int, y: Outcome,
                      code1: seq<Instr>, e1: Exp)
    requires LoadedBelow(env, x, code, e, base, reg, y) && 0 <= reg < NO_REG
    requires e1.k == VReloc && 0 <= e1.info < |code1| && code1[e1.info] == Not(0, reg)
    ensures Negates(env, x, code, e, base, code1, e1, y)
  {
    assert forall r :: ValueOf(env, code1, e1, r) == Ok(Bool(!Truthy(Get(r, reg))));
    hide ValueOf;
  }

  /** Jumps of `list` carry no value any more. */
  ghost function Stripped(x: Outcome, list: seq<int>): Outcome {
    match x
    case Jumped(j, r, w) => Jumped(j, r, if j in list then None else w)
    case Fall(r) => Fall(r)
    case z => z
  }

  lemma RemovedOK(A: seq<Instr>, lt: int, list: seq<int>)
    requires CodeOK(A, lt) && forall j :: j in list ==> Open(A, j)
    ensures CodeOK(RemoveValues(A, list), lt) && Extends(A, RemoveValues(A, list))
    ensures forall j :: Open(A, j) <==> Open(RemoveValues(A, list), j)
    ensures forall t :: Slot(A, t) <==> Slot(RemoveValues(A, list), t)
  {
    var B := RemoveValues(A, list);
    forall i | 0 <= i < |A| ensures PatchedOK(A, B, i) {
      assert InstrOK(A, lt, i);
      if i + 1 in list { assert Open(A, i + 1); }
    }
    forall i | 0 <= i < |A| ensures InstrOK(B, lt, i) {
      assert InstrOK(A, lt, i) && PatchedOK(A, B, i);
      if i + 1 < |A| { assert PatchedOK(A, B, i + 1); }
    }
  }

  /** removevalues strips the values that the jumps of the list carry. */
  lemma RemoveValuesRun(c: Ctx, s: FS, list: seq<int>)
    requires StateOK(s) && ListOK(s.code, list, 0)
    ensures var s' := s.(code := RemoveValues(s.code, list));
      StateOK(s') && (Entry(c, s) ==> Entry(c, s') && Run(c, s') == Stripped(Run(c, s), list))
  {
    var A, B := s.code, RemoveValues(s.code, list);
    RemovedOK(A, s.lasttarget, list);
    if Entry(c, s) {
      WeakenTarget(A, s.lasttarget, |A|);
      Resume(c.env, A, B, c.p, c.r);
      JumpedAt(c.env, A, c.p, c.r);
    }
  }

  lemma RemoveTwice(A: seq<Instr>, t: seq<int>, f: seq<int>)
    ensures RemoveValues(RemoveValues(A, t), f) == RemoveValues(A, t + f)
  {}

  /** Removing values from both lists leaves the descriptor's own instructions alone. */
  lemma StripBoth(c: Ctx, s: FS, e: Exp, lo: int)
    requires StateOK(s) && ExpOK(s, e, lo)
    ensures var s' := s.(code := RemoveValues(s.code, e.t + e.f));
      && StateOK(s') && ExpOK(s', WithLists(e, e.f, e.t), lo) && Keeps(s, s')
      && (forall i :: |s.code| - Tail(e) <= i < |s.code| ==> s'.code[i] == s.code[i])
      && StripsCore(c, s, s', e, e.t + e.f)
  {
    hide Exec, CodeOK, ConstsOK, StripsCore;
    var l := e.t + e.f;
    NoDupConcat(e.t, e.f);
    RemovedOK(s.code, s.lasttarget, l);
    var s' := s.(code := RemoveValues(s.code, l));
    assert forall i :: |s.code| - Tail(e) <= i < |s.code| ==> s'.code[i] == s.code[i];
    StripCore(c, s, e, lo, l);
  }

  ghost predicate StripsCore(c: Ctx, s: FS, s': FS, e: Exp, l: seq<int>) {
    && |Core(s', e).code| == |Core(s, e).code|
    && (Entry(c, Core(s, e)) ==> Entry(c, Core(s', e)) && Run(c, Core(s', e)) == Stripped(Run(c, Core(s, e)), l))
  }

  lemma StripCore(c: Ctx, s: FS, e: Exp, lo: int, l: seq<int>)
    requires StateOK(s) && ExpOK(s, e, lo) && NoDup(l) && forall j :: j in l <==> j in e.t || j in e.f
    ensures StripsCore(c, s, s.(code := RemoveValues(s.code, l)), e, l)
  {
    hide Exec;
    CoreOK(s, e, lo);
    RemoveValuesRun(c, Core(s, e), l);
    assert Core(s.(code := RemoveValues(s.code, l)), e).code == RemoveValues(Core(s, e).code, l);
  }

  /** From the negated main value and the stripped exits to the negated descriptor. */
  lemma NegatedMeans(env: Env, x0: Outcome, x: Outcome, y1: Outcome, code: seq<Instr>, e: Exp, code1: seq<Instr>,
      e1: Exp, code': seq<Instr>, v: Result<Value>, base: int, b: int)
    requires Means(env, x0, x, code, e, v, base) && base <= b
    requires Negates(env, x, code, e, b, code1, e1, y1)
    requires e1.t == e.t && e1.f == e.f && Disjoint(e.t, e.f)
    requires forall r :: ValueOf(env, code', e1, r) == ValueOf(env, code1, e1, r)
    requires x0.Jumped? ==> x0.at !in e.t && x0.at !in e.f
    ensures Means(env, x0, Stripped(y1, e.t + e.f), code', WithLists(e1, e1.f, e1.t), NotOf(v), base)
  {
    hide Exec;
    match x0 {
      case Fall(r) =>
        match x {
          case Fall(q) =>
            assert forall q' :: ValueOf(env, code', WithLists(e1, e1.f, e1.t), q') == ValueOf(env, code', e1, q');
          case _ =>
        }
      case _ =>
    }
  }

  lemma PlainMeans(c: Ctx, s: FS, e: Exp, x0: Outcome, v: Result<Value>, base: int)
    requires Means(c.env, x0, Run(c, Core(s, e)), s.code, e, v, base)
    ensures Core(s, DischargeVars(e)) == Core(s, e)
    ensures Means(c.env, x0, Run(c, Core(s, e)), s.code, DischargeVars(e), v, base)
  {}

  /** The value depends on the descriptor's own instructions only. */
  lemma SameTail(env: Env, s: FS, s': FS, e: Exp, lo: int)
    requires ExpOK(s, e, lo) && |s'.code| == |s.code|
    requires forall i :: |s.code| - Tail(e) <= i < |s.code| ==> s'.code[i] == s.code[i]
    ensures forall r :: ValueOf(env, s'.code, e, r) == ValueOf(env, s.code, e, r)
  {}

  lemma KeepsOn(s: FS, s1: FS, s': FS)
    requires Keeps(s, s1) && Keeps(s1, s') && (s1.jpc == [] || s1.jpc == s.jpc)
    ensures Keeps(s, s')
  {}

  lemma ListsApart(s: FS, e: Exp, lo: int)
    requires ExpOK(s, e, lo)
    ensures Disjoint(e.t, e.f) && forall j :: j in e.t || j in e.f ==> lo <= j
  {
    hide KindOK, NoDup;
  }

  /** The core does not depend on the lists. */
  lemma CoreLength(s: FS, e: Exp)
    ensures Core(s, WithLists(e, e.f, e.t)) == Core(s, e) && Base(s, WithLists(e, e.f, e.t)) == Base(s, e)
  {}

  /** codenot: the descriptor now stands for the negated value. */
  lemma CodeNotMeans(c: Ctx, s: FS, e0: Exp, lo: int, x0: Outcome, v: Result<Value>, base: int)
    requires StateOK(s) && ExpOK(s, e0, lo) && Entry(c, Core(s, e0))
    requires e0.k == VK ==> Truthy(Constant(c.env, e0.info))
    requires var s' := CodeNot(s, e0).0; s'.k <= c.env.k && s'.maxstack < MAX_STACK
    requires base <= Base(s, e0) && (x0.Jumped? ==> x0.at < lo)
    requires Means(c.env, x0, Run(c, Core(s, e0)), s.code, e0, v, base)
    ensures var (s', e') := CodeNot(s, e0);
      && StateOK(s') && ExpOK(s', e', lo) && Keeps(s, s') && Entry(c, Core(s', e'))
      && |Core(s, e0).code| <= |Core(s', e').code|
      && (s'.jpc == [] || s'.jpc == s.jpc) && s'.freereg == Base(s, e0) && Base(s', e') == s'.freereg
      && Means(c.env, x0, Run(c, Core(s', e')), s'.code, e', NotOf(v), base)
  {
    hide StateOK, ExpOK, Keeps, Run, Entry, Core, NotValue, RemoveValues, Negates, Stripped, Means, ValueOf, Grows;
    var e := DischargeVars(e0);
    var (s1, e1) := NotValue(s, e);
    LocalOK(s, e0, lo);
    PlainMeans(c, s, e0, x0, v, base);
    NotValueRun(c, s, e, lo);
    StripBoth(c, s1, e1, lo);
    RemoveTwice(s1.code, e1.t, e1.f);
    var s' := CodeNot(s, e0).0;
    assert (s', WithLists(e1, e1.f, e1.t)) == CodeNot(s, e0);
    SameTail(c.env, s1, s', e1, lo);
    KeepsOn(s, s1, s');
    ListsApart(s, e, lo);
    CoreLength(s', e1);
    NegatedMeans(c.env, x0, Run(c, Core(s, e)), Run(c, Core(s1, e1)), s.code, e, s1.code, e1, s'.code, v, base,
      Base(s, e));
  }
}
