/**
 Local declarations and assignments to locals: lists of values on the register stack, adjusted to the
 number of names, and the stores from the top of the stack.
 */
module LuaLocals {
  import opened LuaVm
  import opened LuaGen
  import opened LuaPatch
  import opened LuaRun
  import opened LuaExp
  import opened LuaRegs
  import opened LuaNot
  import opened LuaOps
  import opened LuaCorrect

  /** The two sides of an assignment; neither is empty. */
  type Targets = l: seq<int> | l != [] witness [0]

  type Values = l: seq<Expr> | l != [] witness [ENil]

  // ---------- what the statements mean ----------

  function ToRegs(locals: seq<Value>): Regs { map i | 0 <= i < |locals| :: locals[i] }

  /** The values of a list of expressions, from the first on. */
  function EvalAll(m: Machine, xs: seq<Expr>, r: Regs): (v: Result<seq<Value>>)
    ensures v.Ok? ==> |v.value| == |xs|
  {
    if xs == [] then Ok([])
    else
      match EvalAll(m, xs[..|xs| - 1], r)
      case Err(msg) => Err(msg)
      case Ok(vs) =>
        match Eval(m, xs[|xs| - 1], r)
        case Err(msg) => Err(msg)
        case Ok(v) => Ok(vs + [v])
  }

  /** As many values as there are names: the others are dropped, or nil is added. */
  function Adjusted(vs: seq<Value>, n: nat): (r: seq<Value>)
    ensures |r| == n
  {
    if |vs| >= n then vs[..n] else vs + seq(n - |vs|, _ => Nil)
  }

  predicate TargetsOK(targets: seq<int>, n: int) { forall i :: 0 <= i < |targets| ==> 0 <= targets[i] < n }

  /** The last target is stored to first, so the first of two equal targets wins. */
  function StoreAll(locals: seq<Value>, targets: seq<int>, vs: seq<Value>): (r: seq<Value>)
    requires |vs| == |targets| && TargetsOK(targets, |locals|)
    ensures |r| == |locals|
    decreases |targets|
  {
    if targets == [] then locals
    else
      var k := |targets| - 1;
      StoreAll(locals[targets[k] := vs[k]], targets[..k], vs[..k])
  }

  /** local names = values */
  function ExecLocal(m: Machine, locals: seq<Value>, names: nat, values: seq<Expr>): (r: Result<seq<Value>>)
    ensures r.Ok? ==> |r.value| == |locals| + names
  {
    match EvalAll(m, values, ToRegs(locals))
    case Err(msg) => Err(msg)
    case Ok(vs) => Ok(locals + Adjusted(vs, names))
  }

  /** targets = values */
  function ExecAssign(m: Machine, locals: seq<Value>, targets: seq<int>, values: seq<Expr>): (r: Result<seq<Value>>)
    requires TargetsOK(targets, |locals|)
    ensures r.Ok? ==> |r.value| == |locals|
  {
    match EvalAll(m, values, ToRegs(locals))
    case Err(msg) => Err(msg)
    case Ok(vs) => Ok(StoreAll(locals, targets, Adjusted(vs, |targets|)))
  }

  predicate AllBelow(xs: seq<Expr>, n: int) { forall i :: 0 <= i < |xs| ==> LocalsBelow(xs[i], n) }

  // ---------- how the parser drives the generator ----------

  ghost predicate Longer(s: FS, s': FS) { s'.maxstack >= s.maxstack && s.k <= s'.k }

  /** The end of a statement or block: `n` locals are active and every other register is free. */
  function Close(s: FS, n: int): FS { s.(nactvar := n, freereg := n) }

  /** explist with every value in a register of its own. */
  function CompileValues(m: Machine, s: FS, xs: seq<Expr>): (r: FS)
    ensures Grows(s, r)
    decreases |xs|
  {
    if xs == [] then s
    else
      var (s1, e) := Compile(m, CompileValues(m, s, xs[..|xs| - 1]), xs[|xs| - 1]);
      Exp2NextReg(s1, e).0
  }

  /** The end of adjust_assign: nil for the names without a value. */
  function PadNil(s: FS, extra: int): (r: FS)
    ensures Grows(s, r)
  {
    if extra > 0 then CodeNil(ReserveRegs(s, extra), s.freereg, extra) else s
  }

  function CompileLocal(m: Machine, s: FS, names: nat, values: seq<Expr>): (r: FS)
    ensures Longer(s, r)
  {
    Close(PadNil(CompileValues(m, s, values), names - |values|), s.nactvar + names)
  }

  /** luaK_storevar from the topmost register to a local. */
  function StoreTop(s: FS, target: int): (r: FS)
    ensures Grows(s, r)
  {
    var e := Descriptor(VNonReloc, s.freereg - 1);
    Exp2Reg(FreeExp(s, e), e, target).0
  }

  function StoreTops(s: FS, targets: seq<int>): (r: FS)
    ensures Grows(s, r)
    decreases |targets|
  {
    if targets == [] then s else StoreTops(StoreTop(s, targets[|targets| - 1]), targets[..|targets| - 1])
  }

  /** The last of as many values as targets is stored at once, without a register of its own. */
  function StoreLast(m: Machine, s: FS, target: int, x: Expr): (r: FS)
    ensures Grows(s, r)
  {
    var (s1, e) := Compile(m, s, x);
    Exp2Reg(FreeExp(s1, e), e, target).0
  }

  /** restassign of parsed targets and values. */
  function CompileAssign(m: Machine, s: FS, targets: seq<int>, values: seq<Expr>): (r: FS)
    requires targets != [] && values != []
    ensures Longer(s, r)
  {
    var n, k := |targets|, |values|;
    var s' :=
      if n == k then
        var s1 := CompileValues(m, s, values[..k - 1]);
        StoreTops(StoreLast(m, s1, targets[n - 1], values[k - 1]), targets[..n - 1])
      else
        var s1 := PadNil(CompileValues(m, s, values), n - k);
        StoreTops(if k > n then s1.(freereg := s1.freereg - (k - n)) else s1, targets);
    Close(s', s.nactvar)
  }

  // ---------- correctness ----------

  ghost function LocalsOf(r: Regs, n: nat): seq<Value> { seq(n, i => Get(r, i)) }

  /** `y` is `x` followed by a statement with result `v` on the locals. */
  ghost predicate Does(x: Outcome, y: Outcome, v: Result<seq<Value>>) {
    match x
    case Fall(r) =>
      (match v
       case Err(msg) => y == Failed(msg)
       case Ok(l) => y.Fall? && LocalsOf(y.regs, |l|) == l)
    case z => y == z
  }

  ghost predicate Between(s: FS) { StateOK(s) && s.freereg == s.nactvar }

  ghost predicate Moved(c: Ctx, s: FS, s': FS) {
    Between(s') && Keeps(s, s') && JpcFrom(s, s') && |s.code| <= |s'.code| && Entry(c, s')
  }

  lemma EvalLocals(m: Machine, x: Expr, r: Regs, n: nat)
    requires LocalsBelow(x, n)
    ensures Eval(m, x, ToRegs(LocalsOf(r, n))) == Eval(m, x, r)
  {
    EvalNonNegative(m, x, r, ToRegs(LocalsOf(r, n)), n);
  }

  lemma {:induction false} EvalNonNegative(m: Machine, x: Expr, r: Regs, q: Regs, n: int)
    requires LocalsBelow(x, n) && forall i :: 0 <= i < n ==> Get(r, i) == Get(q, i)
    ensures Eval(m, x, r) == Eval(m, x, q)
  {
    match x {
      case EParen(e) => EvalNonNegative(m, e, r, q, n);
      case EUn(_, e) => EvalNonNegative(m, e, r, q, n);
      case EBin(_, a, b) => EvalNonNegative(m, a, r, q, n); EvalNonNegative(m, b, r, q, n);
      case _ =>
    }
  }

  lemma CloseRuns(c: Ctx, s: FS, n: int)
    requires StateOK(s) && 0 <= n <= s.freereg
    ensures Between(Close(s, n)) && Run(c, Close(s, n)) == Run(c, s) && (Entry(c, s) ==> Entry(c, Close(s, n)))
  {}

  /** The value, or the error, arrives in `reg` and every other register below `top` is unchanged. */
  ghost predicate Arrives(x: Outcome, y: Outcome, v: Result<Value>, reg: int, top: int) {
    match x
    case Fall(r) =>
      (match v
       case Err(msg) => y == Failed(msg)
       case Ok(w) =>
         y.Fall? && Get(y.regs, reg) == w && forall i :: i < top && i != reg ==> Get(y.regs, i) == Get(r, i))
    case z => y == z
  }

  /** An expression compiled into the next register: its value is there, every register below is
      unchanged, the code falls through, and one register more is in use. */
  lemma ToNextReg(c: Ctx, s: FS, x: Expr)
    requires StateOK(s) && Entry(c, s) && LocalsBelow(x, s.nactvar)
    requires var (s1, e) := Compile(c.env.m, s, x); var s' := Exp2NextReg(s1, e).0;
      s'.k <= c.env.k && s'.maxstack < MAX_STACK
    ensures var (s1, e) := Compile(c.env.m, s, x);
      var (s', e') := Exp2NextReg(s1, e);
      && StateOK(s') && Keeps(s, s') && JpcFrom(s, s') && |s.code| <= |s'.code| && Entry(c, s')
      && s'.freereg == s.freereg + 1 && s'.nactvar == s.nactvar
      && e' == WithLists(InReg(DischargeVars(e), s.freereg), [], [])
      && Arrives(Run(c, s), Run(c, s'), EvalAt(c.env, x, Run(c, s)), s.freereg, s.freereg)
  {
    hide Exec, CodeOK, Compile, Exp2NextReg, Discharged, Means, Delivers, Yields, ConstsOK;
    CompileRun(c, s, x);
    var (s1, e) := Compile(c.env.m, s, x);
    Exp2NextRegRun(c, s1, e, |s.code|);
    NextRegExp(s1, e);
    NewExits(c, s, e);
    ValueArrives(c.env, Run(c, s), Run(c, Core(s1, e)), Run(c, Exp2NextReg(s1, e).0), s1.code, e,
                 EvalAt(c.env, x, Run(c, s)), s.freereg, s.freereg);
  }

  /** The value that a descriptor stands for, put into a register. */
  lemma ValueArrives(env: Env, x: Outcome, core: Outcome, y: Outcome, code: seq<Instr>, e: Exp, v: Result<Value>,
                     reg: int, top: int)
    requires Means(env, x, core, code, e, v, top) && Delivers(env, core, code, e, reg, y)
    requires x.Jumped? ==> x.at !in e.t && x.at !in e.f
    ensures Arrives(x, y, v, reg, top)
  {
    hide ValueOf;
  }

  lemma NextRegExp(s: FS, e: Exp)
    requires !Temp(s, e) && (e.k == VLocal ==> e.info < s.nactvar)
    ensures var (s', e') := Exp2NextReg(s, e);
      e' == WithLists(InReg(DischargeVars(e), s.freereg), [], []) && s'.nactvar == s.nactvar
  {}

  // ---------- values on the stack ----------

  /** The registers below `top` are unchanged and the values follow. */
  ghost predicate OnTop(r: Regs, q: Regs, vs: seq<Value>, top: int) {
    && (forall i :: i < top ==> Get(q, i) == Get(r, i))
    && (forall i :: 0 <= i < |vs| ==> Get(q, top + i) == vs[i])
  }

  /** The values, or the error, arrive on top of the stack. */
  ghost predicate Piled(x: Outcome, y: Outcome, v: Result<seq<Value>>, top: int) {
    match x
    case Fall(r) =>
      (match v
       case Err(msg) => y == Failed(msg)
       case Ok(vs) => y.Fall? && OnTop(r, y.regs, vs, top))
    case z => y == z
  }

  ghost function EvalAllAt(env: Env, xs: seq<Expr>, y: Outcome): Result<seq<Value>> {
    if y.Fall? then EvalAll(env.m, xs, y.regs) else Err("")
  }

  /** The generator went on in order, with `n` registers more in use. */
  ghost predicate Raised(c: Ctx, s: FS, s': FS, n: int) {
    && StateOK(s') && Keeps(s, s') && JpcFrom(s, s') && |s.code| <= |s'.code| && Entry(c, s')
    && s'.freereg == s.freereg + n && s'.nactvar == s.nactvar
  }

  lemma RaisedTwice(c: Ctx, s: FS, s1: FS, s2: FS, n: int, k: int)
    requires Raised(c, s, s1, n) && Raised(c, s1, s2, k)
    ensures Raised(c, s, s2, n + k)
  {
    hide StateOK, Entry;
  }

  lemma {:induction false} ValuesRun(c: Ctx, s: FS, xs: seq<Expr>)
    requires StateOK(s) && Entry(c, s) && AllBelow(xs, s.nactvar)
    requires var s' := CompileValues(c.env.m, s, xs); s'.k <= c.env.k && s'.maxstack < MAX_STACK
    ensures var s' := CompileValues(c.env.m, s, xs);
      Raised(c, s, s', |xs|) && Piled(Run(c, s), Run(c, s'), EvalAllAt(c.env, xs, Run(c, s)), s.freereg)
    decreases |xs|
  {
    hide StateOK, Entry, Compile, Exp2NextReg, Run, Piled, Arrives;
    RegsInOrder(s);
    if xs == [] {
      NothingPiled(c, s);
    } else {
      var k := |xs| - 1;
      var s1 := CompileValues(c.env.m, s, xs[..k]);
      var (s2, e) := Compile(c.env.m, s1, xs[k]);
      var s' := Exp2NextReg(s2, e).0;
      ValuesRun(c, s, xs[..k]);
      assert LocalsBelow(xs[k], s.nactvar);
      ToNextReg(c, s1, xs[k]);
      RaisedTwice(c, s, s1, s', k, 1);
      PiledOne(c.env, Run(c, s), Run(c, s1), Run(c, s'), xs, s.nactvar, s.freereg);
    }
  }

  lemma NothingPiled(c: Ctx, s: FS)
    requires StateOK(s) && Entry(c, s)
    ensures Raised(c, s, s, 0) && Piled(Run(c, s), Run(c, s), EvalAllAt(c.env, [], Run(c, s)), s.freereg)
  {
    hide Exec;
  }

  lemma PiledOne(env: Env, x: Outcome, x1: Outcome, y: Outcome, xs: seq<Expr>, n: int, top: int)
    requires xs != [] && LocalsBelow(xs[|xs| - 1], n) && n <= top
    requires Piled(x, x1, EvalAllAt(env, xs[..|xs| - 1], x), top)
    requires Arrives(x1, y, EvalAt(env, xs[|xs| - 1], x1), top + |xs| - 1, top + |xs| - 1)
    ensures Piled(x, y, EvalAllAt(env, xs, x), top)
  {
    hide Eval;
    if x.Fall? && x1.Fall? { EvalSame(env.m, xs[|xs| - 1], x.regs, x1.regs, n); }
  }

  /** Nil for `extra` names on top of the stack. */
  lemma PadRun(c: Ctx, s: FS, extra: int)
    requires StateOK(s) && Entry(c, s)
    ensures var s', n := PadNil(s, extra), if extra > 0 then extra else 0;
      Raised(c, s, s', n) && Piled(Run(c, s), Run(c, s'), Ok(seq(n, _ => Nil)), s.freereg)
  {
    hide Exec, CodeOK, CodeNil;
    if extra > 0 {
      var s1 := ReserveRegs(s, extra);
      SameCode(c, s, s1, Descriptor(VNil, 0), |s.code|);
      CodeNilFrame(s1, s.freereg, extra);
      CodeNilRun(c, s1, s.freereg, extra);
    }
  }

  lemma CodeNilFrame(s: FS, from: int, n: int)
    ensures var s' := CodeNil(s, from, n);
      s'.freereg == s.freereg && |s.code| <= |s'.code| && (s'.jpc == [] || s'.jpc == s.jpc)
  {}

  /** A local statement adds its names with their values: those of the list, adjusted to their number. */
  lemma LocalRun(c: Ctx, s: FS, names: nat, values: seq<Expr>)
    requires Between(s) && Entry(c, s) && AllBelow(values, s.nactvar)
    requires var s' := CompileLocal(c.env.m, s, names, values); s'.k <= c.env.k && s'.maxstack < MAX_STACK
    ensures var s' := CompileLocal(c.env.m, s, names, values);
      && Moved(c, s, s') && s'.nactvar == s.nactvar + names
      && Does(Run(c, s), Run(c, s'), LocalAt(c.env.m, names, values, s.nactvar, Run(c, s)))
  {
    hide Exec, CodeOK, CompileValues, PadNil, EvalAll;
    var s1 := CompileValues(c.env.m, s, values);
    var s2 := PadNil(s1, names - |values|);
    ValuesRun(c, s, values);
    PadRun(c, s1, names - |values|);
    CloseRuns(c, s2, s.nactvar + names);
    LocalDoes(c.env, Run(c, s), Run(c, s1), Run(c, s2), names, values, s.nactvar);
  }

  ghost function LocalAt(m: Machine, names: nat, values: seq<Expr>, n: nat, x: Outcome): Result<seq<Value>> {
    if x.Fall? then ExecLocal(m, LocalsOf(x.regs, n), names, values) else Err("")
  }

  lemma LocalDoes(env: Env, x: Outcome, x1: Outcome, y: Outcome, names: nat, values: seq<Expr>, n: nat)
    requires AllBelow(values, n) && Piled(x, x1, EvalAllAt(env, values, x), n)
    requires var k := names - |values|; Piled(x1, y, Ok(seq(if k > 0 then k else 0, _ => Nil)), n + |values|)
    ensures Does(x, y, LocalAt(env.m, names, values, n, x))
  {
    hide EvalAll;
    if x.Fall? {
      EvalAllLocals(env.m, values, x.regs, n);
      var v := EvalAll(env.m, values, x.regs);
      if v.Ok? { assert LocalsOf(y.regs, n + names) == LocalsOf(x.regs, n) + Adjusted(v.value, names); }
    }
  }

  lemma {:induction false} EvalAllLocals(m: Machine, xs: seq<Expr>, r: Regs, n: nat)
    requires AllBelow(xs, n)
    ensures EvalAll(m, xs, ToRegs(LocalsOf(r, n))) == EvalAll(m, xs, r)
    decreases |xs|
  {
    if xs != [] {
      EvalAllLocals(m, xs[..|xs| - 1], r, n);
      EvalLocals(m, xs[|xs| - 1], r, n);
    }
  }

  // ---------- assignments ----------

  ghost function StackOf(q: Regs, n: nat, count: nat): seq<Value> { seq(count, i => Get(q, n + i)) }

  /** The locals after the stores from the top of the stack. */
  ghost predicate Stores(x: Outcome, y: Outcome, targets: seq<int>, n: nat)
    requires TargetsOK(targets, n)
  {
    match x
    case Fall(q) =>
      y.Fall? && LocalsOf(y.regs, n) == StoreAll(LocalsOf(q, n), targets, StackOf(q, n, |targets|))
    case z => y == z
  }

  lemma StoreTopRun(c: Ctx, s: FS, target: int)
    requires StateOK(s) && Entry(c, s) && 0 <= target < s.nactvar < s.freereg < BITRK
    ensures var s' := StoreTop(s, target);
      && Raised(c, s, s', -1) && s'.k == s.k && s'.maxstack == s.maxstack
      && Run(c, s') == Then(c.env, Run(c, s), Move(target, s.freereg - 1))
  {
    hide Exec, CodeOK, ListOK, ConstsOK, Discharged, StoreTop;
    var s1 := s.(freereg := s.freereg - 1);
    StoreTopIs(s, target);
    SameCode(c, s, s1, Descriptor(VNil, 0), |s.code|);
    CodeRun(c, s1, Move(target, s.freereg - 1));
  }

  lemma StoreTopIs(s: FS, target: int)
    requires 0 <= target < s.nactvar < s.freereg < BITRK
    ensures StoreTop(s, target) == Code(s.(freereg := s.freereg - 1), Move(target, s.freereg - 1))
    ensures |StoreTop(s, target).code| > |s.code|
  {}

  lemma {:induction false} StoreTopsRun(c: Ctx, s: FS, targets: seq<int>)
    requires StateOK(s) && Entry(c, s) && s.freereg == s.nactvar + |targets| < BITRK
    requires TargetsOK(targets, s.nactvar)
    ensures var s' := StoreTops(s, targets);
      && Raised(c, s, s', -|targets|) && s'.k == s.k && s'.maxstack == s.maxstack
      && Stores(Run(c, s), Run(c, s'), targets, s.nactvar)
    decreases |targets|
  {
    hide StateOK, Entry, Run, StoreTop;
    if targets == [] {
      StoreNothing(c, s);
    } else {
      var k := |targets| - 1;
      var s1 := StoreTop(s, targets[k]);
      StoreTopRun(c, s, targets[k]);
      StoreTopsRun(c, s1, targets[..k]);
      RaisedTwice(c, s, s1, StoreTops(s1, targets[..k]), -1, -k);
      StoreOne(c.env, Run(c, s), Run(c, s1), Run(c, StoreTops(s1, targets[..k])), targets, s.nactvar);
    }
  }

  lemma StoreNothing(c: Ctx, s: FS)
    requires StateOK(s) && Entry(c, s)
    ensures Raised(c, s, s, 0) && Stores(Run(c, s), Run(c, s), [], s.nactvar)
  {
    hide Exec;
  }

  lemma StoreOne(env: Env, x: Outcome, x1: Outcome, y: Outcome, targets: seq<int>, n: nat)
    requires targets != [] && TargetsOK(targets, n)
    requires x1 == Then(env, x, Move(targets[|targets| - 1], n + |targets| - 1))
    requires Stores(x1, y, targets[..|targets| - 1], n)
    ensures Stores(x, y, targets, n)
  {
    if x.Fall? {
      var k := |targets| - 1;
      assert LocalsOf(x1.regs, n) == LocalsOf(x.regs, n)[targets[k] := Get(x.regs, n + k)];
      assert StackOf(x1.regs, n, k) == StackOf(x.regs, n, |targets|)[..k];
    }
  }

  /** The last value goes to its target without a register of its own. */
  lemma StoreLastRun(c: Ctx, s: FS, target: int, x: Expr)
    requires StateOK(s) && Entry(c, s) && LocalsBelow(x, s.nactvar) && 0 <= target < s.nactvar
    requires var s' := StoreLast(c.env.m, s, target, x); s'.k <= c.env.k && s'.maxstack < MAX_STACK
    ensures var s' := StoreLast(c.env.m, s, target, x);
      Raised(c, s, s', 0) && Arrives(Run(c, s), Run(c, s'), EvalAt(c.env, x, Run(c, s)), target, s.freereg)
  {
    hide Exec, CodeOK, Compile, Exp2Reg, Discharged, Means, Delivers, Arrives, ConstsOK;
    CompileRun(c, s, x);
    var (s1, e) := Compile(c.env.m, s, x);
    Exp2RegRun(c, s1, e, target, |s.code|);
    NewExits(c, s, e);
    ValueArrives(c.env, Run(c, s), Run(c, Core(s1, e)), Run(c, Exp2Reg(s1, e, target).0), s1.code, e,
                 EvalAt(c.env, x, Run(c, s)), target, s.freereg);
  }

  ghost function AssignAt(m: Machine, targets: seq<int>, values: seq<Expr>, n: nat, x: Outcome): Result<seq<Value>>
    requires TargetsOK(targets, n)
  {
    if x.Fall? then ExecAssign(m, LocalsOf(x.regs, n), targets, values) else Err("")
  }

  predicate AssignOK(targets: seq<int>, values: seq<Expr>, n: int) {
    targets != [] && values != [] && AllBelow(values, n) && TargetsOK(targets, n)
  }

  /** An assignment evaluates all its values before it stores any, and changes the targets only. */
  lemma AssignRun(c: Ctx, s: FS, targets: seq<int>, values: seq<Expr>)
    requires Between(s) && Entry(c, s) && AssignOK(targets, values, s.nactvar)
    requires var s' := CompileAssign(c.env.m, s, targets, values); s'.k <= c.env.k && s'.maxstack < MAX_STACK
    ensures var s' := CompileAssign(c.env.m, s, targets, values);
      && Moved(c, s, s') && s'.nactvar == s.nactvar
      && Does(Run(c, s), Run(c, s'), AssignAt(c.env.m, targets, values, s.nactvar, Run(c, s)))
  {
    if |targets| == |values| { EvenRun(c, s, targets, values); } else { UnevenRun(c, s, targets, values); }
  }

  /** As many values as targets. */
  lemma EvenRun(c: Ctx, s: FS, targets: seq<int>, values: seq<Expr>)
    requires Between(s) && Entry(c, s) && AssignOK(targets, values, s.nactvar) && |targets| == |values|
    requires var s' := CompileAssign(c.env.m, s, targets, values); s'.k <= c.env.k && s'.maxstack < MAX_STACK
    ensures var s' := CompileAssign(c.env.m, s, targets, values);
      && Moved(c, s, s') && s'.nactvar == s.nactvar
      && Does(Run(c, s), Run(c, s'), AssignAt(c.env.m, targets, values, s.nactvar, Run(c, s)))
  {
    hide Exec, CodeOK, CompileValues, StoreLast, StoreTops, EvalAll, Piled, Arrives, Stores, ConstsOK;
    var k := |values| - 1;
    var s1 := CompileValues(c.env.m, s, values[..k]);
    var s2 := StoreLast(c.env.m, s1, targets[k], values[k]);
    var s3 := StoreTops(s2, targets[..k]);
    assert LocalsBelow(values[k], s.nactvar);
    ValuesRun(c, s, values[..k]);
    StoreLastRun(c, s1, targets[k], values[k]);
    StoreTopsRun(c, s2, targets[..k]);
    RaisedTwice(c, s, s1, s2, k, 0);
    RaisedTwice(c, s, s2, s3, k, -k);
    CloseRuns(c, s3, s.nactvar);
    EvenDoes(c.env, Run(c, s), Run(c, s1), Run(c, s2), Run(c, s3), targets, values, s.nactvar);
  }

  lemma EvenDoes(env: Env, x: Outcome, x1: Outcome, x2: Outcome, y: Outcome, targets: seq<int>, values: seq<Expr>,
      n: nat)
    requires AssignOK(targets, values, n) && |targets| == |values|
    requires var k := |values| - 1;
      && Piled(x, x1, EvalAllAt(env, values[..k], x), n)
      && Arrives(x1, x2, EvalAt(env, values[k], x1), targets[k], n + k)
      && TargetsOK(targets[..k], n) && Stores(x2, y, targets[..k], n)
    ensures Does(x, y, AssignAt(env.m, targets, values, n, x))
  {
    hide Eval;
    var k := |values| - 1;
    if x.Fall? {
      EvalAllLocals(env.m, values, x.regs, n);
      if x1.Fall? { EvalSame(env.m, values[k], x.regs, x1.regs, n); }
      if x2.Fall? {
        var vs := EvalAll(env.m, values, x.regs).value;
        assert LocalsOf(x2.regs, n) == LocalsOf(x.regs, n)[targets[k] := vs[k]];
        assert StackOf(x2.regs, n, k) == vs[..k];
        assert Adjusted(vs, k + 1) == vs;
      }
    }
  }

  /** Values dropped or nil added. */
  lemma UnevenRun(c: Ctx, s: FS, targets: seq<int>, values: seq<Expr>)
    requires Between(s) && Entry(c, s) && AssignOK(targets, values, s.nactvar) && |targets| != |values|
    requires var s' := CompileAssign(c.env.m, s, targets, values); s'.k <= c.env.k && s'.maxstack < MAX_STACK
    ensures var s' := CompileAssign(c.env.m, s, targets, values);
      && Moved(c, s, s') && s'.nactvar == s.nactvar
      && Does(Run(c, s), Run(c, s'), AssignAt(c.env.m, targets, values, s.nactvar, Run(c, s)))
  {
    hide Exec, CodeOK, CompileValues, StoreTops, PadNil, EvalAll, Piled, Stores, ConstsOK;
    var n, k := |targets|, |values|;
    var s1 := CompileValues(c.env.m, s, values);
    var s2 := PadNil(s1, n - k);
    var s3 := if k > n then s2.(freereg := s2.freereg - (k - n)) else s2;
    var s4 := StoreTops(s3, targets);
    ValuesRun(c, s, values);
    PadRun(c, s1, n - k);
    RaisedTwice(c, s, s1, s2, k, if n > k then n - k else 0);
    SameCode(c, s2, s3, Descriptor(VNil, 0), |s2.code|);
    StoreTopsRun(c, s3, targets);
    RaisedTwice(c, s, s3, s4, n, -n);
    CloseRuns(c, s4, s.nactvar);
    UnevenDoes(c.env, Run(c, s), Run(c, s1), Run(c, s2), Run(c, s4), targets, values, s.nactvar);
  }

  lemma UnevenDoes(
    env: Env, x: Outcome, x1: Outcome, x2: Outcome, y: Outcome, targets: seq<int>, values: seq<Expr>, n: nat)
    requires AssignOK(targets, values, n)
    requires var k := |targets| - |values|;
      && Piled(x, x1, EvalAllAt(env, values, x), n)
      && Piled(x1, x2, Ok(seq(if k > 0 then k else 0, _ => Nil)), n + |values|)
      && Stores(x2, y, targets, n)
    ensures Does(x, y, AssignAt(env.m, targets, values, n, x))
  {
    hide EvalAll;
    if x.Fall? {
      EvalAllLocals(env.m, values, x.regs, n);
      if x2.Fall? {
        var vs := EvalAll(env.m, values, x.regs).value;
        assert LocalsOf(x2.regs, n) == LocalsOf(x.regs, n);
        assert StackOf(x2.regs, n, |targets|) == Adjusted(vs, |targets|);
      }
    }
  }
}
