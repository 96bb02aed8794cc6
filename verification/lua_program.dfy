/**
 Functions made of local declarations, assignments to locals and if statements: the finished
 code behaves as the source, from the first instruction to OP_RETURN.
 */
module LuaProgram {
  import opened LuaVm
  import opened LuaGen
  import opened LuaPatch
  import opened LuaRun
  import opened LuaExp
  import opened LuaCorrect
  import opened LuaLocals

  datatype Stmt =
    | Local(names: nat, values: seq<Expr>)
    | Assign(targets: Targets, sources: Values)
    | IfThen(cond: Expr, body: seq<Stmt>)
    | IfElse(cond: Expr, body: seq<Stmt>, orelse: seq<Stmt>)

  // ---------- what a program means ----------

  /** Runs a statement on the values of the active locals. */
  function ExecStmt(m: Machine, locals: seq<Value>, st: Stmt): (r: Result<seq<Value>>)
    requires ScopedStmt(st, |locals|)
    ensures r.Ok? ==> |r.value| == NewScope(st, |locals|)
    decreases st, 0
  {
    match st
    case Local(names, values) => ExecLocal(m, locals, names, values)
    case Assign(targets, values) => ExecAssign(m, locals, targets, values)
    case IfThen(cond, body) =>
      (match Eval(m, cond, ToRegs(locals))
       case Err(msg) => Err(msg)
       case Ok(v) => if Truthy(v) then Leave(ExecBlock(m, locals, body), |locals|) else Ok(locals))
    case IfElse(cond, body, orelse) =>
      match Eval(m, cond, ToRegs(locals))
      case Err(msg) => Err(msg)
      case Ok(v) => Leave(if Truthy(v) then ExecBlock(m, locals, body) else ExecBlock(m, locals, orelse), |locals|)
  }

  function ExecBlock(m: Machine, locals: seq<Value>, b: seq<Stmt>): (r: Result<seq<Value>>)
    requires ScopedBlock(b, |locals|)
    ensures r.Ok? ==> |r.value| >= |locals|
    decreases b, 1
  {
    if b == [] then Ok(locals)
    else
      match ExecStmt(m, locals, b[0])
      case Err(msg) => Err(msg)
      case Ok(l) => ExecBlock(m, l, b[1..])
  }

  /** A block's own locals end with it. */
  function Leave(r: Result<seq<Value>>, n: int): (q: Result<seq<Value>>)
    requires 0 <= n && (r.Ok? ==> n <= |r.value|)
    ensures q.Ok? ==> |q.value| == n
  {
    match r
    case Err(msg) => Err(msg)
    case Ok(l) => Ok(l[..n])
  }

  /** How many locals are active after the statement. */
  function NewScope(st: Stmt, n: int): int {
    match st
    case Local(names, _) => n + names
    case _ => n
  }

  predicate ScopedStmt(st: Stmt, n: int)
    decreases st, 0
  {
    match st
    case Local(names, values) => names >= 1 && AllBelow(values, n)
    case Assign(targets, values) => AssignOK(targets, values, n)
    case IfThen(cond, body) => LocalsBelow(cond, n) && ScopedBlock(body, n)
    case IfElse(cond, body, orelse) => LocalsBelow(cond, n) && ScopedBlock(body, n) && ScopedBlock(orelse, n)
  }

  predicate ScopedBlock(b: seq<Stmt>, n: int)
    decreases b, 1
  {
    b == [] || (ScopedStmt(b[0], n) && ScopedBlock(b[1..], NewScope(b[0], n)))
  }

  // ---------- how the parser drives the generator ----------

  function CompileStmt(m: Machine, s: FS, st: Stmt): (r: FS)
    ensures Longer(s, r)
    decreases st, 0
  {
    match st
    case Local(names, values) => CompileLocal(m, s, names, values)
    case Assign(targets, values) => CompileAssign(m, s, targets, values)
    case IfThen(cond, body) =>
      var (s1, e) := Compile(m, s, cond);
      var (s2, d) := GoIfTrue(s1, e);
      PatchToHere(Close(CompileBlock(m, s2, body), s.nactvar), d.f)
    case IfElse(cond, body, orelse) =>
      var (s1, e) := Compile(m, s, cond);
      var (s2, d) := GoIfTrue(s1, e);
      var (s3, escape) := Jump(Close(CompileBlock(m, s2, body), s.nactvar));
      var s4 := CompileBlock(m, PatchToHere(s3, d.f), orelse);
      PatchToHere(Close(s4, s.nactvar), escape)
  }

  function CompileBlock(m: Machine, s: FS, b: seq<Stmt>): (r: FS)
    ensures Longer(s, r)
    decreases b, 1
  {
    if b == [] then s else CompileBlock(m, CompileStmt(m, s, b[0]), b[1..])
  }

  /** The state that open_func sets up. */
  const Start := FS([], [], 0, 0, 0, 2, [], map[])

  /** A whole function body, closed with luaK_ret. */
  function CompileFunction(m: Machine, b: seq<Stmt>): FS { Code(CompileBlock(m, Start, b), Return(0, 1)) }

  // ---------- correctness ----------

  /** The result of the statement in the registers that the run so far leaves. */
  ghost function StmtAt(m: Machine, st: Stmt, n: nat, x: Outcome): Result<seq<Value>>
    requires ScopedStmt(st, n)
  {
    if x.Fall? then ExecStmt(m, LocalsOf(x.regs, n), st) else Err("")
  }

  ghost function BlockAt(m: Machine, b: seq<Stmt>, n: nat, x: Outcome): Result<seq<Value>>
    requires ScopedBlock(b, n)
    ensures var r := BlockAt(m, b, n, x); r.Ok? ==> |r.value| >= n
  {
    if x.Fall? then ExecBlock(m, LocalsOf(x.regs, n), b) else Err("")
  }

  // ---------- blocks ----------

  lemma {:induction false} BlockRun(c: Ctx, s: FS, b: seq<Stmt>)
    requires Between(s) && Entry(c, s) && ScopedBlock(b, s.nactvar)
    requires var s' := CompileBlock(c.env.m, s, b); s'.k <= c.env.k && s'.maxstack < MAX_STACK
    ensures var s' := CompileBlock(c.env.m, s, b);
      && Moved(c, s, s') && s.nactvar <= s'.nactvar
      && Does(Run(c, s), Run(c, s'), BlockAt(c.env.m, b, s.nactvar, Run(c, s)))
    decreases b, 1
  {
    hide Exec, CodeOK, CompileStmt, ExecStmt;
    if b != [] {
      StmtRun(c, s, b[0]);
      var s1 := CompileStmt(c.env.m, s, b[0]);
      BlockRun(c, s1, b[1..]);
    }
  }

  lemma {:induction false} StmtRun(c: Ctx, s: FS, st: Stmt)
    requires Between(s) && Entry(c, s) && ScopedStmt(st, s.nactvar)
    requires var s' := CompileStmt(c.env.m, s, st); s'.k <= c.env.k && s'.maxstack < MAX_STACK
    ensures var s' := CompileStmt(c.env.m, s, st);
      && Moved(c, s, s') && s'.nactvar == NewScope(st, s.nactvar)
      && Does(Run(c, s), Run(c, s'), StmtAt(c.env.m, st, s.nactvar, Run(c, s)))
    decreases st, 0
  {
    match st {
      case Local(names, values) => LocalRun(c, s, names, values);
      case Assign(targets, values) => AssignRun(c, s, targets, values);
      case IfThen(cond, body) => IfThenRun(c, s, cond, body);
      case IfElse(cond, body, orelse) => IfElseRun(c, s, cond, body, orelse);
    }
  }

  /** The run after the condition of an if statement. */
  lemma CondRun(c: Ctx, s: FS, cond: Expr)
    requires Between(s) && Entry(c, s) && LocalsBelow(cond, s.nactvar)
    requires var (s1, e) := Compile(c.env.m, s, cond); var s2 := GoIfTrue(s1, e).0;
      s2.k <= c.env.k && s2.maxstack < MAX_STACK
    ensures var (s1, e) := Compile(c.env.m, s, cond);
      var (s2, d) := GoIfTrue(s1, e);
      && Moved(c, s, s2) && s2.nactvar == s.nactvar && ListOK(s2.code, d.f, |s.code|) && Disjoint(s2.jpc, d.f)
      && Gated(Run(c, s), Run(c, s2), EvalAt(c.env, cond, Run(c, s)), true, s.freereg, d.f)
  {
    hide Exec, CodeOK, Compile, GoIfTrue;
    CompileRun(c, s, cond);
    var (s1, e) := Compile(c.env.m, s, cond);
    GateRun(c, s, s1, e, true, EvalAt(c.env, cond, Run(c, s)));
  }

  lemma {:induction false} IfThenRun(c: Ctx, s: FS, cond: Expr, body: seq<Stmt>)
    requires Between(s) && Entry(c, s) && ScopedStmt(IfThen(cond, body), s.nactvar)
    requires var s' := CompileStmt(c.env.m, s, IfThen(cond, body)); s'.k <= c.env.k && s'.maxstack < MAX_STACK
    ensures var s' := CompileStmt(c.env.m, s, IfThen(cond, body));
      && Moved(c, s, s') && s'.nactvar == s.nactvar
      && Does(Run(c, s), Run(c, s'), StmtAt(c.env.m, IfThen(cond, body), s.nactvar, Run(c, s)))
    decreases IfThen(cond, body), 0, 0
  {
    hide Exec, CodeOK, Compile, GoIfTrue, CompileBlock, ExecBlock, Eval;
    var m := c.env.m;
    var (s1, e) := Compile(m, s, cond);
    var (s2, d) := GoIfTrue(s1, e);
    var s3 := CompileBlock(m, s2, body);
    CondRun(c, s, cond);
    BlockRun(c, s2, body);
    CloseRuns(c, s3, s.nactvar);
    PatchToHereRun(c, Close(s3, s.nactvar), d.f);
    OlderExits(c, s);
    if Run(c, s).Fall? {
      ThenValue(c, s, s2, s3, cond, body, d.f);
      OnlyThenValue(c, s, s3, cond, body, d.f);
    }
  }

  lemma OnlyThenValue(c: Ctx, s: FS, s3: FS, cond: Expr, body: seq<Stmt>, exits: seq<int>)
    requires Between(s) && Run(c, s).Fall? && LocalsBelow(cond, s.nactvar) && ScopedBlock(body, s.nactvar)
    requires ThenEnds(c.env.m, Run(c, s), Run(c, s3), s.nactvar, cond, body, exits)
    requires Eval(c.env.m, cond, ToRegs(LocalsOf(Run(c, s).regs, s.nactvar))) == Eval(c.env.m, cond, Run(c, s).regs)
    ensures Does(Run(c, s), Arrive(Run(c, s3), exits), StmtAt(c.env.m, IfThen(cond, body), s.nactvar, Run(c, s)))
  {
    hide Exec, CodeOK, ExecBlock, Eval;
    var x, y := Run(c, s), Run(c, s3);
    if y.Jumped? && SameBelow(x.regs, y.regs, s.nactvar) {
      assert LocalsOf(y.regs, s.nactvar) == LocalsOf(x.regs, s.nactvar);
    }
  }

  /** How the then part ends: the body's result without its own locals, or waiting in the false list. */
  ghost predicate ThenEnds(m: Machine, x: Outcome, y: Outcome, n: nat, cond: Expr, body: seq<Stmt>, exits: seq<int>)
    requires x.Fall? && ScopedBlock(body, n)
  {
    match Eval(m, cond, x.regs)
    case Err(msg) => y == Failed(msg)
    case Ok(v) =>
      if Truthy(v) then Does(x, y, Leave(ExecBlock(m, LocalsOf(x.regs, n), body), n))
      else y.Jumped? && y.at in exits && SameBelow(x.regs, y.regs, n)
  }

  lemma ThenValue(c: Ctx, s: FS, s2: FS, s3: FS, cond: Expr, body: seq<Stmt>, exits: seq<int>)
    requires Between(s) && Run(c, s).Fall? && LocalsBelow(cond, s.nactvar) && ScopedBlock(body, s.nactvar)
    requires s2.nactvar == s.nactvar
    requires Gated(Run(c, s), Run(c, s2), EvalAt(c.env, cond, Run(c, s)), true, s.freereg, exits)
    requires Does(Run(c, s2), Run(c, s3), BlockAt(c.env.m, body, s.nactvar, Run(c, s2)))
    ensures ThenEnds(c.env.m, Run(c, s), Run(c, s3), s.nactvar, cond, body, exits)
    ensures Eval(c.env.m, cond, ToRegs(LocalsOf(Run(c, s).regs, s.nactvar))) == Eval(c.env.m, cond, Run(c, s).regs)
  {
    hide Exec, CodeOK, ExecBlock, Eval;
    EvalLocals(c.env.m, cond, Run(c, s).regs, s.nactvar);
    var x2 := Run(c, s2);
    if x2.Fall? { assert LocalsOf(x2.regs, s.nactvar) == LocalsOf(Run(c, s).regs, s.nactvar); }
    var y := Run(c, s3);
    if y.Fall? {
      forall n: nat, k: nat | n <= k ensures LocalsOf(y.regs, k)[..n] == LocalsOf(y.regs, n) {}
    }
  }

  lemma JumpFrame(s: FS)
    ensures var s' := Jump(s).0;
      s'.freereg == s.freereg && s'.nactvar == s.nactvar && s'.maxstack == s.maxstack && s'.k == s.k
        && |s'.code| == |s.code| + 1
  {}

  /** What falls through is parked on `list`. */
  ghost predicate Parks(x: Outcome, y: Outcome, list: seq<int>) {
    match x
    case Fall(r) => y.Jumped? && y.at in list && y.regs == r
    case z => y == z
  }

  /** luaK_jump: the new jump takes along every jump that was waiting for this place. */
  lemma JumpRun(c: Ctx, s: FS)
    requires StateOK(s) && Entry(c, s)
    ensures var (s', l) := Jump(s);
      && StateOK(s') && Entry(c, s') && Keeps(s, s') && s'.jpc == []
      && NoDup(l) && (forall j :: j in l ==> Open(s'.code, j) && (j in s.jpc || j == |s.code|))
      && Parks(Run(c, s), Run(c, s'), l)
  {
    var (s', l) := Jump(s);
    var A, B := s.code, s'.code;
    LastIsNoTest(A, s.lasttarget);
    forall i | 0 <= i < |B| ensures InstrOK(B, s.lasttarget, i) {
      if i < |A| { assert InstrOK(A, s.lasttarget, i); }
    }
    forall i | 0 <= i < |A| ensures PatchedOK(A, B, i) { assert InstrOK(A, s.lasttarget, i); }
    NoDupConcat([|A|], s.jpc);
    WeakenTarget(A, s.lasttarget, |A|);
    Resume(c.env, A, B, c.p, c.r);
    JumpedAt(c.env, A, c.p, c.r);
    assert B[|A|] == Jmp(NO_JUMP);
    forall q ensures Exec(c.env, B, |A|, q) == Jumped(|A|, q, None) {
      assert Follow(c.env, B, |A|, q, None) == Jumped(|A|, q, None);
    }
  }

  lemma {:induction false} IfElseRun(c: Ctx, s: FS, cond: Expr, body: seq<Stmt>, orelse: seq<Stmt>)
    requires Between(s) && Entry(c, s) && ScopedStmt(IfElse(cond, body, orelse), s.nactvar)
    requires var s' := CompileStmt(c.env.m, s, IfElse(cond, body, orelse)); s'.k <= c.env.k && s'.maxstack < MAX_STACK
    ensures var s' := CompileStmt(c.env.m, s, IfElse(cond, body, orelse));
      && Moved(c, s, s') && s'.nactvar == s.nactvar
      && Does(Run(c, s), Run(c, s'), StmtAt(c.env.m, IfElse(cond, body, orelse), s.nactvar, Run(c, s)))
    decreases IfElse(cond, body, orelse), 0, 0
  {
    hide Exec, CodeOK, Compile, GoIfTrue, CompileBlock, ExecBlock, Eval, Jump, ConstsOK, Does, Gated, Parks, KindOK;
    var m, n := c.env.m, s.nactvar;
    var (s1, e) := Compile(m, s, cond);
    var (s2, d) := GoIfTrue(s1, e);
    var s3 := CompileBlock(m, s2, body);
    var (s4, escape) := Jump(Close(s3, n));
    var s5 := PatchToHere(s4, d.f);
    var s6 := CompileBlock(m, s5, orelse);
    JumpFrame(Close(s3, n));
    CondRun(c, s, cond);
    BlockRun(c, s2, body);
    CloseRuns(c, s3, n);
    JumpRun(c, Close(s3, n));
    PatchToHereRun(c, s4, d.f);
    BlockRun(c, s5, orelse);
    CloseRuns(c, s6, n);
    PatchToHereRun(c, Close(s6, n), escape);
    OlderExits(c, s);
    if Run(c, s).Fall? {
      ThenValue(c, s, s2, s3, cond, body, d.f);
      ElseValue(c, s, s3, s5, s6, cond, body, orelse, d.f, escape);
    } else {
      var thenValue, elseValue := BlockAt(m, body, n, Run(c, s2)), BlockAt(m, orelse, n, Run(c, s5));
      NotReached(Run(c, s), Run(c, s2), Run(c, s3), Run(c, s4), Run(c, s6), EvalAt(c.env, cond, Run(c, s)), s.freereg,
                 d.f, thenValue, escape, elseValue, StmtAt(m, IfElse(cond, body, orelse), n, Run(c, s)));
    }
  }

  /** A run that ended before the statement goes past it. */
  lemma NotReached(x: Outcome, x2: Outcome, x3: Outcome, x4: Outcome, x6: Outcome, cond: Result<Value>, base: int,
                   exits: seq<int>, thenValue: Result<seq<Value>>, escape: seq<int>, elseValue: Result<seq<Value>>,
                   v: Result<seq<Value>>)
    requires !x.Fall? && (x.Jumped? ==> x.at !in exits && x.at !in escape)
    requires Gated(x, x2, cond, true, base, exits) && Does(x2, x3, thenValue) && Parks(x3, x4, escape)
    requires Does(Arrive(x4, exits), x6, elseValue)
    ensures Does(x, Arrive(x6, escape), v)
  {}

  /** Both branches of an if statement, joined at its end. */
  lemma ElseValue(c: Ctx, s: FS, s3: FS, s5: FS, s6: FS, cond: Expr, body: seq<Stmt>, orelse: seq<Stmt>,
                  exits: seq<int>, escape: seq<int>)
    requires Between(s) && Run(c, s).Fall? && LocalsBelow(cond, s.nactvar)
    requires ScopedBlock(body, s.nactvar) && ScopedBlock(orelse, s.nactvar)
    requires ThenEnds(c.env.m, Run(c, s), Run(c, s3), s.nactvar, cond, body, exits)
    requires Eval(c.env.m, cond, ToRegs(LocalsOf(Run(c, s).regs, s.nactvar))) == Eval(c.env.m, cond, Run(c, s).regs)
    requires Disjoint(exits, escape)
    requires exists y :: Parks(Run(c, s3), y, escape) && Run(c, s5) == Arrive(y, exits)
    requires Does(Run(c, s5), Run(c, s6), BlockAt(c.env.m, orelse, s.nactvar, Run(c, s5)))
    ensures Does(Run(c, s), Arrive(Run(c, s6), escape),
      StmtAt(c.env.m, IfElse(cond, body, orelse), s.nactvar, Run(c, s)))
  {
    hide Exec, CodeOK, ExecBlock, Eval;
    var x5, y := Run(c, s5), Run(c, s6);
    if x5.Fall? { assert LocalsOf(x5.regs, s.nactvar) == LocalsOf(Run(c, s).regs, s.nactvar); }
    if y.Fall? {
      forall n: nat, k: nat | n <= k ensures LocalsOf(y.regs, k)[..n] == LocalsOf(y.regs, n) {}
    }
  }

  // ---------- whole functions ----------

  /** Run from its first instruction, the code returns with every local worth what the source says,
      or stops with the error that the source stops with. */
  ghost predicate Behaves(m: Machine, b: seq<Stmt>, code: seq<Instr>, k: seq<Value>, r: Regs)
    requires ScopedBlock(b, 0)
  {
    match (ExecBlock(m, [], b), Exec(Env(m, k), code, 0, r))
    case (Ok(locals), Returned(q)) => LocalsOf(q, |locals|) == locals
    case (Err(msg), Failed(msg')) => msg == msg'
    case _ => false
  }

  /** Every function whose registers fit is compiled into code that behaves as its source. */
  lemma FunctionRun(m: Machine, b: seq<Stmt>, r: Regs)
    requires ScopedBlock(b, 0) && CompileFunction(m, b).maxstack < MAX_STACK
    ensures Behaves(m, b, CompileFunction(m, b).code, CompileFunction(m, b).k, r)
  {
    hide CompileBlock, ExecBlock;
    var s1 := CompileBlock(m, Start, b);
    var s := CompileFunction(m, b);
    var c := Ctx(Env(m, s.k), 0, r);
    assert Run(c, Start) == Fall(r);
    BlockRun(c, Start, b);
    CodeRun(c, s1, Return(0, 1));
    assert LocalsOf(r, 0) == [];
    assert Run(c, s) == Exec(c.env, s.code, 0, r);
  }
}
