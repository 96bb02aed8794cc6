/**
 The part of the Lua 5.2 virtual machine that expressions without calls need:
 values, instructions and their execution.
 */
module LuaVm {

  datatype Result<+T> = Ok(value: T) | Err(msg: string)

  datatype Option<+T> = None | Some(value: T)

  /** A lua_Number: the two zeros and NaN are told apart, the rest is exact. */
  datatype Num = NaN | PosInf | NegInf | NegZero | Finite(r: real)

  datatype Value = Nil | Bool(b: bool) | Number(n: Num) | String(s: string)

  datatype ArithOp = Add | Sub | Mul | Div | Mod | Pow

  datatype CmpOp = EqOp | LtOp | LeOp

  /** What the virtual machine gets from its environment. `arith` and `neg` are the number operations
      that constant folding and execution share; the others are the slow paths (string coercion, run-time errors). */
  datatype Machine = Machine(
    arith: (ArithOp, Num, Num) -> Num,
    neg: Num -> Num,
    slowArith: (ArithOp, Value, Value) -> Result<Value>,
    slowNeg: Value -> Result<Value>,
    length: Value -> Result<Value>,
    less: (Value, Value) -> Result<bool>,
    lessEqual: (Value, Value) -> Result<bool>)

  predicate IsZero(n: Num) { n == NegZero || n == Finite(0.0) }

  /** Numeric equality: NaN differs from itself, the two zeros are equal. */
  predicate NumEq(a: Num, b: Num) {
    a != NaN && b != NaN && (a == b || (IsZero(a) && IsZero(b)))
  }

  predicate RawEqual(a: Value, b: Value) {
    if a.Number? && b.Number? then NumEq(a.n, b.n) else a == b
  }

  predicate Truthy(v: Value) { v != Nil && v != Bool(false) }

  function ArithValue(m: Machine, op: ArithOp, a: Value, b: Value): Result<Value> {
    if a.Number? && b.Number? then Ok(Number(m.arith(op, a.n, b.n))) else m.slowArith(op, a, b)
  }

  function NegValue(m: Machine, a: Value): Result<Value> {
    if a.Number? then Ok(Number(m.neg(a.n))) else m.slowNeg(a)
  }

  function CompareValues(m: Machine, op: CmpOp, a: Value, b: Value): Result<bool> {
    match op
    case EqOp => Ok(RawEqual(a, b))
    case LtOp => m.less(a, b)
    case LeOp => m.lessEqual(a, b)
  }

  // ---------- instructions ----------

  /** End of a jump list, and the offset of a jump that is still pending. */
  const NO_JUMP := -1
  const NO_REG := 255
  const BITRK := 256
  const MAX_INDEX_RK := 255
  const MAX_STACK := 250

  datatype Instr =
    | Move(a: int, b: int)
    | LoadK(a: int, bx: int)
    | LoadBool(a: int, val: bool, skip: bool)
    | LoadNil(a: int, b: int)
    | Arith(aop: ArithOp, a: int, b: int, c: int)
    | Unm(a: int, b: int)
    | Len(a: int, b: int)
    | Not(a: int, b: int)
    | Cmp(cop: CmpOp, cond: bool, b: int, c: int)
    | Test(a: int, cond: bool)
    | TestSet(a: int, b: int, cond: bool)
    | Jmp(sbx: int)
    | Return(a: int, n: int)

  predicate IsTest(i: Instr) { i.Cmp? || i.Test? || i.TestSet? }

  /** Instructions that compute one value into register A and go on. */
  predicate IsValueInstr(i: Instr) {
    i.Move? || i.LoadK? || (i.LoadBool? && !i.skip) || i.Arith? || i.Unm? || i.Len? || i.Not?
  }

  /** The register a value instruction writes. */
  function Dest(i: Instr): int {
    match i
    case Move(a, _) => a
    case LoadK(a, _) => a
    case LoadBool(a, _, _) => a
    case Arith(_, a, _, _) => a
    case Unm(a, _) => a
    case Len(a, _) => a
    case Not(a, _) => a
    case _ => NO_REG
  }

  /** How far the program counter moves. */
  function Width(i: Instr): int {
    match i
    case LoadBool(_, _, skip) => if skip then 2 else 1
    case _ => 1
  }

  // ---------- execution ----------

  /** A register absent from the map holds nil. */
  type Regs = map<int, Value>

  /** The machine and the constant table of the function being run. */
  datatype Env = Env(m: Machine, k: seq<Value>)

  /** Where a run of a code segment leaves it. `carried` is the value tested by a TESTSET
      that has no target register yet. */
  datatype Outcome =
    | Fall(regs: Regs)
    | Jumped(at: int, regs: Regs, carried: Option<Value>)
    | Returned(regs: Regs)
    | Failed(msg: string)
    | Stuck

  function Get(r: Regs, i: int): Value { if i in r then r[i] else Nil }

  /** Registers a..a+b set to nil. */
  function ClearRegs(r: Regs, a: int, b: int): Regs { map i | i in r && !(a <= i <= a + b) :: r[i] }

  function Constant(env: Env, i: int): Value { if 0 <= i < |env.k| then env.k[i] else Nil }

  function RK(env: Env, r: Regs, x: int): Value {
    if x >= BITRK then Constant(env, x - BITRK) else Get(r, x)
  }

  function InstrValue(env: Env, i: Instr, r: Regs): Result<Value> {
    match i
    case Move(_, b) => Ok(Get(r, b))
    case LoadK(_, bx) => Ok(Constant(env, bx))
    case LoadBool(_, v, _) => Ok(Bool(v))
    case Arith(op, _, b, c) => ArithValue(env.m, op, RK(env, r, b), RK(env, r, c))
    case Unm(_, b) => NegValue(env.m, Get(r, b))
    case Len(_, b) => env.m.length(Get(r, b))
    case Not(_, b) => Ok(Bool(!Truthy(Get(r, b))))
    case _ => Err("no value")
  }

  /** Whether a test lets the jump that follows it happen. */
  function TestResult(env: Env, i: Instr, r: Regs): Result<bool> {
    match i
    case Cmp(op, cond, b, c) =>
      (match CompareValues(env.m, op, RK(env, r, b), RK(env, r, c))
       case Ok(res) => Ok(res == cond)
       case Err(msg) => Err(msg))
    case Test(a, cond) => Ok(Truthy(Get(r, a)) == cond)
    case TestSet(_, b, cond) => Ok(Truthy(Get(r, b)) == cond)
    case _ => Err("no test")
  }

  /** Runs `code` from `p` until it falls off the end or meets a pending jump. */
  function Exec(env: Env, code: seq<Instr>, p: int, r: Regs): Outcome
    decreases if 0 <= p <= |code| then |code| - p else 0, 1
  {
    if p == |code| then Fall(r)
    else if !(0 <= p < |code|) then Stuck
    else
      var i := code[p];
      match i
      case Jmp(_) => Follow(env, code, p, r, None)
      case Return(_, _) => Returned(r)
      case LoadNil(a, b) => Exec(env, code, p + 1, ClearRegs(r, a, b))
      case Cmp(_, _, _, _) => Branch(env, code, p, r, r, None)
      case Test(_, _) => Branch(env, code, p, r, r, None)
      case TestSet(a, b, _) =>
        if a == NO_REG then Branch(env, code, p, r, r, Some(Get(r, b)))
        else Branch(env, code, p, r, r[a := Get(r, b)], None)
      case _ =>
        match InstrValue(env, i, r)
        case Ok(v) => Exec(env, code, p + Width(i), r[Dest(i) := v])
        case Err(msg) => Failed(msg)
  }

  /** The test at `p`: either skips the next instruction or executes it as a jump. */
  function Branch(env: Env, code: seq<Instr>, p: int, r: Regs, taken: Regs, carried: Option<Value>): Outcome
    requires 0 <= p < |code|
    decreases |code| - p, 0
  {
    match TestResult(env, code[p], r)
    case Err(msg) => Failed(msg)
    case Ok(false) => Exec(env, code, p + 2, r)
    case Ok(true) => if p + 1 < |code| then Follow(env, code, p + 1, taken, carried) else Stuck
  }

  function Follow(env: Env, code: seq<Instr>, j: int, r: Regs, carried: Option<Value>): Outcome
    requires 0 <= j < |code|
    decreases |code| - j, 0
  {
    if !code[j].Jmp? || code[j].sbx < NO_JUMP then Stuck
    else if code[j].sbx == NO_JUMP then Jumped(j, r, carried)
    else Exec(env, code, j + 1 + code[j].sbx, r)
  }
}
