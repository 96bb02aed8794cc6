/**
 Running code that was extended and whose pending jumps were patched, in terms of running it before.
 */
module LuaPatch {
  import opened LuaVm
  import opened LuaGen

  ghost predicate Open(code: seq<Instr>, j: int) { 0 <= j < |code| && code[j] == Jmp(NO_JUMP) }

  /** The place of the jump that belongs to a test. */
  ghost predicate Slot(code: seq<Instr>, t: int) { 1 <= t <= |code| && IsTest(code[t - 1]) }

  /** Every test is followed by its jump; resolved targets lie forward, at or before the last label,
      and never separate a test from its jump. */
  ghost predicate InstrOK(code: seq<Instr>, lasttarget: int, i: int)
    requires 0 <= i < |code|
  {
    && (IsTest(code[i]) ==> i + 1 < |code| && code[i + 1].Jmp?)
    && (code[i].Jmp? && code[i].sbx != NO_JUMP ==>
      code[i].sbx >= 0 && TargetOK(code, lasttarget, i + 1 + code[i].sbx))
    && (code[i].LoadBool? && code[i].skip ==> TargetOK(code, lasttarget, i + 2))
    && (code[i].TestSet? ==> (code[i].a == NO_REG <==> Open(code, i + 1)))
    && (code[i].LoadNil? ==> code[i].b >= 0)
  }

  ghost predicate TargetOK(code: seq<Instr>, lasttarget: int, t: int) { t <= lasttarget && !Slot(code, t) }

  ghost predicate CodeOK(code: seq<Instr>, lasttarget: int) {
    0 <= lasttarget <= |code| && forall i :: 0 <= i < |code| ==> InstrOK(code, lasttarget, i)
  }

  /** `B` extends `A`: pending jumps may be resolved to places past `A`, and their controls adjusted. */
  ghost predicate PatchedOK(A: seq<Instr>, B: seq<Instr>, i: int)
    requires 0 <= i < |A| <= |B|
  {
    if A[i] == Jmp(NO_JUMP) then
      B[i].Jmp? && (B[i].sbx == NO_JUMP || (B[i].sbx >= 0 && i + 1 + B[i].sbx >= |A|))
    else if A[i].TestSet? && A[i].a == NO_REG then
      || B[i] == A[i]
      || B[i] == Test(A[i].b, A[i].cond)
      || (B[i].TestSet? && B[i].b == A[i].b && B[i].cond == A[i].cond)
    else B[i] == A[i]
  }

  ghost predicate Extends(A: seq<Instr>, B: seq<Instr>) {
    |A| <= |B| && forall i :: 0 <= i < |A| ==> PatchedOK(A, B, i)
  }

  /** How a way of leaving `A` goes on in `B`. */
  ghost function After(env: Env, A: seq<Instr>, B: seq<Instr>, x: Outcome): Outcome
    requires |A| <= |B|
  {
    match x
    case Fall(r) => Exec(env, B, |A|, r)
    case Jumped(j, r, w) => if 0 <= j < |A| then JumpOn(env, A, B, j, r, w) else Stuck
    case _ => x
  }

  ghost function JumpOn(env: Env, A: seq<Instr>, B: seq<Instr>, j: int, r: Regs, w: Option<Value>): Outcome
    requires 0 <= j < |A| <= |B|
  {
    if j == 0 || w.None? then Follow(env, B, j, r, None)
    else if B[j - 1].TestSet? && B[j - 1].a != NO_REG then Follow(env, B, j, r[B[j - 1].a := w.value], None)
    else Follow(env, B, j, r, if B[j - 1] == A[j - 1] then w else None)
  }

  /** Running the patched code is running the old code and going on from where it leaves. */
  lemma {:induction false} Resume(env: Env, A: seq<Instr>, B: seq<Instr>, p: int, r: Regs)
    requires CodeOK(A, |A|) && Extends(A, B)
    requires 0 <= p <= |A|
    ensures Exec(env, B, p, r) == After(env, A, B, Exec(env, A, p, r))
    decreases |A| - p
  {
    hide InstrValue, CodeOK, Extends;
    if p < |A| {
      InstrAt(A, B, p);
      var i := A[p];
      if i.Jmp? {
        ResumeJump(env, A, B, p, r, None);
      } else if IsTest(i) {
        Resume(env, A, B, p + 2, r);
        ResumeJump(env, A, B, p + 1, Taken(i, r), Carried(i, r));
        ResumeTest(env, A, B, p, r);
      } else if i.LoadNil? {
        Resume(env, A, B, p + 1, ClearRegs(r, i.a, i.b));
      } else if !i.Return? {
        match InstrValue(env, i, r) {
          case Ok(v) => Resume(env, A, B, p + Width(i), r[Dest(i) := v]);
          case Err(_) =>
        }
      }
    }
  }

  lemma InstrAt(A: seq<Instr>, B: seq<Instr>, p: int)
    requires CodeOK(A, |A|) && Extends(A, B) && 0 <= p < |A|
    ensures |A| <= |B| && InstrOK(A, |A|, p) && PatchedOK(A, B, p)
  {}

  /** What the jump behind a test carries, and the registers with which it is taken. */
  function Carried(i: Instr, r: Regs): Option<Value> {
    if i.TestSet? && i.a == NO_REG then Some(Get(r, i.b)) else None
  }

  function Taken(i: Instr, r: Regs): Regs { if i.TestSet? && i.a != NO_REG then r[i.a := Get(r, i.b)] else r }

  lemma ResumeTest(env: Env, A: seq<Instr>, B: seq<Instr>, p: int, r: Regs)
    requires 0 <= p && p + 1 < |A| <= |B| && IsTest(A[p]) && A[p + 1].Jmp?
    requires InstrOK(A, |A|, p) && PatchedOK(A, B, p)
    requires Exec(env, B, p + 2, r) == After(env, A, B, Exec(env, A, p + 2, r))
    requires A[p + 1] == Jmp(NO_JUMP) ==>
      Follow(env, A, p + 1, Taken(A[p], r), Carried(A[p], r)) == Jumped(p + 1, Taken(A[p], r), Carried(A[p], r))
    requires A[p + 1] != Jmp(NO_JUMP) ==>
      B[p + 1] == A[p + 1]
      && Follow(env, B, p + 1, Taken(A[p], r), None)
         == After(env, A, B, Follow(env, A, p + 1, Taken(A[p], r), None))
    ensures Exec(env, B, p, r) == After(env, A, B, Exec(env, A, p, r))
  {
    hide After, Follow;
    var i := A[p];
    TestBranches(env, A, p, r);
    TestBranches(env, B, p, r);
    assert TestResult(env, B[p], r) == TestResult(env, A[p], r) by { hide CompareValues; }
    match TestResult(env, i, r) {
      case Err(msg) => AfterFailed(env, A, B, msg);
      case Ok(false) =>
      case Ok(true) => TakenTest(env, A, B, p, r);
    }
  }

  /** How a test goes on. */
  lemma TestBranches(env: Env, code: seq<Instr>, p: int, r: Regs)
    requires 0 <= p < |code| && IsTest(code[p])
    ensures Exec(env, code, p, r) == Branch(env, code, p, r, Taken(code[p], r), Carried(code[p], r))
  {}

  lemma AfterFailed(env: Env, A: seq<Instr>, B: seq<Instr>, msg: string)
    requires |A| <= |B|
    ensures After(env, A, B, Failed(msg)) == Failed(msg)
  {}

  /** The jump behind a test that lets it happen. */
  lemma TakenTest(env: Env, A: seq<Instr>, B: seq<Instr>, p: int, r: Regs)
    requires 0 <= p && p + 1 < |A| <= |B| && IsTest(A[p]) && A[p + 1].Jmp?
    requires InstrOK(A, |A|, p) && PatchedOK(A, B, p)
    requires A[p + 1] == Jmp(NO_JUMP) ==>
      Follow(env, A, p + 1, Taken(A[p], r), Carried(A[p], r)) == Jumped(p + 1, Taken(A[p], r), Carried(A[p], r))
    requires A[p + 1] != Jmp(NO_JUMP) ==>
      B[p + 1] == A[p + 1]
      && Follow(env, B, p + 1, Taken(A[p], r), None)
         == After(env, A, B, Follow(env, A, p + 1, Taken(A[p], r), None))
    ensures Follow(env, B, p + 1, Taken(B[p], r), Carried(B[p], r))
         == After(env, A, B, Follow(env, A, p + 1, Taken(A[p], r), Carried(A[p], r)))
  {
    hide Follow, Exec;
  }

  lemma {:induction false} ResumeJump(env: Env, A: seq<Instr>, B: seq<Instr>, j: int, r: Regs, w: Option<Value>)
    requires CodeOK(A, |A|) && Extends(A, B)
    requires 0 <= j < |A| && A[j].Jmp?
    requires w.None? || (0 < j && A[j - 1].TestSet? && A[j - 1].a == NO_REG)
    ensures A[j] == Jmp(NO_JUMP) ==> Follow(env, A, j, r, w) == Jumped(j, r, w)
    ensures A[j] != Jmp(NO_JUMP) ==>
      B[j] == A[j] && Follow(env, B, j, r, None) == After(env, A, B, Follow(env, A, j, r, None))
    decreases |A| - j, 0
  {
    hide CodeOK, Extends;
    InstrAt(A, B, j);
    if A[j] != Jmp(NO_JUMP) {
      Resume(env, A, B, j + 1 + A[j].sbx, r);
    }
  }

  /** A pending exit is a pending jump, and it carries the tested value exactly when a TESTSET controls it. */
  lemma {:induction false} JumpedAt(env: Env, A: seq<Instr>, p: int, r: Regs)
    requires CodeOK(A, |A|)
    requires 0 <= p <= |A| && !Slot(A, p)
    ensures var x := Exec(env, A, p, r);
      x.Jumped? ==> Open(A, x.at) && CarriedOK(A, x)
    decreases |A| - p
  {
    if p < |A| {
      assert InstrOK(A, |A|, p);
      var i := A[p];
      if i.Jmp? {
        FollowedAt(env, A, p, r, None);
      } else if IsTest(i) {
        assert InstrOK(A, |A|, p + 1);
        JumpedAt(env, A, p + 2, r);
        FollowedAt(env, A, p + 1, Taken(i, r), Carried(i, r));
      } else if i.LoadNil? {
        JumpedAt(env, A, p + 1, ClearRegs(r, i.a, i.b));
      } else if !i.Return? {
        match InstrValue(env, i, r) {
          case Ok(v) => JumpedAt(env, A, p + Width(i), r[Dest(i) := v]);
          case Err(_) =>
        }
      }
    }
  }

  ghost predicate CarriedOK(A: seq<Instr>, x: Outcome)
    requires x.Jumped?
  {
    && (x.carried.Some? <==> Valued(A, x.at))
    && (x.carried.Some? ==> A[x.at - 1].a == NO_REG && x.carried.value == Get(x.regs, A[x.at - 1].b))
  }

  lemma {:induction false} FollowedAt(env: Env, A: seq<Instr>, j: int, r: Regs, w: Option<Value>)
    requires CodeOK(A, |A|)
    requires 0 <= j < |A| && A[j].Jmp?
    requires Open(A, j) ==> CarriedOK(A, Jumped(j, r, w))
    ensures var x := Follow(env, A, j, r, w);
      x.Jumped? ==> Open(A, x.at) && CarriedOK(A, x)
    decreases |A| - j, 0
  {
    assert InstrOK(A, |A|, j);
    if A[j] != Jmp(NO_JUMP) {
      JumpedAt(env, A, j + 1 + A[j].sbx, r);
    }
  }
}
