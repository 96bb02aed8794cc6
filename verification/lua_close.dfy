/**
 Closing an expression's patch lists (the end of exp2reg): every exit gets its value into the register.
 */
module LuaClose {
  import opened LuaVm
  import opened LuaGen
  import opened LuaPatch
  import opened LuaRun
  import opened LuaExp

  /** The lists `t` and `f` can be closed in state `s`. */
  ghost predicate ListsOK(s: FS, t: seq<int>, f: seq<int>, lo: int) {
    && ListOK(s.code, t, lo) && ListOK(s.code, f, lo)
    && Disjoint(t, f) && Disjoint(s.jpc, t) && Disjoint(s.jpc, f)
  }

  /** Where an exit goes: past everything if it carries a value, else to the LOADBOOL of its list. */
  function ExitTarget(code: seq<Instr>, t: seq<int>, n: int, pf: int, pt: int, j: int): int {
    if Valued(code, j) then n else if j in t then pt else pf
  }

  lemma PatchBoth(code: seq<Instr>, t: seq<int>, f: seq<int>, n: int, reg: int, pf: int, pt: int, i: int)
    requires forall j :: j in t || j in f ==> Open(code, j)
    requires Disjoint(t, f) && 0 <= i < |code|
    ensures var B := Patch(Patch(code, f, n, reg, pf), t, n, reg, pt);
      B[i] == if i in t || i in f then Jmp(ExitTarget(code, t, n, pf, pt, i) - (i + 1))
              else if (i + 1 in t || i + 1 in f) && code[i].TestSet? then PatchTest(code[i], reg)
              else code[i]
  {
    var A := Patch(code, f, n, reg, pf);
    assert A[i] == PatchedAt(code, f, n, reg, pf, i);
    assert Patch(A, t, n, reg, pt)[i] == PatchedAt(A, t, n, reg, pt, i);
    if i > 0 { assert A[i - 1] == PatchedAt(code, f, n, reg, pf, i - 1); }
    if i - 1 in f { assert Open(code, i - 1); }
  }

  /** `B` is the closed form of `A`: `n` is its end, `pf` and `pt` its LOADBOOLs. */
  ghost predicate ClosedCode(A: seq<Instr>, B: seq<Instr>, t: seq<int>, f: seq<int>, reg: int, n: int, pf: int,
      pt: int) {
    && |A| <= |B| == n
    && forall i :: 0 <= i < |A| ==> ClosedAt(A, B, t, f, reg, n, pf, pt, i)
  }

  ghost predicate ClosedAt(A: seq<Instr>, B: seq<Instr>, t: seq<int>, f: seq<int>, reg: int, n: int, pf: int, pt: int,
      i: int)
    requires 0 <= i < |A| <= |B|
  {
    B[i] == if i in t || i in f then Jmp(ExitTarget(A, t, n, pf, pt, i) - (i + 1))
            else if (i + 1 in t || i + 1 in f) && A[i].TestSet? then PatchTest(A[i], reg)
            else A[i]
  }

  /** The value an exit stands for. */
  function ExitValue(inT: bool, carried: Option<Value>): Value {
    match carried
    case Some(v) => v
    case None => Bool(inT)
  }

  /** The LOADBOOLs that the exits without a value need are there. */
  ghost predicate Landings(A: seq<Instr>, B: seq<Instr>, t: seq<int>, f: seq<int>, reg: int, pf: int, pt: int) {
    (NeedValue(A, t) || NeedValue(A, f)) ==>
      && |A| <= pf && pt == pf + 1 && |B| == pf + 2
      && B[pf] == LoadBool(reg, false, true) && B[pt] == LoadBool(reg, true, false)
  }

  lemma ClosedExtends(s: FS, B: seq<Instr>, t: seq<int>, f: seq<int>, reg: int, pf: int, pt: int)
    requires StateOK(s) && ListsOK(s, t, f, 0)
    requires ClosedCode(s.code, B, t, f, reg, |B|, pf, pt) && Landings(s.code, B, t, f, reg, pf, pt)
    ensures Extends(s.code, B)
  {
    var A := s.code;
    forall i | 0 <= i < |A| ensures PatchedOK(A, B, i) {
      assert ClosedAt(A, B, t, f, reg, |B|, pf, pt, i);
      assert InstrOK(A, s.lasttarget, i);
      if i in t || i in f { assert Open(A, i); }
      if i + 1 in t || i + 1 in f { assert Open(A, i + 1); }
    }
  }

  /** An exit in `t` or `f` leaves its value in `reg` at the end. */
  lemma ExitPuts(env: Env, s: FS, B: seq<Instr>, t: seq<int>, f: seq<int>, reg: int, pf: int, pt: int, x: Outcome)
    requires StateOK(s) && ListsOK(s, t, f, 0) && 0 <= reg < NO_REG
    requires ClosedCode(s.code, B, t, f, reg, |B|, pf, pt) && Landings(s.code, B, t, f, reg, pf, pt)
    requires x.Jumped? && Open(s.code, x.at) && CarriedOK(s.code, x) && (x.at in t || x.at in f)
    ensures Puts(After(env, s.code, B, x), Ok(ExitValue(x.at in t, x.carried)), x.regs, reg)
  {
    var A, j, r := s.code, x.at, x.regs;
    assert ClosedAt(A, B, t, f, reg, |B|, pf, pt, j);
    if x.carried.Some? {
      assert ClosedAt(A, B, t, f, reg, |B|, pf, pt, j - 1);
      assert !Open(A, j - 1);
      var q := if B[j - 1].TestSet? then r[reg := x.carried.value] else r;
      assert After(env, A, B, x) == Follow(env, B, j, q, None) == Exec(env, B, |B|, q) == Fall(q);
    } else {
      assert !Valued(A, j);
      var at := if j in t then pt else pf;
      assert NeedValue(A, t) || NeedValue(A, f);
      assert After(env, A, B, x) == Follow(env, B, j, r, None) == Exec(env, B, at, r);
      var q := r[reg := Bool(j in t)];
      assert Exec(env, B, at, r) == Exec(env, B, |B|, q) == Fall(q);
    }
  }

  /** A pending jump outside the two lists stays as it was. */
  lemma OthersStay(env: Env, s: FS, B: seq<Instr>, t: seq<int>, f: seq<int>, reg: int, pf: int, pt: int, x: Outcome)
    requires StateOK(s) && ListsOK(s, t, f, 0)
    requires ClosedCode(s.code, B, t, f, reg, |B|, pf, pt)
    requires x.Jumped? && Open(s.code, x.at) && CarriedOK(s.code, x) && x.at !in t && x.at !in f
    ensures After(env, s.code, B, x) == x
  {
    var A, j := s.code, x.at;
    assert ClosedAt(A, B, t, f, reg, |B|, pf, pt, j);
    if x.carried.Some? {
      assert ClosedAt(A, B, t, f, reg, |B|, pf, pt, j - 1);
      assert !Open(A, j - 1);
    }
  }

  lemma ClosedOK(s: FS, B: seq<Instr>, t: seq<int>, f: seq<int>, reg: int, pf: int, pt: int)
    requires StateOK(s) && ListsOK(s, t, f, 0) && 0 <= reg < NO_REG
    requires ClosedCode(s.code, B, t, f, reg, |B|, pf, pt) && Landings(s.code, B, t, f, reg, pf, pt)
    requires forall i :: |s.code| <= i < |B| ==> i == pf || i == pt || B[i] == Jmp(NO_JUMP)
    requires |s.code| < |B| ==> NeedValue(s.code, t) || NeedValue(s.code, f)
    ensures CodeOK(B, |B|)
    ensures forall j {:trigger Open(B, j)} :: Open(s.code, j) && j !in t && j !in f ==> Open(B, j)
  {
    var A := s.code;
    LastIsNoTest(A, s.lasttarget);
    forall k {:trigger Slot(B, k)} | Slot(B, k) ensures k < |A| && Slot(A, k) {
      if k - 1 < |A| { assert ClosedAt(A, B, t, f, reg, |B|, pf, pt, k - 1); }
    }
    forall j | Open(A, j) && j !in t && j !in f ensures Open(B, j) {
      assert ClosedAt(A, B, t, f, reg, |B|, pf, pt, j);
    }
    forall i | 0 <= i < |B| ensures InstrOK(B, |B|, i) {
      if i < |A| {
        assert InstrOK(A, s.lasttarget, i) && ClosedAt(A, B, t, f, reg, |B|, pf, pt, i);
        if i + 1 < |A| { assert ClosedAt(A, B, t, f, reg, |B|, pf, pt, i + 1); }
        if i in t || i in f { assert Open(A, i); }
        if (i in t || i in f) && !Valued(A, i) { assert NeedValue(A, t) || NeedValue(A, f); }
        if i + 1 in t || i + 1 in f { assert Open(A, i + 1); }
      }
    }
  }

  /** What closing does to a run. With `fallsIn`, falling through means the comparison failed. */
  ghost predicate ClosedRun(x: Outcome, t: seq<int>, f: seq<int>, reg: int, fallsIn: bool, y: Outcome) {
    match x
    case Fall(r) => y == Fall(if fallsIn then r[reg := Bool(false)] else r)
    case Jumped(j, r, w) => if j in t || j in f then Puts(y, Ok(ExitValue(j in t, w)), r, reg) else y == x
    case z => y == z
  }

  /** What closing the lists keeps and what it does to the runs. */
  ghost predicate Closes(c: Ctx, s: FS, t: seq<int>, f: seq<int>, reg: int, fallsIn: bool, s': FS) {
    && StateOK(s') && JpcFrom(s, s') && s'.freereg == s.freereg && |s.code| <= |s'.code|
    && (forall j {:trigger Open(s'.code, j)} :: Open(s.code, j) && j !in t && j !in f ==> Open(s'.code, j))
    && (Entry(c, s) ==> Entry(c, s') && ClosedRun(Run(c, s), t, f, reg, fallsIn, Run(c, s')))
  }

  lemma CloseRun(c: Ctx, s: FS, t: seq<int>, f: seq<int>, reg: int, fallsIn: bool)
    requires StateOK(s) && ListsOK(s, t, f, 0) && 0 <= reg < NO_REG
    requires fallsIn ==> s.jpc == [] && NeedValue(s.code, t)
    ensures Closes(c, s, t, f, reg, fallsIn, CloseLists(s, t, f, reg, fallsIn))
  {
    var pf, pt := ClosedShape(s, t, f, reg, fallsIn);
    ClosedState(c, s, CloseLists(s, t, f, reg, fallsIn), t, f, reg, fallsIn, pf, pt);
  }

  /** `s'` is `s` with its lists closed. */
  ghost predicate IsClosed(s: FS, s': FS, t: seq<int>, f: seq<int>, reg: int, fallsIn: bool, pf: int, pt: int) {
    && ClosedCode(s.code, s'.code, t, f, reg, |s'.code|, pf, pt) && Landings(s.code, s'.code, t, f, reg, pf, pt)
    && s'.code[|s.code|..] == (if NeedValue(s.code, t) || NeedValue(s.code, f) then Loads(reg, fallsIn) else [])
    && s' == s.(code := s'.code, lasttarget := |s'.code|,
                jpc := if |s.code| < |s'.code| && !fallsIn then [|s.code|] + s.jpc else s.jpc)
  }

  lemma ClosedState(c: Ctx, s: FS, s': FS, t: seq<int>, f: seq<int>, reg: int, fallsIn: bool, pf: int, pt: int)
    requires StateOK(s) && ListsOK(s, t, f, 0) && 0 <= reg < NO_REG
    requires fallsIn ==> s.jpc == [] && NeedValue(s.code, t)
    requires IsClosed(s, s', t, f, reg, fallsIn, pf, pt)
    ensures Closes(c, s, t, f, reg, fallsIn, s')
  {
    ClosedInvariant(s, s', t, f, reg, fallsIn, pf, pt);
    if Entry(c, s) {
      ClosedExec(c, s, s'.code, t, f, reg, fallsIn, pf, pt);
      ClosedEntry(c, s, s', t, f, reg, fallsIn, pf, pt);
      WeakenTarget(s.code, s.lasttarget, |s.code|);
      JumpedAt(c.env, s.code, c.p, c.r);
      assert forall j :: j < |s.code| ==> (j in s'.jpc <==> j in s.jpc);
    }
  }

  lemma ClosedEntry(c: Ctx, s: FS, s': FS, t: seq<int>, f: seq<int>, reg: int, fallsIn: bool, pf: int, pt: int)
    requires Entry(c, s) && IsClosed(s, s', t, f, reg, fallsIn, pf, pt)
    ensures Entry(c, s')
  {
    if 0 < c.p { assert ClosedAt(s.code, s'.code, t, f, reg, |s'.code|, pf, pt, c.p - 1); }
  }

  lemma ClosedInvariant(s: FS, s': FS, t: seq<int>, f: seq<int>, reg: int, fallsIn: bool, pf: int, pt: int)
    requires StateOK(s) && ListsOK(s, t, f, 0) && 0 <= reg < NO_REG
    requires IsClosed(s, s', t, f, reg, fallsIn, pf, pt)
    ensures StateOK(s') && JpcFrom(s, s') && |s.code| <= |s'.code|
    ensures forall j {:trigger Open(s'.code, j)} :: Open(s.code, j) && j !in t && j !in f ==> Open(s'.code, j)
  {
    var A, B := s.code, s'.code;
    forall i | |A| <= i < |B| ensures i == pf || i == pt || B[i] == Jmp(NO_JUMP) {
      assert B[i] == B[|A|..][i - |A|];
    }
    ClosedOK(s, B, t, f, reg, pf, pt);
    if |A| < |B| && !fallsIn {
      NoDupConcat([|A|], s.jpc);
      assert B[|A|] == B[|A|..][0];
    }
    assert ListOK(B, s'.jpc, 0);
  }

  /** How the closed code runs, before `jpc` is looked at. */
  lemma ClosedExec(c: Ctx, s: FS, B: seq<Instr>, t: seq<int>, f: seq<int>, reg: int, fallsIn: bool, pf: int, pt: int)
    requires StateOK(s) && ListsOK(s, t, f, 0) && 0 <= reg < NO_REG && Entry(c, s)
    requires ClosedCode(s.code, B, t, f, reg, |B|, pf, pt) && Landings(s.code, B, t, f, reg, pf, pt)
    requires B[|s.code|..] == if NeedValue(s.code, t) || NeedValue(s.code, f) then Loads(reg, fallsIn) else []
    ensures var x, y := Exec(c.env, s.code, c.p, c.r), Exec(c.env, B, c.p, c.r);
      match x
      case Fall(r) =>
        y == if |B| == |s.code| then Fall(r)
             else if fallsIn then Fall(r[reg := Bool(false)])
             else Jumped(|s.code|, r, None)
      case Jumped(j, r, w) => if j in t || j in f then Puts(y, Ok(ExitValue(j in t, w)), r, reg) else y == x
      case z => y == z
  {
    var A := s.code;
    WeakenTarget(A, s.lasttarget, |A|);
    ClosedExtends(s, B, t, f, reg, pf, pt);
    Resume(c.env, A, B, c.p, c.r);
    JumpedAt(c.env, A, c.p, c.r);
    var x := Exec(c.env, A, c.p, c.r);
    match x {
      case Fall(r) => FallsThrough(c.env, A, B, reg, fallsIn, r);
      case Jumped(j, r, w) =>
        if j in t || j in f { ExitPuts(c.env, s, B, t, f, reg, pf, pt, x); }
        else { OthersStay(c.env, s, B, t, f, reg, pf, pt, x); }
      case _ =>
    }
  }

  lemma FallsThrough(env: Env, A: seq<Instr>, B: seq<Instr>, reg: int, fallsIn: bool, r: Regs)
    requires |A| <= |B| && (|B| == |A| || B[|A|..] == Loads(reg, fallsIn))
    ensures Exec(env, B, |A|, r) ==
      if |B| == |A| then Fall(r) else if fallsIn then Fall(r[reg := Bool(false)]) else Jumped(|A|, r, None)
  {
    if |A| < |B| { assert B[|A|] == B[|A|..][0]; }
  }

  /** The code that LoadBools adds. */
  function Loads(reg: int, fallsIn: bool): seq<Instr> {
    (if fallsIn then [] else [Jmp(NO_JUMP)]) + [LoadBool(reg, false, true), LoadBool(reg, true, false)]
  }

  lemma LoadBoolsShape(s: FS, reg: int, fallsIn: bool)
    requires fallsIn ==> s.jpc == []
    ensures var (s4, pf, pt) := LoadBools(s, reg, fallsIn);
      var n := |s.code| + |Loads(reg, fallsIn)|;
      && s4 == s.(code := s.code + Loads(reg, fallsIn), lasttarget := n,
                  jpc := if fallsIn then s.jpc else [|s.code|] + s.jpc)
      && pf == n - 2 && pt == n - 1
  {
    var (s2, fj) := if fallsIn then (s, []) else Jump(s);
    DischargeNothing(GetLabel(s2));
    var s3 := Code(GetLabel(s2), LoadBool(reg, false, true));
    DischargeNothing(GetLabel(s3));
    var s4 := Code(GetLabel(s3), LoadBool(reg, true, false));
    assert s4.code == s.code + Loads(reg, fallsIn);
  }

  /** The code before the lists are patched, and the places of its LOADBOOLs. */
  function Extended(A: seq<Instr>, need: bool, reg: int, fallsIn: bool): seq<Instr> {
    A + if need then Loads(reg, fallsIn) else []
  }

  lemma CloseListsIs(s: FS, t: seq<int>, f: seq<int>, reg: int, fallsIn: bool)
    requires fallsIn ==> s.jpc == []
    ensures var need := NeedValue(s.code, t) || NeedValue(s.code, f);
      var C := Extended(s.code, need, reg, fallsIn);
      var pf, pt := if need then |C| - 2 else NO_JUMP, if need then |C| - 1 else NO_JUMP;
      CloseLists(s, t, f, reg, fallsIn)
      == s.(code := Patch(Patch(C, f, |C|, reg, pf), t, |C|, reg, pt), lasttarget := |C|,
            jpc := if need && !fallsIn then [|s.code|] + s.jpc else s.jpc)
  {
    hide Patch, NeedValue, LoadBools, Loads;
    LoadBoolsShape(s, reg, fallsIn);
    assert s.code + [] == s.code;
  }

  /** The code that CloseLists builds. */
  lemma ClosedShape(s: FS, t: seq<int>, f: seq<int>, reg: int, fallsIn: bool) returns (pf: int, pt: int)
    requires ListsOK(s, t, f, 0)
    requires fallsIn ==> s.jpc == []
    ensures var s' := CloseLists(s, t, f, reg, fallsIn);
      var A, B := s.code, s'.code;
      var need := NeedValue(A, t) || NeedValue(A, f);
      && ClosedCode(A, B, t, f, reg, |B|, pf, pt) && Landings(A, B, t, f, reg, pf, pt)
      && B[|A|..] == (if need then Loads(reg, fallsIn) else [])
      && s' == s.(code := B, lasttarget := |B|, jpc := if need && !fallsIn then [|A|] + s.jpc else s.jpc)
  {
    hide CloseLists, Patch, NeedValue, ClosedCode;
    var A := s.code;
    var need := NeedValue(A, t) || NeedValue(A, f);
    CloseListsIs(s, t, f, reg, fallsIn);
    var C := Extended(A, need, reg, fallsIn);
    pf, pt := if need then |C| - 2 else NO_JUMP, if need then |C| - 1 else NO_JUMP;
    PatchedShape(A, C, t, f, reg, pf, pt);
    assert CloseLists(s, t, f, reg, fallsIn).code[|A|..] == C[|A|..];
  }

  lemma PatchedShape(A: seq<Instr>, C: seq<Instr>, t: seq<int>, f: seq<int>, reg: int, pf: int, pt: int)
    requires A <= C && Disjoint(t, f)
    requires forall j :: j in t || j in f ==> Open(A, j)
    ensures var B := Patch(Patch(C, f, |C|, reg, pf), t, |C|, reg, pt);
      ClosedCode(A, B, t, f, reg, |B|, pf, pt) && forall i :: |A| <= i < |C| ==> B[i] == C[i]
  {
    forall j | j in t || j in f ensures Open(C, j) { assert Open(A, j); }
    var B := Patch(Patch(C, f, |C|, reg, pf), t, |C|, reg, pt);
    forall i | 0 <= i < |C|
      ensures i < |A| ==> ClosedAt(A, B, t, f, reg, |B|, pf, pt, i)
      ensures i >= |A| ==> B[i] == C[i]
    {
      PatchBoth(C, t, f, |C|, reg, pf, pt, i);
      if i + 1 in t || i + 1 in f { assert Open(A, i + 1); }
    }
  }
}
