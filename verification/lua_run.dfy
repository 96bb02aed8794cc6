/**
 What one step of the generator does to the runs of the code emitted so far.
 */
module LuaRun {
  import opened LuaVm
  import opened LuaGen
  import opened LuaPatch

  ghost predicate NoDup(l: seq<int>) { forall i, j :: 0 <= i < j < |l| ==> l[i] != l[j] }

  ghost predicate Disjoint(a: seq<int>, b: seq<int>) { forall j :: j in a ==> j !in b }

  /** A jump list whose members are pending jumps at or after `lo`. */
  ghost predicate ListOK(code: seq<Instr>, l: seq<int>, lo: int) {
    NoDup(l) && forall j :: j in l ==> lo <= j && Open(code, j)
  }

  ghost predicate RegsOK(s: FS) { 0 <= s.nactvar <= s.freereg <= s.maxstack }

  /** Holds in every generator state. Its third line is why luaK_nil never merges over a jump target. */
  ghost predicate StateOK(s: FS) {
    && CodeOK(s.code, s.lasttarget)
    && ListOK(s.code, s.jpc, 0)
    && (s.jpc != [] ==> s.lasttarget == |s.code|)
    && RegsOK(s)
    && ConstsOK(s.k, s.h)
  }

  /** What may be stored under a key. A zero or NaN is stored under its bytes, which may also be a string constant. */
  ghost predicate Fits(key: Key, v: Value) {
    match key
    case Self => v == Nil
    case Of(w) =>
      || (w == v && (v.Number? ==> !IsZero(v.n) && v.n != NaN))
      || (v.Number? && (IsZero(v.n) || v.n == NaN) && w == String(RawBytes(v.n)))
  }

  ghost predicate ConstsOK(k: seq<Value>, h: map<Key, int>) {
    forall key :: key in h ==> 0 <= h[key] < |k| && Fits(key, k[h[key]])
  }

  /** A run to observe: the machine, where it starts, and with which registers. */
  datatype Ctx = Ctx(env: Env, p: int, r: Regs)

  ghost predicate Entry(c: Ctx, s: FS) {
    0 <= c.p <= |s.code| && (c.p == |s.code| ==> s.lasttarget == |s.code|) && !Slot(s.code, c.p)
  }

  /** Running the code of `s`; a jump waiting in `jpc` counts as arriving at the end. */
  ghost function Run(c: Ctx, s: FS): Outcome {
    match Exec(c.env, s.code, c.p, c.r)
    case Jumped(j, r, w) => if j in s.jpc then Fall(r) else Jumped(j, r, w)
    case Fall(r) => Fall(r)
    case x => x
  }

  /** Jumps that are pending and not on their way to the next instruction stay pending. */
  ghost predicate Keeps(s: FS, s': FS) {
    forall j {:trigger Open(s'.code, j)} {:trigger Open(s.code, j)} ::
      Open(s.code, j) && j !in s.jpc ==> Open(s'.code, j)
  }

  ghost predicate JpcFrom(s: FS, s': FS) {
    forall j :: j in s'.jpc ==> j in s.jpc || |s.code| <= j
  }

  lemma WeakenTarget(code: seq<Instr>, lt: int, lt': int)
    requires CodeOK(code, lt) && lt <= lt' <= |code|
    ensures CodeOK(code, lt')
  {
    forall i | 0 <= i < |code| ensures InstrOK(code, lt', i) { assert InstrOK(code, lt, i); }
  }

  lemma LastIsNoTest(code: seq<Instr>, lt: int)
    requires CodeOK(code, lt)
    ensures !Slot(code, |code|)
  {
    if 0 < |code| { assert InstrOK(code, lt, |code| - 1); }
  }

  // ---------- discharging jpc ----------

  lemma DischargedExtends(s: FS, tail: seq<Instr>)
    requires StateOK(s)
    ensures Extends(s.code, Discharged(s) + tail)
  {
    var A, B := s.code, Discharged(s) + tail;
    forall i | 0 <= i < |A| ensures PatchedOK(A, B, i) {
      assert B[i] == PatchedAt(A, s.jpc, |A|, NO_REG, |A|, i);
      assert InstrOK(A, s.lasttarget, i);
      if i in s.jpc { assert Open(A, i); }
      if i + 1 in s.jpc { assert Open(A, i + 1); }
    }
  }

  /** Whatever is emitted next, the jumps waiting in `jpc` arrive at it. */
  lemma Continue(c: Ctx, s: FS, tail: seq<Instr>)
    requires StateOK(s) && Entry(c, s)
    ensures Exec(c.env, Discharged(s) + tail, c.p, c.r) ==
      match Run(c, s)
      case Fall(r) => Exec(c.env, Discharged(s) + tail, |s.code|, r)
      case x => x
  {
    var A, B := s.code, Discharged(s) + tail;
    DischargedExtends(s, tail);
    WeakenTarget(A, s.lasttarget, |A|);
    Resume(c.env, A, B, c.p, c.r);
    JumpedAt(c.env, A, c.p, c.r);
    var x := Exec(c.env, A, c.p, c.r);
    if x.Jumped? {
      var j := x.at;
      assert B[j] == PatchedAt(A, s.jpc, |A|, NO_REG, |A|, j);
      if j > 0 {
        assert B[j - 1] == PatchedAt(A, s.jpc, |A|, NO_REG, |A|, j - 1);
        if j - 1 in s.jpc { assert Open(A, j - 1); }
      }
    }
  }

  /** The code after discharging: the invariant still holds, with the end of the old code as a label. */
  lemma DischargedOK(s: FS, tail: seq<Instr>, lt: int)
    requires StateOK(s)
    requires s.lasttarget <= lt <= |s.code| + |tail|
    requires s.jpc != [] ==> lt >= |s.code|
    requires forall i :: |s.code| <= i < |s.code| + |tail| ==> InstrOK(Discharged(s) + tail, lt, i)
    ensures CodeOK(Discharged(s) + tail, lt)
  {
    var A, B := s.code, Discharged(s) + tail;
    LastIsNoTest(A, s.lasttarget);
    forall i | 0 <= i < |B| ensures InstrOK(B, lt, i) {
      if i < |A| {
        assert InstrOK(A, s.lasttarget, i);
        assert B[i] == PatchedAt(A, s.jpc, |A|, NO_REG, |A|, i);
        if i + 1 < |A| { assert B[i + 1] == PatchedAt(A, s.jpc, |A|, NO_REG, |A|, i + 1); }
        SameSlots(s, tail);
      }
    }
  }

  lemma SameSlots(s: FS, tail: seq<Instr>)
    requires StateOK(s)
    ensures forall t {:trigger Slot(Discharged(s) + tail, t)} :: t <= |s.code| && Slot(Discharged(s) + tail, t) ==>
      Slot(s.code, t)
    ensures forall j {:trigger Open(Discharged(s) + tail, j)} :: Open(s.code, j) && j !in s.jpc ==>
      Open(Discharged(s) + tail, j)
  {
    var A, B := s.code, Discharged(s) + tail;
    forall t | 1 <= t <= |A| && Slot(B, t) ensures Slot(A, t) {
      assert B[t - 1] == PatchedAt(A, s.jpc, |A|, NO_REG, |A|, t - 1);
    }
    forall j | Open(A, j) && j !in s.jpc ensures Open(B, j) {
      assert B[j] == PatchedAt(A, s.jpc, |A|, NO_REG, |A|, j);
    }
  }

  // ---------- emitting instructions ----------

  /** One straight-line instruction after a run. */
  ghost function Then(env: Env, x: Outcome, i: Instr): Outcome {
    match x
    case Fall(r) =>
      if i.LoadNil? then Fall(ClearRegs(r, i.a, i.b))
      else if i.Return? then Returned(r)
      else (match InstrValue(env, i, r)
            case Ok(v) => Fall(r[Dest(i) := v])
            case Err(msg) => Failed(msg))
    case y => y
  }

  predicate Straight(i: Instr) { (i.LoadNil? && i.b >= 0) || i.Return? || IsValueInstr(i) }

  /** luaK_code with a straight-line instruction: it runs after everything before, and every jump
      waiting for it arrives at it. */
  lemma CodeRun(c: Ctx, s: FS, i: Instr)
    requires StateOK(s) && Straight(i)
    ensures StateOK(Code(s, i)) && Keeps(s, Code(s, i))
    ensures Entry(c, s) ==> Entry(c, Code(s, i)) && Run(c, Code(s, i)) == Then(c.env, Run(c, s), i)
  {
    var s' := Code(s, i);
    var n := |s.code|;
    assert s'.code == Discharged(s) + [i];
    assert s'.code[n] == i;
    LastIsNoTest(s.code, s.lasttarget);
    DischargedOK(s, [i], s.lasttarget);
    SameSlots(s, [i]);
    if Entry(c, s) {
      Continue(c, s, [i]);
      match Run(c, s) {
        case Fall(r) => OneStep(c.env, s'.code, n, r);
        case _ =>
      }
    }
  }

  lemma OneStep(env: Env, code: seq<Instr>, n: int, r: Regs)
    requires n == |code| - 1 >= 0 && Straight(code[n])
    ensures Exec(env, code, n, r) == Then(env, Fall(r), code[n])
  {}

  /** How a test with its pending jump at `j` leaves a run. */
  ghost function Tested(env: Env, x: Outcome, i: Instr, j: int): Outcome {
    match x
    case Fall(r) =>
      (match TestResult(env, i, r)
       case Err(msg) => Failed(msg)
       case Ok(false) => Fall(r)
       case Ok(true) => Jumped(j, r, if i.TestSet? then Some(Get(r, i.b)) else None))
    case y => y
  }

  lemma TestStep(env: Env, code: seq<Instr>, n: int, r: Regs)
    requires n == |code| - 2 >= 0 && IsTest(code[n]) && (code[n].TestSet? ==> code[n].a == NO_REG) && Open(code, n + 1)
    ensures Exec(env, code, n, r) == Tested(env, Fall(r), code[n], n + 1)
  {
    var carried := if code[n].TestSet? then Some(Get(r, code[n].b)) else None;
    assert Exec(env, code, n, r) == Branch(env, code, n, r, r, carried);
    assert Exec(env, code, n + 2, r) == Fall(r);
    assert Follow(env, code, n + 1, r, carried) == Jumped(n + 1, r, carried);
  }

  /** condjump: the new jump is taken exactly when the test says so. */
  lemma CondJumpRun(c: Ctx, s: FS, i: Instr)
    requires StateOK(s) && IsTest(i) && (i.TestSet? ==> i.a == NO_REG)
    ensures var (s', l) := CondJump(s, i);
      && StateOK(s') && Keeps(s, s') && s'.jpc == [] && |s'.code| == |s.code| + 2 && s'.lasttarget <= |s.code|
      && l == [|s.code| + 1] && s'.code[|s.code|] == i && Open(s'.code, |s.code| + 1)
      && s'.code[..|s.code|] == Discharged(s)
      && (Entry(c, s) ==> Entry(c, s') && Run(c, s') == Tested(c.env, Run(c, s), i, |s.code| + 1))
  {
    hide Exec, ConstsOK, TestResult, Patch;
    var (s', l) := CondJump(s, i);
    var n := |s.code|;
    var tail := [i, Jmp(NO_JUMP)];
    assert s'.code == Discharged(s) + tail;
    assert s'.code[n] == i && s'.code[n + 1] == Jmp(NO_JUMP);
    LastIsNoTest(s.code, s.lasttarget);
    DischargedOK(s, tail, s.lasttarget);
    SameSlots(s, tail);
    if Entry(c, s) { TailRun(c, s, i, tail); }
  }

  lemma TailRun(c: Ctx, s: FS, i: Instr, tail: seq<Instr>)
    requires StateOK(s) && Entry(c, s) && IsTest(i) && (i.TestSet? ==> i.a == NO_REG) && tail == [i, Jmp(NO_JUMP)]
    ensures Exec(c.env, Discharged(s) + tail, c.p, c.r) == Tested(c.env, Run(c, s), i, |s.code| + 1)
  {
    hide Exec, StateOK, TestResult, Patch;
    Continue(c, s, tail);
    match Run(c, s) {
      case Fall(r) => TestStep(c.env, Discharged(s) + tail, |s.code|, r);
      case _ =>
    }
  }

  // ---------- pending jumps ----------

  /** A run once the jumps of `list` count as arrivals. */
  ghost function Arrive(x: Outcome, list: seq<int>): Outcome {
    match x
    case Jumped(j, r, w) => if j in list then Fall(r) else x
    case Fall(r) => x
    case y => y
  }

  lemma NoDupConcat(a: seq<int>, b: seq<int>)
    requires NoDup(a) && NoDup(b) && Disjoint(a, b)
    ensures NoDup(a + b)
    ensures forall j :: j in a + b <==> j in a || j in b
  {
    forall i, j | 0 <= i < j < |a + b| ensures (a + b)[i] != (a + b)[j] {
      if i < |a| && j >= |a| { assert a[i] in a && b[j - |a|] in b; }
    }
  }

  /** luaK_patchtohere: every jump given to it arrives at the next instruction emitted. */
  lemma PatchToHereRun(c: Ctx, s: FS, list: seq<int>)
    requires StateOK(s) && ListOK(s.code, list, 0) && Disjoint(s.jpc, list)
    ensures var s' := PatchToHere(s, list);
      StateOK(s') && (Entry(c, s) ==> Entry(c, s') && Run(c, s') == Arrive(Run(c, s), list))
  {
    WeakenTarget(s.code, s.lasttarget, |s.code|);
    NoDupConcat(s.jpc, list);
  }

  // ---------- LOADNIL ----------

  /** `j` clears what `i` and then LOADNIL a b clear. */
  ghost predicate Merges(i: Instr, a: int, b: int, j: Instr) {
    && i.LoadNil? && i.b >= 0 && b >= 0 && Connects(i.a, i.a + i.b, a, a + b)
    && j == LoadNil(Min(i.a, a), Max(i.a + i.b, a + b) - Min(i.a, a))
  }

  lemma MergedClears(i: Instr, a: int, b: int, j: Instr, r: Regs)
    requires Merges(i, a, b, j)
    ensures ClearRegs(r, j.a, j.b) == ClearRegs(ClearRegs(r, i.a, i.b), a, b)
  {
  }

  /** `B` is `A` with its final LOADNIL replaced by one that also clears a..a+b, and no label is past it. */
  ghost predicate MergedCode(A: seq<Instr>, lt: int, B: seq<Instr>, a: int, b: int) {
    && CodeOK(A, lt) && lt < |A| && |B| == |A|
    && B == A[|A| - 1 := B[|A| - 1]]
    && Merges(A[|A| - 1], a, b, B[|A| - 1])
  }

  ghost function ThenClear(x: Outcome, a: int, b: int): Outcome {
    match x
    case Fall(q) => Fall(ClearRegs(q, a, b))
    case y => y
  }

  lemma LastMerged(env: Env, A: seq<Instr>, B: seq<Instr>, r: Regs, a: int, b: int)
    requires |A| == |B| > 0 && Merges(A[|A| - 1], a, b, B[|A| - 1])
    ensures Exec(env, B, |A| - 1, r) == ThenClear(Exec(env, A, |A| - 1, r), a, b)
  {
    hide Exec;
    var p := |A| - 1;
    MergedClears(A[p], a, b, B[p], r);
    OneStep(env, A, p, r);
    OneStep(env, B, p, r);
  }

  lemma {:induction false} MergedRun(env: Env, A: seq<Instr>, lt: int, B: seq<Instr>, p: int, r: Regs, a: int, b: int)
    requires MergedCode(A, lt, B, a, b) && 0 <= p < |A|
    ensures Exec(env, B, p, r) == ThenClear(Exec(env, A, p, r), a, b)
    decreases |A| - p, 1
  {
    hide Grows, InstrValue, TestResult;
    assert InstrOK(A, lt, p);
    var i := A[p];
    if p == |A| - 1 {
      LastMerged(env, A, B, r, a, b);
    } else if i.Jmp? {
      MergedFollow(env, A, lt, B, p, r, None, a, b);
    } else if IsTest(i) {
      assert InstrOK(A, lt, p + 1);
      MergedRun(env, A, lt, B, p + 2, r, a, b);
      MergedFollow(env, A, lt, B, p + 1, Taken(i, r), Carried(i, r), a, b);
    } else if i.LoadNil? {
      MergedRun(env, A, lt, B, p + 1, ClearRegs(r, i.a, i.b), a, b);
    } else if !i.Return? {
      match InstrValue(env, i, r) {
        case Ok(v) => MergedRun(env, A, lt, B, p + Width(i), r[Dest(i) := v], a, b);
        case Err(_) =>
      }
    }
  }

  lemma {:induction false} MergedFollow(env: Env, A: seq<Instr>, lt: int, B: seq<Instr>, j: int, r: Regs,
      w: Option<Value>, a: int, b: int)
    requires MergedCode(A, lt, B, a, b) && 0 <= j < |A| && A[j].Jmp?
    ensures Follow(env, B, j, r, w) == ThenClear(Follow(env, A, j, r, w), a, b)
    decreases |A| - j, 0
  {
    assert InstrOK(A, lt, j);
    if A[j] != Jmp(NO_JUMP) {
      MergedRun(env, A, lt, B, j + 1 + A[j].sbx, r, a, b);
    }
  }

  /** luaK_nil: merged into the instruction before or not, it clears the same registers. */
  lemma CodeNilRun(c: Ctx, s: FS, from: int, n: int)
    requires StateOK(s) && n >= 1
    ensures StateOK(CodeNil(s, from, n)) && Keeps(s, CodeNil(s, from, n))
    ensures Entry(c, s) ==>
      Entry(c, CodeNil(s, from, n)) && Run(c, CodeNil(s, from, n)) == Then(c.env, Run(c, s), LoadNil(from, n - 1))
  {
    hide Exec, Code, Discharged, ConstsOK;
    CodeRun(c, s, LoadNil(from, n - 1));
    if CodeNil(s, from, n) != Code(s, LoadNil(from, n - 1)) { MergedNilRun(c, s, from, n); }
  }

  /** The case that the instruction before is a LOADNIL that the new one is merged into. */
  lemma MergedNilRun(c: Ctx, s: FS, from: int, n: int)
    requires StateOK(s) && n >= 1 && CodeNil(s, from, n) != Code(s, LoadNil(from, n - 1))
    ensures StateOK(CodeNil(s, from, n)) && Keeps(s, CodeNil(s, from, n))
    ensures Entry(c, s) ==>
      Entry(c, CodeNil(s, from, n)) && Run(c, CodeNil(s, from, n)) == Then(c.env, Run(c, s), LoadNil(from, n - 1))
  {
    hide Exec, Code, Discharged, ConstsOK;
    var s' := CodeNil(s, from, n);
    var A, B := s.code, s'.code;
    assert InstrOK(A, s.lasttarget, |A| - 1);
    forall i | 0 <= i < |A| ensures InstrOK(B, s.lasttarget, i) {
      assert InstrOK(A, s.lasttarget, i);
    }
    if Entry(c, s) {
      MergedRun(c.env, A, s.lasttarget, B, c.p, c.r, from, n - 1);
    }
  }

  // ---------- constants ----------

  lemma BytesTellZerosApart(a: Num, b: Num)
    requires (IsZero(a) || a == NaN) && (IsZero(b) || b == NaN) && RawBytes(a) == RawBytes(b)
    ensures a == b
  {
    assert RawBytes(a)[7] == RawBytes(b)[7] && RawBytes(a)[6] == RawBytes(b)[6];
  }

  /** addk: the index returned holds exactly the value asked for, even between 0, -0 and
      string constants with the same bytes. */
  lemma AddKFinds(s: FS, key: Key, v: Value)
    requires ConstsOK(s.k, s.h) && Fits(key, v)
    ensures var (s', i) := AddK(s, key, v);
      ConstsOK(s'.k, s'.h) && 0 <= i < |s'.k| && s'.k[i] == v
  {
    if key in s.h && RawEqual(s.k[s.h[key]], v) {
      var w := s.k[s.h[key]];
      if w.Number? && (IsZero(w.n) || w.n == NaN) { BytesTellZerosApart(w.n, v.n); }
    }
  }
}
