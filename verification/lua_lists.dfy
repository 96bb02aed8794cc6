/**
 Jump lists threaded through the operands of the jumps, against code that marks pending jumps.
 */
module LuaLists {
  import opened LuaVm
  import opened LuaGen
  import opened LuaPatch
  import opened LuaRun

  /** getjump: the next element of the list, or NO_JUMP. */
  function Link(code: seq<Instr>, j: int): int
    requires 0 <= j < |code| && code[j].Jmp?
  {
    if code[j].sbx == NO_JUMP then NO_JUMP else j + 1 + code[j].sbx
  }

  function Head(l: seq<int>): int { if l == [] then NO_JUMP else l[0] }

  /** Starting at `head`, the links spell out exactly `l`. */
  ghost predicate Chain(code: seq<Instr>, head: int, l: seq<int>)
    decreases l
  {
    head == Head(l) &&
    (l != [] ==> 0 <= head < |code| && code[head].Jmp? && Chain(code, Link(code, head), l[1..]))
  }

  /** `code` is the code `A` with its pending jumps threaded into the lists of `live`: finite,
      duplicate-free, pairwise disjoint chains that hold every pending jump. */
  ghost predicate Linked(code: seq<Instr>, A: seq<Instr>, live: set<seq<int>>) {
    && |code| == |A|
    && (forall i :: 0 <= i < |A| ==> if A[i] == Jmp(NO_JUMP) then code[i].Jmp? else code[i] == A[i])
    && (forall l :: l in live ==> l != [] && NoDup(l) && Chain(code, Head(l), l))
    && (forall l, q :: l in live && q in live && l != q ==> Disjoint(l, q))
    && (forall j :: Open(A, j) <==> InSome(live, j))
  }

  ghost predicate InSome(live: set<seq<int>>, j: int) { exists l :: l in live && j in l }

  lemma {:induction false} ChainMembers(code: seq<Instr>, l: seq<int>)
    requires Chain(code, Head(l), l)
    ensures forall j :: j in l ==> 0 <= j < |code| && code[j].Jmp?
  {
    if l != [] {
      ChainMembers(code, l[1..]);
      assert l == [l[0]] + l[1..];
    }
  }

  /** A chain depends on its own members only. */
  lemma {:induction false} ChainFrame(code: seq<Instr>, code': seq<Instr>, l: seq<int>)
    requires Chain(code, Head(l), l)
    requires |code| <= |code'| || forall j :: j in l ==> j < |code'|
    requires forall j :: j in l && 0 <= j < |code| && j < |code'| ==> code'[j] == code[j]
    ensures Chain(code', Head(l), l)
  {
    if l != [] {
      assert l[0] in l && forall j :: j in l[1..] ==> j in l;
      ChainFrame(code, code', l[1..]);
    }
  }

  /** The elements of a chain from position `i` on form a chain. */
  lemma {:induction false} ChainFrom(code: seq<Instr>, l: seq<int>, i: nat)
    requires Chain(code, Head(l), l) && i <= |l|
    ensures Chain(code, Head(l[i..]), l[i..])
    ensures i < |l| ==> 0 <= l[i] < |code| && code[l[i]].Jmp? && Link(code, l[i]) == Head(l[i + 1..])
  {
    if i > 0 {
      ChainFrom(code, l[1..], i - 1);
      assert l[1..][i - 1..] == l[i..];
      if i < |l| { assert l[1..][i..] == l[i + 1..]; }
    }
  }

  /** Linking the last element of one chain to the head of another joins them. */
  lemma {:induction false} ChainJoin(code: seq<Instr>, l: seq<int>, q: seq<int>)
    requires l != [] && q != [] && Chain(code, Head(l), l) && Chain(code, Head(q), q)
    requires NoDup(l) && Disjoint(l, q)
    ensures var z := l[|l| - 1];
      0 <= z < |code| && Chain(code[z := Jmp(q[0] - (z + 1))], Head(l + q), l + q)
  {
    var z := l[|l| - 1];
    ChainFrom(code, l, |l| - 1);
    var code' := code[z := Jmp(q[0] - (z + 1))];
    assert z in l && q[0] in q;
    if |l| == 1 {
      ChainFrame(code, code', q);
      assert (l + q)[1..] == q;
    } else {
      ChainJoin(code, l[1..], q);
      assert (l + q)[1..] == l[1..] + q;
    }
  }

  // ---------- what the primitive operations do to the lists ----------

  ghost function With(live: set<seq<int>>, l: seq<int>): set<seq<int>> { if l == [] then live else live + {l} }

  /** Patching acts alike on the threaded and on the marked code. */
  lemma PatchedAlike(code: seq<Instr>, A: seq<Instr>, l: seq<int>, vt: int, reg: int, dt: int)
    requires |code| == |A|
    requires forall i :: 0 <= i < |A| ==> if A[i] == Jmp(NO_JUMP) then code[i].Jmp? else code[i] == A[i]
    requires forall j :: j in l ==> Open(A, j) && vt != j && dt != j
    ensures var C, B := Patch(code, l, vt, reg, dt), Patch(A, l, vt, reg, dt);
      && (forall i :: 0 <= i < |A| ==> if B[i] == Jmp(NO_JUMP) then C[i].Jmp? else C[i] == B[i])
      && (forall i :: 0 <= i < |A| && code[i].Jmp? && i !in l ==> C[i] == code[i])
      && (forall i {:trigger B[i]} {:trigger A[i]} :: 0 <= i < |A| ==>
        (B[i] == Jmp(NO_JUMP) <==> A[i] == Jmp(NO_JUMP) && i !in l))
  {
    var C, B := Patch(code, l, vt, reg, dt), Patch(A, l, vt, reg, dt);
    forall i | 0 <= i < |A|
      ensures C[i] == PatchedAt(code, l, vt, reg, dt, i) && B[i] == PatchedAt(A, l, vt, reg, dt, i)
    {
    }
  }

  /** patchlistaux on a live list resolves its jumps and touches no other list. */
  lemma LinkedPatch(code: seq<Instr>, A: seq<Instr>, live: set<seq<int>>, l: seq<int>, vt: int, reg: int, dt: int)
    requires Linked(code, A, live) && (l == [] || l in live)
    requires forall j :: j in l ==> vt != j && dt != j
    ensures Linked(Patch(code, l, vt, reg, dt), Patch(A, l, vt, reg, dt), live - {l})
  {
    hide Patch;
    var C, B := Patch(code, l, vt, reg, dt), Patch(A, l, vt, reg, dt);
    var live' := live - {l};
    forall j | j in l ensures Open(A, j) { assert InSome(live, j); }
    PatchedAlike(code, A, l, vt, reg, dt);
    forall q | q in live' ensures Chain(C, Head(q), q) {
      ChainMembers(code, q);
      ChainFrame(code, C, q);
    }
    hide Chain;
    SomeLess(live, l);
    forall j ensures Open(B, j) <==> InSome(live', j) {
      assert Open(B, j) <==> Open(A, j) && j !in l;
      assert Open(A, j) <==> InSome(live, j);
    }
  }

  /** Without one of the lists, its members are in none. */
  lemma SomeLess(live: set<seq<int>>, l: seq<int>)
    requires l == [] || l in live
    requires forall p, q :: p in live && q in live && p != q ==> Disjoint(p, q)
    ensures forall j :: InSome(live - {l}, j) <==> InSome(live, j) && j !in l
  {
    forall j ensures InSome(live - {l}, j) <==> InSome(live, j) && j !in l {
      if InSome(live - {l}, j) {
        var q :| q in live - {l} && j in q;
        assert q in live && (l in live ==> Disjoint(q, l));
      }
      if InSome(live, j) && j !in l {
        var q :| q in live && j in q;
        assert q in live - {l};
      }
    }
  }

  /** Emitting an instruction that is no pending jump. */
  lemma LinkedAppend(code: seq<Instr>, A: seq<Instr>, live: set<seq<int>>, i: Instr)
    requires Linked(code, A, live) && i != Jmp(NO_JUMP)
    ensures Linked(code + [i], A + [i], live)
  {
    forall q | q in live ensures Chain(code + [i], Head(q), q) { ChainFrame(code, code + [i], q); }
    forall j ensures Open(A + [i], j) <==> Open(A, j) {}
  }

  /** Emitting a pending jump makes a list of its own. */
  lemma LinkedJump(code: seq<Instr>, A: seq<Instr>, live: set<seq<int>>)
    requires Linked(code, A, live)
    ensures Linked(code + [Jmp(NO_JUMP)], A + [Jmp(NO_JUMP)], live + {[|code|]})
  {
    var C, B, n := code + [Jmp(NO_JUMP)], A + [Jmp(NO_JUMP)], |code|;
    var live' := live + {[n]};
    forall q | q in live
      ensures Chain(C, Head(q), q) && n !in q
    {
      ChainMembers(code, q);
      ChainFrame(code, C, q);
    }
    assert Chain(C, n, [n]) by { assert [n][1..] == []; }
    forall j | Open(B, j) ensures InSome(live', j) {
      if j < n {
        assert Open(A, j);
        var q :| q in live && j in q;
        assert q in live';
      } else {
        assert [n] in live' && j in [n];
      }
    }
    forall j | InSome(live', j) ensures Open(B, j) {
      var q :| q in live' && j in q;
      if q in live { assert InSome(live, j) && Open(A, j); }
    }
  }

  /** Removing the last instruction when it is no jump. */
  lemma LinkedDrop(code: seq<Instr>, A: seq<Instr>, live: set<seq<int>>)
    requires Linked(code, A, live) && |A| > 0 && !A[|A| - 1].Jmp?
    ensures Linked(code[..|code| - 1], A[..|A| - 1], live)
  {
    var C, B := code[..|code| - 1], A[..|A| - 1];
    forall q | q in live ensures Chain(C, Head(q), q) {
      ChainMembers(code, q);
      ChainFrame(code, C, q);
    }
    forall j ensures Open(B, j) <==> Open(A, j) {}
  }

  /** Changing an instruction that is no jump into another one that is none. */
  lemma LinkedEdit(code: seq<Instr>, A: seq<Instr>, code': seq<Instr>, A': seq<Instr>, live: set<seq<int>>)
    requires Linked(code, A, live) && |code'| == |code| && |A'| == |A|
    requires forall i :: 0 <= i < |A| ==>
      (if A[i].Jmp? then A'[i] == A[i] && code'[i] == code[i] else code'[i] == A'[i] && !A'[i].Jmp?)
    ensures Linked(code', A', live)
  {
    forall q | q in live ensures Chain(code', Head(q), q) {
      ChainMembers(code, q);
      ChainFrame(code, code', q);
    }
    forall j ensures Open(A', j) <==> Open(A, j) {}
  }

  /** luaK_concat on two live lists. */
  lemma LinkedConcat(code: seq<Instr>, A: seq<Instr>, live: set<seq<int>>, l: seq<int>, q: seq<int>)
    requires Linked(code, A, live) && l in live && q in live && l != q
    ensures var z := l[|l| - 1];
      0 <= z < |code| && Linked(code[z := Jmp(q[0] - (z + 1))], A, live - {l, q} + {l + q})
  {
    var z := l[|l| - 1];
    ChainMembers(code, l);
    assert z in l && q[0] in q;
    var C := code[z := Jmp(q[0] - (z + 1))];
    var live' := live - {l, q} + {l + q};
    ChainJoin(code, l, q);
    NoDupConcat(l, q);
    assert InSome(live, z) && Open(A, z);
    forall w | w in live && w != l && w != q
      ensures Chain(C, Head(w), w) && Disjoint(w, l + q) && Disjoint(l + q, w)
    {
      ChainMembers(code, w);
      ChainFrame(code, C, w);
    }
    SomeJoined(live, l, q);
    hide Chain, InSome;
  }

  lemma SomeJoined(live: set<seq<int>>, l: seq<int>, q: seq<int>)
    requires l in live && q in live
    ensures forall j :: InSome(live, j) <==> InSome(live - {l, q} + {l + q}, j)
  {
    var live' := live - {l, q} + {l + q};
    forall j ensures InSome(live, j) <==> InSome(live', j) {
      if InSome(live, j) {
        var w :| w in live && j in w;
        if w == l || w == q { assert l + q in live' && j in l + q; } else { assert w in live'; }
      }
      if InSome(live', j) {
        var w :| w in live' && j in w;
        if w == l + q { assert (l in live && j in l) || (q in live && j in q); } else { assert w in live; }
      }
    }
  }

  /** With no list left, the code holds no pending jump. */
  lemma LinkedNone(code: seq<Instr>, A: seq<Instr>)
    requires Linked(code, A, {})
    ensures code == A && forall j :: !Open(A, j)
  {
    forall j ensures !Open(A, j) { assert !InSome({}, j); }
    forall i | 0 <= i < |A| ensures code[i] == A[i] { assert !Open(A, i); }
  }

  // ---------- one step of a walk ----------

  /** Patching one more jump of the list. */
  lemma PatchStep(code: seq<Instr>, l: seq<int>, i: nat, vt: int, reg: int, dt: int)
    requires i < |l| && NoDup(l) && forall j :: j in l ==> 0 <= j < |code| && code[j].Jmp?
    ensures var D, j := Patch(code, l[..i], vt, reg, dt), l[i];
      && 0 <= j < |code| && D[j] == code[j] && Valued(D, j) == Valued(code, j)
      && var D' := if Valued(D, j) then D[j - 1 := PatchTest(D[j - 1], reg)] else D;
      Patch(code, l[..i + 1], vt, reg, dt) == D'[j := Jmp((if Valued(D, j) then vt else dt) - (j + 1))]
  {
    var D, j := Patch(code, l[..i], vt, reg, dt), l[i];
    assert l[..i + 1] == l[..i] + [j];
    forall m | 0 <= m < |code| ensures D[m] == PatchedAt(code, l[..i], vt, reg, dt, m) {}
    forall m | m in l[..i] ensures m in l && m != j {}
    assert j in l;
    var E := Patch(code, l[..i + 1], vt, reg, dt);
    forall m | 0 <= m < |code| ensures E[m] == PatchedAt(code, l[..i + 1], vt, reg, dt, m) {}
  }

  /** Removing the value of one more jump of the list. */
  lemma RemoveStep(code: seq<Instr>, l: seq<int>, i: nat)
    requires i < |l| && NoDup(l) && forall j :: j in l ==> 0 <= j < |code| && code[j].Jmp?
    ensures var D, j := RemoveValues(code, l[..i]), l[i];
      && 0 <= j < |code| && D[j] == code[j] && Valued(D, j) == Valued(code, j)
      && RemoveValues(code, l[..i + 1]) == if Valued(D, j) then D[j - 1 := PatchTest(D[j - 1], NO_REG)] else D
  {
    var j := l[i];
    assert l[..i + 1] == l[..i] + [j];
    forall m | m in l[..i] ensures m in l && m != j {}
    assert j in l;
  }

  /** A chain is not disturbed when values of other jumps are removed. */
  lemma ChainRemove(code: seq<Instr>, l: seq<int>, q: seq<int>)
    requires Chain(code, Head(l), l)
    ensures Chain(RemoveValues(code, q), Head(l), l)
  {
    ChainMembers(code, l);
    ChainFrame(code, RemoveValues(code, q), l);
  }

  /** A list with a jump that did not exist is none of the old ones. */
  lemma NewList(code: seq<Instr>, A: seq<Instr>, live: set<seq<int>>, l: seq<int>)
    requires Linked(code, A, live) && |code| in l
    ensures l !in live
  {
    if l in live { ChainMembers(code, l); }
  }

  /** Joining two lists makes one that was not live before. */
  lemma JoinIsNew(code: seq<Instr>, A: seq<Instr>, live: set<seq<int>>, l: seq<int>, q: seq<int>)
    requires Linked(code, A, live) && (l == [] || l in live) && (q == [] || q in live)
    ensures l + q !in live - {l, q}
  {
    if l != [] { assert l[0] in l && l[0] in l + q; } else { assert l + q == q; }
  }

  /** The two lists of a descriptor differ in their heads unless both are empty. */
  lemma HeadsDiffer(code: seq<Instr>, A: seq<Instr>, live: set<seq<int>>, l: seq<int>, q: seq<int>)
    requires Linked(code, A, live) && (l == [] || l in live) && (q == [] || q in live) && (l == q ==> l == [])
    ensures Head(l) != Head(q) <==> l != [] || q != []
  {
    ChainFrom(code, l, 0);
    ChainFrom(code, q, 0);
    if l != [] && q != [] { assert l[0] in l && q[0] in q; }
  }

  /** Lists need values alike in the threaded and in the marked code. */
  lemma NeedAlike(code: seq<Instr>, A: seq<Instr>, live: set<seq<int>>, l: seq<int>)
    requires Linked(code, A, live)
    ensures NeedValue(code, l) == NeedValue(A, l)
  {
    forall j ensures Valued(code, j) == Valued(A, j) {
      if 1 <= j <= |A| { assert code[j - 1] == A[j - 1] || (code[j - 1].Jmp? && A[j - 1].Jmp?); }
    }
  }

  lemma ListChain(code: seq<Instr>, A: seq<Instr>, live: set<seq<int>>, l: seq<int>)
    requires Linked(code, A, live) && (l == [] || l in live)
    ensures Chain(code, Head(l), l) && NoDup(l) && [] !in live
  {}

  /** The members of a live list are pending jumps of the marked code. */
  lemma LiveOpen(code: seq<Instr>, A: seq<Instr>, live: set<seq<int>>, l: seq<int>)
    requires Linked(code, A, live) && (l == [] || l in live)
    ensures forall j :: j in l ==> Open(A, j)
  {
    forall j | j in l ensures Open(A, j) { assert InSome(live, j); }
  }
}
