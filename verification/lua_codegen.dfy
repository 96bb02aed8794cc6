/**
 The code generator as lcode.c runs it: FuncState and expdesc are updated in place and every jump
 list is threaded through the operands of its jumps.
 */
module LuaCodegen {
  import opened LuaVm
  import opened LuaGen
  import opened LuaPatch
  import opened LuaRun
  import opened LuaLists
  import opened LuaLocals
  import opened LuaProgram

  class ExpDesc {
    var k: Kind
    var info: int
    var nval: Num
    var t: int
    var f: int
    ghost var tl: seq<int>
    ghost var fl: seq<int>

    constructor (k: Kind, info: int, nval: Num)
      ensures View() == Exp(k, info, nval, [], []) && t == NO_JUMP && f == NO_JUMP
    {
      this.k, this.info, this.nval := k, info, nval;
      t, f, tl, fl := NO_JUMP, NO_JUMP, [], [];
    }

    ghost function View(): Exp
      reads this
    {
      Exp(k, info, nval, tl, fl)
    }

    /** The two patch lists, if they have members. */
    ghost function Lists(): set<seq<int>>
      reads this
    {
      With(With({}, tl), fl)
    }

    /** The live lists that belong to the descriptor. */
    ghost function Own(): set<seq<int>>
      reads this
    {
      With(With(if k == VJmp then {[info]} else {}, tl), fl)
    }
  }

  class FuncState {
    var code: seq<Instr>
    var jpc: int
    var lasttarget: int
    var freereg: int
    var nactvar: int
    var maxstack: int
    var k: seq<Value>
    var h: map<Key, int>
    ghost var marked: seq<Instr>      // the code with pending jumps marked
    ghost var jl: seq<int>            // the list at jpc
    ghost var live: set<seq<int>>     // every list with a member

    ghost function View(): FS
      reads this
    {
      FS(marked, jl, lasttarget, freereg, nactvar, maxstack, k, h)
    }

    ghost predicate Valid()
      reads `code, `marked, `live, `jpc, `jl
    {
      Linked(code, marked, live) && jpc == Head(jl) && (jl == [] || jl in live) && [] !in live
    }

    ghost function Others(): set<seq<int>>
      reads `live, `jl
    {
      live - {jl}
    }

    /** The descriptor's lists are live lists of this function, and its instruction is the last one. */
    ghost predicate Holds(e: ExpDesc)
      reads `marked, `live, `jl, e
    {
      && e.t == Head(e.tl) && e.f == Head(e.fl) && e.Own() <= Others()
      && (e.tl == e.fl ==> e.tl == [])
      && (e.k == VReloc ==> 0 <= e.info == |marked| - 1 && !marked[e.info].Jmp?)
      && (e.k == VJmp ==> 1 <= e.info == |marked| - 1 && marked[e.info - 1].Cmp?)
      && (e.k == VJmp ==> [e.info] != e.tl && [e.info] != e.fl)
    }

    /** The lists that belong to nobody at hand. */
    ghost function Rest(e: ExpDesc): set<seq<int>>
      reads `live, `jl, e
    {
      Others() - e.Own()
    }

    constructor ()
      ensures Valid() && View() == FS([], [], 0, 0, 0, 2, [], map[]) && live == {}
    {
      code, jpc, lasttarget, freereg, nactvar, maxstack, k, h := [], NO_JUMP, 0, 0, 0, 2, [], map[];
      marked, jl, live := [], [], {};
    }

    // ---------- jump lists ----------

    /** luaK_getlabel. */
    method GetLabel() returns (pc: int)
      requires Linked(code, marked, live)
      modifies this`lasttarget
      ensures View() == LuaGen.GetLabel(old(View())) && pc == |marked|
    {
      lasttarget := |code|;
      pc := |code|;
    }

    /** getjump. */
    method GetJump(pc: int) returns (next: int)
      requires 0 <= pc < |code| && code[pc].Jmp?
      ensures next == Link(code, pc)
    {
      var offset := code[pc].sbx;
      if offset == NO_JUMP {
        next := NO_JUMP;
      } else {
        next := (pc + 1) + offset;
      }
    }

    /** fixjump: a jump to its own place is the end of a list. */
    method FixJump(pc: int, dest: int)
      requires 0 <= pc < |code|
      modifies this`code
      ensures code == old(code)[pc := Jmp(dest - (pc + 1))]
      ensures Link(code, pc) == if dest == pc then NO_JUMP else dest
    {
      code := code[pc := Jmp(dest - (pc + 1))];
    }

    /** getjumpcontrol. */
    method GetJumpControl(pc: int) returns (at: int)
      requires 0 <= pc < |code|
      ensures 0 <= at < |code| && at == if pc >= 1 && IsTest(code[pc - 1]) then pc - 1 else pc
    {
      if pc >= 1 && IsTest(code[pc - 1]) { at := pc - 1; } else { at := pc; }
    }

    /** need_value: some jump of the list does not produce a value. */
    method NeedValue(list: int, ghost l: seq<int>) returns (need: bool)
      requires Chain(code, list, l)
      ensures need == LuaGen.NeedValue(code, l)
    {
      var cur := list;
      ghost var i := 0;
      while cur != NO_JUMP
        invariant 0 <= i <= |l| && cur == Head(l[i..])
        invariant forall m :: 0 <= m < i ==> Valued(code, l[m])
        decreases |l| - i
      {
        ChainFrom(code, l, i);
        var at := GetJumpControl(cur);
        if !code[at].TestSet? {
          assert l[i] in l && !Valued(code, l[i]);
          return true;
        }
        cur := GetJump(cur);
        i := i + 1;
      }
      ChainFrom(code, l, i);
      need := false;
    }

    /** patchtestreg. */
    method PatchTestReg(node: int, reg: int) returns (patched: bool)
      requires 0 <= node < |code| && code[node].Jmp?
      modifies this`code
      ensures patched == Valued(old(code), node)
      ensures code == if patched then old(code)[node - 1 := PatchTest(old(code)[node - 1], reg)] else old(code)
    {
      var at := GetJumpControl(node);
      if !code[at].TestSet? { return false; }
      if reg != NO_REG && reg != code[at].b {
        code := code[at := TestSet(reg, code[at].b, code[at].cond)];
      } else {
        code := code[at := Test(code[at].b, code[at].cond)];
      }
      patched := true;
    }

    /** removevalues. */
    method RemoveListValues(list: int, ghost l: seq<int>)
      requires Linked(code, marked, live) && (l == [] || l in live) && list == Head(l)
      modifies this`code, this`marked
      ensures Linked(code, marked, live) && marked == RemoveValues(old(marked), l)
    {
      ListChain(code, marked, live, l);
      RemoveWalk(list, l);
      LinkedEdit(old(code), marked, code, RemoveValues(marked, l), live);
      marked := RemoveValues(marked, l);
    }

    /** The loop of removevalues. */
    method RemoveWalk(list: int, ghost l: seq<int>)
      requires Chain(code, list, l) && NoDup(l) && list == Head(l)
      modifies this`code
      ensures code == RemoveValues(old(code), l)
    {
      hide RemoveValues, Chain;
      ghost var C := code;
      ChainMembers(code, l);
      RemoveNone(C);
      var cur := list;
      ghost var i := 0;
      while cur != NO_JUMP
        invariant 0 <= i <= |l| && cur == Head(l[i..]) && code == RemoveValues(C, l[..i])
        decreases |l| - i
      {
        ChainRemove(C, l, l[..i]);
        ChainFrom(code, l, i);
        RemoveStep(C, l, i);
        var patched := PatchTestReg(cur, NO_REG);
        ChainRemove(C, l, l[..i + 1]);
        ChainFrom(code, l, i);
        cur := GetJump(cur);
        i := i + 1;
      }
      ChainFrom(C, l, i);
      assert l[..i] == l;
    }

    /** patchlistaux: the walk ends and sends every jump of the list to its target. */
    method PatchListAux(list: int, vtarget: int, reg: int, dtarget: int, ghost l: seq<int>)
      requires Linked(code, marked, live) && (l == [] || l in live) && list == Head(l)
      requires forall j :: j in l ==> vtarget != j && dtarget != j
      modifies this`code, this`marked, this`live
      ensures Linked(code, marked, live) && live == old(live) - {l}
      ensures marked == Patch(old(marked), l, vtarget, reg, dtarget)
    {
      ListChain(code, marked, live, l);
      LinkedPatch(code, marked, live, l, vtarget, reg, dtarget);
      hide Linked, Patch, Head;
      PatchWalk(list, vtarget, reg, dtarget, l);
      marked := Patch(marked, l, vtarget, reg, dtarget);
      live := live - {l};
    }

    /** The loop of patchlistaux. */
    method PatchWalk(list: int, vtarget: int, reg: int, dtarget: int, ghost l: seq<int>)
      requires Chain(code, list, l) && NoDup(l) && list == Head(l)
      modifies this`code
      ensures code == Patch(old(code), l, vtarget, reg, dtarget)
    {
      hide Patch, Chain;
      ghost var C := code;
      ChainMembers(code, l);
      PatchNone(C, vtarget, reg, dtarget);
      var cur := list;
      ghost var i := 0;
      while cur != NO_JUMP
        invariant 0 <= i <= |l| && cur == Head(l[i..]) && code == Patch(C, l[..i], vtarget, reg, dtarget)
        decreases |l| - i
      {
        ChainFrom(C, l, i);
        PatchStep(C, l, i, vtarget, reg, dtarget);
        var next := GetJump(cur);
        var patched := PatchTestReg(cur, reg);
        if patched {
          FixJump(cur, vtarget);
        } else {
          FixJump(cur, dtarget);
        }
        cur := next;
        i := i + 1;
      }
      ChainFrom(C, l, i);
      assert l[..i] == l;
    }

    /** dischargejpc. */
    method DischargeJpc()
      requires Valid()
      modifies this`code, this`marked, this`live, this`jpc, this`jl
      ensures Valid() && jl == [] && marked == Discharged(old(View())) && live == old(Others())
    {
      ChainMembers(code, jl);
      PatchListAux(jpc, |code|, NO_REG, |code|, jl);
      jpc, jl := NO_JUMP, [];
    }

    /** luaK_concat: the list `l1` with `l2` at its end. */
    method Concat(l1: int, l2: int, ghost s1: seq<int>, ghost s2: seq<int>) returns (r: int)
      requires Linked(code, marked, live) && l1 == Head(s1) && l2 == Head(s2)
      requires (s1 == [] || s1 in live) && (s2 == [] || s2 in live) && (s1 == s2 ==> s1 == [])
      modifies this`code, this`live
      ensures Linked(code, marked, live) && r == Head(s1 + s2)
      ensures live == With(old(live) - {s1, s2}, s1 + s2) && s1 + s2 !in old(live) - {s1, s2}
    {
      hide Linked, Chain;
      JoinIsNew(code, marked, live, s1, s2);
      ListChain(code, marked, live, s1);
      ListChain(code, marked, live, s2);
      ChainFrom(code, s1, 0);
      ChainFrom(code, s2, 0);
      if l2 == NO_JUMP {
        assert s1 + s2 == s1;
        r := l1;
      } else if l1 == NO_JUMP {
        assert s1 + s2 == s2;
        r := l2;
      } else {
        var list := l1;
        ghost var i := 0;
        var next := GetJump(list);
        while next != NO_JUMP
          invariant 0 <= i < |s1| && list == s1[i] && next == Head(s1[i + 1..])
          decreases |s1| - i
          modifies {}
        {
          list := next;
          i := i + 1;
          ChainFrom(code, s1, i);
          next := GetJump(list);
        }
        ChainFrom(code, s1, i + 1);
        assert i == |s1| - 1;
        LinkedConcat(code, marked, live, s1, s2);
        FixJump(list, l2);
        live := live - {s1, s2} + {s1 + s2};
        r := l1;
      }
    }

    // ---------- emitting code ----------

    /** luaK_code. */
    method Code(i: Instr) returns (pc: int)
      requires Valid() && i != Jmp(NO_JUMP)
      modifies this
      ensures Valid() && View() == LuaGen.Code(old(View()), i) && Others() == old(Others()) && pc == |marked| - 1
    {
      DischargeJpc();
      LinkedAppend(code, marked, live, i);
      code := code + [i];
      marked := marked + [i];
      pc := |code| - 1;
    }

    /** luaK_jump: jumps waiting for this place are kept on hold with the new jump. */
    method Jump() returns (j: int, ghost l: seq<int>)
      requires Valid()
      modifies this
      ensures Valid() && (View(), l) == LuaGen.Jump(old(View())) && j == Head(l)
      ensures l in Others() && Others() == old(Others()) + {l} && l !in old(live)
    {
      hide Linked, Head;
      EmptyHead();
      var saved := jpc;
      ghost var sl := jl;
      jpc, jl := NO_JUMP, [];
      ghost var single := [|code|];
      l := single + sl;
      NewJump(code, marked, live, sl);
      code := code + [Jmp(NO_JUMP)];
      marked := marked + [Jmp(NO_JUMP)];
      j := |code| - 1;
      live := live + {single};
      j := Concat(j, saved, single, sl);
      JumpSets(old(live), single, sl, l);
    }

    /** condjump. */
    method CondJump(i: Instr) returns (j: int, ghost l: seq<int>)
      requires Valid() && i != Jmp(NO_JUMP)
      modifies this
      ensures Valid() && (View(), l) == LuaGen.CondJump(old(View()), i) && j == Head(l)
      ensures l in Others() && Others() == old(Others()) + {l} && l !in old(Others())
    {
      var pc := Code(i);
      j, l := Jump();
    }

    /** luaK_patchtohere. */
    method PatchToHere(list: int, ghost l: seq<int>)
      requires Valid() && (l == [] || l in Others()) && list == Head(l)
      modifies this
      ensures Valid() && View() == LuaGen.PatchToHere(old(View()), l) && Others() == old(Others()) - {l}
    {
      var pc := GetLabel();
      jpc := Concat(jpc, list, jl, l);
      jl := jl + l;
    }

    /** luaK_nil. */
    method CodeNil(from0: int, n: int)
      requires Valid()
      modifies this
      ensures Valid() && View() == LuaGen.CodeNil(old(View()), from0, n) && Others() == old(Others())
    {
      var from := from0;
      var l := from + n - 1;
      if |code| > 0 && |code| > lasttarget {
        var previous := code[|code| - 1];
        if previous.LoadNil? {
          var pfrom := previous.a;
          var pl := pfrom + previous.b;
          if (pfrom <= from <= pl + 1) || (from <= pfrom <= l + 1) {
            if pfrom < from { from := pfrom; }
            if pl > l { l := pl; }
            ghost var edited := marked[|marked| - 1 := LoadNil(from, l - from)];
            LinkedEdit(code, marked, code[|code| - 1 := LoadNil(from, l - from)], edited, live);
            code := code[|code| - 1 := LoadNil(from, l - from)];
            marked := edited;
            return;
          }
        }
      }
      var pc := Code(LoadNil(from, n - 1));
    }

    // ---------- constants and registers ----------

    /** addk. */
    method AddK(key: Key, v: Value) returns (i: int)
      modifies this`k, this`h
      ensures (View(), i) == LuaGen.AddK(old(View()), key, v)
    {
      if key in h && 0 <= h[key] < |k| && RawEqual(k[h[key]], v) {
        return h[key];
      }
      i := |k|;
      h := h[key := i];
      k := k + [v];
    }

    /** luaK_reserveregs with luaK_checkstack; the frame stays small enough exactly when that raises no error. */
    method ReserveRegs(n: int)
      modifies this`freereg, this`maxstack
      ensures View() == LuaGen.ReserveRegs(old(View()), n)
      ensures old(maxstack) < MAX_STACK ==> (maxstack < MAX_STACK <==> old(freereg) + n < MAX_STACK)
    {
      if freereg + n > maxstack { maxstack := freereg + n; }
      freereg := freereg + n;
    }

    /** freereg. */
    method FreeReg(reg: int)
      modifies this`freereg
      ensures View() == LuaGen.FreeReg(old(View()), reg)
    {
      if reg < BITRK && reg >= nactvar { freereg := freereg - 1; }
    }

    /** freeexp. */
    method FreeExp(e: ExpDesc)
      modifies this`freereg
      ensures View() == LuaGen.FreeExp(old(View()), e.View())
    {
      if e.k == VNonReloc { FreeReg(e.info); }
    }

    // ---------- putting values into registers ----------

    /** luaK_dischargevars. */
    method DischargeVars(e: ExpDesc)
      requires Holds(e)
      modifies e`k
      ensures e.View() == LuaGen.DischargeVars(old(e.View())) && Holds(e)
      ensures e.Own() == old(e.Own()) && Rest(e) == old(Rest(e))
    {
      if e.k == VLocal { e.k := VNonReloc; }
    }

    /** Gives the relocatable instruction at `at` its register. */
    method Relocate(at: int, reg: int)
      requires Valid() && 0 <= at < |marked| && !marked[at].Jmp?
      modifies this`code, this`marked
      ensures Valid() && View() == old(View()).(code := SetA(old(marked), at, reg))
    {
      ghost var edited := SetA(marked, at, reg);
      LinkedEdit(code, marked, SetA(code, at, reg), edited, live);
      code := SetA(code, at, reg);
      marked := edited;
    }

    /** discharge2reg, before the descriptor is changed. */
    method LoadInto(e: ExpDesc, reg: int)
      requires Valid() && Holds(e)
      modifies this
      ensures Valid() && View() == LuaGen.LoadInto(old(View()), e.View(), reg) && Others() == old(Others())
    {
      hide Linked, Head, LuaGen.Code, LuaGen.CodeNil, LuaGen.AddK, SetA, With;
      var pc;
      match e.k {
        case VNil => CodeNil(reg, 1);
        case VFalse => pc := Code(LoadBool(reg, false, false));
        case VTrue => pc := Code(LoadBool(reg, true, false));
        case VK => pc := Code(LoadK(reg, e.info));
        case VKNum =>
          var i := AddK(NumberKey(e.nval), Number(e.nval));
          pc := Code(LoadK(reg, i));
        case VReloc => Relocate(e.info, reg);
        case VJmp =>
        case _ => if reg != e.info { pc := Code(Move(reg, e.info)); }
      }
    }

    /** discharge2reg. */
    method Discharge2Reg(e: ExpDesc, reg: int)
      requires Valid() && Holds(e)
      modifies this, e`k, e`info
      ensures Valid() && Holds(e) && Rest(e) == old(Rest(e))
      ensures (View(), e.View()) == LuaGen.Discharge2Reg(old(View()), old(e.View()), reg)
    {
      hide Linked, LuaGen.LoadInto;
      LoadInto(e, reg);
      if e.k == VJmp {
        LoadJump(old(View()), e.View(), reg);
      } else {
        e.info := reg;
        e.k := VNonReloc;
      }
    }

    /** discharge2anyreg. */
    method Discharge2AnyReg(e: ExpDesc)
      requires Valid() && Holds(e)
      modifies this, e`k, e`info
      ensures Valid() && Holds(e) && Rest(e) == old(Rest(e))
      ensures (View(), e.View()) == LuaGen.Discharge2AnyReg(old(View()), old(e.View()))
    {
      if e.k != VNonReloc {
        ReserveRegs(1);
        Discharge2Reg(e, freereg - 1);
      }
    }

    // ---------- exp2reg and what is built on it ----------

    /** The two LOADBOOLs at the end of exp2reg. */
    method LoadBools(reg: int, fallsIn: bool) returns (pf: int, pt: int)
      requires Valid()
      modifies this
      ensures Valid() && (View(), pf, pt) == LuaGen.LoadBools(old(View()), reg, fallsIn)
      ensures Others() == old(Others())
    {
      hide Linked, LuaGen.Code, LuaGen.Jump, Head, Grows;
      var fj := NO_JUMP;
      ghost var fl := [];
      if !fallsIn { fj, fl := Jump(); } else { EmptyHead(); }
      var here := GetLabelValid();
      pf := Code(LoadBool(reg, false, true));
      here := GetLabelValid();
      pt := Code(LoadBool(reg, true, false));
      PatchToHere(fj, fl);
    }

    method GetLabelValid() returns (pc: int)
      requires Valid()
      modifies this`lasttarget
      ensures Valid() && View() == LuaGen.GetLabel(old(View())) && pc == |marked| && Others() == old(Others())
    {
      pc := GetLabel();
    }

    /** The end of exp2reg: patch both lists to their places. */
    method CloseLists(e: ExpDesc, reg: int, fallsIn: bool)
      requires Valid() && e.t == Head(e.tl) && e.f == Head(e.fl) && e.Lists() <= Others()
      requires e.tl == e.fl ==> e.tl == []
      modifies this
      ensures Valid() && View() == LuaGen.CloseLists(old(View()), e.tl, e.fl, reg, fallsIn)
      ensures Others() == old(Others()) - {e.tl, e.fl}
    {
      hide Valid, Others, Head, LuaGen.LoadBools, LuaGen.NeedValue, Patch, Grows;
      var pf, pt := NO_JUMP, NO_JUMP;
      var need := NeedValues(e);
      ghost var before := View();
      if need {
        pf, pt := LoadBools(reg, fallsIn);
      }
      LoadBoolsPlaces(before, View(), pf, pt, reg, fallsIn, need, e.tl, e.fl);
      PatchBothLists(e, reg, pf, pt);
    }

    /** need_value on both lists. */
    method NeedValues(e: ExpDesc) returns (need: bool)
      requires Valid() && e.t == Head(e.tl) && e.f == Head(e.fl) && e.Lists() <= Others()
      ensures need == (LuaGen.NeedValue(marked, e.tl) || LuaGen.NeedValue(marked, e.fl))
      ensures forall j :: j in e.tl || j in e.fl ==> Open(marked, j)
    {
      hide LuaGen.NeedValue;
      LiveOpen(code, marked, live, e.tl);
      LiveOpen(code, marked, live, e.fl);
      ChainFrom(code, e.tl, 0);
      ChainFrom(code, e.fl, 0);
      NeedAlike(code, marked, live, e.tl);
      NeedAlike(code, marked, live, e.fl);
      need := NeedValue(e.t, e.tl);
      if !need { need := NeedValue(e.f, e.fl); }
    }

    method PatchBothLists(e: ExpDesc, reg: int, pf: int, pt: int)
      requires Valid() && e.t == Head(e.tl) && e.f == Head(e.fl) && e.Lists() <= Others()
      requires e.tl == e.fl ==> e.tl == []
      requires forall j :: j in e.tl || j in e.fl ==> j < |marked| && j != pf && j != pt
      modifies this
      ensures Valid() && Others() == old(Others()) - {e.tl, e.fl}
      ensures View() == LuaGen.GetLabel(old(View())).(
                          code := Patch(Patch(old(marked), e.fl, |old(marked)|, reg, pf), e.tl, |old(marked)|, reg, pt))
    {
      var final := GetLabel();
      PatchListAux(e.f, final, reg, pf, e.fl);
      PatchListAux(e.t, final, reg, pt, e.tl);
    }

    /** exp2reg. */
    method Exp2Reg(e: ExpDesc, reg: int)
      requires Valid() && Holds(e)
      modifies this, e
      ensures Valid() && Holds(e) && Rest(e) == old(Rest(e))
      ensures (View(), e.View()) == LuaGen.Exp2Reg(old(View()), old(e.View()), reg)
    {
      hide Linked, LuaGen.CloseLists, LuaGen.Discharge2Reg, LuaGen.LoadInto, Grows, Head;
      Discharge2Reg(e, reg);
      var fallsIn := e.k == VJmp;
      if e.k == VJmp { JoinOwnJump(e); }
      ghost var tl, fl := e.tl, e.fl;
      assert e.Lists() <= Others() && Others() - {tl, fl} == old(Rest(e));
      ListHeads(e);
      if e.t != e.f { CloseLists(e, reg, fallsIn); }
      assert Others() == old(Rest(e));
      Empty(e, reg);
    }

    /** The descriptor is now just the register. */
    method Empty(e: ExpDesc, reg: int)
      modifies e
      ensures e.View() == WithLists(InReg(old(e.View()), reg), [], []) && e.Own() == {}
      ensures e.t == Head(e.tl) && e.f == Head(e.fl)
    {
      e.f, e.t, e.fl, e.tl := NO_JUMP, NO_JUMP, [], [];
      e.info := reg;
      e.k := VNonReloc;
    }

    /** The pending jump of a comparison goes to the end of its `t` list. */
    method JoinOwnJump(e: ExpDesc)
      requires Valid() && Holds(e) && e.k == VJmp
      modifies this`code, this`live, e`t, e`tl
      ensures Valid() && View() == old(View())
      ensures e.tl == old(e.tl) + [e.info] && e.t == Head(e.tl) && e.f == Head(e.fl)
      ensures e.Lists() <= Others() && e.tl != e.fl
      ensures Others() - {e.tl, e.fl} == old(Rest(e))
    {
      hide Valid, Holds, Others, Head, ExpDesc.Own, ExpDesc.Lists;
      var own := e.info;
      EmptyHead();
      OwnedLists(e);
      ghost var s1, s2, w, none := e.tl, [own], e.fl, [];
      ListsPresent(e);
      assert s2[0] == own && s1 + s2 != [];
      e.t := JoinLists(e.t, own, s1, s2, w, none);
      e.tl := s1 + s2;
      PresentLists(e);
    }

    lemma ListsPresent(e: ExpDesc)
      requires Valid() && e.Lists() <= Others()
      ensures Present(e.tl) && Present(e.fl) && Present([]) && e.Lists() + {[]} == {e.tl, e.fl, []}
      ensures [] !in Others()
    {
      hide Linked, Head;
    }

    lemma PresentLists(e: ExpDesc)
      requires Valid() && Present(e.tl) && Present(e.fl)
      ensures e.Lists() <= Others() && Others() - {e.tl, e.fl, []} == Others() - e.Lists() == Others() - {e.tl, e.fl}
    {
      hide Linked, Head;
    }

    /** hasjumps compares the two heads. */
    method ListHeads(e: ExpDesc)
      requires Valid() && e.t == Head(e.tl) && e.f == Head(e.fl) && e.Lists() <= Others()
      requires e.tl == e.fl ==> e.tl == []
      ensures e.t != e.f <==> e.tl != [] || e.fl != []
    {
      HeadsDiffer(code, marked, live, e.tl, e.fl);
    }

    /** luaK_exp2nextreg. */
    method Exp2NextReg(e: ExpDesc)
      requires Valid() && Holds(e)
      modifies this, e
      ensures Valid() && Holds(e) && Rest(e) == old(Rest(e))
      ensures (View(), e.View()) == LuaGen.Exp2NextReg(old(View()), old(e.View()))
    {
      hide Valid, Holds, Others, LuaGen.Exp2Reg, Grows;
      DischargeVars(e);
      FreeExp(e);
      ReserveRegs(1);
      Exp2Reg(e, freereg - 1);
    }

    /** luaK_exp2anyreg. */
    method Exp2AnyReg(e: ExpDesc) returns (reg: int)
      requires Valid() && Holds(e)
      modifies this, e
      ensures Valid() && Holds(e) && Rest(e) == old(Rest(e)) && reg == e.info
      ensures (View(), e.View()) == LuaGen.Exp2AnyReg(old(View()), old(e.View()))
    {
      hide LuaGen.Exp2Reg, LuaGen.Exp2NextReg, Grows;
      DischargeVars(e);
      if e.k == VNonReloc {
        ListHeads(e);
        if !(e.t != e.f) { return e.info; }
        if e.info >= nactvar {
          Exp2Reg(e, e.info);
          return e.info;
        }
      }
      Exp2NextReg(e);
      reg := e.info;
    }

    /** luaK_exp2val. */
    method Exp2Val(e: ExpDesc)
      requires Valid() && Holds(e)
      modifies this, e
      ensures Valid() && Holds(e) && Rest(e) == old(Rest(e))
      ensures (View(), e.View()) == LuaGen.Exp2Val(old(View()), old(e.View()))
    {
      hide LuaGen.Exp2AnyReg, Grows;
      ListHeads(e);
      if e.t != e.f {
        var reg := Exp2AnyReg(e);
      } else {
        DischargeVars(e);
      }
    }

    /** luaK_exp2RK. */
    method Exp2RK(e: ExpDesc) returns (o: int)
      requires Valid() && Holds(e)
      modifies this, e
      ensures Valid() && Holds(e) && Rest(e) == old(Rest(e))
      ensures (View(), e.View(), o) == LuaGen.Exp2RK(old(View()), old(e.View()))
    {
      hide Valid, Holds, Others, Rest, LuaGen.ToRK, LuaGen.Exp2Val, Grows;
      Exp2Val(e);
      o := ToRK(e);
    }

    /** luaK_exp2RK on a descriptor without jumps, or in a register. */
    method ToRK(e: ExpDesc) returns (o: int)
      requires Valid() && Holds(e)
      modifies this, e
      ensures Valid() && Holds(e) && Rest(e) == old(Rest(e))
      ensures (View(), e.View(), o) == LuaGen.ToRK(old(View()), old(e.View()))
    {
      hide Valid, Holds, Others, Rest, LuaGen.Exp2AnyReg, LuaGen.AddK, Grows;
      if (e.k == VNil || e.k == VTrue || e.k == VFalse) && |k| <= MAX_INDEX_RK {
        var i;
        if e.k == VNil { i := AddK(Self, Nil); } else { i := AddK(Of(Bool(e.k == VTrue)), Bool(e.k == VTrue)); }
        SetConstant(e, i);
        return BITRK + i;
      }
      if e.k == VKNum {
        var i := AddK(NumberKey(e.nval), Number(e.nval));
        SetConstant(e, i);
      }
      if e.k == VK && e.info <= MAX_INDEX_RK {
        return BITRK + e.info;
      }
      o := Exp2AnyReg(e);
    }

    method SetConstant(e: ExpDesc, i: int)
      requires Holds(e) && e.k != VJmp
      modifies e`k, e`info
      ensures Holds(e) && Rest(e) == old(Rest(e)) && e.View() == old(e.View()).(k := VK, info := i)
    {
      e.info := i;
      e.k := VK;
    }

    // ---------- conditional jumps ----------

    /** invertjump. */
    method InvertJump(e: ExpDesc)
      requires Valid() && Holds(e) && e.k == VJmp
      modifies this`code, this`marked
      ensures Valid() && Holds(e) && Rest(e) == old(Rest(e)) && Others() == old(Others())
      ensures View() == old(View()).(code := NegateCond(old(marked), e.info - 1))
    {
      var at := GetJumpControl(e.info);
      LinkedNegated(code, marked, live, at);
      hide Linked, Head;
      code := code[at := Cmp(code[at].cop, !code[at].cond, code[at].b, code[at].c)];
      marked := NegateCond(marked, at);
    }

    /** A pending OP_NOT is removed before its operand is tested. */
    method DropNot(e: ExpDesc)
      requires Valid() && Holds(e) && e.k == VReloc
      modifies this`code, this`marked
      ensures Valid() && |old(marked)| > 0 && View() == old(View()).(code := old(marked)[..|old(marked)| - 1])
    {
      LinkedDrop(code, marked, live);
      code := code[..|code| - 1];
      marked := marked[..|marked| - 1];
    }

    /** jumponcond. */
    method JumpOnCond(e: ExpDesc, cond: bool) returns (pc: int, ghost l: seq<int>)
      requires Valid() && Holds(e) && e.k != VJmp
      modifies this, e`k, e`info
      ensures Valid() && (View(), l) == LuaGen.JumpOnCond(old(View()), old(e.View()), cond)
      ensures pc == Head(l) && l in Others() && l !in e.Own() && Others() - {l} - e.Own() == old(Rest(e))
      ensures e.Own() <= Others() && e.k != VJmp && (e.tl == e.fl ==> e.tl == [])
      ensures e.t == Head(e.tl) && e.f == Head(e.fl)
    {
      hide Valid, Holds, Others, Rest, Head, LuaGen.CondJump, LuaGen.Discharge2AnyReg, Grows;
      var i := LastInstr(e);
      if e.k == VReloc && i.Not? {
        pc, l := JumpOnNot(e, i, cond);
      } else {
        pc, l := JumpOnValue(e, cond);
      }
    }

    /** jumponcond for a fresh negation: the operand is tested the other way round. */
    method JumpOnNot(e: ExpDesc, i: Instr, cond: bool) returns (pc: int, ghost l: seq<int>)
      requires Valid() && Holds(e) && e.k == VReloc && i == marked[e.info] && i.Not?
      modifies this
      ensures Valid()
      ensures (View(), l) == LuaGen.CondJump(old(View()).(code := old(marked)[..|old(marked)| - 1]), Test(i.b, !cond))
      ensures pc == Head(l) && l in Others() && l !in e.Own() && Others() - {l} - e.Own() == old(Rest(e))
      ensures e.Own() <= Others() && (e.tl == e.fl ==> e.tl == []) && e.t == Head(e.tl) && e.f == Head(e.fl)
    {
      hide Valid, Head, LuaGen.CondJump, Grows;
      DropNot(e);
      pc, l := CondJump(Test(i.b, !cond));
    }

    /** jumponcond for a value that is not a fresh negation: it is put into a register and tested. */
    method JumpOnValue(e: ExpDesc, cond: bool) returns (pc: int, ghost l: seq<int>)
      requires Valid() && Holds(e) && e.k != VJmp
      modifies this, e`k, e`info
      ensures Valid()
      ensures var d := LuaGen.Discharge2AnyReg(old(View()), old(e.View()));
        (View(), l) == LuaGen.CondJump(LuaGen.FreeExp(d.0, d.1), TestSet(NO_REG, d.1.info, cond))
      ensures pc == Head(l) && l in Others() && l !in e.Own() && Others() - {l} - e.Own() == old(Rest(e))
      ensures e.Own() <= Others() && e.k != VJmp && (e.tl == e.fl ==> e.tl == [])
      ensures e.t == Head(e.tl) && e.f == Head(e.fl)
    {
      hide Linked, Head, LuaGen.CondJump, Grows;
      Discharge2AnyReg(e);
      FreeExp(e);
      pc, l := CondJump(TestSet(NO_REG, e.info, cond));
    }

    /** The relocatable instruction of the descriptor. */
    method LastInstr(e: ExpDesc) returns (i: Instr)
      requires Valid() && Holds(e)
      ensures e.k == VReloc ==> 0 <= e.info < |marked| && i == marked[e.info]
    {
      if e.k == VReloc { i := code[e.info]; } else { i := Jmp(NO_JUMP); }
    }

    /** The new jump joins the list of exits. */
    method AddExit(e: ExpDesc, pass: bool, pc: int, ghost l: seq<int>)
      requires Valid() && e.t == Head(e.tl) && e.f == Head(e.fl) && e.Lists() <= Others()
      requires (e.tl == e.fl ==> e.tl == []) && pc == Head(l)
      requires l == [] || (l in Others() && l != e.tl && l != e.fl)
      modifies this`code, this`live, e`t, e`f, e`tl, e`fl
      ensures Valid() && View() == old(View())
      ensures e.t == Head(e.tl) && e.f == Head(e.fl) && e.Lists() <= Others() && (e.tl == e.fl ==> e.tl == [])
      ensures e.tl == (if pass then old(e.tl) else old(e.tl) + l) && e.fl == (if pass then old(e.fl) + l else old(e.fl))
      ensures Others() - {e.tl, e.fl} == old(Others()) - {l, old(e.tl), old(e.fl)}
    {
      hide Valid, Others, Head, ExpDesc.Lists;
      ListsPresent(e);
      if pass {
        e.f := JoinLists(e.f, pc, e.fl, l, e.tl, []);
        RestMembers(Others(), old(Others()), e.fl + l, e.tl, e.fl, l);
        e.fl := e.fl + l;
      } else {
        e.t := JoinLists(e.t, pc, e.tl, l, e.fl, []);
        RestMembers(Others(), old(Others()), e.tl + l, e.fl, e.tl, l);
        e.tl := e.tl + l;
      }
      PresentLists(e);
    }

    /** The end of luaK_goiftrue and luaK_goiffalse: the new jump joins the list of exits, and the
        other list goes to the next instruction. */
    method CloseGate(e: ExpDesc, pass: bool, pc: int, ghost l: seq<int>)
      requires Valid() && e.t == Head(e.tl) && e.f == Head(e.fl) && e.Lists() <= Others()
      requires (e.tl == e.fl ==> e.tl == []) && pc == Head(l)
      requires l == [] || (l in Others() && l != e.tl && l != e.fl)
      modifies this, e`t, e`f, e`tl, e`fl
      ensures Valid() && View() == LuaGen.PatchToHere(old(View()), if pass then old(e.tl) else old(e.fl))
      ensures e.t == Head(e.tl) && e.f == Head(e.fl) && e.Lists() <= Others()
      ensures e.tl == (if pass then [] else old(e.tl) + l) && e.fl == (if pass then old(e.fl) + l else [])
      ensures Others() - e.Lists() == old(Others()) - {l} - old(e.Lists())
    {
      hide Valid, Others, Head, ExpDesc.Lists, LuaGen.PatchToHere;
      EmptyHead();
      ListsPresent(e);
      ghost var O, tl, fl := Others(), e.tl, e.fl;
      assert O - e.Lists() == O - {tl, fl} by { PresentLists(e); }
      assert O - {l} - e.Lists() == O - {l, tl, fl};
      AddExit(e, pass, pc, l);
      ListsPresent(e);
      if pass {
        PatchToHere(e.t, e.tl);
        e.t, e.tl := NO_JUMP, [];
      } else {
        PatchToHere(e.f, e.fl);
        e.f, e.fl := NO_JUMP, [];
      }
      PresentLists(e);
    }

    /** luaK_goiftrue. */
    method GoIfTrue(e: ExpDesc)
      requires Valid() && Holds(e)
      modifies this, e
      ensures Valid() && e.Lists() <= Others() && e.t == Head(e.tl) && e.f == Head(e.fl)
      ensures Others() - e.Lists() == old(Rest(e))
      ensures var (s, d) := LuaGen.GoIfTrue(old(View()), old(e.View())); View() == s && e.tl == d.t && e.fl == d.f
    {
      hide Valid, Holds, Others, Head, ExpDesc.Lists;
      hide LuaGen.JumpOnCond, NegateCond, Grows, LuaGen.PatchToHere;
      DischargeVars(e);
      var pc;
      ghost var l;
      pc, l := TrueGate(e);
      CloseGate(e, true, pc, l);
    }

    /** The jump that luaK_goiftrue takes when the value is false. */
    method TrueGate(e: ExpDesc) returns (pc: int, ghost l: seq<int>)
      requires Valid() && Holds(e)
      modifies this, e`k, e`info
      ensures Valid() && e.t == Head(e.tl) && e.f == Head(e.fl) && e.Lists() <= Others()
      ensures (e.tl == e.fl ==> e.tl == []) && pc == Head(l)
      ensures l == [] || (l in Others() && l != e.tl && l != e.fl)
      ensures Others() - {l} - e.Lists() == old(Rest(e))
      ensures var (s, d) := old((View(), e.View()));
        (View(), l) == if d.k == VJmp then (s.(code := NegateCond(s.code, d.info - 1)), [d.info])
                       else if d.k == VK || d.k == VKNum || d.k == VTrue then (s, [])
                       else LuaGen.JumpOnCond(s, d, false)
    {
      hide Valid, Holds, Others, Rest, Head, ExpDesc.Own, ExpDesc.Lists, LuaGen.JumpOnCond, NegateCond;
      EmptyHead();
      OwnedLists(e);
      pc, l := NO_JUMP, [];
      if e.k == VJmp {
        pc, l := e.info, [e.info];
        InvertJump(e);
        OwnedLists(e);
      } else if !(e.k == VK || e.k == VKNum || e.k == VTrue) {
        pc, l := JumpOnCond(e, false);
        ListsOwned(e);
      }
    }

    /** The lists of a descriptor are live, and so is the jump of a comparison. */
    lemma OwnedLists(e: ExpDesc)
      requires Valid() && Holds(e)
      ensures e.t == Head(e.tl) && e.f == Head(e.fl) && e.Lists() <= Others() && (e.tl == e.fl ==> e.tl == [])
      ensures e.k != VJmp ==> e.Own() == e.Lists() && Others() - {[]} - e.Lists() == Rest(e)
      ensures e.k == VJmp ==> [e.info] in Others() && [e.info] != e.tl && [e.info] != e.fl
      ensures e.k == VJmp ==> Others() - {[e.info]} - e.Lists() == Rest(e)
    {
      hide Linked, Head;
    }

    lemma ListsOwned(e: ExpDesc)
      requires Valid() && e.k != VJmp
      ensures e.Own() == e.Lists() && forall l :: l != [] && l !in e.Lists() ==> l != e.tl && l != e.fl
      ensures [] !in Others()
    {
      hide Linked, Head;
    }

    /** luaK_goiffalse. */
    method GoIfFalse(e: ExpDesc)
      requires Valid() && Holds(e)
      modifies this, e
      ensures Valid() && e.Lists() <= Others() && e.t == Head(e.tl) && e.f == Head(e.fl)
      ensures Others() - e.Lists() == old(Rest(e))
      ensures var (s, d) := LuaGen.GoIfFalse(old(View()), old(e.View())); View() == s && e.tl == d.t && e.fl == d.f
    {
      hide Linked, Head, LuaGen.JumpOnCond, Grows, LuaGen.PatchToHere;
      EmptyHead();
      DischargeVars(e);
      var pc := NO_JUMP;
      ghost var l := [];
      if e.k == VJmp {
        pc := e.info;
        l := [pc];
      } else if !(e.k == VNil || e.k == VFalse) {
        pc, l := JumpOnCond(e, true);
      }
      CloseGate(e, false, pc, l);
    }

    // ---------- operators ----------

    /** codenot before the lists are exchanged. */
    method NotValue(e: ExpDesc)
      requires Valid() && Holds(e)
      modifies this, e`k, e`info
      ensures Valid() && Holds(e) && Rest(e) == old(Rest(e))
      ensures (View(), e.View()) == LuaGen.NotValue(old(View()), LuaGen.DischargeVars(old(e.View())))
    {
      hide Valid, Holds, Others, Head, LuaGen.Discharge2AnyReg, LuaGen.Code, Grows, NegateCond;
      DischargeVars(e);
      if e.k == VNil || e.k == VFalse {
        SetTruth(e, true);
      } else if e.k == VK || e.k == VKNum || e.k == VTrue {
        SetTruth(e, false);
      } else if e.k == VJmp {
        InvertJump(e);
      } else {
        NotInstr(e);
      }
    }

    /** The negation of a value that is known. */
    method SetTruth(e: ExpDesc, b: bool)
      requires Holds(e) && e.k != VJmp
      modifies e`k
      ensures Holds(e) && Rest(e) == old(Rest(e)) && e.View() == old(e.View()).(k := if b then VTrue else VFalse)
    {
      e.k := if b then VTrue else VFalse;
    }

    method NotInstr(e: ExpDesc)
      requires Valid() && Holds(e) && e.k != VJmp
      modifies this, e`k, e`info
      ensures Valid() && Holds(e) && Rest(e) == old(Rest(e))
      ensures var (s1, e1) := LuaGen.Discharge2AnyReg(old(View()), old(e.View()));
        var s2 := LuaGen.Code(LuaGen.FreeExp(s1, e1), Not(0, e1.info));
        View() == s2 && e.View() == e1.(k := VReloc, info := |s2.code| - 1)
    {
      hide Linked, Head, LuaGen.Discharge2AnyReg, LuaGen.Code, Grows, LuaGen.FreeExp;
      AnyRegKind(View(), e.View());
      Discharge2AnyReg(e);
      FreeExp(e);
      EmitDelayed(e, Not(0, e.info));
    }

    /** Emits an instruction whose register is still to be chosen. */
    method EmitDelayed(e: ExpDesc, i: Instr)
      requires Valid() && Holds(e) && (e.k == VNonReloc || e.k == VK) && !i.Jmp?
      modifies this, e`k, e`info
      ensures Valid() && Holds(e) && Rest(e) == old(Rest(e)) && e.Own() == old(e.Own())
      ensures View() == LuaGen.Code(old(View()), i)
      ensures e.View() == old(e.View()).(k := VReloc, info := |marked| - 1)
    {
      hide Valid, Head, LuaGen.Code, Grows;
      CodeLast(View(), i);
      e.info := Code(i);
      e.k := VReloc;
    }

    /** codenot. */
    method CodeNot(e: ExpDesc)
      requires Valid() && Holds(e)
      modifies this, e
      ensures Valid() && Holds(e) && Rest(e) == old(Rest(e))
      ensures (View(), e.View()) == LuaGen.CodeNot(old(View()), old(e.View()))
    {
      hide LuaGen.NotValue, Grows, Linked, Head, RemoveValues;
      NotValue(e);
      SwapLists(e);
      StripList(e.f, e.fl, e);
      StripList(e.t, e.tl, e);
    }

    /** The false list becomes the true list and the other way round. */
    method SwapLists(e: ExpDesc)
      requires Valid() && Holds(e)
      modifies e`t, e`f, e`tl, e`fl
      ensures Holds(e) && e.Own() == old(e.Own()) && e.View() == WithLists(old(e.View()), old(e.fl), old(e.tl))
    {
      e.f, e.t, e.fl, e.tl := e.t, e.f, e.tl, e.fl;
    }

    method StripList(list: int, ghost l: seq<int>, ghost e: ExpDesc)
      requires Valid() && Holds(e) && (l == e.tl || l == e.fl) && list == Head(l)
      modifies this`code, this`marked
      ensures Valid() && Holds(e) && View() == old(View()).(code := RemoveValues(old(marked), l))
    {
      hide Linked, Head;
      RemoveListValues(list, l);
    }

    /** The two operands are descriptors of this function with lists of their own. */
    ghost predicate Pair(e1: ExpDesc, e2: ExpDesc)
      reads `marked, `live, `jl, e1, e2
    {
      && e1 != e2 && Holds(e2) && e1.t == Head(e1.tl) && e1.f == Head(e1.fl) && (e1.tl == e1.fl ==> e1.tl == [])
      && e1.Lists() <= Others() && e1.Lists() !! e2.Own()
    }

    ghost function RestOfPair(e1: ExpDesc, e2: ExpDesc): set<seq<int>>
      reads `live, `jl, e1, e2
    {
      Others() - e1.Lists() - e2.Own()
    }

    /** luaK_exp2RK on one of two operands. */
    method OperandOf(e1: ExpDesc, e2: ExpDesc) returns (o: int)
      requires Valid() && Pair(e1, e2)
      modifies this, e2
      ensures Valid() && Pair(e1, e2) && Others() == old(Others() - e2.Own()) && e2.Own() == {} == e2.Lists()
      ensures (View(), e2.View(), o) == LuaGen.Exp2RK(old(View()), old(e2.View()))
      ensures e2.k == VK || e2.k == VNonReloc
    {
      hide Linked, Head, LuaGen.Exp2RK, Grows;
      RKKind(View(), e2.View());
      o := Exp2RK(e2);
      assert e2.Own() == {};
      assert Others() == old(Rest(e2));
    }

    /** codearith. */
    method CodeArith(m: Machine, op: ArithOp, e1: ExpDesc, e2: ExpDesc)
      requires Valid() && Pair(e1, e2) && e1.k != VReloc && e1.k != VJmp
      modifies this, e1, e2
      ensures Valid() && Holds(e1) && Rest(e1) == old(RestOfPair(e1, e2))
      ensures (View(), e1.View()) == LuaGen.CodeArith(m, old(View()), op, old(e1.View()), old(e2.View()))
    {
      hide Valid, Holds, Others, Pair, RestOfPair, Rest, Head, LuaGen.Exp2RK, Grows, LuaGen.Code;
      var folded := FoldArith(m, op, e1, e2);
      if !folded { EmitArith(op, e1, e2); }
    }

    /** constfolding. */
    method FoldArith(m: Machine, op: ArithOp, e1: ExpDesc, e2: ExpDesc) returns (folded: bool)
      requires Valid() && Pair(e1, e2)
      modifies e1`nval
      ensures folded == Foldable(op, old(e1.View()), e2.View()) && e2.View() == old(e2.View())
      ensures !folded ==> Pair(e1, e2) && RestOfPair(e1, e2) == old(RestOfPair(e1, e2)) && e1.View() == old(e1.View())
      ensures folded ==> Holds(e1) && Rest(e1) == old(RestOfPair(e1, e2))
      ensures folded ==> e1.View() == old(e1.View()).(nval := m.arith(op, old(e1.nval), e2.nval))
    {
      hide Valid, Head;
      folded := TestNumeral(e1);
      if folded { folded := TestNumeral(e2); }
      if !folded || ((op == Div || op == Mod) && IsZero(e2.nval)) { return false; }
      e1.nval := m.arith(op, e1.nval, e2.nval);
      assert e1.Own() == {} == e1.Lists() && e2.Own() == {};
    }

    /** codearith when nothing is folded. */
    method EmitArith(op: ArithOp, e1: ExpDesc, e2: ExpDesc)
      requires Valid() && Pair(e1, e2) && e1.k != VReloc && e1.k != VJmp
      modifies this, e1, e2
      ensures Valid() && Holds(e1) && Rest(e1) == old(RestOfPair(e1, e2))
      ensures var (s1, d2, o2) := LuaGen.Exp2RK(old(View()), old(e2.View()));
        var (s2, d1, o1) := LuaGen.Exp2RK(s1, old(e1.View()));
        var s3 := LuaGen.Code(FreeBoth(s2, d1, d2, o1, o2), Arith(op, 0, o1, o2));
        View() == s3 && e1.View() == Relocatable(s3, d1)
    {
      hide Linked, Head, LuaGen.Exp2RK, Grows, LuaGen.Code, LuaGen.FreeExp;
      var o2 := OperandOf(e1, e2);
      assert Pair(e2, e1);
      var o1 := OperandOf(e2, e1);
      FreeOperands(e1, e2, o1, o2);
      EmitDelayed(e1, Arith(op, 0, o1, o2));
    }

    /** Frees the registers of two operands, the higher one first. */
    method FreeOperands(e1: ExpDesc, e2: ExpDesc, o1: int, o2: int)
      modifies this`freereg
      ensures View() == FreeBoth(old(View()), e1.View(), e2.View(), o1, o2)
    {
      if o1 > o2 {
        FreeExp(e1);
        FreeExp(e2);
      } else {
        FreeExp(e2);
        FreeExp(e1);
      }
    }

    /** isnumeral, which looks at the heads of the lists. */
    method TestNumeral(e: ExpDesc) returns (b: bool)
      requires Valid() && e.t == Head(e.tl) && e.f == Head(e.fl) && e.Lists() <= Others()
      ensures b == IsNumeral(e.View())
    {
      ChainFrom(code, e.tl, 0);
      ChainFrom(code, e.fl, 0);
      b := e.k == VKNum && e.t == NO_JUMP && e.f == NO_JUMP;
    }

    /** codearith for the unary operators. */
    method CodeUnary(len: bool, e: ExpDesc)
      requires Valid() && Holds(e)
      modifies this, e
      ensures Valid() && Holds(e) && Rest(e) == old(Rest(e))
      ensures (View(), e.View()) == LuaGen.CodeUnary(old(View()), len, old(e.View()))
    {
      hide Valid, Head, LuaGen.Exp2RK, LuaGen.Exp2AnyReg, Grows, LuaGen.Code;
      var reg := Exp2AnyReg(e);
      RKKind(View(), e.View());
      var o := Exp2RK(e);
      hide Holds, Others;
      FreeExp(e);
      EmitDelayed(e, UnaryInstr(len, o));
    }

    /** codecomp. */
    method CodeComp(op: CmpOp, cond: bool, e1: ExpDesc, e2: ExpDesc)
      requires Valid() && Pair(e1, e2) && IsOperand(e1.View())
      modifies this, e1, e2
      ensures Valid() && Holds(e1) && Rest(e1) == old(RestOfPair(e1, e2))
      ensures (View(), e1.View()) == LuaGen.CodeComp(old(View()), op, cond, old(e1.View()), old(e2.View()))
    {
      hide Valid, Holds, Others, Pair, RestOfPair, Head, ExpDesc.Own, ExpDesc.Lists;
      hide LuaGen.Exp2RK, Grows, LuaGen.CondJump, CompInstr;
      PairApart(e1, e2);
      CompKind(op, cond);
      var o1 := OperandHeld(e1, e2);
      var o2 := OperandOf(e1, e2);
      HeldHolds(e1, e2);
      FreeExp(e2);
      FreeExp(e1);
      EmitComparison(e1, CompInstr(op, cond, o1, o2));
    }

    lemma PairApart(e1: ExpDesc, e2: ExpDesc)
      requires Pair(e1, e2)
      ensures e1 != e2
    {}

    /** An operand without lists is a descriptor of its own. */
    lemma HeldHolds(e1: ExpDesc, e2: ExpDesc)
      requires Valid() && Pair(e1, e2) && IsOperand(e1.View()) && e2.Own() == {}
      ensures Holds(e1) && e1.Own() == {} && Rest(e1) == Others()
    {
      hide Valid, Head;
    }

    /** luaK_exp2RK on an operand that is in its place. */
    method OperandHeld(e1: ExpDesc, e2: ExpDesc) returns (o: int)
      requires Valid() && Pair(e1, e2) && IsOperand(e1.View())
      modifies this, e1
      ensures Valid() && Pair(e1, e2) && Others() - e2.Own() == old(RestOfPair(e1, e2))
      ensures View() == old(View()) && e1.View() == old(e1.View())
      ensures (View(), e1.View(), o) == LuaGen.Exp2RK(old(View()), old(e1.View()))
    {
      hide Valid, Head, LuaGen.Exp2RK, Grows;
      OperandStays(View(), e1.View());
      assert e1.Own() == {} == e1.Lists();
      o := OperandOf(e2, e1);
      assert Pair(e1, e2);
    }

    method EmitComparison(e: ExpDesc, i: Instr)
      requires Valid() && Holds(e) && e.Own() == {} && i.Cmp?
      modifies this, e`k, e`info
      ensures Valid() && Holds(e) && Rest(e) == old(Others())
      ensures View() == LuaGen.CondJump(old(View()), i).0 && e.View() == old(e.View()).(k := VJmp, info := |marked| - 1)
    {
      ghost var l;
      e.info, l := CondJump(i);
      e.k := VJmp;
      assert l == [e.info];
    }

    /** luaK_prefix. */
    method Prefix(m: Machine, op: UnOp, e: ExpDesc)
      requires Valid() && Holds(e)
      modifies this, e
      ensures Valid() && Holds(e) && Rest(e) == old(Rest(e))
      ensures (View(), e.View()) == LuaGen.Prefix(m, old(View()), op, old(e.View()))
    {
      hide Linked, Head, LuaGen.CodeNot, LuaGen.CodeUnary, Grows;
      match op {
        case OpNeg =>
          var numeral := TestNumeral(e);
          if numeral {
            e.nval := m.neg(e.nval);
          } else {
            CodeUnary(false, e);
          }
        case OpNot => CodeNot(e);
        case OpLen => CodeUnary(true, e);
      }
    }

    /** A left operand that waits while the right one is compiled. */
    ghost predicate Waits(op: BinOp, e: ExpDesc)
      reads e
    {
      && e.t == Head(e.tl) && e.f == Head(e.fl) && (e.tl == e.fl ==> e.tl == [])
      && (op == OpAnd ==> e.tl == []) && (op == OpOr ==> e.fl == [])
      && (op != OpAnd && op != OpOr ==> IsOperand(e.View()) || (op.OpArith? && IsNumeral(e.View())))
    }

    /** luaK_infix. */
    method Infix(op: BinOp, e: ExpDesc)
      requires Valid() && Holds(e)
      modifies this, e
      ensures Valid() && Waits(op, e) && e.Lists() <= Others() && Others() - e.Lists() == old(Rest(e))
      ensures var (s, d) := LuaGen.Infix(old(View()), op, old(e.View()));
        View() == s && e.tl == d.t && e.fl == d.f && (op != OpAnd && op != OpOr ==> e.View() == d)
    {
      hide Linked, Head, LuaGen.GoIfTrue, LuaGen.GoIfFalse, LuaGen.Exp2RK, Grows;
      GateLists(View(), e.View());
      RKKind(View(), e.View());
      var numeral := TestNumeral(e);
      if op == OpAnd {
        GoIfTrue(e);
      } else if op == OpOr {
        GoIfFalse(e);
      } else if !(op.OpArith? && numeral) {
        var o := Exp2RK(e);
      }
    }

    /** luaK_posfix: the result is left in `e1`. */
    method Posfix(m: Machine, op: BinOp, e1: ExpDesc, e2: ExpDesc)
      requires Valid() && Pair(e1, e2) && Waits(op, e1)
      modifies this, e1, e2
      ensures Valid() && Holds(e1) && Rest(e1) == old(RestOfPair(e1, e2))
      ensures (View(), e1.View()) == LuaGen.Posfix(m, old(View()), op, old(e1.View()), old(e2.View()))
    {
      hide Linked, Head, LuaGen.CodeArith, LuaGen.CodeComp, Grows;
      match op {
        case OpAnd =>
          DischargeVars(e2);
          JoinFalse(e2, e1);
          Replace(e1, e2);
        case OpOr =>
          DischargeVars(e2);
          JoinTrue(e2, e1);
          Replace(e1, e2);
        case OpArith(a) => CodeArith(m, a, e1, e2);
        case OpCompare(c) => CodeComp(c, true, e1, e2);
        case OpDiffers(c) => CodeComp(c, false, e1, e2);
      }
    }

    /** The whole descriptor `e2` takes the place of `e1`. */
    method Replace(e1: ExpDesc, e2: ExpDesc)
      requires Holds(e2)
      modifies e1
      ensures Holds(e1) && e1.View() == e2.View() && Rest(e1) == old(Rest(e2))
    {
      e1.k, e1.info, e1.nval, e1.t, e1.f, e1.tl, e1.fl := e2.k, e2.info, e2.nval, e2.t, e2.f, e2.tl, e2.fl;
    }

    ghost predicate Present(l: seq<int>)
      reads `live, `jl
    {
      l == [] || l in Others()
    }

    /** Appends one live list to another; `w` and `own` are lists that must not be touched. */
    method JoinLists(l1: int, l2: int, ghost s1: seq<int>, ghost s2: seq<int>, ghost w: seq<int>, ghost own: seq<int>)
      returns (r: int)
      requires Valid() && l1 == Head(s1) && l2 == Head(s2)
      requires Present(s1) && Present(s2) && Present(w) && Present(own) && (s1 == s2 ==> s1 == [])
        && (w == s1 || w == s2 ==> w == [])
      requires own == s1 || own == s2 || own == w ==> own == []
      modifies this`code, this`live
      ensures Valid() && View() == old(View()) && r == Head(s1 + s2)
      ensures Present(s1 + s2) && Present(w) && Present(own) && [] !in Others()
      ensures (s1 + s2 == w ==> w == []) && (own != [] ==> s1 + s2 != own)
      ensures Others() - {s1 + s2, w, own} == old(Others()) - {s1, s2, w, own}
    {
      JoinedSets(code, marked, live, jl, s1, s2, w, own);
      hide Linked, Head;
      r := Concat(l1, l2, s1, s2);
    }

    /** The exits on false of `from` go to the end of those of `e`. */
    method JoinFalse(e: ExpDesc, from: ExpDesc)
      requires Valid() && Pair(from, e) && from.tl == []
      modifies this`code, this`live, e`f, e`fl
      ensures Valid() && Holds(e) && View() == old(View()) && Rest(e) == old(RestOfPair(from, e))
      ensures e.View() == old(e.View()).(f := old(e.fl) + from.fl)
    {
      hide Valid, Holds, Pair, Others, Rest, RestOfPair, Present, KindHolds, Head, ExpDesc.Own, ExpDesc.Lists;
      ghost var own := if e.k == VJmp then [e.info] else [];
      JoinReady(e, from, own);
      e.f := JoinLists(e.f, from.f, e.fl, from.fl, e.tl, own);
      e.fl := e.fl + from.fl;
      HoldsAgain(e, own);
    }

    /** The exits on true of `from` go to the end of those of `e`. */
    method JoinTrue(e: ExpDesc, from: ExpDesc)
      requires Valid() && Pair(from, e) && from.fl == []
      modifies this`code, this`live, e`t, e`tl
      ensures Valid() && Holds(e) && View() == old(View()) && Rest(e) == old(RestOfPair(from, e))
      ensures e.View() == old(e.View()).(t := old(e.tl) + from.tl)
    {
      hide Valid, Holds, Pair, Others, Rest, RestOfPair, Present, KindHolds, Head, ExpDesc.Own, ExpDesc.Lists;
      ghost var own := if e.k == VJmp then [e.info] else [];
      JoinReady(e, from, own);
      e.t := JoinLists(e.t, from.t, e.tl, from.tl, e.fl, own);
      e.tl := e.tl + from.tl;
      HoldsAgain(e, own);
    }

    /** What the instruction of a descriptor must be. */
    ghost predicate KindHolds(e: ExpDesc)
      reads `marked, e`k, e`info
    {
      && (e.k == VReloc ==> 0 <= e.info == |marked| - 1 && !marked[e.info].Jmp?)
      && (e.k == VJmp ==> 1 <= e.info == |marked| - 1 && marked[e.info - 1].Cmp?)
    }

    /** The lists of two descriptors are live and differ from each other. */
    lemma JoinReady(e: ExpDesc, from: ExpDesc, own: seq<int>)
      requires Valid() && Pair(from, e) && own == if e.k == VJmp then [e.info] else []
      ensures Present(e.tl) && Present(e.fl) && Present(from.tl) && Present(from.fl) && Present(own)
      ensures e.t == Head(e.tl) && e.f == Head(e.fl) && from.t == Head(from.tl) && from.f == Head(from.fl)
      ensures (e.tl == e.fl ==> e.tl == []) && KindHolds(e)
      ensures e.tl == from.tl || e.tl == from.fl ==> e.tl == []
      ensures e.fl == from.fl || e.fl == from.tl ==> e.fl == []
      ensures own == e.tl || own == e.fl || own == from.tl || own == from.fl ==> own == []
      ensures from.tl == [] ==> RestOfPair(from, e) == Others() - {e.fl, from.fl, e.tl, own}
      ensures from.fl == [] ==> RestOfPair(from, e) == Others() - {e.tl, from.tl, e.fl, own}
    {
      hide Linked, Head;
    }

    lemma HoldsAgain(e: ExpDesc, own: seq<int>)
      requires Valid() && Present(e.tl) && Present(e.fl) && Present(own) && KindHolds(e)
      requires own == if e.k == VJmp then [e.info] else []
      requires e.t == Head(e.tl) && e.f == Head(e.fl) && (e.tl == e.fl ==> e.tl == [])
      requires own != [] ==> own != e.tl && own != e.fl
      ensures Holds(e) && Rest(e) == Others() - {e.fl, e.tl, own} == Others() - {e.tl, e.fl, own}
    {
      hide Linked, Head;
    }

    // ---------- the parser's driving of the generator ----------

    /** simpleexp and subexpr on a parsed expression. */
    method CompileExpr(m: Machine, x: Expr) returns (e: ExpDesc)
      requires Valid()
      modifies this
      ensures fresh(e) && Valid() && Holds(e) && Rest(e) == old(Others())
      ensures (View(), e.View()) == LuaGen.Compile(m, old(View()), x)
      decreases x, 2
    {
      hide Valid, Holds, Others, Rest, Head, LuaGen.Prefix, LuaGen.Infix, LuaGen.Posfix, LuaGen.AddK, Grows;
      match x {
        case ENil => e := InitExp(VNil, 0, Finite(0.0));
        case ETrue => e := InitExp(VTrue, 0, Finite(0.0));
        case EFalse => e := InitExp(VFalse, 0, Finite(0.0));
        case ENum(n) => e := InitExp(VKNum, 0, n);
        case EStr(str) =>
          var i := AddK(Of(String(str)), String(str));
          e := InitExp(VK, i, Finite(0.0));
        case ELocal(reg) => e := InitExp(VLocal, reg, Finite(0.0));
        case EParen(y) => e := CompileExpr(m, y); DischargeVars(e);
        case EUn(op, y) => e := CompileExpr(m, y); Prefix(m, op, e);
        case EBin(op, l, r) => e := CompileBinary(m, op, l, r);
      }
    }

    /** init_exp. */
    method InitExp(k: Kind, info: int, nval: Num) returns (e: ExpDesc)
      requires k != VJmp && k != VReloc
      ensures fresh(e) && Holds(e) && Rest(e) == Others() && e.View() == Exp(k, info, nval, [], [])
    {
      e := new ExpDesc(k, info, nval);
    }

    /** subexpr on a binary operator. */
    method CompileBinary(m: Machine, op: BinOp, l: Expr, r: Expr) returns (e: ExpDesc)
      requires Valid()
      modifies this
      ensures fresh(e) && Valid() && Holds(e) && Rest(e) == old(Others())
      ensures (View(), e.View()) == LuaGen.Compile(m, old(View()), EBin(op, l, r))
      decreases EBin(op, l, r), 1
    {
      hide Valid, Holds, Others, Waits, Head, ExpDesc.Lists, LuaGen.Compile, LuaGen.Infix, LuaGen.Posfix, Grows;
      ghost var s := View();
      BinaryIs(m, s, op, l, r);
      e := CompileLeft(m, op, l);
      ghost var (s1, d1) := LuaGen.Compile(m, s, l);
      ghost var (s2, d2) := LuaGen.Infix(s1, op, d1);
      ghost var (s3, d3) := LuaGen.Compile(m, s2, r);
      SameLeft(m, s3, op, d2, e.View(), d3);
      CompileRight(m, op, r, e);
    }

    /** The left operand and luaK_infix. */
    method CompileLeft(m: Machine, op: BinOp, l: Expr) returns (e: ExpDesc)
      requires Valid()
      modifies this
      ensures fresh(e) && Valid() && Waits(op, e) && e.Lists() <= Others() && Others() - e.Lists() == old(Others())
      ensures var (s1, d1) := LuaGen.Compile(m, old(View()), l);
        var (s2, d2) := LuaGen.Infix(s1, op, d1);
        View() == s2 && e.tl == d2.t && e.fl == d2.f && (op != OpAnd && op != OpOr ==> e.View() == d2)
      decreases l, 3
    {
      hide Valid, Holds, Others, Rest, Waits, Head, ExpDesc.Lists, LuaGen.Compile, LuaGen.Infix, Grows;
      e := CompileExpr(m, l);
      Infix(op, e);
    }

    /** The right operand and luaK_posfix. */
    method CompileRight(m: Machine, op: BinOp, r: Expr, e: ExpDesc)
      requires Valid() && Waits(op, e) && e.Lists() <= Others()
      modifies this, e
      ensures Valid() && Holds(e) && Rest(e) == old(Others() - e.Lists())
      ensures var (s3, d3) := LuaGen.Compile(m, old(View()), r);
        (View(), e.View()) == LuaGen.Posfix(m, s3, op, old(e.View()), d3)
      decreases r, 3
    {
      hide Valid, Holds, Others, Rest, Pair, RestOfPair, Waits, Head, ExpDesc.Lists, LuaGen.Compile, LuaGen.Posfix,
        Grows;
      ghost var O := Others();
      var e2 := CompileExpr(m, r);
      Paired(op, e, e2, O);
      Posfix(m, op, e, e2);
    }

    /** The left operand has waited while the right one was compiled. */
    lemma Paired(op: BinOp, e: ExpDesc, e2: ExpDesc, O: set<seq<int>>)
      requires e != e2 && Holds(e2) && Rest(e2) == O && e.Lists() <= O && Waits(op, e)
      ensures Pair(e, e2) && RestOfPair(e, e2) == O - e.Lists()
    {
      hide Head, ExpDesc.Own, ExpDesc.Lists;
    }

    /** The end of a statement or block. */
    method CloseScope(n: int)
      modifies this`nactvar, this`freereg
      ensures View() == Close(old(View()), n)
    {
      nactvar, freereg := n, n;
    }

    /** Compiles a condition; the list returned is taken when it is false. */
    method Condition(m: Machine, cond: Expr) returns (jf: int, ghost l: seq<int>)
      requires Valid()
      modifies this
      ensures Valid() && jf == Head(l) && Present(l) && Others() - {l} == old(Others())
      ensures var (s1, e) := LuaGen.Compile(m, old(View()), cond);
        var (s2, d) := LuaGen.GoIfTrue(s1, e);
        View() == s2 && l == d.f
    {
      hide Linked, Head, LuaGen.Compile, LuaGen.GoIfTrue, Grows;
      var e := CompileExpr(m, cond);
      GateLists(View(), e.View());
      GoIfTrue(e);
      jf, l := e.f, e.fl;
    }

    /** luaK_exp2nextreg on a descriptor that is not needed any more. */
    method CloseValue(e: ExpDesc)
      requires Valid() && Holds(e)
      modifies this, e
      ensures Valid() && Others() == old(Rest(e)) && View() == LuaGen.Exp2NextReg(old(View()), old(e.View())).0
    {
      hide Linked, Head, LuaGen.Exp2NextReg, Grows;
      StoredKind(View(), e.View(), 0);
      Exp2NextReg(e);
      assert e.Own() == {};
    }

    /** explist: every value but the last is in a register of its own. */
    method ExpList(m: Machine, xs: seq<Expr>) returns (e: ExpDesc)
      requires Valid() && xs != []
      modifies this
      ensures fresh(e) && Valid() && Holds(e) && Rest(e) == old(Others())
      ensures (View(), e.View()) == LuaGen.Compile(m, CompileValues(m, old(View()), xs[..|xs| - 1]), xs[|xs| - 1])
    {
      hide Linked, Head, LuaGen.Compile, LuaGen.Exp2NextReg, Grows, Holds;
      assert xs[..0] == [];
      e := CompileExpr(m, xs[0]);
      var n := 1;
      while n < |xs|
        invariant 1 <= n <= |xs| && fresh(e) && Valid() && Holds(e) && Rest(e) == old(Others())
        invariant (View(), e.View()) == LuaGen.Compile(m, CompileValues(m, old(View()), xs[..n - 1]), xs[n - 1])
      {
        assert xs[..n][..n - 1] == xs[..n - 1];
        CloseValue(e);
        e := CompileExpr(m, xs[n]);
        n := n + 1;
      }
    }

    /** adjust_assign; there is no descriptor if there is no value. */
    method AdjustAssign(nvars: int, nexps: int, e: ExpDesc?)
      requires Valid() && (e != null ==> Holds(e))
      modifies this, if e != null then {e} else {}
      ensures Valid() && Others() == old(if e == null then Others() else Rest(e))
      ensures var s1 := old(if e == null then View() else LuaGen.Exp2NextReg(View(), e.View()).0);
        View() == PadNil(s1, nvars - nexps)
    {
      hide Linked, Head, LuaGen.CodeNil, LuaGen.Exp2NextReg, Grows, Holds;
      var extra := nvars - nexps;
      if e != null { CloseValue(e); }
      if extra > 0 {
        var reg := freereg;
        ReserveRegs(extra);
        CodeNil(reg, extra);
      }
    }

    /** localstat. */
    method CompileLocal(m: Machine, names: nat, values: seq<Expr>)
      requires Valid()
      modifies this
      ensures Valid() && Others() == old(Others()) && View() == LuaLocals.CompileLocal(m, old(View()), names, values)
    {
      hide Linked, Head, LuaGen.Compile, PadNil, LuaGen.Exp2NextReg, Grows, Holds, Longer;
      var n := nactvar;
      if values == [] {
        AdjustAssign(names, 0, null);
      } else {
        var e := ExpList(m, values);
        AdjustAssign(names, |values|, e);
      }
      CloseScope(n + names);
    }

    /** luaK_storevar on a local. */
    method StoreVar(target: int, e: ExpDesc)
      requires Valid() && Holds(e)
      modifies this, e
      ensures Valid() && Others() == old(Rest(e))
      ensures View() == LuaGen.Exp2Reg(LuaGen.FreeExp(old(View()), old(e.View())), old(e.View()), target).0
    {
      hide Linked, Head, LuaGen.Exp2Reg, LuaGen.FreeExp, Grows;
      FreeExp(e);
      StoredKind(View(), e.View(), target);
      Exp2Reg(e, target);
      assert e.Own() == {};
    }

    /** The stores from the top of the stack, as the calls of assignment return: the last target first. */
    method StoreTops(targets: seq<int>)
      requires Valid()
      modifies this
      ensures Valid() && Others() == old(Others()) && View() == LuaLocals.StoreTops(old(View()), targets)
    {
      hide Linked, Head, LuaGen.Exp2Reg, LuaGen.FreeExp, Grows;
      EmptyHead();
      ghost var s := View();
      var left := |targets|;
      assert targets[..left] == targets;
      while left > 0
        invariant 0 <= left <= |targets| && Valid() && Others() == old(Others())
        invariant LuaLocals.StoreTops(View(), targets[..left]) == LuaLocals.StoreTops(s, targets)
      {
        left := left - 1;
        assert targets[..left + 1][..left] == targets[..left];
        var e := new ExpDesc(VNonReloc, freereg - 1, Finite(0.0));
        StoreVar(targets[left], e);
      }
    }

    /** assignment, once its targets are parsed. */
    method CompileAssign(m: Machine, targets: seq<int>, values: seq<Expr>)
      requires Valid() && targets != [] && values != []
      modifies this
      ensures Valid() && Others() == old(Others()) && View() == LuaLocals.CompileAssign(m, old(View()), targets, values)
    {
      hide Linked, Head, LuaGen.Compile, PadNil, LuaGen.Exp2NextReg, LuaGen.Exp2Reg, LuaGen.FreeExp,
        LuaLocals.StoreTops;
      hide Grows, Holds, Longer;
      var n, nvars, nexps := nactvar, |targets|, |values|;
      var e := ExpList(m, values);
      if nexps != nvars {
        AdjustAssign(nvars, nexps, e);
        if nexps > nvars { freereg := freereg - (nexps - nvars); }
        StoreTops(targets);
      } else {
        StoreVar(targets[nvars - 1], e);
        StoreTops(targets[..nvars - 1]);
      }
      CloseScope(n);
    }

    method CompileStatement(m: Machine, st: Stmt)
      requires Valid()
      modifies this
      ensures Valid() && View() == CompileStmt(m, old(View()), st) && Others() == old(Others())
      decreases st, 0
    {
      hide Linked, Head, LuaGen.Compile, LuaGen.GoIfTrue, LuaGen.CodeNil, LuaGen.Exp2NextReg, LuaGen.Exp2Reg,
        LuaGen.Jump, LuaGen.FreeExp, Grows, Longer;
      var n := nactvar;
      match st {
        case Local(names, values) => CompileLocal(m, names, values);
        case Assign(targets, values) => CompileAssign(m, targets, values);
        case IfThen(cond, body) =>
          var jf;
          ghost var l;
          jf, l := Condition(m, cond);
          CompileBody(m, body);
          CloseScope(n);
          PatchToHere(jf, l);
        case IfElse(cond, body, orelse) =>
          var jf, escape;
          ghost var l, q;
          jf, l := Condition(m, cond);
          CompileBody(m, body);
          CloseScope(n);
          escape, q := Jump();
          PatchToHere(jf, l);
          CompileBody(m, orelse);
          CloseScope(n);
          PatchToHere(escape, q);
      }
    }

    /** luaK_ret; with no list left, no jump is pending any more. */
    method Ret(first: int, nret: int)
      requires Valid()
      modifies this
      ensures Valid() && View() == LuaGen.Code(old(View()), Return(first, nret + 1)) && live == old(Others())
      ensures live == {} ==> code == marked && forall j :: 0 <= j < |code| ==> code[j] != Jmp(NO_JUMP)
    {
      var pc := Code(Return(first, nret + 1));
      assert jl == [] && live == Others();
      if live == {} {
        LinkedNone(code, marked);
        forall j | 0 <= j < |code| ensures code[j] != Jmp(NO_JUMP) { assert !Open(marked, j); }
      }
    }

    method CompileBody(m: Machine, b: seq<Stmt>)
      requires Valid()
      modifies this
      ensures Valid() && View() == CompileBlock(m, old(View()), b) && Others() == old(Others())
      decreases b, 1
    {
      hide Linked, Head, CompileStmt, Longer;
      if b != [] {
        CompileStatement(m, b[0]);
        CompileBody(m, b[1..]);
      }
    }
  }

  /** A descriptor put into a register has no lists left. */
  lemma StoredKind(s: FS, e: Exp, reg: int)
    ensures var d := LuaGen.Exp2NextReg(s, e).1; d.k == VNonReloc && !HasJumps(d)
    ensures var d := LuaGen.Exp2Reg(s, e, reg).1; d.k == VNonReloc && !HasJumps(d)
  {}

  /** Compiles a function body and closes it with luaK_ret: no jump is pending any more, the code is
      the specified one, and if its registers fit it behaves as the source from any registers. */
  method CompileMain(m: Machine, b: seq<Stmt>) returns (fs: FuncState)
    requires ScopedBlock(b, 0)
    ensures fresh(fs) && fs.Valid() && fs.View() == CompileFunction(m, b)
    ensures fs.live == {} && forall j :: 0 <= j < |fs.code| ==> fs.code[j] != Jmp(NO_JUMP)
    ensures fs.maxstack < MAX_STACK ==> forall r :: Behaves(m, b, fs.code, fs.k, r)
  {
    hide Linked, CompileBlock, Behaves, Grows, Longer;
    fs := new FuncState();
    fs.CompileBody(m, b);
    fs.Ret(0, 0);
    if fs.maxstack < MAX_STACK {
      forall r ensures Behaves(m, b, fs.code, fs.k, r) { FunctionRun(m, b, r); }
    }
  }

  /** After luaK_infix of a short-circuit operator one list is closed. */
  lemma GateLists(s: FS, e: Exp)
    ensures LuaGen.GoIfTrue(s, e).1.t == [] && LuaGen.GoIfFalse(s, e).1.f == []
  {}

  /** A short-circuit operator only looks at the lists of its left operand. */
  lemma SameLeft(m: Machine, s: FS, op: BinOp, d: Exp, d': Exp, e: Exp)
    requires d.t == d'.t && d.f == d'.f && (op != OpAnd && op != OpOr ==> d == d')
    ensures LuaGen.Posfix(m, s, op, d, e) == LuaGen.Posfix(m, s, op, d', e)
  {
    hide LuaGen.CodeArith, LuaGen.CodeComp;
  }

  lemma BinaryIs(m: Machine, s: FS, op: BinOp, l: Expr, r: Expr)
    ensures var (s1, d1) := LuaGen.Compile(m, s, l);
      var (s2, d2) := LuaGen.Infix(s1, op, d1);
      var (s3, d3) := LuaGen.Compile(m, s2, r);
      LuaGen.Compile(m, s, EBin(op, l, r)) == LuaGen.Posfix(m, s3, op, d2, d3)
  {
    hide LuaGen.Infix, LuaGen.Posfix;
  }

  /** A small constant or a register, without exits. */
  predicate IsOperand(e: Exp) { !HasJumps(e) && (e.k == VNonReloc || (e.k == VK && e.info <= MAX_INDEX_RK)) }

  lemma RKKind(s: FS, e: Exp)
    ensures IsOperand(LuaGen.Exp2RK(s, e).1)
  {}

  lemma AnyRegKind(s: FS, e: Exp)
    requires e.k != VJmp
    ensures LuaGen.Discharge2AnyReg(s, e).1.k == VNonReloc
  {}

  lemma CompKind(op: CmpOp, cond: bool)
    ensures forall o1, o2 :: CompInstr(op, cond, o1, o2).Cmp?
  {}

  lemma OperandStays(s: FS, e: Exp)
    requires IsOperand(e)
    ensures var (s', e', _) := LuaGen.Exp2RK(s, e); s' == s && e' == e
  {}

  lemma EmptyHead()
    ensures Head([]) == NO_JUMP && forall j :: Head([j]) == j
  {}

  /** The LOADBOOLs are no pending jumps, so no list holds their places. */
  lemma LoadBoolsPlaces(s: FS, s': FS, pf: int, pt: int, reg: int, fallsIn: bool, need: bool, t: seq<int>, f: seq<int>)
    requires forall j :: j in t || j in f ==> Open(s.code, j)
    requires (s', pf, pt) == if need then LuaGen.LoadBools(s, reg, fallsIn) else (s, NO_JUMP, NO_JUMP)
    ensures forall j :: j in t || j in f ==> j < |s'.code| && j != pf && j != pt
  {}

  /** The other lists after two were joined into `j`. */
  lemma RestMembers(O': set<seq<int>>, O: set<seq<int>>, j: seq<int>, w: seq<int>, s1: seq<int>, s2: seq<int>)
    requires O' - {j, w, []} == O - {s1, s2, w, []} && [] !in O && [] !in O'
    ensures forall q :: q in O' && q != j && q != w <==> q in O && q != s1 && q != s2 && q != w
  {
    forall q ensures q in O' && q != j && q != w <==> q in O && q != s1 && q != s2 && q != w {
      assert q in O' - {j, w, []} <==> q in O - {s1, s2, w, []};
    }
  }

  /** What joining two lists does to the sets of live lists. */
  lemma JoinedSets(code: seq<Instr>, A: seq<Instr>, live: set<seq<int>>, jl: seq<int>, s1: seq<int>, s2: seq<int>,
                   w: seq<int>, own: seq<int>)
    requires Linked(code, A, live) && (s1 == [] || s1 in live) && (s2 == [] || s2 in live) && (s1 == s2 ==> s1 == [])
    requires (jl == [] || jl in live) && (jl == s1 || jl == s2 ==> jl == [])
    requires (w == [] || w in live) && (w == s1 || w == s2 ==> w == []) && (w == jl ==> w == [])
    requires (own == [] || own in live) && (own == s1 || own == s2 || own == jl || own == w ==> own == [])
    ensures var live' := With(live - {s1, s2}, s1 + s2);
      && [] !in live' && (jl == [] || jl in live') && (w == [] || w in live' - {jl})
      && (own == [] || own in live' - {jl})
      && (s1 + s2 == [] || s1 + s2 in live' - {jl}) && (s1 + s2 == w ==> w == []) && (own != [] ==> s1 + s2 != own)
      && live' - {jl} - {s1 + s2, w, own} == live - {jl} - {s1, s2, w, own}
  {
    JoinApart(code, A, live, s1, s2, jl, w);
    JoinApart(code, A, live, s1, s2, jl, own);
    JoinIsNew(code, A, live, s1, s2);
  }

  /** A list joined from live ones differs from the other live ones. */
  lemma JoinApart(code: seq<Instr>, A: seq<Instr>, live: set<seq<int>>, s1: seq<int>, s2: seq<int>, q: seq<int>,
      w: seq<int>)
    requires Linked(code, A, live) && (s1 == [] || s1 in live) && (s2 == [] || s2 in live) && (s1 == s2 ==> s1 == [])
    requires (q == [] || q in live) && (q == s1 || q == s2 ==> q == [])
    requires (w == [] || w in live) && (w == s1 || w == s2 ==> w == [])
    ensures s1 + s2 != [] ==> s1 + s2 != w && s1 + s2 != q
  {
    if s2 != [] { assert s2[0] in s2 && s2[0] in s1 + s2; } else { assert s1 + s2 == s1; }
  }

  /** A new pending jump, alone and with the jumps that waited for its place. */
  lemma NewJump(code: seq<Instr>, A: seq<Instr>, live: set<seq<int>>, sl: seq<int>)
    requires Linked(code, A, live) && (sl == [] || sl in live)
    ensures var single := [|code|];
      && Linked(code + [Jmp(NO_JUMP)], A + [Jmp(NO_JUMP)], live + {single})
      && single !in live && single + sl !in live && single != sl
      && |code| == |A|
  {
    LinkedJump(code, A, live);
    NewList(code, A, live, [|code|]);
    NewList(code, A, live, [|code|] + sl);
    if sl == [|code|] { NewList(code, A, live, sl); }
  }

  lemma JumpSets(live: set<seq<int>>, single: seq<int>, sl: seq<int>, l: seq<int>)
    requires l != [] && l !in live && single !in live
    ensures With(live + {single} - {single, sl}, l) == live - {sl} + {l}
  {
    assert live + {single} - {single, sl} == live - {sl};
  }

  lemma LinkedNegated(code: seq<Instr>, A: seq<Instr>, live: set<seq<int>>, at: int)
    requires Linked(code, A, live) && 0 <= at < |A| && A[at].Cmp?
    ensures code[at] == A[at] && Linked(NegateCond(code, at), NegateCond(A, at), live)
  {
    LinkedEdit(code, A, NegateCond(code, at), NegateCond(A, at), live);
  }

  lemma RemoveNone(code: seq<Instr>)
    ensures RemoveValues(code, []) == code && forall l: seq<int> :: l[..0] == []
  {}

  lemma PatchNone(code: seq<Instr>, vt: int, reg: int, dt: int)
    ensures Patch(code, [], vt, reg, dt) == code && forall l: seq<int> :: l[..0] == []
  {}

  lemma CodeLast(s: FS, i: Instr)
    ensures var c := LuaGen.Code(s, i).code; |c| > 0 && c[|c| - 1] == i
  {}

  lemma LoadJump(s: FS, e: Exp, reg: int)
    requires e.k == VJmp
    ensures LuaGen.LoadInto(s, e, reg) == s
  {}
}
