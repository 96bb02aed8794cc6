/**
 luaL_ref and luaL_unref: a free list kept in the slots of the table that also holds the values.

 Slot 0 is the head of the list, each free slot holds the index of the next one, and the list ends in nil:
 the last free slot, or the head, is nil. A table that has just become the reference table has no such
 list and its slots 1..k hold other values.
 */
module LuaRefsModel {
  datatype Value = Nil | Int(i: int) | Other(id: int)

  type Table = map<int, Value>

  const FREELIST := 0
  const REFNIL := -1

  function Get(t: Table, k: int): Value { if k in t then t[k] else Nil }

  function ToInteger(v: Value): int { if v.Int? then v.i else 0 }

  /** What lua_rawlen may return: any index that holds a value and whose successor does not. */
  predicate IsBoundary(t: Table, n: nat) { (n == 0 || Get(t, n) != Nil) && Get(t, n + 1) == Nil }

  // ---------- the two operations on the table ----------

  predicate AsksLength(t: Table, v: Value) { v != Nil && ToInteger(Get(t, FREELIST)) == 0 }

  /** luaL_ref, where `len` is what lua_rawlen answers if it is asked. */
  function RefOf(t: Table, v: Value, len: nat): int {
    var head := ToInteger(Get(t, FREELIST));
    if v == Nil then REFNIL else if head != 0 then head else len + 1
  }

  function AfterRef(t: Table, v: Value, len: nat): Table {
    var ref := RefOf(t, v, len);
    if v == Nil then t
    else if ToInteger(Get(t, FREELIST)) != 0 then t[FREELIST := Get(t, ref)][ref := v]
    else t[ref := v]
  }

  function AfterUnref(t: Table, ref: int): Table {
    if ref >= 0 then t[ref := Get(t, FREELIST)][FREELIST := Int(ref)] else t
  }

  // ---------- the allocator ----------

  /** The table with what its users hold: the live references and their values, the free slots in list
      order, the number of slots in use, and the most references ever live at once. */
  datatype World = World(t: Table, live: map<int, Value>, free: seq<int>, size: nat, peak: nat)

  function Link(free: seq<int>, i: nat): Value { if i < |free| then Int(free[i]) else Nil }

  ghost predicate FreeList(t: Table, free: seq<int>) {
    && Get(t, FREELIST) == Link(free, 0)
    && (forall i :: 0 <= i < |free| ==> Get(t, free[i]) == Link(free, i + 1))
  }

  /** Slots 1..size are each live or free, not both; nothing is kept beyond them. */
  ghost predicate SlotsOK(w: World) {
    && (forall k :: k in w.live || k in w.free <==> 1 <= k <= w.size)
    && (forall k :: k in w.live ==> k !in w.free)
    && (forall k :: k > w.size ==> Get(w.t, k) == Nil)
    && (forall i, j :: 0 <= i < j < |w.free| ==> w.free[i] != w.free[j])
  }

  ghost predicate ValuesOK(w: World) { forall k :: k in w.live ==> Get(w.t, k) == w.live[k] && w.live[k] != Nil }

  ghost predicate Inv(w: World) {
    FreeList(w.t, w.free) && SlotsOK(w) && ValuesOK(w) && |w.live| + |w.free| == w.size && w.size == w.peak
  }

  datatype Step = Ref(v: Value, len: nat) | Unref(ref: int)

  /** The length is a boundary of the table; callers release live references, or the ones below 0. */
  predicate Enabled(w: World, s: Step) {
    match s
    case Ref(v, len) => AsksLength(w.t, v) ==> IsBoundary(w.t, len)
    case Unref(ref) => ref < 0 || ref in w.live
  }

  function Max(a: nat, b: int): nat { if a < b then b else a }

  function Next(w: World, s: Step): World {
    match s
    case Ref(v, len) =>
      var ref := RefOf(w.t, v, len);
      if v == Nil then w
      else World(AfterRef(w.t, v, len), w.live[ref := v], if w.free == [] then [] else w.free[1..], Max(w.size, ref),
                 Max(w.peak, |w.live[ref := v]|))
    case Unref(ref) =>
      if ref < 0 then w else World(AfterUnref(w.t, ref), w.live - {ref}, [ref] + w.free, w.size, w.peak)
  }

  // ---------- the length ----------

  /** With no free slot the slots have no hole, so lua_rawlen has one possible answer. */
  lemma LengthIsSize(w: World, len: nat)
    requires Inv(w) && w.free == []
    ensures IsBoundary(w.t, len) <==> len == w.size
  {
    assert w.size > 0 ==> w.size in w.live;
    assert Get(w.t, w.size + 1) == Nil;
    assert len < w.size ==> len + 1 in w.live;
    assert len > w.size ==> Get(w.t, len) == Nil;
  }

  /** The length may be answered as `len` or as the size, and `len` + 1 is on the free list. */
  ghost predicate Misleads(w: World, len: nat) {
    IsBoundary(w.t, len) && IsBoundary(w.t, w.size) && len + 1 in w.free
  }

  /** With a free slot there may be several answers, and one gives out a slot that stays on the list. */
  lemma LengthNeedsNoHole()
    ensures exists w, len: nat :: Inv(w) && Misleads(w, len)
  {
    var t: Table := map[0 := Int(1), 1 := Nil, 2 := Other(7)];
    var w := World(t, map[2 := Other(7)], [1], 2, 2);
    assert |w.live| == 1;
    assert forall k :: k in w.live || k in w.free <==> 1 <= k <= w.size;
    assert FreeList(t, w.free) && SlotsOK(w) && ValuesOK(w);
    assert Misleads(w, 0);
  }

  /** The free list is what decides whether the length is asked for. */
  lemma AsksWhenFull(w: World, v: Value)
    requires Inv(w) && v != Nil
    ensures AsksLength(w.t, v) <==> w.free == []
  {
    if w.free != [] { assert w.free[0] in w.free; }
  }

  // ---------- each operation ----------

  /** A reference is new: not live, and a used slot if there is a free one, else the next. */
  lemma RefIsNew(w: World, v: Value, len: nat)
    requires Inv(w) && Enabled(w, Ref(v, len)) && v != Nil
    ensures RefOf(w.t, v, len) == if w.free == [] then w.size + 1 else w.free[0]
    ensures RefOf(w.t, v, len) !in w.live && RefOf(w.t, v, len) >= 1
  {
    AsksWhenFull(w, v);
    if w.free == [] {
      LengthIsSize(w, len);
    } else {
      assert w.free[0] in w.free;
    }
  }

  lemma RefKeepsList(w: World, v: Value, len: nat)
    requires Inv(w) && Enabled(w, Ref(v, len)) && v != Nil
    ensures FreeList(Next(w, Ref(v, len)).t, Next(w, Ref(v, len)).free)
  {
    RefIsNew(w, v, len);
    AsksWhenFull(w, v);
    if w.free != [] {
      assert forall i :: 0 <= i < |w.free| ==> w.free[i] in w.free;
    }
  }

  lemma TailHas(free: seq<int>)
    requires free != [] && forall i, j :: 0 <= i < j < |free| ==> free[i] != free[j]
    ensures forall k :: k in free[1..] <==> k in free && k != free[0]
  {
    assert free == [free[0]] + free[1..];
  }

  lemma RefKeepsSlots(w: World, v: Value, len: nat)
    requires Inv(w) && Enabled(w, Ref(v, len)) && v != Nil
    ensures SlotsOK(Next(w, Ref(v, len)))
  {
    RefIsNew(w, v, len);
    AsksWhenFull(w, v);
    var w', ref := Next(w, Ref(v, len)), RefOf(w.t, v, len);
    if w.free != [] {
      TailHas(w.free);
      assert w.free[0] in w.free;
    }
    forall k | k > w'.size ensures Get(w'.t, k) == Nil {
      assert Get(w.t, k) == Nil;
    }
    hide FreeList, ValuesOK, IsBoundary, RefOf, Get;
    forall k ensures k in w'.live || k in w'.free <==> 1 <= k <= w'.size {
      assert k in w.live || k in w.free <==> 1 <= k <= w.size;
      assert k in w'.live <==> k == ref || k in w.live;
    }
    forall k | k in w'.live ensures k !in w'.free {
      assert k in w.live || k == ref;
    }
  }

  lemma RefKeepsValues(w: World, v: Value, len: nat)
    requires Inv(w) && Enabled(w, Ref(v, len)) && v != Nil
    ensures ValuesOK(Next(w, Ref(v, len)))
  {
    RefIsNew(w, v, len);
    assert forall k :: k in w.live ==> k >= 1;
    hide FreeList, SlotsOK, IsBoundary, RefOf;
  }

  /** References never grow past the number that were live together. */
  lemma RefKeepsCount(w: World, v: Value, len: nat)
    requires Inv(w) && Enabled(w, Ref(v, len)) && v != Nil
    ensures var w' := Next(w, Ref(v, len)); |w'.live| + |w'.free| == w'.size == w'.peak
  {
    RefIsNew(w, v, len);
    var ref := RefOf(w.t, v, len);
    assert w.live[ref := v].Keys == w.live.Keys + {ref};
    assert |w.live| == |w.live.Keys| && |w.live[ref := v]| == |w.live[ref := v].Keys|;
    if w.free != [] { assert w.free[0] in w.free; }
  }

  lemma UnrefKeepsSlots(w: World, ref: int)
    requires SlotsOK(w) && ValuesOK(w) && ref in w.live
    ensures SlotsOK(Next(w, Unref(ref))) && ValuesOK(Next(w, Unref(ref)))
  {
    assert ref in w.live ==> 1 <= ref <= w.size && ref !in w.free;
    assert forall k :: k in [ref] + w.free <==> k == ref || k in w.free;
    forall k | k > w.size ensures Get(AfterUnref(w.t, ref), k) == Nil {
      assert Get(w.t, k) == Nil;
    }
  }

  lemma UnrefKeepsList(w: World, ref: int)
    requires SlotsOK(w) && FreeList(w.t, w.free) && ref in w.live
    ensures FreeList(Next(w, Unref(ref)).t, Next(w, Unref(ref)).free)
  {
    assert ref in w.live ==> 1 <= ref && ref !in w.free;
    assert forall i :: 0 <= i < |w.free| ==> w.free[i] in w.free;
    assert forall i :: 0 <= i < |w.free| ==> w.free[i] >= 1;
  }

  lemma UnrefKeeps(w: World, ref: int)
    requires Inv(w) && ref in w.live
    ensures Inv(Next(w, Unref(ref)))
  {
    UnrefKeepsSlots(w, ref);
    UnrefKeepsList(w, ref);
    assert ref >= 1;
    hide SlotsOK, ValuesOK, FreeList;
    assert (w.live - {ref}).Keys == w.live.Keys - {ref};
  }

  lemma StepKeeps(w: World, s: Step)
    requires Inv(w) && Enabled(w, s)
    ensures Inv(Next(w, s))
  {
    match s {
      case Ref(v, len) =>
        if v != Nil {
          RefKeepsList(w, v, len);
          RefKeepsSlots(w, v, len);
          RefKeepsValues(w, v, len);
          RefKeepsCount(w, v, len);
        }
      case Unref(ref) => if ref >= 0 { UnrefKeeps(w, ref); }
    }
  }

  // ---------- runs ----------

  ghost predicate IsRun(w: World, steps: seq<Step>, w': World)
    decreases |steps|
  {
    if steps == [] then w' == w else Enabled(w, steps[0]) && IsRun(Next(w, steps[0]), steps[1..], w')
  }

  function Slots(values: seq<Value>): Table {
    if values == [] then map[] else Slots(values[..|values| - 1])[|values| := values[|values| - 1]]
  }

  /** The table as it is before its first reference: `values` in slots 1, 2 and so on, which nobody releases
      but their owners. */
  function Fresh(values: seq<Value>): World { World(Slots(values), Slots(values), [], |values|, |values|) }

  lemma {:induction false} SlotsAre(values: seq<Value>)
    ensures |Slots(values)| == |values|
    ensures forall k :: k in Slots(values) <==> 1 <= k <= |values|
    ensures forall k :: k in Slots(values) ==> Slots(values)[k] == values[k - 1]
  {
    if values != [] {
      var front := Slots(values[..|values| - 1]);
      SlotsAre(values[..|values| - 1]);
      assert Slots(values).Keys == front.Keys + {|values|};
      assert |Slots(values)| == |Slots(values).Keys| && |front| == |front.Keys|;
    }
  }

  lemma FreshOK(values: seq<Value>)
    requires forall v :: v in values ==> v != Nil
    ensures Inv(Fresh(values))
  {
    SlotsAre(values);
    var w := Fresh(values);
    assert forall k :: k in w.live ==> values[k - 1] in values;
  }

  lemma {:induction false} RunKeeps(w: World, steps: seq<Step>, w': World)
    requires Inv(w) && IsRun(w, steps, w')
    ensures Inv(w')
    decreases |steps|
  {
    hide Inv, Next, Enabled;
    if steps != [] {
      StepKeeps(w, steps[0]);
      RunKeeps(Next(w, steps[0]), steps[1..], w');
    }
  }

  /** Over every run from a fresh table: the live values are in the table, each under its reference, and a
      new reference never takes the place of one of them. */
  lemma EveryRun(values: seq<Value>, steps: seq<Step>, w: World, v: Value, len: nat)
    requires (forall u :: u in values ==> u != Nil) && IsRun(Fresh(values), steps, w)
    requires v != Nil && Enabled(w, Ref(v, len))
    ensures Inv(w)
    ensures RefOf(w.t, v, len) >= 1 && RefOf(w.t, v, len) !in w.live
    ensures forall k :: k in w.live ==> Get(AfterRef(w.t, v, len), k) == Get(w.t, k) == w.live[k]
    ensures Get(AfterRef(w.t, v, len), RefOf(w.t, v, len)) == v
  {
    FreshOK(values);
    RunKeeps(Fresh(values), steps, w);
    RefIsNew(w, v, len);
    StepKeeps(w, Ref(v, len));
  }

  /** The slot released last is the one given out next. */
  lemma ReleasedIsReused(w: World, ref: int, v: Value, len: nat)
    requires Inv(w) && ref in w.live && v != Nil
    ensures var t := AfterUnref(w.t, ref); !AsksLength(t, v) && RefOf(t, v, len) == ref
    ensures var t := AfterRef(AfterUnref(w.t, ref), v, len); forall k :: k != ref ==> Get(t, k) == Get(w.t, k)
  {
    UnrefKeeps(w, ref);
    AsksWhenFull(Next(w, Unref(ref)), v);
  }
}

/** The operations as the library runs them on the table. */
module LuaRefsClass {
  import opened LuaRefsModel

  /** How a table is laid out when its length is asked for: the size of its array part, and whether its
      hash part is the shared empty one. */
  datatype Layout = Layout(sizeArray: nat, hashEmpty: bool)

  const MAX_INT: nat := 0x7FFF_FFFD

  ghost predicate Fits(t: Table, layout: Layout) {
    && layout.sizeArray < MAX_INT
    && (forall k :: k >= MAX_INT ==> Get(t, k) == Nil)
    && (layout.hashEmpty ==> forall k :: k > layout.sizeArray ==> Get(t, k) == Nil)
  }

  method UnboundSearch(t: Table, start: nat) returns (n: nat)
    requires start < MAX_INT && (start == 0 || Get(t, start) != Nil)
    requires forall k :: k >= MAX_INT ==> Get(t, k) == Nil
    ensures IsBoundary(t, n)
  {
    var i, j := start, start + 1;
    while Get(t, j) != Nil
      invariant 0 <= i < j <= MAX_INT && (i == 0 || Get(t, i) != Nil)
      decreases MAX_INT - j
    {
      i := j;
      j := j * 2;
      if j > MAX_INT {
        i := 1;
        while Get(t, i) != Nil
          invariant 1 <= i <= MAX_INT && (i == 1 || Get(t, i - 1) != Nil)
          decreases MAX_INT - i
        {
          i := i + 1;
        }
        return i - 1;
      }
    }
    while j - i > 1
      invariant 0 <= i < j && (i == 0 || Get(t, i) != Nil) && Get(t, j) == Nil
    {
      var m := (i + j) / 2;
      if Get(t, m) == Nil { j := m; } else { i := m; }
    }
    return i;
  }

  /** luaH_getn: whatever the layout, the answer is a boundary. */
  method GetN(t: Table, layout: Layout) returns (n: nat)
    requires Fits(t, layout)
    ensures IsBoundary(t, n)
  {
    var j := layout.sizeArray;
    if j > 0 && Get(t, j) == Nil {
      var i := 0;
      while j - i > 1
        invariant 0 <= i < j && (i == 0 || Get(t, i) != Nil) && Get(t, j) == Nil
      {
        var m := (i + j) / 2;
        if Get(t, m) == Nil { j := m; } else { i := m; }
      }
      return i;
    } else if layout.hashEmpty {
      return j;
    } else {
      n := UnboundSearch(t, j);
    }
  }

  class RefTable {
    var slots: Table
    ghost var live: map<int, Value>
    ghost var free: seq<int>
    ghost var size: nat
    ghost var peak: nat

    ghost function View(): World
      reads this
    {
      World(slots, live, free, size, peak)
    }

    constructor (values: seq<Value>)
      requires forall v :: v in values ==> v != Nil
      ensures View() == Fresh(values) && Inv(View())
    {
      slots := Slots(values);
      live, free, size, peak := Slots(values), [], |values|, |values|;
      new;
      FreshOK(values);
    }

    method Ref(v: Value, layout: Layout) returns (ref: int)
      requires Inv(View()) && Fits(slots, layout)
      modifies this
      ensures Inv(View())
      ensures v == Nil ==> ref == REFNIL && View() == old(View())
      ensures v != Nil ==> ref >= 1 && ref !in old(live) && live == old(live)[ref := v] && Get(slots, ref) == v
      ensures v != Nil ==> ref == if old(free) == [] then old(size) + 1 else old(free)[0]
    {
      hide FreeList, SlotsOK, ValuesOK;
      if v == Nil {
        return REFNIL;
      }
      ghost var w := View();
      AsksWhenFull(w, v);
      var len := 0;
      ref := ToInteger(Get(slots, FREELIST));
      if ref != 0 {
        slots := slots[FREELIST := Get(slots, ref)];
      } else {
        len := GetN(slots, layout);
        ref := len + 1;
      }
      slots := slots[ref := v];
      RefIsNew(w, v, len);
      StepKeeps(w, LuaRefsModel.Ref(v, len));
      live, free := live[ref := v], if free == [] then [] else free[1..];
      size, peak := Max(size, ref), Max(peak, |live|);
      assert View() == Next(w, LuaRefsModel.Ref(v, len));
    }

    method Unref(ref: int)
      requires Inv(View()) && (ref < 0 || ref in live)
      modifies this
      ensures View() == Next(old(View()), LuaRefsModel.Unref(ref)) && Inv(View())
    {
      StepKeeps(View(), LuaRefsModel.Unref(ref));
      if ref >= 0 {
        slots := slots[ref := Get(slots, FREELIST)];
        slots := slots[FREELIST := Int(ref)];
        live, free := live - {ref}, [ref] + free;
      }
    }
  }
}
