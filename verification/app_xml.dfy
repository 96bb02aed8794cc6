/**
 The XML encoding of the browser client library: typed values to element trees and back.

 Trees are those of XmlTree; a value is stored as the attribute "value" of its element.
 */
module AppXmlTypes {
  import opened XmlTree
  import opened AppNumbers

  /** A JavaScript value. JsNotFinite stands for NaN and the infinities. */
  datatype JsVal =
    | JsUndefined | JsNull | JsBool(b: bool) | JsNum(n: Number) | JsFraction(x: Fraction) | JsNotFinite
    | JsString(s: string) | JsObject(members: map<string, JsVal>) | JsDeque(items: seq<JsVal>)

  /** A type of the type library; a structure starts from what its default constructor makes. */
  datatype Type =
    | BoolType | IntType(min: int, max: int) | StringType
    | StructType(members: Members, defaults: map<string, JsVal>) | DequeType(member: Type)

  datatype Members = NoMembers | Member(name: string, t: Type, rest: Members)

  const UINT32_MAX := 4294967295

  /** The type that the library makes for int32_t. */
  const INT32 := IntType(-21474836478, 2147483647)

  predicate IsObject(v: JsVal) { v.JsNull? || v.JsObject? || v.JsDeque? }

  predicate HasOwnProperty(v: JsVal, key: string) { v.JsObject? && key in v.members }

  // ---------- numbers ----------

  /** The values whose typeof is "number". */
  predicate IsNumber(v: JsVal) { v.JsNum? || v.JsFraction? || v.JsNotFinite? }

  predicate InRange(v: JsVal, min: int, max: int) {
    match v
    case JsNum(n) => min <= n <= max
    case JsFraction(x) => min as real <= x <= max as real
    case _ => false
  }

  /** Number.prototype.toString. */
  function NumberString(num: Numbers, v: JsVal): string
    requires v.JsNum? || v.JsFraction?
  {
    if v.JsNum? then IntText(num, v.n) else num.fraction(v.x)
  }

  /** The number of entries as a value; more than `TWO_53` do not fit into a deque. */
  function SizeVal(items: seq<JsVal>): JsVal { if |items| <= TWO_53 then JsNum(|items|) else JsNotFinite }

  // ---------- what is encoded ----------

  /** The values that toXml of the type accepts. */
  predicate Encodable(t: Type, v: JsVal)
    decreases t
  {
    match t
    case BoolType => v.JsBool?
    case IntType(min, max) => InRange(v, min, max)
    case StringType => v.JsString?
    case StructType(ms, _) => (v.JsObject? || v.JsDeque?) && AllEncodable(ms, v)
    case DequeType(m) =>
      v.JsDeque? && |v.items| <= UINT32_MAX && forall i :: 0 <= i < |v.items| ==> Encodable(m, v.items[i])
  }

  predicate AllEncodable(ms: Members, v: JsVal)
    decreases ms
  {
    ms.Member? ==> HasOwnProperty(v, ms.name) && Encodable(ms.t, v.members[ms.name]) && AllEncodable(ms.rest, v)
  }

  /** The element of a value. */
  function Tree(num: Numbers, name: string, t: Type, v: JsVal): Element
    requires Encodable(t, v)
    decreases t, 0, 0
  {
    match t
    case BoolType => Element(name, Some(if v.b then "true" else "false"), [])
    case IntType(_, _) => Element(name, Some(NumberString(num, v)), [])
    case StringType => Element(name, Some(v.s), [])
    case StructType(ms, _) => Element(name, None, MemberTrees(num, ms, v))
    case DequeType(m) => Element(name, None, [SizeTree(num, v.items)] + EntryTrees(num, m, v.items))
  }

  function SizeTree(num: Numbers, items: seq<JsVal>): Element
    requires |items| <= TWO_53
  {
    Element("size", Some(NumberString(num, SizeVal(items))), [])
  }

  function MemberTrees(num: Numbers, ms: Members, v: JsVal): seq<Node>
    requires AllEncodable(ms, v)
    decreases ms, 1, 0
  {
    if ms.NoMembers? then []
    else [Tree(num, ms.name, ms.t, v.members[ms.name])] + MemberTrees(num, ms.rest, v)
  }

  function EntryTrees(num: Numbers, m: Type, items: seq<JsVal>): seq<Node>
    requires forall i :: 0 <= i < |items| ==> Encodable(m, items[i])
    decreases m, 1, |items|
  {
    if items == [] then [] else [Tree(num, "entry", m, items[0])] + EntryTrees(num, m, items[1..])
  }

  // ---------- decoding a tree by recursion ----------

  function AllText(nodes: seq<Node>): string {
    if nodes == [] then "" else (if nodes[0].Text? then nodes[0].s else "") + AllText(nodes[1..])
  }

  /** getValue: the attribute or the text, not both, and no element inside. */
  function ValueOf(el: Element): Option<string> {
    var text := AllText(el.children);
    if Elements(el.children) != [] then None
    else if text != "" && el.value.Some? then None
    else if el.value.Some? then el.value
    else Some(text)
  }

  function DecodeBool(s: string): Option<JsVal> {
    if s == "true" then Some(JsBool(true)) else if s == "false" then Some(JsBool(false)) else None
  }

  function DecodeInt(num: Numbers, s: string, min: int, max: int): Option<JsVal> {
    var r := ParseInt(num, s);
    if r.Parsed? && min <= r.n <= max then Some(JsNum(r.n)) else None
  }

  function DecodeElement(num: Numbers, t: Type, el: Element): Option<JsVal>
    decreases t, 0, 0
  {
    var s := ValueOf(el);
    match t
    case BoolType => if s.None? then None else DecodeBool(s.v)
    case IntType(min, max) => if s.None? then None else DecodeInt(num, s.v, min, max)
    case StringType => if s.None? then None else Some(JsString(s.v))
    case StructType(ms, defaults) => DecodeMemberElements(num, ms, Elements(el.children), defaults)
    case DequeType(m) =>
      var els := Elements(el.children);
      if els == [] || els[0].name != "size" || ValueOf(els[0]).None? then None
      else
        var size := DecodeInt(num, ValueOf(els[0]).v, 0, UINT32_MAX);
        if size.None? then None else DecodeEntryElements(num, m, els[1..], 0, size.v.n, [])
  }

  function DecodeMemberElements(num: Numbers, ms: Members, els: seq<Element>, acc: map<string, JsVal>): Option<JsVal>
    decreases ms, 1, 0
  {
    if ms.NoMembers? then (if els == [] then Some(JsObject(acc)) else None)
    else if els == [] || els[0].name != ms.name then None
    else
      var v := DecodeElement(num, ms.t, els[0]);
      if v.None? then None else DecodeMemberElements(num, ms.rest, els[1..], acc[ms.name := v.v])
  }

  function DecodeEntryElements(
    num: Numbers, m: Type, els: seq<Element>, count: nat, size: int, acc: seq<JsVal>): Option<JsVal>
    decreases m, 1, size - count
  {
    if count >= size then (if els == [] then Some(JsDeque(acc)) else None)
    else if els == [] || els[0].name != "entry" then None
    else
      var v := DecodeElement(num, m, els[0]);
      if v.None? then None else DecodeEntryElements(num, m, els[1..], count + 1, size, acc + [v.v])
  }

  // ---------- the value that comes back ----------

  /** What comes back of a value, if all its numbers are read in range. A number becomes what is read from its
      text; members that the type does not name are left behind, and members that only the default constructor
      makes are added. */
  function Kept(num: Numbers, t: Type, v: JsVal): Option<JsVal>
    requires Encodable(t, v)
    decreases t, 0, 0
  {
    match t
    case IntType(min, max) => DecodeInt(num, NumberString(num, v), min, max)
    case StructType(ms, defaults) =>
      var k := KeptMembers(num, ms, v, defaults);
      if k.None? then None else Some(JsObject(k.v))
    case DequeType(m) =>
      var k := KeptEntries(num, m, v.items);
      if k.None? then None else Some(JsDeque(k.v))
    case _ => Some(v)
  }

  function KeptMembers(num: Numbers, ms: Members, v: JsVal, acc: map<string, JsVal>): Option<map<string, JsVal>>
    requires AllEncodable(ms, v)
    decreases ms, 1, 0
  {
    if ms.NoMembers? then Some(acc)
    else
      var k := Kept(num, ms.t, v.members[ms.name]);
      if k.None? then None else KeptMembers(num, ms.rest, v, acc[ms.name := k.v])
  }

  function KeptEntries(num: Numbers, m: Type, items: seq<JsVal>): Option<seq<JsVal>>
    requires forall i :: 0 <= i < |items| ==> Encodable(m, items[i])
    decreases m, 1, |items|
  {
    if items == [] then Some([])
    else
      var k, rest := Kept(num, m, items[0]), KeptEntries(num, m, items[1..]);
      if k.None? || rest.None? then None else Some([k.v] + rest.v)
  }

  ghost function NamesOf(ms: Members): set<string> { if ms.NoMembers? then {} else {ms.name} + NamesOf(ms.rest) }

  /** addMember refuses a name that is there already. */
  ghost predicate TypeOK(t: Type)
    decreases t
  {
    (t.StructType? ==> MembersOK(t.members)) && (t.DequeType? ==> TypeOK(t.member))
  }

  ghost predicate MembersOK(ms: Members)
    decreases ms
  {
    ms.Member? ==> ms.name !in NamesOf(ms.rest) && TypeOK(ms.t) && MembersOK(ms.rest)
  }

  /** Every number is whole and below ten to the power of 21 in size, and at every level an object has the
      members of its type, and besides only those that the default constructor makes, with the values that it
      gives them. */
  ghost predicate Exact(t: Type, v: JsVal)
    requires Encodable(t, v)
    decreases t, 0, 0
  {
    match t
    case IntType(_, _) => v.JsNum? && Size(v.n) < TEN_21
    case StructType(ms, defaults) =>
      && v.JsObject? && v.members.Keys == defaults.Keys + NamesOf(ms)
      && (forall n :: n in defaults && n !in NamesOf(ms) ==> v.members[n] == defaults[n])
      && ExactMembers(ms, v)
    case DequeType(m) => forall i :: 0 <= i < |v.items| ==> Exact(m, v.items[i])
    case _ => true
  }

  ghost predicate ExactMembers(ms: Members, v: JsVal)
    requires AllEncodable(ms, v)
    decreases ms, 1, 0
  {
    ms.Member? ==> Exact(ms.t, v.members[ms.name]) && ExactMembers(ms.rest, v)
  }

  /** A number comes back as it was exactly if it is whole and below ten to the power of 21 in size. */
  lemma NumberKept(num: Numbers, v: JsVal, min: int, max: int)
    requires InRange(v, min, max)
    ensures DecodeInt(num, NumberString(num, v), min, max) == Some(v) <==> v.JsNum? && Size(v.n) < TEN_21
  {
    hide IntText, ParseInt;
    if v.JsNum? { IntTextBack(num, v.n); }
  }

  /** Every number is whole and below ten to the power of 21 in size. */
  ghost predicate AllWhole(t: Type, v: JsVal)
    requires Encodable(t, v)
    decreases t, 0
  {
    match t
    case IntType(_, _) => v.JsNum? && Size(v.n) < TEN_21
    case StructType(ms, _) => MembersWhole(ms, v)
    case DequeType(m) => forall i :: 0 <= i < |v.items| ==> AllWhole(m, v.items[i])
    case _ => true
  }

  ghost predicate MembersWhole(ms: Members, v: JsVal)
    requires AllEncodable(ms, v)
    decreases ms, 1
  {
    ms.Member? ==> AllWhole(ms.t, v.members[ms.name]) && MembersWhole(ms.rest, v)
  }

  /** If every number is whole and below ten to the power of 21 in size, all of them are read in range. */
  lemma {:induction false} WholeIsRead(num: Numbers, t: Type, v: JsVal)
    requires Encodable(t, v) && AllWhole(t, v)
    ensures Kept(num, t, v).Some?
    decreases t, 0, 0
  {
    hide NumberString, DecodeInt;
    match t {
      case IntType(min, max) => NumberKept(num, v, min, max);
      case StructType(ms, defaults) => MembersAreRead(num, ms, v, defaults);
      case DequeType(m) => EntriesAreRead(num, m, v.items);
      case _ =>
    }
  }

  lemma {:induction false} MembersAreRead(num: Numbers, ms: Members, v: JsVal, acc: map<string, JsVal>)
    requires AllEncodable(ms, v) && MembersWhole(ms, v)
    ensures KeptMembers(num, ms, v, acc).Some?
    decreases ms, 1, 0
  {
    if ms.Member? {
      WholeIsRead(num, ms.t, v.members[ms.name]);
      MembersAreRead(num, ms.rest, v, acc[ms.name := Kept(num, ms.t, v.members[ms.name]).v]);
    }
  }

  lemma {:induction false} EntriesAreRead(num: Numbers, m: Type, items: seq<JsVal>)
    requires forall i :: 0 <= i < |items| ==> Encodable(m, items[i]) && AllWhole(m, items[i])
    ensures KeptEntries(num, m, items).Some?
    decreases m, 1, |items|
  {
    if items != [] {
      WholeIsRead(num, m, items[0]);
      EntriesAreRead(num, m, items[1..]);
    }
  }

  /** From ten to the power of 21 on, which is itself a number, a single digit comes back. */
  lemma TooLongForParseInt(num: Numbers, n: Number, min: int, max: int)
    requires min <= n <= max && min <= -9 && 9 <= max && Size(n) >= TEN_21
    ensures var k := Kept(num, IntType(min, max), JsNum(n)); k.Some? && k.v.JsNum? && Size(k.v.n) <= 9
    ensures Fits(TEN_21)
  {
    hide IntText, ParseInt;
    IntTextBack(num, n);
    TenTo21Fits();
  }

  /** A value comes back as it was exactly when it is the type's to the letter. */
  lemma {:induction false} KeptExactly(num: Numbers, t: Type, v: JsVal)
    requires Encodable(t, v) && TypeOK(t)
    ensures Kept(num, t, v) == Some(v) <==> Exact(t, v)
    decreases t, 0, 0
  {
    hide NumberString, DecodeInt;
    match t {
      case IntType(min, max) => NumberKept(num, v, min, max);
      case StructType(ms, defaults) => StructKeptExactly(num, ms, defaults, v);
      case DequeType(m) => KeptEntriesExactly(num, m, v.items);
      case _ =>
    }
  }

  lemma {:induction false} StructKeptExactly(num: Numbers, ms: Members, defaults: map<string, JsVal>, v: JsVal)
    requires Encodable(StructType(ms, defaults), v) && MembersOK(ms)
    ensures Kept(num, StructType(ms, defaults), v) == Some(v) <==> Exact(StructType(ms, defaults), v)
    decreases ms, 2, 0
  {
    KeptMembersAre(num, ms, v, defaults);
    var k := KeptMembers(num, ms, v, defaults);
    hide HoldsKept, KeptMembers, MembersOK;
    if v.JsObject? && k.Some? {
      SameMembers(num, ms, v, k.v);
      assert k.v == v.members <==>
        k.v.Keys == v.members.Keys && forall n :: n in k.v && n in v.members ==> k.v[n] == v.members[n];
    }
  }

  ghost predicate HoldsKept(num: Numbers, ms: Members, v: JsVal, k: map<string, JsVal>)
    requires AllEncodable(ms, v)
    decreases ms
  {
    ms.Member? ==>
      && ms.name in k && Kept(num, ms.t, v.members[ms.name]) == Some(k[ms.name])
      && HoldsKept(num, ms.rest, v, k)
  }

  /** What is kept of the members; if a member is lost, the value is not the type's to the letter. */
  lemma {:induction false} KeptMembersAre(num: Numbers, ms: Members, v: JsVal, acc: map<string, JsVal>)
    requires AllEncodable(ms, v) && MembersOK(ms)
    ensures var k := KeptMembers(num, ms, v, acc);
      if k.None? then !ExactMembers(ms, v)
      else
        && k.v.Keys == acc.Keys + NamesOf(ms) && HoldsKept(num, ms, v, k.v)
        && (forall n :: n in acc && n !in NamesOf(ms) ==> k.v[n] == acc[n])
    decreases ms, 1, 0
  {
    if ms.Member? {
      var k := Kept(num, ms.t, v.members[ms.name]);
      KeptExactly(num, ms.t, v.members[ms.name]);
      if k.Some? { KeptMembersAre(num, ms.rest, v, acc[ms.name := k.v]); }
    }
  }

  lemma {:induction false} SameMembers(num: Numbers, ms: Members, v: JsVal, k: map<string, JsVal>)
    requires AllEncodable(ms, v) && MembersOK(ms) && v.JsObject? && HoldsKept(num, ms, v, k)
    ensures (forall n :: n in NamesOf(ms) ==> n in k && n in v.members && k[n] == v.members[n]) <==> ExactMembers(ms, v)
    decreases ms, 1, 0
  {
    if ms.Member? {
      KeptExactly(num, ms.t, v.members[ms.name]);
      SameMembers(num, ms.rest, v, k);
    }
  }

  lemma {:induction false} KeptEntriesExactly(num: Numbers, m: Type, items: seq<JsVal>)
    requires TypeOK(m) && forall i :: 0 <= i < |items| ==> Encodable(m, items[i])
    ensures KeptEntries(num, m, items) == Some(items) <==> forall i :: 0 <= i < |items| ==> Exact(m, items[i])
    decreases m, 1, |items|
  {
    hide Exact, Encodable, Kept;
    if items != [] {
      KeptExactly(num, m, items[0]);
      KeptEntriesExactly(num, m, items[1..]);
      var k := KeptEntries(num, m, items);
      if k.Some? {
        assert k.v[1..] == KeptEntries(num, m, items[1..]).v;
        assert k.v == items <==> k.v[0] == items[0] && k.v[1..] == items[1..];
      }
      ExactTail(m, items);
    }
  }

  lemma ExactTail(m: Type, items: seq<JsVal>)
    requires items != [] && forall i :: 0 <= i < |items| ==> Encodable(m, items[i])
    ensures (forall i :: 0 <= i < |items| ==> Exact(m, items[i]))
      <==> Exact(m, items[0]) && (forall i :: 0 <= i < |items[1..]| ==> Exact(m, items[1..][i]))
  {
    hide Exact, Encodable;
    assert forall i :: 0 <= i < |items[1..]| ==> items[1..][i] == items[i + 1];
    assert forall i :: 1 <= i < |items| ==> items[i] == items[1..][i - 1];
  }

  // ---------- decoding undoes encoding, on trees ----------

  lemma {:induction false} TreeDecodes(num: Numbers, name: string, t: Type, v: JsVal)
    requires Encodable(t, v)
    ensures DecodeElement(num, t, Tree(num, name, t, v)) == Kept(num, t, v)
    decreases t, 0, 0
  {
    hide NumberString, DecodeInt;
    match t {
      case StructType(ms, defaults) => MemberTreesDecode(num, ms, v, defaults);
      case DequeType(m) => DequeDecodes(num, name, m, v);
      case _ =>
    }
  }

  lemma {:induction false} DequeDecodes(num: Numbers, name: string, m: Type, v: JsVal)
    requires Encodable(DequeType(m), v)
    ensures DecodeElement(num, DequeType(m), Tree(num, name, DequeType(m), v)) == Kept(num, DequeType(m), v)
    decreases m, 2, 0
  {
    hide NumberString, DecodeInt, EntryTrees, DecodeEntryElements, KeptEntries;
    var size, entries := SizeTree(num, v.items), EntryTrees(num, m, v.items);
    NumberKept(num, SizeVal(v.items), 0, UINT32_MAX);
    EntryTreesDecode(num, m, v.items, 0, []);
    assert ValueOf(size) == Some(NumberString(num, SizeVal(v.items)));
    FirstElementIs(size, entries);
    var k := KeptEntries(num, m, v.items);
    if k.Some? { assert [] + k.v == k.v; }
  }

  lemma TreeName(num: Numbers, name: string, t: Type, v: JsVal)
    requires Encodable(t, v)
    ensures Tree(num, name, t, v).name == name
  {
    hide NumberString, MemberTrees, EntryTrees;
  }

  lemma NoElements()
    ensures Elements([]) == []
  {}

  lemma FirstElementIs(el: Element, nodes: seq<Node>)
    ensures var els := Elements([el] + nodes); els != [] && els[0] == el && els[1..] == Elements(nodes)
  {
    assert ([el] + nodes)[1..] == nodes;
  }

  lemma {:induction false} MemberTreesDecode(num: Numbers, ms: Members, v: JsVal, acc: map<string, JsVal>)
    requires AllEncodable(ms, v)
    ensures DecodeMemberElements(num, ms, Elements(MemberTrees(num, ms, v)), acc)
         == var k := KeptMembers(num, ms, v, acc); if k.None? then None else Some(JsObject(k.v))
    decreases ms, 1, 0
  {
    if ms.Member? {
      TreeDecodes(num, ms.name, ms.t, v.members[ms.name]);
      var k := Kept(num, ms.t, v.members[ms.name]);
      if k.Some? { MemberTreesDecode(num, ms.rest, v, acc[ms.name := k.v]); }
      FirstElementIs(Tree(num, ms.name, ms.t, v.members[ms.name]), MemberTrees(num, ms.rest, v));
    }
  }

  lemma {:induction false} EntryTreesDecode(num: Numbers, m: Type, items: seq<JsVal>, count: nat, acc: seq<JsVal>)
    requires forall i :: 0 <= i < |items| ==> Encodable(m, items[i])
    ensures DecodeEntryElements(num, m, Elements(EntryTrees(num, m, items)), count, count + |items|, acc)
         == var k := KeptEntries(num, m, items); if k.None? then None else Some(JsDeque(acc + k.v))
    decreases m, 1, |items|
  {
    hide DecodeElement, Tree, Kept, Encodable, Elements;
    if items == [] {
      assert acc + [] == acc;
      NoElements();
    } else {
      TreeName(num, "entry", m, items[0]);
      TreeDecodes(num, "entry", m, items[0]);
      var k := Kept(num, m, items[0]);
      FirstElementIs(Tree(num, "entry", m, items[0]), EntryTrees(num, m, items[1..]));
      if k.Some? {
        EntryTreesDecode(num, m, items[1..], count + 1, acc + [k.v]);
        var rest := KeptEntries(num, m, items[1..]);
        if rest.Some? { assert acc + [k.v] + rest.v == acc + ([k.v] + rest.v); }
      }
    }
  }
}
