/**
 bbox.enc.ToXml of the browser client library, and toXml of its types.
 */
module AppToXmlModel {
  import opened XmlTree
  import opened AppNumbers
  import opened AppXmlTypes

  datatype EncState =
    | Constructed | StartedSingleObject | StartedNamedValue | StartedNamedObject
    | CompletedNamedValue | CompletedSingleValue

  /** No error, the first error, or a JavaScript exception. */
  datatype Error = NoError | Raised(text: string) | Thrown

  type Path = p: seq<Element> | p != [] witness [Element("", None, [])]

  /** The element stack with the current element at its end, each element without the one after it. */
  datatype Enc = Enc(path: Path, st: EncState, error: Error)

  function Start(root: string): Enc { Enc([Element(root, None, [])], Constructed, NoError) }

  function Raise(e: Enc, text: string): Enc { if e.error == NoError then e.(error := Raised(text)) else e }

  function Cur(e: Enc): (el: Element)
    ensures el.Element?
  {
    e.path[|e.path| - 1]
  }

  function WithCur(e: Enc, el: Element): (e': Enc)
    ensures |e'.path| == |e.path|
  {
    e.(path := e.path[..|e.path| - 1] + [el])
  }

  function SetValue(e: Enc, s: string): Enc {
    var c := Cur(e);
    if e.error != NoError then e
    else if e.st == Constructed then WithCur(e, c.(value := Some(s))).(st := CompletedSingleValue)
    else if e.st == StartedNamedValue then WithCur(e, c.(value := Some(s))).(st := CompletedNamedValue)
    else Raise(e, "Can't call setValue in this state")
  }

  function StartObject(e: Enc): Enc {
    if e.error != NoError then e
    else if e.st == Constructed then e.(st := StartedSingleObject)
    else if e.st == StartedNamedValue then e.(st := StartedNamedObject)
    else Raise(e, "Can't call startObject in this state")
  }

  function EndObject(e: Enc): Enc {
    if e.error != NoError then e
    else if e.st == StartedSingleObject then e.(st := CompletedSingleValue)
    else if e.st == StartedNamedObject then e.(st := CompletedNamedValue)
    else Raise(e, "Can't call endObject in this state")
  }

  function StartNamedValue(e: Enc, name: string): Enc {
    if e.error != NoError then e
    else if e.st == StartedSingleObject || e.st == StartedNamedObject then
      e.(path := e.path + [Element(name, None, [])], st := StartedNamedValue)
    else Raise(e, "Can't call startNamedValue in this state")
  }

  /** Popping an empty stack leaves nothing that can be written to. */
  function EndNamedValue(e: Enc): Enc {
    if e.error != NoError then e
    else if e.st != CompletedNamedValue then Raise(e, "Can't call endNamedValue in this state")
    else if |e.path| == 1 then e.(error := Thrown)
    else
      var n := |e.path|;
      var parent := e.path[n - 2];
      e.(path := e.path[..n - 2] + [parent.(children := parent.children + [Cur(e)])],
         st := if n == 2 then StartedSingleObject else StartedNamedObject)
  }

  function EncodeNumber(num: Numbers, e: Enc, v: JsVal, min: int, max: int): Enc {
    if !InRange(v, min, max) then Raise(e, "Can't encode value because it's not in the range")
    else SetValue(e, NumberString(num, v))
  }

  function EncodeSize(num: Numbers, e: Enc, items: seq<JsVal>): Enc {
    EndNamedValue(EncodeNumber(num, StartNamedValue(e, "size"), SizeVal(items), 0, UINT32_MAX))
  }

  /** toXml of a type. */
  function Encode(num: Numbers, t: Type, v: JsVal, e: Enc): Enc
    decreases t, 0, 0
  {
    match t
    case BoolType =>
      if !v.JsBool? then Raise(e, "Can't encode as boolean") else SetValue(e, if v.b then "true" else "false")
    case IntType(min, max) =>
      if !IsNumber(v) then Raise(e, "Can't encode as integer type") else EncodeNumber(num, e, v, min, max)
    case StringType => if !v.JsString? then Raise(e, "Can't encode as string") else SetValue(e, v.s)
    case StructType(ms, _) =>
      if !IsObject(v) then Raise(e, "Can't encode as structure")
      else if v.JsNull? then Raise(e, "Can't encode null value as structure")
      else EndObject(EncodeMembers(num, ms, v, StartObject(e)))
    case DequeType(m) =>
      if !IsObject(v) then Raise(e, "Can't encode as vector/deque")
      else if !v.JsDeque? then e.(error := Thrown)
      else EndObject(EncodeEntries(num, m, v.items, EncodeSize(num, StartObject(e), v.items)))
  }

  function EncodeMembers(num: Numbers, ms: Members, v: JsVal, e: Enc): Enc
    decreases ms, 1, 0
  {
    if ms.NoMembers? then e
    else if !HasOwnProperty(v, ms.name) then
      EncodeMembers(num, ms.rest, v, Raise(e, "Object seems to have no such member"))
    else EncodeMembers(num, ms.rest, v,
      EndNamedValue(Encode(num, ms.t, v.members[ms.name], StartNamedValue(e, ms.name))))
  }

  function EncodeEntries(num: Numbers, m: Type, items: seq<JsVal>, e: Enc): Enc
    decreases m, 1, |items|
  {
    if items == [] then e
    else EncodeEntries(num, m, items[1..], EndNamedValue(Encode(num, m, items[0], StartNamedValue(e, "entry"))))
  }

  // ---------- errors stay ----------

  lemma EndFailed(e: Enc)
    requires e.error != NoError
    ensures EndNamedValue(e) == e
  {}

  lemma {:induction false} EncodeFailed(num: Numbers, t: Type, v: JsVal, e: Enc)
    requires e.error != NoError
    ensures Encode(num, t, v, e).error != NoError
    decreases t, 0, 0
  {
    match t {
      case StructType(ms, _) => MembersFailed(num, ms, v, e);
      case DequeType(m) => if v.JsDeque? { EntriesFailed(num, m, v.items, e); }
      case _ =>
    }
  }

  lemma {:induction false} MembersFailed(num: Numbers, ms: Members, v: JsVal, e: Enc)
    requires e.error != NoError
    ensures EncodeMembers(num, ms, v, e).error != NoError
    decreases ms, 1, 0
  {
    if ms.Member? {
      if HasOwnProperty(v, ms.name) {
        EncodeFailed(num, ms.t, v.members[ms.name], e);
        MembersFailed(num, ms.rest, v, Encode(num, ms.t, v.members[ms.name], e));
      } else {
        MembersFailed(num, ms.rest, v, e);
      }
    }
  }

  lemma {:induction false} EntriesFailed(num: Numbers, m: Type, items: seq<JsVal>, e: Enc)
    requires e.error != NoError
    ensures EncodeEntries(num, m, items, e).error != NoError
    decreases m, 1, |items|
  {
    if items != [] {
      EncodeFailed(num, m, items[0], e);
      EntriesFailed(num, m, items[1..], Encode(num, m, items[0], e));
    }
  }

  // ---------- encoding writes the tree ----------

  /** The current element is new and a value may be written into it. */
  predicate Ready(e: Enc, name: string) {
    && e.error == NoError && Cur(e) == Element(name, None, [])
    && (if |e.path| == 1 then e.st == Constructed else e.st == StartedNamedValue)
  }

  function Finished(e: Enc, el: Element): Enc {
    WithCur(e, el).(st := if |e.path| == 1 then CompletedSingleValue else CompletedNamedValue)
  }

  predicate InObject(e: Enc) {
    e.error == NoError && (if |e.path| == 1 then e.st == StartedSingleObject else e.st == StartedNamedObject)
  }

  function Added(e: Enc, nodes: seq<Node>): Enc {
    var c := Cur(e);
    WithCur(e, c.(children := c.children + nodes))
  }

  lemma NamedValueAdds(e: Enc, name: string, el: Element)
    requires InObject(e)
    ensures Ready(StartNamedValue(e, name), name)
    ensures EndNamedValue(Finished(StartNamedValue(e, name), el)) == Added(e, [el]) && InObject(Added(e, [el]))
  {
    var f := Finished(StartNamedValue(e, name), el);
    var n := |f.path|;
    assert f.path[..n - 2] == e.path[..|e.path| - 1] && f.path[n - 2] == Cur(e);
  }

  lemma AddedNothing(e: Enc)
    requires InObject(e)
    ensures Added(e, []) == e && e.error == NoError
  {
    assert Cur(e).children + [] == Cur(e).children;
    assert e.path[..|e.path| - 1] + [Cur(e)] == e.path;
  }

  lemma AddedTwice(e: Enc, a: seq<Node>, b: seq<Node>)
    requires InObject(e)
    ensures Added(Added(e, a), b) == Added(e, a + b) && InObject(Added(e, a))
  {
    var x := Added(e, a);
    assert x.path[..|x.path| - 1] == e.path[..|e.path| - 1];
    assert Cur(e).children + a + b == Cur(e).children + (a + b);
  }

  lemma ObjectFinishes(e: Enc, name: string, nodes: seq<Node>)
    requires Ready(e, name)
    ensures InObject(StartObject(e))
      && EndObject(Added(StartObject(e), nodes)) == Finished(e, Element(name, None, nodes))
  {
    assert [] + nodes == nodes;
  }

  /** From any place where a value may be written, toXml succeeds exactly on the values that it accepts, and
      then the current element becomes the tree of the value and nothing else changes. */
  lemma {:induction false} EncodesTree(num: Numbers, t: Type, v: JsVal, e: Enc, name: string)
    requires Ready(e, name)
    ensures Encode(num, t, v, e).error == NoError <==> Encodable(t, v)
    ensures Encodable(t, v) ==> Encode(num, t, v, e) == Finished(e, Tree(num, name, t, v))
    decreases t, 0, 0
  {
    hide NumberString, StartObject, EndObject, SetValue, Finished;
    match t {
      case BoolType => if v.JsBool? { EncodesText(e, name, if v.b then "true" else "false"); }
      case IntType(_, _) => if v.JsNum? || v.JsFraction? { EncodesText(e, name, NumberString(num, v)); }
      case StringType => if v.JsString? { EncodesText(e, name, v.s); }
      case StructType(ms, defaults) => EncodesStruct(num, ms, defaults, v, e, name);
      case DequeType(m) => if v.JsDeque? { EncodesDeque(num, m, v.items, e, name); }
    }
  }

  lemma EncodesText(e: Enc, name: string, s: string)
    requires Ready(e, name)
    ensures SetValue(e, s) == Finished(e, Element(name, Some(s), [])) && SetValue(e, s).error == NoError
  {}

  lemma {:induction false} EncodesStruct(
    num: Numbers, ms: Members, defaults: map<string, JsVal>, v: JsVal, e: Enc, name: string)
    requires Ready(e, name)
    ensures var t := StructType(ms, defaults);
      && (Encode(num, t, v, e).error == NoError <==> Encodable(t, v))
      && (Encodable(t, v) ==> Encode(num, t, v, e) == Finished(e, Tree(num, name, t, v)))
    decreases ms, 3, 0
  {
    hide MemberTrees, EncodeMembers, AllEncodable;
    ObjectFinishes(e, name, []);
    EncodesMembers(num, ms, v, StartObject(e));
    if AllEncodable(ms, v) { ObjectFinishes(e, name, MemberTrees(num, ms, v)); }
  }

  lemma {:induction false} EncodesMembers(num: Numbers, ms: Members, v: JsVal, e: Enc)
    requires InObject(e)
    ensures EncodeMembers(num, ms, v, e).error == NoError <==> AllEncodable(ms, v)
    ensures AllEncodable(ms, v) ==> EncodeMembers(num, ms, v, e) == Added(e, MemberTrees(num, ms, v))
    decreases ms, 1, 0
  {
    if ms.NoMembers? {
      AddedNothing(e);
    } else if !HasOwnProperty(v, ms.name) {
      MembersFailed(num, ms.rest, v, Raise(e, "Object seems to have no such member"));
    } else {
      var s, x := StartNamedValue(e, ms.name), v.members[ms.name];
      NamedValueAdds(e, ms.name, Element(ms.name, None, []));
      EncodesTree(num, ms.t, x, s, ms.name);
      if Encodable(ms.t, x) {
        var el := Tree(num, ms.name, ms.t, x);
        NamedValueAdds(e, ms.name, el);
        EncodesMembers(num, ms.rest, v, Added(e, [el]));
        if AllEncodable(ms.rest, v) { AddedTwice(e, [el], MemberTrees(num, ms.rest, v)); }
      } else {
        MembersFailed(num, ms.rest, v, EndNamedValue(Encode(num, ms.t, x, s)));
      }
    }
  }

  lemma {:induction false} EncodesEntries(num: Numbers, m: Type, items: seq<JsVal>, e: Enc)
    requires InObject(e)
    ensures EncodeEntries(num, m, items, e).error == NoError <==>
      forall i :: 0 <= i < |items| ==> Encodable(m, items[i])
    ensures (forall i :: 0 <= i < |items| ==> Encodable(m, items[i])) ==>
      EncodeEntries(num, m, items, e) == Added(e, EntryTrees(num, m, items))
    decreases m, 1, |items|
  {
    hide Encode, Tree, Added, EndNamedValue, StartNamedValue, Ready, Finished, Encodable, InObject;
    if items == [] {
      AddedNothing(e);
    } else {
      var s := StartNamedValue(e, "entry");
      NamedValueAdds(e, "entry", Element("entry", None, []));
      EncodesTree(num, m, items[0], s, "entry");
      if Encodable(m, items[0]) {
        var el := Tree(num, "entry", m, items[0]);
        NamedValueAdds(e, "entry", el);
        EncodesEntries(num, m, items[1..], Added(e, [el]));
        AllOfTail(m, items);
        if forall i :: 0 <= i < |items[1..]| ==> Encodable(m, items[1..][i]) {
          AddedTwice(e, [el], EntryTrees(num, m, items[1..]));
        }
      } else {
        EndFailed(Encode(num, m, items[0], s));
        EntriesFailed(num, m, items[1..], Encode(num, m, items[0], s));
      }
    }
  }

  lemma AllOfTail(m: Type, items: seq<JsVal>)
    requires items != []
    ensures (forall i :: 0 <= i < |items| ==> Encodable(m, items[i]))
      <==> Encodable(m, items[0]) && (forall i :: 0 <= i < |items[1..]| ==> Encodable(m, items[1..][i]))
  {
    assert forall i :: 0 <= i < |items[1..]| ==> items[1..][i] == items[i + 1];
    assert forall i :: 1 <= i < |items| ==> items[i] == items[1..][i - 1];
  }

  lemma SizeFinishes(num: Numbers, o: Enc, items: seq<JsVal>)
    requires InObject(o)
    ensures |items| <= UINT32_MAX ==>
      EncodeSize(num, o, items) == Added(o, [SizeTree(num, items)]) && InObject(Added(o, [SizeTree(num, items)]))
    ensures |items| > UINT32_MAX ==> EncodeSize(num, o, items).error != NoError
  {
    hide NumberString;
    var s := StartNamedValue(o, "size");
    if |items| <= UINT32_MAX {
      NamedValueAdds(o, "size", SizeTree(num, items));
      assert EncodeNumber(num, s, SizeVal(items), 0, UINT32_MAX) == Finished(s, SizeTree(num, items));
    }
  }

  /** Between the start and the end of the object: the size, then the entries. */
  lemma {:induction false} EncodesSizeAndEntries(num: Numbers, m: Type, items: seq<JsVal>, o: Enc)
    requires InObject(o)
    ensures var x := EncodeEntries(num, m, items, EncodeSize(num, o, items));
      && (x.error == NoError <==> Encodable(DequeType(m), JsDeque(items)))
      && (x.error == NoError ==> x == Added(o, [SizeTree(num, items)] + EntryTrees(num, m, items)))
    decreases m, 2, 0
  {
    hide Added, InObject, EncodeEntries, EntryTrees, EncodeSize, SizeTree;
    SizeFinishes(num, o, items);
    if |items| > UINT32_MAX {
      EntriesFailed(num, m, items, EncodeSize(num, o, items));
    } else {
      var x := Added(o, [SizeTree(num, items)]);
      EncodesEntries(num, m, items, x);
      if Encodable(DequeType(m), JsDeque(items)) {
        AddedTwice(o, [SizeTree(num, items)], EntryTrees(num, m, items));
      }
    }
  }

  lemma {:induction false} EncodesDeque(num: Numbers, m: Type, items: seq<JsVal>, e: Enc, name: string)
    requires Ready(e, name)
    ensures var v := JsDeque(items); var t := DequeType(m);
      && (Encode(num, t, v, e).error == NoError <==> Encodable(t, v))
      && (Encodable(t, v) ==> Encode(num, t, v, e) == Finished(e, Tree(num, name, t, v)))
    decreases m, 3, 0
  {
    hide EncodeEntries, EntryTrees, EncodeSize, SizeTree;
    ObjectFinishes(e, name, []);
    EncodesSizeAndEntries(num, m, items, StartObject(e));
    if Encodable(DequeType(m), JsDeque(items)) {
      ObjectFinishes(e, name, [SizeTree(num, items)] + EntryTrees(num, m, items));
    }
  }

  /** The library's type for int32_t takes numbers below its range, because of a digit too many in its bound. */
  lemma Int32TakesMore(num: Numbers, n: Number, e: Enc, name: string)
    requires Ready(e, name) && !(-0x8000_0000 <= n < 0x8000_0000)
    ensures Encode(num, INT32, JsNum(n), e).error == NoError <==> -21474836478 <= n < -0x8000_0000
    ensures Encode(num, INT32, JsNum(-0x8000_0001), e) == Finished(e, Tree(num, name, INT32, JsNum(-0x8000_0001)))
  {
    EncodesTree(num, INT32, JsNum(n), e, name);
    EncodesTree(num, INT32, JsNum(-0x8000_0001), e, name);
  }
}

/** The encoder as its methods run it. */
module AppToXmlClass {
  import opened XmlTree
  import opened AppNumbers
  import opened AppXmlTypes
  import opened AppToXmlModel

  class ToXml {
    const num: Numbers
    var elementStack: seq<Element>
    var curElement: Element
    var state: EncState
    var error: Error

    ghost function View(): Enc
      reads this
    {
      var path := elementStack + [curElement];
      assert |path| > 0;
      Enc(path, state, error)
    }

    constructor (num: Numbers, root: string)
      ensures View() == AppToXmlModel.Start(root) && this.num == num
    {
      this.num := num;
      elementStack, curElement, state, error := [], Element(root, None, []), Constructed, NoError;
    }

    method RaiseError(text: string)
      modifies this`error
      ensures View() == Raise(old(View()), text)
    {
      if error == NoError { error := Raised(text); }
    }

    method SetValue(s: string)
      modifies this
      ensures View() == AppToXmlModel.SetValue(old(View()), s)
    {
      assert View().path[..|View().path| - 1] == elementStack;
      if error != NoError { return; }
      if state == Constructed {
        curElement := curElement.(value := Some(s));
        state := CompletedSingleValue;
      } else if state == StartedNamedValue {
        curElement := curElement.(value := Some(s));
        state := CompletedNamedValue;
      } else {
        RaiseError("Can't call setValue in this state");
      }
    }

    method StartObject()
      modifies this
      ensures View() == AppToXmlModel.StartObject(old(View()))
    {
      if error != NoError { return; }
      if state == Constructed {
        state := StartedSingleObject;
      } else if state == StartedNamedValue {
        state := StartedNamedObject;
      } else {
        RaiseError("Can't call startObject in this state");
      }
    }

    method EndObject()
      modifies this
      ensures View() == AppToXmlModel.EndObject(old(View()))
    {
      if error != NoError { return; }
      if state == StartedSingleObject {
        state := CompletedSingleValue;
      } else if state == StartedNamedObject {
        state := CompletedNamedValue;
      } else {
        RaiseError("Can't call endObject in this state");
      }
    }

    method StartNamedValue(name: string)
      modifies this
      ensures View() == AppToXmlModel.StartNamedValue(old(View()), name)
    {
      if error != NoError { return; }
      if state == StartedSingleObject || state == StartedNamedObject {
        elementStack := elementStack + [curElement];
        curElement := Element(name, None, []);
        state := StartedNamedValue;
      } else {
        RaiseError("Can't call startNamedValue in this state");
      }
    }

    method EndNamedValue()
      modifies this
      ensures View() == AppToXmlModel.EndNamedValue(old(View()))
    {
      ghost var e := View();
      if error != NoError { return; }
      if state != CompletedNamedValue {
        RaiseError("Can't call endNamedValue in this state");
        return;
      }
      if |elementStack| == 0 {
        error := Thrown;
        return;
      }
      var n := |elementStack|;
      var parent := elementStack[n - 1];
      assert e.path[n - 1] == parent && e.path[..n - 1] == elementStack[..n - 1];
      curElement := parent.(children := parent.children + [curElement]);
      elementStack := elementStack[..n - 1];
      state := if |elementStack| == 0 then StartedSingleObject else StartedNamedObject;
    }

    method EncodeNumber(v: JsVal, min: int, max: int)
      modifies this
      ensures View() == AppToXmlModel.EncodeNumber(num, old(View()), v, min, max)
    {
      if !InRange(v, min, max) {
        RaiseError("Can't encode value because it's not in the range");
      } else {
        SetValue(NumberString(num, v));
      }
    }

    /** toXml of a type, called on a value with this encoder. */
    method Encode(t: Type, v: JsVal)
      modifies this
      ensures View() == AppToXmlModel.Encode(num, t, v, old(View()))
      decreases t, 1
    {
      match t
      case BoolType =>
        if !v.JsBool? { RaiseError("Can't encode as boolean"); } else { SetValue(if v.b then "true" else "false"); }
      case IntType(min, max) =>
        if !IsNumber(v) { RaiseError("Can't encode as integer type"); } else { EncodeNumber(v, min, max); }
      case StringType =>
        if !v.JsString? { RaiseError("Can't encode as string"); } else { SetValue(v.s); }
      case StructType(ms, defaults) => EncodeStruct(ms, defaults, v);
      case DequeType(m) => EncodeDeque(m, v);
    }

    method EncodeStruct(ms: Members, ghost defaults: map<string, JsVal>, v: JsVal)
      modifies this
      ensures View() == AppToXmlModel.Encode(num, StructType(ms, defaults), v, old(View()))
      decreases ms, 2
    {
      hide AppToXmlModel.StartNamedValue, AppToXmlModel.EndNamedValue, AppToXmlModel.EndObject;
      if !IsObject(v) { RaiseError("Can't encode as structure"); return; }
      if v.JsNull? { RaiseError("Can't encode null value as structure"); return; }
      StartObject();
      ghost var e := View();
      var rest := ms;
      while rest.Member?
        invariant rest == ms || rest < ms
        invariant EncodeMembers(num, rest, v, View()) == EncodeMembers(num, ms, v, e)
        decreases rest
      {
        if !HasOwnProperty(v, rest.name) {
          RaiseError("Object seems to have no such member");
        } else {
          StartNamedValue(rest.name);
          Encode(rest.t, v.members[rest.name]);
          EndNamedValue();
        }
        rest := rest.rest;
      }
      EndObject();
    }

    lemma EntriesStep(m: Type, items: seq<JsVal>, i: nat, e: Enc)
      requires i < |items|
      ensures var e' := AppToXmlModel.EndNamedValue(
                AppToXmlModel.Encode(num, m, items[i], AppToXmlModel.StartNamedValue(e, "entry")));
        EncodeEntries(num, m, items[i..], e) == EncodeEntries(num, m, items[i + 1..], e')
    {
      hide AppToXmlModel.Encode, AppToXmlModel.StartNamedValue, AppToXmlModel.EndNamedValue;
      assert items[i..][1..] == items[i + 1..];
    }

    method EncodeDeque(m: Type, v: JsVal)
      modifies this
      ensures View() == AppToXmlModel.Encode(num, DequeType(m), v, old(View()))
      decreases m, 2
    {
      hide AppToXmlModel.StartNamedValue, AppToXmlModel.EndNamedValue, AppToXmlModel.StartObject,
        AppToXmlModel.EndObject;
      hide AppToXmlModel.EncodeNumber, SizeVal;
      if !IsObject(v) { RaiseError("Can't encode as vector/deque"); return; }
      if !v.JsDeque? { error := Thrown; return; }
      StartObject();
      StartNamedValue("size");
      EncodeNumber(SizeVal(v.items), 0, UINT32_MAX);
      EndNamedValue();
      ghost var e := View();
      assert v.items[0..] == v.items;
      var i := 0;
      while i < |v.items|
        invariant 0 <= i <= |v.items|
        invariant EncodeEntries(num, m, v.items[i..], View()) == EncodeEntries(num, m, v.items, e)
      {
        EntriesStep(m, v.items, i, View());
        StartNamedValue("entry");
        Encode(m, v.items[i]);
        EndNamedValue();
        i := i + 1;
      }
      EndObject();
    }
  }
}
