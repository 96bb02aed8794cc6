/**
 bbox.enc.FromXml of the browser client library, and fromXml of its types.
 */
module AppFromXmlModel {
  import opened XmlTree
  import opened AppNumbers
  import opened AppXmlTypes
  import AppToXmlModel

  datatype DecState = Constructed | InObject | StartedNamedValue | CompletedNamedValue | Complete

  datatype Error = NoError | Raised(text: string) | Thrown

  /** FromXml_ObjectProgress: how far the children of an element were visited. */
  datatype Progress = Progress(element: Element, atStart: bool, finished: bool, child: Cursor)

  datatype Dec = Dec(root: Element, progress: Option<Progress>, stack: seq<Progress>, st: DecState, error: Error)

  function Start(root: Element): Dec { Dec(root, None, [], Constructed, NoError) }

  function Raise(d: Dec, text: string): Dec { if d.error == NoError then d.(error := Raised(text)) else d }

  /** The element that nextElement returns. */
  function Following(p: Progress): Cursor {
    if p.finished then Null
    else if p.atStart then FirstElement(p.element.children, 0, Null)
    else if p.child.At? then FirstElement(p.child.after, 0, Null) else Null
  }

  function Advanced(p: Progress): Progress {
    var c := Following(p);
    if c.Null? then p.(finished := true) else p.(child := c, atStart := false)
  }

  /** The element whose value may be taken now. */
  function ValueElement(d: Dec): Option<Element> {
    if d.st == Constructed then Some(d.root)
    else if d.st == StartedNamedValue && d.progress.Some? && d.progress.v.child.At? then Some(d.progress.v.child.el)
    else None
  }

  predicate TakesValue(d: Dec) { d.st == Constructed || d.st == StartedNamedValue }

  datatype ReadText = ReadText(s: string, d: Dec)

  function GetValue(d: Dec): ReadText {
    if d.error != NoError then ReadText("", d)
    else if !TakesValue(d) then ReadText("", Raise(d, "Can't call getValue in this state"))
    else if ValueElement(d).None? then ReadText("", d.(error := Thrown))
    else
      var s := ValueOf(ValueElement(d).v);
      if s.None? then ReadText("", Raise(d, "Expected value"))
      else ReadText(s.v, d.(st := if d.st == Constructed then Complete else CompletedNamedValue))
  }

  function StartObject(d: Dec): Dec {
    if d.error != NoError then d
    else if !TakesValue(d) then Raise(d, "Can't call startObject in this state")
    else if ValueElement(d).None? then d.(error := Thrown)
    else
      var p := Progress(ValueElement(d).v, true, false, Null);
      var stack := if d.st == Constructed then d.stack else d.stack + [d.progress.v];
      d.(progress := Some(p), stack := stack, st := InObject)
  }

  function EndObject(d: Dec): Dec {
    if d.error != NoError then d
    else if d.st != InObject then Raise(d, "Can't call endObject in this state")
    else if d.progress.None? then d.(error := Thrown)
    else
      var d1 := d.(progress := Some(Advanced(d.progress.v)));
      if Following(d.progress.v).At? then Raise(d1, "endObject called, but element contains more elements")
      else if d.stack == [] then d1.(st := Complete)
      else d1.(progress := Some(d.stack[|d.stack| - 1]), stack := d.stack[..|d.stack| - 1], st := CompletedNamedValue)
  }

  function StartNamedValue(d: Dec, name: string): Dec {
    if d.error != NoError then d
    else if d.st != InObject then Raise(d, "Can't call startNamedValue in this state")
    else if d.progress.None? then d.(error := Thrown)
    else
      var d1, c := d.(progress := Some(Advanced(d.progress.v))), Following(d.progress.v);
      if c.Null? then Raise(d1, "startNamedValue called but no elements were remaining")
      else if c.el.name != name then Raise(d1, "startNamedValue called but got other element")
      else d1.(st := StartedNamedValue)
  }

  function EndNamedValue(d: Dec): Dec {
    if d.error != NoError then d
    else if d.st == CompletedNamedValue then d.(st := InObject)
    else Raise(d, "Can't call endNamedValue in this state")
  }

  // ---------- fromXml of the types ----------

  datatype Read = Read(v: JsVal, d: Dec)

  datatype ReadMembers = ReadMembers(members: map<string, JsVal>, d: Dec)

  datatype ReadEntries = ReadEntries(items: seq<JsVal>, d: Dec)

  /** The text that was read, decoded; or an error. */
  function Convert(r: ReadText, v: Option<JsVal>, text: string): Read {
    if r.d.error != NoError then Read(JsUndefined, r.d)
    else if v.None? then Read(JsUndefined, Raise(r.d, text))
    else Read(v.v, r.d)
  }

  function DecodeIntValue(num: Numbers, d: Dec, min: int, max: int): Read {
    var r := GetValue(d);
    Convert(r, DecodeInt(num, r.s, min, max), "Can't decode as integer type")
  }

  function Decode(num: Numbers, t: Type, d: Dec): Read
    decreases t, 0, 0
  {
    match t
    case BoolType => var r := GetValue(d); Convert(r, DecodeBool(r.s), "Can't decode as boolean")
    case IntType(min, max) => DecodeIntValue(num, d, min, max)
    case StringType => var r := GetValue(d); Convert(r, Some(JsString(r.s)), "")
    case StructType(ms, defaults) =>
      var d1 := StartObject(d);
      if d1.error != NoError then Read(JsUndefined, d1)
      else
        var r := DecodeMembers(num, ms, d1, defaults);
        var d2 := EndObject(r.d);
        Read(if d2.error != NoError then JsUndefined else JsObject(r.members), d2)
    case DequeType(m) =>
      var size := DecodeIntValue(num, StartNamedValue(StartObject(d), "size"), 0, UINT32_MAX);
      var r := DecodeEntries(num, m, EndNamedValue(size.d), 0, if size.v.JsNum? then size.v.n else 0, []);
      Read(JsDeque(r.items), EndObject(r.d))
  }

  function DecodeMembers(num: Numbers, ms: Members, d: Dec, acc: map<string, JsVal>): ReadMembers
    decreases ms, 1, 0
  {
    if ms.NoMembers? then ReadMembers(acc, d)
    else
      var r := Decode(num, ms.t, StartNamedValue(d, ms.name));
      DecodeMembers(num, ms.rest, EndNamedValue(r.d), acc[ms.name := r.v])
  }

  function DecodeEntries(num: Numbers, m: Type, d: Dec, count: nat, size: int, acc: seq<JsVal>): ReadEntries
    decreases m, 1, size - count
  {
    if d.error != NoError || count >= size then ReadEntries(acc, d)
    else
      var r := Decode(num, m, StartNamedValue(d, "entry"));
      DecodeEntries(num, m, EndNamedValue(r.d), count + 1, size, acc + [r.v])
  }

  // ---------- the calls refine decoding by recursion ----------

  lemma {:induction false} DecodeFailed(num: Numbers, t: Type, d: Dec)
    requires d.error != NoError
    ensures Decode(num, t, d).d == d
    decreases t
  {}

  lemma {:induction false} MembersFailed(num: Numbers, ms: Members, d: Dec, acc: map<string, JsVal>)
    requires d.error != NoError
    ensures DecodeMembers(num, ms, d, acc).d == d
    decreases ms
  {
    if ms.Member? {
      var r := Decode(num, ms.t, d);
      DecodeFailed(num, ms.t, d);
      MembersFailed(num, ms.rest, d, acc[ms.name := r.v]);
    }
  }

  predicate OnValue(d: Dec, el: Element) {
    d.error == NoError && TakesValue(d) && ValueElement(d) == Some(el) && (d.st == Constructed ==> d.stack == [])
  }

  /** The decoder after a value was read: complete, or in the object that it was in. */
  predicate Done(d: Dec, e: Dec) {
    && e.error == NoError && e.root == d.root && e.stack == d.stack
    && (if d.st == Constructed then e.st == Complete else e == d.(st := CompletedNamedValue))
  }

  /** In an object whose elements `els` were not visited yet. */
  predicate Inside(d: Dec, els: seq<Element>) {
    && d.error == NoError && d.st == InObject && d.progress.Some?
    && var p := d.progress.v;
       if p.finished then els == []
       else if p.atStart then els == Elements(p.element.children)
       else p.child.At? && els == Elements(p.child.after)
  }

  /** The same object, however far it was visited. */
  predicate SameObject(d: Dec, e: Dec) { e.root == d.root && e.stack == d.stack }

  lemma NextInside(d: Dec, els: seq<Element>)
    requires Inside(d, els)
    ensures Following(d.progress.v).At? <==> els != []
    ensures els != [] ==> Following(d.progress.v).el == els[0] && Elements(Following(d.progress.v).after) == els[1..]
  {
    var p := d.progress.v;
    if !p.finished {
      FirstOfElements(if p.atStart then p.element.children else p.child.after, 0, Null);
    }
  }

  lemma StartInside(d: Dec, els: seq<Element>, name: string)
    requires Inside(d, els)
    ensures var s := StartNamedValue(d, name);
      && (s.error == NoError <==> els != [] && els[0].name == name)
      && (s.error == NoError ==> OnValue(s, els[0]) && s.st == StartedNamedValue && SameObject(d, s)
                                 && Inside(s.(st := InObject), els[1..]))
  {
    NextInside(d, els);
  }

  /** Ending the object succeeds when nothing is left, and returns to the object outside. */
  lemma EndInside(d: Dec, els: seq<Element>)
    requires Inside(d, els)
    ensures EndObject(d).error == NoError <==> els == []
    ensures els == [] && d.stack == [] ==> EndObject(d).st == Complete && SameObject(d, EndObject(d))
    ensures els == [] && d.stack != [] ==>
      EndObject(d) == d.(progress := Some(d.stack[|d.stack| - 1]), stack := d.stack[..|d.stack| - 1],
        st := CompletedNamedValue)
  {
    NextInside(d, els);
  }

  /** From a value, starting an object and ending it is being done with the value. */
  lemma ObjectDone(d: Dec, el: Element, e: Dec)
    requires OnValue(d, el) && e.error == NoError && SameObject(StartObject(d), e) && Inside(e, [])
    ensures Done(d, EndObject(e))
  {
    EndInside(e, []);
    if d.st != Constructed {
      assert StartObject(d).stack[..|StartObject(d).stack| - 1] == d.stack;
    }
  }

  lemma ObjectStarts(d: Dec, el: Element)
    requires OnValue(d, el)
    ensures Inside(StartObject(d), Elements(el.children))
  {}

  lemma TextRead(d: Dec, el: Element)
    requires OnValue(d, el)
    ensures GetValue(d).d.error == NoError <==> ValueOf(el).Some?
    ensures ValueOf(el).Some? ==> GetValue(d).s == ValueOf(el).v && Done(d, GetValue(d).d)
  {}

  /** On any element of any document: fromXml raises no error exactly when decoding the element by recursion
      gives a value; it returns that value, and the decoder is done with the element. */
  lemma {:induction false} DecodeRefines(num: Numbers, t: Type, d: Dec, el: Element)
    requires OnValue(d, el)
    ensures Decode(num, t, d).d.error == NoError <==> DecodeElement(num, t, el).Some?
    ensures DecodeElement(num, t, el).Some? ==>
      Decode(num, t, d).v == DecodeElement(num, t, el).v && Done(d, Decode(num, t, d).d)
    decreases t, 0, 0
  {
    match t {
      case StructType(ms, defaults) =>
        ObjectStarts(d, el);
        MembersRefine(num, ms, StartObject(d), Elements(el.children), defaults);
        StructRefines(num, ms, defaults, d, el);
      case DequeType(m) => DequeRefines(num, m, d, el);
      case _ => TextRead(d, el);
    }
  }

  lemma StructRefines(num: Numbers, ms: Members, defaults: map<string, JsVal>, d: Dec, el: Element)
    requires OnValue(d, el) && Inside(StartObject(d), Elements(el.children))
    requires MembersAgree(num, ms, StartObject(d), Elements(el.children), defaults)
    ensures var t := StructType(ms, defaults);
      && (Decode(num, t, d).d.error == NoError <==> DecodeElement(num, t, el).Some?)
      && (DecodeElement(num, t, el).Some? ==>
        Decode(num, t, d).v == DecodeElement(num, t, el).v && Done(d, Decode(num, t, d).d))
  {
    var s := StartObject(d);
    var r := DecodeMembers(num, ms, s, defaults);
    hide StartObject, Inside, SameObject, OnValue, Done, EndObject, DecodeMembers, Elements;
    assert s.error == NoError by { StartedOK(d, el); }
    if DecodeMemberElements(num, ms, Elements(el.children), defaults).Some? {
      InsideOK(r.d, []);
      ObjectDone(d, el, r.d);
      DoneOK(d, EndObject(r.d));
    }
  }

  lemma StartedOK(d: Dec, el: Element)
    requires OnValue(d, el)
    ensures StartObject(d).error == NoError
  {}

  lemma InsideOK(d: Dec, els: seq<Element>)
    requires Inside(d, els)
    ensures d.error == NoError
  {}

  lemma DoneOK(d: Dec, e: Dec)
    requires Done(d, e)
    ensures e.error == NoError
  {}

  /** Reading the members agrees with decoding the elements: if those decode, nothing is left to visit and the
      members are the same; if not, ending the object fails. */
  ghost predicate MembersAgree(num: Numbers, ms: Members, d: Dec, els: seq<Element>, acc: map<string, JsVal>) {
    var r, t := DecodeMembers(num, ms, d, acc), DecodeMemberElements(num, ms, els, acc);
    if t.Some? then t.v == JsObject(r.members) && Inside(r.d, []) && SameObject(d, r.d)
    else EndObject(r.d).error != NoError
  }

  /** Reading a named value: no error exactly if it is the next element and decodes, and then the rest is left. */
  lemma {:induction false} NamedRead(num: Numbers, t: Type, d: Dec, els: seq<Element>, name: string)
    requires Inside(d, els)
    ensures var r := Decode(num, t, StartNamedValue(d, name));
      var e := EndNamedValue(r.d);
      if els != [] && els[0].name == name && DecodeElement(num, t, els[0]).Some? then
        e.error == NoError && Inside(e, els[1..]) && SameObject(d, e) && r.v == DecodeElement(num, t, els[0]).v
      else e.error != NoError
    decreases t, 0, 1
  {
    hide Elements, Following, Decode, DecodeElement, StartNamedValue;
    var s := StartNamedValue(d, name);
    StartInside(d, els, name);
    if s.error == NoError { DecodeRefines(num, t, s, els[0]); } else { DecodeFailed(num, t, s); }
  }

  lemma EndFailed(d: Dec)
    requires d.error != NoError
    ensures EndObject(d) == d
  {}

  lemma {:induction false} MembersRefine(num: Numbers, ms: Members, d: Dec, els: seq<Element>, acc: map<string, JsVal>)
    requires Inside(d, els)
    ensures MembersAgree(num, ms, d, els, acc)
    decreases ms, 1, 0
  {
    hide Inside, Decode, DecodeElement, StartNamedValue, EndNamedValue, EndObject;
    if ms.NoMembers? {
      EndInside(d, els);
    } else {
      NamedRead(num, ms.t, d, els, ms.name);
      var r := Decode(num, ms.t, StartNamedValue(d, ms.name));
      var e, acc' := EndNamedValue(r.d), acc[ms.name := r.v];
      if e.error == NoError {
        MembersRefine(num, ms.rest, e, els[1..], acc');
      } else {
        MembersFailed(num, ms.rest, e, acc');
        EndFailed(e);
      }
    }
  }

  ghost predicate EntriesAgree(num: Numbers, m: Type, d: Dec, els: seq<Element>, count: nat, size: int,
      acc: seq<JsVal>) {
    var r, t := DecodeEntries(num, m, d, count, size, acc), DecodeEntryElements(num, m, els, count, size, acc);
    if t.Some? then t.v == JsDeque(r.items) && Inside(r.d, []) && SameObject(d, r.d)
    else EndObject(r.d).error != NoError
  }

  /** Entries after a first one that could not be read. */
  lemma EntriesFailed(num: Numbers, m: Type, d: Dec, count: nat, size: int, acc: seq<JsVal>)
    requires d.error != NoError
    ensures DecodeEntries(num, m, d, count, size, acc) == ReadEntries(acc, d)
  {}

  lemma EntriesStep(num: Numbers, m: Type, d: Dec, count: nat, size: int, acc: seq<JsVal>)
    requires d.error == NoError && count < size
    ensures var r := Decode(num, m, StartNamedValue(d, "entry"));
      DecodeEntries(num, m, d, count, size, acc)
      == DecodeEntries(num, m, EndNamedValue(r.d), count + 1, size, acc + [r.v])
  {
    hide Decode, StartNamedValue, EndNamedValue;
  }

  lemma {:induction false} EntriesRefine(
    num: Numbers, m: Type, d: Dec, els: seq<Element>, count: nat, size: int, acc: seq<JsVal>)
    requires Inside(d, els)
    ensures EntriesAgree(num, m, d, els, count, size, acc)
    decreases m, 1, size - count
  {
    hide Inside, Decode, DecodeElement, StartNamedValue, EndNamedValue, EndObject;
    InsideOK(d, els);
    if count >= size {
      EndInside(d, els);
    } else {
      EntriesStep(num, m, d, count, size, acc);
      NamedRead(num, m, d, els, "entry");
      hide DecodeEntries;
      var r := Decode(num, m, StartNamedValue(d, "entry"));
      var e, acc' := EndNamedValue(r.d), acc + [r.v];
      if e.error == NoError {
        EntriesRefine(num, m, e, els[1..], count + 1, size, acc');
      } else {
        EndFailed(e);
        EntriesFailed(num, m, e, count + 1, size, acc');
      }
    }
  }

  /** The size that an element of a deque starts with. */
  function SizeOf(num: Numbers, els: seq<Element>): Option<JsVal> {
    if els == [] || els[0].name != "size" || ValueOf(els[0]).None? then None
    else DecodeInt(num, ValueOf(els[0]).v, 0, UINT32_MAX)
  }

  lemma SizeRead(num: Numbers, d: Dec, els: seq<Element>)
    requires Inside(d, els)
    ensures var r := DecodeIntValue(num, StartNamedValue(d, "size"), 0, UINT32_MAX);
      var e, x := EndNamedValue(r.d), SizeOf(num, els);
      if x.Some? then
        els != [] && e.error == NoError && Inside(e, els[1..]) && SameObject(d, e) && r.v == x.v && x.v.JsNum?
      else e.error != NoError
  {
    hide Elements, Following, ParseInt, ValueOf, StartNamedValue;
    var s := StartNamedValue(d, "size");
    StartInside(d, els, "size");
    if s.error == NoError { TextRead(s, els[0]); }
  }

  lemma {:induction false} DequeRefines(num: Numbers, m: Type, d: Dec, el: Element)
    requires OnValue(d, el)
    ensures var t := DequeType(m);
      && (Decode(num, t, d).d.error == NoError <==> DecodeElement(num, t, el).Some?)
      && (DecodeElement(num, t, el).Some? ==>
          Decode(num, t, d).v == DecodeElement(num, t, el).v && Done(d, Decode(num, t, d).d))
    decreases m, 2, 0
  {
    hide StartObject, Inside, SameObject, OnValue, Done, EndObject, Elements, DecodeIntValue, DecodeInt, ValueOf;
    hide StartNamedValue, EndNamedValue, DecodeEntries, DecodeEntryElements;
    var els, o := Elements(el.children), StartObject(d);
    ObjectStarts(d, el);
    SizeRead(num, o, els);
    var size := DecodeIntValue(num, StartNamedValue(o, "size"), 0, UINT32_MAX);
    var e := EndNamedValue(size.d);
    if SizeOf(num, els).Some? {
      EntriesRefine(num, m, e, els[1..], 0, size.v.n, []);
      var r := DecodeEntries(num, m, e, 0, size.v.n, []);
      if DecodeEntryElements(num, m, els[1..], 0, size.v.n, []).Some? {
        SameTrans(o, e, r.d);
        InsideOK(r.d, []);
        ObjectDone(d, el, r.d);
        DoneOK(d, EndObject(r.d));
      }
    } else {
      EntriesFailed(num, m, e, 0, if size.v.JsNum? then size.v.n else 0, []);
      EndFailed(e);
    }
  }

  lemma SameTrans(a: Dec, b: Dec, c: Dec)
    requires SameObject(a, b) && SameObject(b, c)
    ensures SameObject(a, c)
  {}

  /** For every type and every value that it accepts, encoding raises no error. Decoding the document that it
      leaves raises no error exactly if every number in it is read in range; then it ends complete with no object
      open, and gives the value back as far as its type names it. The value is as it was exactly when it is the
      type's to the letter, its numbers whole and below ten to the power of 21 in size. */
  lemma RoundTrip(num: Numbers, t: Type, v: JsVal, root: string)
    requires Encodable(t, v)
    ensures var e := AppToXmlModel.Encode(num, t, v, AppToXmlModel.Start(root));
      && e.error == AppToXmlModel.NoError && e.st == AppToXmlModel.CompletedSingleValue
      && e.path == [Tree(num, root, t, v)]
    ensures var r, k := Decode(num, t, Start(Tree(num, root, t, v))), Kept(num, t, v);
      && (r.d.error == NoError <==> k.Some?)
      && (k.Some? ==> r.d.st == Complete && r.d.stack == [] && r.v == k.v)
      && (AllWhole(t, v) ==> k.Some?)
    ensures TypeOK(t) ==> var r := Decode(num, t, Start(Tree(num, root, t, v)));
      r.d.error == NoError && r.v == v <==> Exact(t, v)
  {
    hide AppToXmlModel.Encode, Decode, Tree, Kept, DecodeElement;
    AppToXmlModel.EncodesTree(num, t, v, AppToXmlModel.Start(root), root);
    DecodeRefines(num, t, Start(Tree(num, root, t, v)), Tree(num, root, t, v));
    TreeDecodes(num, root, t, v);
    if AllWhole(t, v) { WholeIsRead(num, t, v); }
    if TypeOK(t) { KeptExactly(num, t, v); }
  }
}

/** The decoder as its methods run it. */
module AppFromXmlClass {
  import opened XmlTree
  import opened AppNumbers
  import opened AppXmlTypes
  import opened AppFromXmlModel
  import AppToXmlClass

  class FromXml {
    const num: Numbers
    const rootElement: Element
    var curObjProgress: Option<Progress>
    var parentStack: seq<Progress>
    var state: DecState
    var error: Error

    ghost function View(): Dec
      reads this
    {
      Dec(rootElement, curObjProgress, parentStack, state, error)
    }

    constructor (num: Numbers, root: Element)
      ensures View() == AppFromXmlModel.Start(root) && this.num == num
    {
      this.num := num;
      rootElement, curObjProgress, parentStack, state, error := root, None, [], Constructed, NoError;
    }

    method RaiseError(text: string)
      modifies this`error
      ensures View() == Raise(old(View()), text)
    {
      if error == NoError { error := Raised(text); }
    }

    /** nextElement of the progress object of the current object. */
    method NextElement() returns (result: Cursor)
      requires curObjProgress.Some?
      modifies this`curObjProgress
      ensures result == Following(old(curObjProgress).v) && curObjProgress == Some(Advanced(old(curObjProgress).v))
    {
      var p := curObjProgress.v;
      if p.finished {
        result := Null;
      } else if p.atStart {
        result := FirstElement(p.element.children, 0, Null);
      } else if p.child.At? {
        result := FirstElement(p.child.after, 0, Null);
      } else {
        result := Null;
      }
      if result.Null? {
        p := p.(finished := true);
      } else {
        p := p.(child := result, atStart := false);
      }
      curObjProgress := Some(p);
    }

    method GetValue() returns (result: string)
      modifies this
      ensures View() == AppFromXmlModel.GetValue(old(View())).d && result == AppFromXmlModel.GetValue(old(View())).s
    {
      result := "";
      if error != NoError { return; }
      if state == Constructed || state == StartedNamedValue {
        var element := rootElement;
        if state != Constructed {
          if curObjProgress.None? || curObjProgress.v.child.Null? {
            error := Thrown;
            return;
          }
          element := curObjProgress.v.child.el;
        }
        var text := AllText(element.children);
        if |Elements(element.children)| != 0 {
          RaiseError("Expected value");
          return;
        } else if text != "" && element.value.Some? {
          RaiseError("Expected value");
          return;
        } else if element.value.Some? {
          result := element.value.v;
        } else {
          result := text;
        }
        if state == Constructed { state := Complete; } else { state := CompletedNamedValue; }
      } else {
        RaiseError("Can't call getValue in this state");
      }
    }

    method StartObject()
      modifies this
      ensures View() == AppFromXmlModel.StartObject(old(View()))
    {
      if error != NoError { return; }
      var progress: Progress;
      if state == Constructed {
        progress := Progress(rootElement, true, false, Null);
      } else if state == StartedNamedValue {
        if curObjProgress.None? || curObjProgress.v.child.Null? {
          error := Thrown;
          return;
        }
        progress := Progress(curObjProgress.v.child.el, true, false, Null);
        parentStack := parentStack + [curObjProgress.v];
      } else {
        RaiseError("Can't call startObject in this state");
        return;
      }
      curObjProgress := Some(progress);
      state := InObject;
    }

    method EndObject()
      modifies this
      ensures View() == AppFromXmlModel.EndObject(old(View()))
    {
      if error != NoError { return; }
      if state != InObject {
        RaiseError("Can't call endObject in this state");
        return;
      }
      if curObjProgress.None? {
        error := Thrown;
        return;
      }
      var remaining := NextElement();
      if remaining.At? {
        RaiseError("endObject called, but element contains more elements");
        return;
      }
      if |parentStack| == 0 {
        state := Complete;
      } else {
        curObjProgress := Some(parentStack[|parentStack| - 1]);
        parentStack := parentStack[..|parentStack| - 1];
        state := CompletedNamedValue;
      }
    }

    method StartNamedValue(name: string)
      modifies this
      ensures View() == AppFromXmlModel.StartNamedValue(old(View()), name)
    {
      if error != NoError { return; }
      if state != InObject {
        RaiseError("Can't call startNamedValue in this state");
        return;
      }
      if curObjProgress.None? {
        error := Thrown;
        return;
      }
      var element := NextElement();
      if element.Null? {
        RaiseError("startNamedValue called but no elements were remaining");
      } else if element.el.name != name {
        RaiseError("startNamedValue called but got other element");
      } else {
        state := StartedNamedValue;
      }
    }

    method EndNamedValue()
      modifies this
      ensures View() == AppFromXmlModel.EndNamedValue(old(View()))
    {
      if error != NoError { return; }
      if state == CompletedNamedValue {
        state := InObject;
      } else {
        RaiseError("Can't call endNamedValue in this state");
      }
    }

    method DecodeIntValue(min: int, max: int) returns (v: JsVal)
      modifies this
      ensures View() == AppFromXmlModel.DecodeIntValue(num, old(View()), min, max).d
      ensures v == AppFromXmlModel.DecodeIntValue(num, old(View()), min, max).v
    {
      var s := GetValue();
      if error != NoError { return JsUndefined; }
      var r := ParseInt(num, s);
      if !(r.Parsed? && min <= r.n <= max) {
        RaiseError("Can't decode as integer type");
        return JsUndefined;
      }
      return JsNum(r.n);
    }

    /** fromXml of a type, called on this decoder. */
    method Decode(t: Type) returns (v: JsVal)
      modifies this
      ensures View() == AppFromXmlModel.Decode(num, t, old(View())).d
        && v == AppFromXmlModel.Decode(num, t, old(View())).v
      decreases t, 1
    {
      match t
      case BoolType =>
        var s := GetValue();
        if error != NoError { return JsUndefined; }
        if s == "true" { return JsBool(true); }
        if s == "false" { return JsBool(false); }
        RaiseError("Can't decode as boolean");
        return JsUndefined;
      case IntType(min, max) => v := DecodeIntValue(min, max);
      case StringType =>
        var s := GetValue();
        if error != NoError { return JsUndefined; }
        return JsString(s);
      case StructType(ms, defaults) => v := DecodeStruct(ms, defaults);
      case DequeType(m) => v := DecodeDeque(m);
    }

    method DecodeStruct(ms: Members, defaults: map<string, JsVal>) returns (v: JsVal)
      modifies this
      ensures View() == AppFromXmlModel.Decode(num, StructType(ms, defaults), old(View())).d
      ensures v == AppFromXmlModel.Decode(num, StructType(ms, defaults), old(View())).v
      decreases ms, 2
    {
      hide AppFromXmlModel.StartObject, AppFromXmlModel.EndObject, AppFromXmlModel.StartNamedValue,
        AppFromXmlModel.EndNamedValue;
      var result := defaults;
      StartObject();
      if error != NoError { return JsUndefined; }
      ghost var d := View();
      var rest := ms;
      while rest.Member?
        invariant rest == ms || rest < ms
        invariant DecodeMembers(num, rest, View(), result) == DecodeMembers(num, ms, d, defaults)
        decreases rest
      {
        StartNamedValue(rest.name);
        var member := Decode(rest.t);
        result := result[rest.name := member];
        EndNamedValue();
        rest := rest.rest;
      }
      EndObject();
      if error != NoError { return JsUndefined; }
      return JsObject(result);
    }

    method DecodeDeque(m: Type) returns (v: JsVal)
      modifies this
      ensures View() == AppFromXmlModel.Decode(num, DequeType(m), old(View())).d
      ensures v == AppFromXmlModel.Decode(num, DequeType(m), old(View())).v
      decreases m, 2
    {
      hide AppFromXmlModel.StartObject, AppFromXmlModel.EndObject, AppFromXmlModel.StartNamedValue,
        AppFromXmlModel.EndNamedValue;
      hide AppFromXmlModel.DecodeIntValue;
      var result := [];
      StartObject();
      StartNamedValue("size");
      var size := DecodeIntValue(0, UINT32_MAX);
      EndNamedValue();
      ghost var d := View();
      var n, count := if size.JsNum? then size.n else 0, 0;
      while error == NoError && count < n
        invariant count >= 0
        invariant DecodeEntries(num, m, View(), count, n, result) == DecodeEntries(num, m, d, 0, n, [])
        decreases n - count
      {
        StartNamedValue("entry");
        var entry := Decode(m);
        result := result + [entry];
        EndNamedValue();
        count := count + 1;
      }
      EndObject();
      return JsDeque(result);
    }
  }

  /** Encoding a value and decoding the document, call by call. */
  method EncodeAndDecode(num: Numbers, t: Type, v: JsVal, root: string) returns (back: JsVal, complete: bool)
    requires Encodable(t, v) && TypeOK(t)
    ensures (complete <==> Kept(num, t, v).Some?) && (AllWhole(t, v) ==> complete)
    ensures complete && back == v <==> Exact(t, v)
  {
    hide Encodable, TypeOK, Exact, Kept, Tree;
    RoundTrip(num, t, v, root);
    var encoder := new AppToXmlClass.ToXml(num, root);
    encoder.Encode(t, v);
    assert encoder.View().path == [Tree(num, root, t, v)];
    assert encoder.curElement == encoder.View().path[|encoder.View().path| - 1];
    var decoder := new FromXml(num, encoder.curElement);
    back := decoder.Decode(t);
    complete := decoder.error == NoError && decoder.state == Complete && |decoder.parentStack| == 0;
  }
}
