/**
 bbox::enc::ToXml and bbox::enc::FromXml on element trees.

 An XML document is its list of top level nodes; of the attributes only "value" is ever used. Strings are
 byte strings. A pointer to an element of a document is the element together with the nodes after it, the
 number of elements before it, and the pointer to its parent, so that moving along the pointers of the tree
 is moving from one such cursor to another.
 */
module XmlTree {
  datatype Option<T> = None | Some(v: T)

  datatype Node = Text(s: string) | Other | Element(name: string, value: Option<string>, children: seq<Node>)

  type Element = n: Node | n.Element? witness Element("", None, [])

  datatype Cursor = Null | At(el: Element, after: seq<Node>, index: nat, parent: Cursor)

  /** The child elements among some nodes. */
  function Elements(nodes: seq<Node>): seq<Element> {
    if nodes == [] then [] else (if nodes[0].Element? then [nodes[0]] else []) + Elements(nodes[1..])
  }

  /** FirstChildElement and NextSiblingElement: the first element among some sibling nodes. */
  function FirstElement(nodes: seq<Node>, index: nat, parent: Cursor): Cursor {
    if nodes == [] then Null
    else if nodes[0].Element? then At(nodes[0], nodes[1..], index, parent)
    else FirstElement(nodes[1..], index, parent)
  }

  lemma {:induction false} FirstOfElements(nodes: seq<Node>, index: nat, parent: Cursor)
    ensures var c := FirstElement(nodes, index, parent); var es := Elements(nodes);
      && (c.Null? <==> es == [])
      && (c.At? ==> c.el == es[0] && Elements(c.after) == es[1..] && c.parent == parent && c.index == index)
  {
    if nodes != [] {
      var e := if nodes[0].Element? then [nodes[0]] else [];
      assert Elements(nodes) == e + Elements(nodes[1..]);
      if nodes[0].Element? {
        assert Elements(nodes)[1..] == Elements(nodes[1..]);
      } else {
        assert Elements(nodes) == Elements(nodes[1..]);
        FirstOfElements(nodes[1..], index, parent);
      }
    }
  }

  // ---------- values ----------

  /** What is written: a string, or a structure of named items. */
  datatype Value = Str(s: string) | Struct(items: Items)

  datatype Items = NoItems | Item(name: string, value: Value, rest: Items)

  /** What the reader asks for: the names of the items, at every level. */
  datatype Shape = StrShape | StructShape(names: Names)

  datatype Names = NoNames | Name(name: string, shape: Shape, rest: Names)

  function ShapeOf(v: Value): Shape {
    match v
    case Str(_) => StrShape
    case Struct(items) => StructShape(NamesOf(items))
  }

  function NamesOf(items: Items): Names {
    match items
    case NoItems => NoNames
    case Item(n, v, rest) => Name(n, ShapeOf(v), NamesOf(rest))
  }

  // ---------- decoding a tree by recursion ----------

  /** The errors of DecodeStringValue. */
  predicate Ambiguous(el: Element) {
    || (el.value.Some? && el.children != [])
    || (el.children != [] && (!el.children[0].Text? || |el.children| > 1))
  }

  /** The string of an element: its attribute, or its one text. */
  function StringOf(el: Element): Option<string> {
    if Ambiguous(el) then None
    else if el.value.Some? then el.value
    else if el.children != [] then Some(el.children[0].s)
    else None
  }

  function DecodeTree(el: Element, shape: Shape): Option<Value>
    decreases shape
  {
    match shape
    case StrShape => var s := StringOf(el); if s.Some? then Some(Str(s.v)) else None
    case StructShape(names) =>
      var items := DecodeItems(Elements(el.children), names);
      if items.Some? then Some(Struct(items.v)) else None
  }

  /** The elements have exactly the names that are asked for, in order. */
  function DecodeItems(els: seq<Element>, names: Names): Option<Items>
    decreases names
  {
    match names
    case NoNames => if els == [] then Some(NoItems) else None
    case Name(n, shape, rest) =>
      if els == [] || els[0].name != n then None
      else
        var v, items := DecodeTree(els[0], shape), DecodeItems(els[1..], rest);
        if v.Some? && items.Some? then Some(Item(n, v.v, items.v)) else None
  }

  // ---------- writing ----------

  const ATTRIBUTE_LIMIT: nat := 80

  predicate AsAttribute(s: string) { |s| < ATTRIBUTE_LIMIT && forall i :: 0 <= i < |s| ==> ' ' <= s[i] <= '~' }

  /** What c_str() shows of a string. */
  function CString(s: string): string { if s == [] || s[0] == '\0' then [] else [s[0]] + CString(s[1..]) }

  /** SetStringValue. */
  function SetString(el: Element, s: string): Element {
    if AsAttribute(s) then el.(value := Some(s)) else el.(children := [Text(CString(s))] + el.children)
  }

  /** The element that an empty one becomes when a value is written into it. */
  function Written(name: string, v: Value): Element
    decreases v
  {
    match v
    case Str(s) => SetString(Element(name, None, []), s)
    case Struct(items) => Element(name, None, WrittenItems(items))
  }

  function WrittenItems(items: Items): seq<Node>
    decreases items
  {
    match items
    case NoItems => []
    case Item(n, v, rest) => [Written(n, v)] + WrittenItems(rest)
  }

  /** The value as it comes back: strings end at their first NUL. */
  function Cut(v: Value): Value {
    match v
    case Str(s) => Str(CString(s))
    case Struct(items) => Struct(CutItems(items))
  }

  function CutItems(items: Items): Items {
    match items
    case NoItems => NoItems
    case Item(n, v, rest) => Item(n, Cut(v), CutItems(rest))
  }

  predicate NoNul(v: Value) {
    match v
    case Str(s) => '\0' !in s
    case Struct(items) => NoNulItems(items)
  }

  predicate NoNulItems(items: Items) { items.Item? ==> NoNul(items.value) && NoNulItems(items.rest) }

  lemma {:induction false} CStringWhole(s: string)
    ensures CString(s) == s <==> '\0' !in s
  {
    if s != [] {
      assert s == [s[0]] + s[1..];
      CStringWhole(s[1..]);
    }
  }

  /** What comes back is what was written exactly when no string holds a NUL. */
  lemma {:induction false} CutExactly(v: Value)
    ensures Cut(v) == v <==> NoNul(v)
    decreases v, 0
  {
    match v {
      case Str(s) => CStringWhole(s);
      case Struct(items) => CutItemsExactly(items);
    }
  }

  lemma {:induction false} CutItemsExactly(items: Items)
    ensures CutItems(items) == items <==> NoNulItems(items)
    decreases items, 1
  {
    if items.Item? {
      CutExactly(items.value);
      CutItemsExactly(items.rest);
    }
  }

  /** A short printable string is stored whole. */
  lemma AttributeWhole(s: string)
    requires AsAttribute(s)
    ensures CString(s) == s
  {
    CStringWhole(s);
  }

  /** Decoding the tree that was written gives the value, cut at NULs. */
  lemma {:induction false} WrittenDecodes(name: string, v: Value)
    ensures DecodeTree(Written(name, v), ShapeOf(v)) == Some(Cut(v))
    decreases v, 0
  {
    match v {
      case Str(s) => if AsAttribute(s) { AttributeWhole(s); }
      case Struct(items) => WrittenItemsDecode(items);
    }
  }

  lemma {:induction false} WrittenItemsDecode(items: Items)
    ensures DecodeItems(Elements(WrittenItems(items)), NamesOf(items)) == Some(CutItems(items))
    decreases items, 1
  {
    if items.Item? {
      WrittenDecodes(items.name, items.value);
      WrittenItemsDecode(items.rest);
      var nodes := WrittenItems(items);
      assert nodes[1..] == WrittenItems(items.rest);
      assert Elements(nodes)[1..] == Elements(nodes[1..]);
    }
  }
}

/** The decoding cursor. */
module FromXmlModel {
  import opened XmlTree

  /** No error yet, the first error, or a call that the source leaves undefined. */
  datatype Error = NoError | Error(text: string) | Undefined

  /** The document and the fields of FromXml. */
  datatype State = State(doc: seq<Node>, cur: Cursor, valueMode: bool, first: bool, error: Error)

  function Start(doc: seq<Node>): State { State(doc, Null, false, true, NoError) }

  function Fail(d: State, text: string): State { if d.error == NoError then d.(error := Error(text)) else d }

  function NextElement(d: State): Cursor {
    match d.cur
    case Null => if d.first then FirstElement(d.doc, 0, Null) else Null
    case At(el, after, index, parent) =>
      if d.first then FirstElement(el.children, 0, d.cur) else FirstElement(after, index + 1, parent)
  }

  predicate HasNextNamedItem(d: State, name: string) {
    d.error == NoError && !d.valueMode && var n := NextElement(d); n.At? && n.el.name == name
  }

  function StartNamedItem(d: State, name: string): State {
    if d.error != NoError then d
    else if d.valueMode then Fail(d, "Cannot start named item in value mode")
    else
      var n := NextElement(d);
      if n.Null? then Fail(d, "No next element")
      else if n.el.name != name then Fail(d, "Found other next element")
      else d.(cur := n, valueMode := true, first := false)
  }

  function CompleteNamedItem(d: State): State {
    if d.error != NoError then d
    else if !d.valueMode then Fail(d, "Called CompleteNamedItem when not in value mode")
    else d.(valueMode := false, first := false)
  }

  function StartStructure(d: State): State {
    if d.error != NoError then d
    else if !d.valueMode then Fail(d, "StartStructure called when not in value mode")
    else d.(valueMode := false, first := true)
  }

  /** The assertion of CompleteStructure fails when there is no current element. */
  function CompleteStructure(d: State): State {
    if d.error != NoError then d
    else if d.valueMode then Fail(d, "CompleteStructure call in value mode")
    else if d.cur.Null? then d.(error := Undefined)
    else if NextElement(d).At? then Fail(d, "Undecoded element remaining in structure")
    else d.(cur := if d.first then d.cur else d.cur.parent, valueMode := true, first := false)
  }

  /** DecodeStringValue takes the text of a node that has to be there. */
  predicate HasValue(d: State) {
    d.error == NoError && d.valueMode ==> d.cur.At? && (d.cur.el.value.Some? || d.cur.el.children != [])
  }

  function AfterString(d: State): State {
    if d.error != NoError then d
    else if !d.valueMode then Fail(d, "DecodeValue called when not in value mode")
    else if !HasValue(d) then d.(error := Undefined)
    else if Ambiguous(d.cur.el) then Fail(d, "Expect either value attribute or text content")
    else d
  }

  function StringRead(d: State): string {
    if AfterString(d).error != NoError then ""
    else if d.cur.el.value.Some? then d.cur.el.value.v
    else d.cur.el.children[0].s
  }

  function EnsureAllDecoded(d: State): State {
    if d.error != NoError then d
    else if !d.valueMode && d.cur == FirstElement(d.doc, 0, Null) then d
    else Fail(d, "Undecoded data remaining")
  }

  /** An item can be started exactly when it is announced. */
  lemma AnnouncedStarts(d: State, name: string)
    requires d.error == NoError
    ensures HasNextNamedItem(d, name) <==> StartNamedItem(d, name).error == NoError
  {}

  // ---------- reading a value through the cursor ----------

  datatype Read = Read(v: Value, d: State)

  datatype ReadAll = ReadAll(items: Items, d: State)

  /** The calls that read a value of a given shape. */
  function ReadValue(d: State, shape: Shape): Read
    decreases shape
  {
    match shape
    case StrShape => Read(Str(StringRead(d)), AfterString(d))
    case StructShape(names) =>
      var r := ReadItems(StartStructure(d), names);
      Read(Struct(r.items), CompleteStructure(r.d))
  }

  function ReadItems(d: State, names: Names): ReadAll
    decreases names
  {
    match names
    case NoNames => ReadAll(NoItems, d)
    case Name(n, shape, rest) =>
      var v := ReadValue(StartNamedItem(d, n), shape);
      var r := ReadItems(CompleteNamedItem(v.d), rest);
      ReadAll(Item(n, v.v, r.items), r.d)
  }

  lemma {:induction false} ErrorStays(d: State, shape: Shape)
    requires d.error != NoError
    ensures ReadValue(d, shape).d == d
    decreases shape, 0
  {
    if shape.StructShape? { ErrorStaysInItems(d, shape.names); }
  }

  lemma {:induction false} ErrorStaysInItems(d: State, names: Names)
    requires d.error != NoError
    ensures ReadItems(d, names).d == d
    decreases names, 1
  {
    if names.Name? {
      ErrorStays(d, names.shape);
      ErrorStaysInItems(d, names.rest);
    }
  }

  /** The elements still to be visited of the structure that `owner` is. */
  predicate Inside(d: State, owner: Cursor, els: seq<Element>) {
    && owner.At? && d.error == NoError && !d.valueMode
    && (if d.first then d.cur == owner && els == Elements(owner.el.children)
        else d.cur.At? && d.cur.parent == owner && els == Elements(d.cur.after))
  }

  predicate OnValue(d: State, el: Element) {
    d.error == NoError && d.valueMode && !d.first && d.cur.At? && d.cur.el == el
  }

  lemma NextInside(d: State, owner: Cursor, els: seq<Element>)
    requires Inside(d, owner, els)
    ensures NextElement(d).At? <==> els != []
    ensures els != [] ==> NextElement(d).el == els[0] && NextElement(d).parent == owner
    ensures els != [] ==> Elements(NextElement(d).after) == els[1..]
  {
    if d.first {
      FirstOfElements(owner.el.children, 0, d.cur);
    } else {
      FirstOfElements(d.cur.after, d.cur.index + 1, d.cur.parent);
    }
  }

  lemma StartInside(d: State, owner: Cursor, els: seq<Element>, name: string)
    requires Inside(d, owner, els)
    ensures StartNamedItem(d, name).error == NoError <==> els != [] && els[0].name == name
    ensures StartNamedItem(d, name).error == NoError ==>
      OnValue(StartNamedItem(d, name), els[0]) && Inside(CompleteNamedItem(StartNamedItem(d, name)), owner, els[1..])
  {
    NextInside(d, owner, els);
  }

  /** On any element of any document: the cursor reads a value without an error exactly when decoding the
      element by recursion gives one, it reads that value, and it is back where it was. */
  lemma {:induction false} CursorRefinesTree(d: State, shape: Shape)
    requires d.cur.At? && OnValue(d, d.cur.el)
    ensures var r := ReadValue(d, shape); var t := DecodeTree(d.cur.el, shape);
      (r.d.error == NoError <==> t.Some?) && (t.Some? ==> r.v == t.v && r.d == d)
    decreases shape, 0
  {
    if shape.StructShape? {
      var s := StartStructure(d);
      assert Inside(s, d.cur, Elements(d.cur.el.children));
      ItemsRefineTree(s, d.cur, Elements(d.cur.el.children), shape.names);
    }
  }

  lemma {:induction false} ItemsRefineTree(d: State, owner: Cursor, els: seq<Element>, names: Names)
    requires Inside(d, owner, els)
    ensures var r := ReadItems(d, names); var t := DecodeItems(els, names); var e := CompleteStructure(r.d);
      && (e.error == NoError <==> t.Some?)
      && (t.Some? ==> r.items == t.v && e == d.(cur := owner, valueMode := true, first := false))
    decreases names, 1
  {
    if names.NoNames? {
      NextInside(d, owner, els);
    } else {
      var s := StartNamedItem(d, names.name);
      StartInside(d, owner, els, names.name);
      if s.error != NoError {
        ErrorStays(s, names.shape);
        ErrorStaysInItems(s, names.rest);
      } else {
        var v := ReadValue(s, names.shape);
        CursorRefinesTree(s, names.shape);
        if v.d.error != NoError {
          ErrorStaysInItems(v.d, names.rest);
        } else {
          ItemsRefineTree(CompleteNamedItem(v.d), owner, els[1..], names.rest);
        }
      }
    }
  }

  /** Reading a whole document: the root item, and the check that nothing is left. */
  function ReadDocument(doc: seq<Node>, root: string, shape: Shape): Read {
    var r := ReadValue(StartNamedItem(Start(doc), root), shape);
    Read(r.v, EnsureAllDecoded(CompleteNamedItem(r.d)))
  }

  /** For every document: the calls succeed exactly when the first element has the name and decodes. */
  lemma DocumentRead(doc: seq<Node>, root: string, shape: Shape)
    ensures var r := ReadDocument(doc, root, shape); var es := Elements(doc);
      && (r.d.error == NoError <==> es != [] && es[0].name == root && DecodeTree(es[0], shape).Some?)
      && (r.d.error == NoError ==> r.v == DecodeTree(es[0], shape).v)
  {
    FirstOfElements(doc, 0, Null);
    var s := StartNamedItem(Start(doc), root);
    if s.error == NoError {
      CursorRefinesTree(s, shape);
    } else {
      ErrorStays(s, shape);
    }
  }

  /** What ToXml leaves in the document: the declaration and the root element. */
  function Document(root: string, v: Value): seq<Node> { [Other, Written(root, v)] }

  /** Reading what was written raises no error and decodes everything; the value is the one that was written
      exactly when no string in it holds a NUL. */
  lemma RoundTrip(root: string, v: Value)
    ensures var r := ReadDocument(Document(root, v), root, ShapeOf(v));
      && r.d.error == NoError
      && (r.v == v <==> NoNul(v))
  {
    var doc := Document(root, v);
    assert Elements(doc) == [Written(root, v)] by {
      assert doc[1..] == [Written(root, v)] && doc[1..][1..] == [];
      assert Elements(doc[1..]) == [Written(root, v)] + Elements(doc[1..][1..]);
    }
    DocumentRead(doc, root, ShapeOf(v));
    WrittenDecodes(root, v);
    CutExactly(v);
  }
}

/** The tree builder as its methods run it. */
module ToXmlClass {
  import opened XmlTree
  import FromXmlModel

  /** Writing a value into an element adds to what the element holds. */
  function Filled(el: Element, v: Value): Element {
    match v
    case Str(s) => SetString(el, s)
    case Struct(items) => el.(children := el.children + WrittenItems(items))
  }

  lemma FilledEmpty(name: string, v: Value)
    ensures Filled(Element(name, None, []), v) == Written(name, v)
  {
    if v.Struct? { assert [] + WrittenItems(v.items) == WrittenItems(v.items); }
  }

  /** The element with the elements below it on the path put into their parents. */
  function Folded(path: seq<Element>): Element
    requires path != []
    decreases |path|
  {
    if |path| == 1 then path[0] else path[0].(children := path[0].children + [Folded(path[1..])])
  }

  class ToXml {
    /** The elements from the root to the current one, each without the one after it. */
    var path: seq<Element>

    /** The document as it is now. */
    ghost function Doc(): seq<Node>
      reads this
      requires path != []
    {
      [Other, Folded(path)]
    }

    constructor (root: string)
      ensures path == [Element(root, None, [])]
    {
      path := [Element(root, None, [])];
    }

    method StartNamedItem(name: string)
      requires path != []
      modifies this
      ensures path == old(path) + [Element(name, None, [])]
    {
      path := path + [Element(name, None, [])];
    }

    /** The parent has to be an element. The document stays as it is. */
    method CompleteNamedItem()
      requires |path| >= 2
      modifies this
      ensures var n := |old(path)|; var parent := old(path)[n - 2];
        path == old(path)[..n - 2] + [parent.(children := parent.children + [old(path)[n - 1]])]
      ensures Doc() == old(Doc())
    {
      var n := |path|;
      FoldedLast(path);
      path := path[..n - 2] + [path[n - 2].(children := path[n - 2].children + [path[n - 1]])];
    }

    method SetStringValue(canonical: string)
      requires path != []
      modifies this
      ensures path == old(path)[..|old(path)| - 1] + [SetString(old(path)[|old(path)| - 1], canonical)]
    {
      var asAttribute := false;
      if |canonical| < 80 {
        asAttribute := true;
        var i := 0;
        while i < |canonical|
          invariant 0 <= i <= |canonical| && asAttribute
          invariant forall k :: 0 <= k < i ==> ' ' <= canonical[k] <= '~'
        {
          if canonical[i] < ' ' || canonical[i] > '~' {
            asAttribute := false;
            break;
          }
          i := i + 1;
        }
        assert asAttribute == AsAttribute(canonical);
      }
      var el := path[|path| - 1];
      if asAttribute {
        el := el.(value := Some(canonical));
      } else {
        el := el.(children := [Text(CString(canonical))] + el.children);
      }
      path := path[..|path| - 1] + [el];
    }

    /** The calls that write a value into the current element. */
    method SetValue(v: Value)
      requires path != []
      modifies this
      ensures path == old(path)[..|old(path)| - 1] + [Filled(old(path)[|old(path)| - 1], v)]
      decreases v, 0
    {
      match v
      case Str(s) => SetStringValue(s);
      case Struct(items) => SetItems(items);
    }

    method SetItems(items: Items)
      requires path != []
      modifies this
      ensures path == old(path)[..|old(path)| - 1] + [Filled(old(path)[|old(path)| - 1], Struct(items))]
      decreases items, 1
    {
      ghost var before, el := path[..|path| - 1], path[|path| - 1];
      match items
      case NoItems =>
        assert el.children + [] == el.children;
        assert path == before + [el];
      case Item(name, v, rest) =>
        FilledEmpty(name, v);
        StartNamedItem(name);
        assert path[..|path| - 1] == before + [el];
        SetValue(v);
        assert path == before + [el] + [Written(name, v)];
        CompleteNamedItem();
        assert path == before + [el.(children := el.children + [Written(name, v)])];
        SetItems(rest);
        assert el.children + [Written(name, v)] + WrittenItems(rest) == el.children + WrittenItems(items);
    }
  }

  /** Putting the last element into its parent does not change the whole. */
  lemma {:induction false} FoldedLast(path: seq<Element>)
    requires |path| >= 2
    ensures var n := |path|;
      Folded(path[..n - 2] + [path[n - 2].(children := path[n - 2].children + [path[n - 1]])]) == Folded(path)
    decreases |path|
  {
    var n := |path|;
    var closed := path[..n - 2] + [path[n - 2].(children := path[n - 2].children + [path[n - 1]])];
    if n > 2 {
      FoldedLast(path[1..]);
      var tail := path[1..];
      assert closed[1..] == tail[..n - 3] + [tail[n - 3].(children := tail[n - 3].children + [tail[n - 2]])];
    } else {
      assert path[1..] == [path[1]];
    }
  }

  /** ToXml for a whole value. */
  method ConvertToDocument(root: string, v: Value) returns (doc: seq<Node>)
    ensures doc == FromXmlModel.Document(root, v)
  {
    var m := new ToXml(root);
    FilledEmpty(root, v);
    m.SetValue(v);
    doc := [Other, m.path[0]];
  }
}

/** The decoder as its methods run it. */
module FromXmlClass {
  import opened XmlTree
  import opened FromXmlModel
  import ToXmlClass

  class FromXml {
    const doc: seq<Node>
    var curElement: Cursor
    var valueMode: bool
    var firstInStructure: bool
    var error: Error

    ghost function View(): State
      reads this
    {
      State(doc, curElement, valueMode, firstInStructure, error)
    }

    constructor (document: seq<Node>)
      ensures View() == FromXmlModel.Start(document)
    {
      doc, curElement, valueMode, firstInStructure, error := document, Null, false, true, NoError;
    }

    method SetError(text: string)
      modifies this`error
      ensures View() == Fail(old(View()), text)
    {
      if error == NoError { error := Error(text); }
    }

    /** The element after the cursor, as HasNextNamedItem and StartNamedItem find it. */
    method Next() returns (next: Cursor)
      ensures next == NextElement(View())
    {
      if curElement.Null? {
        if firstInStructure { next := FirstElement(doc, 0, Null); } else { next := Null; }
      } else {
        if firstInStructure {
          next := FirstElement(curElement.el.children, 0, curElement);
        } else {
          next := FirstElement(curElement.after, curElement.index + 1, curElement.parent);
        }
      }
    }

    method HasNextNamedItem(name: string) returns (r: bool)
      ensures r == FromXmlModel.HasNextNamedItem(View(), name)
      ensures r <==> View().error == NoError && FromXmlModel.StartNamedItem(View(), name).error == NoError
    {
      if error != NoError { return false; }
      if valueMode { return false; }
      var next := Next();
      if next.Null? { return false; }
      return name == next.el.name;
    }

    method StartNamedItem(name: string)
      modifies this
      ensures View() == FromXmlModel.StartNamedItem(old(View()), name)
    {
      if error != NoError { return; }
      if valueMode {
        SetError("Cannot start named item in value mode");
        return;
      }
      var next := Next();
      if next.Null? {
        SetError("No next element");
        return;
      }
      if name != next.el.name {
        SetError("Found other next element");
        return;
      }
      curElement, valueMode, firstInStructure := next, true, false;
    }

    method CompleteNamedItem()
      modifies this
      ensures View() == FromXmlModel.CompleteNamedItem(old(View()))
    {
      if error != NoError { return; }
      if !valueMode {
        SetError("Called CompleteNamedItem when not in value mode");
        return;
      }
      valueMode, firstInStructure := false, false;
    }

    method StartStructure()
      modifies this
      ensures View() == FromXmlModel.StartStructure(old(View()))
    {
      if error != NoError { return; }
      if !valueMode {
        SetError("StartStructure called when not in value mode");
        return;
      }
      valueMode, firstInStructure := false, true;
    }

    method CompleteStructure()
      requires error == NoError && !valueMode ==> curElement.At?
      modifies this
      ensures View() == FromXmlModel.CompleteStructure(old(View()))
    {
      if error != NoError { return; }
      if valueMode {
        SetError("CompleteStructure call in value mode");
        return;
      }
      var remaining := Next();
      if remaining.At? {
        SetError("Undecoded element remaining in structure");
        return;
      }
      if !firstInStructure { curElement := curElement.parent; }
      valueMode, firstInStructure := true, false;
    }

    method DecodeStringValue() returns (result: string)
      requires HasValue(View())
      modifies this
      ensures View() == AfterString(old(View())) && result == StringRead(old(View()))
    {
      result := "";
      if error != NoError { return; }
      if !valueMode {
        SetError("DecodeValue called when not in value mode");
        return;
      }
      var attr, nodes := curElement.el.value, curElement.el.children;
      if attr.Some? && |nodes| > 0 {
        SetError("Expect either value attribute or text content");
      } else if |nodes| > 0 && !nodes[0].Text? {
        SetError("Expect either value attribute or text content");
      } else if |nodes| > 1 {
        SetError("Expect either value attribute or text content");
      } else if attr.Some? {
        result := attr.v;
      } else {
        result := nodes[0].s;
      }
    }

    method EnsureAllDecoded()
      modifies this
      ensures View() == FromXmlModel.EnsureAllDecoded(old(View()))
    {
      if error != NoError { return; }
      if !(!valueMode && curElement == FirstElement(doc, 0, Null)) {
        SetError("Undecoded data remaining");
      }
    }

    /** The calls that read a value, unless they reach one that the source leaves undefined. */
    method DecodeValue(shape: Shape) returns (v: Value)
      requires FromXmlModel.ReadValue(View(), shape).d.error != Undefined
      modifies this
      ensures View() == FromXmlModel.ReadValue(old(View()), shape).d
        && v == FromXmlModel.ReadValue(old(View()), shape).v
      decreases shape, 0
    {
      match shape
      case StrShape =>
        var s := DecodeStringValue();
        v := Str(s);
      case StructShape(names) =>
        StartStructure();
        var items := DecodeItems(names);
        CompleteStructure();
        v := Struct(items);
    }

    method DecodeItems(names: Names) returns (items: Items)
      requires FromXmlModel.ReadItems(View(), names).d.error != Undefined
      modifies this
      ensures View() == FromXmlModel.ReadItems(old(View()), names).d
        && items == FromXmlModel.ReadItems(old(View()), names).items
      decreases names, 1
    {
      match names
      case NoNames => items := NoItems;
      case Name(n, shape, rest) =>
        ghost var s := FromXmlModel.StartNamedItem(View(), n);
        ghost var r := FromXmlModel.ReadValue(s, shape).d;
        if r.error == Undefined { ErrorStaysInItems(r, rest); }
        StartNamedItem(n);
        var v := DecodeValue(shape);
        CompleteNamedItem();
        var others := DecodeItems(rest);
        items := Item(n, v, others);
    }
  }

  /** Writing a value and reading it back, call by call. */
  method WriteAndRead(root: string, v: Value) returns (back: Value, error: Error)
    ensures error == NoError && (back == v <==> NoNul(v))
  {
    var doc := ToXmlClass.ConvertToDocument(root, v);
    RoundTrip(root, v);
    var m := new FromXml(doc);
    m.StartNamedItem(root);
    ghost var r := FromXmlModel.ReadValue(m.View(), ShapeOf(v)).d;
    assert r.error == Undefined ==> FromXmlModel.EnsureAllDecoded(FromXmlModel.CompleteNamedItem(r)).error == Undefined;
    back := m.DecodeValue(ShapeOf(v));
    m.CompleteNamedItem();
    m.EnsureAllDecoded();
    error := m.error;
  }
}
