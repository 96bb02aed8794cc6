/**
 The report that debug streams write into: one text, and spans that say which stream wrote which part.
 */
module DebugReports {
  datatype Mime = TextPlain | TextHtml | OtherMime(name: string)

  datatype OutputEntry = OutputEntry(func: string, reason: string, mime: Mime)

  datatype Span = Span(index: nat, start: nat, length: nat)

  datatype Report = Report(data: string, outputs: seq<OutputEntry>, spans: seq<Span>)

  const EmptyReport := Report([], [], [])

  /** One call of xsputn by the stream of output `index`. */
  datatype Write = Write(index: nat, text: string)

  // ---------- what the methods do ----------

  function LastIs(r: Report, index: nat): bool { r.spans != [] && r.spans[|r.spans| - 1].index == index }

  /** A span for `index` is the last one. */
  function Begin(r: Report, index: nat): Report {
    if LastIs(r, index) then r else r.(spans := r.spans + [Span(index, |r.data|, 0)])
  }

  function Extend(r: Report, text: string): Report
    requires r.spans != []
  {
    var k := |r.spans| - 1;
    r.(data := r.data + text, spans := r.spans[k := r.spans[k].(length := r.spans[k].length + |text|)])
  }

  function Put(r: Report, index: nat, text: string): Report {
    if text == [] then r else Extend(Begin(r, index), text)
  }

  function AddOutput(r: Report, e: OutputEntry): Report { r.(outputs := r.outputs + [e]) }

  // ---------- what a report means ----------

  function End(spans: seq<Span>): nat {
    if spans == [] then 0 else spans[|spans| - 1].start + spans[|spans| - 1].length
  }

  /** The spans tile the text: each starts where the one before it ends, none is empty, neighbours differ. */
  ghost predicate Tiles(r: Report) {
    End(r.spans) == |r.data| && Touching(r.spans) && (forall i :: 0 <= i < |r.spans| ==> r.spans[i].length > 0)
  }

  ghost predicate Touching(spans: seq<Span>) {
    && (spans != [] ==> spans[0].start == 0)
    && (forall i, k :: 0 <= i && k == i + 1 < |spans| ==> Touch(spans[i], spans[k]))
  }

  predicate Touch(a: Span, b: Span) { b.start == a.start + a.length && b.index != a.index }

  ghost predicate Inside(data: string, spans: seq<Span>) {
    forall i :: 0 <= i < |spans| ==> spans[i].start + spans[i].length <= |data|
  }

  /** What a reader of the report finds for one output: the pieces its spans name, in order. */
  ghost function TextOf(data: string, spans: seq<Span>, index: nat): string
    requires Inside(data, spans)
    decreases |spans|
  {
    if spans == [] then []
    else
      var s := spans[|spans| - 1];
      TextOf(data, spans[..|spans| - 1], index) + if s.index == index then data[s.start..s.start + s.length] else []
  }

  function Everything(h: seq<Write>): string
    decreases |h|
  {
    if h == [] then [] else Everything(h[..|h| - 1]) + h[|h| - 1].text
  }

  function WrittenBy(h: seq<Write>, index: nat): string
    decreases |h|
  {
    if h == [] then []
    else WrittenBy(h[..|h| - 1], index) + if h[|h| - 1].index == index then h[|h| - 1].text else []
  }

  /** The report `r` holds exactly the writes `h`. */
  ghost predicate Holds(r: Report, h: seq<Write>) {
    && Tiles(r) && Inside(r.data, r.spans)
    && r.data == Everything(h)
    && (forall j: nat :: TextOf(r.data, r.spans, j) == WrittenBy(h, j))
    && (forall i :: 0 <= i < |r.spans| ==> r.spans[i].index < |r.outputs|)
  }

  // ---------- proofs ----------

  lemma {:induction false} EndsGrow(spans: seq<Span>, i: nat)
    requires i < |spans| && Touching(spans)
    ensures spans[i].start + spans[i].length <= End(spans)
    decreases |spans| - i
  {
    if i + 1 < |spans| {
      EndsGrow(spans, i + 1);
      assert Touch(spans[i], spans[i + 1]);
    }
  }

  lemma TilesInside(r: Report)
    requires Tiles(r)
    ensures Inside(r.data, r.spans)
  {
    forall i | 0 <= i < |r.spans| ensures r.spans[i].start + r.spans[i].length <= |r.data| {
      EndsGrow(r.spans, i);
    }
  }

  /** More text at the end does not change what the spans name. */
  lemma {:induction false} TextStays(data: string, more: string, spans: seq<Span>, index: nat)
    requires Inside(data, spans)
    ensures Inside(data + more, spans)
    ensures TextOf(data + more, spans, index) == TextOf(data, spans, index)
    decreases |spans|
  {
    if spans != [] {
      TextStays(data, more, spans[..|spans| - 1], index);
      var s := spans[|spans| - 1];
      assert (data + more)[s.start..s.start + s.length] == data[s.start..s.start + s.length];
    }
  }

  lemma BeginTiles(r: Report, index: nat)
    requires Tiles(r)
    ensures LastIs(Begin(r, index), index)
    ensures Touching(Begin(r, index).spans) && End(Begin(r, index).spans) == |r.data|
    ensures forall i :: 0 <= i < |Begin(r, index).spans| - 1 ==> Begin(r, index).spans[i].length > 0
  {
    var b := Begin(r, index).spans;
    forall i, k | 0 <= i && k == i + 1 < |b| ensures Touch(b[i], b[k]) {
      assert k < |r.spans| ==> Touch(r.spans[i], r.spans[k]);
    }
  }

  lemma ExtendTiles(b: Report, text: string)
    requires b.spans != [] && Touching(b.spans) && End(b.spans) == |b.data| && text != []
    requires forall i :: 0 <= i < |b.spans| - 1 ==> b.spans[i].length > 0
    ensures Tiles(Extend(b, text))
  {
    var p := Extend(b, text).spans;
    forall i, k | 0 <= i && k == i + 1 < |p| ensures Touch(p[i], p[k]) {
      assert Touch(b.spans[i], b.spans[k]);
    }
  }

  lemma PutTiles(r: Report, index: nat, text: string)
    requires Tiles(r)
    ensures Tiles(Put(r, index, text))
  {
    if text != [] {
      BeginTiles(r, index);
      ExtendTiles(Begin(r, index), text);
    }
  }

  /** Beginning a span adds no text to any output. */
  lemma BeginText(r: Report, index: nat, j: nat)
    requires Tiles(r)
    ensures Inside(r.data, r.spans) && Inside(r.data, Begin(r, index).spans)
    ensures TextOf(r.data, Begin(r, index).spans, j) == TextOf(r.data, r.spans, j)
  {
    TilesInside(r);
    var b := Begin(r, index);
    if b != r {
      assert b.spans[..|b.spans| - 1] == r.spans;
    }
  }

  /** Extending the last span adds the text to its output and to no other. */
  lemma ExtendText(b: Report, text: string, j: nat)
    requires b.spans != [] && End(b.spans) == |b.data| && Inside(b.data, b.spans)
    ensures Inside(Extend(b, text).data, Extend(b, text).spans)
    ensures TextOf(Extend(b, text).data, Extend(b, text).spans, j)
         == TextOf(b.data, b.spans, j) + if LastIs(b, j) then text else []
  {
    var p, k := Extend(b, text), |b.spans| - 1;
    assert p.spans[..k] == b.spans[..k];
    TextStays(b.data, text, b.spans[..k], j);
    var s := b.spans[k];
    assert p.data[s.start..s.start + s.length + |text|] == b.data[s.start..s.start + s.length] + text;
  }

  /** One write: the text of its output grows by what was written, every other output keeps its text. */
  lemma PutText(r: Report, index: nat, text: string, j: nat)
    requires Tiles(r)
    ensures Inside(r.data, r.spans) && Inside(Put(r, index, text).data, Put(r, index, text).spans)
    ensures TextOf(Put(r, index, text).data, Put(r, index, text).spans, j)
         == TextOf(r.data, r.spans, j) + if j == index then text else []
  {
    TilesInside(r);
    if text != [] {
      BeginTiles(r, index);
      BeginText(r, index, j);
      ExtendText(Begin(r, index), text, j);
    }
  }

  lemma PutHolds(r: Report, h: seq<Write>, index: nat, text: string)
    requires Holds(r, h) && index < |r.outputs|
    ensures Holds(Put(r, index, text), h + [Write(index, text)])
  {
    hide Put, Tiles, Inside, TextOf;
    var h', p := h + [Write(index, text)], Put(r, index, text);
    assert h'[..|h'| - 1] == h;
    PutTiles(r, index, text);
    TilesInside(p);
    PutData(r, index, text);
    forall j: nat ensures TextOf(p.data, p.spans, j) == WrittenBy(h', j) {
      PutText(r, index, text, j);
    }
  }

  lemma PutData(r: Report, index: nat, text: string)
    requires index < |r.outputs| && forall i :: 0 <= i < |r.spans| ==> r.spans[i].index < |r.outputs|
    ensures var p := Put(r, index, text);
      && p.data == r.data + text && p.outputs == r.outputs
      && forall i :: 0 <= i < |p.spans| ==> p.spans[i].index < |p.outputs|
  {}

  lemma AddOutputHolds(r: Report, h: seq<Write>, e: OutputEntry)
    requires Holds(r, h)
    ensures Holds(AddOutput(r, e), h)
  {}
}
