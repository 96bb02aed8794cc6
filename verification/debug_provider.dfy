/**
 bbox::debug::DebugProvider and DebugStream: nested streams that share one report.

 Streams and reports live in numbered storage, 0 being the null pointer. A report has the number of the
 stream it was created for. Streams have no buffer of their own, so flushing them does nothing.
 */
module DebugProviderModel {
  import opened DebugReports

  /** The fields of DebugStream; `user` is where the user wants the report, 0 for an asynchronous output. */
  datatype Stream = Stream(parent: nat, report: nat, index: nat, user: nat)

  datatype Receiver = User(u: nat) | Target(t: nat)

  datatype Delivery = Delivery(to: Receiver, id: nat, report: Report)

  /** The provider's fields and storage, the reports handed out, and the histories: what was written to
      each report, and the open asynchronous streams, oldest first. */
  datatype World = World(
    active: nat, streams: map<nat, Stream>, reports: map<nat, Report>, targets: seq<nat>, next: nat,
    log: seq<Delivery>, hist: map<nat, seq<Write>>, stack: seq<nat>)

  const Initial := World(0, map[], map[], [], 1, [], map[], [])

  // ---------- what the methods do ----------

  /** A stream for a new output of a report that is in storage. */
  function Attach(w: World, parent: nat, report: nat, user: nat, e: OutputEntry): World
    requires report in w.reports
  {
    var r := AddOutput(w.reports[report], e);
    var w1 := w.(reports := w.reports[report := r], next := w.next + 1,
                 streams := w.streams[w.next := Stream(parent, report, |r.outputs| - 1, user)]);
    if user == 0 then w1.(active := w.next, stack := w.stack + [w.next]) else w1
  }

  function NewReport(w: World): World {
    w.(reports := w.reports[w.next := EmptyReport], hist := w.hist[w.next := []])
  }

  predicate Joins(w: World, user: nat) { user == 0 && w.active != 0 }

  /** AllocateStream for an asynchronous output, or for the report of a user. */
  function Open(w: World, user: nat, e: OutputEntry): World
    requires w.active != 0 ==> w.active in w.streams && w.streams[w.active].report in w.reports
  {
    if Joins(w, user) then Attach(w, w.active, w.streams[w.active].report, user, e)
    else Attach(NewReport(w), 0, w.next, user, e)
  }

  /** AllocateStream for another MIME type inside `parent`. */
  function OpenSub(w: World, parent: nat, e: OutputEntry): World
    requires parent in w.streams && w.streams[parent].report in w.reports
  {
    Attach(w, parent, w.streams[parent].report, w.streams[parent].user, e)
  }

  function WriteTo(w: World, id: nat, text: string): World
    requires id in w.streams && w.streams[id].report in w.reports && w.streams[id].report in w.hist
  {
    var s := w.streams[id];
    w.(reports := w.reports[s.report := Put(w.reports[s.report], s.index, text)],
       hist := w.hist[s.report := w.hist[s.report] + [Write(s.index, text)]])
  }

  function ToTargets(targets: seq<nat>, id: nat, r: Report): seq<Delivery> {
    seq(|targets|, i requires 0 <= i < |targets| => Delivery(Target(targets[i]), id, r))
  }

  function Deliveries(w: World, id: nat): seq<Delivery>
    requires id in w.streams && w.streams[id].report in w.reports
  {
    var s := w.streams[id];
    if s.user != 0 then [Delivery(User(s.user), s.report, w.reports[s.report])]
    else ToTargets(w.targets, s.report, w.reports[s.report])
  }

  /** DestroyStream: an asynchronous stream leaves the stack; one without a parent hands its report out. */
  function Close(w: World, id: nat): World
    requires id in w.streams && w.streams[id].report in w.reports
    requires w.streams[id].user == 0 ==> w.stack != []
  {
    var s := w.streams[id];
    var w1 := if s.user == 0 then w.(active := s.parent, stack := w.stack[..|w.stack| - 1]) else w;
    var w2 := w1.(streams := w.streams - {id});
    if s.parent != 0 then w2 else w2.(reports := w.reports - {s.report}, log := w.log + Deliveries(w, id))
  }

  // ---------- runs ----------

  datatype Step =
    | OpenStep(user: nat, e: OutputEntry) | OpenSubStep(parent: nat, e: OutputEntry)
    | WriteStep(id: nat, text: string) | CloseStep(id: nat) | TargetsStep(targets: seq<nat>)

  type Streams = map<nat, Stream>

  ghost predicate Childless(streams: Streams, id: nat) { forall c :: c in streams ==> streams[c].parent != id }

  /** Streams are used while they are open, and closed after the streams inside them. A stream is opened
      inside an asynchronous one only when that is the active one. */
  ghost predicate Enabled(w: World, s: Step) {
    match s
    case OpenStep(_, _) => true
    case OpenSubStep(p, _) => p in w.streams && (w.streams[p].user == 0 ==> w.active == p)
    case WriteStep(id, _) => id in w.streams
    case CloseStep(id) => id in w.streams && Childless(w.streams, id)
    case TargetsStep(ts) => Distinct(ts)
  }

  ghost function Next(w: World, s: Step): World
    requires Inv(w) && Enabled(w, s)
  {
    match s
    case OpenStep(user, e) => ActiveIsOpen(w); Open(w, user, e)
    case OpenSubStep(p, e) => ReportOf(w, p); OpenSub(w, p, e)
    case WriteStep(id, text) => ReportOf(w, id); WriteTo(w, id, text)
    case CloseStep(id) => ReportOf(w, id); Close(w, id)
    case TargetsStep(ts) => w.(targets := ts)
  }

  // ---------- what every run keeps ----------

  predicate Distinct(ts: seq<nat>) { forall i, j :: 0 <= i < j < |ts| ==> ts[i] != ts[j] }

  /** The stream hangs below an older one of the same report and user, or is the first of its report. */
  ghost predicate NodeOK(next: nat, streams: Streams, id: nat)
    requires id in streams
  {
    var s := streams[id];
    && 0 < id < next
    && (s.parent == 0 <==> s.report == id)
    && (s.parent != 0 ==> s.parent in streams && s.parent < id)
    && (s.parent != 0 ==> streams[s.parent].report == s.report && streams[s.parent].user == s.user)
  }

  ghost predicate NodesOK(next: nat, streams: Streams) {
    next > 0 && forall id {:trigger NodeOK(next, streams, id)} :: id in streams ==> NodeOK(next, streams, id)
  }

  ghost predicate HasOutput(reports: map<nat, Report>, s: Stream) {
    s.report in reports && s.index < |reports[s.report].outputs|
  }

  ghost predicate Apart(a: Stream, b: Stream) { a.report == b.report ==> a.index != b.index }

  /** Every open stream has its own output in its report; every report its first stream. */
  ghost predicate OutputsOK(streams: Streams, reports: map<nat, Report>) {
    && (forall id :: id in streams ==> HasOutput(reports, streams[id]))
    && (forall r :: r in reports ==> r in streams && streams[r].report == r)
    && (forall a, b :: a in streams && b in streams && a < b ==> Apart(streams[a], streams[b]))
  }

  ghost predicate Above(streams: Streams, stack: seq<nat>, i: nat)
    requires i < |stack| && stack[i] in streams
  {
    streams[stack[i]].parent == if i == 0 then 0 else stack[i - 1]
  }

  ghost predicate OnStack(streams: Streams, stack: seq<nat>, id: nat)
    requires id in streams
  {
    streams[id].user == 0 <==> id in stack
  }

  /** The stack holds the open asynchronous streams, each inside the one before; the last is the active one. */
  ghost predicate StackOK(active: nat, streams: Streams, stack: seq<nat>) {
    && active == (if stack == [] then 0 else stack[|stack| - 1])
    && (forall id {:trigger OnStack(streams, stack, id)} :: id in streams ==> OnStack(streams, stack, id))
    && (forall i :: 0 <= i < |stack| ==> stack[i] in streams)
    && (forall i {:trigger Above(streams, stack, i)} :: 0 <= i < |stack| ==> Above(streams, stack, i))
    && (forall i, j :: 0 <= i < j < |stack| ==> stack[i] < stack[j])
  }

  /** Each report holds exactly what its streams wrote. */
  ghost predicate TextOK(next: nat, reports: map<nat, Report>, hist: map<nat, seq<Write>>) {
    && (forall r :: r in reports ==> r in hist && Holds(reports[r], hist[r]))
    && (forall r :: r in hist ==> r < next)
  }

  ghost predicate Complete(d: Delivery, reports: map<nat, Report>, hist: map<nat, seq<Write>>) {
    d.id !in reports && d.id in hist && Holds(d.report, hist[d.id])
  }

  ghost predicate OncePerReceiver(a: Delivery, b: Delivery) { a.id == b.id ==> a.to != b.to }

  /** A report that was handed out is complete and gone, and went once to its user or to each target. */
  ghost predicate LogOK(log: seq<Delivery>, reports: map<nat, Report>, hist: map<nat, seq<Write>>) {
    && (forall d :: d in log ==> Complete(d, reports, hist))
    && (forall i, j :: 0 <= i < j < |log| ==> OncePerReceiver(log[i], log[j]))
  }

  ghost predicate Inv(w: World) {
    && NodesOK(w.next, w.streams) && OutputsOK(w.streams, w.reports)
    && StackOK(w.active, w.streams, w.stack)
    && TextOK(w.next, w.reports, w.hist) && LogOK(w.log, w.reports, w.hist) && Distinct(w.targets)
  }

  lemma ReportOf(w: World, id: nat)
    requires Inv(w) && id in w.streams
    ensures var r := w.streams[id].report; r in w.reports && r in w.hist
    ensures w.streams[id].user == 0 ==> w.stack != []
  {
    assert HasOutput(w.reports, w.streams[id]) && OnStack(w.streams, w.stack, id);
  }

  lemma ActiveIsOpen(w: World)
    requires Inv(w)
    ensures w.active != 0 ==>
      w.active in w.streams && w.streams[w.active].report in w.reports && w.streams[w.active].user == 0
  {
    if w.active != 0 {
      assert w.active in w.stack;
      ReportOf(w, w.active);
      assert OnStack(w.streams, w.stack, w.active);
    }
  }

  lemma LastIsChildless(w: World, id: nat, c: nat)
    requires Inv(w) && id in w.streams && w.streams[id].user == 0 && c in w.streams
    requires w.streams[c].parent == id
    ensures w.active != id
  {
    assert NodeOK(w.next, w.streams, id) && NodeOK(w.next, w.streams, c) && OnStack(w.streams, w.stack, c);
    hide NodesOK, NodeOK, OutputsOK, TextOK, LogOK;
    var j: nat :| j < |w.stack| && w.stack[j] == c;
    assert Above(w.streams, w.stack, j) && j > 0;
  }

  lemma OtherHasChild(w: World, id: nat)
    requires Inv(w) && id in w.streams && w.streams[id].user == 0 && w.active != id
    ensures !Childless(w.streams, id)
  {
    assert OnStack(w.streams, w.stack, id);
    hide NodesOK, OutputsOK, TextOK, LogOK;
    var i: nat :| i < |w.stack| && w.stack[i] == id;
    assert Above(w.streams, w.stack, i + 1) && w.stack[i + 1] in w.streams;
  }

  /** The assertion in DestroyStream holds exactly when the streams inside were closed first. */
  lemma ClosesInOrder(w: World, id: nat)
    requires Inv(w) && id in w.streams && w.streams[id].user == 0
    ensures w.active == id <==> Childless(w.streams, id)
  {
    hide Inv;
    if w.active == id {
      forall c | c in w.streams ensures w.streams[c].parent != id {
        if w.streams[c].parent == id { LastIsChildless(w, id, c); }
      }
    } else {
      OtherHasChild(w, id);
    }
  }

  lemma ReportNotNull(w: World, id: nat)
    requires Inv(w) && id in w.streams
    ensures w.streams[id].report > 0 && id > 0
  {
    assert NodeOK(w.next, w.streams, id) && HasOutput(w.reports, w.streams[id]);
    var r := w.streams[id].report;
    assert NodeOK(w.next, w.streams, r);
  }

  /** When the first stream of a report has no stream inside it any more, the report has no other stream. */
  lemma {:induction false} NoOrphan(w: World, top: nat, id: nat)
    requires Inv(w) && top in w.streams && Childless(w.streams, top)
    requires id in w.streams && w.streams[id].report == top
    ensures id == top
    decreases id
  {
    assert NodeOK(w.next, w.streams, id);
    if id != top {
      NoOrphan(w, top, w.streams[id].parent);
    }
  }

  // ---------- opening ----------

  lemma NumbersBelow(w: World)
    requires Inv(w)
    ensures forall id :: id in w.streams ==> 0 < id < w.next && w.streams[id].report < w.next
    ensures w.next > 0 && w.next !in w.streams && w.next !in w.reports && w.next !in w.hist
  {
    forall id | id in w.streams ensures 0 < id < w.next && w.streams[id].report < w.next {
      assert NodeOK(w.next, w.streams, id) && HasOutput(w.reports, w.streams[id]);
      assert w.streams[id].report in w.hist;
    }
  }

  lemma NodesGrow(next: nat, streams: Streams, s: Stream)
    requires NodesOK(next, streams) && forall id :: id in streams ==> 0 < id < next
    requires s.parent == 0 ==> s.report == next
    requires s.parent != 0 ==> s.report != next && s.parent in streams
    requires s.parent != 0 ==> streams[s.parent].report == s.report && streams[s.parent].user == s.user
    ensures NodesOK(next + 1, streams[next := s])
  {
    var streams' := streams[next := s];
    forall id | id in streams' ensures NodeOK(next + 1, streams', id) {
      if id != next { assert NodeOK(next, streams, id); }
    }
  }

  lemma OutputsGrow(streams: Streams, reports: map<nat, Report>, id: nat, s: Stream, e: OutputEntry)
    requires OutputsOK(streams, reports) && id !in streams && forall i :: i in streams ==>
      i < id && streams[i].report < id
    requires s.report == id || s.report in reports
    requires var r := if s.report in reports then reports[s.report] else EmptyReport; s.index == |r.outputs|
    ensures var r := if s.report in reports then reports[s.report] else EmptyReport;
      OutputsOK(streams[id := s], reports[s.report := AddOutput(r, e)])
  {
    var r := if s.report in reports then reports[s.report] else EmptyReport;
    var streams', reports' := streams[id := s], reports[s.report := AddOutput(r, e)];
    assert |AddOutput(r, e).outputs| == |r.outputs| + 1;
    hide AddOutput;
    forall i | i in streams' ensures HasOutput(reports', streams'[i]) {
      if i != id { assert HasOutput(reports, streams[i]); }
    }
    forall a, b | a in streams' && b in streams' && a < b ensures Apart(streams'[a], streams'[b]) {
      assert HasOutput(reports, streams[a]);
      if b != id { assert Apart(streams[a], streams[b]); }
    }
  }

  lemma StackGrows(active: nat, streams: Streams, stack: seq<nat>, id: nat, s: Stream)
    requires StackOK(active, streams, stack) && id > 0 && forall i :: i in streams ==> 0 < i < id
    requires s.user == 0 ==> s.parent == active
    ensures if s.user == 0 then StackOK(id, streams[id := s], stack + [id])
      else StackOK(active, streams[id := s], stack)
  {
    var streams', stack' := streams[id := s], if s.user == 0 then stack + [id] else stack;
    assert id !in stack;
    assert id in stack' <==> s.user == 0;
    assert forall i :: i != id ==> (i in stack' <==> i in stack);
    forall i | i in streams' ensures OnStack(streams', stack', i) {
      if i != id { assert OnStack(streams, stack, i); }
    }
    hide OnStack;
    assert forall i :: 0 <= i < |stack'| ==> stack'[i] in streams';
    forall i | 0 <= i < |stack'| ensures Above(streams', stack', i) {
      if i < |stack| { assert Above(streams, stack, i); }
    }
  }

  lemma TextGrows(w: World, report: nat, e: OutputEntry, next: nat)
    requires next >= w.next && TextOK(w.next, w.reports, w.hist) && LogOK(w.log, w.reports, w.hist)
      && report in w.reports
    ensures TextOK(next, w.reports[report := AddOutput(w.reports[report], e)], w.hist)
    ensures LogOK(w.log, w.reports[report := AddOutput(w.reports[report], e)], w.hist)
  {
    AddOutputHolds(w.reports[report], w.hist[report], e);
    var reports' := w.reports[report := AddOutput(w.reports[report], e)];
    hide Holds;
    forall d | d in w.log ensures Complete(d, reports', w.hist) { assert Complete(d, w.reports, w.hist); }
  }

  lemma EmptyHolds()
    ensures Holds(EmptyReport, [])
  {}

  lemma NewText(w: World)
    requires TextOK(w.next, w.reports, w.hist) && LogOK(w.log, w.reports, w.hist) && w.next !in w.hist
    ensures var w' := NewReport(w); TextOK(w.next + 1, w'.reports, w'.hist) && LogOK(w.log, w'.reports, w'.hist)
  {
    hide Holds;
    var w' := NewReport(w);
    EmptyHolds();
    forall d | d in w.log ensures Complete(d, w'.reports, w'.hist) { assert Complete(d, w.reports, w.hist); }
  }

  /** The new stream leaves the tree and the stack in order. */
  lemma StreamGrows(w: World, s: Stream, e: OutputEntry)
    requires Inv(w) && (s.user == 0 ==> s.parent == w.active)
    requires if s.parent == 0 then s.report == w.next
             else s.parent in w.streams && w.streams[s.parent].report == s.report && w.streams[s.parent].user == s.user
    requires var r := if s.report in w.reports then w.reports[s.report] else EmptyReport; s.index == |r.outputs|
    ensures var r := if s.report in w.reports then w.reports[s.report] else EmptyReport;
      OutputsOK(w.streams[w.next := s], w.reports[s.report := AddOutput(r, e)])
    ensures NodesOK(w.next + 1, w.streams[w.next := s])
    ensures if s.user == 0 then StackOK(w.next, w.streams[w.next := s], w.stack + [w.next])
            else StackOK(w.active, w.streams[w.next := s], w.stack)
  {
    hide NodesOK, OutputsOK, StackOK, TextOK, LogOK, Distinct, AddOutput;
    NumbersBelow(w);
    if s.parent != 0 { ReportOf(w, s.parent); }
    NodesGrow(w.next, w.streams, s);
    OutputsGrow(w.streams, w.reports, w.next, s, e);
    StackGrows(w.active, w.streams, w.stack, w.next, s);
  }

  lemma OpenKeeps(w: World, user: nat, e: OutputEntry)
    requires Inv(w)
    ensures Inv(Next(w, OpenStep(user, e)))
  {
    hide NodesOK, OutputsOK, StackOK, TextOK, LogOK, Distinct;
    ActiveIsOpen(w);
    NumbersBelow(w);
    if Joins(w, user) {
      AttachKeeps(w, w.active, w.streams[w.active].report, user, e);
    } else {
      NewText(w);
      var w1 := NewReport(w);
      var s := Stream(0, w.next, 0, user);
      StreamGrows(w, s, e);
      TextGrows(w1.(next := w.next + 1), w.next, e, w.next + 1);
      var w' := Attach(w1, 0, w.next, user, e);
      assert w'.reports == w.reports[w.next := AddOutput(EmptyReport, e)];
      assert w'.streams == w.streams[w.next := s];
      assert w' == Next(w, OpenStep(user, e));
    }
  }

  lemma AttachKeeps(w: World, parent: nat, report: nat, user: nat, e: OutputEntry)
    requires Inv(w) && parent in w.streams && parent != 0 && report == w.streams[parent].report && report in w.reports
    requires w.streams[parent].user == user && (user == 0 ==> w.active == parent)
    ensures Inv(Attach(w, parent, report, user, e))
  {
    hide NodesOK, OutputsOK, StackOK, TextOK, LogOK, Distinct;
    StreamGrows(w, Stream(parent, report, |w.reports[report].outputs|, user), e);
    TextGrows(w, report, e, w.next + 1);
  }

  lemma OpenSubKeeps(w: World, parent: nat, e: OutputEntry)
    requires Inv(w) && Enabled(w, OpenSubStep(parent, e))
    ensures Inv(Next(w, OpenSubStep(parent, e)))
  {
    hide NodesOK, OutputsOK, StackOK, TextOK, LogOK, Distinct;
    ReportOf(w, parent);
    NumbersBelow(w);
    AttachKeeps(w, parent, w.streams[parent].report, w.streams[parent].user, e);
  }

  // ---------- writing ----------

  lemma OutputsWritten(streams: Streams, reports: map<nat, Report>, r: nat, index: nat, text: string)
    requires OutputsOK(streams, reports) && r in reports
    ensures OutputsOK(streams, reports[r := Put(reports[r], index, text)])
  {
    assert Put(reports[r], index, text).outputs == reports[r].outputs;
    hide Put;
    forall i | i in streams ensures HasOutput(reports[r := Put(reports[r], index, text)], streams[i]) {
      assert HasOutput(reports, streams[i]);
    }
  }

  lemma WriteKeeps(w: World, id: nat, text: string)
    requires Inv(w) && Enabled(w, WriteStep(id, text))
    ensures Inv(Next(w, WriteStep(id, text)))
  {
    hide Put, Holds, NodesOK, StackOK, Distinct;
    ReportOf(w, id);
    var s, w' := w.streams[id], Next(w, WriteStep(id, text));
    assert HasOutput(w.reports, s);
    PutHolds(w.reports[s.report], w.hist[s.report], s.index, text);
    OutputsWritten(w.streams, w.reports, s.report, s.index, text);
    hide OutputsOK;
    forall d | d in w.log ensures Complete(d, w'.reports, w'.hist) {
      assert Complete(d, w.reports, w.hist);
    }
  }

  // ---------- closing ----------

  lemma NodesShrink(next: nat, streams: Streams, id: nat)
    requires NodesOK(next, streams) && id in streams && id > 0 && Childless(streams, id)
    ensures NodesOK(next, streams - {id})
  {
    var streams' := streams - {id};
    forall i | i in streams' ensures NodeOK(next, streams', i) {
      assert NodeOK(next, streams, i);
      assert streams[i].parent != id;
    }
  }

  /** Closing the first stream of a report leaves no stream of that report. */
  lemma NoStreamLeft(w: World, id: nat)
    requires Inv(w) && id in w.streams && Childless(w.streams, id)
    ensures w.streams[id].parent == 0 <==> w.streams[id].report == id
    ensures w.streams[id].parent == 0 ==> forall i :: i in w.streams && i != id ==> w.streams[i].report != id
  {
    assert NodeOK(w.next, w.streams, id);
    hide Inv, NodeOK, Childless;
    if w.streams[id].parent == 0 {
      forall i | i in w.streams && i != id ensures w.streams[i].report != id {
        if w.streams[i].report == id { NoOrphan(w, id, i); }
      }
    }
  }

  lemma OutputsShrink(w: World, id: nat)
    requires Inv(w) && id in w.streams && Childless(w.streams, id)
    ensures OutputsOK(w.streams - {id}, if w.streams[id].parent == 0 then w.reports - {id} else w.reports)
  {
    hide StackOK, LogOK, TextOK, Distinct, NodesOK, Childless;
    NoStreamLeft(w, id);
    var streams' := w.streams - {id};
    var reports' := if w.streams[id].parent == 0 then w.reports - {id} else w.reports;
    forall i | i in streams' ensures HasOutput(reports', streams'[i]) {
      assert HasOutput(w.reports, w.streams[i]);
    }
    forall r | r in reports' ensures r in streams' && streams'[r].report == r {
      assert r in w.streams && w.streams[r].report == r;
    }
  }

  lemma CloseKeepsStreams(w: World, id: nat)
    requires Inv(w) && Enabled(w, CloseStep(id))
    ensures var w' := Next(w, CloseStep(id)); NodesOK(w'.next, w'.streams) && OutputsOK(w'.streams, w'.reports)
  {
    ReportOf(w, id);
    assert NodeOK(w.next, w.streams, id);
    OutputsShrink(w, id);
    hide OutputsOK, StackOK, LogOK, TextOK, Deliveries;
    NodesShrink(w.next, w.streams, id);
  }

  lemma StackPops(active: nat, streams: Streams, stack: seq<nat>, id: nat)
    requires StackOK(active, streams, stack) && stack != [] && active == id
    ensures StackOK(streams[id].parent, streams - {id}, stack[..|stack| - 1])
  {
    var streams', stack', last := streams - {id}, stack[..|stack| - 1], |stack| - 1;
    assert Above(streams, stack, last);
    assert stack == stack' + [id];
    assert id !in stack';
    forall i | i in streams' ensures OnStack(streams', stack', i) {
      assert OnStack(streams, stack, i);
    }
    hide OnStack;
    assert forall i :: 0 <= i < |stack'| ==> stack'[i] == stack[i] && stack[i] in stack';
    forall i | 0 <= i < |stack'| ensures Above(streams', stack', i) {
      assert Above(streams, stack, i);
    }
  }

  lemma StackIgnores(active: nat, streams: Streams, stack: seq<nat>, id: nat)
    requires StackOK(active, streams, stack) && id in streams && streams[id].user != 0
    ensures StackOK(active, streams - {id}, stack)
  {
    assert OnStack(streams, stack, id);
    var streams' := streams - {id};
    forall i | i in streams' ensures OnStack(streams', stack, i) {
      assert OnStack(streams, stack, i);
    }
    hide OnStack;
    assert forall i :: 0 <= i < |stack| ==> stack[i] in stack;
    forall i | 0 <= i < |stack| ensures Above(streams', stack, i) {
      assert Above(streams, stack, i);
    }
  }

  lemma CloseKeepsStack(w: World, id: nat)
    requires Inv(w) && Enabled(w, CloseStep(id))
    ensures var w' := Next(w, CloseStep(id)); StackOK(w'.active, w'.streams, w'.stack)
  {
    ReportOf(w, id);
    hide NodesOK, OutputsOK, LogOK, TextOK, Deliveries, StackOK;
    if w.streams[id].user == 0 {
      ClosesInOrder(w, id);
      StackPops(w.active, w.streams, w.stack, id);
    } else {
      StackIgnores(w.active, w.streams, w.stack, id);
    }
  }

  lemma DeliveriesOnce(w: World, id: nat)
    requires id in w.streams && w.streams[id].report in w.reports && Distinct(w.targets)
    ensures var d := Deliveries(w, id); forall i, j :: 0 <= i < j < |d| ==> OncePerReceiver(d[i], d[j])
    ensures forall x :: x in Deliveries(w, id) ==> x.id == w.streams[id].report && x.report == w.reports[x.id]
  {}

  /** Reports handed out when theirs leaves storage. */
  lemma LogGrows(log: seq<Delivery>, d: seq<Delivery>, reports: map<nat, Report>, hist: map<nat, seq<Write>>, id: nat)
    requires LogOK(log, reports, hist) && id in reports && id in hist && Holds(reports[id], hist[id])
    requires forall x :: x in d ==> x.id == id && x.report == reports[id]
    requires forall i, j :: 0 <= i < j < |d| ==> OncePerReceiver(d[i], d[j])
    ensures LogOK(log + d, reports - {id}, hist)
  {
    hide Holds;
    var log', n := log + d, |log|;
    forall x | x in log' ensures Complete(x, reports - {id}, hist) {
      if x in log { assert Complete(x, reports, hist); } else { assert x in d; }
    }
    forall i, j | 0 <= i < j < |log'| ensures OncePerReceiver(log'[i], log'[j]) {
      if j < n {
        assert OncePerReceiver(log[i], log[j]);
      } else if i < n {
        assert Complete(log[i], reports, hist) && d[j - n] in d;
      } else {
        assert OncePerReceiver(d[i - n], d[j - n]);
      }
    }
  }

  lemma CloseKeepsText(w: World, id: nat)
    requires Inv(w) && Enabled(w, CloseStep(id))
    ensures var w' := Next(w, CloseStep(id)); TextOK(w'.next, w'.reports, w'.hist) && LogOK(w'.log, w'.reports, w'.hist)
  {
    hide NodesOK, OutputsOK, StackOK, Holds, Deliveries, LogOK;
    ReportOf(w, id);
    if w.streams[id].parent == 0 {
      DeliveriesOnce(w, id);
      LogGrows(w.log, Deliveries(w, id), w.reports, w.hist, w.streams[id].report);
    }
  }

  lemma StepKeeps(w: World, s: Step)
    requires Inv(w) && Enabled(w, s)
    ensures Inv(Next(w, s))
  {
    hide NodesOK, OutputsOK, StackOK, TextOK, LogOK, Distinct;
    match s {
      case OpenStep(user, e) => OpenKeeps(w, user, e);
      case OpenSubStep(parent, e) => OpenSubKeeps(w, parent, e);
      case WriteStep(id, text) => WriteKeeps(w, id, text);
      case CloseStep(id) =>
        ReportOf(w, id);
        CloseKeepsStreams(w, id);
        CloseKeepsStack(w, id);
        CloseKeepsText(w, id);
      case TargetsStep(_) =>
    }
  }

  // ---------- every run ----------

  ghost predicate IsRun(w: World, steps: seq<Step>, w': World)
    requires Inv(w)
    decreases |steps|
  {
    if steps == [] then w' == w
    else Enabled(w, steps[0]) && (StepKeeps(w, steps[0]); IsRun(Next(w, steps[0]), steps[1..], w'))
  }

  lemma {:induction false} RunKeeps(w: World, steps: seq<Step>, w': World)
    requires Inv(w) && IsRun(w, steps, w')
    ensures Inv(w')
    decreases |steps|
  {
    hide Inv, Next, Enabled;
    if steps != [] {
      StepKeeps(w, steps[0]);
      RunKeeps(Next(w, steps[0]), steps[1..], w');
    }
  }

  lemma InitialOK()
    ensures Inv(Initial)
  {}

  /** Over every run, for every report handed out and every one in storage: its spans tile its text, and the
      spans of each output name exactly what that output's stream wrote. */
  lemma EveryRun(steps: seq<Step>, w: World)
    requires (InitialOK(); IsRun(Initial, steps, w))
    ensures Inv(w)
    ensures forall d :: d in w.log ==> d.id in w.hist && Holds(d.report, w.hist[d.id])
    ensures forall r :: r in w.reports ==> r in w.hist && Holds(w.reports[r], w.hist[r])
  {
    InitialOK();
    RunKeeps(Initial, steps, w);
    forall d | d in w.log ensures d.id in w.hist && Holds(d.report, w.hist[d.id]) {
      assert Complete(d, w.reports, w.hist);
    }
  }

  /** Closing hands a report out exactly if the stream is the report's first; it goes to its user or to every
      target, and no stream of that report is left. */
  lemma CloseDelivers(w: World, id: nat, r: nat)
    requires Inv(w) && Enabled(w, CloseStep(id)) && r in w.reports
    ensures r !in Next(w, CloseStep(id)).reports <==> r == id
    ensures id != r ==> forall d :: d in Next(w, CloseStep(id)).log && d.id == r ==> d in w.log
    ensures id == r && w.streams[id].user != 0 ==>
      Next(w, CloseStep(id)).log == w.log + [Delivery(User(w.streams[id].user), r, w.reports[r])]
    ensures id == r && w.streams[id].user == 0 ==>
      forall t :: t in w.targets ==> Delivery(Target(t), r, w.reports[r]) in Next(w, CloseStep(id)).log
    ensures id == r ==> forall i :: i in Next(w, CloseStep(id)).streams ==> w.streams[i].report != r
  {
    hide NodesOK, OutputsOK, StackOK, TextOK, LogOK, Deliveries, Childless;
    ReportOf(w, id);
    NoStreamLeft(w, id);
    FirstIsOpen(w, r);
    DeliveriesOnce(w, id);
    DeliveriesAll(w, id);
  }

  lemma FirstIsOpen(w: World, r: nat)
    requires Inv(w) && r in w.reports
    ensures r in w.streams && w.streams[r].report == r
  {}

  lemma DeliveriesAll(w: World, id: nat)
    requires id in w.streams && w.streams[id].report in w.reports
    ensures var s, d := w.streams[id], Deliveries(w, id);
      if s.user != 0 then d == [Delivery(User(s.user), s.report, w.reports[s.report])]
      else forall t :: t in w.targets ==> Delivery(Target(t), s.report, w.reports[s.report]) in d
  {
    var s, d := w.streams[id], Deliveries(w, id);
    if s.user == 0 {
      forall t | t in w.targets ensures Delivery(Target(t), s.report, w.reports[s.report]) in d {
        var i: nat :| i < |w.targets| && w.targets[i] == t;
        assert d[i] == Delivery(Target(t), s.report, w.reports[s.report]);
      }
    }
  }
}

/** The provider and its streams as their methods run them. */
module DebugProviderClass {
  import opened DebugReports
  import opened DebugProviderModel

  class DebugProvider {
    var activeStream: nat
    var streams: map<nat, Stream>
    var reports: map<nat, Report>
    var targets: seq<nat>
    var next: nat
    ghost var log: seq<Delivery>
    ghost var hist: map<nat, seq<Write>>
    ghost var stack: seq<nat>

    ghost function View(): World
      reads this
    {
      World(activeStream, streams, reports, targets, next, log, hist, stack)
    }

    constructor ()
      ensures View() == Initial && Inv(View())
    {
      activeStream, streams, reports, targets, next := 0, map[], map[], [], 1;
      log, hist, stack := [], map[], [];
    }

    method AllocateStream(func: string, user: nat, reason: string) returns (stream: nat)
      requires Inv(View())
      modifies this
      ensures View() == Next(old(View()), OpenStep(user, OutputEntry(func, reason, TextPlain))) && Inv(View())
      ensures stream == old(next) && stream in streams
    {
      hide Inv;
      ghost var w, e := View(), OutputEntry(func, reason, TextPlain);
      StepKeeps(w, OpenStep(user, e));
      ActiveIsOpen(w);
      hide Enabled;
      var report, parent := 0, 0;
      if user == 0 {
        if activeStream != 0 {
          report := streams[activeStream].report;
          parent := activeStream;
        }
      }
      assert parent != 0 ==> report > 0 by { if parent != 0 { ReportNotNull(w, parent); } }
      if report == 0 {
        report := next;
        reports, hist := reports[report := EmptyReport], hist[report := []];
      }
      assert View() == if Joins(w, user) then w else NewReport(w);
      hide Attach, NewReport, StackOK;
      stream := AddStream(parent, report, user, OutputEntry(func, reason, TextPlain));
    }

    /** The end of both allocations: the new stream gets the next output of the report. */
    method AddStream(parent: nat, report: nat, user: nat, e: OutputEntry) returns (stream: nat)
      requires report in reports
      modifies this
      ensures View() == Attach(old(View()), parent, report, user, e) && stream == old(next) && stream in streams
    {
      reports := reports[report := AddOutput(reports[report], e)];
      stream := next;
      next := next + 1;
      streams := streams[stream := Stream(parent, report, |reports[report].outputs| - 1, user)];
      if user == 0 {
        activeStream, stack := stream, stack + [stream];
      }
    }

    /** The assertion holds: the caller opens inside the active stream. */
    method AllocateSubStream(func: string, parent: nat, mime: Mime) returns (stream: nat)
      requires Inv(View()) && Enabled(View(), OpenSubStep(parent, OutputEntry(func, "Change MIME type", mime)))
      modifies this
      ensures View() == Next(old(View()), OpenSubStep(parent, OutputEntry(func, "Change MIME type", mime)))
        && Inv(View())
      ensures stream == old(next) && stream in streams
    {
      hide Inv;
      StepKeeps(View(), OpenSubStep(parent, OutputEntry(func, "Change MIME type", mime)));
      ReportOf(View(), parent);
      var p := streams[parent];
      stream := AddStream(parent, p.report, p.user, OutputEntry(func, "Change MIME type", mime));
    }

    /** xsputn of a stream. */
    method Write(stream: nat, text: string) returns (n: nat)
      requires Inv(View()) && stream in streams
      modifies this
      ensures View() == Next(old(View()), WriteStep(stream, text)) && Inv(View()) && n == |text|
    {
      hide Inv;
      ghost var w := View();
      StepKeeps(w, WriteStep(stream, text));
      ReportOf(w, stream);
      var s := streams[stream];
      hist := hist[s.report := hist[s.report] + [DebugReports.Write(s.index, text)]];
      if |text| == 0 {
        assert reports == reports[s.report := reports[s.report]];
        return 0;
      }
      var r := reports[s.report];
      if |r.spans| == 0 || r.spans[|r.spans| - 1].index != s.index {
        r := r.(spans := r.spans + [Span(s.index, |r.data|, 0)]);
      }
      r := r.(data := r.data + text);
      var back := r.spans[|r.spans| - 1];
      r := r.(spans := r.spans[|r.spans| - 1 := back.(length := back.length + |text|)]);
      reports := reports[s.report := r];
      n := |text|;
    }

    /** overflow of a stream, where no character stands for the end of the file. */
    method Overflow(stream: nat, ch: seq<char>) returns (n: int)
      requires Inv(View()) && stream in streams && |ch| <= 1
      modifies this
      ensures Inv(View()) && if ch == [] then View() == old(View()) && n == -1
                             else View() == Next(old(View()), WriteStep(stream, ch)) && n == 1
    {
      hide Inv, Next;
      if |ch| == 0 { return -1; }
      n := Write(stream, ch);
    }

    /** The assertion holds: the streams inside were destroyed first. */
    method DestroyStream(stream: nat)
      requires Inv(View()) && Enabled(View(), CloseStep(stream))
      modifies this
      ensures View() == Next(old(View()), CloseStep(stream)) && Inv(View())
    {
      hide Inv, Childless;
      ghost var w := View();
      StepKeeps(w, CloseStep(stream));
      ReportOf(w, stream);
      var s := streams[stream];
      if s.user == 0 {
        ClosesInOrder(w, stream);
        assert activeStream == stream;
        activeStream, stack := s.parent, stack[..|stack| - 1];
      }
      streams := streams - {stream};
      if s.parent == 0 {
        var r := reports[s.report];
        reports := reports - {s.report};
        if s.user != 0 {
          log := log + [Delivery(User(s.user), s.report, r)];
        } else {
          var i := 0;
          while i < |targets|
            invariant 0 <= i <= |targets|
            invariant log == w.log + ToTargets(targets, s.report, r)[..i]
            modifies this`log
          {
            log := log + [Delivery(Target(targets[i]), s.report, r)];
            i := i + 1;
          }
        }
      }
    }
  }
}
