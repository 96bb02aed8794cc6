/**
 bbox::rt::ThreadPool and ThreadPoolRef: one worker thread, a locked queue, and completions that are
 posted back to the proactor. A step is one critical section or one unlocked action of a thread, so the
 runs are all interleavings of posters, worker and proactor.
 */
module ThreadPoolModel {
  import opened Runtime

  /** A unit of work, and the reference that posted it. */
  datatype Item = Item(owner: nat, work: nat)

  /** What the function of an item throws. An error code of 0 means no error. */
  datatype Thrown = Nothing | BBoxException(error: int, what: string) | StdException(what: string) | Unknown

  datatype Report = Report(error: int, what: string)

  datatype Msg = Completion(item: Item, report: Report) | ThreadCompleted

  /** Where the worker is in ThreadFunc. */
  datatype Place = Looping | Sleeping | Woken | Holding(item: Item) | Ran(item: Item) | Leaving | Gone

  datatype Pool = Pool(queue: seq<Item>, finished: bool, inProgress: nat, completed: nat)

  datatype Ref = Ref(level: RunLevel, inProgress: nat, completed: nat)

  /** Pool, worker, messages that the proactor has not handled, the references, and the histories:
      items posted, items whose function has run with what it threw, messages sent. */
  datatype World = World(
    pool: Pool, worker: Place, inbox: seq<Msg>, refs: seq<Ref>, poolStopped: bool,
    posted: seq<Item>, ran: seq<Item>, outcomes: seq<Thrown>, sent: seq<Msg>)

  function Initial(refs: nat): World {
    World(Pool([], false, 0, 0), Looping, [], seq(refs, _ => Ref(Running, 0, 0)), false, [], [], [], [])
  }

  const INTERRUPTED := 4

  // ---------- the pool ----------

  function Notify(p: Place): Place { if p == Sleeping then Woken else p }

  function PoolPost(p: Pool, item: Item): Pool { p.(queue := p.queue + [item], inProgress := p.inProgress + 1) }

  /** What the worker gets in the first critical section of ThreadFunc. */
  function PoolTake(p: Pool): (Pool, Place) {
    if p.queue != [] then (p.(queue := p.queue[1..]), Holding(p.queue[0]))
    else (p, if p.finished then Leaving else Sleeping)
  }

  function PoolCount(p: Pool): Pool
    requires p.inProgress > 0
  {
    p.(inProgress := p.inProgress - 1, completed := p.completed + 1)
  }

  /** Pimpl::Post. */
  function Post(w: World, item: Item): World {
    w.(pool := PoolPost(w.pool, item), worker := Notify(w.worker), posted := w.posted + [item])
  }

  /** Pimpl::HandleStopping. */
  function Finish(w: World): World { w.(pool := w.pool.(finished := true), worker := Notify(w.worker)) }

  /** The first critical section of ThreadFunc. */
  function Take(w: World): World { var (p, place) := PoolTake(w.pool); w.(pool := p, worker := place) }

  /** What RunItem reports for the outcome of a function. */
  function ReportOf(t: Thrown): Report {
    match t
    case Nothing => Report(0, "")
    case BBoxException(error, what) => Report(if error == 0 then INTERRUPTED else error, what)
    case StdException(what) => Report(INTERRUPTED, what)
    case Unknown => Report(INTERRUPTED, "Unknown C++ exception occured")
  }

  /** What a completion handler may rely on: there is an error exactly if something was thrown, the error
      code of an exception is kept if it has one, and so is the text of whatever has a text. */
  ghost predicate Tells(r: Report, t: Thrown) {
    && (r.error == 0 <==> t == Nothing)
    && (t.BBoxException? && t.error != 0 ==> r.error == t.error)
    && (t.BBoxException? || t.StdException? ==> r.what == t.what)
    && (t == Nothing ==> r.what == "")
  }

  lemma ReportTells(t: Thrown)
    ensures Tells(ReportOf(t), t)
  {}

  /** Pimpl::RunItem. */
  function RunItem(w: World, t: Thrown): World
    requires w.worker.Holding?
  {
    var m := Completion(w.worker.item, ReportOf(t));
    w.(worker := Ran(w.worker.item), inbox := w.inbox + [m],
       ran := w.ran + [w.worker.item], outcomes := w.outcomes + [t], sent := w.sent + [m])
  }

  /** The second critical section of ThreadFunc. */
  function CountItem(w: World): World
    requires w.pool.inProgress > 0
  {
    w.(pool := PoolCount(w.pool), worker := Looping)
  }

  function Exit(w: World): World {
    w.(worker := Gone, inbox := w.inbox + [ThreadCompleted], sent := w.sent + [ThreadCompleted])
  }

  // ---------- the references ----------

  function RefPosted(r: Ref): Ref { r.(inProgress := r.inProgress + 1) }

  function RefCompleted(r: Ref): Ref
    requires r.inProgress > 0
  {
    r.(inProgress := r.inProgress - 1, completed := r.completed + 1)
  }

  function CheckStopped(r: Ref): Ref { if r.level == Stopping && r.inProgress == 0 then r.(level := Stopped) else r }

  /** ThreadPoolRef::RunOnThread. */
  function RunOnThread(w: World, ref: nat, work: nat): World
    requires ref < |w.refs|
  {
    Post(w.(refs := w.refs[ref := RefPosted(w.refs[ref])]), Item(ref, work))
  }

  function StopRef(w: World, ref: nat): World
    requires ref < |w.refs|
  {
    w.(refs := w.refs[ref := CheckStopped(w.refs[ref].(level := Stopping))])
  }

  function RunAll(w: World, ref: nat, works: seq<nat>): World
    requires ref < |w.refs|
    decreases |works|
  {
    if works == [] then w else RunAll(RunOnThread(w, ref, works[0]), ref, works[1..])
  }

  /** The completion lambda of RunOnThread; `works` is what the caller's handler posts in turn. */
  function Complete(w: World, ref: nat, works: seq<nat>): World
    requires ref < |w.refs| && w.refs[ref].inProgress > 0
  {
    var w1 := w.(refs := w.refs[ref := RefCompleted(w.refs[ref])]);
    var w2 := RunAll(w1, ref, works);
    RunAllKeepsRefs(w1, ref, works);
    w2.(refs := w2.refs[ref := CheckStopped(w2.refs[ref])])
  }

  lemma {:induction false} RunAllKeepsRefs(w: World, ref: nat, works: seq<nat>)
    requires ref < |w.refs|
    ensures |RunAll(w, ref, works).refs| == |w.refs|
    decreases |works|
  {
    if works != [] { RunAllKeepsRefs(RunOnThread(w, ref, works[0]), ref, works[1..]); }
  }

  // ---------- runs ----------

  datatype Step =
    | Run(ref: nat, work: nat)
    | Stop(ref: nat)
    | FinishPool
    | Wake
    | Lock
    | Execute(thrown: Thrown)
    | Counted
    | Leave
    | Handle(works: seq<nat>)

  /** What may happen next. A woken or a sleeping worker may go back to the loop: wake-ups can be spurious. */
  predicate Enabled(w: World, s: Step) {
    match s
    case Run(ref, _) => ref < |w.refs| && w.refs[ref].level == Running && !w.pool.finished
    case Stop(ref) => ref < |w.refs| && w.refs[ref].level == Running
    case FinishPool => !w.pool.finished
    case Wake => w.worker == Woken || w.worker == Sleeping
    case Lock => w.worker == Looping
    case Execute(_) => w.worker.Holding?
    case Counted => w.worker.Ran? && w.pool.inProgress > 0
    case Leave => w.worker == Leaving
    case Handle(works) =>
      w.inbox != [] &&
      match w.inbox[0]
      case ThreadCompleted => works == []
      case Completion(item, _) =>
        && item.owner < |w.refs| && w.refs[item.owner].inProgress > 0
        && (works != [] ==> w.refs[item.owner].level == Running && !w.pool.finished)
  }

  function Next(w: World, s: Step): World
    requires Enabled(w, s)
  {
    match s
    case Run(ref, work) => RunOnThread(w, ref, work)
    case Stop(ref) => StopRef(w, ref)
    case FinishPool => Finish(w)
    case Wake => w.(worker := Looping)
    case Lock => Take(w)
    case Execute(thrown) => RunItem(w, thrown)
    case Counted => CountItem(w)
    case Leave => Exit(w)
    case Handle(works) =>
      var w1 := w.(inbox := w.inbox[1..]);
      match w.inbox[0]
      case ThreadCompleted => w1.(poolStopped := true)
      case Completion(item, _) => Complete(w1, item.owner, works)
  }

  ghost predicate IsRun(w: World, steps: seq<Step>, w': World)
    decreases |steps|
  {
    if steps == [] then w' == w
    else Enabled(w, steps[0]) && IsRun(Next(w, steps[0]), steps[1..], w')
  }

  // ---------- what every run keeps ----------

  function Current(p: Place): seq<Item> { if p.Holding? then [p.item] else [] }

  function Busy(p: Place): nat { if p.Holding? || p.Ran? then 1 else 0 }

  function Owned(s: seq<Item>, ref: nat): nat {
    if s == [] then 0 else Owned(s[..|s| - 1], ref) + if s[|s| - 1].owner == ref then 1 else 0
  }

  function OwnedBy(m: Msg, ref: nat): nat { if m.Completion? && m.item.owner == ref then 1 else 0 }

  /** The completions among some messages. */
  function ItemsOf(s: seq<Msg>): seq<Item> {
    if s == [] then []
    else ItemsOf(s[..|s| - 1]) + if s[|s| - 1].Completion? then [s[|s| - 1].item] else []
  }

  /** Work of a reference that it has posted and whose completion it has not handled. */
  function Outstanding(w: World, ref: nat): nat {
    Owned(w.pool.queue, ref) + Owned(Current(w.worker), ref) + Owned(ItemsOf(w.inbox), ref)
  }

  ghost predicate NoNotice(s: seq<Msg>) { forall i :: 0 <= i < |s| ==> s[i] != ThreadCompleted }

  /** Posted functions run once each and in order; completions are sent in that order, before the notice. */
  ghost predicate OrderOK(w: World) {
    && w.posted == w.ran + Current(w.worker) + w.pool.queue
    && ItemsOf(w.sent) == w.ran
    && (if w.worker == Gone then
          w.sent != [] && w.sent[|w.sent| - 1] == ThreadCompleted && NoNotice(w.sent[..|w.sent| - 1])
        else NoNotice(w.sent))
  }

  /** Each function that has run has one completion, which tells what that function has thrown. */
  ghost predicate ReportsOK(w: World) {
    && |w.outcomes| == |w.ran|
    && |w.sent| == |w.ran| + (if w.worker == Gone then 1 else 0)
    && forall i :: 0 <= i < |w.ran| ==>
      w.sent[i].Completion? && w.sent[i].item == w.ran[i] && Tells(w.sent[i].report, w.outcomes[i])
  }

  ghost predicate CountsOK(w: World) {
    && w.pool.completed + w.pool.inProgress == |w.posted|
    && w.pool.inProgress == |w.pool.queue| + Busy(w.worker)
  }

  /** A worker asleep without a wake-up on its way has nothing to do. */
  ghost predicate WakeOK(w: World) {
    && (w.worker == Sleeping ==> w.pool.queue == [] && !w.pool.finished)
    && (w.worker == Leaving || w.worker == Gone ==> w.pool.queue == [] && w.pool.finished)
    && (w.poolStopped ==> w.worker == Gone && w.inbox == [])
    && |w.inbox| <= |w.sent| && w.inbox == w.sent[|w.sent| - |w.inbox|..]
  }

  ghost predicate RefOK(w: World, ref: nat)
    requires ref < |w.refs|
  {
    && w.refs[ref].inProgress == Outstanding(w, ref)
    && (w.refs[ref].level == Stopped ==> w.refs[ref].inProgress == 0)
  }

  ghost predicate RefsOK(w: World) {
    && (forall ref: nat :: ref < |w.refs| ==> RefOK(w, ref))
    && (forall i :: i in w.posted ==> i.owner < |w.refs|)
  }

  ghost predicate Inv(w: World) { OrderOK(w) && ReportsOK(w) && CountsOK(w) && WakeOK(w) && RefsOK(w) }

  // ---------- lemmas on the histories ----------

  lemma {:induction false} OwnedConcat(a: seq<Item>, b: seq<Item>, ref: nat)
    ensures Owned(a + b, ref) == Owned(a, ref) + Owned(b, ref)
    decreases |b|
  {
    if b == [] { assert a + b == a; } else {
      assert (a + b)[..|a + b| - 1] == a + b[..|b| - 1];
      OwnedConcat(a, b[..|b| - 1], ref);
    }
  }

  lemma {:induction false} ItemsConcat(a: seq<Msg>, b: seq<Msg>)
    ensures ItemsOf(a + b) == ItemsOf(a) + ItemsOf(b)
    decreases |b|
  {
    if b == [] { assert a + b == a; } else {
      assert (a + b)[..|a + b| - 1] == a + b[..|b| - 1];
      ItemsConcat(a, b[..|b| - 1]);
    }
  }

  lemma OwnedOne(i: Item, ref: nat)
    ensures Owned([i], ref) == if i.owner == ref then 1 else 0
  {
    assert [i][..0] == [];
  }

  lemma ItemsOne(m: Msg)
    ensures ItemsOf([m]) == if m.Completion? then [m.item] else []
  {
    assert [m][..0] == [];
  }

  // ---------- every step keeps the invariant ----------

  lemma PostKeeps(w: World, ref: nat, work: nat)
    requires Inv(w) && ref < |w.refs| && !w.pool.finished && w.refs[ref].level != Stopped
    ensures var w' := RunOnThread(w, ref, work);
      Inv(w') && !w'.pool.finished && |w'.refs| == |w.refs| && w'.refs[ref].level == w.refs[ref].level
  {
    hide OrderOK, ReportsOK, RefsOK, Tells;
    PostOrder(w, ref, work);
    PostReports(w, ref, work);
    PostRefs(w, ref, work);
  }

  lemma PostOrder(w: World, ref: nat, work: nat)
    requires OrderOK(w) && WakeOK(w) && ref < |w.refs| && !w.pool.finished
    ensures OrderOK(RunOnThread(w, ref, work))
  {
    hide ItemsOf, NoNotice;
    var w' := RunOnThread(w, ref, work);
    assert w'.posted == w'.ran + Current(w'.worker) + w'.pool.queue;
  }

  lemma PostReports(w: World, ref: nat, work: nat)
    requires ReportsOK(w) && ref < |w.refs|
    ensures ReportsOK(RunOnThread(w, ref, work))
  {
    hide Tells;
  }

  lemma PostRefs(w: World, ref: nat, work: nat)
    requires RefsOK(w) && ref < |w.refs| && w.refs[ref].level != Stopped
    ensures RefsOK(RunOnThread(w, ref, work))
  {
    hide Owned, ItemsOf;
    var item := Item(ref, work);
    var w' := RunOnThread(w, ref, work);
    forall q: nat | q < |w'.refs| ensures RefOK(w', q) {
      assert RefOK(w, q);
      OwnedConcat(w.pool.queue, [item], q);
      OwnedOne(item, q);
    }
  }

  lemma {:induction false} PostAllKeeps(w: World, ref: nat, works: seq<nat>)
    requires Inv(w) && ref < |w.refs| && w.refs[ref].level != Stopped && (works != [] ==> !w.pool.finished)
    ensures var w' := RunAll(w, ref, works);
      Inv(w') && |w'.refs| == |w.refs| && w'.refs[ref].level == w.refs[ref].level
    decreases |works|
  {
    hide Inv, RunOnThread;
    if works != [] {
      PostKeeps(w, ref, works[0]);
      PostAllKeeps(RunOnThread(w, ref, works[0]), ref, works[1..]);
    }
  }

  lemma StopKeeps(w: World, ref: nat, level: RunLevel)
    requires Inv(w) && ref < |w.refs| && level != Stopped
    ensures Inv(w.(refs := w.refs[ref := CheckStopped(w.refs[ref].(level := level))]))
  {
    var w' := w.(refs := w.refs[ref := CheckStopped(w.refs[ref].(level := level))]);
    forall q: nat | q < |w'.refs| ensures RefOK(w', q) { assert RefOK(w, q); }
  }

  /** The steps of the worker, and of the pool's stop, that send nothing. */
  predicate Quiet(s: Step) { s.FinishPool? || s.Wake? || s.Lock? || s.Counted? }

  lemma WorkerKeeps(w: World, s: Step)
    requires Inv(w) && Enabled(w, s) && Quiet(s)
    ensures Inv(Next(w, s))
  {
    hide OrderOK, ReportsOK, RefsOK, Tells;
    WorkerOrder(w, s);
    WorkerReports(w, s);
    WorkerRefs(w, s);
  }

  lemma WorkerOrder(w: World, s: Step)
    requires OrderOK(w) && CountsOK(w) && WakeOK(w) && Enabled(w, s) && Quiet(s)
    ensures OrderOK(Next(w, s))
  {
    hide ItemsOf, NoNotice;
    var w' := Next(w, s);
    if s.Lock? && w.pool.queue != [] { assert w.pool.queue == [w.pool.queue[0]] + w'.pool.queue; }
    assert w'.posted == w'.ran + Current(w'.worker) + w'.pool.queue;
  }

  lemma WorkerReports(w: World, s: Step)
    requires ReportsOK(w) && WakeOK(w) && Enabled(w, s) && Quiet(s)
    ensures ReportsOK(Next(w, s))
  {
    hide Tells;
  }

  lemma WorkerRefs(w: World, s: Step)
    requires RefsOK(w) && Enabled(w, s) && Quiet(s)
    ensures RefsOK(Next(w, s))
  {
    hide Owned, ItemsOf;
    var w' := Next(w, s);
    forall q: nat | q < |w'.refs| ensures RefOK(w', q) {
      assert RefOK(w, q);
      NoneOwned(q);
      if s.Lock? && w.pool.queue != [] {
        assert w.pool.queue == [w.pool.queue[0]] + w'.pool.queue;
        OwnedConcat([w.pool.queue[0]], w'.pool.queue, q);
      }
    }
  }

  /** The inbox stays a suffix of what was sent. */
  lemma Suffix(sent: seq<Msg>, inbox: seq<Msg>, m: Msg)
    requires |inbox| <= |sent| && inbox == sent[|sent| - |inbox|..]
    ensures var s', i' := sent + [m], inbox + [m]; |i'| <= |s'| && i' == s'[|s'| - |i'|..]
  {
    var k := |sent| - |inbox|;
    assert (sent + [m])[k..] == sent[k..] + [m];
  }

  lemma SentGrows(sent: seq<Msg>, m: Msg)
    ensures ItemsOf(sent + [m]) == ItemsOf(sent) + if m.Completion? then [m.item] else []
    ensures (sent + [m])[..|sent|] == sent
  {
    hide ItemsOf;
    ItemsConcat(sent, [m]);
    ItemsOne(m);
  }

  lemma ExecuteKeeps(w: World, t: Thrown)
    requires Inv(w) && w.worker.Holding?
    ensures Inv(RunItem(w, t))
  {
    hide OrderOK, ReportsOK, RefsOK, ReportOf;
    ExecuteOrder(w, t);
    ExecuteReports(w, t);
    ExecuteRefs(w, t);
    Suffix(w.sent, w.inbox, Completion(w.worker.item, ReportOf(t)));
  }

  lemma ExecuteReports(w: World, t: Thrown)
    requires ReportsOK(w) && w.worker.Holding?
    ensures ReportsOK(RunItem(w, t))
  {
    hide ReportOf, Tells;
    ReportTells(t);
  }

  lemma ExecuteOrder(w: World, t: Thrown)
    requires OrderOK(w) && WakeOK(w) && w.worker.Holding?
    ensures OrderOK(RunItem(w, t))
  {
    hide ItemsOf, ReportOf, WakeOK;
    var w' := RunItem(w, t);
    assert w.ran + [w.worker.item] + w.pool.queue == w'.ran + [] + w'.pool.queue;
    var m := Completion(w.worker.item, ReportOf(t));
    SentGrows(w.sent, m);
    NoNoticeGrows(w.sent, m);
  }

  lemma NoNoticeGrows(sent: seq<Msg>, m: Msg)
    requires NoNotice(sent) && m != ThreadCompleted
    ensures NoNotice(sent + [m])
  {}

  lemma ExecuteRefs(w: World, t: Thrown)
    requires RefsOK(w) && w.worker.Holding?
    ensures RefsOK(RunItem(w, t))
  {
    hide RefOK, ReportOf;
    var w' := RunItem(w, t);
    assert w'.posted == w.posted && |w'.refs| == |w.refs|;
    forall q: nat | q < |w'.refs| ensures RefOK(w', q) {
      assert RefOK(w, q);
      ExecuteRef(w, t, q);
    }
  }

  lemma ExecuteRef(w: World, t: Thrown, q: nat)
    requires w.worker.Holding? && q < |w.refs| && RefOK(w, q)
    ensures RefOK(RunItem(w, t), q)
  {
    hide ItemsOf, ReportOf, Owned;
    SentGrows(w.inbox, Completion(w.worker.item, ReportOf(t)));
    OwnedConcat(ItemsOf(w.inbox), [w.worker.item], q);
    NoneOwned(q);
  }

  lemma NoneOwned(q: nat)
    ensures Owned([], q) == 0
  {}

  lemma LeaveKeeps(w: World)
    requires Inv(w) && w.worker == Leaving
    ensures Inv(Exit(w))
  {
    hide OrderOK, ReportsOK, RefsOK, ItemsOf;
    LeaveOrder(w);
    LeaveReports(w);
    LeaveRefs(w);
    Suffix(w.sent, w.inbox, ThreadCompleted);
  }

  lemma LeaveOrder(w: World)
    requires OrderOK(w) && w.worker == Leaving
    ensures OrderOK(Exit(w))
  {
    hide ItemsOf, NoNotice;
    SentGrows(w.sent, ThreadCompleted);
  }

  lemma LeaveReports(w: World)
    requires ReportsOK(w) && w.worker == Leaving
    ensures ReportsOK(Exit(w))
  {
    hide Tells;
  }

  lemma LeaveRefs(w: World)
    requires RefsOK(w) && WakeOK(w) && w.worker == Leaving
    ensures RefsOK(Exit(w))
  {
    hide ItemsOf, Owned;
    SentGrows(w.inbox, ThreadCompleted);
    var w' := Exit(w);
    assert ItemsOf(w'.inbox) == ItemsOf(w.inbox);
    forall q: nat | q < |w'.refs| ensures RefOK(w', q) { assert RefOK(w, q); }
  }

  /** The proactor takes a message out of its inbox. */
  lemma TakeMessage(w: World)
    requires Inv(w) && w.inbox != []
    ensures var w1 := w.(inbox := w.inbox[1..]);
      && OrderOK(w1) && ReportsOK(w1) && CountsOK(w1) && WakeOK(w1)
      && forall q :: Owned(ItemsOf(w.inbox), q) == Owned(ItemsOf(w1.inbox), q) + OwnedBy(w.inbox[0], q)
  {
    FirstMessage(w.inbox);
    hide ItemsOf, Owned;
  }

  lemma FirstMessage(inbox: seq<Msg>)
    requires inbox != []
    ensures forall q :: Owned(ItemsOf(inbox), q) == Owned(ItemsOf(inbox[1..]), q) + OwnedBy(inbox[0], q)
  {
    var m := inbox[0];
    assert inbox == [m] + inbox[1..];
    ItemsConcat([m], inbox[1..]);
    ItemsOne(m);
    forall q ensures Owned(ItemsOf(inbox), q) == Owned(ItemsOf(inbox[1..]), q) + OwnedBy(m, q) {
      OwnedConcat(ItemsOf([m]), ItemsOf(inbox[1..]), q);
      if m.Completion? { OwnedOne(m.item, q); }
    }
  }

  lemma HandleKeeps(w: World, works: seq<nat>)
    requires Inv(w) && Enabled(w, Handle(works))
    ensures Inv(Next(w, Handle(works)))
  {
    hide Inv, Complete;
    if w.inbox[0].Completion? { CompletionKeeps(w, works); } else { NoticeKeeps(w); }
  }

  lemma NoticeKeeps(w: World)
    requires Inv(w) && w.inbox != [] && w.inbox[0] == ThreadCompleted
    ensures Inv(w.(inbox := w.inbox[1..], poolStopped := true))
  {
    TakeMessage(w);
    NoticeLast(w);
    hide ItemsOf, Owned, OrderOK, ReportsOK, CountsOK;
    var w1 := w.(inbox := w.inbox[1..]);
    var w' := w1.(poolStopped := true);
    StoppedOrder(w1);
    forall q: nat | q < |w'.refs| ensures RefOK(w', q) { assert RefOK(w, q); }
  }

  lemma StoppedOrder(w: World)
    requires OrderOK(w) && ReportsOK(w) && CountsOK(w)
    ensures var w' := w.(poolStopped := true); OrderOK(w') && ReportsOK(w') && CountsOK(w')
  {}

  lemma CompletionKeeps(w: World, works: seq<nat>)
    requires Inv(w) && Enabled(w, Handle(works)) && w.inbox[0].Completion?
    ensures Inv(Complete(w.(inbox := w.inbox[1..]), w.inbox[0].item.owner, works))
  {
    var w1 := w.(inbox := w.inbox[1..]);
    var ref := w.inbox[0].item.owner;
    var w2 := w1.(refs := w1.refs[ref := RefCompleted(w.refs[ref])]);
    CompletionCounted(w, w2, ref);
    hide Inv, RunAll;
    PostAllKeeps(w2, ref, works);
    var w3 := RunAll(w2, ref, works);
    StopKeeps(w3, ref, w3.refs[ref].level);
  }

  lemma CompletionCounted(w: World, w2: World, ref: nat)
    requires Inv(w) && w.inbox != [] && w.inbox[0].Completion? && ref == w.inbox[0].item.owner < |w.refs|
    requires w.refs[ref].inProgress > 0
    requires w2 == w.(inbox := w.inbox[1..], refs := w.refs[ref := RefCompleted(w.refs[ref])])
    ensures Inv(w2) && w.refs[ref].level != Stopped
  {
    TakeMessage(w);
    SameOrder(w.(inbox := w.inbox[1..]), w2);
    CompletedRefs(w, w2, ref);
    hide OrderOK, ReportsOK, CountsOK, RefsOK;
  }

  lemma CompletedRefs(w: World, w2: World, ref: nat)
    requires RefsOK(w) && w.inbox != [] && w.inbox[0].Completion? && ref == w.inbox[0].item.owner < |w.refs|
    requires w.refs[ref].inProgress > 0
    requires w2 == w.(inbox := w.inbox[1..], refs := w.refs[ref := RefCompleted(w.refs[ref])])
    ensures RefsOK(w2) && w.refs[ref].level != Stopped
  {
    FirstMessage(w.inbox);
    hide ItemsOf, Owned;
    assert RefOK(w, ref);
    forall q: nat | q < |w2.refs| ensures RefOK(w2, q) { assert RefOK(w, q); }
  }

  lemma SameOrder(w: World, w': World)
    requires w' == w.(refs := w'.refs) && OrderOK(w) && ReportsOK(w) && CountsOK(w)
    ensures OrderOK(w') && ReportsOK(w') && CountsOK(w')
  {}

  /** The notice is only in the inbox once the worker is gone. */
  lemma NoticeLast(w: World)
    requires OrderOK(w) && WakeOK(w) && w.inbox != [] && w.inbox[0] == ThreadCompleted
    ensures w.worker == Gone && |w.inbox| == 1
  {
    var i := |w.sent| - |w.inbox|;
    assert w.inbox[0] == w.sent[i];
  }

  lemma StepKeeps(w: World, s: Step)
    requires Inv(w) && Enabled(w, s)
    ensures Inv(Next(w, s))
  {
    match s {
      case Run(ref, work) => PostKeeps(w, ref, work);
      case Stop(ref) => StopKeeps(w, ref, Stopping);
      case Execute(thrown) => ExecuteKeeps(w, thrown);
      case Leave => LeaveKeeps(w);
      case Handle(works) => HandleKeeps(w, works);
      case _ => WorkerKeeps(w, s);
    }
  }

  lemma {:induction false} RunKeeps(w: World, steps: seq<Step>, w': World)
    requires Inv(w) && IsRun(w, steps, w')
    ensures Inv(w')
    decreases |steps|
  {
    hide Inv;
    if steps != [] {
      StepKeeps(w, steps[0]);
      RunKeeps(Next(w, steps[0]), steps[1..], w');
    }
  }

  lemma InitialOK(refs: nat)
    ensures Inv(Initial(refs))
  {}

  /** Over every interleaving from a new pool. */
  lemma {:induction false} EveryRun(refs: nat, steps: seq<Step>, w: World)
    requires IsRun(Initial(refs), steps, w)
    ensures Inv(w)
  {
    InitialOK(refs);
    RunKeeps(Initial(refs), steps, w);
  }

  /** A reference that has reported stopped has no work anywhere: not queued, not running, not unhandled. */
  lemma StoppedIsIdle(w: World, ref: nat)
    requires Inv(w) && ref < |w.refs| && w.refs[ref].level == Stopped
    ensures Owned(w.pool.queue, ref) == Owned(Current(w.worker), ref) == Owned(ItemsOf(w.inbox), ref) == 0
  {
    assert RefOK(w, ref);
  }

  /** When the pool reports stopped, every posted function has run, in order, every completion was sent and
      handled, and no reference has work in progress. */
  lemma StoppedHasRun(w: World)
    requires Inv(w) && w.poolStopped
    ensures w.ran == w.posted == ItemsOf(w.sent) && w.inbox == []
    ensures w.pool.completed == |w.posted| && w.pool.inProgress == 0 && w.pool.finished
    ensures forall ref: nat :: ref < |w.refs| ==> w.refs[ref].inProgress == 0
  {
    forall ref: nat | ref < |w.refs| ensures w.refs[ref].inProgress == 0 { assert RefOK(w, ref); }
  }

  /** The assertions of the completion lambda and of ThreadFunc's counters hold whenever they are reached. */
  lemma AssertionsHold(w: World)
    requires Inv(w)
    ensures w.inbox != [] && w.inbox[0].Completion? ==>
      w.inbox[0].item.owner < |w.refs| && w.refs[w.inbox[0].item.owner].inProgress > 0
    ensures w.worker.Ran? ==> w.pool.inProgress > 0
  {
    if w.inbox != [] && w.inbox[0].Completion? {
      var m := w.inbox[0];
      assert w.inbox == [m] + w.inbox[1..];
      ItemsConcat([m], w.inbox[1..]);
      ItemsOne(m);
      SentWasPosted(w, m);
      assert RefOK(w, m.item.owner);
      OwnedConcat([m.item], ItemsOf(w.inbox[1..]), m.item.owner);
      OwnedOne(m.item, m.item.owner);
    }
  }

  lemma SentWasPosted(w: World, m: Msg)
    requires OrderOK(w) && WakeOK(w) && m in w.inbox && m.Completion?
    ensures m.item in w.posted
  {
    assert m in w.sent;
    ItemsMember(w.sent, m);
  }

  lemma {:induction false} ItemsMember(s: seq<Msg>, m: Msg)
    requires m in s && m.Completion?
    ensures m.item in ItemsOf(s)
    decreases |s|
  {
    if s[|s| - 1] != m {
      assert s == s[..|s| - 1] + [s[|s| - 1]];
      ItemsMember(s[..|s| - 1], m);
    }
  }
}

/** The pool and the reference as their methods run them; each method of Pimpl is one critical section. */
module ThreadPoolClass {
  import opened Runtime
  import opened ThreadPoolModel

  class Pimpl {
    var queue: seq<Item>
    var finished: bool
    var itemsInProgress: nat
    var itemsCompleted: nat
    ghost var worker: Place

    ghost function View(): Pool
      reads this
    {
      Pool(queue, finished, itemsInProgress, itemsCompleted)
    }

    constructor ()
      ensures View() == Pool([], false, 0, 0) && worker == Looping
    {
      queue, finished, itemsInProgress, itemsCompleted := [], false, 0, 0;
      worker := Looping;
    }

    method Post(item: Item)
      requires !finished
      modifies this
      ensures View() == PoolPost(old(View()), item) && worker == Notify(old(worker))
    {
      queue := queue + [item];
      itemsInProgress := itemsInProgress + 1;
      worker := Notify(worker);
    }

    method HandleStopping()
      requires !finished
      modifies this
      ensures View() == old(View()).(finished := true) && worker == Notify(old(worker))
    {
      finished := true;
      worker := Notify(worker);
    }

    /** The first critical section of ThreadFunc: an item to run, or nothing to do, or nothing any more. */
    method TakeEntry() returns (entry: seq<Item>, leave: bool)
      requires worker == Looping
      modifies this
      ensures (View(), worker) == PoolTake(old(View()))
      ensures entry == (if worker.Holding? then [worker.item] else []) && (leave <==> worker == Leaving)
    {
      entry, leave := [], false;
      if queue != [] {
        entry := [queue[0]];
        worker := Holding(queue[0]);
        queue := queue[1..];
      } else if finished {
        leave := true;
        worker := Leaving;
      } else {
        worker := Sleeping;
      }
    }

    /** RunItem turns whatever the function threw into an error and a text. */
    method RunItem(thrown: Thrown) returns (error: int, what: string)
      ensures Report(error, what) == ReportOf(thrown) && Tells(Report(error, what), thrown)
    {
      error, what := 0, "";
      match thrown {
        case Nothing =>
        case BBoxException(e, text) =>
          error := e;
          if error == 0 { error := INTERRUPTED; }
          what := text;
        case StdException(text) => error, what := INTERRUPTED, text;
        case Unknown => error, what := INTERRUPTED, "Unknown C++ exception occured";
      }
    }

    /** The second critical section of ThreadFunc. */
    method CountItem()
      requires itemsInProgress > 0
      modifies this
      ensures View() == PoolCount(old(View())) && worker == Looping
    {
      itemsInProgress := itemsInProgress - 1;
      itemsCompleted := itemsCompleted + 1;
      worker := Looping;
    }
  }

  class ThreadPoolRef {
    var level: RunLevel
    var itemsInProgress: nat
    var itemsCompleted: nat

    ghost function View(): Ref
      reads this
    {
      Ref(level, itemsInProgress, itemsCompleted)
    }

    constructor ()
      ensures View() == Ref(Running, 0, 0)
    {
      level, itemsInProgress, itemsCompleted := Running, 0, 0;
    }

    method RunOnThread(pool: Pimpl, item: Item)
      requires level == Running && !pool.finished
      modifies this, pool
      ensures View() == RefPosted(old(View()))
      ensures pool.View() == PoolPost(old(pool.View()), item) && pool.worker == Notify(old(pool.worker))
    {
      itemsInProgress := itemsInProgress + 1;
      pool.Post(item);
    }

    /** The completion lambda up to the caller's handler. */
    method Completed()
      requires itemsInProgress > 0
      modifies this
      ensures View() == RefCompleted(old(View()))
    {
      itemsInProgress := itemsInProgress - 1;
      itemsCompleted := itemsCompleted + 1;
    }

    method HandleStopping()
      requires level == Running
      modifies this
      ensures View() == ThreadPoolModel.CheckStopped(old(View()).(level := Stopping))
    {
      level := Stopping;
      CheckStopped();
    }

    method CheckStopped()
      modifies this
      ensures View() == ThreadPoolModel.CheckStopped(old(View()))
    {
      if level == Stopping && itemsInProgress == 0 { level := Stopped; }
    }
  }
}
