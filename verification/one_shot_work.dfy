/**
 bbox::rt::OneShotWork: tokens pair every posted callback with the schedule that posted it.

 The proactor is the environment: it holds the posts and calls DoCallback once for each, in order.
 */
module OneShotModel {
  import opened Runtime

  datatype Event = Scheduled(token: nat) | Cancelled(token: nat) | Fired(token: nat) | ReportedStopped

  /** The work item, the schedules whose posts have not arrived, oldest first, and what has happened. */
  datatype World = World(level: RunLevel, next: nat, pending: nat, resolved: nat, posts: seq<nat>, log: seq<Event>)

  const Initial := World(Running, 1, 0, 0, [], [])

  // ---------- what the methods do ----------

  function Schedule(w: World): World {
    if w.pending == 0
    then w.(pending := w.next, next := w.next + 1, posts := w.posts + [w.next], log := w.log + [Scheduled(w.next)])
    else w
  }

  function Cancel(w: World): World {
    w.(pending := 0, log := if w.pending != 0 then w.log + [Cancelled(w.pending)] else w.log)
  }

  function CheckShutdown(w: World): World {
    if w.level == Stopping && w.resolved + 1 == w.next then
      w.(level := Stopped, log := w.log + [ReportedStopped])
    else w
  }

  function HandleStopping(w: World): World { CheckShutdown(Cancel(w).(level := Stopping)) }

  predicate Fires(w: World) { w.pending == w.resolved + 1 }

  /** DoCallback up to the callback; the log names the schedule whose post has arrived. */
  function BeginCallback(w: World): World
    requires w.posts != []
  {
    var w1 := w.(resolved := w.resolved + 1, posts := w.posts[1..]);
    if Fires(w) then w1.(pending := 0, log := w.log + [Fired(w.posts[0])]) else w1
  }

  // ---------- runs ----------

  datatype Call = CallSchedule | CallCancel

  datatype Step = Api(call: Call) | Arrive(callback: seq<Call>) | Stop

  function DoCall(w: World, call: Call): World {
    match call
    case CallSchedule => Schedule(w)
    case CallCancel => Cancel(w)
  }

  function DoCalls(w: World, calls: seq<Call>): World
    decreases |calls|
  {
    if calls == [] then w else DoCalls(DoCall(w, calls[0]), calls[1..])
  }

  /** Schedule and Cancel assert that the resource is running. */
  predicate Enabled(w: World, s: Step) {
    match s
    case Api(_) => w.level == Running
    case Arrive(_) => w.posts != []
    case Stop => w.level == Running
  }

  function Next(w: World, s: Step): World
    requires Enabled(w, s)
  {
    match s
    case Api(call) => DoCall(w, call)
    case Arrive(callback) => CheckShutdown(if Fires(w) then DoCalls(BeginCallback(w), callback) else BeginCallback(w))
    case Stop => HandleStopping(w)
  }

  ghost predicate IsRun(w: World, steps: seq<Step>, w': World)
    decreases |steps|
  {
    if steps == [] then w' == w
    else Enabled(w, steps[0]) && IsRun(Next(w, steps[0]), steps[1..], w')
  }

  // ---------- what every run keeps ----------

  function Count(log: seq<Event>, e: Event): nat {
    if log == [] then 0 else Count(log[..|log| - 1], e) + if log[|log| - 1] == e then 1 else 0
  }

  /** A schedule is still pending, or was cancelled once, or has fired once: exactly one of the three. */
  ghost predicate Settled(w: World, token: nat) {
    && Count(w.log, Scheduled(token)) == 1
    && Count(w.log, Cancelled(token)) + Count(w.log, Fired(token)) + (if w.pending == token then 1 else 0) == 1
  }

  ghost predicate Unused(w: World, token: nat) {
    Count(w.log, Scheduled(token)) == Count(w.log, Cancelled(token)) == Count(w.log, Fired(token)) == 0
  }

  ghost predicate TokenOK(w: World, token: nat) {
    && (if 0 < token < w.next then Settled(w, token) else Unused(w, token))
    && (Count(w.log, Fired(token)) > 0 ==> token <= w.resolved)
  }

  ghost predicate Inv(w: World) {
    && w.resolved < w.next && (w.pending == 0 || w.pending == w.next - 1 > w.resolved)
    && |w.posts| == w.next - 1 - w.resolved
    && (forall i :: 0 <= i < |w.posts| ==> w.posts[i] == w.resolved + 1 + i)
    && (forall token: nat :: TokenOK(w, token))
    && (w.level != Running ==> w.pending == 0)
    && (w.level == Stopped ==> w.posts == [])
    && Count(w.log, ReportedStopped) == (if w.level == Stopped then 1 else 0)
  }

  lemma LogOne(log: seq<Event>, e: Event)
    ensures forall f :: Count(log + [e], f) == Count(log, f) + if f == e then 1 else 0
  {
    assert (log + [e])[..|log|] == log;
  }

  lemma ScheduleKeeps(w: World)
    requires Inv(w) && w.level == Running
    ensures Inv(Schedule(w)) && Schedule(w).level == Running
  {
    LogOne(w.log, Scheduled(w.next));
    var w' := Schedule(w);
    forall token: nat ensures TokenOK(w', token) { assert TokenOK(w, token); }
  }

  lemma CancelKeeps(w: World)
    requires Inv(w)
    ensures Inv(Cancel(w)) && Cancel(w).level == w.level
  {
    LogOne(w.log, Cancelled(w.pending));
    var w' := Cancel(w);
    forall token: nat ensures TokenOK(w', token) { assert TokenOK(w, token); }
  }

  lemma {:induction false} CallsKeep(w: World, calls: seq<Call>)
    requires Inv(w) && w.level == Running
    ensures Inv(DoCalls(w, calls)) && DoCalls(w, calls).level == Running
    decreases |calls|
  {
    hide Count, Inv, Schedule, Cancel;
    if calls != [] {
      match calls[0] {
        case CallSchedule => ScheduleKeeps(w);
        case CallCancel => CancelKeeps(w);
      }
      CallsKeep(DoCall(w, calls[0]), calls[1..]);
    }
  }

  /** The post that arrives is the one its number says, and it fires exactly when its schedule is pending. */
  lemma BeginKeeps(w: World)
    requires Inv(w) && w.posts != []
    ensures Inv(BeginCallback(w)) && BeginCallback(w).level == w.level
    ensures w.posts[0] == w.resolved + 1 && (Fires(w) <==> w.pending == w.posts[0]) && (Fires(w) ==> w.level == Running)
  {
    LogOne(w.log, Fired(w.posts[0]));
    var w' := BeginCallback(w);
    forall token: nat ensures TokenOK(w', token) { assert TokenOK(w, token); }
  }

  lemma ShutdownKeeps(w: World)
    requires Inv(w)
    ensures Inv(CheckShutdown(w))
  {
    LogOne(w.log, ReportedStopped);
    var w' := CheckShutdown(w);
    forall token: nat ensures TokenOK(w', token) { assert TokenOK(w, token); }
  }

  lemma StepKeeps(w: World, s: Step)
    requires Inv(w) && Enabled(w, s)
    ensures Inv(Next(w, s))
  {
    match s {
      case Api(call) => if call == CallSchedule { ScheduleKeeps(w); } else { CancelKeeps(w); }
      case Arrive(callback) =>
        BeginKeeps(w);
        hide Inv, BeginCallback, Schedule, Cancel, CheckShutdown;
        if Fires(w) { CallsKeep(BeginCallback(w), callback); }
        ShutdownKeeps(if Fires(w) then DoCalls(BeginCallback(w), callback) else BeginCallback(w));
      case Stop =>
        CancelKeeps(w);
        var w1 := Cancel(w).(level := Stopping);
        forall token: nat ensures TokenOK(w1, token) { assert TokenOK(Cancel(w), token); }
        ShutdownKeeps(w1);
    }
  }

  lemma {:induction false} RunKeeps(w: World, steps: seq<Step>, w': World)
    requires Inv(w) && IsRun(w, steps, w')
    ensures Inv(w')
    decreases |steps|
  {
    if steps != [] {
      StepKeeps(w, steps[0]);
      RunKeeps(Next(w, steps[0]), steps[1..], w');
    }
  }

  lemma InitialOK()
    ensures Inv(Initial)
  {}

  lemma {:induction false} EveryRun(w0: World, steps: seq<Step>, w: World)
    requires w0 == Initial && IsRun(w0, steps, w)
    ensures Inv(w)
  {
    InitialOK();
    RunKeeps(w0, steps, w);
  }

  /** Over every run, for every schedule that posted: once its post has arrived it has fired exactly once if
      nobody cancelled it, and never if somebody did; until then its post is on its way, it has not fired, and
      it is cancelled unless it is the pending one. When stopped is reported, every post has arrived. */
  lemma EverySchedule(w: World, token: nat)
    requires Inv(w) && 0 < token < w.next
    ensures Count(w.log, Scheduled(token)) == 1 && Count(w.log, Cancelled(token)) <= 1
    ensures token <= w.resolved ==>
      token !in w.posts && Count(w.log, Fired(token)) == (if Count(w.log, Cancelled(token)) == 0 then 1 else 0)
    ensures token > w.resolved ==>
      token in w.posts && Count(w.log, Fired(token)) == 0
      && (Count(w.log, Cancelled(token)) == 0 <==> w.pending == token)
    ensures w.level == Stopped ==> token <= w.resolved
  {
    assert TokenOK(w, token);
    if token > w.resolved { assert w.posts[token - w.resolved - 1] == token; }
  }
}

/** The work item as its methods run it. */
module OneShotClass {
  import opened Runtime
  import opened OneShotModel

  class OneShotWork {
    var level: RunLevel
    var nextToken: nat
    var pendingToken: nat
    var lastResolvedToken: nat
    ghost var posts: seq<nat>      // what the proactor still has to call back
    ghost var log: seq<Event>

    ghost function View(): World
      reads this
    {
      World(level, nextToken, pendingToken, lastResolvedToken, posts, log)
    }

    constructor ()
      ensures View() == Initial
    {
      level, nextToken, pendingToken, lastResolvedToken := Running, 1, 0, 0;
      posts, log := [], [];
    }

    method Schedule()
      requires level == Running
      modifies this
      ensures View() == OneShotModel.Schedule(old(View()))
    {
      if pendingToken == 0 {
        pendingToken := nextToken;
        nextToken := nextToken + 1;
        posts := posts + [pendingToken];
        log := log + [Scheduled(pendingToken)];
      }
    }

    method Cancel()
      requires level == Running
      modifies this
      ensures View() == OneShotModel.Cancel(old(View()))
    {
      ForgetPending();
    }

    method ForgetPending()
      modifies this
      ensures View() == OneShotModel.Cancel(old(View()))
    {
      if pendingToken != 0 { log := log + [Cancelled(pendingToken)]; }
      pendingToken := 0;
    }

    method HandleStopping()
      requires level == Running
      modifies this
      ensures View() == OneShotModel.HandleStopping(old(View()))
    {
      level := Stopping;
      ForgetPending();
      CheckShutdown();
    }

    method CheckShutdown()
      modifies this
      ensures View() == OneShotModel.CheckShutdown(old(View()))
    {
      if level == Stopping && lastResolvedToken + 1 == nextToken {
        level := Stopped;
        log := log + [ReportedStopped];
      }
    }

    /** DoCallback up to its call of the callback, which `fires` asks for; the assertion at its start
        holds in every reachable state. */
    method BeginDoCallback() returns (fires: bool)
      requires Inv(View()) && posts != []
      modifies this
      ensures View() == BeginCallback(old(View())) && Inv(View()) && fires == Fires(old(View()))
    {
      assert lastResolvedToken + 1 < nextToken;
      BeginKeeps(View());
      ghost var token := posts[0];
      lastResolvedToken := lastResolvedToken + 1;
      posts := posts[1..];
      fires := pendingToken == lastResolvedToken;
      if fires {
        pendingToken := 0;
        log := log + [Fired(token)];
      }
    }
  }
}
