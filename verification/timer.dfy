/**
 bbox::rt::Timer: sequence numbers make late deliveries of superseded waits harmless.

 The asynchronous timer is the environment: it holds the waits that are outstanding, lets them expire,
 and delivers each to HandleTimeout once, in any order.
 */
module TimerModel {
  import opened Runtime

  const RUN_FOR_EVER: nat := 0xFFFF_FFFF_FFFF_FFFF

  /** An outstanding wait: still waiting, expired with its handler queued, or cancelled with its handler queued. */
  datatype Status = Waiting | Expired | Aborted

  datatype Wait = Wait(seqNo: nat, status: Status)

  datatype Event = Started(seqNo: nat) | Cancelled | Fired(seqNo: nat) | ReportedStopped

  datatype TimerState = TimerState(
    level: RunLevel, pending: nat, cur: nat, wait: nat, periodic: bool, remaining: nat, timesExpired: nat)

  /** The timer, the outstanding waits of its asynchronous timer, and what has happened so far. */
  datatype World = World(t: TimerState, waits: seq<Wait>, log: seq<Event>)

  const Initial := World(TimerState(Running, 0, 1, 0, false, 0, 0), [], [])

  // ---------- what the methods do ----------

  predicate IsRunning(t: TimerState) { t.wait == t.cur }

  /** Cancelling the asynchronous timer, or giving it a new expiry, aborts a wait that has not expired. */
  function Abort(w: Wait): Wait { if w.status == Waiting then w.(status := Aborted) else w }

  function AbortAll(waits: seq<Wait>): seq<Wait> { seq(|waits|, i requires 0 <= i < |waits| => Abort(waits[i])) }

  /** Starts the next wait. */
  function Arm(w: World): World {
    var n := w.t.cur + 1;
    World(w.t.(pending := w.t.pending + 1, cur := n, wait := n), AbortAll(w.waits) + [Wait(n, Waiting)],
      w.log + [Started(n)])
  }

  function StartSingleShot(w: World): World {
    var w1 := Arm(w);
    w1.(t := w1.t.(periodic := false))
  }

  function Less(n: nat): nat { if 0 < n < RUN_FOR_EVER then n - 1 else n }

  function Cancel(w: World): World {
    World(w.t.(wait := 0), if IsRunning(w.t) then AbortAll(w.waits) else w.waits, w.log + [Cancelled])
  }

  function StartPeriodic(w: World, numTimes: nat): World {
    if numTimes == 0 then Cancel(w)
    else
      var w1 := StartSingleShot(w);
      w1.(t := w1.t.(periodic := true, remaining := Less(numTimes)))
  }

  function CheckShutdown(w: World): World {
    if w.t.level == Stopping && w.t.pending == 0 then
      World(w.t.(level := Stopped), w.waits, w.log + [ReportedStopped])
    else w
  }

  /** The handler fires the callback: it succeeded and belongs to the wait that is running. */
  predicate Fires(t: TimerState, seqNo: nat, ok: bool) { ok && t.wait == t.cur && t.wait == seqNo }

  /** HandleTimeout up to the callback. */
  function BeginTimeout(w: World, seqNo: nat, ok: bool): World
    requires w.t.pending > 0
  {
    var t := w.t.(pending := w.t.pending - 1);
    if !Fires(t, seqNo, ok) then w.(t := t)
    else
      var w1 := World(t.(wait := 0, timesExpired := t.timesExpired + 1), w.waits, w.log + [Fired(seqNo)]);
      if t.periodic && t.level != Stopping && t.remaining > 0
      then var w2 := Arm(w1); w2.(t := w2.t.(remaining := Less(t.remaining)))
      else w1
  }

  // ---------- runs ----------

  datatype Call = CallSingleShot | CallPeriodic(numTimes: nat) | CallCancel

  /** A call from outside; the environment lets a wait expire, delivers a handler (with what the
      callback does if it is fired), or asks the timer to stop. */
  datatype Step = Api(call: Call) | Expire(i: nat) | Deliver(i: nat, callback: seq<Call>) | Stop

  function DoCall(w: World, call: Call): World {
    match call
    case CallSingleShot => StartSingleShot(w)
    case CallPeriodic(n) => StartPeriodic(w, n)
    case CallCancel => Cancel(w)
  }

  function DoCalls(w: World, calls: seq<Call>): World
    decreases |calls|
  {
    if calls == [] then w else DoCalls(DoCall(w, calls[0]), calls[1..])
  }

  /** Delivers wait `i` to HandleTimeout. */
  function Delivered(w: World, i: nat, callback: seq<Call>): World
    requires i < |w.waits| && w.t.pending > 0
  {
    var h := w.waits[i];
    var ok := h.status == Expired;
    var t := w.t;
    var w1 := BeginTimeout(w.(waits := Without(w.waits, i)), h.seqNo, ok);
    CheckShutdown(if Fires(t, h.seqNo, ok) then DoCalls(w1, callback) else w1)
  }

  /** What may happen next: an owner stops the timer only when it does not run, and does not use it once stopped. */
  predicate Enabled(w: World, s: Step) {
    match s
    case Api(_) => w.t.level != Stopped
    case Expire(i) => i < |w.waits| && w.waits[i].status == Waiting
    case Deliver(i, _) => i < |w.waits| && w.waits[i].status != Waiting && w.t.pending > 0
    case Stop => w.t.level == Running && !IsRunning(w.t)
  }

  function Next(w: World, s: Step): World
    requires Enabled(w, s)
  {
    match s
    case Api(call) => DoCall(w, call)
    case Expire(i) => w.(waits := w.waits[i := w.waits[i].(status := Expired)])
    case Deliver(i, callback) => Delivered(w, i, callback)
    case Stop => CheckShutdown(w.(t := w.t.(level := Stopping)))
  }

  /** The worlds that some run reaches. */
  ghost predicate IsRun(w: World, steps: seq<Step>, w': World)
    decreases |steps|
  {
    if steps == [] then w' == w
    else Enabled(w, steps[0]) && IsRun(Next(w, steps[0]), steps[1..], w')
  }

  // ---------- what every run keeps ----------

  /** The start that is in force after a history: the latest, unless it was cancelled or has fired since. */
  function InForce(log: seq<Event>): nat {
    if log == [] then 0
    else
      match log[|log| - 1]
      case Started(n) => n
      case Cancelled => 0
      case Fired(_) => 0
      case ReportedStopped => InForce(log[..|log| - 1])
  }

  function StopReports(log: seq<Event>): nat {
    if log == [] then 0 else StopReports(log[..|log| - 1]) + if log[|log| - 1].ReportedStopped? then 1 else 0
  }

  /** Every callback was fired by the start in force at that moment. */
  ghost predicate FiresRight(log: seq<Event>) {
    forall i {:trigger log[i]} :: 0 <= i < |log| && log[i].Fired? ==>
      log[i].seqNo != 0 && InForce(log[..i]) == log[i].seqNo
  }

  /** A running timer has exactly one wait of its own number, not aborted; every other wait is older and on its way. */
  ghost predicate WaitsOK(t: TimerState, waits: seq<Wait>) {
    && |waits| == t.pending
    && (forall i :: 0 <= i < |waits| ==>
      waits[i].seqNo <= t.cur && (waits[i].status == Waiting ==> waits[i].seqNo == t.wait))
    && (forall i, j :: 0 <= i < j < |waits| ==> waits[i].seqNo != waits[j].seqNo)
    && (t.wait != 0 ==> exists i :: 0 <= i < |waits| && waits[i].seqNo == t.wait && waits[i].status != Aborted)
  }

  ghost predicate Inv(w: World) {
    && w.t.cur >= 1 && (w.t.wait == 0 || w.t.wait == w.t.cur)
    && WaitsOK(w.t, w.waits)
    && InForce(w.log) == w.t.wait && FiresRight(w.log)
    && (w.t.level == Stopped ==> w.t.pending == 0)
    && StopReports(w.log) == (if w.t.level == Stopped then 1 else 0)
  }

  lemma LogOne(log: seq<Event>, e: Event)
    ensures InForce(log + [e])
      == match e case Started(n) => n case Cancelled => 0 case Fired(_) => 0 case ReportedStopped => InForce(log)
    ensures StopReports(log + [e]) == StopReports(log) + if e.ReportedStopped? then 1 else 0
    ensures FiresRight(log) && (e.Fired? ==> e.seqNo != 0 && InForce(log) == e.seqNo) ==> FiresRight(log + [e])
  {
    assert (log + [e])[..|log|] == log;
    forall i | 0 <= i < |log| ensures (log + [e])[..i] == log[..i] {}
  }

  lemma ArmKeeps(w: World)
    requires Inv(w) && w.t.level != Stopped
    ensures Inv(Arm(w)) && Arm(w).t.level == w.t.level
  {
    hide FiresRight, WaitsOK, InForce, StopReports;
    LogOne(w.log, Started(w.t.cur + 1));
    ArmWaits(w.t, w.waits);
  }

  lemma ArmWaits(t: TimerState, waits: seq<Wait>)
    requires WaitsOK(t, waits)
    ensures WaitsOK(Arm(World(t, waits, [])).t, Arm(World(t, waits, [])).waits)
  {
    var n := t.cur + 1;
    var waits' := AbortAll(waits) + [Wait(n, Waiting)];
    forall i | 0 <= i < |waits'| ensures waits'[i] == if i < |waits| then Abort(waits[i]) else Wait(n, Waiting) {}
    assert waits'[|waits|].seqNo == n && waits'[|waits|].status != Aborted;
  }

  lemma CancelKeeps(w: World)
    requires Inv(w)
    ensures Inv(Cancel(w))
  {
    LogOne(w.log, Cancelled);
  }

  lemma {:induction false} CallsKeep(w: World, calls: seq<Call>)
    requires Inv(w) && w.t.level != Stopped
    ensures Inv(DoCalls(w, calls)) && DoCalls(w, calls).t.level == w.t.level
    decreases |calls|
  {
    if calls != [] {
      match calls[0] {
        case CallSingleShot => ArmKeeps(w);
        case CallPeriodic(n) => if n == 0 { CancelKeeps(w); } else { ArmKeeps(w); }
        case CallCancel => CancelKeeps(w);
      }
      CallsKeep(DoCall(w, calls[0]), calls[1..]);
    }
  }

  /** Taking a delivered wait out of the outstanding ones. */
  lemma TakeOut(t: TimerState, waits: seq<Wait>, i: nat)
    requires WaitsOK(t, waits) && i < |waits| && t.pending > 0
    ensures WaitsOK(t.(pending := t.pending - 1, wait := 0), Without(waits, i)) || waits[i].seqNo != t.wait
      || waits[i].status == Waiting
    ensures waits[i].seqNo != t.wait || t.wait == 0 ==> WaitsOK(t.(pending := t.pending - 1), Without(waits, i))
  {
    var rest := Without(waits, i);
    forall k | 0 <= k < |rest| ensures rest[k] == if k < i then waits[k] else waits[k + 1] {}
    if t.wait != 0 && waits[i].seqNo != t.wait {
      var k :| 0 <= k < |waits| && waits[k].seqNo == t.wait && waits[k].status != Aborted;
      assert rest[if k < i then k else k - 1] == waits[k];
    }
  }

  /** A delivery fires the callback exactly when the handler succeeded for the start in force. */
  lemma BeginKeeps(w: World, i: nat)
    requires Inv(w) && i < |w.waits| && w.waits[i].status != Waiting && w.t.level != Stopped
    ensures var h := w.waits[i];
      var ok := h.status == Expired;
      var w1 := BeginTimeout(w.(waits := Without(w.waits, i)), h.seqNo, ok);
      && Inv(w1) && w1.t.level == w.t.level
      && (Fires(w.t, h.seqNo, ok) <==> ok && h.seqNo == InForce(w.log) && h.seqNo != 0)
      && w1.t.timesExpired == w.t.timesExpired + (if Fires(w.t, h.seqNo, ok) then 1 else 0)
  {
    assert w.t.pending > 0;
    hide FiresRight, WaitsOK, InForce, StopReports, Without;
    var h := w.waits[i];
    TakeOut(w.t, w.waits, i);
    if Fires(w.t, h.seqNo, h.status == Expired) {
      FireKeeps(w, i);
    } else if w.t.wait != 0 && h.seqNo == w.t.wait {
      OnlyOne(w, i);
    }
  }

  lemma FireKeeps(w: World, i: nat)
    requires Inv(w) && i < |w.waits| && w.t.level != Stopped && Fires(w.t, w.waits[i].seqNo, true) && w.t.pending > 0
    requires WaitsOK(w.t.(pending := w.t.pending - 1, wait := 0), Without(w.waits, i))
    ensures var w1 := BeginTimeout(w.(waits := Without(w.waits, i)), w.waits[i].seqNo, true);
      Inv(w1) && w1.t.level == w.t.level && w1.t.timesExpired == w.t.timesExpired + 1
  {
    var seqNo, rest := w.waits[i].seqNo, Without(w.waits, i);
    LogOne(w.log, Fired(seqNo));
    var t := w.t.(pending := w.t.pending - 1);
    var t1 := t.(wait := 0, timesExpired := t.timesExpired + 1);
    SameWaits(t.(wait := 0), t1, rest);
    hide FiresRight, WaitsOK, InForce, StopReports, Without;
    ArmKeeps(World(t1, rest, w.log + [Fired(seqNo)]));
  }

  lemma SameWaits(t: TimerState, t': TimerState, waits: seq<Wait>)
    requires WaitsOK(t, waits) && t'.pending == t.pending && t'.cur == t.cur && t'.wait == t.wait
    ensures WaitsOK(t', waits)
  {}

  /** The wait in force is never delivered as aborted. */
  lemma OnlyOne(w: World, i: nat)
    requires Inv(w) && i < |w.waits| && w.t.wait != 0 && w.waits[i].seqNo == w.t.wait
    ensures w.waits[i].status != Aborted
  {}

  lemma ExpireKeeps(w: World, i: nat)
    requires Inv(w) && Enabled(w, Expire(i))
    ensures Inv(Next(w, Expire(i)))
  {
    hide FiresRight, InForce, StopReports;
    var w' := Next(w, Expire(i));
    if w.t.wait != 0 {
      var k :| 0 <= k < |w.waits| && w.waits[k].seqNo == w.t.wait && w.waits[k].status != Aborted;
      assert w'.waits[k].seqNo == w.t.wait && w'.waits[k].status != Aborted;
    }
  }

  lemma ShutdownKeeps(w: World)
    requires Inv(w)
    ensures Inv(CheckShutdown(w))
  {
    hide FiresRight;
    LogOne(w.log, ReportedStopped);
  }

  lemma DeliverKeeps(w: World, i: nat, callback: seq<Call>)
    requires Inv(w) && Enabled(w, Deliver(i, callback))
    ensures Inv(Next(w, Deliver(i, callback)))
  {
    BeginKeeps(w, i);
    var h := w.waits[i];
    var w1 := BeginTimeout(w.(waits := Without(w.waits, i)), h.seqNo, h.status == Expired);
    hide Inv, CheckShutdown, BeginTimeout, Fires;
    if Fires(w.t, h.seqNo, h.status == Expired) { CallsKeep(w1, callback); }
    ShutdownKeeps(if Fires(w.t, h.seqNo, h.status == Expired) then DoCalls(w1, callback) else w1);
  }

  lemma StepKeeps(w: World, s: Step)
    requires Inv(w) && Enabled(w, s)
    ensures Inv(Next(w, s))
  {
    hide Inv, Delivered;
    match s {
      case Api(call) =>
        assert DoCalls(w, [call]) == DoCalls(DoCall(w, call), []) == DoCall(w, call);
        CallsKeep(w, [call]);
      case Expire(i) => ExpireKeeps(w, i);
      case Deliver(i, callback) => DeliverKeeps(w, i, callback);
      case Stop => StopKeeps(w);
    }
  }

  lemma StopKeeps(w: World)
    requires Inv(w) && Enabled(w, Stop)
    ensures Inv(Next(w, Stop))
  {
    hide FiresRight;
    ShutdownKeeps(w.(t := w.t.(level := Stopping)));
  }

  /** Over every run: the pending count is the number of outstanding handlers, the wait number is 0 or
      the current one, callbacks fire only for the start in force, and stopped means none outstanding. */
  lemma {:induction false} RunKeeps(w: World, steps: seq<Step>, w': World)
    requires Inv(w) && IsRun(w, steps, w')
    ensures Inv(w')
    decreases |steps|
  {
    if steps != [] {
      StepKeeps(w, steps[0]);
      RunKeeps(Next(w, steps[0]), steps[1..], w');
    }
  }

  /** A new timer satisfies the invariant, so every run of it does. */
  lemma {:induction false} EveryRun(w0: World, steps: seq<Step>, w: World)
    requires w0 == Initial && IsRun(w0, steps, w)
    ensures Inv(w)
  {
    RunKeeps(w0, steps, w);
  }

  /** A stopped timer has no handler outstanding, no start in force, and has said so once. */
  lemma StoppedIsQuiet(w: World)
    requires Inv(w) && w.t.level == Stopped
    ensures w.waits == [] && !IsRunning(w.t) && InForce(w.log) == 0 && StopReports(w.log) == 1
  {}

  // ---------- periodic timers ----------

  predicate IsQuiet(s: Step) { s.Expire? || (s.Deliver? && s.callback == []) }

  /** Fired, remaining and running add up to what was asked for. */
  ghost predicate CountsDown(w0: World, n: nat, w: World) {
    && w.t.level == Running && w.t.periodic && w.t.timesExpired >= w0.t.timesExpired
    && (if n == RUN_FOR_EVER then w.t.remaining == n && IsRunning(w.t)
        else
          && w.t.timesExpired - w0.t.timesExpired + w.t.remaining + (if IsRunning(w.t) then 1 else 0) == n
          && (!IsRunning(w.t) ==> w.t.remaining == 0))
  }

  lemma CountStep(w0: World, n: nat, w: World, s: Step)
    requires Inv(w) && CountsDown(w0, n, w) && Enabled(w, s) && IsQuiet(s) && n <= RUN_FOR_EVER
    ensures CountsDown(w0, n, Next(w, s))
  {
    if s.Deliver? { BeginKeeps(w, s.i); }
  }

  /** Left alone after StartPeriodic(n), the timer counts down exactly, whatever stale handlers arrive in between. */
  lemma {:induction false} PeriodicRun(w0: World, n: nat, w: World, steps: seq<Step>, w': World)
    requires Inv(w) && CountsDown(w0, n, w) && IsRun(w, steps, w') && n <= RUN_FOR_EVER
    requires forall s :: s in steps ==> IsQuiet(s)
    ensures Inv(w') && CountsDown(w0, n, w')
    decreases |steps|
  {
    if steps != [] {
      assert steps[0] in steps && forall s :: s in steps[1..] ==> s in steps;
      StepKeeps(w, steps[0]);
      CountStep(w0, n, w, steps[0]);
      PeriodicRun(w0, n, Next(w, steps[0]), steps[1..], w');
    }
  }

  /** After StartPeriodic(n) and until someone interferes, the callback fires at most n times, and once
      the timer no longer runs it has fired exactly n times. With RUN_FOR_EVER it never stops running. */
  lemma {:induction false} PeriodicFires(w: World, n: nat, steps: seq<Step>, w': World)
    requires Inv(w) && w.t.level == Running && 0 < n <= RUN_FOR_EVER
    requires IsRun(StartPeriodic(w, n), steps, w') && forall s :: s in steps ==> IsQuiet(s)
    ensures n < RUN_FOR_EVER ==> w'.t.timesExpired - w.t.timesExpired <= n
    ensures n < RUN_FOR_EVER ==> (IsRunning(w'.t) <==> w'.t.timesExpired - w.t.timesExpired < n)
    ensures n == RUN_FOR_EVER ==> IsRunning(w'.t)
  {
    var w0 := StartPeriodic(w, n);
    ArmKeeps(w);
    PeriodicRun(w0, n, w0, steps, w');
  }

}

/** The timer as its methods run it, each tied to what TimerModel says it does. */
module TimerClass {
  import opened Runtime
  import opened TimerModel

  class Timer {
    var level: RunLevel
    var pendingTimeouts: nat
    var curSeq: nat
    var waitSeq: nat
    var isPeriodic: bool
    var periodicNumTimesRemaining: nat
    var timesExpired: nat
    ghost var waits: seq<Wait>     // what the asynchronous timer still has to deliver
    ghost var log: seq<Event>

    ghost function View(): World
      reads this
    {
      World(TimerState(level, pendingTimeouts, curSeq, waitSeq, isPeriodic,
                       periodicNumTimesRemaining, timesExpired), waits, log)
    }

    constructor ()
      ensures View() == Initial
    {
      level, pendingTimeouts, curSeq, waitSeq := Running, 0, 1, 0;
      isPeriodic, periodicNumTimesRemaining, timesExpired := false, 0, 0;
      waits, log := [], [];
    }

    /** async_wait for the next sequence number. */
    method Restart()
      modifies this
      ensures View() == Arm(old(View()))
    {
      pendingTimeouts := pendingTimeouts + 1;
      curSeq := curSeq + 1;
      waitSeq := curSeq;
      waits := AbortAll(waits) + [Wait(waitSeq, Waiting)];
      log := log + [Started(waitSeq)];
    }

    method StartSingleShot()
      modifies this
      ensures View() == TimerModel.StartSingleShot(old(View()))
    {
      Restart();
      isPeriodic := false;
    }

    method StartPeriodic(numTimes: nat)
      modifies this
      ensures View() == TimerModel.StartPeriodic(old(View()), numTimes)
    {
      if numTimes == 0 {
        Cancel();
      } else {
        StartSingleShot();
        isPeriodic := true;
        periodicNumTimesRemaining := numTimes;
        if periodicNumTimesRemaining < RUN_FOR_EVER {
          periodicNumTimesRemaining := periodicNumTimesRemaining - 1;
        }
      }
    }

    method Cancel()
      modifies this
      ensures View() == TimerModel.Cancel(old(View()))
    {
      if waitSeq == curSeq {
        waits := AbortAll(waits);
      }
      waitSeq := 0;
      log := log + [Cancelled];
    }

    /** HandleTimeout up to its call of the callback, which `fires` asks for. */
    method BeginHandleTimeout(seqNo: nat, ok: bool) returns (fires: bool)
      requires pendingTimeouts > 0
      modifies this
      ensures View() == BeginTimeout(old(View()), seqNo, ok)
      ensures fires == Fires(old(View()).t, seqNo, ok)
    {
      pendingTimeouts := pendingTimeouts - 1;
      fires := ok && waitSeq == curSeq && waitSeq == seqNo;
      if fires {
        waitSeq := 0;
        log := log + [Fired(seqNo)];
        var periodic := isPeriodic && level != Stopping && periodicNumTimesRemaining > 0;
        timesExpired := timesExpired + 1;
        if periodic {
          Restart();
          if periodicNumTimesRemaining < RUN_FOR_EVER {
            periodicNumTimesRemaining := periodicNumTimesRemaining - 1;
          }
        }
      }
    }

    method HandleStopping()
      requires level == Running && waitSeq != curSeq
      modifies this
      ensures View() == Next(old(View()), Stop)
    {
      level := Stopping;
      CheckShutdown();
    }

    /** The end of HandleTimeout and of HandleStopping. */
    method CheckShutdown()
      modifies this
      ensures View() == TimerModel.CheckShutdown(old(View()))
    {
      if level == Stopping && pendingTimeouts == 0 {
        level := Stopped;
        log := log + [ReportedStopped];
      }
    }
  }
}
