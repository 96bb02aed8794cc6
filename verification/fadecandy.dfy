/**
 leds::FadecandyClient: one socket, one reconnect timer, one frame being written and one waiting.

 The socket and the timer are the environment: they complete the operation that is outstanding, with or
 without an error, and fire the timer if it is armed.
 */
module FadecandyModel {
  import opened Runtime

  datatype Color = Color(red: nat, green: nat, blue: nat)

  type Frame = seq<nat>

  datatype Op = Connecting | Writing

  /** Fields of the implementation, the outstanding operations, and the histories: frames asked for, and
      frames handed to the socket with the number of the request that each came from. */
  datatype World = World(
    level: RunLevel, ops: nat, open: bool, pending: Frame, writing: Frame, armed: bool,
    outstanding: seq<Op>, asked: seq<Frame>, written: seq<Frame>, origin: seq<nat>)

  /** After HandleStarting. */
  const Started := World(Running, 0, false, [], [], true, [], [], [], [])

  // ---------- what the methods do ----------

  function Pixels(colors: seq<Color>): Frame {
    if colors == [] then [] else [colors[0].red, colors[0].green, colors[0].blue] + Pixels(colors[1..])
  }

  /** Channel 0, set pixels, the size as 16 big-endian bits, then the colours. */
  function FrameOf(colors: seq<Color>): Frame {
    var size := |colors| * 3 % 0x1_0000;
    [0, 0, size / 256, size % 256] + Pixels(colors)
  }

  function StartWrite(w: World): World {
    if w.open && w.ops == 0 && w.asked != [] then
      w.(writing := w.pending, pending := [], ops := 1, outstanding := w.outstanding + [Writing],
         written := w.written + [w.pending], origin := w.origin + [|w.asked| - 1])
    else w
  }

  function CheckShutdown(w: World): World {
    if w.level == Stopping && w.ops == 0 then w.(armed := false, level := Stopped) else w
  }

  function ReconnectTimeout(w: World): World {
    w.(armed := false, ops := w.ops + 1, outstanding := w.outstanding + [Connecting])
  }

  function ConnectComplete(w: World, ok: bool): World
    requires w.ops > 0
  {
    var w1 := w.(ops := w.ops - 1, outstanding := [], open := ok);
    if ok then (if w1.pending != [] then StartWrite(w1) else w1)
    else if w1.level == Stopping then CheckShutdown(w1)
    else w1.(armed := true)
  }

  function WriteComplete(w: World, ok: bool): World
    requires w.ops > 0
  {
    var w1 := w.(ops := w.ops - 1, outstanding := [], writing := []);
    CheckShutdown(
      if ok then (if w1.pending != [] then StartWrite(w1) else w1) else w1.(open := false, armed := true))
  }

  function UpdateLeds(w: World, frame: Frame): World { StartWrite(w.(pending := frame, asked := w.asked + [frame])) }

  // ---------- runs ----------

  datatype Step = Update(colors: seq<Color>) | Timeout | ConnectDone(ok: bool) | WriteDone(ok: bool) | Stop

  predicate Doing(w: World, op: Op) { w.outstanding != [] && w.outstanding[0] == op }

  predicate Enabled(w: World, s: Step) {
    match s
    case Update(_) => w.level != Stopped
    case Timeout => w.armed
    case ConnectDone(_) => Doing(w, Connecting) && w.ops > 0
    case WriteDone(_) => Doing(w, Writing) && w.ops > 0
    case Stop => w.level == Running
  }

  function Next(w: World, s: Step): World
    requires Enabled(w, s)
  {
    match s
    case Update(colors) => UpdateLeds(w, FrameOf(colors))
    case Timeout => ReconnectTimeout(w)
    case ConnectDone(ok) => ConnectComplete(w, ok)
    case WriteDone(ok) => WriteComplete(w, ok)
    case Stop => CheckShutdown(w.(level := Stopping))
  }

  ghost predicate IsRun(w: World, steps: seq<Step>, w': World)
    decreases |steps|
  {
    if steps == [] then w' == w
    else Enabled(w, steps[0]) && IsRun(Next(w, steps[0]), steps[1..], w')
  }

  // ---------- what every run keeps ----------

  /** At most one operation, none while the timer is armed; an open idle connection has nothing to send. */
  ghost predicate OpsOK(w: World) {
    && |w.outstanding| == w.ops <= 1
    && (w.armed ==> w.ops == 0 && !w.open && w.level != Stopped)
    && (w.level == Stopped ==> w.ops == 0)
    && (w.open && w.ops == 0 ==> w.pending == [])
    && (Doing(w, Connecting) ==> !w.open)
    && (Doing(w, Writing) <==> w.writing != [])
    && (Doing(w, Writing) ==> w.open && w.written != [] && w.writing == w.written[|w.written| - 1])
    && (w.level == Running && !w.open ==> w.armed || w.ops == 1)
  }

  /** The frames written are, whole and in order, some of those asked for; what waits is the newest. */
  ghost predicate FramesOK(w: World) {
    && |w.origin| == |w.written|
    && (forall i :: 0 <= i < |w.origin| ==> w.origin[i] < |w.asked| && w.written[i] == w.asked[w.origin[i]])
    && (forall i, j :: 0 <= i < j < |w.origin| ==> w.origin[i] < w.origin[j])
    && (w.pending != [] ==> w.asked != [] && w.pending == w.asked[|w.asked| - 1]
                            && (w.origin != [] ==> w.origin[|w.origin| - 1] < |w.asked| - 1))
    && (w.pending == [] && w.asked != [] ==> w.origin != [] && w.origin[|w.origin| - 1] == |w.asked| - 1)
    && (forall f :: f in w.asked ==> f != [])
  }

  ghost predicate Inv(w: World) { OpsOK(w) && FramesOK(w) }

  lemma WriteKeepsFrames(w: World)
    requires FramesOK(w) && w.pending != []
    ensures FramesOK(StartWrite(w))
  {}

  lemma AskKeepsFrames(w: World, frame: Frame)
    requires FramesOK(w) && frame != []
    ensures FramesOK(w.(pending := frame, asked := w.asked + [frame]))
  {}

  lemma SameFrames(w: World, w': World)
    requires FramesOK(w) && w'.asked == w.asked && w'.written == w.written && w'.origin == w.origin
      && w'.pending == w.pending
    ensures FramesOK(w')
  {}

  lemma StepKeeps(w: World, s: Step)
    requires Inv(w) && Enabled(w, s)
    ensures Inv(Next(w, s))
  {
    StepKeepsFrames(w, s);
    hide OpsOK, FrameOf;
    StepKeepsOps(w, s);
  }

  lemma FrameNotEmpty(colors: seq<Color>)
    ensures FrameOf(colors) != []
  {
    assert FrameOf(colors)[0] == 0;
  }

  lemma StepKeepsOps(w: World, s: Step)
    requires OpsOK(w) && Enabled(w, s) && (w.pending != [] ==> w.asked != [])
    ensures OpsOK(Next(w, s))
  {
    if s.Update? {
      FrameNotEmpty(s.colors);
    }
    hide FrameOf;
  }

  lemma StepKeepsFrames(w: World, s: Step)
    requires Inv(w) && Enabled(w, s)
    ensures FramesOK(Next(w, s))
  {
    hide FramesOK;
    match s {
      case Update(colors) =>
        var frame := FrameOf(colors);
        AskKeepsFrames(w, frame);
        WriteKeepsFrames(w.(pending := frame, asked := w.asked + [frame]));
      case ConnectDone(ok) =>
        var w1 := w.(ops := w.ops - 1, outstanding := [], open := ok);
        SameFrames(w, w1);
        if ok && w1.pending != [] { WriteKeepsFrames(w1); } else { SameFrames(w, Next(w, s)); }
      case WriteDone(ok) =>
        var w1 := w.(ops := w.ops - 1, outstanding := [], writing := []);
        SameFrames(w, w1);
        if ok && w1.pending != [] {
          WriteKeepsFrames(w1);
          SameFrames(StartWrite(w1), Next(w, s));
        } else {
          SameFrames(w, Next(w, s));
        }
      case _ => SameFrames(w, Next(w, s));
    }
  }

  lemma {:induction false} RunKeeps(w: World, steps: seq<Step>, w': World)
    requires Inv(w) && IsRun(w, steps, w')
    ensures Inv(w')
    decreases |steps|
  {
    hide Inv, Next;
    if steps != [] {
      StepKeeps(w, steps[0]);
      RunKeeps(Next(w, steps[0]), steps[1..], w');
    }
  }

  lemma {:induction false} EveryRun(w0: World, steps: seq<Step>, w: World)
    requires w0 == Started && IsRun(w0, steps, w)
    ensures Inv(w)
  {
    RunKeeps(w0, steps, w);
  }

  // ---------- frames ----------

  lemma {:induction false} PixelBytes(colors: seq<Color>)
    ensures |Pixels(colors)| == 3 * |colors|
  {
    if colors != [] { PixelBytes(colors[1..]); }
  }

  lemma {:induction false} PixelOf(colors: seq<Color>, i: nat)
    requires i < |colors|
    ensures |Pixels(colors)| == 3 * |colors|
    ensures Pixels(colors)[3 * i..3 * i + 3] == [colors[i].red, colors[i].green, colors[i].blue]
  {
    PixelBytes(colors);
    if i > 0 { PixelOf(colors[1..], i - 1); }
  }

  /** In the frame the three bytes of a colour stand behind the four bytes of the header. */
  lemma PixelAt(colors: seq<Color>, i: nat)
    requires i < |colors|
    ensures |FrameOf(colors)| == 4 + 3 * |colors|
    ensures FrameOf(colors)[4 + 3 * i..4 + 3 * i + 3] == [colors[i].red, colors[i].green, colors[i].blue]
  {
    PixelOf(colors, i);
    hide Pixels;
    assert FrameOf(colors)[4..] == Pixels(colors);
    assert FrameOf(colors)[4 + 3 * i..4 + 3 * i + 3] == FrameOf(colors)[4..][3 * i..3 * i + 3];
  }

  /** The number that the third and the fourth byte of a frame make. */
  function SizeField(m: Frame): int
    requires |m| >= 4
  {
    m[2] * 0x100 + m[3]
  }

  /** The size in the header is that of what follows it exactly for up to 21845 colours. */
  lemma SizeFieldFits(colors: seq<Color>)
    ensures |FrameOf(colors)| >= 4
    ensures SizeField(FrameOf(colors)) == |FrameOf(colors)| - 4 <==> |colors| <= 21845
  {
    PixelBytes(colors);
    hide Pixels;
    var size := |colors| * 3 % 0x1_0000;
    assert size / 256 * 0x100 + size % 256 == size;
  }

  // ---------- stopping ----------

  /** While stopping, a completion is still to come that will report stopped. */
  ghost predicate WillReport(w: World) { w.level == Stopping ==> w.ops > 0 }

  predicate LateConnect(w: World, s: Step) { s == ConnectDone(true) && w.level == Stopping && w.pending == [] }

  /** The report stays due through every step but one: a connection that succeeds after the stop was
      requested, with no frame waiting, leaves the client stopping with nothing outstanding. */
  lemma ReportStaysDue(w: World, s: Step)
    requires Inv(w) && Enabled(w, s) && WillReport(w)
    ensures WillReport(Next(w, s)) <==> !LateConnect(w, s)
  {
    assert w.pending != [] ==> w.asked != [];
    hide FramesOK, Pixels;
  }

  ghost predicate NoLateConnect(w: World, steps: seq<Step>)
    decreases |steps|
  {
    steps == [] || (Enabled(w, steps[0]) ==> !LateConnect(w, steps[0]) && NoLateConnect(Next(w, steps[0]), steps[1..]))
  }

  /** Over every run without that step, a stopping client has an operation outstanding that will report. */
  lemma {:induction false} RunReports(w: World, steps: seq<Step>, w': World)
    requires Inv(w) && WillReport(w) && IsRun(w, steps, w') && NoLateConnect(w, steps)
    ensures WillReport(w')
    decreases |steps|
  {
    hide Inv, Next, WillReport, LateConnect;
    if steps != [] {
      StepKeeps(w, steps[0]);
      ReportStaysDue(w, steps[0]);
      RunReports(Next(w, steps[0]), steps[1..], w');
    }
  }

  /** That step happens: the stop arrives while the first connection is being made. */
  lemma ReportCanBeLost()
    ensures var steps := [Timeout, Stop, ConnectDone(true)];
      exists w :: IsRun(Started, steps, w) && w.level == Stopping && w.ops == 0 && !w.armed
  {
    var steps := [Timeout, Stop, ConnectDone(true)];
    var w1 := Next(Started, Timeout);
    var w2 := Next(w1, Stop);
    var w3 := Next(w2, ConnectDone(true));
    assert steps[1..] == [Stop, ConnectDone(true)] && steps[1..][1..] == [ConnectDone(true)]
      && steps[1..][1..][1..] == [];
    assert IsRun(w3, [], w3) && IsRun(w2, steps[1..][1..], w3) && IsRun(w1, steps[1..], w3);
    assert IsRun(Started, steps, w3);
  }
}

/** The client as its methods run it. */
module FadecandyClass {
  import opened Runtime
  import opened FadecandyModel

  class FadecandyClient {
    var level: RunLevel
    var outstandingOps: nat
    var socketOpen: bool
    var pendingData: Frame
    var writingData: Frame
    var reconnectArmed: bool
    ghost var outstanding: seq<Op>
    ghost var asked: seq<Frame>
    ghost var written: seq<Frame>
    ghost var origin: seq<nat>

    ghost function View(): World
      reads this
    {
      World(level, outstandingOps, socketOpen, pendingData, writingData, reconnectArmed,
            outstanding, asked, written, origin)
    }

    /** Construction and HandleStarting. */
    constructor ()
      ensures View() == Started && Inv(View())
    {
      level, outstandingOps, socketOpen := Running, 0, false;
      pendingData, writingData, reconnectArmed := [], [], true;
      outstanding, asked, written, origin := [], [], [], [];
    }

    /** The reconnect timer has fired; the assertion holds in every reachable state. */
    method ReconnectTimeout()
      requires Inv(View()) && reconnectArmed
      modifies this
      ensures View() == Next(old(View()), Timeout) && Inv(View())
    {
      assert outstandingOps == 0;
      StepKeeps(View(), Timeout);
      reconnectArmed := false;
      outstandingOps := outstandingOps + 1;
      outstanding := outstanding + [Connecting];
    }

    method ConnectComplete(ok: bool)
      requires Inv(View()) && Doing(View(), Connecting)
      modifies this
      ensures View() == Next(old(View()), ConnectDone(ok)) && Inv(View())
    {
      StepKeeps(View(), ConnectDone(ok));
      outstandingOps := outstandingOps - 1;
      outstanding := [];
      if !ok {
        socketOpen := false;
        if level == Stopping { CheckShutdown(); } else { reconnectArmed := true; }
      } else {
        socketOpen := true;
        if |pendingData| > 0 { StartWrite(); }
      }
    }

    method CheckShutdown()
      modifies this`level, this`reconnectArmed
      ensures View() == FadecandyModel.CheckShutdown(old(View()))
    {
      if level == Stopping && outstandingOps == 0 {
        reconnectArmed := false;
        level := Stopped;
      }
    }

    method StartWrite()
      requires |pendingData| > 0 && asked != []
      modifies this
      ensures View() == FadecandyModel.StartWrite(old(View()))
    {
      if socketOpen && outstandingOps == 0 {
        writingData := pendingData;
        pendingData := [];
        outstandingOps := outstandingOps + 1;
        outstanding := outstanding + [Writing];
        written := written + [writingData];
        origin := origin + [|asked| - 1];
      }
    }

    method WriteComplete(ok: bool)
      requires Inv(View()) && Doing(View(), Writing)
      modifies this
      ensures View() == Next(old(View()), WriteDone(ok)) && Inv(View())
    {
      StepKeeps(View(), WriteDone(ok));
      outstandingOps := outstandingOps - 1;
      outstanding := [];
      writingData := [];
      assert outstandingOps == 0;
      if !ok {
        socketOpen := false;
        reconnectArmed := true;
      } else if |pendingData| > 0 {
        StartWrite();
      }
      CheckShutdown();
    }

    method HandleStopping()
      requires Inv(View()) && level == Running
      modifies this
      ensures View() == Next(old(View()), Stop) && Inv(View())
    {
      StepKeeps(View(), Stop);
      level := Stopping;
      CheckShutdown();
    }

    method UpdateLeds(colors: seq<Color>)
      requires Inv(View()) && level != Stopped
      modifies this
      ensures View() == Next(old(View()), Update(colors)) && Inv(View())
    {
      StepKeeps(View(), Update(colors));
      var m := Encode(colors);
      pendingData := m;
      asked := asked + [pendingData];
      hide Inv, FrameOf;
      StartWrite();
    }

    /** The bytes the binary encoder collects: header, then three bytes a colour. */
    static method Encode(colors: seq<Color>) returns (m: Frame)
      ensures m == FrameOf(colors) && m != []
    {
      var size := |colors| * 3 % 0x1_0000;
      m := [0, 0, size / 256, size % 256];
      var i := 0;
      while i < |colors|
        invariant 0 <= i <= |colors|
        invariant m + Pixels(colors[i..]) == FrameOf(colors)
      {
        assert colors[i..][1..] == colors[i + 1..];
        m := m + [colors[i].red, colors[i].green, colors[i].blue];
        i := i + 1;
      }
      assert colors[i..] == [];
    }
  }
}
