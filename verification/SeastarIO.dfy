/** `SeastarIO`: sends only queue, and a loop of continuations writes one frame after the other. Each continuation the reactor
    may run on its own is a step here, so other steps can come between any two. */
module SeastarIOs {
  import opened Bytes
  import opened Sequences
  import opened PosixBuffers
  import opened PosixQueue

  type Frame = seq<Byte>

  /** Where one `do_until` loop stands: a write is outstanding, or the stop condition is about to be tested, or the `finally`
      is about to run. `stream`: the connection written to. `failed`: the last write of the loop failed. */
  datatype Phase = Writing(frame: Frame, stream: nat) | Checking(failed: bool) | Finishing(failed: bool) | Done

  /** `accepted`: all frames posted, in order; `attempted`: those a write was started for; `lost`: those whose write failed;
      `streams`: those started on each connection, oldest connection first, after the unconnected stream an object starts with;
      `wires`: the bytes each connection took. */
  datatype Tx = Tx(
    wqueue: seq<Frame>,
    loops: seq<Phase>,
    connected: bool,
    transmitting: bool,
    shuttingDown: bool,
    maxSize: nat,
    size: nat,
    posted: nat,
    dropped: nat,
    sent: nat,
    accepted: seq<Frame>,
    attempted: seq<Frame>,
    lost: seq<Frame>,
    streams: seq<seq<Frame>>,
    wires: seq<seq<Byte>>)

  const IDLE := Tx([], [], false, false, false, 0, 0, 0, 0, 0, [], [], [], [[]], [[]])

  datatype Step =
    | SendStep(bytes: seq<Byte>)
    | WriteDone(loop: nat)
    | WriteFailed(loop: nat, taken: nat)
    | CheckStop(loop: nat)
    | Finally(loop: nat)
    | Connected
    | ShutDown
    | SetMax(max: nat)

  ghost predicate Possible(s: Tx, a: Step) {
    match a
    case SendStep(bytes) => |bytes| >= 4
    case WriteDone(i) => i < |s.loops| && s.loops[i].Writing?
    case WriteFailed(i, _) => i < |s.loops| && s.loops[i].Writing?
    case CheckStop(i) => i < |s.loops| && s.loops[i].Checking?
    case Finally(i) => i < |s.loops| && s.loops[i].Finishing?
    case _ => true
  }

  predicate Stops(s: Tx) {
    s.wqueue == [] || !s.connected || s.shuttingDown
  }

  /** One more frame on the stream of the last connection. */
  function OnLast(streams: seq<seq<Frame>>, frame: Frame): seq<seq<Frame>> {
    if streams == [] then [[frame]]
    else
      var last := |streams| - 1;
      streams[last := streams[last] + [frame]]
  }

  function LastOf(streams: seq<seq<Frame>>): nat {
    if streams == [] then 0 else |streams| - 1
  }

  /** Connection `c` takes more bytes. */
  function AddTo(wires: seq<seq<Byte>>, c: nat, bytes: seq<Byte>): seq<seq<Byte>> {
    if c < |wires| then wires[c := wires[c] + bytes] else wires
  }

  /** The action of the loop: take the front of the queue and start writing it, as loop `i`. */
  function StartWrite(s: Tx, i: nat): Tx
    requires s.wqueue != [] && i <= |s.loops|
  {
    s.(transmitting := true, wqueue := s.wqueue[1..], attempted := s.attempted + [s.wqueue[0]],
       streams := OnLast(s.streams, s.wqueue[0]),
       loops := s.loops[..i] + [Writing(s.wqueue[0], LastOf(s.streams))] + if i < |s.loops| then s.loops[i + 1..] else [])
  }

  predicate Full(s: Tx, bytes: seq<Byte>) {
    s.maxSize != 0 && s.size + |bytes| > s.maxSize
  }

  function Post(s: Tx, bytes: seq<Byte>): Tx
    requires |bytes| >= 4
  {
    s.(posted := s.posted + 1, size := s.size + |bytes|, wqueue := s.wqueue + [Stamp(bytes)],
       accepted := s.accepted + [Stamp(bytes)])
  }

  /** A frame offered while disconnected is neither queued nor counted. */
  function SendTo(s: Tx, bytes: seq<Byte>): Tx
    requires |bytes| >= 4
  {
    if Full(s, bytes) then s.(dropped := s.dropped + 1)
    else if s.shuttingDown || !s.connected then s
    else if s.transmitting then Post(s, bytes)
    else StartWrite(Post(s, bytes), |s.loops|)
  }

  function NextTx(s: Tx, a: Step): Tx
    requires Possible(s, a)
  {
    match a
    case SendStep(bytes) => SendTo(s, bytes)
    case WriteDone(i) =>
      s.(size := Subtract(s.size, |s.loops[i].frame|), sent := s.sent + 1, loops := s.loops[i := Checking(false)],
         wires := AddTo(s.wires, s.loops[i].stream, s.loops[i].frame))
    case WriteFailed(i, taken) =>
      s.(transmitting := false, connected := false, lost := s.lost + [s.loops[i].frame],
         loops := s.loops[i := Checking(true)],
         wires := AddTo(s.wires, s.loops[i].stream, s.loops[i].frame[..Min(taken, |s.loops[i].frame|)]))
    case CheckStop(i) =>
      if Stops(s) then s.(loops := s.loops[i := Finishing(s.loops[i].failed)]) else StartWrite(s, i)
    case Finally(i) => s.(transmitting := false, loops := s.loops[i := Done])
    case Connected => s.(connected := true, streams := s.streams + [[]], wires := s.wires + [[]])
    case ShutDown => s.(shuttingDown := true)
    case SetMax(max) => s.(maxSize := max)
  }

  ghost predicate AllPossible(s: Tx, steps: seq<Step>)
    decreases |steps|
  {
    steps == [] || (Possible(s, steps[0]) && AllPossible(NextTx(s, steps[0]), steps[1..]))
  }

  ghost function RunTx(s: Tx, steps: seq<Step>): Tx
    requires AllPossible(s, steps)
    decreases |steps|
  {
    if steps == [] then s else RunTx(NextTx(s, steps[0]), steps[1..])
  }

  // ---- What every interleaving keeps -------------------------------------------------------------

  /** The frames whose write is outstanding. */
  function Writers(loops: seq<Phase>): seq<Frame> {
    if loops == [] then [] else (if loops[0].Writing? then [loops[0].frame] else []) + Writers(loops[1..])
  }

  /** The attempts, connection after connection, are the posting order, and every posted frame and its bytes are accounted for:
      sent, lost, in flight or queued. The bytes of lost frames are never given back. */
  ghost predicate ValidTx(s: Tx) {
    && s.attempted + s.wqueue == s.accepted
    && Flat(s.streams) == s.attempted
    && s.posted == |s.accepted|
    && s.posted == s.sent + |s.lost| + |Writers(s.loops)| + |s.wqueue|
    && s.size == |Flat(s.wqueue)| + |Flat(Writers(s.loops))| + |Flat(s.lost)|
  }

  lemma {:induction false} WritersAppend(a: seq<Phase>, b: seq<Phase>)
    ensures Writers(a + b) == Writers(a) + Writers(b)
  {
    if a == [] {
      assert a + b == b;
    } else {
      WritersAppend(a[1..], b);
      assert (a + b)[0] == a[0] && (a + b)[1..] == a[1..] + b;
      Assoc(if a[0].Writing? then [a[0].frame] else [], Writers(a[1..]), Writers(b));
    }
  }

  function OneWriter(p: Phase): seq<Frame> {
    if p.Writing? then [p.frame] else []
  }

  lemma WritersAt(before: seq<Phase>, p: Phase, after: seq<Phase>)
    ensures Writers(before + [p] + after) == Writers(before) + OneWriter(p) + Writers(after)
  {
    WritersAppend(before + [p], after);
    WritersAppend(before, [p]);
    assert [p][1..] == [] && Writers([p]) == OneWriter(p) + Writers([]);
  }

  /** Replacing loop `i` by `p` exchanges what it writes. */
  lemma WritersReplaced(loops: seq<Phase>, i: nat, p: Phase)
    requires i < |loops|
    ensures |Writers(loops[i := p])| == |Writers(loops)| - |OneWriter(loops[i])| + |OneWriter(p)|
    ensures |Flat(Writers(loops[i := p]))| ==
            |Flat(Writers(loops))| - |Flat(OneWriter(loops[i]))| + |Flat(OneWriter(p))|
  {
    hide Writers;
    var a, b := loops[..i], loops[i + 1..];
    assert loops == a + [loops[i]] + b && loops[i := p] == a + [p] + b;
    WritersAt(a, loops[i], b);
    WritersAt(a, p, b);
    FlatThree(Writers(a), OneWriter(loops[i]), Writers(b));
    FlatThree(Writers(a), OneWriter(p), Writers(b));
  }

  lemma FlatThree(a: seq<Frame>, b: seq<Frame>, c: seq<Frame>)
    ensures Flat(a + b + c) == Flat(a) + Flat(b) + Flat(c)
  {
    FlatAppend(a + b, c);
    FlatAppend(a, b);
  }

  lemma FlatWriter(p: Phase)
    ensures |Flat(OneWriter(p))| == if p.Writing? then |p.frame| else 0
  {
    if p.Writing? {
      FlatOne(p.frame);
    }
  }

  lemma FlatOnLast(streams: seq<seq<Frame>>, frame: Frame)
    ensures Flat(OnLast(streams, frame)) == Flat(streams) + [frame]
  {
    hide Flat;
    if streams == [] {
      WritersNone();
      FlatOne([frame]);
    } else {
      var k := |streams| - 1;
      FlatSnoc(streams[..k], streams[k]);
      FlatSnoc(streams[..k], streams[k] + [frame]);
      assert streams == streams[..k] + [streams[k]];
      assert OnLast(streams, frame) == streams[..k] + [streams[k] + [frame]];
      Assoc(Flat(streams[..k]), streams[k], [frame]);
    }
  }

  /** Starting a write moves the front of the queue into flight. */
  lemma StartKeeps(s: Tx, i: nat)
    requires ValidTx(s) && s.wqueue != [] && i <= |s.loops| && (i < |s.loops| ==> s.loops[i].Checking?)
    ensures ValidTx(StartWrite(s, i))
  {
    hide Flat, Writers, OnLast;
    FlatOnLast(s.streams, s.wqueue[0]);
    var t, front := StartWrite(s, i), s.wqueue[0];
    var p := Writing(front, LastOf(s.streams));
    FlatWriter(p);
    FlatFront(s.wqueue);
    assert s.wqueue == [front] + s.wqueue[1..];
    Assoc(s.attempted, [front], s.wqueue[1..]);
    if i < |s.loops| {
      FlatWriter(s.loops[i]);
      WritersReplaced(s.loops, i, p);
      assert t.loops == s.loops[i := p];
    } else {
      WritersAt(s.loops, p, []);
      WritersNone();
      FlatThree(Writers(s.loops), OneWriter(p), []);
      assert t.loops == s.loops + [p] + [];
    }
  }

  lemma WritersNone()
    ensures Writers([]) == [] && Flat<Frame>([]) == [] && Flat<Byte>([]) == []
  {
  }

  lemma FlatFront(q: seq<Frame>)
    requires q != []
    ensures |Flat(q)| == |q[0]| + |Flat(q[1..])|
  {
  }

  lemma StepKeeps(s: Tx, a: Step)
    requires ValidTx(s) && Possible(s, a)
    ensures ValidTx(NextTx(s, a))
  {
    hide Flat, Writers, Stamp, StartWrite;
    match a
    case SendStep(bytes) =>
      if !Full(s, bytes) && !s.shuttingDown && s.connected {
        var t := Post(s, bytes);
        FlatSnoc(s.wqueue, Stamp(bytes));
        Assoc(s.attempted, s.wqueue, [Stamp(bytes)]);
        assert ValidTx(t);
        if !s.transmitting {
          StartKeeps(t, |s.loops|);
        }
      }
    case WriteDone(i) =>
      FlatWriter(s.loops[i]);
      FlatWriter(Checking(false));
      WritersReplaced(s.loops, i, Checking(false));
    case WriteFailed(i, _) =>
      FlatWriter(s.loops[i]);
      FlatWriter(Checking(true));
      WritersReplaced(s.loops, i, Checking(true));
      FlatSnoc(s.lost, s.loops[i].frame);
    case CheckStop(i) =>
      if Stops(s) {
        FlatWriter(s.loops[i]);
        FlatWriter(Finishing(s.loops[i].failed));
        WritersReplaced(s.loops, i, Finishing(s.loops[i].failed));
      } else {
        StartKeeps(s, i);
      }
    case Finally(i) =>
      FlatWriter(s.loops[i]);
      FlatWriter(Done);
      WritersReplaced(s.loops, i, Done);
    case Connected =>
      FlatSnoc(s.streams, []);
      assert Flat(s.streams) + [] == Flat(s.streams);
    case ShutDown =>
    case SetMax(max) =>
  }

  /** Order and accounting hold in every interleaving: frames are attempted in posting order across reconnects, and each posted
      frame is sent, lost, in flight or queued, with its bytes in the queue size until it is sent. */
  lemma {:induction false} RunKeeps(s: Tx, steps: seq<Step>)
    requires ValidTx(s) && AllPossible(s, steps)
    ensures ValidTx(RunTx(s, steps))
    decreases |steps|
  {
    hide ValidTx, NextTx, Possible;
    if steps != [] {
      StepKeeps(s, steps[0]);
      RunKeeps(NextTx(s, steps[0]), steps[1..]);
    }
  }

  /** On a run without failed writes the queue size is the pending bytes alone. */
  lemma {:induction false} NothingLost(s: Tx, steps: seq<Step>)
    requires ValidTx(s) && s.lost == [] && AllPossible(s, steps)
    requires forall a :: a in steps ==> !a.WriteFailed?
    ensures var t := RunTx(s, steps);
            t.lost == [] && t.size == |Flat(t.wqueue)| + |Flat(Writers(t.loops))|
    decreases |steps|
  {
    if steps != [] {
      assert steps[0] in steps;
      StepKeeps(s, steps[0]);
      hide ValidTx;
      NothingLost(NextTx(s, steps[0]), steps[1..]);
    }
  }

  // ---- One writer at a time ----------------------------------------------------------------------

  predicate Failing(p: Phase) {
    (p.Checking? || p.Finishing?) && p.failed
  }

  /** A loop whose write failed has not finished yet. */
  ghost predicate WindingDown(s: Tx) {
    exists i :: 0 <= i < |s.loops| && Failing(s.loops[i])
  }

  /** A loop that has not ended and has had no failed write. */
  predicate Working(p: Phase) {
    !p.Done? && !Failing(p)
  }

  /** At most the last loop is alive. The flag is set exactly while it works; after a failed write the connection is down. */
  ghost predicate OneLoop(s: Tx) {
    && (forall i :: 0 <= i < |s.loops| - 1 ==> s.loops[i].Done?)
    && (s.transmitting <==> s.loops != [] && Working(s.loops[|s.loops| - 1]))
    && (s.loops != [] && Failing(s.loops[|s.loops| - 1]) ==> !s.connected)
  }

  /** No reconnect completes while a failed loop is still winding down. */
  ghost predicate Disciplined(s: Tx, steps: seq<Step>)
    decreases |steps|
  {
    steps == [] || (Possible(s, steps[0]) && (steps[0].Connected? ==> !WindingDown(s)) &&
                    Disciplined(NextTx(s, steps[0]), steps[1..]))
  }

  lemma {:induction false} DisciplinedPossible(s: Tx, steps: seq<Step>)
    requires Disciplined(s, steps)
    ensures AllPossible(s, steps)
    decreases |steps|
  {
    hide NextTx, Possible, WindingDown;
    if steps != [] {
      DisciplinedPossible(NextTx(s, steps[0]), steps[1..]);
    }
  }

  lemma DisciplinedStep(s: Tx, a: Step)
    requires OneLoop(s) && Possible(s, a) && (a.Connected? ==> !WindingDown(s))
    ensures OneLoop(NextTx(s, a))
  {
    hide Stamp;
    if a.Connected? && s.loops != [] {
      assert !Failing(s.loops[|s.loops| - 1]);
    }
  }

  lemma {:induction false} OneLoopOneWriter(loops: seq<Phase>)
    requires forall i :: 0 <= i < |loops| - 1 ==> loops[i].Done?
    ensures |Writers(loops)| <= 1
  {
    if |loops| > 1 {
      OneLoopOneWriter(loops[1..]);
    } else if |loops| == 1 {
      assert loops[1..] == [];
    }
  }

  /** Single writer: when reconnects wait for a failed loop to finish, at most one write is outstanding at any time. */
  lemma {:induction false} SingleWriter(s: Tx, steps: seq<Step>)
    requires OneLoop(s) && Disciplined(s, steps)
    ensures AllPossible(s, steps)
    ensures OneLoop(RunTx(s, steps)) && |Writers(RunTx(s, steps).loops)| <= 1
    decreases |steps|
  {
    DisciplinedPossible(s, steps);
    if steps == [] {
      OneLoopOneWriter(s.loops);
    } else {
      hide OneLoop, NextTx, WindingDown;
      DisciplinedStep(s, steps[0]);
      SingleWriter(NextTx(s, steps[0]), steps[1..]);
    }
  }

  /** Whatever disciplined steps follow, no two writes are outstanding together. */
  ghost predicate Safe(s: Tx) {
    forall steps :: Disciplined(s, steps) ==> OutstandingAfter(s, steps) <= 1
  }

  ghost function OutstandingAfter(s: Tx, steps: seq<Step>): nat {
    if AllPossible(s, steps) then |Writers(RunTx(s, steps).loops)| else 0
  }

  /** Nothing starts a write once the shutdown flag is set. */
  lemma {:induction false} ShutDownSafe(s: Tx, steps: seq<Step>)
    requires s.shuttingDown
    ensures OutstandingAfter(s, steps) <= |Writers(s.loops)|
    decreases |steps|
  {
    if steps != [] && Possible(s, steps[0]) {
      var a := steps[0];
      hide Writers, StartWrite, Post;
      if a.WriteDone? || a.WriteFailed? || a.CheckStop? || a.Finally? {
        WritersReplaced(s.loops, a.loop, NextTx(s, a).loops[a.loop]);
      }
      assert |Writers(NextTx(s, a).loops)| <= |Writers(s.loops)|;
      ShutDownSafe(NextTx(s, a), steps[1..]);
    }
  }

  const PACKET: Frame := [0, 0, 0, 0]

  /** After a reconnect the next `send` starts a second loop beside the failed one; that one then takes a frame itself, or
      clears the flag of the new loop so that another `send` starts a third. */
  function Overlap(s: Tx): seq<Step>
    requires s.loops != []
  {
    var i := |s.loops| - 1;
    if s.loops[i].Checking? then [SetMax(0), SendStep(PACKET), SendStep(PACKET), CheckStop(i)]
    else [SetMax(0), SendStep(PACKET), Finally(i), SendStep(PACKET)]
  }

  lemma TwoWriters(loops: seq<Phase>, i: nat, j: nat)
    requires i < j < |loops| && loops[i].Writing? && loops[j].Writing?
    ensures |Writers(loops)| >= 2
  {
    var a, b, c := loops[..i], loops[i + 1..j], loops[j + 1..];
    assert loops == a + [loops[i]] + (b + [loops[j]] + c);
    WritersAt(a, loops[i], b + [loops[j]] + c);
    WritersAt(b, loops[j], c);
  }

  lemma RunFour(s: Tx, steps: seq<Step>)
    requires |steps| == 4
    requires forall a :: a in steps ==> !a.Connected?
    requires Possible(s, steps[0]) && Possible(NextTx(s, steps[0]), steps[1])
    requires var t := NextTx(NextTx(s, steps[0]), steps[1]);
             Possible(t, steps[2]) && Possible(NextTx(t, steps[2]), steps[3])
    ensures Disciplined(s, steps) && AllPossible(s, steps)
    ensures RunTx(s, steps) == NextTx(NextTx(NextTx(NextTx(s, steps[0]), steps[1]), steps[2]), steps[3])
  {
    hide NextTx, Possible, WindingDown;
    var s1 := NextTx(s, steps[0]);
    var s2 := NextTx(s1, steps[1]);
    var s3 := NextTx(s2, steps[2]);
    var s4 := NextTx(s3, steps[3]);
    var r1, r2, r3 := steps[1..], steps[2..], steps[3..];
    assert r1[1..] == r2 && r2[1..] == r3 && r3[1..] == [];
    assert steps[0] in steps && steps[1] in steps && steps[2] in steps && steps[3] in steps;
    assert Disciplined(s4, []) && RunTx(s4, []) == s4;
    assert Disciplined(s3, r3) && AllPossible(s3, r3) && RunTx(s3, r3) == s4;
    assert Disciplined(s2, r2) && AllPossible(s2, r2) && RunTx(s2, r2) == s4;
    assert Disciplined(s1, r1) && AllPossible(s1, r1) && RunTx(s1, r1) == s4;
  }

  lemma OverlapWrites(s: Tx)
    requires OneLoop(s) && WindingDown(s) && !s.shuttingDown
    ensures var t := NextTx(s, Connected);
            Disciplined(t, Overlap(s)) && OutstandingAfter(t, Overlap(s)) >= 2
  {
    hide Writers, Stamp;
    var i := |s.loops| - 1;
    var t0 := NextTx(s, Connected);
    var steps := Overlap(s);
    var t1 := NextTx(t0, steps[0]);
    var t2 := NextTx(t1, steps[1]);
    var t3 := NextTx(t2, steps[2]);
    var t4 := NextTx(t3, steps[3]);
    RunFour(t0, steps);
    TwoWriters(t4.loops, if s.loops[i].Checking? then i else i + 1, if s.loops[i].Checking? then i + 1 else i + 2);
  }

  const FAILURE := [Connected, SendStep(PACKET), WriteFailed(0, 0)]

  /** A first write that fails is enough: before its loop has finished, a reconnect lets two further sends overlap. */
  lemma OverlapFromIdle()
    ensures AllPossible(IDLE, FAILURE)
    ensures var s := RunTx(IDLE, FAILURE);
            && OneLoop(s) && WindingDown(s) && !s.shuttingDown
            && OutstandingAfter(NextTx(s, Connected), Overlap(s)) >= 2
  {
    var s1 := NextTx(IDLE, Connected);
    var s2 := NextTx(s1, SendStep(PACKET));
    var s3 := NextTx(s2, WriteFailed(0, 0));
    assert s2.loops == [Writing(Stamp(PACKET), 1)];
    RunThree(IDLE, FAILURE);
    assert Failing(s3.loops[0]);
    OverlapWrites(s3);
  }

  lemma RunThree(s: Tx, steps: seq<Step>)
    requires |steps| == 3
    requires Possible(s, steps[0]) && Possible(NextTx(s, steps[0]), steps[1])
    requires Possible(NextTx(NextTx(s, steps[0]), steps[1]), steps[2])
    ensures AllPossible(s, steps)
    ensures RunTx(s, steps) == NextTx(NextTx(NextTx(s, steps[0]), steps[1]), steps[2])
  {
    hide NextTx, Possible;
    var s1 := NextTx(s, steps[0]);
    var s2 := NextTx(s1, steps[1]);
    var s3 := NextTx(s2, steps[2]);
    var r1, r2 := steps[1..], steps[2..];
    assert r1[1..] == r2 && r2[1..] == [];
    assert AllPossible(s3, []) && RunTx(s3, []) == s3;
    assert AllPossible(s2, r2) && RunTx(s2, r2) == s3;
    assert AllPossible(s1, r1) && RunTx(s1, r1) == s3;
  }

  /** A reconnect is safe exactly when no failed loop is still winding down, or nothing is sent any more. */
  lemma ReconnectSafeIff(s: Tx)
    requires OneLoop(s)
    ensures Safe(NextTx(s, Connected)) <==> !WindingDown(s) || s.shuttingDown
  {
    var t := NextTx(s, Connected);
    if s.shuttingDown {
      forall steps | Disciplined(t, steps) ensures OutstandingAfter(t, steps) <= 1 {
        ShutDownSafe(t, steps);
        OneLoopOneWriter(s.loops);
      }
    } else if WindingDown(s) {
      OverlapWrites(s);
    } else {
      DisciplinedStep(s, Connected);
      forall steps | Disciplined(t, steps) ensures OutstandingAfter(t, steps) <= 1 {
        SingleWriter(t, steps);
      }
    }
  }

  lemma IdleValid()
    ensures ValidTx(IDLE) && OneLoop(IDLE)
  {
    WritersNone();
  }

  // ---- What each connection takes ----------------------------------------------------------------

  ghost predicate NoWriterOn(loops: seq<Phase>, c: nat) {
    forall i :: 0 <= i < |loops| && loops[i].Writing? ==> loops[i].stream != c
  }

  /** A connection has taken the frames started on it but for the end of the last one: while a write is outstanding that frame
      is still to come, and the open connection owes nothing else. */
  ghost predicate OnWire(s: Tx) {
    && |s.wires| == |s.streams| >= 1
    && (forall c :: 0 <= c < |s.wires| ==> s.wires[c] <= Flat(s.streams[c]))
    && (forall i :: 0 <= i < |s.loops| && s.loops[i].Writing? ==>
          var c := s.loops[i].stream;
          c < |s.wires| && s.wires[c] + s.loops[i].frame == Flat(s.streams[c]))
    && (s.connected && NoWriterOn(s.loops, |s.wires| - 1) ==> s.wires[|s.wires| - 1] == Flat(s.streams[|s.wires| - 1]))
  }

  ghost predicate NoWriter(loops: seq<Phase>) {
    forall i :: 0 <= i < |loops| ==> !loops[i].Writing?
  }

  lemma PrefixTakes(wire: seq<Byte>, frame: seq<Byte>, n: nat, all: seq<Byte>)
    requires wire + frame == all && n <= |frame|
    ensures wire + frame[..n] <= all
  {
    assert frame == frame[..n] + frame[n..];
    Assoc(wire, frame[..n], frame[n..]);
  }

  lemma StartOnWire(s: Tx, i: nat)
    requires OnWire(s) && s.connected && s.wqueue != [] && NoWriter(s.loops) && i <= |s.loops|
    ensures OnWire(StartWrite(s, i))
  {
    hide Flat;
    var t, last := StartWrite(s, i), |s.wires| - 1;
    FlatSnoc(s.streams[last], s.wqueue[0]);
    assert t.streams[last] == s.streams[last] + [s.wqueue[0]];
    assert t.loops[i] == Writing(s.wqueue[0], last);
    assert forall j :: 0 <= j < |t.loops| && j != i ==> t.loops[j] == s.loops[j];
  }

  /** Queueing and other steps that touch neither streams nor writes. */
  lemma SameOnWire(s: Tx, t: Tx)
    requires OnWire(s) && t.streams == s.streams && t.wires == s.wires && (t.connected ==> s.connected)
    requires |t.loops| == |s.loops|
    requires forall i :: 0 <= i < |s.loops| ==> t.loops[i] == s.loops[i] || (!s.loops[i].Writing? && !t.loops[i].Writing?)
    ensures OnWire(t)
  {
    hide Flat;
    if NoWriterOn(t.loops, |s.wires| - 1) {
      assert NoWriterOn(s.loops, |s.wires| - 1);
    }
  }

  /** The only write ends, whole or cut off. */
  lemma EndOnWire(s: Tx, i: nat, n: nat, t: Tx)
    requires OnWire(s) && OneLoop(s) && i < |s.loops| && s.loops[i].Writing? && n <= |s.loops[i].frame|
    requires t.streams == s.streams && t.wires == AddTo(s.wires, s.loops[i].stream, s.loops[i].frame[..n])
    requires |t.loops| == |s.loops| && NoWriter(t.loops)
    requires t.connected ==> s.connected && n == |s.loops[i].frame|
    ensures OnWire(t)
  {
    hide Flat;
    var c, frame := s.loops[i].stream, s.loops[i].frame;
    PrefixTakes(s.wires[c], frame, n, Flat(s.streams[c]));
    assert frame[..|frame|] == frame;
    if t.connected && c != |s.wires| - 1 {
      forall j | 0 <= j < |s.loops| && s.loops[j].Writing? ensures s.loops[j].stream != |s.wires| - 1 {
        assert j == i;
      }
    }
  }

  lemma IdleNoWriter(s: Tx)
    requires OneLoop(s) && s.connected && !s.transmitting
    ensures NoWriter(s.loops)
  {
  }

  lemma AloneNoWriter(s: Tx, i: nat, p: Phase)
    requires OneLoop(s) && i < |s.loops| && !s.loops[i].Done? && !p.Writing?
    ensures NoWriter(s.loops[i := p])
  {
  }

  lemma ConnectedOnWire(s: Tx)
    requires OnWire(s)
    ensures OnWire(NextTx(s, Connected))
  {
    WritersNone();
    hide Flat;
    var t := NextTx(s, Connected);
    forall i | 0 <= i < |t.loops| && t.loops[i].Writing?
      ensures t.loops[i].stream < |t.wires| && t.wires[t.loops[i].stream] + t.loops[i].frame == Flat(t.streams[t.loops[i].stream])
    {
      assert t.wires[s.loops[i].stream] == s.wires[s.loops[i].stream];
    }
  }

  lemma StepOnWire(s: Tx, a: Step)
    requires OnWire(s) && OneLoop(s) && Possible(s, a)
    ensures OnWire(NextTx(s, a))
  {
    hide Flat, OnWire, OneLoop, Stamp, StartWrite, NoWriter, AddTo;
    var t := NextTx(s, a);
    match a
    case SendStep(bytes) =>
      if !Full(s, bytes) && !s.shuttingDown && s.connected {
        SameOnWire(s, Post(s, bytes));
        if !s.transmitting {
          IdleNoWriter(s);
          StartOnWire(Post(s, bytes), |s.loops|);
        }
      } else {
        SameOnWire(s, t);
      }
    case WriteDone(i) =>
      AloneNoWriter(s, i, Checking(false));
      assert s.loops[i].frame[..|s.loops[i].frame|] == s.loops[i].frame;
      EndOnWire(s, i, |s.loops[i].frame|, t);
    case WriteFailed(i, taken) =>
      AloneNoWriter(s, i, Checking(true));
      EndOnWire(s, i, Min(taken, |s.loops[i].frame|), t);
    case CheckStop(i) =>
      if Stops(s) {
        SameOnWire(s, t);
      } else {
        AloneNoWriter(s, i, s.loops[i]);
        assert s.loops[i := s.loops[i]] == s.loops;
        StartOnWire(s, i);
      }
    case Finally(i) => SameOnWire(s, t);
    case Connected => ConnectedOnWire(s);
    case ShutDown => SameOnWire(s, t);
    case SetMax(max) => SameOnWire(s, t);
  }

  lemma IdleOnWire()
    ensures OnWire(IDLE)
  {
    WritersNone();
  }

  /** As long as writes do not overlap, every connection takes a prefix of the frames started on it, in order. */
  lemma {:induction false} RunOnWire(s: Tx, steps: seq<Step>)
    requires OnWire(s) && OneLoop(s) && Disciplined(s, steps)
    ensures AllPossible(s, steps) && OnWire(RunTx(s, steps))
    decreases |steps|
  {
    hide OneLoop, OnWire, NextTx, WindingDown;
    DisciplinedPossible(s, steps);
    if steps != [] {
      DisciplinedStep(s, steps[0]);
      StepOnWire(s, steps[0]);
      RunOnWire(NextTx(s, steps[0]), steps[1..]);
    }
  }

  // ---- After the end -----------------------------------------------------------------------------

  /** Once the shutdown flag is set, nothing is posted and no write is started. */
  lemma {:induction false} NothingAfterShutDown(s: Tx, steps: seq<Step>)
    requires s.shuttingDown && AllPossible(s, steps)
    ensures var t := RunTx(s, steps);
            t.attempted == s.attempted && t.accepted == s.accepted && t.wqueue == s.wqueue && t.shuttingDown
    decreases |steps|
  {
    hide Post, StartWrite;
    if steps != [] {
      NothingAfterShutDown(NextTx(s, steps[0]), steps[1..]);
    }
  }

  lemma PostReady(s: Tx, bytes: seq<Byte>)
    requires |bytes| >= 4
    ensures var t := Post(s, bytes);
            t.wqueue != [] && t.connected == s.connected && t.transmitting == s.transmitting &&
            t.shuttingDown == s.shuttingDown
  {
  }

  // ---- The class ---------------------------------------------------------------------------------

  /** The reactor's view of the object: `loops` are the futures it still has to run, `streams` and `wires` what has become of
      `_out`, one entry for each connection. A `temporary_buffer` is moved, never
      shared, so it is a value here. */
  class SeastarIO {
    var wqueue: seq<Frame>
    var loops: seq<Phase>
    var connected: bool
    var transmitting: bool
    var shuttingDown: bool
    var queueMaxSize: nat
    var queueSize: nat
    var logPostedCnt: nat
    var logDroppedCnt: nat
    var logSentCnt: nat
    var streams: seq<seq<Frame>>
    var wires: seq<seq<Byte>>
    ghost var accepted: seq<Frame>
    ghost var attempted: seq<Frame>
    ghost var lost: seq<Frame>

    ghost function Abs(): Tx
      reads this
    {
      Tx(wqueue, loops, connected, transmitting, shuttingDown, queueMaxSize, queueSize, logPostedCnt, logDroppedCnt,
         logSentCnt, accepted, attempted, lost, streams, wires)
    }

    constructor ()
      ensures Abs() == IDLE && ValidTx(Abs()) && OneLoop(Abs())
    {
      wqueue, loops, connected, transmitting, shuttingDown := [], [], false, false, false;
      queueMaxSize, queueSize, logPostedCnt, logDroppedCnt, logSentCnt := 0, 0, 0, 0, 0;
      accepted, attempted, lost, streams, wires := [], [], [], [[]], [[]];
      new;
      IdleValid();
    }

    method Send(buffer: seq<Byte>)
      requires ValidTx(Abs()) && |buffer| >= 4
      modifies this
      ensures Abs() == NextTx(old(Abs()), SendStep(buffer)) && ValidTx(Abs())
    {
      hide Flat, Writers, ValidTx, Post, StartWrite;
      StepKeeps(Abs(), SendStep(buffer));
      PostReady(Abs(), buffer);
      if queueMaxSize != 0 && queueSize + |buffer| > queueMaxSize {
        logDroppedCnt := logDroppedCnt + 1;
        return;
      }
      if shuttingDown || !connected {
        return;
      }
      Enqueue(buffer);
      if transmitting || !connected {
        return;
      }
      StartLoop();
    }

    method Enqueue(buffer: seq<Byte>)
      requires |buffer| >= 4
      modifies this`logPostedCnt, this`queueSize, this`wqueue, this`accepted
      ensures Abs() == Post(old(Abs()), buffer)
    {
      logPostedCnt := logPostedCnt + 1;
      var frame := U32((|buffer| - 4) % TWO_32) + buffer[4..];
      queueSize := queueSize + |frame|;
      wqueue := wqueue + [frame];
      accepted := accepted + [frame];
    }

    method StartLoop()
      requires !Stops(Abs())
      modifies this
      ensures Abs() == StartWrite(old(Abs()), |old(loops)|)
    {
      transmitting := true;
      loops := loops + [Checking(false)];
      Turn(|loops| - 1);
    }

    /** One turn of `do_until`: its condition, then its action. */
    method Turn(loop: nat)
      requires loop < |loops| && loops[loop].Checking?
      modifies this
      ensures Abs() == NextTx(old(Abs()), CheckStop(loop))
    {
      hide OnLast, LastOf;
      if wqueue == [] || !connected || shuttingDown {
        loops := loops[loop := Finishing(loops[loop].failed)];
      } else {
        transmitting := true;
        var buf := wqueue[0];
        wqueue := wqueue[1..];
        attempted := attempted + [buf];
        loops := loops[loop := Writing(buf, LastOf(streams))];
        streams := OnLast(streams, buf);
      }
    }

    method WriteSucceeded(loop: nat)
      requires ValidTx(Abs()) && loop < |loops| && loops[loop].Writing?
      modifies this`queueSize, this`logSentCnt, this`loops, this`wires
      ensures Abs() == NextTx(old(Abs()), WriteDone(loop)) && ValidTx(Abs())
    {
      hide Flat, Writers;
      StepKeeps(Abs(), WriteDone(loop));
      var bufsize := |loops[loop].frame|;
      queueSize := queueSize - if bufsize >= queueSize then queueSize else bufsize;
      logSentCnt := logSentCnt + 1;
      wires := AddTo(wires, loops[loop].stream, loops[loop].frame);
      loops := loops[loop := Checking(false)];
    }

    /** The exception handler of a write, of which the connection took `taken` bytes at most. */
    method WriteThrew(loop: nat, taken: nat)
      requires ValidTx(Abs()) && loop < |loops| && loops[loop].Writing?
      modifies this`transmitting, this`connected, this`loops, this`lost, this`wires
      ensures Abs() == NextTx(old(Abs()), WriteFailed(loop, taken)) && ValidTx(Abs())
    {
      hide Flat, Writers;
      StepKeeps(Abs(), WriteFailed(loop, taken));
      transmitting, connected := false, false;
      lost := lost + [loops[loop].frame];
      wires := AddTo(wires, loops[loop].stream, loops[loop].frame[..Min(taken, |loops[loop].frame|)]);
      loops := loops[loop := Checking(true)];
    }

    method LoopEnded(loop: nat)
      requires ValidTx(Abs()) && loop < |loops| && loops[loop].Finishing?
      modifies this`transmitting, this`loops
      ensures !transmitting && loops == old(loops)[loop := Done]
      ensures Abs() == NextTx(old(Abs()), Finally(loop)) && ValidTx(Abs())
    {
      StepKeeps(Abs(), Finally(loop));
      transmitting := false;
      loops := loops[loop := Done];
    }

    /** The socket and both streams are replaced: later writes go to a stream of their own. */
    method InitializeConnectedSocket()
      requires ValidTx(Abs())
      modifies this`connected, this`streams, this`wires
      ensures connected && wires == old(wires) + [[]]
      ensures Abs() == NextTx(old(Abs()), Connected) && ValidTx(Abs())
    {
      StepKeeps(Abs(), Connected);
      streams, wires := streams + [[]], wires + [[]];
      connected := true;
    }

    /** The continuation of `disconnect`. */
    method FinishDisconnect()
      modifies this`shuttingDown
      ensures shuttingDown
      ensures Abs() == NextTx(old(Abs()), ShutDown)
    {
      shuttingDown := true;
    }

    method SetQueueMaxSize(max: nat)
      modifies this`queueMaxSize
      ensures queueMaxSize == max
      ensures Abs() == NextTx(old(Abs()), SetMax(max))
    {
      queueMaxSize := max;
    }
  }
}
