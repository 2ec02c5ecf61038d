/** What `SeastarIO` does with a frame it is offered, and that it can always send what its loop has in hand. */
module SeastarProgress {
  import opened Bytes
  import opened Sequences
  import opened PosixQueue
  import opened SeastarIOs

  // ---- Offering a frame --------------------------------------------------------------------------

  /** All bytes the queue size counts: queued, being written, and lost with a failed write. */
  ghost function Counted(s: Tx): nat {
    |Flat(s.wqueue)| + |Flat(Writers(s.loops))| + |Flat(s.lost)|
  }

  /** A frame is dropped exactly when it does not fit the limit beside the bytes counted already; otherwise it is posted exactly
      on an open connection that is not being shut down. */
  lemma SendOutcome(s: Tx, bytes: seq<Byte>)
    requires ValidTx(s) && |bytes| >= 4
    ensures var t := NextTx(s, SendStep(bytes));
            if s.maxSize != 0 && Counted(s) + |bytes| > s.maxSize then t == s.(dropped := s.dropped + 1)
            else if s.connected && !s.shuttingDown then
              t.accepted == s.accepted + [Stamp(bytes)] && t.dropped == s.dropped && Counted(t) == Counted(s) + |bytes|
            else t == s
  {
    hide Stamp, Flat, Writers;
    StepKeeps(s, SendStep(bytes));
  }

  /** With no loop alive, a frame that is posted leaves exactly one write outstanding, of the frame at the front. */
  lemma SendStarts(s: Tx, bytes: seq<Byte>)
    requires OneLoop(s) && |bytes| >= 4 && !Full(s, bytes) && s.connected && !s.shuttingDown
    requires s.loops == [] || s.loops[|s.loops| - 1].Done?
    ensures var t, queue := NextTx(s, SendStep(bytes)), s.wqueue + [Stamp(bytes)];
            && t.loops == s.loops + [Writing(queue[0], LastOf(s.streams))]
            && t.wqueue == queue[1..]
            && Writers(t.loops) == [queue[0]]
  {
    hide Stamp, Writers;
    var t, queue := NextTx(s, SendStep(bytes)), s.wqueue + [Stamp(bytes)];
    NoneWriting(s.loops);
    WritersAt(s.loops, Writing(queue[0], LastOf(s.streams)), []);
    WritersNone();
    assert t.loops == s.loops + [Writing(queue[0], LastOf(s.streams))] + [];
    assert [] + [queue[0]] + [] == [queue[0]];
  }

  lemma {:induction false} NoneWriting(loops: seq<Phase>)
    requires forall i :: 0 <= i < |loops| ==> loops[i].Done?
    ensures Writers(loops) == []
  {
    if loops != [] {
      NoneWriting(loops[1..]);
    }
  }

  /** On disciplined runs the flag is set exactly while the last loop has neither ended nor failed. */
  lemma FlagIff(steps: seq<Step>)
    requires Disciplined(IDLE, steps)
    ensures AllPossible(IDLE, steps)
    ensures var t := RunTx(IDLE, steps);
            t.transmitting <==> t.loops != [] && Working(t.loops[|t.loops| - 1])
  {
    IdleValid();
    SingleWriter(IDLE, steps);
  }

  // ---- The limit ---------------------------------------------------------------------------------

  /** While a limit is set and not changed, the queue size stays within it. */
  lemma {:induction false} QuotaHolds(s: Tx, steps: seq<Step>)
    requires ValidTx(s) && AllPossible(s, steps) && forall a :: a in steps ==> !a.SetMax?
    requires s.maxSize != 0 && s.size <= s.maxSize
    ensures var t := RunTx(s, steps);
            t.size <= t.maxSize == s.maxSize && Counted(t) == t.size
    decreases |steps|
  {
    hide ValidTx, NextTx, Possible;
    if steps == [] {
      SizeCounts(s);
    } else {
      assert steps[0] in steps;
      StepKeeps(s, steps[0]);
      QuotaStep(s, steps[0]);
      QuotaHolds(NextTx(s, steps[0]), steps[1..]);
    }
  }

  lemma SizeCounts(s: Tx)
    requires ValidTx(s)
    ensures Counted(s) == s.size
  {
  }

  lemma QuotaStep(s: Tx, a: Step)
    requires Possible(s, a) && !a.SetMax? && s.maxSize != 0 && s.size <= s.maxSize
    ensures NextTx(s, a).size <= NextTx(s, a).maxSize == s.maxSize
  {
    hide Stamp;
  }

  // ---- Emptying the queue ------------------------------------------------------------------------

  /** The loop is able to take the next frame: it writes one, or is about to test its stop condition. */
  ghost predicate LoopGoesOn(s: Tx) {
    s.loops != [] && var p := s.loops[|s.loops| - 1]; p.Writing? || p.Checking?
  }

  /** Every write of loop `i` succeeds, until nothing is queued. */
  function WriteAll(i: nat, queued: nat): seq<Step> {
    [WriteDone(i), CheckStop(i)] + if queued == 0 then [Finally(i)] else WriteAll(i, queued - 1)
  }

  function EmptyingSteps(s: Tx): seq<Step>
    requires s.loops != []
  {
    var i := |s.loops| - 1;
    if s.loops[i].Writing? then WriteAll(i, |s.wqueue|)
    else [CheckStop(i)] + if s.wqueue == [] then [Finally(i)] else WriteAll(i, |s.wqueue| - 1)
  }

  /** All queued frames have been written after those attempted before, none of them was lost, and the loop has ended. */
  ghost predicate Emptied(s: Tx, t: Tx) {
    && t.wqueue == [] && t.attempted == s.attempted + s.wqueue && t.accepted == s.accepted && t.lost == s.lost
    && t.connected && !t.transmitting && NoWriter(t.loops)
  }

  ghost predicate NoSend(steps: seq<Step>) {
    forall a :: a in steps ==> !a.SendStep?
  }

  /** What `steps` lead to, when they can be taken. */
  ghost predicate Leads(s: Tx, steps: seq<Step>, t: Tx) {
    NoSend(steps) && Disciplined(s, steps) && AllPossible(s, steps) && RunTx(s, steps) == t
  }

  lemma LeadsNowhere(s: Tx)
    ensures Leads(s, [], s)
  {
  }

  lemma LeadsFirst(s: Tx, a: Step, rest: seq<Step>, t: Tx)
    requires Possible(s, a) && !a.SendStep? && !a.Connected? && Leads(NextTx(s, a), rest, t)
    ensures Leads(s, [a] + rest, t)
  {
    hide Possible, NextTx, WindingDown;
    assert ([a] + rest)[1..] == rest;
  }

  /** A loop that stops ends at once. */
  lemma StopEmptied(s: Tx)
    requires OneLoop(s) && s.connected && s.wqueue == [] && s.loops != []
    requires s.loops[|s.loops| - 1].Checking?
    ensures exists t :: Leads(s, [CheckStop(|s.loops| - 1), Finally(|s.loops| - 1)], t) && Emptied(s, t)
  {
    hide Leads;
    var i := |s.loops| - 1;
    var s1 := NextTx(s, CheckStop(i));
    var t := NextTx(s1, Finally(i));
    LeadsNowhere(t);
    LeadsFirst(s1, Finally(i), [], t);
    assert [Finally(i)] + [] == [Finally(i)];
    LeadsFirst(s, CheckStop(i), [Finally(i)], t);
    assert [CheckStop(i)] + [Finally(i)] == [CheckStop(i), Finally(i)];
    assert s.attempted + s.wqueue == s.attempted;
    assert Emptied(s, t);
  }

  lemma {:induction false} WriteAllEmpties(s: Tx) returns (t: Tx)
    requires OneLoop(s) && s.connected && !s.shuttingDown && s.loops != [] && s.loops[|s.loops| - 1].Writing?
    ensures Leads(s, WriteAll(|s.loops| - 1, |s.wqueue|), t) && Emptied(s, t)
    decreases |s.wqueue|
  {
    hide Leads, Emptied, OneLoop, WriteAll;
    var i := |s.loops| - 1;
    var s1 := Written(s);
    if s.wqueue == [] {
      StopEmptied(s1);
      t :| Leads(s1, [CheckStop(i), Finally(i)], t) && Emptied(s1, t);
      LeadsFirst(s, WriteDone(i), [CheckStop(i), Finally(i)], t);
    } else {
      var s2 := NextTaken(s1);
      t := WriteAllEmpties(s2);
      LeadsFirst(s1, CheckStop(i), WriteAll(i, |s2.wqueue|), t);
      LeadsFirst(s, WriteDone(i), [CheckStop(i)] + WriteAll(i, |s2.wqueue|), t);
      EmptiedEarlier(s1, s2, t);
    }
    EmptiedWritten(s, s1, t);
    WriteAllSteps(i, |s.wqueue|);
  }

  lemma WriteAllSteps(i: nat, queued: nat)
    ensures WriteAll(i, queued) ==
            if queued == 0 then [WriteDone(i)] + [CheckStop(i), Finally(i)]
            else [WriteDone(i)] + ([CheckStop(i)] + WriteAll(i, queued - 1))
  {
  }

  lemma Written(s: Tx) returns (t: Tx)
    requires OneLoop(s) && s.connected && !s.shuttingDown && s.loops != [] && s.loops[|s.loops| - 1].Writing?
    ensures Possible(s, WriteDone(|s.loops| - 1)) && t == NextTx(s, WriteDone(|s.loops| - 1))
    ensures OneLoop(t) && t.connected && !t.shuttingDown && t.wqueue == s.wqueue && |t.loops| == |s.loops|
    ensures t.loops[|s.loops| - 1].Checking?
    ensures t.attempted == s.attempted && t.accepted == s.accepted && t.lost == s.lost
  {
    t := NextTx(s, WriteDone(|s.loops| - 1));
  }

  lemma NextTaken(s: Tx) returns (t: Tx)
    requires OneLoop(s) && s.connected && !s.shuttingDown && s.wqueue != []
    requires s.loops != [] && s.loops[|s.loops| - 1].Checking?
    ensures Possible(s, CheckStop(|s.loops| - 1)) && t == NextTx(s, CheckStop(|s.loops| - 1))
    ensures OneLoop(t) && t.connected && !t.shuttingDown && t.wqueue == s.wqueue[1..] && |t.loops| == |s.loops|
    ensures t.loops[|s.loops| - 1].Writing?
    ensures t.attempted == s.attempted + [s.wqueue[0]] && t.accepted == s.accepted && t.lost == s.lost
  {
    t := NextTx(s, CheckStop(|s.loops| - 1));
    DisciplinedStep(s, CheckStop(|s.loops| - 1));
  }

  lemma EmptiedEarlier(s: Tx, s1: Tx, t: Tx)
    requires Emptied(s1, t) && s.wqueue != [] && s1.wqueue == s.wqueue[1..]
    requires s1.attempted == s.attempted + [s.wqueue[0]] && s1.accepted == s.accepted && s1.lost == s.lost
    ensures Emptied(s, t)
  {
    hide NoWriter;
    Assoc(s.attempted, [s.wqueue[0]], s.wqueue[1..]);
    assert s.wqueue == [s.wqueue[0]] + s.wqueue[1..];
  }

  lemma EmptiedWritten(s: Tx, s1: Tx, t: Tx)
    requires Emptied(s1, t) && s1.wqueue == s.wqueue
    requires s1.attempted == s.attempted && s1.accepted == s.accepted && s1.lost == s.lost
    ensures Emptied(s, t)
  {
    hide NoWriter;
  }

  /** An open connection whose loop goes on can send everything queued, in order and without another `send`. */
  lemma CanEmpty(s: Tx) returns (t: Tx)
    requires OneLoop(s) && s.connected && !s.shuttingDown && LoopGoesOn(s)
    ensures Leads(s, EmptyingSteps(s), t) && Emptied(s, t)
  {
    hide Leads, Emptied, OneLoop, WriteAll;
    var i := |s.loops| - 1;
    if s.loops[i].Writing? {
      t := WriteAllEmpties(s);
    } else if s.wqueue == [] {
      StopEmptied(s);
      t :| Leads(s, [CheckStop(i), Finally(i)], t) && Emptied(s, t);
      assert [CheckStop(i)] + [Finally(i)] == [CheckStop(i), Finally(i)];
    } else {
      var s1 := NextTaken(s);
      t := WriteAllEmpties(s1);
      LeadsFirst(s, CheckStop(i), WriteAll(i, |s1.wqueue|), t);
      EmptiedEarlier(s, s1, t);
    }
  }

  /** No step but `send` starts a loop. */
  lemma {:induction false} NothingRestarts(s: Tx, steps: seq<Step>)
    requires OneLoop(s) && !LoopGoesOn(s) && NoSend(steps) && Disciplined(s, steps)
    ensures AllPossible(s, steps) && RunTx(s, steps).wqueue == s.wqueue
    decreases |steps|
  {
    DisciplinedPossible(s, steps);
    if steps != [] {
      hide OneLoop, NextTx, WindingDown, LoopGoesOn;
      assert steps[0] in steps && forall a :: a in steps[1..] ==> a in steps;
      DisciplinedStep(s, steps[0]);
      StaysStopped(s, steps[0]);
      NothingRestarts(NextTx(s, steps[0]), steps[1..]);
    }
  }

  lemma StaysStopped(s: Tx, a: Step)
    requires OneLoop(s) && !LoopGoesOn(s) && !a.SendStep? && Possible(s, a)
    ensures !LoopGoesOn(NextTx(s, a)) && NextTx(s, a).wqueue == s.wqueue
  {
  }

  /** What is queued on an open connection can be sent without another `send` exactly when the loop has not stopped: a frame
      posted between the stop condition and the end of the loop waits for the next one. */
  lemma EmptiesIff(s: Tx)
    requires OneLoop(s) && s.connected && !s.shuttingDown && s.wqueue != []
    ensures (exists steps, t :: Leads(s, steps, t) && t.wqueue == []) <==> LoopGoesOn(s)
  {
    hide OneLoop, LoopGoesOn, RunTx, EmptyingSteps;
    if LoopGoesOn(s) {
      EmptyingPossible(s);
      var t := CanEmpty(s);
    } else {
      forall steps, t | Leads(s, steps, t) ensures t.wqueue == s.wqueue {
        NothingRestarts(s, steps);
      }
    }
  }

  lemma EmptyingPossible(s: Tx)
    requires LoopGoesOn(s)
    ensures s.loops != []
  {
  }

  /** A frame posted with no loop alive can go out with everything queued before it. */
  lemma SentAtLast(s: Tx, bytes: seq<Byte>) returns (steps: seq<Step>, t: Tx)
    requires ValidTx(s) && OneLoop(s) && OnWire(s) && |bytes| >= 4 && !Full(s, bytes) && s.connected && !s.shuttingDown
    requires s.loops == [] || s.loops[|s.loops| - 1].Done?
    ensures var u := NextTx(s, SendStep(bytes));
            Leads(u, steps, t) && t.wqueue == [] && t.lost == s.lost && t.attempted == s.accepted + [Stamp(bytes)]
    ensures |t.wires| == |t.streams| >= 1 && t.wires[|t.wires| - 1] == Flat(t.streams[|t.wires| - 1])
  {
    var u := NextTx(s, SendStep(bytes));
    hide ValidTx, OneLoop, OnWire, NextTx, Stamp, Emptied, Leads, EmptyingSteps, Flat, Writers, Full, SendTo;
    SendStarts(s, bytes);
    SendSettles(s, bytes);
    DisciplinedStep(s, SendStep(bytes));
    StepOnWire(s, SendStep(bytes));
    StepKeeps(s, SendStep(bytes));
    steps := EmptyingSteps(u);
    t := CanEmpty(u);
    LeadsOnWire(u, steps, t);
    WireOfEmptied(u, t);
    AllAttempted(u, t);
  }

  lemma SendSettles(s: Tx, bytes: seq<Byte>)
    requires |bytes| >= 4 && !Full(s, bytes) && s.connected && !s.shuttingDown
    ensures var u := NextTx(s, SendStep(bytes));
            u.connected && !u.shuttingDown && u.lost == s.lost && u.accepted == s.accepted + [Stamp(bytes)]
  {
    hide Stamp;
  }

  lemma LeadsOnWire(s: Tx, steps: seq<Step>, t: Tx)
    requires OnWire(s) && OneLoop(s) && Leads(s, steps, t)
    ensures OnWire(t)
  {
    hide OnWire, OneLoop;
    RunOnWire(s, steps);
  }

  lemma WireOfEmptied(s: Tx, t: Tx)
    requires OnWire(t) && Emptied(s, t)
    ensures |t.wires| == |t.streams| >= 1 && t.wires[|t.wires| - 1] == Flat(t.streams[|t.wires| - 1])
    ensures t.lost == s.lost && t.wqueue == []
  {
    hide Flat;
  }

  lemma AllAttempted(s: Tx, t: Tx)
    requires ValidTx(s) && Emptied(s, t)
    ensures t.attempted == s.accepted
  {
    hide Flat, Writers;
  }
}
