/** The Seastar transport and the listener together: what comes out of a connection is what went into it. */
module SeastarDelivery {
  import opened Bytes
  import opened Frames
  import opened Sequences
  import opened SeastarIOs
  import Listener
  import PosixQueue

  /** A frame with the size of its body in front, and a body the header can count. */
  ghost predicate Framed(frame: seq<Byte>) {
    |frame| >= 4 && Sized(frame[4..]) && frame == Frames.Frame(frame[4..])
  }

  ghost predicate AllFramed(frames: seq<seq<Byte>>) {
    forall i :: 0 <= i < |frames| ==> Framed(frames[i])
  }

  /** Client functions send at least an event number, and a size that a 32-bit header can hold. */
  ghost predicate SizedSends(steps: seq<Step>) {
    forall a :: a in steps && a.SendStep? ==> 4 < |a.bytes| < 4 + TWO_32
  }

  lemma StampFramed(bytes: seq<Byte>)
    requires 4 < |bytes| < 4 + TWO_32
    ensures Framed(PosixQueue.Stamp(bytes))
  {
    hide U32;
    assert PosixQueue.Stamp(bytes)[4..] == bytes[4..];
  }

  lemma StepFramed(s: Tx, a: Step)
    requires AllFramed(s.accepted) && Possible(s, a) && (a.SendStep? ==> 4 < |a.bytes| < 4 + TWO_32)
    ensures AllFramed(NextTx(s, a).accepted)
  {
    hide Framed, PosixQueue.Stamp, StartWrite;
    if a.SendStep? {
      StampFramed(a.bytes);
      StartAccepts(Post(s, a.bytes), |s.loops|);
    }
    if a.CheckStop? {
      StartAccepts(s, a.loop);
    }
  }

  lemma StartAccepts(s: Tx, i: nat)
    ensures s.wqueue != [] && i <= |s.loops| ==> StartWrite(s, i).accepted == s.accepted
  {
  }

  lemma {:induction false} RunFramed(s: Tx, steps: seq<Step>)
    requires AllFramed(s.accepted) && AllPossible(s, steps) && SizedSends(steps)
    ensures AllFramed(RunTx(s, steps).accepted)
    decreases |steps|
  {
    hide AllFramed, NextTx, Possible;
    if steps != [] {
      assert steps[0] in steps;
      StepFramed(s, steps[0]);
      RunFramed(NextTx(s, steps[0]), steps[1..]);
    }
  }

  function BodiesIn(frames: seq<seq<Byte>>): (r: seq<Packet>)
    ensures |r| == |frames|
    ensures forall i :: 0 <= i < |r| && |frames[i]| >= 4 ==> r[i] == frames[i][4..]
  {
    seq(|frames|, i requires 0 <= i < |frames| => if |frames[i]| >= 4 then frames[i][4..] else [])
  }

  lemma FramesBack(frames: seq<seq<Byte>>)
    requires AllFramed(frames)
    ensures FramesOf(BodiesIn(frames)) == frames && AllSized(BodiesIn(frames))
  {
    hide Frames.Frame;
    forall i | 0 <= i < |frames| ensures FramesOf(BodiesIn(frames))[i] == frames[i] && Sized(BodiesIn(frames)[i]) {
      assert Framed(frames[i]);
    }
  }

  /** Every frame of a stream is among the attempted ones. */
  lemma {:induction false} InStreams(streams: seq<seq<seq<Byte>>>, c: nat, frame: seq<Byte>)
    requires c < |streams| && frame in streams[c]
    ensures frame in Flat(streams)
  {
    if c > 0 {
      InStreams(streams[1..], c - 1, frame);
    }
  }

  lemma StreamFramed(s: Tx, c: nat)
    requires ValidTx(s) && AllFramed(s.accepted) && c < |s.streams|
    ensures AllFramed(s.streams[c])
  {
    hide Framed, Flat, Writers;
    forall i | 0 <= i < |s.streams[c]| ensures Framed(s.streams[c][i]) {
      InStreams(s.streams, c, s.streams[c][i]);
      var j :| 0 <= j < |s.attempted| && s.attempted[j] == s.streams[c][i];
      assert s.accepted[j] == s.attempted[j];
    }
  }

  /** The server's side of connection `c` after `consumed` of its bytes: the packets are the bodies of the first frames started
      there; unless a short one has ended the connection, what is unfinished and still to come is the rest of them. */
  ghost predicate Arrives(s: Tx, c: nat, consumed: nat)
    requires c < |s.wires| == |s.streams| && consumed <= |s.wires[c]| <= |Flat(s.streams[c])|
  {
    CutAt(BodiesIn(s.streams[c]), s.wires[c][..consumed], Flat(s.streams[c])[consumed..])
  }

  lemma ConnectionArrives(s: Tx, c: nat, consumed: nat)
    requires ValidTx(s) && OnWire(s) && AllFramed(s.accepted) && c < |s.wires| && consumed <= |s.wires[c]|
    ensures |s.wires| == |s.streams| && |s.wires[c]| <= |Flat(s.streams[c])| && Arrives(s, c, consumed)
  {
    hide Flat, ValidTx, AllFramed, CutAt, FramesOf;
    StreamFramed(s, c);
    FramesBack(s.streams[c]);
    var all := Flat(s.streams[c]);
    assert s.wires[c][..consumed] == all[..consumed] && all == all[..consumed] + all[consumed..];
    CutStream(BodiesIn(s.streams[c]), s.wires[c][..consumed], all[consumed..]);
  }

  /** On every run of the transport in which no reconnect overtakes a failed loop, whatever prefix a failed write leaves on the
      wire and however the server reads: what a handler in step with its connection has passed on are the bodies of the first
      frames started on that connection, in order and unchanged. */
  lemma EveryStreamFaithful(steps: seq<Step>, c: nat, consumed: nat, r: Listener.Reader, packets: seq<Packet>)
    requires AllPossible(IDLE, steps) && Disciplined(IDLE, steps) && SizedSends(steps)
    requires c < |RunTx(IDLE, steps).wires| && consumed <= |RunTx(IDLE, steps).wires[c]|
    requires Listener.InStep(r, RunTx(IDLE, steps).wires[c][..consumed], packets)
    ensures var s := RunTx(IDLE, steps);
            && c < |s.streams|
            && |packets| <= Delivered(BodiesIn(s.streams[c]))
            && packets == BodiesIn(s.streams[c])[..|packets|]
    ensures var s := RunTx(IDLE, steps);
            Flat(s.streams) + s.wqueue == s.accepted
  {
    hide RunTx, Disciplined, OneLoop, OnWire, AllFramed, Flat, Writers, Parse, Delivered, BodiesIn, Listener.Partial,
         Listener.Ready;
    IdleValid();
    IdleOnWire();
    NoneFramed();
    RunKeeps(IDLE, steps);
    RunOnWire(IDLE, steps);
    RunFramed(IDLE, steps);
    ConnectionArrives(RunTx(IDLE, steps), c, consumed);
  }

  lemma NoneFramed()
    ensures AllFramed(IDLE.accepted)
  {
  }
}
