/** The transmit queue of `PosixIO` as a state machine over its calls, with the history of what it accepted and what each
    connection took. */
module PosixQueue {
  import opened Bytes
  import opened Sequences
  import opened PosixBuffers

  /** A queued buffer: its bytes, header included, and its read offset. */
  datatype Pending = Pending(frame: seq<Byte>, sent: nat)

  /** `accepted`: every frame taken by `send`, in order. `wires`: the bytes each connection took, oldest connection first.
      `cuts`: how many frames had been accepted for earlier connections. */
  datatype State = State(
    queue: seq<Pending>,
    maxSize: nat,
    size: nat,
    async: bool,
    posted: nat,
    dropped: nat,
    sent: nat,
    accepted: seq<seq<Byte>>,
    wires: seq<seq<Byte>>,
    cuts: seq<nat>)

  const INITIAL := State([], 0, 0, false, 0, 0, 0, [], [[]], [0])

  /** What `write` answers: a count, or -1; and whether `errno` is set afterwards. */
  datatype WriteResult = WriteResult(written: int, errno: bool)

  /** No `write` takes more than it is given. */
  function Taken(r: WriteResult, remaining: nat): int {
    if r.written < 0 then -1 else Min(r.written, remaining)
  }

  /** The buffer after its first four bytes are overwritten with its size. */
  function Stamp(bytes: seq<Byte>): (frame: seq<Byte>)
    requires |bytes| >= 4
    ensures |frame| == |bytes|
  {
    U32((|bytes| - 4) % TWO_32) + bytes[4..]
  }

  /** The guarded subtraction `_queuesize -= (written >= _queuesize ? _queuesize : written)`. */
  function Subtract(size: nat, written: nat): nat {
    size - if written >= size then size else written
  }

  /** The open connection takes `bytes`. */
  function Carry(s: State, bytes: seq<Byte>): State
    requires s.wires != []
  {
    var last := |s.wires| - 1;
    s.(wires := s.wires[last := s.wires[last] + bytes])
  }

  /** `initialize_connection` during `send`: a new connection, for the frame just accepted and the later ones. */
  function Reconnect(s: State): State
    requires s.accepted != []
  {
    s.(wires := s.wires + [[]], cuts := s.cuts + [|s.accepted| - 1])
  }

  function Accept(s: State, bytes: seq<Byte>): State
    requires |bytes| >= 4
  {
    s.(posted := s.posted + 1, size := s.size + |bytes|, accepted := s.accepted + [Stamp(bytes)])
  }

  predicate Refuses(s: State, bytes: seq<Byte>) {
    s.maxSize != 0 && s.size + |bytes| > s.maxSize
  }

  /** `send` with nothing queued and in synchronous mode: the accepted frame is written at once, as far as it goes. */
  function WriteNow(a: State, frame: seq<Byte>, r: WriteResult): State
    requires a.wires != [] && a.accepted != []
  {
    var n := Taken(r, |frame|);
    if n <= 0 then (if r.errno then Reconnect(a) else a).(queue := [Pending(frame, 0)])
    else
      Carry(a, frame[..n]).(
        size := Subtract(a.size, n),
        sent := a.sent + (if n == |frame| then 1 else 0),
        queue := if n < |frame| then [Pending(frame, n)] else [])
  }

  function Send(s: State, bytes: seq<Byte>, r: WriteResult): State
    requires |bytes| >= 4 && s.wires != []
  {
    if Refuses(s, bytes) then s.(dropped := s.dropped + 1)
    else if s.async || s.queue != [] then Accept(s, bytes).(queue := s.queue + [Pending(Stamp(bytes), 0)])
    else WriteNow(Accept(s, bytes), Stamp(bytes), r)
  }

  /** One pass of the loop in `onWriteOpportunity`, up to the test of the read offset. `written` has type `size_t`, so a
      failed write counts as 2^64 - 1 bytes: the offset moves back by one and the queue size drops by all there is. */
  function WriteHead(s: State, r: WriteResult): State
    requires s.queue != [] && s.wires != [] && s.queue[0].sent <= |s.queue[0].frame|
  {
    var head := s.queue[0];
    var n := Taken(r, |head.frame| - head.sent);
    if n < 0 then
      s.(queue := s.queue[0 := head.(sent := if head.sent == 0 then TWO_64 - 1 else head.sent - 1)],
         size := Subtract(s.size, TWO_64 - 1))
    else
      Carry(s, head.frame[head.sent..head.sent + n]).(
        queue := s.queue[0 := head.(sent := head.sent + n)],
        size := Subtract(s.size, n))
  }

  predicate HeadDone(s: State) {
    s.queue != [] && s.queue[0].sent == |s.queue[0].frame|
  }

  function PopHead(s: State): State
    requires s.queue != []
  {
    s.(queue := s.queue[1..], sent := s.sent + 1)
  }

  /** `onWriteOpportunity`: `rs` are the answers of `write`; when they run out the socket takes nothing more. */
  function Drain(s: State, rs: seq<WriteResult>): State
    requires s.wires != [] && forall p :: p in s.queue ==> p.sent <= |p.frame|
    decreases |s.queue|
  {
    if s.queue == [] || rs == [] then s
    else
      var w := WriteHead(s, rs[0]);
      if HeadDone(w) then Drain(PopHead(w), rs[1..]) else w
  }

  // ---- What every state keeps --------------------------------------------------------------------

  function Left(p: Pending): seq<Byte> {
    if p.sent <= |p.frame| then p.frame[p.sent..] else []
  }

  function Unsent(queue: seq<Pending>): seq<Byte> {
    if queue == [] then [] else Left(queue[0]) + Unsent(queue[1..])
  }

  function FramesIn(queue: seq<Pending>): (r: seq<seq<Byte>>)
    ensures |r| == |queue| && forall i :: 0 <= i < |r| ==> r[i] == queue[i].frame
  {
    MapSeq((p: Pending) => p.frame, queue)
  }

  ghost predicate QueueShape(queue: seq<Pending>) {
    && (forall p :: p in queue ==> 4 <= |p.frame| && p.sent < |p.frame|)
    && (forall i :: 1 <= i < |queue| ==> queue[i].sent == 0)
  }

  /** Queue accounting: the size is what is still to be sent, only the head may be partly sent, and the counters say how the
      accepted frames split into sent ones and the queue. */
  ghost predicate Accounted(s: State) {
    && QueueShape(s.queue)
    && s.size == |Unsent(s.queue)|
    && s.posted == |s.accepted|
    && s.sent <= |s.accepted|
    && FramesIn(s.queue) == s.accepted[s.sent..]
  }

  /** Connection `c`, given up for the next one, took the frames accepted for it and no part of another. */
  ghost predicate WholeFrames(s: State, c: nat) {
    && c + 1 < |s.cuts| && c < |s.wires| && s.cuts[c] <= s.cuts[c + 1] <= |s.accepted|
    && s.wires[c] == Flat(s.accepted[s.cuts[c]..s.cuts[c + 1]])
  }

  /** Wire conservation: each closed connection took whole frames, and the open one took what is not in the queue. */
  ghost predicate Conserved(s: State) {
    && |s.wires| == |s.cuts| >= 1
    && s.cuts[0] == 0
    && (forall c :: 0 <= c < |s.cuts| ==> s.cuts[c] <= |s.accepted|)
    && (forall c :: 0 <= c < |s.cuts| - 1 ==> WholeFrames(s, c))
    && var last := |s.cuts| - 1;
       s.wires[last] + Unsent(s.queue) == Flat(s.accepted[s.cuts[last]..])
  }

  ghost predicate Valid(s: State) {
    Accounted(s) && Conserved(s)
  }

  // ---- send keeps it -----------------------------------------------------------------------------

  lemma {:induction false} UnsentSnoc(queue: seq<Pending>, p: Pending)
    ensures Unsent(queue + [p]) == Unsent(queue) + Left(p)
  {
    hide Left;
    if queue != [] {
      UnsentSnoc(queue[1..], p);
      assert (queue + [p])[1..] == queue[1..] + [p];
      Assoc(Left(queue[0]), Unsent(queue[1..]), Left(p));
    }
  }

  lemma AppendAccounted(s: State, bytes: seq<Byte>)
    requires Accounted(s) && |bytes| >= 4
    ensures Accounted(Accept(s, bytes).(queue := s.queue + [Pending(Stamp(bytes), 0)]))
    ensures Unsent(s.queue + [Pending(Stamp(bytes), 0)]) == Unsent(s.queue) + Stamp(bytes)
  {
    hide Stamp, Unsent;
    var p := Pending(Stamp(bytes), 0);
    var frames := s.accepted + [p.frame];
    UnsentSnoc(s.queue, p);
    assert Left(p) == p.frame;
    assert FramesIn(s.queue + [p]) == FramesIn(s.queue) + [p.frame];
    assert frames[s.sent..] == s.accepted[s.sent..] + [p.frame];
    assert Accept(s, bytes).accepted == frames;
  }

  lemma FlatFrom(accepted: seq<seq<Byte>>, frame: seq<Byte>, cut: nat)
    requires cut <= |accepted|
    ensures Flat((accepted + [frame])[cut..]) == Flat(accepted[cut..]) + frame
  {
    FlatSnoc(accepted[cut..], frame);
    assert (accepted + [frame])[cut..] == accepted[cut..] + [frame];
  }

  /** A frame queued behind what the wire and the queue hold already. */
  lemma AppendConserved(s: State, bytes: seq<Byte>)
    requires Valid(s) && |bytes| >= 4
    ensures Valid(Accept(s, bytes).(queue := s.queue + [Pending(Stamp(bytes), 0)]))
  {
    hide Stamp, Unsent, FramesIn, QueueShape;
    AppendAccounted(s, bytes);
    var t := Accept(s, bytes).(queue := s.queue + [Pending(Stamp(bytes), 0)]);
    var last := |s.cuts| - 1;
    FlatFrom(s.accepted, Stamp(bytes), s.cuts[last]);
    Assoc(s.wires[last], Unsent(s.queue), Stamp(bytes));
    forall c | 0 <= c < last ensures WholeFrames(t, c) {
      assert WholeFrames(s, c);
      assert t.accepted[t.cuts[c]..t.cuts[c + 1]] == s.accepted[s.cuts[c]..s.cuts[c + 1]];
    }
  }

  /** A reconnect inside `send` happens with only the new frame queued, so the closed connection took whole frames. */
  lemma ReconnectKeeps(s: State)
    requires Valid(s) && |s.queue| == 1 && s.queue[0].sent == 0
    requires s.accepted != [] && s.cuts[|s.cuts| - 1] <= |s.accepted| - 1
    ensures Valid(Reconnect(s))
  {
    hide Accounted, Unsent, WholeFrames, Flat;
    var t, last := Reconnect(s), |s.cuts| - 1;
    LastWireWhole(s);
    OneFrame(s);
    FlatOne(s.queue[0].frame);
    assert s.accepted[|s.accepted| - 1..] == [s.queue[0].frame];
    assert t.wires[last + 1] + s.queue[0].frame == s.queue[0].frame;
    forall c | 0 <= c < last + 1 ensures WholeFrames(t, c) {
      if c < last {
        assert WholeFrames(s, c);
        WholeStays(s, c);
      }
    }
    ReconnectAccounted(s);
  }

  lemma ReconnectAccounted(s: State)
    requires Accounted(s) && s.accepted != []
    ensures Accounted(Reconnect(s))
  {
  }

  lemma WholeStays(s: State, c: nat)
    requires WholeFrames(s, c) && s.accepted != []
    ensures WholeFrames(Reconnect(s), c)
  {
    hide Flat;
  }

  /** With only a fresh frame queued, the open connection has taken everything before it. */
  lemma LastWireWhole(s: State)
    requires Valid(s) && |s.queue| == 1 && s.queue[0].sent == 0
    requires s.accepted != [] && s.cuts[|s.cuts| - 1] <= |s.accepted| - 1
    ensures WholeFrames(Reconnect(s), |s.cuts| - 1)
  {
    hide Flat, Unsent;
    var last, n := |s.cuts| - 1, |s.accepted|;
    var cut := s.cuts[last];
    OneFrame(s);
    FlatFrom(s.accepted[..n - 1], s.queue[0].frame, cut);
    assert s.accepted == s.accepted[..n - 1] + [s.queue[0].frame];
    assert s.accepted[..n - 1][cut..] == s.accepted[cut..n - 1];
    CancelTail(s.wires[last], Flat(s.accepted[cut..n - 1]), s.queue[0].frame);
  }

  lemma OneFrame(s: State)
    requires Accounted(s) && |s.queue| == 1 && s.queue[0].sent == 0
    ensures Unsent(s.queue) == s.queue[0].frame == s.accepted[|s.accepted| - 1]
  {
    var frame := s.queue[0].frame;
    assert Left(s.queue[0]) == frame && s.queue[1..] == [] && frame + Unsent([]) == frame;
    assert FramesIn(s.queue)[0] == s.accepted[s.sent..][0];
  }

  lemma FlatNothing<T>()
    ensures Flat<T>([]) == []
  {
  }

  lemma CancelTail<T>(a: seq<T>, b: seq<T>, tail: seq<T>)
    requires a + tail == b + tail
    ensures a == b
  {
    assert |a| == |b|;
    assert a == (a + tail)[..|a|] && b == (b + tail)[..|b|];
  }

  /** The state at the end of one pass of the loop. */
  function Pass(s: State, r: WriteResult): State
    requires s.queue != [] && s.wires != [] && s.queue[0].sent <= |s.queue[0].frame|
  {
    if HeadDone(WriteHead(s, r)) then PopHead(WriteHead(s, r)) else WriteHead(s, r)
  }

  lemma UnsentCons(head: Pending, rest: seq<Pending>)
    ensures Unsent([head] + rest) == Left(head) + Unsent(rest)
  {
    hide Left;
    assert ([head] + rest)[1..] == rest;
  }

  lemma UnsentHead(queue: seq<Pending>, n: nat)
    requires queue != [] && queue[0].sent + n <= |queue[0].frame|
    ensures var head := queue[0];
            Unsent(queue) == head.frame[head.sent..head.sent + n] + Unsent(Moved(queue, n))
  {
    hide Left, Unsent;
    var head, rest := queue[0], queue[1..];
    SplitLeft(head, n);
    assert queue == [head] + rest;
    UnsentCons(head, rest);
    if head.sent + n < |head.frame| {
      var moved := head.(sent := head.sent + n);
      assert Moved(queue, n) == [moved] + rest;
      UnsentCons(moved, rest);
      Assoc(head.frame[head.sent..head.sent + n], Left(moved), Unsent(rest));
    }
  }

  lemma SplitLeft(p: Pending, n: nat)
    requires p.sent + n <= |p.frame|
    ensures Left(p) == p.frame[p.sent..p.sent + n] + Left(p.(sent := p.sent + n))
    ensures p.sent + n == |p.frame| ==> Left(p) == p.frame[p.sent..p.sent + n]
  {
  }

  lemma CarryConserves(s: State, chunk: seq<Byte>, queue: seq<Pending>)
    requires Conserved(s)
    requires Unsent(s.queue) == chunk + Unsent(queue)
    ensures Conserved(Carry(s, chunk).(queue := queue))
  {
    hide Unsent;
    var last := |s.cuts| - 1;
    var t := Carry(s, chunk).(queue := queue);
    Assoc(s.wires[last], chunk, Unsent(queue));
    forall c | 0 <= c < last ensures WholeFrames(t, c) {
      assert WholeFrames(s, c);
    }
  }

  /** What a pass that does not fail leaves in the queue. */
  function Moved(queue: seq<Pending>, n: nat): seq<Pending>
    requires queue != []
  {
    var head := queue[0];
    if head.sent + n == |head.frame| then queue[1..] else queue[0 := head.(sent := head.sent + n)]
  }

  lemma PassFields(s: State, r: WriteResult)
    requires s.wires != [] && s.queue != [] && s.queue[0].sent <= |s.queue[0].frame| && r.written >= 0
    ensures var t, head := Pass(s, r), s.queue[0];
            var n := Taken(r, |head.frame| - head.sent);
            && t.queue == Moved(s.queue, n)
            && t.sent == s.sent + (if head.sent + n == |head.frame| then 1 else 0)
            && t.size == Subtract(s.size, n)
            && t.posted == s.posted && t.accepted == s.accepted && t.cuts == s.cuts && t.dropped == s.dropped
            && t.wires == Carry(s, head.frame[head.sent..head.sent + n]).wires
  {
  }

  lemma MovedShape(s: State, n: nat)
    requires Accounted(s) && s.queue != [] && s.queue[0].sent + n <= |s.queue[0].frame|
    ensures QueueShape(Moved(s.queue, n))
    ensures var sent := s.sent + (if s.queue[0].sent + n == |s.queue[0].frame| then 1 else 0);
            sent <= |s.accepted| && FramesIn(Moved(s.queue, n)) == s.accepted[sent..]
  {
    hide Unsent;
    var head := s.queue[0];
    if head.sent + n == |head.frame| {
      assert FramesIn(s.queue)[1..] == FramesIn(s.queue[1..]);
      assert s.accepted[s.sent..][1..] == s.accepted[s.sent + 1..];
    } else {
      var moved := Moved(s.queue, n);
      assert FramesIn(moved) == FramesIn(s.queue);
      assert forall i :: 1 <= i < |moved| ==> moved[i] == s.queue[i];
    }
  }

  /** A write that does not fail keeps the invariant, and the queue size drops by exactly what was written. */
  lemma PassKeeps(s: State, r: WriteResult)
    requires Valid(s) && s.queue != [] && r.written >= 0
    ensures Valid(Pass(s, r))
    ensures Pass(s, r).size == s.size - Taken(r, |s.queue[0].frame| - s.queue[0].sent)
  {
    hide Unsent, Conserved, QueueShape, Pass, Moved, FramesIn, Carry;
    HeadUnfinished(s);
    var head := s.queue[0];
    var n := Taken(r, |head.frame| - head.sent);
    PassFields(s, r);
    UnsentHead(s.queue, n);
    MovedShape(s, n);
    PassConserves(s, r, head.frame[head.sent..head.sent + n], Moved(s.queue, n));
  }

  lemma HeadUnfinished(s: State)
    requires Valid(s)
    ensures s.wires != [] && (s.queue != [] ==> s.queue[0].sent < |s.queue[0].frame|)
  {
  }

  lemma QueueBounds(s: State)
    requires Valid(s)
    ensures forall p :: p in s.queue ==> p.sent < |p.frame|
  {
  }

  /** A write of nothing changes nothing. */
  lemma WriteNothing(s: State, r: WriteResult)
    requires s.queue != [] && s.wires != [] && s.queue[0].sent < |s.queue[0].frame| && r.written == 0
    ensures WriteHead(s, r) == s && !HeadDone(s)
  {
    var last, head := |s.wires| - 1, s.queue[0];
    assert head.frame[head.sent..head.sent + 0] == [];
    assert s.wires[last] + [] == s.wires[last];
    assert s.wires[last := s.wires[last]] == s.wires && s.queue[0 := s.queue[0]] == s.queue;
  }

  /** The same pass in the arithmetic of `size_t`, where -1 is the largest value and offsets wrap around. */
  lemma WriteHeadInSizeT(s: State, r: WriteResult)
    requires s.queue != [] && s.wires != [] && s.queue[0].sent < |s.queue[0].frame| < TWO_64 - 1
    ensures var head := s.queue[0];
            var taken := Taken(r, |head.frame| - head.sent);
            var written := if taken < 0 then TWO_64 - 1 else taken;
            var w := WriteHead(s, r);
            && (written == 0 ==> w == s)
            && (written > 0 ==>
                  && w.queue == s.queue[0 := head.(sent := (head.sent + written) % TWO_64)]
                  && w.size == Subtract(s.size, written)
                  && w.wires == (if taken > 0 then Carry(s, head.frame[head.sent..head.sent + taken]).wires else s.wires)
                  && w == s.(queue := w.queue, size := w.size, wires := w.wires))
  {
    if r.written == 0 {
      WriteNothing(s, r);
    }
  }

  function First(rs: seq<WriteResult>): WriteResult {
    if rs == [] then WriteResult(0, false) else rs[0]
  }

  function Rest(rs: seq<WriteResult>): seq<WriteResult> {
    if rs == [] then [] else rs[1..]
  }

  /** One turn of the loop: a socket with no answer left takes nothing. */
  lemma DrainTurn(s: State, rs: seq<WriteResult>)
    requires s.wires != [] && s.queue != [] && forall p :: p in s.queue ==> p.sent < |p.frame|
    ensures Drain(s, rs) ==
            var w := WriteHead(s, First(rs));
            if HeadDone(w) then
              assert forall p :: p in PopHead(w).queue ==> p in s.queue;
              Drain(PopHead(w), Rest(rs))
            else w
  {
    if rs == [] {
      WriteNothing(s, First(rs));
    }
  }

  lemma DrainEmpty(s: State, rs: seq<WriteResult>)
    requires s.wires != [] && s.queue == []
    ensures Drain(s, rs) == s
  {
  }

  lemma PassConserves(s: State, r: WriteResult, chunk: seq<Byte>, queue: seq<Pending>)
    requires Conserved(s) && Unsent(s.queue) == chunk + Unsent(queue)
    requires s.wires != [] && s.queue != [] && s.queue[0].sent <= |s.queue[0].frame|
    requires var t := Pass(s, r);
             t.queue == queue && t.accepted == s.accepted && t.cuts == s.cuts && t.wires == Carry(s, chunk).wires
    ensures Conserved(Pass(s, r))
  {
    CarryConserves(s, chunk, queue);
    hide Unsent, Conserved, Pass;
    SameWires(Carry(s, chunk).(queue := queue), Pass(s, r));
  }

  /** Conservation does not depend on the counters. */
  lemma SameWires(s: State, t: State)
    requires Conserved(s)
    requires t.queue == s.queue && t.accepted == s.accepted && t.wires == s.wires && t.cuts == s.cuts
    ensures Conserved(t)
  {
    forall c | 0 <= c < |s.cuts| - 1 ensures WholeFrames(t, c) {
      assert WholeFrames(s, c);
    }
  }

  lemma SettingsKeep(s: State, mode: bool, max: nat)
    requires Valid(s)
    ensures Valid(s.(async := mode)) && Valid(s.(maxSize := max))
  {
    SameWires(s, s.(async := mode));
    SameWires(s, s.(maxSize := max));
  }

  /** One pass keeps the accounting exactly when its write did not fail. */
  lemma FailedWriteIff(s: State, r: WriteResult)
    requires Valid(s) && s.queue != [] && |s.queue[0].frame| < TWO_64 - 1
    ensures Accounted(Pass(s, r)) <==> r.written >= 0
  {
    if r.written >= 0 {
      PassKeeps(s, r);
    } else {
      var w := WriteHead(s, r);
      assert Pass(s, r) == w;
      if s.queue[0].sent > 0 {
        assert Left(w.queue[0]) != [];
      } else {
        assert w.queue[0] in w.queue;
      }
    }
  }

  lemma SendKeeps(s: State, bytes: seq<Byte>, r: WriteResult)
    requires Valid(s) && |bytes| >= 4
    ensures Valid(Send(s, bytes, r))
  {
    if Refuses(s, bytes) {
      SameWires(s, Send(s, bytes, r));
    } else {
      AppendConserved(s, bytes);
      var t := Accept(s, bytes).(queue := s.queue + [Pending(Stamp(bytes), 0)]);
      var frame := Stamp(bytes);
      hide Stamp, Accounted, Conserved;
      if !s.async && s.queue == [] {
        assert t.queue == [Pending(frame, 0)];
        var n := Taken(r, |frame|);
        if n > 0 {
          PassKeeps(t, r);
          DirectWrite(s, bytes, r);
        } else if r.errno {
          assert s.cuts[|s.cuts| - 1] <= |t.accepted| - 1 by {
            LastCut(s);
          }
          ReconnectKeeps(t);
          assert Send(s, bytes, r) == Reconnect(t);
        }
      }
    }
  }

  lemma LastCut(s: State)
    requires Valid(s)
    ensures s.cuts != [] && s.cuts[|s.cuts| - 1] <= |s.accepted|
  {
  }

  /** The direct write in `send` does what queueing the frame and one pass of the loop would do. */
  lemma DirectWrite(s: State, bytes: seq<Byte>, r: WriteResult)
    requires |bytes| >= 4 && s.wires != [] && !Refuses(s, bytes) && !s.async && s.queue == [] && r.written > 0
    ensures Send(s, bytes, r) == Pass(Accept(s, bytes).(queue := [Pending(Stamp(bytes), 0)]), r)
  {
    hide Stamp;
    var n := Taken(r, |bytes|);
    assert Stamp(bytes)[0..0 + n] == Stamp(bytes)[..n];
  }

  ghost predicate NoFailure(rs: seq<WriteResult>) {
    forall r :: r in rs ==> r.written >= 0
  }

  lemma {:induction false} DrainKeeps(s: State, rs: seq<WriteResult>)
    requires Valid(s) && NoFailure(rs)
    ensures Valid(Drain(s, rs))
    ensures |Unsent(Drain(s, rs).queue)| <= |Unsent(s.queue)|
    ensures s.queue != [] && rs != [] && rs[0].written > 0 ==> |Unsent(Drain(s, rs).queue)| < |Unsent(s.queue)|
    ensures Drain(s, rs).posted == s.posted && Drain(s, rs).maxSize == s.maxSize && Drain(s, rs).accepted == s.accepted
    decreases |s.queue|
  {
    if s.queue != [] && rs != [] {
      assert rs[0] in rs;
      PassKeeps(s, rs[0]);
      var w := WriteHead(s, rs[0]);
      hide Conserved, Unsent;
      if HeadDone(w) {
        DrainKeeps(PopHead(w), rs[1..]);
      }
    }
  }

  /** What the code itself relies on: a connection, and offsets inside their buffers. */
  ghost predicate Ready(s: State) {
    s.wires != [] && forall p :: p in s.queue ==> p.sent <= |p.frame|
  }

  /** How many answers of `write` a drain uses up: one for each buffer it tries. */
  function Used(s: State, rs: seq<WriteResult>): (n: nat)
    requires s.wires != [] && forall p :: p in s.queue ==> p.sent <= |p.frame|
    ensures n <= |rs|
    decreases |s.queue|
  {
    if s.queue == [] || rs == [] then 0
    else
      var w := WriteHead(s, rs[0]);
      if HeadDone(w) then 1 + Used(PopHead(w), rs[1..]) else 1
  }

  /** One turn of the loop uses up one answer. */
  lemma UsedTurn(s: State, rs: seq<WriteResult>)
    requires s.wires != [] && s.queue != [] && forall p :: p in s.queue ==> p.sent < |p.frame|
    ensures rs[Used(s, rs)..] ==
            var w := WriteHead(s, First(rs));
            if HeadDone(w) then
              assert forall p :: p in PopHead(w).queue ==> p in s.queue;
              Rest(rs)[Used(PopHead(w), Rest(rs))..]
            else Rest(rs)
  {
    if rs == [] {
      WriteNothing(s, First(rs));
    }
  }

  lemma UsedEmpty(s: State, rs: seq<WriteResult>)
    requires s.wires != [] && s.queue == []
    ensures rs[Used(s, rs)..] == rs
  {
  }

  ghost predicate AllSmall(queue: seq<Pending>) {
    forall p :: p in queue ==> |p.frame| < TWO_64 - 1
  }

  lemma NoFailureTail(rs: seq<WriteResult>, n: nat)
    requires 0 < n <= |rs|
    ensures NoFailure(rs[..n]) <==> rs[0].written >= 0 && NoFailure(rs[1..][..n - 1])
  {
    assert rs[..n] == [rs[0]] + rs[1..][..n - 1];
  }

  /** Where a failed write stops the drain, and what a successful one leaves to it. */
  lemma FirstAnswer(s: State, rs: seq<WriteResult>)
    requires Valid(s) && AllSmall(s.queue) && s.queue != [] && rs != []
    ensures s.wires != [] && forall p :: p in s.queue ==> p.sent <= |p.frame|
    ensures rs[0].written < 0 ==> Used(s, rs) == 1 && !Accounted(Drain(s, rs))
    ensures rs[0].written >= 0 ==> Valid(Pass(s, rs[0])) && AllSmall(Pass(s, rs[0]).queue)
    ensures rs[0].written >= 0 && !HeadDone(WriteHead(s, rs[0])) ==>
              Used(s, rs) == 1 && Drain(s, rs) == Pass(s, rs[0])
    ensures rs[0].written >= 0 && HeadDone(WriteHead(s, rs[0])) ==>
              && |Pass(s, rs[0]).queue| < |s.queue|
              && Ready(Pass(s, rs[0]))
              && Used(s, rs) == 1 + Used(Pass(s, rs[0]), rs[1..]) && Drain(s, rs) == Drain(Pass(s, rs[0]), rs[1..])
  {
    hide Conserved, Unsent, FramesIn, Accounted;
    QueueBounds(s);
    HeadUnfinished(s);
    FailedWriteIff(s, rs[0]);
    if rs[0].written >= 0 {
      PassKeeps(s, rs[0]);
      QueueBounds(Pass(s, rs[0]));
      HeadUnfinished(Pass(s, rs[0]));
    }
  }

  /** The invariant survives a whole `onWriteOpportunity` exactly when none of the writes it makes fails. Answers it has no
      use for do not matter. */
  lemma {:induction false} DrainKeepsIff(s: State, rs: seq<WriteResult>)
    requires Valid(s) && AllSmall(s.queue)
    ensures Ready(s)
    ensures NoFailure(rs[..Used(s, rs)]) <==> Valid(Drain(s, rs))
    ensures NoFailure(rs[..Used(s, rs)]) <==> Accounted(Drain(s, rs))
    decreases |s.queue|
  {
    hide Conserved, Accounted, Pass, WriteHead;
    QueueBounds(s);
    HeadUnfinished(s);
    if s.queue != [] && rs != [] {
      FirstAnswer(s, rs);
      NoFailureTail(rs, Used(s, rs));
      if rs[0].written >= 0 && HeadDone(WriteHead(s, rs[0])) {
        DrainKeepsIff(Pass(s, rs[0]), rs[1..]);
      }
    }
  }

  // ---- Every run ---------------------------------------------------------------------------------

  datatype Call =
    | SendCall(bytes: seq<Byte>, result: WriteResult)
    | WriteOpportunity(results: seq<WriteResult>)
    | SetAsyncMode(mode: bool)
    | SetQueueMaxSize(max: nat)

  /** A buffer has room for its header, and no write inside `onWriteOpportunity` fails. */
  ghost predicate Admissible(c: Call) {
    match c
    case SendCall(bytes, _) => |bytes| >= 4
    case WriteOpportunity(results) => NoFailure(results)
    case SetAsyncMode(_) => true
    case SetQueueMaxSize(_) => true
  }

  ghost predicate AllAdmissible(calls: seq<Call>) {
    forall c :: c in calls ==> Admissible(c)
  }

  lemma {:induction false} DrainReady(s: State, rs: seq<WriteResult>)
    requires Ready(s) && NoFailure(rs)
    ensures Ready(Drain(s, rs))
    decreases |s.queue|
  {
    if s.queue != [] && rs != [] {
      assert rs[0] in rs;
      var w := WriteHead(s, rs[0]);
      if HeadDone(w) {
        DrainReady(PopHead(w), rs[1..]);
      }
    }
  }

  ghost function Apply(s: State, c: Call): (t: State)
    requires Ready(s) && Admissible(c)
    ensures Ready(t)
  {
    match c
    case SendCall(bytes, result) => Send(s, bytes, result)
    case WriteOpportunity(results) => DrainReady(s, results); Drain(s, results)
    case SetAsyncMode(mode) => s.(async := mode)
    case SetQueueMaxSize(max) => s.(maxSize := max)
  }

  ghost function Run(s: State, calls: seq<Call>): (t: State)
    requires Ready(s) && AllAdmissible(calls)
    ensures Ready(t)
    decreases |calls|
  {
    if calls == [] then s
    else
      assert calls[0] in calls;
      Run(Apply(s, calls[0]), calls[1..])
  }

  lemma ValidReady(s: State)
    requires Valid(s)
    ensures Ready(s)
  {
  }

  lemma ApplyKeeps(s: State, c: Call)
    requires Valid(s) && Admissible(c)
    ensures Ready(s) && Valid(Apply(s, c))
  {
    hide Valid, Send, Drain, Ready;
    ValidReady(s);
    match c
    case SendCall(bytes, result) => SendKeeps(s, bytes, result);
    case WriteOpportunity(results) => DrainKeeps(s, results);
    case SetAsyncMode(mode) => SettingsKeep(s, mode, s.maxSize);
    case SetQueueMaxSize(max) => SettingsKeep(s, s.async, max);
  }

  lemma {:induction false} RunKeeps(s: State, calls: seq<Call>)
    requires Valid(s) && AllAdmissible(calls)
    ensures Ready(s) && Valid(Run(s, calls))
    decreases |calls|
  {
    hide Valid, Apply, Ready;
    ValidReady(s);
    if calls != [] {
      assert calls[0] in calls;
      ApplyKeeps(s, calls[0]);
      RunKeeps(Apply(s, calls[0]), calls[1..]);
    }
  }

  /** One frame queued in asynchronous mode. */
  function OneQueued(r: WriteResult): seq<Call> {
    [SetAsyncMode(true), SendCall([0, 0, 0, 0, 1], r)]
  }

  lemma OneQueuedState(r: WriteResult)
    ensures Ready(INITIAL) && AllAdmissible(OneQueued(r))
    ensures Run(INITIAL, OneQueued(r)).queue == [Pending(Stamp([0, 0, 0, 0, 1]), 0)]
  {
    hide Stamp;
    var s1 := Apply(INITIAL, SetAsyncMode(true));
    var s2 := Apply(s1, SendCall([0, 0, 0, 0, 1], r));
    var rest := OneQueued(r)[1..];
    assert rest == [SendCall([0, 0, 0, 0, 1], r)] && rest[1..] == [];
    assert AllAdmissible([]) && Run(s2, []) == s2;
    assert AllAdmissible(rest) && Run(s1, rest) == s2;
    assert [] + [Pending(Stamp([0, 0, 0, 0, 1]), 0)] == [Pending(Stamp([0, 0, 0, 0, 1]), 0)];
  }

  /** The broken accounting is within reach: one queued frame and one failed write. */
  lemma FailedWriteReachable(r: WriteResult, errno: bool)
    ensures Ready(INITIAL) && AllAdmissible(OneQueued(r))
    ensures var s := Run(INITIAL, OneQueued(r));
            Valid(s) && !Accounted(Drain(s, [WriteResult(-1, errno)]))
  {
    hide Run, Stamp, Drain, Accounted, Conserved;
    InitialValid();
    OneQueuedState(r);
    RunKeeps(INITIAL, OneQueued(r));
    FirstAnswer(Run(INITIAL, OneQueued(r)), [WriteResult(-1, errno)]);
  }

  lemma InitialValid()
    ensures Valid(INITIAL)
  {
    assert Unsent([]) == [] && Flat<Byte>([]) == [];
  }

  lemma {:induction false} FlatWires(s: State, c: nat)
    requires Valid(s) && c < |s.cuts|
    ensures Flat(s.wires[..c]) == Flat(s.accepted[..s.cuts[c]])
  {
    hide Accounted, Unsent, Flat;
    if c > 0 {
      FlatWires(s, c - 1);
      FlatTake(s.wires, c - 1, c);
      assert s.wires[c - 1..c] == [s.wires[c - 1]];
      FlatOne(s.wires[c - 1]);
      assert WholeFrames(s, c - 1);
      FlatTake(s.accepted, s.cuts[c - 1], s.cuts[c]);
    } else {
      FlatNothing<Byte>();
      assert s.wires[..0] == [] && s.accepted[..0] == [];
    }
  }

  /** The bytes handed to the sockets, followed by the unsent parts of the queue, are the accepted frames in posting order,
      and every connection but the last carried whole frames. */
  ghost predicate Carried(s: State) {
    && Flat(s.wires) + Unsent(s.queue) == Flat(s.accepted)
    && forall c :: 0 <= c < |s.wires| - 1 ==> WholeFrames(s, c)
  }

  /** Whatever the calls, and however the writes were cut. */
  lemma WireConservation(calls: seq<Call>)
    requires AllAdmissible(calls)
    ensures Carried(Run(INITIAL, calls))
  {
    hide Flat, Unsent, Run, Accounted, WholeFrames;
    InitialValid();
    RunKeeps(INITIAL, calls);
    AllWires(Run(INITIAL, calls));
  }

  lemma AllWires(s: State)
    requires Valid(s)
    ensures Flat(s.wires) + Unsent(s.queue) == Flat(s.accepted)
  {
    hide Accounted, Unsent, Flat;
    var last := |s.cuts| - 1;
    var cut := s.cuts[last];
    FlatWires(s, last);
    FlatTake(s.wires, last, |s.wires|);
    assert s.wires[..|s.wires|] == s.wires && s.wires[last..|s.wires|] == [s.wires[last]];
    FlatOne(s.wires[last]);
    FlatTake(s.accepted, cut, |s.accepted|);
    assert s.accepted[..|s.accepted|] == s.accepted;
    Assoc(Flat(s.wires[..last]), s.wires[last], Unsent(s.queue));
  }

  ghost function SendCalls(calls: seq<Call>): nat {
    if calls == [] then 0 else (if calls[0].SendCall? then 1 else 0) + SendCalls(calls[1..])
  }

  lemma {:induction false} DrainCounters(s: State, rs: seq<WriteResult>)
    requires Valid(s) && NoFailure(rs)
    ensures Drain(s, rs).dropped == s.dropped
    decreases |s.queue|
  {
    if s.queue != [] && rs != [] {
      assert rs[0] in rs;
      PassKeeps(s, rs[0]);
      hide Valid;
      if HeadDone(WriteHead(s, rs[0])) {
        DrainCounters(PopHead(WriteHead(s, rs[0])), rs[1..]);
      }
    }
  }

  /** Every call of `send` is counted once, as posted or as dropped; what was posted is sent or queued. */
  lemma {:induction false} CountersAddUp(s: State, calls: seq<Call>)
    requires Valid(s) && AllAdmissible(calls)
    ensures var t := Run(s, calls);
            && t.posted + t.dropped == s.posted + s.dropped + SendCalls(calls)
            && t.posted == t.sent + |t.queue|
    decreases |calls|
  {
    hide Valid, Apply, Admissible, Ready;
    ValidReady(s);
    if calls != [] {
      var c := calls[0];
      assert c in calls;
      ApplyCounts(s, c);
      ApplyKeeps(s, c);
      CountersAddUp(Apply(s, c), calls[1..]);
    }
    RunKeeps(s, calls);
    QueueLength(Run(s, calls));
  }

  lemma ApplyCounts(s: State, c: Call)
    requires Valid(s) && Admissible(c)
    ensures var t := Apply(s, c);
            t.posted + t.dropped == s.posted + s.dropped + if c.SendCall? then 1 else 0
  {
    if c.WriteOpportunity? {
      DrainKeeps(s, c.results);
      DrainCounters(s, c.results);
    }
  }

  lemma QueueLength(s: State)
    requires Valid(s)
    ensures s.posted == s.sent + |s.queue|
  {
    assert |FramesIn(s.queue)| == |s.accepted[s.sent..]|;
  }

  /** A fixed queue limit is never exceeded. */
  lemma {:induction false} QuotaHolds(s: State, calls: seq<Call>)
    requires Valid(s) && AllAdmissible(calls) && forall c :: c in calls ==> !c.SetQueueMaxSize?
    requires s.maxSize != 0 && s.size <= s.maxSize
    ensures Run(s, calls).size <= Run(s, calls).maxSize == s.maxSize
    decreases |calls|
  {
    hide Valid, Apply, Admissible, Ready;
    ValidReady(s);
    if calls != [] {
      var c := calls[0];
      assert c in calls;
      QuotaStep(s, c);
      ApplyKeeps(s, c);
      QuotaHolds(Apply(s, c), calls[1..]);
    }
  }

  lemma QuotaStep(s: State, c: Call)
    requires Valid(s) && Admissible(c) && !c.SetQueueMaxSize? && s.maxSize != 0 && s.size <= s.maxSize
    ensures Apply(s, c).size <= Apply(s, c).maxSize == s.maxSize
  {
    if c.WriteOpportunity? {
      DrainKeeps(s, c.results);
    }
  }

  /** A write opportunity whose first write takes at least one byte. */
  ghost predicate TakesSomething(c: Call) {
    c.WriteOpportunity? && NoFailure(c.results) && c.results != [] && c.results[0].written > 0
  }

  /** Everything posted is sent, and nothing is left to account for. */
  ghost predicate Drained(s: State) {
    s.queue == [] && s.sent == s.posted && s.size == 0
  }

  /** Without new sends, as many write opportunities as there are unsent bytes empty the queue, if the socket takes at least
      one byte each time: everything posted is then sent and nothing is left to account for. */
  lemma {:induction false} DrainBound(s: State, calls: seq<Call>)
    requires Valid(s) && AllAdmissible(calls) && forall c :: c in calls ==> TakesSomething(c)
    requires |calls| >= |Unsent(s.queue)|
    ensures Drained(Run(s, calls)) && Run(s, calls).accepted == s.accepted
    decreases |calls|
  {
    if calls != [] {
      var c := calls[0];
      assert c in calls;
      DrainKeeps(s, c.results);
      ApplyKeeps(s, c);
      DrainBound(Apply(s, c), calls[1..]);
    } else {
      NothingUnsent(s);
    }
  }

  lemma NothingUnsent(s: State)
    requires Valid(s)
    ensures s.queue == [] <==> Unsent(s.queue) == []
    ensures s.queue == [] ==> s.sent == s.posted && s.size == 0
  {
    if s.queue != [] {
      assert Left(s.queue[0]) != [];
    }
  }

  // ---- What the far end may rely on --------------------------------------------------------------

  /** Bytes a connection took are never taken back, and a call opens at most one connection. */
  ghost predicate Grows(earlier: seq<seq<Byte>>, wires: seq<seq<Byte>>) {
    && |earlier| <= |wires| <= |earlier| + 1
    && (forall w :: 0 <= w < |earlier| ==> earlier[w] <= wires[w])
    && (|wires| > |earlier| ==> wires[|earlier|] == [])
  }

  lemma GrowsBoth(a: seq<seq<Byte>>, b: seq<seq<Byte>>, c: seq<seq<Byte>>)
    requires Grows(a, b) && Grows(b, c) && |a| == |b|
    ensures Grows(a, c)
  {
  }

  lemma CarryGrows(s: State, bytes: seq<Byte>)
    requires s.wires != []
    ensures Grows(s.wires, Carry(s, bytes).wires) && |Carry(s, bytes).wires| == |s.wires|
  {
  }

  lemma PassGrows(s: State, r: WriteResult)
    requires Valid(s) && s.queue != [] && r.written >= 0
    ensures Grows(s.wires, Pass(s, r).wires) && |Pass(s, r).wires| == |s.wires|
  {
    hide Valid, Pass, Carry, Grows;
    HeadUnfinished(s);
    var head := s.queue[0];
    PassFields(s, r);
    CarryGrows(s, head.frame[head.sent..head.sent + Taken(r, |head.frame| - head.sent)]);
  }

  lemma DrainPass(s: State, rs: seq<WriteResult>)
    requires Valid(s) && s.queue != [] && rs != [] && rs[0].written >= 0
    ensures Valid(Pass(s, rs[0]))
    ensures Drain(s, rs) == Pass(s, rs[0])
         || (|Pass(s, rs[0]).queue| < |s.queue| && Drain(s, rs) == Drain(Pass(s, rs[0]), rs[1..]))
  {
    hide Conserved, Unsent;
    PassKeeps(s, rs[0]);
  }

  lemma {:induction false} DrainGrows(s: State, rs: seq<WriteResult>)
    requires Valid(s) && NoFailure(rs)
    ensures Grows(s.wires, Drain(s, rs).wires) && |Drain(s, rs).wires| == |s.wires|
    decreases |s.queue|
  {
    hide Valid, Grows, Pass;
    HeadUnfinished(s);
    QueueBounds(s);
    if s.queue != [] && rs != [] {
      assert rs[0] in rs;
      PassGrows(s, rs[0]);
      DrainPass(s, rs);
      var w := Pass(s, rs[0]);
      if |w.queue| < |s.queue| {
        DrainGrows(w, rs[1..]);
        if Drain(s, rs) != w {
          GrowsBoth(s.wires, w.wires, Drain(s, rs).wires);
        }
      }
    } else {
      NothingGrows(s.wires);
    }
  }

  lemma NothingGrows(wires: seq<seq<Byte>>)
    ensures Grows(wires, wires)
  {
  }

  lemma SendGrows(s: State, bytes: seq<Byte>, r: WriteResult)
    requires |bytes| >= 4 && s.wires != []
    ensures Grows(s.wires, Send(s, bytes, r).wires)
    ensures Send(s, bytes, r).accepted == if Refuses(s, bytes) then s.accepted else s.accepted + [Stamp(bytes)]
  {
    hide Stamp, Refuses;
  }

  lemma ApplyGrows(s: State, c: Call)
    requires Valid(s) && Admissible(c)
    ensures Grows(s.wires, Apply(s, c).wires)
    ensures Apply(s, c).accepted ==
            if c.SendCall? && !Refuses(s, c.bytes) then s.accepted + [Stamp(c.bytes)] else s.accepted
  {
    hide Valid, Refuses, Stamp, Drain, Send;
    ValidReady(s);
    match c
    case SendCall(bytes, result) => SendGrows(s, bytes, result);
    case WriteOpportunity(results) =>
      DrainKeeps(s, results);
      DrainGrows(s, results);
    case SetAsyncMode(_) =>
    case SetQueueMaxSize(_) =>
  }
}
