/** What each call of `PosixIO` does to the queue and to the connections, said of its arguments. */
module PosixCalls {
  import opened Bytes
  import opened Sequences
  import opened PosixBuffers
  import opened PosixQueue

  // ---- send --------------------------------------------------------------------------------------

  /** The frame fits the limit beside all bytes still to be sent. */
  predicate Fits(s: State, bytes: seq<Byte>) {
    s.maxSize == 0 || |Unsent(s.queue)| + |bytes| <= s.maxSize
  }

  /** `send` writes the frame itself. */
  predicate WritesAtOnce(s: State, bytes: seq<Byte>) {
    Fits(s, bytes) && s.queue == [] && !s.async
  }

  /** ... and the write takes nothing and leaves `errno` set. */
  predicate Reconnects(s: State, bytes: seq<Byte>, r: WriteResult) {
    WritesAtOnce(s, bytes) && r.written <= 0 && r.errno
  }

  function WrittenAtOnce(s: State, bytes: seq<Byte>, r: WriteResult): nat {
    if WritesAtOnce(s, bytes) && r.written > 0 then Min(r.written, |bytes|) else 0
  }

  lemma FitsIff(s: State, bytes: seq<Byte>)
    requires Valid(s)
    ensures Fits(s, bytes) <==> !Refuses(s, bytes)
  {
  }

  /** A frame is refused exactly when it does not fit, and then only counted. An accepted one joins the unsent bytes, but for
      what goes out at once: in synchronous mode, with nothing queued, as much as the socket takes. */
  lemma SendOutcome(s: State, bytes: seq<Byte>, r: WriteResult)
    requires Valid(s) && |bytes| >= 4
    ensures s.wires != []
    ensures var t, n := Send(s, bytes, r), WrittenAtOnce(s, bytes, r);
            if Fits(s, bytes) then
              && t.accepted == s.accepted + [Stamp(bytes)] && t.dropped == s.dropped
              && Unsent(t.queue) == (Unsent(s.queue) + Stamp(bytes))[n..]
              && t.maxSize == s.maxSize && t.async == s.async
            else t == s.(dropped := s.dropped + 1)
  {
    FitsIff(s, bytes);
    HeadUnfinished(s);
    UnsentEmpty();
    hide Unsent, Stamp, Valid, Fits, Refuses;
    if Fits(s, bytes) {
      if WritesAtOnce(s, bytes) {
        OneUnsent(Stamp(bytes), WrittenAtOnce(s, bytes, r));
      } else {
        UnsentSnoc(s.queue, Pending(Stamp(bytes), 0));
        assert Left(Pending(Stamp(bytes), 0)) == Stamp(bytes);
      }
    }
  }

  lemma UnsentEmpty()
    ensures Unsent([]) == []
  {
  }

  lemma OneUnsent(frame: seq<Byte>, n: nat)
    requires n <= |frame|
    ensures Unsent(if n < |frame| then [Pending(frame, n)] else []) == ([] + frame)[n..]
  {
    if n < |frame| {
      assert [Pending(frame, n)][1..] == [];
    }
  }

  /** `send` opens a connection exactly when a frame it accepts and writes itself goes nowhere and `errno` is set. */
  lemma SendOpens(s: State, bytes: seq<Byte>, r: WriteResult)
    requires Valid(s) && |bytes| >= 4
    ensures s.wires != []
    ensures |Send(s, bytes, r).wires| == |s.wires| + if Reconnects(s, bytes, r) then 1 else 0
    ensures Reconnects(s, bytes, r) ==> Send(s, bytes, r).wires == s.wires + [[]]
    ensures WrittenAtOnce(s, bytes, r) == 0 && !Reconnects(s, bytes, r) ==> Send(s, bytes, r).wires == s.wires
  {
    FitsIff(s, bytes);
    hide Stamp, Unsent;
  }

  lemma {:induction false} DrainOpens(s: State, rs: seq<WriteResult>)
    requires Ready(s)
    ensures |Drain(s, rs).wires| == |s.wires|
    decreases |s.queue|
  {
    if s.queue != [] && rs != [] && HeadDone(WriteHead(s, rs[0])) {
      DrainOpens(PopHead(WriteHead(s, rs[0])), rs[1..]);
    }
  }

  /** Only `send` opens connections, one at a time, and only after a failed write of its own. */
  lemma ConnectionsOpened(s: State, c: Call)
    requires Valid(s) && Admissible(c)
    ensures Ready(s)
    ensures |Apply(s, c).wires| == |s.wires| + if c.SendCall? && Reconnects(s, c.bytes, c.result) then 1 else 0
  {
    ValidReady(s);
    hide Valid, Ready, Drain, Send, Reconnects;
    match c
    case SendCall(bytes, r) => SendOpens(s, bytes, r);
    case WriteOpportunity(rs) => DrainOpens(s, rs);
    case SetAsyncMode(_) =>
    case SetQueueMaxSize(_) =>
  }

  // ---- onWriteOpportunity ------------------------------------------------------------------------

  /** The first `k` answers take the first `k` buffers whole, and there is no next answer that does so. */
  ghost predicate TakesWhole(queue: seq<Pending>, rs: seq<WriteResult>, k: nat) {
    && k <= |queue| && k <= |rs|
    && (forall i :: 0 <= i < k ==> rs[i].written >= |Left(queue[i])|)
    && (k < |queue| && k < |rs| ==> rs[k].written < |Left(queue[k])|)
  }

  /** What is queued after `k` buffers have gone and the next answer fell short of its buffer. */
  function LeftOver(queue: seq<Pending>, rs: seq<WriteResult>, k: nat): seq<Pending>
    requires k <= |queue| && k <= |rs| && forall r :: r in rs ==> r.written >= 0
  {
    if k == |queue| || k == |rs| then queue[k..]
    else [Pending(queue[k].frame, queue[k].sent + rs[k].written)] + queue[k + 1..]
  }

  /** `k` buffers gone, and one more answer used if it was there to fall short. */
  ghost predicate StopsAfter(s: State, rs: seq<WriteResult>, k: nat, t: State, used: nat) {
    && k <= |s.queue| && k <= |rs| && NoFailure(rs)
    && t.queue == LeftOver(s.queue, rs, k)
    && t.sent == s.sent + k
    && used == k + if k < |s.queue| && k < |rs| then 1 else 0
  }

  ghost predicate DrainStopsAfter(s: State, rs: seq<WriteResult>, k: nat) {
    Ready(s) && StopsAfter(s, rs, k, Drain(s, rs), Used(s, rs))
  }

  /** The loop goes on after every buffer that is taken whole, and stops at the first that is not. */
  lemma {:induction false} DrainExact(s: State, rs: seq<WriteResult>, k: nat)
    requires Valid(s) && NoFailure(rs) && TakesWhole(s.queue, rs, k)
    ensures DrainStopsAfter(s, rs, k)
    decreases k
  {
    hide *;
    if k == 0 {
      DrainStops(s, rs);
    } else {
      var w, later := DrainGoesOn(s, rs, k);
      DrainExact(w, later, k - 1);
      StoppedLater(s, rs, k, w, later);
    }
  }

  /** `w` and `later` are what is left of the state and the answers after one buffer taken whole. */
  ghost predicate FirstGone(s: State, rs: seq<WriteResult>, w: State, later: seq<WriteResult>) {
    && s.queue != [] && rs != [] && later == rs[1..] && w.queue == s.queue[1..] && w.sent == s.sent + 1
    && Ready(s) && Ready(w) && NoFailure(rs)
    && Drain(s, rs) == Drain(w, later) && Used(s, rs) == 1 + Used(w, later)
  }

  lemma DrainGoesOn(s: State, rs: seq<WriteResult>, k: nat) returns (w: State, later: seq<WriteResult>)
    requires Valid(s) && NoFailure(rs) && TakesWhole(s.queue, rs, k) && k > 0
    ensures FirstGone(s, rs, w, later) && Valid(w) && NoFailure(later) && TakesWhole(w.queue, later, k - 1)
  {
    hide Valid, Ready, Pass, LeftOver, NoFailure, TakesWhole, Drain, Used, StopsAfter, Left;
    ValidReady(s);
    WholeBounds(s.queue, rs, k);
    WholeTail(s.queue, rs, k);
    WholePass(s, rs);
    w, later := Pass(s, rs[0]), rs[1..];
  }

  lemma DrainStops(s: State, rs: seq<WriteResult>)
    requires Valid(s) && NoFailure(rs) && TakesWhole(s.queue, rs, 0)
    ensures DrainStopsAfter(s, rs, 0)
  {
    ValidReady(s);
    hide Valid, LeftOver, NoFailure, TakesWhole, Drain, Used, StopsAfter, Left;
    WholeBounds(s.queue, rs, 0);
    if s.queue == [] || rs == [] {
      NoPass(s, rs);
      StoppedNow(s, rs, s, 0);
    } else {
      LastPass(s, rs);
      StoppedNow(s, rs, Drain(s, rs), 1);
    }
  }

  lemma StoppedNow(s: State, rs: seq<WriteResult>, t: State, used: nat)
    requires NoFailure(rs) && t.sent == s.sent
    requires if s.queue == [] || rs == [] then t.queue == s.queue && used == 0
             else t.queue == s.queue[0 := s.queue[0].(sent := s.queue[0].sent + rs[0].written)] && used == 1
    ensures StopsAfter(s, rs, 0, t, used)
  {
    LeftOverNow(s.queue, rs);
    hide LeftOver, NoFailure;
  }

  lemma StoppedLater(s: State, rs: seq<WriteResult>, k: nat, w: State, later: seq<WriteResult>)
    requires k > 0 && FirstGone(s, rs, w, later) && DrainStopsAfter(w, later, k - 1)
    ensures DrainStopsAfter(s, rs, k)
  {
    hide LeftOver, NoFailure, Ready, Drain, Used;
    LeftOverTail(s.queue, rs, k);
  }

  /** Some `k` always says how far a drain goes. */
  lemma {:induction false} SomeTakesWhole(queue: seq<Pending>, rs: seq<WriteResult>) returns (k: nat)
    ensures TakesWhole(queue, rs, k)
  {
    if queue == [] || rs == [] || rs[0].written < |Left(queue[0])| {
      k := 0;
    } else {
      k := SomeTakesWhole(queue[1..], rs[1..]);
      hide Left;
      forall i | 0 <= i < k + 1 ensures rs[i].written >= |Left(queue[i])| {
        if i > 0 {
          assert rs[1..][i - 1] == rs[i] && queue[1..][i - 1] == queue[i];
        }
      }
      k := k + 1;
    }
  }

  lemma WholeBounds(queue: seq<Pending>, rs: seq<WriteResult>, k: nat)
    requires TakesWhole(queue, rs, k)
    ensures k <= |queue| && k <= |rs|
    ensures k == 0 && queue != [] && rs != [] ==> rs[0].written < |Left(queue[0])|
  {
    hide Left;
  }

  lemma NoPass(s: State, rs: seq<WriteResult>)
    requires Ready(s) && (s.queue == [] || rs == [])
    ensures Drain(s, rs) == s && Used(s, rs) == 0
  {
  }

  lemma {:induction false} LastPass(s: State, rs: seq<WriteResult>)
    requires Valid(s) && NoFailure(rs) && s.queue != [] && rs != [] && rs[0].written < |Left(s.queue[0])|
    ensures Ready(s)
    ensures var t, head := Drain(s, rs), s.queue[0];
            Used(s, rs) == 1 && t.sent == s.sent && t.queue == s.queue[0 := head.(sent := head.sent + rs[0].written)]
  {
    HeadUnfinished(s);
    ValidReady(s);
    assert rs[0] in rs;
    hide Valid, Unsent, Carry;
  }

  lemma {:induction false} WholePass(s: State, rs: seq<WriteResult>)
    requires Valid(s) && NoFailure(rs) && s.queue != [] && rs != [] && rs[0].written >= |Left(s.queue[0])|
    ensures Ready(s) && s.queue[0].sent <= |s.queue[0].frame|
    ensures var t := Pass(s, rs[0]);
            && Valid(t) && Ready(t) && NoFailure(rs[1..]) && t.queue == s.queue[1..] && t.sent == s.sent + 1
            && Drain(s, rs) == Drain(t, rs[1..]) && Used(s, rs) == 1 + Used(t, rs[1..])
  {
    HeadUnfinished(s);
    assert rs[0] in rs;
    PassKeeps(s, rs[0]);
    ValidReady(s);
    ValidReady(Pass(s, rs[0]));
    hide Valid, Unsent, Carry;
  }

  lemma WholeTail(queue: seq<Pending>, rs: seq<WriteResult>, k: nat)
    requires TakesWhole(queue, rs, k) && k > 0
    ensures TakesWhole(queue[1..], rs[1..], k - 1) && rs[0].written >= |Left(queue[0])|
  {
    hide Left;
    assert forall i :: 0 <= i < |rs| - 1 ==> rs[1..][i] == rs[i + 1];
    assert forall i :: 0 <= i < |queue| - 1 ==> queue[1..][i] == queue[i + 1];
  }

  lemma LeftOverTail(queue: seq<Pending>, rs: seq<WriteResult>, k: nat)
    requires 0 < k <= |queue| && k <= |rs| && NoFailure(rs) && NoFailure(rs[1..])
    ensures LeftOver(queue, rs, k) == LeftOver(queue[1..], rs[1..], k - 1)
  {
  }

  lemma LeftOverNow(queue: seq<Pending>, rs: seq<WriteResult>)
    requires NoFailure(rs)
    ensures queue == [] || rs == [] ==> LeftOver(queue, rs, 0) == queue
    ensures queue != [] && rs != [] ==>
              LeftOver(queue, rs, 0) == queue[0 := queue[0].(sent := queue[0].sent + rs[0].written)]
  {
  }
}
