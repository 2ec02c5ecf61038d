/** `PosixIO` with its buffers, each method proved against the step of the state machine in `PosixQueue`. */
module PosixIOs {
  import opened Bytes
  import opened PosixBuffers
  import opened PosixCalls
  import opened PosixQueue

  const SIZE_MAX := TWO_64 - 1

  /** The descriptor behind `_fd`: every connection opened so far with the bytes it took, and what `write` will answer. */
  class Socket {
    var wires: seq<seq<Byte>>
    var outcomes: seq<WriteResult>

    constructor (outcomes: seq<WriteResult>)
      ensures wires == [[]] && this.outcomes == outcomes
    {
      wires := [[]];
      this.outcomes := outcomes;
    }

    function Next(): WriteResult
      reads this
    {
      First(outcomes)
    }

    function Later(): seq<WriteResult>
      reads this
    {
      Rest(outcomes)
    }

    method Write(data: seq<Byte>) returns (written: int, errno: bool)
      requires wires != []
      modifies this
      ensures written == Taken(old(Next()), |data|) && errno == old(Next()).errno && outcomes == old(Later())
      ensures written <= 0 ==> wires == old(wires)
      ensures written > 0 ==> wires == old(wires[|wires| - 1 := wires[|wires| - 1] + data[..written]])
    {
      var r := Next();
      outcomes := Later();
      written, errno := Taken(r, |data|), r.errno;
      if written > 0 {
        var last := |wires| - 1;
        wires := wires[last := wires[last] + data[..written]];
      }
    }

    method Open()
      modifies this`wires
      ensures wires == old(wires) + [[]]
    {
      wires := wires + [[]];
    }
  }

  lemma SliceOfSlice(s: seq<Byte>, from: nat, n: nat)
    requires from + n <= |s|
    ensures s[from..][..n] == s[from..from + n]
  {
  }

  class PosixIO {
    const socket: Socket
    var queue: seq<PosixBuffer>
    var asyncMode: bool
    var queueMaxSize: nat
    var queueSize: nat
    var logPostedCnt: nat
    var logDroppedCnt: nat
    var logSentCnt: nat
    ghost var contents: seq<Pending>
    ghost var accepted: seq<seq<Byte>>
    ghost var cuts: seq<nat>

    ghost function Abs(): State
      reads this, socket
    {
      State(contents, queueMaxSize, queueSize, asyncMode, logPostedCnt, logDroppedCnt, logSentCnt,
            accepted, socket.wires, cuts)
    }

    /** Queued buffers are different objects over different memory, and `contents` says what is in them. */
    ghost predicate Linked()
      reads this, queue, set b | b in queue :: b.data
    {
      && |contents| == |queue|
      && (forall i :: 0 <= i < |queue| ==> contents[i] == Pending(queue[i].data[..], queue[i].readOffset))
      && (forall i :: 0 <= i < |queue| ==> queue[i].data.Length < SIZE_MAX)
      && (forall i, j :: 0 <= i < j < |queue| ==> queue[i] != queue[j] && queue[i].data != queue[j].data)
    }

    ghost predicate Inv()
      reads this, socket, queue, set b | b in queue :: b.data
    {
      Linked() && Valid(Abs())
    }

    /** A buffer nobody has queued: sending one twice would send the same memory twice. */
    ghost predicate Unqueued(buf: PosixBuffer)
      reads this
    {
      forall b :: b in queue ==> b != buf && b.data != buf.data
    }

    constructor (socket: Socket)
      requires socket.wires == [[]]
      ensures this.socket == socket && queue == [] && Abs() == INITIAL && Inv()
    {
      this.socket := socket;
      queue, asyncMode, queueMaxSize, queueSize := [], false, 0, 0;
      logPostedCnt, logDroppedCnt, logSentCnt := 0, 0, 0;
      contents, accepted, cuts := [], [], [0];
      new;
      InitialValid();
    }

    method Send(buf: PosixBuffer) returns (returned: PosixBuffer?)
      requires Inv() && buf.readOffset == 0 && 4 <= buf.data.Length < SIZE_MAX && Unqueued(buf)
      modifies this, socket, buf`readOffset, buf.data
      ensures Inv()
      ensures Abs() == PosixQueue.Send(old(Abs()), old(buf.data[..]), old(socket.Next()))
      ensures returned == if Fits(old(Abs()), old(buf.data[..])) then null else buf
      ensures |socket.wires| ==
              |old(socket.wires)| + if Reconnects(old(Abs()), old(buf.data[..]), old(socket.Next())) then 1 else 0
      ensures queue == old(queue) || queue == old(queue) + [buf]
    {
      hide Valid, Stamp, WriteNow, Fits, Reconnects;
      FitsIff(Abs(), buf.data[..]);
      SendOpens(Abs(), buf.data[..], socket.Next());
      SendKeeps(Abs(), buf.data[..], socket.Next());
      HeadUnfinished(Abs());
      if queueMaxSize != 0 && queueSize + buf.GetCapacity() > queueMaxSize {
        logDroppedCnt := logDroppedCnt + 1;
        return buf;
      }
      AcceptFrame(buf);
      if asyncMode || queue != [] {
        Enqueue(buf);
        return null;
      }
      WriteDirectly(buf);
      return null;
    }

    method Enqueue(buf: PosixBuffer)
      requires Linked() && buf.data.Length < SIZE_MAX && Unqueued(buf)
      modifies this`queue, this`contents
      ensures Linked() && queue == old(queue) + [buf]
      ensures contents == old(contents) + [Pending(buf.data[..], buf.readOffset)]
    {
      queue := queue + [buf];
      contents := contents + [Pending(buf.data[..], buf.readOffset)];
    }

    /** Counts the frame in and stamps its size over the first four bytes. */
    method AcceptFrame(buf: PosixBuffer)
      requires Linked() && 4 <= buf.data.Length < SIZE_MAX && Unqueued(buf)
      modifies this`logPostedCnt, this`queueSize, this`accepted, buf.data
      ensures Linked() && Abs() == Accept(old(Abs()), old(buf.data[..]))
      ensures buf.data[..] == Stamp(old(buf.data[..]))
    {
      logPostedCnt := logPostedCnt + 1;
      var length := U32((buf.GetCapacity() - 4) % TWO_32);
      buf.Overwrite(length);
      queueSize := queueSize + buf.GetCapacity();
      accepted := accepted + [buf.data[..]];
    }

    lemma EmptyLinked()
      requires queue == [] && contents == []
      ensures Linked()
    {
    }

    /** The synchronous write, with its reconnect when it fails. */
    method WriteDirectly(buf: PosixBuffer)
      requires queue == [] && contents == [] && buf.readOffset == 0 && 0 < buf.data.Length < SIZE_MAX
      requires socket.wires != [] && accepted != []
      modifies this`queue, this`contents, this`queueSize, this`logSentCnt, this`cuts, socket, buf`readOffset
      ensures Linked() && (queue == [] || queue == [buf])
      ensures Abs() == WriteNow(old(Abs()), buf.data[..], old(socket.Next()))
      ensures |socket.wires| ==
              |old(socket.wires)| + if old(socket.Next().written <= 0 && socket.Next().errno) then 1 else 0
    {
      hide Linked;
      assert buf.data[buf.readOffset..] == buf.data[..];
      var written, errno := socket.Write(buf.data[buf.readOffset..]);
      if written > 0 {
        CountOut(buf, written);
      } else if errno {
        socket.Open();
        cuts := cuts + [|accepted| - 1];
      }
      EmptyLinked();
      if buf.readOffset < buf.GetCapacity() {
        Enqueue(buf);
      }
    }

    method CountOut(buf: PosixBuffer, written: nat)
      modifies this`queueSize, this`logSentCnt, buf`readOffset
      ensures buf.readOffset == old(buf.readOffset) + written && queueSize == Subtract(old(queueSize), written)
      ensures logSentCnt == old(logSentCnt) + if buf.readOffset == buf.data.Length then 1 else 0
    {
      buf.SetReadOffset(buf.readOffset + written);
      queueSize := queueSize - (if written >= queueSize then queueSize else written);
      logSentCnt := logSentCnt + if buf.readOffset == buf.GetCapacity() then 1 else 0;
    }

    method SetAsyncMode(mode: bool)
      requires Inv()
      modifies this`asyncMode
      ensures Inv() && Abs() == old(Abs()).(async := mode)
    {
      hide Valid;
      SettingsKeep(Abs(), mode, queueMaxSize);
      asyncMode := mode;
    }

    method SetQueueMaxSize(max: nat)
      requires Inv()
      modifies this`queueMaxSize
      ensures Inv() && Abs() == old(Abs()).(maxSize := max)
    {
      hide Valid;
      SettingsKeep(Abs(), asyncMode, max);
      queueMaxSize := max;
    }

    lemma HeadLinked()
      requires Linked() && queue != []
      ensures |contents| == |queue| && contents[0] == Pending(queue[0].data[..], queue[0].readOffset)
      ensures queue[0].data.Length < SIZE_MAX
    {
    }

    lemma LinkedSmall()
      requires Linked()
      ensures |contents| == |queue| && AllSmall(contents)
    {
    }

    /** Writes the head buffer, then the next ones as long as each goes out whole. The result of `write` is kept in a
        `size_t`, so the branch for failed writes is never taken and a failed write is treated as a huge one. */
    method OnWriteOpportunity()
      requires Inv()
      modifies this`queue, this`contents, this`queueSize, this`logSentCnt, socket, queue`readOffset
      ensures Linked() && Abs().wires != []
      ensures |socket.wires| == |old(socket.wires)|
      ensures old(Ready(Abs())) && Abs() == Drain(old(Abs()), old(socket.outcomes))
      ensures socket.outcomes == old(socket.outcomes[Used(Abs(), socket.outcomes)..])
      ensures Inv() <==> old(NoFailure(socket.outcomes[..Used(Abs(), socket.outcomes)]))
    {
      hide Valid, WriteHead, PopHead, Drain, Used, Linked, AllSmall, NoFailure;
      LinkedSmall();
      HeadUnfinished(Abs());
      QueueBounds(Abs());
      DrainKeepsIff(Abs(), socket.outcomes);
      DrainOpens(Abs(), socket.outcomes);
      ghost var goal, later := Drain(Abs(), socket.outcomes), socket.outcomes[Used(Abs(), socket.outcomes)..];
      while queue != []
        invariant Linked() && socket.wires != [] && forall b :: b in queue ==> b in old(queue)
        invariant forall p :: p in contents ==> p.sent < |p.frame|
        invariant goal == Drain(Abs(), socket.outcomes)
        invariant later == socket.outcomes[Used(Abs(), socket.outcomes)..]
        decreases |queue|
      {
        var buf := queue[0];
        assert buf in queue;
        HeadLinked();
        DrainTurn(Abs(), socket.outcomes);
        UsedTurn(Abs(), socket.outcomes);
        WriteBuffer(buf);
        if buf.readOffset == buf.GetCapacity() {
          PopFront();
        } else {
          return;
        }
      }
      LinkedSmall();
      DrainEmpty(Abs(), socket.outcomes);
      UsedEmpty(Abs(), socket.outcomes);
    }

    method PopFront()
      requires Linked() && queue != []
      modifies this`queue, this`contents, this`logSentCnt
      ensures Linked() && queue == old(queue)[1..] && contents == old(contents)[1..]
      ensures Abs() == PopHead(old(Abs()))
    {
      queue, contents := queue[1..], contents[1..];
      logSentCnt := logSentCnt + 1;
    }

    /** One write of the head buffer, up to the test of its read offset. */
    method WriteBuffer(buf: PosixBuffer)
      requires Linked() && socket.wires != [] && queue != [] && buf == queue[0] && buf.readOffset < buf.data.Length
      modifies this`contents, this`queueSize, socket, buf`readOffset
      ensures Linked() && socket.wires != []
      ensures Abs() == WriteHead(old(Abs()), old(socket.Next())) && socket.outcomes == old(socket.Later())
      ensures |contents| == |old(contents)| && contents[1..] == old(contents)[1..] && |contents[0].frame| == buf.data.Length
      ensures contents[0].sent == buf.readOffset
    {
      hide WriteHead, Linked;
      HeadLinked();
      WriteHeadInSizeT(Abs(), socket.Next());
      ghost var head := contents[0];
      var result, errno := socket.Write(buf.data[buf.readOffset..]);
      if result > 0 {
        SliceOfSlice(buf.data[..], buf.readOffset, result);
      }
      var written: nat := if result < 0 then TWO_64 - 1 else result;
      if written > 0 {
        Advance(buf, written);
      }
    }

    method Advance(buf: PosixBuffer, written: nat)
      requires Linked() && queue != [] && buf == queue[0]
      modifies this`contents, this`queueSize, buf`readOffset
      ensures Linked() && buf.readOffset == (old(buf.readOffset) + written) % TWO_64
      ensures contents == old(contents)[0 := Pending(buf.data[..], buf.readOffset)]
      ensures queueSize == Subtract(old(queueSize), written)
    {
      buf.SetReadOffset((buf.readOffset + written) % TWO_64);
      contents := contents[0 := Pending(buf.data[..], buf.readOffset)];
      queueSize := queueSize - (if written >= queueSize then queueSize else written);
    }
  }
}
