/** The connection handler of the server: a reader that takes whatever each `Read` gives and resumes where it was. */
module Listener {
  import opened Bytes
  import opened Sequences
  import opened Frames

  // ---- One read, on values -----------------------------------------------------------------------

  /** `Header`: fewer than four length bytes are read. `Body`: the length is known, the body is not complete. */
  datatype Reader = Header(got: seq<Byte>) | Body(length: nat, got: seq<Byte>) | Closed

  const START := Header([])

  ghost predicate Ready(r: Reader) {
    match r
    case Header(got) => |got| < 4
    case Body(length, got) => 0 < length < TWO_32 && |got| < length
    case Closed => true
  }

  /** How many bytes the slice handed to `Read` has room for. */
  function Room(r: Reader): nat
    requires Ready(r) && !r.Closed?
  {
    match r
    case Header(got) => 4 - |got|
    case Body(length, got) => length - |got|
  }

  /** The bytes of the unfinished frame, as they came in. */
  function Partial(r: Reader): seq<Byte>
    requires Ready(r)
  {
    match r
    case Header(got) => got
    case Body(length, got) => U32(length) + got
    case Closed => []
  }

  /** The handler after the bytes of one `Read`, and the packet it passes on, if any. */
  function Take(r: Reader, chunk: seq<Byte>): (t: (Reader, seq<Packet>))
    requires Ready(r) && !r.Closed? && |chunk| <= Room(r)
    ensures Ready(t.0) && |t.1| <= 1
  {
    var got := r.got + chunk;
    match r
    case Header(_) =>
      if |got| < 4 then (Header(got), [])
      else
        FixedWidths(got);
        if FromBigEndian(got) == 0 then (START, []) else (Body(FromBigEndian(got), []), [])
    case Body(length, _) =>
      if |got| < length then (Body(length, got), [])
      else if length < SHORTEST then (Closed, [])
      else (START, [got])
  }

  /** One turn of the loop: the bytes read are used first, then a read error ends the loop. */
  function OnRead(r: Reader, chunk: seq<Byte>, err: bool): (t: (Reader, seq<Packet>))
    requires Ready(r) && !r.Closed? && |chunk| <= Room(r)
    ensures Ready(t.0) && |t.1| <= 1
  {
    var t := Take(r, chunk);
    if err then (Closed, t.1) else t
  }

  // ---- The reader is the parser, one chunk at a time ---------------------------------------------

  /** What one read makes of the unfinished frame and the new bytes is what the parser makes of both. */
  lemma TakeParses(r: Reader, chunk: seq<Byte>)
    requires Ready(r) && !r.Closed? && |chunk| <= Room(r)
    ensures var t, p := Take(r, chunk), Parse(Partial(r) + chunk);
            && p.packets == t.1
            && (p.ended <==> t.0.Closed?)
            && (p.ended ==> p.rest == [])
            && (!p.ended ==> p.rest == Partial(t.0))
  {
    var got, whole := r.got + chunk, Partial(r) + chunk;
    match r
    case Header(_) => HeaderParses(got);
    case Body(length, _) =>
      Assoc(U32(length), r.got, chunk);
      BodyParses(length, got);
    case Closed =>
  }

  lemma HeaderParses(got: seq<Byte>)
    requires |got| <= 4
    ensures Parse(got) ==
            if |got| == 4 && FromBigEndian(got) == 0 then Parsed([], false, []) else Parsed([], false, got)
    ensures |got| == 4 ==> FromBigEndian(got) < TWO_32 && U32(FromBigEndian(got)) + [] == got
  {
    hide U32, FromBigEndian;
    FixedWidths(got);
    ParseNothing();
    if |got| == 4 {
      assert got[..4] == got && got[4..] == [];
    }
  }

  lemma BodyParses(length: nat, got: seq<Byte>)
    requires 0 < length < TWO_32 && |got| <= length
    ensures Parse(U32(length) + got) ==
            if |got| < length then Parsed([], false, U32(length) + got)
            else if length < SHORTEST then Parsed([], true, [])
            else Parsed([got], false, [])
  {
    hide U32, FromBigEndian, Parse, Frame;
    if |got| == length {
      SizedFrame(got);
      ParseFrame(got, []);
      ParseNothing();
      assert Frame(got) + [] == Frame(got) && [got] + [] == [got];
    } else {
      BodyWaits(length, got);
    }
  }

  lemma BodyWaits(length: nat, got: seq<Byte>)
    requires |got| < length < TWO_32
    ensures Parse(U32(length) + got) == Parsed([], false, U32(length) + got)
  {
    hide U32, FromBigEndian;
    assert (U32(length) + got)[..4] == U32(length);
  }

  /** A short body that ended the connection is the last thing that was read. */
  ghost predicate NothingBehindEnd(consumed: seq<Byte>) {
    Parse(consumed).ended ==> Parse(consumed).rest == []
  }

  /** The reader in step with the parser: `consumed` bytes have been read, `packets` have been passed on. A reader closed by
      an error has passed on no less than the parser. */
  ghost predicate InStep(r: Reader, consumed: seq<Byte>, packets: seq<Packet>) {
    && Ready(r)
    && packets == Parse(consumed).packets
    && (!r.Closed? ==> !Parse(consumed).ended && Parse(consumed).rest == Partial(r))
    && NothingBehindEnd(consumed)
  }

  lemma StartInStep()
    ensures InStep(START, [], [])
  {
    ParseNothing();
  }

  /** Chunk independence, one read at a time: however the reads split the stream, the packets passed on are those of the
      bytes consumed, and the state of the reader is exactly the unfinished frame. */
  lemma ReadInStep(r: Reader, consumed: seq<Byte>, packets: seq<Packet>, chunk: seq<Byte>, err: bool)
    requires InStep(r, consumed, packets) && !r.Closed? && |chunk| <= Room(r)
    ensures var t := OnRead(r, chunk, err);
            && InStep(t.0, consumed + chunk, packets + t.1)
            && (t.0.Closed? <==> err || Parse(consumed + chunk).ended)
  {
    hide Take, Parse, Partial;
    ParseResumes(consumed, chunk);
    TakeParses(r, chunk);
  }

  lemma TakeInStep(r: Reader, consumed: seq<Byte>, packets: seq<Packet>, chunk: seq<Byte>)
    requires InStep(r, consumed, packets) && !r.Closed? && |chunk| <= Room(r)
    ensures InStep(Take(r, chunk).0, consumed + chunk, packets + Take(r, chunk).1)
  {
    hide Take, InStep;
    ReadInStep(r, consumed, packets, chunk, false);
  }

  lemma InStepPackets(r: Reader, consumed: seq<Byte>, packets: seq<Packet>)
    requires InStep(r, consumed, packets)
    ensures packets == Parse(consumed).packets && Ready(r)
    ensures NothingBehindEnd(consumed)
  {
  }

  /** A reader that closed without a read error met a short body. */
  lemma ClosedEnded(r: Reader, consumed: seq<Byte>, packets: seq<Packet>, chunk: seq<Byte>)
    requires InStep(r, consumed, packets) && !r.Closed? && |chunk| <= Room(r) && Take(r, chunk).0.Closed?
    ensures Parse(consumed + chunk).ended
  {
    hide Take, InStep;
    ReadInStep(r, consumed, packets, chunk, false);
  }

  // ---- The handler -------------------------------------------------------------------------------

  /** A read result: how many bytes the network has ready, and whether `Read` reports an error with them. */
  datatype Arrival = Arrival(count: nat, err: bool)

  /** `net.Conn`: the bytes still to come and the way they arrive. When nothing more is scheduled, reads fail. */
  class Connection {
    var incoming: seq<Byte>
    var schedule: seq<Arrival>
    ghost var consumed: seq<Byte>
    ghost var errors: nat

    constructor (incoming: seq<Byte>, schedule: seq<Arrival>)
      ensures this.incoming == incoming && this.schedule == schedule && consumed == [] && errors == 0
    {
      this.incoming, this.schedule := incoming, schedule;
      consumed, errors := [], 0;
    }

    /** Fills `buffer` from index `from` on with at most what has arrived. */
    method Read(buffer: array<Byte>, from: nat) returns (n: nat, err: bool)
      requires from <= buffer.Length
      modifies this, buffer
      ensures n <= buffer.Length - from
      ensures n <= |old(incoming)|
      ensures consumed == old(consumed) + old(incoming)[..n] && incoming == old(incoming)[n..]
      ensures buffer[..] == old(buffer[..from]) + old(incoming)[..n] + old(buffer[from..])[n..]
      ensures |schedule| < |old(schedule)| || err
      ensures errors == old(errors) + if err then 1 else 0
    {
      if schedule == [] {
        errors := errors + 1;
        assert old(buffer[..]) == old(buffer[..from]) + [] + old(buffer[from..])[0..];
        return 0, true;
      }
      n, err := schedule[0].count, schedule[0].err;
      n := if n <= |incoming| then n else |incoming|;
      n := if n <= buffer.Length - from then n else buffer.Length - from;
      schedule, errors := schedule[1..], errors + if err then 1 else 0;
      var chunk := incoming[..n];
      incoming, consumed := incoming[n..], consumed + chunk;
      forall i | 0 <= i < n {
        buffer[from + i] := chunk[i];
      }
      assert buffer[..] == old(buffer[..from]) + chunk + old(buffer[from..])[n..];
    }
  }

  ghost predicate Holds(arrays: seq<array<Byte>>, packets: seq<Packet>)
    reads arrays
  {
    |arrays| == |packets| && forall i :: 0 <= i < |arrays| ==> arrays[i][..] == packets[i]
  }

  lemma HoldsMore(arrays: seq<array<Byte>>, packets: seq<Packet>, a: array<Byte>)
    requires Holds(arrays, packets)
    ensures Holds(arrays + [a], packets + [a[..]])
  {
  }

  lemma HoldsNone()
    ensures Holds([], [])
  {
  }

  /** The state of the loop as a value. */
  ghost function ReaderOf(headerBuf: array<Byte>, readBuf: array<Byte>, packetLength: nat, alreadyRead: nat): Reader
    requires if packetLength == 0 then alreadyRead < headerBuf.Length else alreadyRead <= readBuf.Length
    reads headerBuf, readBuf
  {
    if packetLength == 0 then Header(headerBuf[..alreadyRead]) else Body(packetLength, readBuf[..alreadyRead])
  }

  /** `handleConnection`. It stops at the first short body or read error; every packet passed on is an array of its own, and
      none is touched by a later read. That the loop ends at all rests on `alreadyRead < packetLength` in the body branch:
      the path on which that branch does not read is never taken. */
  method HandleConnection(conn: Connection) returns (enqueued: seq<array<Byte>>)
    requires conn.consumed == [] && conn.errors == 0
    modifies conn
    ensures conn.consumed + conn.incoming == old(conn.incoming)
    ensures Holds(enqueued, Parse(conn.consumed).packets)
    ensures conn.errors <= 1 && (conn.errors == 1 || Parse(conn.consumed).ended)
    ensures NothingBehindEnd(conn.consumed)
    ensures forall i :: 0 <= i < |enqueued| ==> fresh(enqueued[i]) && enqueued[i].Length > 12
    ensures forall i, j :: 0 <= i < j < |enqueued| ==> enqueued[i] != enqueued[j]
  {
    hide InStep, Parse, Holds;
    HoldsNone();
    var headerBuf := new Byte[4](_ => 0);
    var readBuf := new Byte[0];
    var packetLength: nat := 0;
    var alreadyRead: nat := 0;
    enqueued := [];
    ghost var packets: seq<Packet> := [];
    StartInStep();
    InStepPackets(START, [], []);
    assert headerBuf[..0] == [];
    while true
      invariant fresh(headerBuf) && fresh(readBuf) && headerBuf != readBuf && headerBuf.Length == 4
      invariant if packetLength == 0 then alreadyRead < 4 else readBuf.Length == packetLength && alreadyRead < packetLength
      invariant conn.consumed + conn.incoming == old(conn.incoming) && conn.errors == 0
      invariant InStep(ReaderOf(headerBuf, readBuf, packetLength, alreadyRead), conn.consumed, packets)
      invariant Holds(enqueued, packets)
      invariant forall i :: 0 <= i < |enqueued| ==> fresh(enqueued[i]) && enqueued[i].Length > 12
      invariant forall i :: 0 <= i < |enqueued| ==> enqueued[i] != headerBuf && (packetLength != 0 ==> enqueued[i] != readBuf)
      invariant forall i, j :: 0 <= i < j < |enqueued| ==> enqueued[i] != enqueued[j]
      decreases |conn.schedule|
    {
      if packetLength == 0 {
        var err;
        alreadyRead, err := ReadHeader(conn, headerBuf, alreadyRead, packets);
        if alreadyRead == 4 {
          packetLength := FromBigEndian(headerBuf[..]);
          alreadyRead := 0;
          readBuf := new Byte[packetLength];
          assert readBuf[..0] == [] && headerBuf[..0] == [];
        }
        if err {
          break;
        }
      } else {
        if alreadyRead < packetLength {
          var err;
          alreadyRead, err := ReadBody(conn, readBuf, alreadyRead, packets);
          if alreadyRead == packetLength {
            if readBuf.Length > 12 {
              HoldsMore(enqueued, packets, readBuf);
              enqueued := enqueued + [readBuf];
              packets := packets + [readBuf[..]];
            } else {
              break;
            }
            packetLength := 0;
            alreadyRead := 0;
            assert headerBuf[..0] == [];
          }
          if err {
            break;
          }
        }
      }
    }
  }

  /** A read in the header branch, up to the four bytes of the length. */
  method ReadHeader(conn: Connection, headerBuf: array<Byte>, alreadyRead: nat, ghost packets: seq<Packet>)
    returns (nowRead: nat, err: bool)
    requires headerBuf.Length == 4 && alreadyRead < 4
    requires InStep(Header(headerBuf[..alreadyRead]), conn.consumed, packets)
    modifies conn, headerBuf
    ensures nowRead <= 4
    ensures nowRead < 4 ==> InStep(Header(headerBuf[..nowRead]), conn.consumed, packets)
    ensures nowRead == 4 ==>
              var length := FromBigEndian(headerBuf[..]);
              InStep(if length == 0 then START else Body(length, []), conn.consumed, packets)
    ensures packets == Parse(conn.consumed).packets && NothingBehindEnd(conn.consumed)
    ensures conn.consumed + conn.incoming == old(conn.consumed + conn.incoming)
    ensures |conn.schedule| < |old(conn.schedule)| || err
    ensures conn.errors == old(conn.errors) + if err then 1 else 0
  {
    hide InStep, Parse, FromBigEndian;
    ghost var r, came := Header(headerBuf[..alreadyRead]), conn.incoming;
    InStepPackets(r, conn.consumed, packets);
    var numOfBytes;
    numOfBytes, err := ReadInto(conn, headerBuf, alreadyRead, r, packets);
    nowRead := alreadyRead;
    if numOfBytes > 0 {
      nowRead := nowRead + numOfBytes;
    }
    assert packets + [] == packets && headerBuf[..] == headerBuf[..4];
    InStepPackets(Take(r, came[..numOfBytes]).0, conn.consumed, packets);
  }

  /** A read in the body branch, up to the length of the body. */
  method ReadBody(conn: Connection, readBuf: array<Byte>, alreadyRead: nat, ghost packets: seq<Packet>)
    returns (nowRead: nat, err: bool)
    requires alreadyRead < readBuf.Length
    requires InStep(Body(readBuf.Length, readBuf[..alreadyRead]), conn.consumed, packets)
    modifies conn, readBuf
    ensures nowRead <= readBuf.Length
    ensures nowRead < readBuf.Length ==>
              && InStep(Body(readBuf.Length, readBuf[..nowRead]), conn.consumed, packets)
              && packets == Parse(conn.consumed).packets
    ensures nowRead == readBuf.Length > 12 ==>
              InStep(START, conn.consumed, packets + [readBuf[..]]) && packets + [readBuf[..]] == Parse(conn.consumed).packets
    ensures nowRead == readBuf.Length <= 12 ==> packets == Parse(conn.consumed).packets && Parse(conn.consumed).ended
    ensures NothingBehindEnd(conn.consumed)
    ensures conn.consumed + conn.incoming == old(conn.consumed + conn.incoming)
    ensures |conn.schedule| < |old(conn.schedule)| || err
    ensures conn.errors == old(conn.errors) + if err then 1 else 0
  {
    hide InStep, Parse;
    ghost var r, before, came := Body(readBuf.Length, readBuf[..alreadyRead]), conn.consumed, conn.incoming;
    InStepPackets(r, before, packets);
    var numOfBytes;
    numOfBytes, err := ReadInto(conn, readBuf, alreadyRead, r, packets);
    nowRead := alreadyRead;
    if numOfBytes > 0 {
      nowRead := nowRead + numOfBytes;
    }
    ghost var t := Take(r, came[..numOfBytes]);
    assert packets + [] == packets && readBuf[..readBuf.Length] == readBuf[..];
    InStepPackets(t.0, conn.consumed, packets + t.1);
    if t.0.Closed? {
      ClosedEnded(r, before, packets, came[..numOfBytes]);
    }
  }

  /** `conn.Read(buffer[alreadyRead:])`, which keeps the bytes read so far in front of the new ones. */
  method ReadInto(conn: Connection, buffer: array<Byte>, alreadyRead: nat, ghost r: Reader, ghost packets: seq<Packet>)
    returns (n: nat, err: bool)
    requires InStep(r, conn.consumed, packets) && Ready(r) && !r.Closed?
    requires alreadyRead < buffer.Length && buffer[..alreadyRead] == r.got && Room(r) == buffer.Length - alreadyRead
    modifies conn, buffer
    ensures n <= buffer.Length - alreadyRead && n <= |old(conn.incoming)|
    ensures buffer[..alreadyRead + n] == r.got + old(conn.incoming)[..n]
    ensures conn.consumed == old(conn.consumed) + old(conn.incoming)[..n]
    ensures conn.consumed + conn.incoming == old(conn.consumed + conn.incoming)
    ensures InStep(Take(r, old(conn.incoming)[..n]).0, conn.consumed, packets + Take(r, old(conn.incoming)[..n]).1)
    ensures |conn.schedule| < |old(conn.schedule)| || err
    ensures conn.errors == old(conn.errors) + if err then 1 else 0
  {
    hide InStep, Take;
    ghost var before, came := conn.consumed, conn.incoming;
    n, err := conn.Read(buffer, alreadyRead);
    TakeInStep(r, before, packets, came[..n]);
    assert came == came[..n] + came[n..];
    Assoc(before, came[..n], came[n..]);
  }
}
