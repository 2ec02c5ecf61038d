/** The path can always empty: whatever has happened, further steps of clients, connections and workers bring every accepted
    event to the storage. */
module Emptying {
  import opened Bytes
  import opened Delivery
  import opened Frames
  import opened Pipeline
  import opened Schema
  import opened Sequences
  import Compiler
  import Ingester
  import Listener
  import PosixQueue

  /** Worker `w` still serves an open channel. */
  ghost predicate Live(s: Pipe, w: nat) {
    w < |s.server.workers| && s.server.workers[w].alive && !s.server.closed
  }

  /** A state that has lost nothing and need not. */
  ghost predicate Going(fs: seq<Func>, s: Pipe, w: nat) {
    && WellFormed(fs) && Valid(fs, s) && Live(s, w) && NoReadError(s) && NoneTooShort(LoggedIn(s))
  }

  lemma {:induction false} RunAppend(fs: seq<Func>, s: Pipe, a: seq<Action>, b: seq<Action>)
    ensures Run(fs, s, a + b) == Run(fs, Run(fs, s, a), b)
    decreases |a|
  {
    hide Next;
    if a == [] {
      assert a + b == b;
    } else {
      RunAppend(fs, Next(fs, s, a[0]), a[1..], b);
      assert (a + b)[0] == a[0] && (a + b)[1..] == a[1..] + b;
    }
  }

  lemma RunOne(fs: seq<Func>, s: Pipe, a: Action)
    ensures Run(fs, s, [a]) == Next(fs, s, a)
  {
    hide Next;
    assert [a][1..] == [];
  }

  lemma RunNone(fs: seq<Func>, s: Pipe)
    ensures Run(fs, s, []) == s
  {
  }

  lemma RunFirst(fs: seq<Func>, s: Pipe, a: Action, more: seq<Action>)
    ensures Run(fs, s, [a] + more) == Run(fs, Next(fs, s, a), more)
  {
    hide Run, Next;
    RunAppend(fs, s, [a], more);
    RunOne(fs, s, a);
  }

  // ---- The channel -------------------------------------------------------------------------------

  lemma ReceiveGoes(fs: seq<Func>, s: Pipe, w: nat)
    requires Going(fs, s, w) && s.server.channel != []
    ensures var t := Next(fs, s, Serve(Ingester.Receive(w, true)));
            Going(fs, t, w) && t.clients == s.clients && |t.server.channel| == |s.server.channel| - 1
  {
    var a := Serve(Ingester.Receive(w, true));
    StepKeeps(fs, s, a);
    hide Valid, WellFormed, NoneTooShort, Enabled;
    ServeNext(fs, s, Ingester.Receive(w, true));
    SameClients(s, Next(fs, s, a));
  }

  lemma ServeNext(fs: seq<Func>, s: Pipe, step: Ingester.Action<Item>)
    requires !step.Enqueue?
    ensures Next(fs, s, Serve(step)) == s.(server := Ingester.Next(s.server, step))
  {
    hide Ingester.Next;
  }

  lemma SameClients(s: Pipe, t: Pipe)
    requires t.clients == s.clients
    ensures LoggedIn(t) == LoggedIn(s)
    ensures NoReadError(s) ==> NoReadError(t)
  {
    if NoReadError(s) {
      forall key | KeyIn(t, key) ensures !RemoteAt(t, key).failed {
        assert KeyIn(s, key) && RemoteAt(s, key) == RemoteAt(t, key);
      }
    }
  }

  lemma {:induction false} EmptyChannel(fs: seq<Func>, s: Pipe, w: nat) returns (more: seq<Action>)
    requires Going(fs, s, w)
    ensures var t := Run(fs, s, more);
            Going(fs, t, w) && t.clients == s.clients && t.server.channel == []
    decreases |s.server.channel|
  {
    hide Going, Next, Run;
    if s.server.channel == [] {
      RunNone(fs, s);
      return [];
    }
    var a := Serve(Ingester.Receive(w, true));
    ReceiveGoes(fs, s, w);
    more := EmptyChannel(fs, Next(fs, s, a), w);
    RunFirst(fs, s, a, more);
    more := [a] + more;
  }

  // ---- One client --------------------------------------------------------------------------------

  const ONE_BYTE := PosixQueue.WriteOpportunity([PosixQueue.WriteResult(1, false)])

  /** Everything but client `c` is as it was, and that client only wrote. */
  ghost predicate OnlyWrote(s: Pipe, t: Pipe, c: nat) {
    && |t.clients| == |s.clients| && t.server == s.server
    && (forall d :: 0 <= d < |s.clients| && d != c ==> t.clients[d] == s.clients[d])
    && (c < |s.clients| ==>
          && t.clients[c].logged == s.clients[c].logged && t.clients[c].remotes == s.clients[c].remotes
          && |t.clients[c].tx.wires| == |s.clients[c].tx.wires|)
  }

  lemma OnlyWroteBoth(r: Pipe, s: Pipe, t: Pipe, c: nat)
    requires OnlyWrote(r, s, c) && OnlyWrote(s, t, c)
    ensures OnlyWrote(r, t, c)
  {
  }

  lemma {:induction false} SameLogged(a: seq<Client>, b: seq<Client>, n: nat)
    requires n <= |a| == |b| && forall c :: 0 <= c < n ==> a[c].logged == b[c].logged
    ensures Logged(a, n) == Logged(b, n)
  {
    if n > 0 {
      SameLogged(a, b, n - 1);
    }
  }

  lemma WroteStays(s: Pipe, t: Pipe, c: nat)
    requires OnlyWrote(s, t, c) && c < |s.clients|
    ensures LoggedIn(t) == LoggedIn(s)
    ensures NoReadError(s) ==> NoReadError(t)
  {
    SameLogged(s.clients, t.clients, |s.clients|);
    if NoReadError(s) {
      forall key | KeyIn(t, key) ensures !RemoteAt(t, key).failed {
        assert KeyIn(s, key) && RemoteAt(s, key) == RemoteAt(t, key);
      }
    }
  }

  lemma WriteOnce(tx: PosixQueue.State)
    requires PosixQueue.Valid(tx) && tx.queue != []
    ensures PosixQueue.Ready(tx) && PosixQueue.Admissible(ONE_BYTE)
    ensures var t := PosixQueue.Apply(tx, ONE_BYTE);
            |t.wires| == |tx.wires| && |PosixQueue.Unsent(t.queue)| < |PosixQueue.Unsent(tx.queue)|
  {
    hide PosixQueue.Valid, PosixQueue.Drain, PosixQueue.Unsent;
    PosixQueue.ValidReady(tx);
    var rs := [PosixQueue.WriteResult(1, false)];
    PosixQueue.DrainKeeps(tx, rs);
    PosixQueue.DrainGrows(tx, rs);
  }

  lemma TransmitGoes(fs: seq<Func>, s: Pipe, w: nat, c: nat)
    requires Going(fs, s, w) && c < |s.clients| && s.clients[c].tx.queue != []
    ensures var t := Next(fs, s, Transmit(c, ONE_BYTE));
            && Going(fs, t, w) && OnlyWrote(s, t, c)
            && |PosixQueue.Unsent(t.clients[c].tx.queue)| < |PosixQueue.Unsent(s.clients[c].tx.queue)|
  {
    hide ClientsOk, WellFormed, NoneTooShort, NoReadError, LoggedIn, PosixQueue.Apply, PosixQueue.Unsent, PosixQueue.Valid,
         Ingester.Valid, KeysIn;
    var a := Transmit(c, ONE_BYTE);
    StepKeeps(fs, s, a);
    ReadyInValid(fs, s, c);
    QueueValid(fs, s, c);
    WriteOnce(s.clients[c].tx);
    WroteStays(s, Next(fs, s, a), c);
  }

  lemma QueueValid(fs: seq<Func>, s: Pipe, c: nat)
    requires Valid(fs, s) && c < |s.clients|
    ensures PosixQueue.Valid(s.clients[c].tx)
  {
  }

  lemma {:induction false} EmptyClient(fs: seq<Func>, s: Pipe, w: nat, c: nat) returns (more: seq<Action>)
    requires Going(fs, s, w) && c < |s.clients|
    ensures var t := Run(fs, s, more);
            Going(fs, t, w) && OnlyWrote(s, t, c) && t.clients[c].tx.queue == []
    decreases |PosixQueue.Unsent(s.clients[c].tx.queue)|
  {
    hide Going, Next, Run, PosixQueue.Unsent;
    if s.clients[c].tx.queue == [] {
      RunNone(fs, s);
      return [];
    }
    var a := Transmit(c, ONE_BYTE);
    TransmitGoes(fs, s, w, c);
    more := EmptyClient(fs, Next(fs, s, a), w, c);
    RunFirst(fs, s, a, more);
    OnlyWroteBoth(s, Next(fs, s, a), Run(fs, s, [a] + more), c);
    more := [a] + more;
  }

  ghost predicate QueuesEmpty(s: Pipe, n: nat) {
    forall c :: 0 <= c < n && c < |s.clients| ==> s.clients[c].tx.queue == []
  }

  lemma {:induction false} EmptyClients(fs: seq<Func>, s: Pipe, w: nat, n: nat) returns (more: seq<Action>)
    requires Going(fs, s, w) && n <= |s.clients|
    ensures var t := Run(fs, s, more);
            && Going(fs, t, w) && QueuesEmpty(t, n) && |t.clients| == |s.clients| && LoggedIn(t) == LoggedIn(s)
  {
    hide Going, Run, LoggedIn, NoReadError;
    if n == 0 {
      RunNone(fs, s);
      return [];
    }
    more := EmptyClients(fs, s, w, n - 1);
    var t := Run(fs, s, more);
    var last := EmptyClient(fs, t, w, n - 1);
    WroteStays(t, Run(fs, t, last), n - 1);
    RunAppend(fs, s, more, last);
    more := more + last;
  }

  // ---- One connection ----------------------------------------------------------------------------

  /** Only the handler of connection `key`, and the ingester, went on. */
  ghost predicate OnlyRead(s: Pipe, t: Pipe, key: Key) {
    && |t.clients| == |s.clients|
    && forall c :: 0 <= c < |s.clients| ==>
         && t.clients[c].tx == s.clients[c].tx && t.clients[c].logged == s.clients[c].logged
         && |t.clients[c].remotes| == |s.clients[c].remotes|
         && forall v :: 0 <= v < |s.clients[c].remotes| && Key(c, v) != key ==>
              t.clients[c].remotes[v] == s.clients[c].remotes[v]
  }

  lemma OnlyReadBoth(r: Pipe, s: Pipe, t: Pipe, key: Key)
    requires OnlyRead(r, s, key) && OnlyRead(s, t, key)
    ensures OnlyRead(r, t, key)
  {
  }

  lemma SetRemoteReads(s: Pipe, key: Key, r: Remote)
    requires KeyIn(s, key)
    ensures var t := SetRemote(s, key, r);
            OnlyRead(s, t, key) && KeyIn(t, key) && RemoteAt(t, key) == r && WireAt(t, key) == WireAt(s, key)
  {
  }

  lemma ReadStays(s: Pipe, t: Pipe, key: Key)
    requires OnlyRead(s, t, key)
    ensures LoggedIn(t) == LoggedIn(s)
    ensures KeyIn(s, key) ==> KeyIn(t, key) && WireAt(t, key) == WireAt(s, key)
    ensures KeyIn(t, key) && NoReadError(s) && !RemoteAt(t, key).failed ==> NoReadError(t)
  {
    SameLogged(s.clients, t.clients, |s.clients|);
    if KeyIn(t, key) && NoReadError(s) && !RemoteAt(t, key).failed {
      forall other | KeyIn(t, other) ensures !RemoteAt(t, other).failed {
        if other != key {
          assert KeyIn(s, other) && RemoteAt(s, other) == RemoteAt(t, other);
        }
      }
    }
  }

  /** A handler that met neither a read error nor a short event is open, and reads into a slice that is not empty. */
  lemma OpenHandler(fs: seq<Func>, s: Pipe, w: nat, key: Key)
    requires Going(fs, s, w) && KeyIn(s, key)
    ensures Listener.Ready(RemoteAt(s, key).reader) && !RemoteAt(s, key).reader.Closed?
    ensures Listener.Room(RemoteAt(s, key).reader) >= 1 && RemoteAt(s, key).consumed <= |WireAt(s, key)|
  {
    hide WellFormed, Valid, Segment, Arrived, Unwritten, ClientOk, Compiler.TooShort, Logged, Flat, FramesOf, Bodies, Delivered,
         Listener.Partial, ShortWithin;
    FaithfulAt(fs, s, key);
    if RemoteAt(s, key).reader.Closed? {
      ClosedAtShort(fs, s, key);
      var c, k := s.clients[key.client], |Arrived(s, key)|;
      var e := Segment(c, key.wire)[k];
      SegmentLogged(fs, c, key.wire);
      InLogged(s.clients, |s.clients|, key.client, e);
      assert false;
    }
  }

  lemma StillGoing(fs: seq<Func>, s: Pipe, t: Pipe, w: nat)
    requires Going(fs, s, w) && Valid(fs, t) && Live(t, w) && NoReadError(t) && LoggedIn(t) == LoggedIn(s)
    ensures Going(fs, t, w)
  {
  }

  lemma GoingValid(fs: seq<Func>, s: Pipe, w: nat)
    requires Going(fs, s, w)
    ensures Valid(fs, s) && Live(s, w) && NoReadError(s)
  {
  }

  lemma NextRead(fs: seq<Func>, s: Pipe, key: Key)
    requires KeyIn(s, key) && CanRead(RemoteAt(s, key), WireAt(s, key), 1)
    ensures Next(fs, s, Read(key, 1, false)) == SetRemote(s, key, Reading(RemoteAt(s, key), WireAt(s, key), 1, false))
    ensures Next(fs, s, Read(key, 1, false)).server == s.server
  {
    hide CanRead, Reading;
  }

  lemma ReadingOne(r: Remote, wire: seq<Byte>)
    requires CanRead(r, wire, 1)
    ensures var t := Reading(r, wire, 1, false);
            t.consumed == r.consumed + 1 && |t.outbox| <= 1 && t.failed == r.failed
  {
    hide Listener.OnRead;
  }

  lemma NoError(s: Pipe, key: Key)
    requires NoReadError(s) && KeyIn(s, key)
    ensures !RemoteAt(s, key).failed
  {
  }

  lemma ReadGoes(fs: seq<Func>, s: Pipe, w: nat, key: Key)
    requires Going(fs, s, w) && KeyIn(s, key)
    requires RemoteAt(s, key).outbox == [] && RemoteAt(s, key).consumed < |WireAt(s, key)|
    ensures var t := Next(fs, s, Read(key, 1, false));
            && Going(fs, t, w) && OnlyRead(s, t, key) && KeyIn(t, key)
            && RemoteAt(t, key).consumed == RemoteAt(s, key).consumed + 1 && |RemoteAt(t, key).outbox| <= 1
  {
    hide Going, Valid, NoReadError, LoggedIn, Next, SetRemote, Reading, OnlyRead, Listener.Ready, Listener.Room, KeyIn;
    OpenHandler(fs, s, w, key);
    GoingValid(fs, s, w);
    var r, wire := RemoteAt(s, key), WireAt(s, key);
    assert CanRead(r, wire, 1);
    ReadingOne(r, wire);
    NextRead(fs, s, key);
    StepKeeps(fs, s, Read(key, 1, false));
    SetRemoteReads(s, key, Reading(r, wire, 1, false));
    NoError(s, key);
    var t := Next(fs, s, Read(key, 1, false));
    ReadStays(s, t, key);
    StillGoing(fs, s, t, w);
  }

  lemma NextPassOn(fs: seq<Func>, s: Pipe, key: Key)
    requires KeyIn(s, key) && RemoteAt(s, key).outbox != []
    requires s.server.channel == [] && s.server.bufferSize > 0 && !s.server.closed
    ensures var t, r := Next(fs, s, PassOn(key)), RemoteAt(s, key);
            && t.clients == SetRemote(s, key, r.(outbox := r.outbox[1..])).clients
            && t.server.workers == s.server.workers && t.server.closed == s.server.closed
  {
    hide KeyIn;
  }

  lemma PassOnGoes(fs: seq<Func>, s: Pipe, w: nat, key: Key)
    requires Going(fs, s, w) && KeyIn(s, key) && RemoteAt(s, key).outbox != [] && s.server.channel == []
    ensures var t := Next(fs, s, PassOn(key));
            && Going(fs, t, w) && OnlyRead(s, t, key) && KeyIn(t, key)
            && RemoteAt(t, key) == RemoteAt(s, key).(outbox := RemoteAt(s, key).outbox[1..])
  {
    hide Going, Valid, NoReadError, LoggedIn, Next, SetRemote, OnlyRead, KeyIn;
    GoingValid(fs, s, w);
    RoomInChannel(fs, s);
    NextPassOn(fs, s, key);
    StepKeeps(fs, s, PassOn(key));
    var r := RemoteAt(s, key);
    var mid, t := SetRemote(s, key, r.(outbox := r.outbox[1..])), Next(fs, s, PassOn(key));
    SetRemoteReads(s, key, r.(outbox := r.outbox[1..]));
    SameReads(s, mid, t, key);
    NoError(s, key);
    ReadStays(s, t, key);
    StillGoing(fs, s, t, w);
  }

  lemma SameReads(s: Pipe, mid: Pipe, t: Pipe, key: Key)
    requires OnlyRead(s, mid, key) && t.clients == mid.clients
    ensures OnlyRead(s, t, key)
    ensures KeyIn(mid, key) ==> KeyIn(t, key) && RemoteAt(t, key) == RemoteAt(mid, key)
  {
  }

  lemma SameIsRead(s: Pipe, key: Key)
    ensures OnlyRead(s, s, key)
  {
  }

  lemma RoomInChannel(fs: seq<Func>, s: Pipe)
    requires Valid(fs, s)
    ensures s.server.bufferSize > 0
  {
  }

  ghost predicate Caught(s: Pipe, key: Key) {
    KeyIn(s, key) && RemoteAt(s, key).outbox == [] && RemoteAt(s, key).consumed == |WireAt(s, key)|
  }

  ghost function Work(s: Pipe, key: Key): nat
    requires KeyIn(s, key) && RemoteAt(s, key).consumed <= |WireAt(s, key)|
  {
    2 * (|WireAt(s, key)| - RemoteAt(s, key).consumed) + |RemoteAt(s, key).outbox|
  }

  lemma KeyReads(fs: seq<Func>, s: Pipe, w: nat, key: Key)
    requires Going(fs, s, w) && KeyIn(s, key)
    requires RemoteAt(s, key).outbox == [] && RemoteAt(s, key).consumed < |WireAt(s, key)|
    ensures var t := Run(fs, s, [Read(key, 1, false)]);
            && Going(fs, t, w) && OnlyRead(s, t, key) && KeyIn(t, key)
            && RemoteAt(t, key).consumed <= |WireAt(t, key)| && Work(t, key) < Work(s, key)
  {
    hide Going, Next, Run, OnlyRead, KeyIn, NoReadError, LoggedIn;
    ReadGoes(fs, s, w, key);
    RunOne(fs, s, Read(key, 1, false));
    ReadStays(s, Next(fs, s, Read(key, 1, false)), key);
  }

  lemma KeyPassesOn(fs: seq<Func>, s: Pipe, w: nat, key: Key) returns (some: seq<Action>)
    requires Going(fs, s, w) && KeyIn(s, key)
    requires RemoteAt(s, key).outbox != [] && RemoteAt(s, key).consumed <= |WireAt(s, key)|
    ensures var t := Run(fs, s, some);
            && Going(fs, t, w) && OnlyRead(s, t, key) && KeyIn(t, key)
            && RemoteAt(t, key).consumed <= |WireAt(t, key)| && Work(t, key) < Work(s, key)
  {
    hide Going, Next, Run, OnlyRead, KeyIn, NoReadError, LoggedIn;
    some := EmptyChannel(fs, s, w);
    var t := Run(fs, s, some);
    SameIsRead(s, key);
    SameReads(s, s, t, key);
    PassOnGoes(fs, t, w, key);
    OnlyReadBoth(s, t, Next(fs, t, PassOn(key)), key);
    ReadStays(s, Next(fs, t, PassOn(key)), key);
    RunAppend(fs, s, some, [PassOn(key)]);
    RunOne(fs, t, PassOn(key));
    some := some + [PassOn(key)];
  }

  /** One packet passed on, or one byte read. */
  lemma KeyGoes(fs: seq<Func>, s: Pipe, w: nat, key: Key) returns (some: seq<Action>)
    requires Going(fs, s, w) && KeyIn(s, key) && !Caught(s, key)
    ensures RemoteAt(s, key).consumed <= |WireAt(s, key)|
    ensures var t := Run(fs, s, some);
            && Going(fs, t, w) && OnlyRead(s, t, key) && KeyIn(t, key)
            && RemoteAt(t, key).consumed <= |WireAt(t, key)| && Work(t, key) < Work(s, key)
  {
    hide Going, Run, OnlyRead, KeyIn, Work;
    OpenHandler(fs, s, w, key);
    if RemoteAt(s, key).outbox == [] {
      KeyReads(fs, s, w, key);
      return [Read(key, 1, false)];
    }
    some := KeyPassesOn(fs, s, w, key);
  }

  lemma {:induction false} EmptyKey(fs: seq<Func>, s: Pipe, w: nat, key: Key) returns (more: seq<Action>)
    requires Going(fs, s, w) && KeyIn(s, key) && RemoteAt(s, key).consumed <= |WireAt(s, key)|
    ensures var t := Run(fs, s, more);
            Going(fs, t, w) && OnlyRead(s, t, key) && Caught(t, key)
    decreases Work(s, key)
  {
    hide Going, Run, OnlyRead, KeyIn, Caught, Work;
    if Caught(s, key) {
      RunNone(fs, s);
      SameIsRead(s, key);
      return [];
    }
    var some := KeyGoes(fs, s, w, key);
    var t := Run(fs, s, some);
    more := EmptyKey(fs, t, w, key);
    RunAppend(fs, s, some, more);
    OnlyReadBoth(s, t, Run(fs, t, more), key);
    more := some + more;
  }

  ghost predicate AllCaught(s: Pipe, keys: seq<Key>) {
    forall key :: key in keys ==> Caught(s, key)
  }

  /** What a connection has caught up with stays so while another one goes on. */
  lemma CaughtStays(s: Pipe, t: Pipe, key: Key, other: Key)
    requires OnlyRead(s, t, key) && Caught(s, other) && other != key
    ensures Caught(t, other)
  {
  }

  lemma QueuesStay(s: Pipe, t: Pipe, key: Key, n: nat)
    requires OnlyRead(s, t, key) && QueuesEmpty(s, n)
    ensures QueuesEmpty(t, n)
  {
  }

  /** Every connection of `t` is one of `s`. */
  ghost predicate SameShape(s: Pipe, t: Pipe) {
    forall key :: KeyIn(t, key) ==> KeyIn(s, key)
  }

  lemma ShapeStays(s: Pipe, t: Pipe, key: Key)
    requires OnlyRead(s, t, key)
    ensures SameShape(s, t) && SameShape(t, s)
  {
  }

  lemma {:induction false} EmptyKeys(fs: seq<Func>, s: Pipe, w: nat, keys: seq<Key>) returns (more: seq<Action>)
    requires Going(fs, s, w) && QueuesEmpty(s, |s.clients|)
    requires forall key :: key in keys ==> KeyIn(s, key)
    ensures var t := Run(fs, s, more);
            && Going(fs, t, w) && AllCaught(t, keys) && LoggedIn(t) == LoggedIn(s)
            && |t.clients| == |s.clients| && QueuesEmpty(t, |t.clients|)
            && SameShape(s, t) && SameShape(t, s)
  {
    hide Going, Run, LoggedIn, KeyIn, Caught, OnlyRead, QueuesEmpty, NoReadError;
    if keys == [] {
      RunNone(fs, s);
      return [];
    }
    var n := |keys| - 1;
    more := EmptyKeys(fs, s, w, keys[..n]);
    var t := Run(fs, s, more);
    assert KeyIn(t, keys[n]);
    OpenHandlerGoing(fs, t, w, keys[n]);
    var last := EmptyKey(fs, t, w, keys[n]);
    var end := Run(fs, t, last);
    forall key | key in keys ensures Caught(end, key) {
      if key != keys[n] {
        CaughtStays(t, end, keys[n], key);
      }
    }
    ShapeStays(t, end, keys[n]);
    ReadStays(t, end, keys[n]);
    QueuesStay(t, end, keys[n], |s.clients|);
    SameCount(t, end, keys[n]);
    RunAppend(fs, s, more, last);
    more := more + last;
  }

  lemma SameCount(s: Pipe, t: Pipe, key: Key)
    requires OnlyRead(s, t, key)
    ensures |t.clients| == |s.clients|
  {
  }

  lemma OpenHandlerGoing(fs: seq<Func>, s: Pipe, w: nat, key: Key)
    requires Going(fs, s, w) && KeyIn(s, key)
    ensures RemoteAt(s, key).consumed <= |WireAt(s, key)|
  {
    hide Going;
    OpenHandler(fs, s, w, key);
  }

  // ---- The batches -------------------------------------------------------------------------------

  ghost predicate BatchesEmpty(s: Pipe, n: nat) {
    forall v :: 0 <= v < n && v < |s.server.workers| ==> s.server.workers[v].batch == []
  }

  /** A tick whose flush goes well leaves a worker without a batch, and the others as they were. */
  lemma TickGoes(fs: seq<Func>, s: Pipe, w: nat, v: nat)
    requires Going(fs, s, w) && v < |s.server.workers| && s.server.workers[v].alive
    ensures var t := Next(fs, s, Serve(Ingester.Tick(v, true)));
            && Going(fs, t, w) && t.clients == s.clients && t.server.channel == s.server.channel
            && |t.server.workers| == |s.server.workers| && t.server.workers[v].batch == []
            && forall x :: 0 <= x < |s.server.workers| && x != v ==> t.server.workers[x] == s.server.workers[x]
  {
    hide Going, Valid, NoReadError, LoggedIn, Next;
    GoingValid(fs, s, w);
    ServeNext(fs, s, Ingester.Tick(v, true));
    var t := Next(fs, s, Serve(Ingester.Tick(v, true)));
    StepKeeps(fs, s, Serve(Ingester.Tick(v, true)));
    SameClients(s, t);
    StillGoing(fs, s, t, w);
  }

  lemma DeadIsEmpty(fs: seq<Func>, s: Pipe, v: nat)
    requires Valid(fs, s) && v < |s.server.workers| && !s.server.workers[v].alive
    ensures s.server.workers[v].batch == []
  {
    hide ClientsOk, KeysIn;
    assert Ingester.WorkerOk(s.server.workers[v], s.server.bufferSize);
  }

  lemma {:induction false} EmptyBatches(fs: seq<Func>, s: Pipe, w: nat, n: nat) returns (more: seq<Action>)
    requires Going(fs, s, w) && n <= |s.server.workers|
    ensures var t := Run(fs, s, more);
            && Going(fs, t, w) && t.clients == s.clients && t.server.channel == s.server.channel
            && |t.server.workers| == |s.server.workers| && BatchesEmpty(t, n)
  {
    hide Going, Run, Next;
    if n == 0 {
      RunNone(fs, s);
      return [];
    }
    more := EmptyBatches(fs, s, w, n - 1);
    var t := Run(fs, s, more);
    if t.server.workers[n - 1].alive {
      var a := Serve(Ingester.Tick(n - 1, true));
      TickGoes(fs, t, w, n - 1);
      RunAppend(fs, s, more, [a]);
      RunOne(fs, t, a);
      more := more + [a];
    } else {
      GoingValid(fs, t, w);
      DeadIsEmpty(fs, t, n - 1);
    }
  }

  // ---- All of it ---------------------------------------------------------------------------------

  ghost predicate Empty(s: Pipe) {
    && QueuesEmpty(s, |s.clients|)
    && (forall key :: KeyIn(s, key) ==> Caught(s, key))
    && s.server.channel == []
    && BatchesEmpty(s, |s.server.workers|)
  }

  lemma KeysOfValid(fs: seq<Func>, s: Pipe)
    requires Valid(fs, s)
    ensures forall key :: key in Keys(s.clients, |s.clients|) <==> KeyIn(s, key)
  {
    hide Valid, Keys, Distinct;
    KeysExact(s.clients, |s.clients|);
    forall key: Key ensures key in Keys(s.clients, |s.clients|) <==> KeyIn(s, key) {
      if key in Keys(s.clients, |s.clients|) {
        KeyKnown(fs, s, key);
      }
    }
  }

  /** From any going state, some steps leave nothing on the way. */
  lemma EmptyAll(fs: seq<Func>, s: Pipe, w: nat) returns (more: seq<Action>)
    requires Going(fs, s, w)
    ensures var t := Run(fs, s, more);
            Going(fs, t, w) && Empty(t) && LoggedIn(t) == LoggedIn(s)
  {
    hide Going, Run, LoggedIn, KeyIn, Caught, QueuesEmpty, NoReadError, Valid, Keys, BatchesEmpty;
    var first := EmptyClients(fs, s, w, |s.clients|);
    var s1 := Run(fs, s, first);
    GoingValid(fs, s1, w);
    KeysOfValid(fs, s1);
    var second := EmptyKeys(fs, s1, w, Keys(s1.clients, |s1.clients|));
    var s2 := Run(fs, s1, second);
    GoingValid(fs, s2, w);
    KeysCaught(fs, s1, s2);
    var third := EmptyChannel(fs, s2, w);
    var s3 := Run(fs, s2, third);
    var fourth := EmptyBatches(fs, s3, w, |s3.server.workers|);
    var s4 := Run(fs, s3, fourth);
    SameEmpty(s2, s3);
    SameEmpty(s3, s4);
    SameClients(s2, s3);
    SameClients(s3, s4);
    RunAppend(fs, s, first, second);
    RunAppend(fs, s, first + second, third);
    RunAppend(fs, s, first + second + third, fourth);
    more := first + second + third + fourth;
  }

  /** No new connection appears while connections are read. */
  lemma KeysCaught(fs: seq<Func>, s: Pipe, t: Pipe)
    requires Valid(fs, s) && Valid(fs, t) && AllCaught(t, Keys(s.clients, |s.clients|))
    requires |t.clients| == |s.clients| && SameShape(s, t)
    ensures forall key :: KeyIn(t, key) ==> Caught(t, key)
  {
    hide Valid, Caught, Keys;
    KeysOfValid(fs, s);
  }

  lemma SameEmpty(s: Pipe, t: Pipe)
    requires t.clients == s.clients
    ensures QueuesEmpty(s, |s.clients|) ==> QueuesEmpty(t, |t.clients|)
    ensures (forall key :: KeyIn(s, key) ==> Caught(s, key)) ==> forall key :: KeyIn(t, key) ==> Caught(t, key)
  {
    if forall key :: KeyIn(s, key) ==> Caught(s, key) {
      forall key | KeyIn(t, key) ensures Caught(t, key) {
        assert KeyIn(s, key) && Caught(s, key);
      }
    }
  }

  // ---- What an empty path has delivered ----------------------------------------------------------

  lemma PartialUnfinished(r: Listener.Reader)
    requires Listener.Ready(r) && !r.Closed?
    ensures Split(Listener.Partial(r)) == []
  {
    if r.Body? {
      assert Listener.Partial(r)[..4] == U32(r.length);
    }
  }

  lemma NothingAt(s: Pipe, key: Key)
    requires Empty(s)
    ensures WaitingAt(s, key) == [] && ComingAt(s, key) == []
  {
    hide Split, Listener.Partial, BatchesEmpty;
    if KeyIn(s, key) {
      assert Caught(s, key);
      if Open(s, key) {
        var r := RemoteAt(s, key);
        PartialUnfinished(r.reader);
        NothingUnwritten(s, key);
        assert BytesAt(s, key) == Listener.Partial(r.reader);
      }
    }
  }

  lemma NothingUnwritten(s: Pipe, key: Key)
    requires QueuesEmpty(s, |s.clients|) && KeyIn(s, key)
    ensures Unwritten(s.clients[key.client], key.wire) == []
  {
  }

  lemma NothingOnTheWay(s: Pipe)
    requires Empty(s)
    ensures Waiting(s) == [] && Coming(s) == []
  {
    hide Empty, WaitingAt, ComingAt, Keys;
    forall key: Key ensures WaitingAt(s, key) == [] && ComingAt(s, key) == [] {
      NothingAt(s, key);
    }
    GatherNone(Keys(s.clients, |s.clients|), (key: Key) => WaitingAt(s, key));
    GatherNone(Keys(s.clients, |s.clients|), (key: Key) => ComingAt(s, key));
  }

  /** Everything handed over by the first `n` workers. */
  ghost function HandedOver(s: Pipe, n: nat): seq<Item>
    requires n <= |s.server.workers|
  {
    if n == 0 then [] else HandedOver(s, n - 1) + Flat(Ingester.Batches(s.server.workers[n - 1].handed))
  }

  lemma {:induction false} HandedIsTaken(s: Pipe, n: nat)
    requires n <= |s.server.workers| && BatchesEmpty(s, |s.server.workers|)
    ensures Ingester.TakenBy(s.server.workers, n) == HandedOver(s, n)
  {
    hide Flat, Ingester.Batches;
    if n > 0 {
      HandedIsTaken(s, n - 1);
      var handed := Flat(Ingester.Batches(s.server.workers[n - 1].handed));
      assert s.server.workers[n - 1].batch == [] && handed + [] == handed;
    }
  }

  /** The accepted events are those handed to the storage, each once. */
  ghost predicate AllHandedOver(fs: seq<Func>, s: Pipe)
    requires WellFormed(fs)
  {
    multiset(Knowns(LoggedIn(s))) == multiset(Meanings(fs, HandedOver(s, |s.server.workers|)))
  }

  lemma EmptyHandedOver(fs: seq<Func>, s: Pipe, w: nat)
    requires Going(fs, s, w) && Empty(s) && AllLoggable(fs, LoggedIn(s))
    ensures AllHandedOver(fs, s)
  {
    hide WellFormed, Valid, LoggedIn, NoReadError, NoneTooShort, AllLoggable, Waiting, Coming, Stranded, Ingester.TakenBy,
         HandedOver, Meanings, Knowns, BatchesEmpty, Caught, QueuesEmpty;
    NothingStranded(fs, s);
    EventsAccounted(fs, s);
    AccountsThere(fs, s);
    NothingOnTheWay(s);
    HandedIsTaken(s, |s.server.workers|);
    NoMeanings(fs);
  }

  lemma NoMeanings(fs: seq<Func>)
    requires WellFormed(fs)
    ensures Meanings(fs, []) == []
  {
  }

  /** These steps end in a state where every accepted event has been handed to the storage. */
  ghost predicate Finishes(fs: seq<Func>, s: Pipe, more: seq<Action>)
    requires WellFormed(fs)
  {
    var t := Run(fs, s, more);
    LoggedIn(t) == LoggedIn(s) && Empty(t) && AllHandedOver(fs, t)
  }

  /** From every reachable state with a worker at an open channel, no read error and no event that is too short, the path can
      empty: further steps, without new events, hand every accepted event to the storage. */
  lemma CanAlwaysFinish(fs: seq<Func>, u: Setup, actions: seq<Action>, w: nat)
    requires WellFormed(fs) && AllLoggable(fs, LoggedIn(Reached(fs, u, actions)))
    requires Live(Reached(fs, u, actions), w)
    requires NoReadError(Reached(fs, u, actions)) && NoneTooShort(LoggedIn(Reached(fs, u, actions)))
    ensures exists more :: Finishes(fs, Reached(fs, u, actions), more)
  {
    hide Reached, Valid, Live, NoReadError, NoneTooShort, LoggedIn, AllLoggable, Run, Empty, AllHandedOver;
    var s := Reached(fs, u, actions);
    ReachedValid(fs, u, actions);
    var more := EmptyAll(fs, s, w);
    EmptyHandedOver(fs, Run(fs, s, more), w);
    assert Finishes(fs, s, more);
  }
}
