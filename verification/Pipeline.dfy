/** The whole path of an event: clients log through their transmit queues, connections carry bytes, one handler per connection
    reads frames, and the ingester's workers hand them to the storage. Any part may take its next step at any time. */
module Pipeline {
  import opened Bytes
  import opened Sequences
  import opened Schema
  import opened ClientRuntime
  import opened Frames
  import opened Loggers
  import Ingester
  import Listener
  import PosixQueue

  /** A connection: the client that opened it, and how many it had opened before. */
  datatype Key = Key(client: nat, wire: nat)

  /** A packet in the ingester, with the connection it came from. */
  datatype Item = Item(key: Key, packet: Packet)

  /** The server's end of a connection: the bytes read so far, and a packet that waits for room in the channel. */
  datatype Remote = Remote(consumed: nat, reader: Listener.Reader, outbox: seq<Packet>, failed: bool)

  const OPENED := Remote(0, Listener.START, [], false)

  /** `logged`: the events whose frames `send` accepted. */
  datatype Client = Client(tx: PosixQueue.State, logged: seq<Event>, remotes: seq<Remote>)

  datatype Pipe = Pipe(clients: seq<Client>, server: Ingester.System<Item>)

  /** Any number of clients, and the configuration of the ingester as it comes from the file. */
  datatype Setup = Setup(clients: nat, workers: int, bufferSize: int, processors: nat)

  function Start(u: Setup): Pipe {
    Pipe(seq(u.clients, _ => Client(PosixQueue.INITIAL, [], [OPENED])),
         Ingester.Init(u.workers, u.bufferSize, u.processors))
  }

  function BodyOf(e: Event): Packet {
    if e.id < TWO_32 then Body(e) else []
  }

  function Bodies(es: seq<Event>): (r: seq<Packet>)
    ensures |r| == |es| && forall i :: 0 <= i < |r| ==> r[i] == BodyOf(es[i])
  {
    seq(|es|, i requires 0 <= i < |es| => BodyOf(es[i]))
  }

  /** `total_length` is a C++ `int`. */
  ghost predicate Loggable(fs: seq<Func>, e: Event) {
    IsEvent(fs, e) && 4 + |BodyOf(e)| < TWO_31
  }

  // ---- Steps -------------------------------------------------------------------------------------

  datatype Action =
    | Log(client: nat, event: Event, result: PosixQueue.WriteResult)
    | Transmit(client: nat, call: PosixQueue.Call)
    | Read(key: Key, count: nat, err: bool)
    | PassOn(key: Key)
    | Serve(step: Ingester.Action<Item>)

  ghost predicate KeyIn(s: Pipe, key: Key) {
    && key.client < |s.clients|
    && key.wire < |s.clients[key.client].remotes| == |s.clients[key.client].tx.wires|
  }

  ghost function RemoteAt(s: Pipe, key: Key): Remote
    requires KeyIn(s, key)
  {
    s.clients[key.client].remotes[key.wire]
  }

  ghost function WireAt(s: Pipe, key: Key): seq<Byte>
    requires KeyIn(s, key)
  {
    s.clients[key.client].tx.wires[key.wire]
  }

  /** A handler whose packet waits for the channel does not read. */
  ghost predicate CanRead(r: Remote, wire: seq<Byte>, count: nat) {
    && r.outbox == [] && Listener.Ready(r.reader) && !r.reader.Closed?
    && count <= Listener.Room(r.reader) && r.consumed + count <= |wire|
  }

  /** A client whose queue has a connection to write to. In every reachable state that is every client: `AlwaysReady`. */
  ghost predicate ReadyClient(s: Pipe, c: nat) {
    c < |s.clients| && PosixQueue.Ready(s.clients[c].tx)
  }

  ghost predicate Enabled(fs: seq<Func>, s: Pipe, a: Action) {
    match a
    case Log(c, e, _) => ReadyClient(s, c) && Loggable(fs, e)
    case Transmit(c, call) => ReadyClient(s, c) && !call.SendCall? && PosixQueue.Admissible(call)
    case Read(key, count, _) => KeyIn(s, key) && CanRead(RemoteAt(s, key), WireAt(s, key), count)
    case PassOn(key) =>
      && KeyIn(s, key) && RemoteAt(s, key).outbox != []
      && Ingester.Enabled(s.server, Ingester.Enqueue(Item(key, RemoteAt(s, key).outbox[0])))
    case Serve(step) => !step.Enqueue?
  }

  /** A call on the transmit queue; a connection it opens gets a handler of its own. */
  ghost function Calling(c: Client, call: PosixQueue.Call): Client
    requires PosixQueue.Ready(c.tx) && PosixQueue.Admissible(call)
  {
    var tx := PosixQueue.Apply(c.tx, call);
    c.(tx := tx, remotes := c.remotes + if |tx.wires| > |c.tx.wires| then [OPENED] else [])
  }

  ghost function SendEvent(e: Event, r: PosixQueue.WriteResult): PosixQueue.Call {
    PosixQueue.SendCall(HEADER + BodyOf(e), r)
  }

  ghost function Logging(c: Client, e: Event, r: PosixQueue.WriteResult): Client
    requires PosixQueue.Ready(c.tx)
  {
    Calling(c, SendEvent(e, r)).(
      logged := if PosixQueue.Refuses(c.tx, HEADER + BodyOf(e)) then c.logged else c.logged + [e])
  }

  ghost function Reading(r: Remote, wire: seq<Byte>, count: nat, err: bool): Remote
    requires CanRead(r, wire, count)
  {
    var t := Listener.OnRead(r.reader, wire[r.consumed..r.consumed + count], err);
    Remote(r.consumed + count, t.0, t.1, r.failed || err)
  }

  ghost function SetRemote(s: Pipe, key: Key, r: Remote): Pipe
    requires KeyIn(s, key)
  {
    var c := s.clients[key.client];
    s.(clients := s.clients[key.client := c.(remotes := c.remotes[key.wire := r])])
  }

  ghost function Next(fs: seq<Func>, s: Pipe, a: Action): Pipe {
    if !Enabled(fs, s, a) then s
    else
      match a
      case Log(c, e, r) => s.(clients := s.clients[c := Logging(s.clients[c], e, r)])
      case Transmit(c, call) => s.(clients := s.clients[c := Calling(s.clients[c], call)])
      case Read(key, count, err) => SetRemote(s, key, Reading(RemoteAt(s, key), WireAt(s, key), count, err))
      case PassOn(key) =>
        var r := RemoteAt(s, key);
        SetRemote(s, key, r.(outbox := r.outbox[1..])).(
          server := Ingester.Next(s.server, Ingester.Enqueue(Item(key, r.outbox[0]))))
      case Serve(step) => s.(server := Ingester.Next(s.server, step))
  }

  ghost function Run(fs: seq<Func>, s: Pipe, actions: seq<Action>): Pipe
    decreases |actions|
  {
    if actions == [] then s else Run(fs, Next(fs, s, actions[0]), actions[1..])
  }

  // ---- What every run keeps ----------------------------------------------------------------------

  /** The packets that came from one connection. */
  function From(key: Key, history: seq<Item>): seq<Packet> {
    if history == [] then []
    else
      var k := |history| - 1;
      From(key, history[..k]) + if history[k].key == key then [history[k].packet] else []
  }

  ghost predicate ClientOk(fs: seq<Func>, c: Client) {
    && PosixQueue.Valid(c.tx)
    && |c.remotes| == |c.tx.wires|
    && (forall e :: e in c.logged ==> Loggable(fs, e))
    && c.tx.accepted == FramesOf(Bodies(c.logged))
  }

  /** The handler in step with the parser on what it has read; it closed for a read error or a short body. */
  ghost predicate RemoteOk(r: Remote, wire: seq<Byte>, enqueued: seq<Packet>) {
    && r.consumed <= |wire|
    && Listener.InStep(r.reader, wire[..r.consumed], enqueued + r.outbox)
    && (r.reader.Closed? <==> r.failed || Parse(wire[..r.consumed]).ended)
  }

  ghost predicate RemotesOk(c: nat, remotes: seq<Remote>, wires: seq<seq<Byte>>, history: seq<Item>) {
    && |remotes| == |wires|
    && forall w :: 0 <= w < |remotes| ==> RemoteOk(remotes[w], wires[w], From(Key(c, w), history))
  }

  ghost predicate KeysIn(s: Pipe) {
    forall i :: 0 <= i < |s.server.history| ==> KeyIn(s, s.server.history[i].key)
  }

  ghost predicate ClientsOk(fs: seq<Func>, s: Pipe) {
    forall c :: 0 <= c < |s.clients| ==>
      && ClientOk(fs, s.clients[c])
      && RemotesOk(c, s.clients[c].remotes, s.clients[c].tx.wires, s.server.history)
  }

  ghost predicate Valid(fs: seq<Func>, s: Pipe) {
    Ingester.Valid(s.server) && ClientsOk(fs, s) && KeysIn(s)
  }

  lemma {:induction false} FromNone(key: Key, history: seq<Item>)
    requires forall i :: 0 <= i < |history| ==> history[i].key != key
    ensures From(key, history) == []
  {
    if history != [] {
      FromNone(key, history[..|history| - 1]);
    }
  }

  lemma FromSnoc(key: Key, history: seq<Item>, x: Item)
    ensures From(key, history + [x]) == From(key, history) + if x.key == key then [x.packet] else []
  {
    assert (history + [x])[..|history|] == history;
  }

  /** Later bytes do not disturb a handler. */
  lemma RemoteWaits(r: Remote, wire: seq<Byte>, longer: seq<Byte>, enqueued: seq<Packet>)
    requires RemoteOk(r, wire, enqueued) && wire <= longer
    ensures RemoteOk(r, longer, enqueued)
  {
    assert wire[..r.consumed] == longer[..r.consumed];
  }

  lemma OpenedOk()
    ensures RemoteOk(OPENED, [], [])
  {
    Listener.StartInStep();
    var none: seq<Packet> := [];
    assert none + OPENED.outbox == none;
  }

  lemma RemotesGrow(c: nat, remotes: seq<Remote>, wires: seq<seq<Byte>>, longer: seq<seq<Byte>>, history: seq<Item>)
    requires RemotesOk(c, remotes, wires, history) && PosixQueue.Grows(wires, longer)
    requires forall i :: 0 <= i < |history| ==> history[i].key != Key(c, |wires|)
    ensures RemotesOk(c, remotes + if |longer| > |wires| then [OPENED] else [], longer, history)
  {
    hide RemoteOk, From;
    forall w | 0 <= w < |wires| ensures RemoteOk(remotes[w], longer[w], From(Key(c, w), history)) {
      RemoteWaits(remotes[w], wires[w], longer[w], From(Key(c, w), history));
    }
    FromNone(Key(c, |wires|), history);
    OpenedOk();
  }

  lemma CallingKeeps(fs: seq<Func>, c: nat, client: Client, call: PosixQueue.Call, history: seq<Item>)
    requires ClientOk(fs, client) && RemotesOk(c, client.remotes, client.tx.wires, history)
    requires PosixQueue.Admissible(call)
    requires forall i :: 0 <= i < |history| ==> history[i].key != Key(c, |client.tx.wires|)
    ensures var t := Calling(client, call);
            && PosixQueue.Valid(t.tx) && |t.remotes| == |t.tx.wires| && t.logged == client.logged
            && RemotesOk(c, t.remotes, t.tx.wires, history)
            && |client.remotes| <= |t.remotes|
  {
    hide RemotesOk, PosixQueue.Valid, PosixQueue.Apply, PosixQueue.Admissible;
    PosixQueue.ApplyKeeps(client.tx, call);
    PosixQueue.ApplyGrows(client.tx, call);
    RemotesGrow(c, client.remotes, client.tx.wires, PosixQueue.Apply(client.tx, call).wires, history);
  }

  lemma BodiesSnoc(es: seq<Event>, e: Event)
    ensures FramesOf(Bodies(es + [e])) == FramesOf(Bodies(es)) + [Frame(BodyOf(e))]
  {
    hide Frame, BodyOf;
  }

  lemma LoggingKeeps(fs: seq<Func>, c: nat, client: Client, e: Event, r: PosixQueue.WriteResult, history: seq<Item>)
    requires ClientOk(fs, client) && RemotesOk(c, client.remotes, client.tx.wires, history) && Loggable(fs, e)
    requires forall i :: 0 <= i < |history| ==> history[i].key != Key(c, |client.tx.wires|)
    ensures var t := Logging(client, e, r);
            ClientOk(fs, t) && RemotesOk(c, t.remotes, t.tx.wires, history) && |client.remotes| <= |t.remotes|
  {
    hide RemotesOk, PosixQueue.Valid, PosixQueue.Apply, PosixQueue.Refuses, PosixQueue.Stamp, Calling, Loggable, BodyOf,
         FramesOf, Bodies;
    CallingKeeps(fs, c, client, SendEvent(e, r), history);
    PosixQueue.ApplyGrows(client.tx, SendEvent(e, r));
    StampIsFrame(BodyOf(e));
    BodiesSnoc(client.logged, e);
    PosixQueue.ValidReady(client.tx);
    CallingTx(client, SendEvent(e, r));
  }

  lemma CallingTx(c: Client, call: PosixQueue.Call)
    requires PosixQueue.Ready(c.tx) && PosixQueue.Admissible(call)
    ensures Calling(c, call).tx == PosixQueue.Apply(c.tx, call)
  {
  }

  lemma TransmitKeeps(fs: seq<Func>, c: nat, client: Client, call: PosixQueue.Call, history: seq<Item>)
    requires ClientOk(fs, client) && RemotesOk(c, client.remotes, client.tx.wires, history)
    requires PosixQueue.Admissible(call) && !call.SendCall?
    requires forall i :: 0 <= i < |history| ==> history[i].key != Key(c, |client.tx.wires|)
    ensures var t := Calling(client, call);
            ClientOk(fs, t) && RemotesOk(c, t.remotes, t.tx.wires, history) && |client.remotes| <= |t.remotes|
  {
    hide RemotesOk, PosixQueue.Valid, PosixQueue.Apply, PosixQueue.Refuses, Calling, Loggable, FramesOf, Bodies;
    CallingKeeps(fs, c, client, call, history);
    PosixQueue.ApplyGrows(client.tx, call);
    PosixQueue.ValidReady(client.tx);
    CallingTx(client, call);
  }

  lemma ReadingKeeps(r: Remote, wire: seq<Byte>, count: nat, err: bool, enqueued: seq<Packet>)
    requires RemoteOk(r, wire, enqueued) && CanRead(r, wire, count)
    ensures RemoteOk(Reading(r, wire, count, err), wire, enqueued)
  {
    hide Listener.InStep, Listener.OnRead;
    var before, chunk := wire[..r.consumed], wire[r.consumed..r.consumed + count];
    Listener.ReadInStep(r.reader, before, enqueued + r.outbox, chunk, err);
    assert before + chunk == wire[..r.consumed + count];
    assert enqueued + r.outbox == enqueued;
  }

  lemma OneRemoteEach(fs: seq<Func>, c: Client)
    requires ClientOk(fs, c)
    ensures |c.remotes| == |c.tx.wires|
  {
  }

  lemma KeysStay(s: Pipe, c: nat, t: Client)
    requires KeysIn(s) && c < |s.clients| && |s.clients[c].remotes| <= |t.remotes| == |t.tx.wires|
    ensures KeysIn(s.(clients := s.clients[c := t]))
  {
    var next := s.(clients := s.clients[c := t]);
    forall i | 0 <= i < |s.server.history| ensures KeyIn(next, next.server.history[i].key) {
      assert KeyIn(s, s.server.history[i].key);
    }
  }

  lemma ClientChanges(fs: seq<Func>, s: Pipe, c: nat, t: Client)
    requires Valid(fs, s) && c < |s.clients| && ClientOk(fs, t) && RemotesOk(c, t.remotes, t.tx.wires, s.server.history)
    requires |s.clients[c].remotes| <= |t.remotes|
    ensures Valid(fs, s.(clients := s.clients[c := t]))
  {
    hide RemotesOk, ClientOk, Ingester.Valid, KeysIn;
    OneRemoteEach(fs, t);
    KeysStay(s, c, t);
  }

  /** No packet can have come from a connection that is not open yet. */
  lemma NoneFromNew(fs: seq<Func>, s: Pipe, c: nat)
    requires Valid(fs, s) && c < |s.clients|
    ensures forall i :: 0 <= i < |s.server.history| ==> s.server.history[i].key != Key(c, |s.clients[c].tx.wires|)
  {
    hide ClientOk, RemotesOk;
    forall i | 0 <= i < |s.server.history| ensures s.server.history[i].key != Key(c, |s.clients[c].tx.wires|) {
      assert KeyIn(s, s.server.history[i].key);
    }
  }

  lemma ReadKeeps(fs: seq<Func>, s: Pipe, key: Key, count: nat, err: bool)
    requires Valid(fs, s) && KeyIn(s, key) && CanRead(RemoteAt(s, key), WireAt(s, key), count)
    ensures Valid(fs, SetRemote(s, key, Reading(RemoteAt(s, key), WireAt(s, key), count, err)))
  {
    hide RemoteOk, CanRead, Reading, From;
    var c, r := s.clients[key.client], Reading(RemoteAt(s, key), WireAt(s, key), count, err);
    ReadingKeeps(RemoteAt(s, key), WireAt(s, key), count, err, From(key, s.server.history));
    ClientChanges(fs, s, key.client, c.(remotes := c.remotes[key.wire := r]));
  }

  lemma RemotesElsewhere(c: nat, remotes: seq<Remote>, wires: seq<seq<Byte>>, history: seq<Item>, x: Item)
    requires RemotesOk(c, remotes, wires, history) && x.key.client != c
    ensures RemotesOk(c, remotes, wires, history + [x])
  {
    hide RemoteOk, From;
    forall w | 0 <= w < |remotes| ensures RemoteOk(remotes[w], wires[w], From(Key(c, w), history + [x])) {
      FromSnoc(Key(c, w), history, x);
      assert From(Key(c, w), history) + [] == From(Key(c, w), history);
    }
  }

  lemma RemotesPassOn(c: nat, w: nat, remotes: seq<Remote>, wires: seq<seq<Byte>>, history: seq<Item>)
    requires RemotesOk(c, remotes, wires, history) && w < |remotes| && remotes[w].outbox != []
    ensures var r := remotes[w];
            RemotesOk(c, remotes[w := r.(outbox := r.outbox[1..])], wires, history + [Item(Key(c, w), r.outbox[0])])
  {
    hide RemoteOk, From;
    var r := remotes[w];
    var x, next := Item(Key(c, w), r.outbox[0]), remotes[w := r.(outbox := r.outbox[1..])];
    forall v | 0 <= v < |remotes| ensures RemoteOk(next[v], wires[v], From(Key(c, v), history + [x])) {
      FromSnoc(Key(c, v), history, x);
      assert From(Key(c, v), history) + [] == From(Key(c, v), history);
      if v == w {
        PassOnKeeps(r, wires[w], From(Key(c, w), history));
      }
    }
  }

  lemma PassOnKeeps(r: Remote, wire: seq<Byte>, enqueued: seq<Packet>)
    requires RemoteOk(r, wire, enqueued) && r.outbox != []
    ensures RemoteOk(r.(outbox := r.outbox[1..]), wire, enqueued + [r.outbox[0]])
  {
    hide Listener.InStep;
    Assoc(enqueued, [r.outbox[0]], r.outbox[1..]);
    assert r.outbox == [r.outbox[0]] + r.outbox[1..];
  }

  lemma EnqueueKeeps(fs: seq<Func>, s: Pipe, key: Key)
    requires Valid(fs, s) && KeyIn(s, key) && RemoteAt(s, key).outbox != []
    requires Ingester.Enabled(s.server, Ingester.Enqueue(Item(key, RemoteAt(s, key).outbox[0])))
    ensures var r := RemoteAt(s, key);
            Valid(fs, SetRemote(s, key, r.(outbox := r.outbox[1..])).(
                        server := Ingester.Next(s.server, Ingester.Enqueue(Item(key, r.outbox[0])))))
  {
    hide Ingester.Valid, RemotesOk;
    var r, history := RemoteAt(s, key), s.server.history;
    var x := Item(key, r.outbox[0]);
    Ingester.NextValid(s.server, Ingester.Enqueue(x));
    var next := SetRemote(s, key, r.(outbox := r.outbox[1..])).(server := Ingester.Next(s.server, Ingester.Enqueue(x)));
    forall c | 0 <= c < |s.clients|
      ensures ClientOk(fs, next.clients[c])
      ensures RemotesOk(c, next.clients[c].remotes, next.clients[c].tx.wires, next.server.history)
    {
      if c == key.client {
        RemotesPassOn(c, key.wire, s.clients[c].remotes, s.clients[c].tx.wires, history);
      } else {
        RemotesElsewhere(c, s.clients[c].remotes, s.clients[c].tx.wires, history, x);
      }
    }
    forall i | 0 <= i < |next.server.history| ensures KeyIn(next, next.server.history[i].key) {
      if i < |history| {
        assert KeyIn(s, history[i].key);
      }
    }
  }

  lemma ServeKeeps(fs: seq<Func>, s: Pipe, step: Ingester.Action<Item>)
    requires Valid(fs, s) && !step.Enqueue?
    ensures Valid(fs, s.(server := Ingester.Next(s.server, step)))
  {
    hide Ingester.Valid, ClientOk, RemotesOk, Ingester.Turn;
    Ingester.NextValid(s.server, step);
    var next := s.(server := Ingester.Next(s.server, step));
    forall i | 0 <= i < |next.server.history| ensures KeyIn(next, next.server.history[i].key) {
      assert KeyIn(s, s.server.history[i].key);
    }
  }

  lemma ReadyInValid(fs: seq<Func>, s: Pipe, c: nat)
    requires Valid(fs, s) && c < |s.clients|
    ensures ReadyClient(s, c)
  {
  }

  lemma StepKeeps(fs: seq<Func>, s: Pipe, a: Action)
    requires Valid(fs, s)
    ensures Valid(fs, Next(fs, s, a))
  {
    hide Valid, ClientOk, RemotesOk, KeyIn, ReadyClient, Loggable, CanRead, Reading, Calling, Logging, PosixQueue.Valid,
         PosixQueue.Admissible, Ingester.Enabled, Ingester.Next;
    if Enabled(fs, s, a) {
      match a
      case Log(c, e, r) => LogStep(fs, s, c, e, r);
      case Transmit(c, call) => TransmitStep(fs, s, c, call);
      case Read(key, count, err) => ReadKeeps(fs, s, key, count, err);
      case PassOn(key) => EnqueueKeeps(fs, s, key);
      case Serve(step) => ServeKeeps(fs, s, step);
    }
  }

  lemma LogStep(fs: seq<Func>, s: Pipe, c: nat, e: Event, r: PosixQueue.WriteResult)
    requires Valid(fs, s) && ReadyClient(s, c) && Loggable(fs, e)
    ensures Valid(fs, s.(clients := s.clients[c := Logging(s.clients[c], e, r)]))
  {
    hide RemotesOk, Logging, PosixQueue.Valid;
    NoneFromNew(fs, s, c);
    LoggingKeeps(fs, c, s.clients[c], e, r, s.server.history);
    hide ClientOk, KeysIn;
    ClientChanges(fs, s, c, Logging(s.clients[c], e, r));
  }

  lemma TransmitStep(fs: seq<Func>, s: Pipe, c: nat, call: PosixQueue.Call)
    requires Valid(fs, s) && ReadyClient(s, c) && PosixQueue.Admissible(call) && !call.SendCall?
    ensures Valid(fs, s.(clients := s.clients[c := Calling(s.clients[c], call)]))
  {
    hide RemotesOk, Calling, PosixQueue.Valid;
    NoneFromNew(fs, s, c);
    TransmitKeeps(fs, c, s.clients[c], call, s.server.history);
    hide ClientOk, KeysIn;
    ClientChanges(fs, s, c, Calling(s.clients[c], call));
  }

  lemma {:induction false} RunKeeps(fs: seq<Func>, s: Pipe, actions: seq<Action>)
    requires Valid(fs, s)
    ensures Valid(fs, Run(fs, s, actions))
    decreases |actions|
  {
    hide Valid, Next;
    if actions != [] {
      StepKeeps(fs, s, actions[0]);
      RunKeeps(fs, Next(fs, s, actions[0]), actions[1..]);
    }
  }

  lemma StartValid(fs: seq<Func>, u: Setup)
    ensures Valid(fs, Start(u))
  {
    hide Ingester.Valid, Ingester.Init, RemoteOk, PosixQueue.Valid;
    PosixQueue.InitialValid();
    Ingester.InitValid<Item>(u.workers, u.bufferSize, u.processors);
    InitHistory(u);
    OpenedOk();
    assert FramesOf(Bodies([])) == [];
  }

  lemma InitHistory(u: Setup)
    ensures Ingester.Init<Item>(u.workers, u.bufferSize, u.processors).history == []
  {
  }

  ghost function Reached(fs: seq<Func>, u: Setup, actions: seq<Action>): Pipe {
    Run(fs, Start(u), actions)
  }

  lemma ReachedValid(fs: seq<Func>, u: Setup, actions: seq<Action>)
    ensures Valid(fs, Reached(fs, u, actions))
  {
    hide Run, Valid, Start;
    StartValid(fs, u);
    RunKeeps(fs, Start(u), actions);
  }

  /** In every reachable state every client may log any event its functions take. */
  lemma AlwaysReady(fs: seq<Func>, u: Setup, actions: seq<Action>, c: nat, e: Event, r: PosixQueue.WriteResult)
    requires c < |Reached(fs, u, actions).clients| && Loggable(fs, e)
    ensures Enabled(fs, Reached(fs, u, actions), Log(c, e, r))
  {
    hide Reached, Valid, ReadyClient, Loggable;
    ReachedValid(fs, u, actions);
    ReadyInValid(fs, Reached(fs, u, actions), c);
  }

  // ---- One connection ----------------------------------------------------------------------------

  ghost predicate InClient(fs: seq<Func>, c: Client, w: nat) {
    ClientOk(fs, c) && w < |c.remotes|
  }

  /** How many events had been accepted when connection `w` was given up, or so far. */
  function Until(c: Client, w: nat): nat {
    if w + 1 < |c.tx.cuts| then c.tx.cuts[w + 1] else |c.logged|
  }

  /** The events accepted for connection `w`. */
  function Segment(c: Client, w: nat): seq<Event> {
    if w < |c.tx.cuts| && c.tx.cuts[w] <= Until(c, w) <= |c.logged| then c.logged[c.tx.cuts[w]..Until(c, w)] else []
  }

  /** What the client still has to write to connection `w`: nothing, unless it is the open one. */
  ghost function Unwritten(c: Client, w: nat): seq<Byte> {
    if w + 1 < |c.tx.wires| then [] else PosixQueue.Unsent(c.tx.queue)
  }

  lemma FramesSlice(es: seq<Event>, from: nat, to: nat)
    requires from <= to <= |es|
    ensures FramesOf(Bodies(es))[from..to] == FramesOf(Bodies(es[from..to]))
  {
    hide Frame, BodyOf;
  }

  lemma SegmentBytes(fs: seq<Func>, c: Client, w: nat)
    requires InClient(fs, c, w)
    ensures c.tx.wires[w] + Unwritten(c, w) == Flat(FramesOf(Bodies(Segment(c, w))))
  {
    hide PosixQueue.Accounted, PosixQueue.Unsent, Flat, FramesOf, Bodies, Loggable;
    LoggedCount(fs, c);
    assert w + 1 < |c.tx.cuts| ==> PosixQueue.WholeFrames(c.tx, w);
    FramesSlice(c.logged, c.tx.cuts[w], Until(c, w));
    if w + 1 < |c.tx.cuts| {
      assert c.tx.wires[w] + [] == c.tx.wires[w];
    } else {
      assert c.tx.accepted[c.tx.cuts[w]..] == c.tx.accepted[c.tx.cuts[w]..|c.logged|];
    }
  }

  lemma LoggedCount(fs: seq<Func>, c: Client)
    requires ClientOk(fs, c)
    ensures |c.tx.accepted| == |c.logged|
  {
  }

  lemma BodySized(fs: seq<Func>, e: Event)
    requires WellFormed(fs) && Loggable(fs, e)
    ensures Sized(BodyOf(e)) && e.id < TWO_32 && BodyOf(e) == Body(e)
  {
    BodySize(e);
  }

  lemma SegmentLogged(fs: seq<Func>, c: Client, w: nat)
    requires InClient(fs, c, w)
    ensures forall e :: e in Segment(c, w) ==> e in c.logged
  {
  }

  lemma SegmentSized(fs: seq<Func>, c: Client, w: nat)
    requires WellFormed(fs) && InClient(fs, c, w)
    ensures AllSized(Bodies(Segment(c, w)))
  {
    hide Loggable, WellFormed, PosixQueue.Valid, Sized, BodyOf, FramesOf;
    var es := Segment(c, w);
    SegmentLogged(fs, c, w);
    forall i | 0 <= i < |es| ensures Sized(Bodies(es)[i]) {
      assert es[i] in es;
      BodySized(fs, es[i]);
    }
  }

  /** The packets a connection has given the server so far, the one in the handler included. */
  ghost function Arrived(s: Pipe, key: Key): seq<Packet>
    requires KeyIn(s, key)
  {
    From(key, s.server.history) + RemoteAt(s, key).outbox
  }

  /** One connection, end to end: the packets that have come out are the first accepted events, in order and unchanged; the
      bytes in the handler, on the wire and in the client's queue are the frames of the others; and a handler is
      closed exactly when a read failed or it has read all of the first short frame, where it then stands. */
  ghost predicate Faithful(r: Remote, wire: seq<Byte>, unwritten: seq<Byte>, es: seq<Event>, arrived: seq<Packet>) {
    var k := |arrived|;
    && r.consumed <= |wire| && Listener.Ready(r.reader)
    && k <= Delivered(Bodies(es)) && arrived == Bodies(es)[..k]
    && (!r.reader.Closed? ==>
          Listener.Partial(r.reader) + (wire[r.consumed..] + unwritten) == Flat(FramesOf(Bodies(es)[k..])))
    && (r.reader.Closed? <==> r.failed || ShortWithin(Bodies(es), r.consumed))
    && (r.reader.Closed? && !r.failed ==> k == Delivered(Bodies(es)) < |es|)
  }

  lemma ConnectionFaithful(fs: seq<Func>, c: Client, w: nat, enqueued: seq<Packet>)
    requires WellFormed(fs) && InClient(fs, c, w) && w < |c.remotes| == |c.tx.wires|
    requires RemoteOk(c.remotes[w], c.tx.wires[w], enqueued)
    ensures var r := c.remotes[w];
            Faithful(r, c.tx.wires[w], Unwritten(c, w), Segment(c, w), enqueued + r.outbox)
  {
    hide *;
    SegmentBytes(fs, c, w);
    SegmentSized(fs, c, w);
    BytesFaithful(c.remotes[w], c.tx.wires[w], Unwritten(c, w), Segment(c, w), enqueued);
  }

  lemma BytesFaithful(r: Remote, wire: seq<Byte>, unwritten: seq<Byte>, es: seq<Event>, enqueued: seq<Packet>)
    requires RemoteOk(r, wire, enqueued)
    requires AllSized(Bodies(es)) && wire + unwritten == Flat(FramesOf(Bodies(es)))
    ensures Faithful(r, wire, unwritten, es, enqueued + r.outbox)
  {
    hide Flat, FramesOf, Bodies, Parse, Listener.Partial, Delivered, AllSized, Listener.Ready, ShortWithin;
    var before, after := wire[..r.consumed], wire[r.consumed..] + unwritten;
    Assoc(before, wire[r.consumed..], unwritten);
    assert before + wire[r.consumed..] == wire;
    CutStream(Bodies(es), before, after);
    EndedIff(Bodies(es), before, after);
    BodiesLength(es);
  }

  lemma BodiesLength(es: seq<Event>)
    ensures |Bodies(es)| == |es|
  {
  }

  lemma FaithfulAt(fs: seq<Func>, s: Pipe, key: Key)
    requires WellFormed(fs) && Valid(fs, s) && KeyIn(s, key)
    ensures var c := s.clients[key.client];
            && InClient(fs, c, key.wire)
            && Faithful(RemoteAt(s, key), WireAt(s, key), Unwritten(c, key.wire), Segment(c, key.wire), Arrived(s, key))
  {
    hide ClientOk, RemoteOk, Faithful, From, WellFormed, Segment, Unwritten, Ingester.Valid, KeysIn;
    var c := s.clients[key.client];
    OneRemoteEach(fs, c);
    assert RemotesOk(key.client, c.remotes, c.tx.wires, s.server.history);
    ConnectionFaithful(fs, c, key.wire, From(key, s.server.history));
  }

  /** In every run, every connection is faithful: chunks, partial writes, reconnects and other connections do not matter. */
  lemma EveryConnectionFaithful(fs: seq<Func>, u: Setup, actions: seq<Action>, key: Key)
    requires WellFormed(fs) && KeyIn(Reached(fs, u, actions), key)
    ensures var s := Reached(fs, u, actions);
            var c := s.clients[key.client];
            Faithful(RemoteAt(s, key), WireAt(s, key), Unwritten(c, key.wire), Segment(c, key.wire), Arrived(s, key))
  {
    hide *;
    ReachedValid(fs, u, actions);
    FaithfulAt(fs, Reached(fs, u, actions), key);
  }
}
