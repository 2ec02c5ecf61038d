/** What the whole path delivers: every accepted event is with the storage, in the ingester, or still on its way, exactly
    once; what the storage is handed is decoded and kept in full. */
module Delivery {
  import opened Bytes
  import opened Sequences
  import opened Schema
  import opened Frames
  import opened Pipeline
  import Compiler
  import Ingester
  import Listener
  import PosixQueue
  import Storage
  import WireCodec

  // ---- Gathering over connections ----------------------------------------------------------------

  function Gather<T>(keys: seq<Key>, f: Key -> seq<T>): seq<T> {
    if keys == [] then [] else Gather(keys[..|keys| - 1], f) + f(keys[|keys| - 1])
  }

  lemma {:induction false} GatherAppend<T>(a: seq<Key>, b: seq<Key>, f: Key -> seq<T>)
    ensures Gather(a + b, f) == Gather(a, f) + Gather(b, f)
  {
    if b == [] {
      assert a + b == a;
    } else {
      var k := |b| - 1;
      GatherAppend(a, b[..k], f);
      assert (a + b)[..|a + b| - 1] == a + b[..k];
      Assoc(Gather(a, f), Gather(b[..k], f), f(b[k]));
    }
  }

  lemma {:induction false} GatherNone<T>(keys: seq<Key>, f: Key -> seq<T>)
    requires forall key :: key in keys ==> f(key) == []
    ensures Gather(keys, f) == []
  {
    if keys != [] {
      GatherNone(keys[..|keys| - 1], f);
    }
  }

  ghost function Once<T>(keys: seq<Key>, key: Key, x: T): multiset<T> {
    if key in keys then multiset{x} else multiset{}
  }

  lemma OnceSnoc<T>(keys: seq<Key>, key: Key, x: T)
    requires Distinct(keys) && keys != []
    ensures var n := |keys| - 1;
            && Distinct(keys[..n])
            && Once(keys, key, x) == Once(keys[..n], key, x) + multiset(if keys[n] == key then [x] else [])
  {
    var n := |keys| - 1;
    assert keys == keys[..n] + [keys[n]] && keys[n] !in keys[..n];
  }

  /** One more element for one key. */
  lemma {:induction false} GatherBump<T>(keys: seq<Key>, f: Key -> seq<T>, g: Key -> seq<T>, key: Key, x: T)
    requires Distinct(keys)
    requires forall k :: k in keys ==> g(k) == f(k) + if k == key then [x] else []
    ensures multiset(Gather(keys, g)) == multiset(Gather(keys, f)) + Once(keys, key, x)
  {
    hide Distinct, Once;
    if keys == [] {
      OnceNone(key, x);
    } else {
      var n := |keys| - 1;
      var last := keys[n];
      OnceSnoc(keys, key, x);
      GatherBump(keys[..n], f, g, key, x);
      MultisetAppend(Gather(keys[..n], f), f(last));
      MultisetAppend(Gather(keys[..n], g), g(last));
      var mine := if last == key then [x] else [];
      MultisetAppend(f(last), mine);
      Rearrange(multiset(Gather(keys[..n], f)), Once(keys[..n], key, x), multiset(f(last)), multiset(mine));
    }
  }

  lemma OnceNone<T>(key: Key, x: T)
    ensures Once([], key, x) == multiset{}
  {
  }

  lemma {:induction false} GatherTwo<T>(keys: seq<Key>, f: Key -> seq<T>, a: Key -> seq<T>, b: Key -> seq<T>)
    requires forall key :: key in keys ==> f(key) == a(key) + b(key)
    ensures multiset(Gather(keys, f)) == multiset(Gather(keys, a)) + multiset(Gather(keys, b))
  {
    if keys != [] {
      var n := |keys| - 1;
      var last := keys[n];
      GatherTwo(keys[..n], f, a, b);
      assert f(last) == a(last) + b(last);
      MultisetAppend(a(last), b(last));
      MultisetAppend(Gather(keys[..n], f), f(last));
      MultisetAppend(Gather(keys[..n], a), a(last));
      MultisetAppend(Gather(keys[..n], b), b(last));
    }
  }

  // ---- The connections of a pipe -----------------------------------------------------------------

  function WireKeys(c: nat, n: nat): (keys: seq<Key>)
    ensures |keys| == n && forall w :: 0 <= w < n ==> keys[w] == Key(c, w)
  {
    seq(n, w requires 0 <= w < n => Key(c, w))
  }

  /** The connections of the first `n` clients. */
  function Keys(clients: seq<Client>, n: nat): seq<Key>
    requires n <= |clients|
  {
    if n == 0 then [] else Keys(clients, n - 1) + WireKeys(n - 1, |clients[n - 1].remotes|)
  }

  lemma {:induction false} KeysExact(clients: seq<Client>, n: nat)
    requires n <= |clients|
    ensures Distinct(Keys(clients, n))
    ensures forall key: Key :: key in Keys(clients, n) <==> key.client < n && key.wire < |clients[key.client].remotes|
  {
    if n > 0 {
      KeysExact(clients, n - 1);
      var before, mine := Keys(clients, n - 1), WireKeys(n - 1, |clients[n - 1].remotes|);
      forall key: Key | key.client == n - 1 && key.wire < |mine| ensures key in mine {
        assert mine[key.wire] == key;
      }
      forall i, j | 0 <= i < j < |before + mine| ensures (before + mine)[i] != (before + mine)[j] {
        if i < |before| {
          assert before[i] in before;
        }
      }
    }
  }

  function Items(key: Key, packets: seq<Packet>): (r: seq<Item>)
    ensures |r| == |packets| && forall i :: 0 <= i < |r| ==> r[i] == Item(key, packets[i])
  {
    seq(|packets|, i requires 0 <= i < |packets| => Item(key, packets[i]))
  }

  /** Everything enqueued, connection by connection. */
  function Enqueued(history: seq<Item>): Key -> seq<Item> {
    key => Items(key, From(key, history))
  }

  lemma {:induction false} Partition(keys: seq<Key>, history: seq<Item>)
    requires Distinct(keys) && forall i :: 0 <= i < |history| ==> history[i].key in keys
    ensures multiset(Gather(keys, Enqueued(history))) == multiset(history)
  {
    hide From, Distinct;
    if history == [] {
      FromNothing(keys);
    } else {
      var k := |history| - 1;
      var front, x := history[..k], history[k];
      Partition(keys, front);
      assert history == front + [x];
      forall key | key in keys
        ensures Enqueued(history)(key) == Enqueued(front)(key) + if key == x.key then [x] else []
      {
        FromSnoc(key, front, x);
      }
      GatherBump(keys, Enqueued(front), Enqueued(history), x.key, x);
      MultisetAppend(front, [x]);
    }
  }

  lemma FromNothing(keys: seq<Key>)
    ensures Gather(keys, Enqueued([])) == []
  {
    GatherNone(keys, Enqueued([]));
  }

  // ---- Where every accepted frame is -------------------------------------------------------------

  /** The frames accepted for a connection. */
  ghost function AcceptedAt(s: Pipe, key: Key): seq<Item> {
    if KeyIn(s, key) then Items(key, Bodies(Segment(s.clients[key.client], key.wire))) else []
  }

  /** The packet its handler could not enqueue yet. */
  ghost function WaitingAt(s: Pipe, key: Key): seq<Item> {
    if KeyIn(s, key) then Items(key, RemoteAt(s, key).outbox) else []
  }

  ghost predicate Open(s: Pipe, key: Key) {
    && KeyIn(s, key) && Listener.Ready(RemoteAt(s, key).reader) && !RemoteAt(s, key).reader.Closed?
    && RemoteAt(s, key).consumed <= |WireAt(s, key)|
  }

  /** All bytes on the way to an open handler: the unfinished frame it holds, the unread ones on the wire, and the unsent
      ones in the client's queue. */
  ghost function BytesAt(s: Pipe, key: Key): seq<Byte>
    requires Open(s, key)
  {
    var r := RemoteAt(s, key);
    Listener.Partial(r.reader) + (WireAt(s, key)[r.consumed..] + Unwritten(s.clients[key.client], key.wire))
  }

  /** The frames those bytes are. */
  ghost function ComingAt(s: Pipe, key: Key): seq<Item> {
    if Open(s, key) then Items(key, Split(BytesAt(s, key))) else []
  }

  /** The frames accepted for a connection whose handler has closed before they came out. */
  ghost function StrandedAt(s: Pipe, key: Key): seq<Item> {
    if KeyIn(s, key) && RemoteAt(s, key).reader.Closed? && |Arrived(s, key)| <= |AcceptedAt(s, key)| then
      AcceptedAt(s, key)[|Arrived(s, key)|..]
    else []
  }

  ghost function Accepted(s: Pipe): seq<Item> {
    Gather(Keys(s.clients, |s.clients|), (key: Key) => AcceptedAt(s, key))
  }

  ghost function Waiting(s: Pipe): seq<Item> {
    Gather(Keys(s.clients, |s.clients|), (key: Key) => WaitingAt(s, key))
  }

  ghost function Coming(s: Pipe): seq<Item> {
    Gather(Keys(s.clients, |s.clients|), (key: Key) => ComingAt(s, key))
  }

  ghost function Stranded(s: Pipe): seq<Item> {
    Gather(Keys(s.clients, |s.clients|), (key: Key) => StrandedAt(s, key))
  }

  lemma ItemsAppend(key: Key, a: seq<Packet>, b: seq<Packet>)
    ensures Items(key, a + b) == Items(key, a) + Items(key, b)
  {
  }

  /** What has not come out of a handler is in the bytes on the way, or stranded. */
  lemma RestAt(fs: seq<Func>, s: Pipe, key: Key)
    requires WellFormed(fs) && Valid(fs, s) && KeyIn(s, key)
    ensures |Arrived(s, key)| <= |AcceptedAt(s, key)|
    ensures AcceptedAt(s, key)[|Arrived(s, key)|..] == ComingAt(s, key) + StrandedAt(s, key)
  {
    hide WellFormed, Valid, Segment, From, Unwritten, Listener.Partial, Flat, Delivered, FramesOf, Split, ClientOk, Bodies;
    FaithfulAt(fs, s, key);
    SegmentSized(fs, s.clients[key.client], key.wire);
    var bodies, k := Bodies(Segment(s.clients[key.client], key.wire)), |Arrived(s, key)|;
    BodiesLength(Segment(s.clients[key.client], key.wire));
    assert Items(key, bodies)[k..] == Items(key, bodies[k..]);
    if Open(s, key) {
      SplitStream(bodies[k..]);
    }
  }

  /** What has come out of a handler is the first accepted frames. */
  lemma ArrivedAt(fs: seq<Func>, s: Pipe, key: Key)
    requires WellFormed(fs) && Valid(fs, s) && KeyIn(s, key)
    ensures |Arrived(s, key)| <= |AcceptedAt(s, key)|
    ensures AcceptedAt(s, key)[..|Arrived(s, key)|] == Enqueued(s.server.history)(key) + WaitingAt(s, key)
  {
    hide WellFormed, Valid, Segment, From, Unwritten, Listener.Partial, Flat, Delivered, FramesOf, ClientOk, Bodies,
         Listener.Ready;
    FaithfulAt(fs, s, key);
    var bodies, k := Bodies(Segment(s.clients[key.client], key.wire)), |Arrived(s, key)|;
    ItemsAppend(key, From(key, s.server.history), RemoteAt(s, key).outbox);
    assert AcceptedAt(s, key)[..k] == Items(key, bodies[..k]);
  }

  /** Connection by connection nothing is lost, doubled or reordered. */
  lemma SplitAt(fs: seq<Func>, s: Pipe, key: Key)
    requires WellFormed(fs) && Valid(fs, s) && KeyIn(s, key)
    ensures AcceptedAt(s, key) ==
            Enqueued(s.server.history)(key) + WaitingAt(s, key) + (ComingAt(s, key) + StrandedAt(s, key))
  {
    hide *;
    ArrivedAt(fs, s, key);
    RestAt(fs, s, key);
    var k := |Arrived(s, key)|;
    assert AcceptedAt(s, key) == AcceptedAt(s, key)[..k] + AcceptedAt(s, key)[k..];
  }

  lemma FramesConserved(fs: seq<Func>, s: Pipe)
    requires WellFormed(fs) && Valid(fs, s)
    ensures multiset(Accepted(s)) ==
            (multiset(s.server.history) + multiset(Waiting(s))) + (multiset(Coming(s)) + multiset(Stranded(s)))
  {
    hide WellFormed, From, Keys, Distinct, ClientsOk, Gather;
    var keys := Keys(s.clients, |s.clients|);
    KeysExact(s.clients, |s.clients|);
    forall key | key in keys ensures KeyIn(s, key) {
      KeyKnown(fs, s, key);
    }
    forall i | 0 <= i < |s.server.history| ensures s.server.history[i].key in keys {
      assert KeyIn(s, s.server.history[i].key);
    }
    Partition(keys, s.server.history);
    hide Valid, AcceptedAt, WaitingAt, ComingAt, StrandedAt, Enqueued, KeysIn;
    forall key | key in keys
      ensures AcceptedAt(s, key) ==
              (Enqueued(s.server.history)(key) + WaitingAt(s, key)) + (ComingAt(s, key) + StrandedAt(s, key))
    {
      SplitAt(fs, s, key);
    }
    var out := (key: Key) => Enqueued(s.server.history)(key) + WaitingAt(s, key);
    var rest := (key: Key) => ComingAt(s, key) + StrandedAt(s, key);
    GatherTwo(keys, (key: Key) => AcceptedAt(s, key), out, rest);
    GatherTwo(keys, out, Enqueued(s.server.history), (key: Key) => WaitingAt(s, key));
    GatherTwo(keys, rest, (key: Key) => ComingAt(s, key), (key: Key) => StrandedAt(s, key));
  }

  lemma KeyKnown(fs: seq<Func>, s: Pipe, key: Key)
    requires Valid(fs, s) && key.client < |s.clients| && key.wire < |s.clients[key.client].remotes|
    ensures KeyIn(s, key)
  {
    hide RemotesOk;
    OneRemoteEach(fs, s.clients[key.client]);
  }

  // ---- As events ---------------------------------------------------------------------------------

  /** What the server takes each packet for. */
  ghost function Meanings(fs: seq<Func>, items: seq<Item>): seq<Storage.Meaning>
    requires WellFormed(fs)
  {
    MapSeq((x: Item) => Storage.MeaningOf(fs, x.packet), items)
  }

  function Knowns(es: seq<Event>): (r: seq<Storage.Meaning>)
    ensures |r| == |es| && forall i :: 0 <= i < |r| ==> r[i] == Storage.Known(es[i])
  {
    seq(|es|, i requires 0 <= i < |es| => Storage.Known(es[i]))
  }

  /** All events accepted by the first `n` clients. */
  function Logged(clients: seq<Client>, n: nat): seq<Event>
    requires n <= |clients|
  {
    if n == 0 then [] else Logged(clients, n - 1) + clients[n - 1].logged
  }

  ghost predicate AllLoggable(fs: seq<Func>, es: seq<Event>) {
    forall e :: e in es ==> Loggable(fs, e) && WireCodec.AllShort(e.args)
  }

  lemma MeaningsAppend(fs: seq<Func>, a: seq<Item>, b: seq<Item>)
    requires WellFormed(fs)
    ensures Meanings(fs, a + b) == Meanings(fs, a) + Meanings(fs, b)
  {
    hide Storage.MeaningOf;
  }

  lemma BodiesMean(fs: seq<Func>, key: Key, es: seq<Event>)
    requires WellFormed(fs) && AllLoggable(fs, es)
    ensures Meanings(fs, Items(key, Bodies(es))) == Knowns(es)
  {
    hide Storage.MeaningOf, Loggable, WireCodec.AllShort, BodyOf;
    forall i | 0 <= i < |es| ensures Meanings(fs, Items(key, Bodies(es)))[i] == Storage.Known(es[i]) {
      assert es[i] in es;
      BodyMeans(fs, es[i]);
    }
  }

  lemma BodyMeans(fs: seq<Func>, e: Event)
    requires WellFormed(fs) && Loggable(fs, e) && WireCodec.AllShort(e.args)
    ensures Storage.MeaningOf(fs, BodyOf(e)) == Storage.Known(e)
  {
    hide Storage.MeaningOf, WellFormed, WireCodec.AllShort;
    BodySized(fs, e);
    Compiler.EventRoundTripIff(fs, e);
  }

  /** The connections of a client split its events one after the other. */
  lemma SegmentsJoin(fs: seq<Func>, c: Client, w: nat)
    requires InClient(fs, c, w)
    ensures Until(c, w) <= |c.logged| && (w > 0 ==> Until(c, w - 1) <= |c.logged|)
    ensures (if w == 0 then [] else c.logged[..Until(c, w - 1)]) + Segment(c, w) == c.logged[..Until(c, w)]
    ensures w + 1 == |c.remotes| ==> c.logged[..Until(c, w)] == c.logged
  {
    hide PosixQueue.Accounted, FramesOf, Bodies, Loggable, PosixQueue.Unsent, Flat;
    LoggedCount(fs, c);
    assert w + 1 < |c.tx.cuts| ==> PosixQueue.WholeFrames(c.tx, w);
    assert w > 0 ==> PosixQueue.WholeFrames(c.tx, w - 1);
  }

  lemma {:induction false} ClientMeans(fs: seq<Func>, s: Pipe, c: nat, w: nat)
    requires WellFormed(fs) && Valid(fs, s) && c < |s.clients| && InClient(fs, s.clients[c], w)
    requires AllLoggable(fs, s.clients[c].logged)
    ensures Meanings(fs, Gather(WireKeys(c, w + 1), (key: Key) => AcceptedAt(s, key))) ==
            Knowns(s.clients[c].logged[..Until(s.clients[c], w)])
  {
    hide *;
    var client, key := s.clients[c], Key(c, w);
    OneMoreWire(fs, s, c, w);
    SegmentsJoin(fs, client, w);
    AcceptedMeans(fs, s, key);
    if w == 0 {
      NoWires(fs, s, c);
      KnownsAppend([], Segment(client, w));
    } else {
      EarlierWire(fs, client, w);
      SegmentsJoin(fs, client, w - 1);
      ClientMeans(fs, s, c, w - 1);
      KnownsAppend(client.logged[..Until(client, w - 1)], Segment(client, w));
    }
  }

  lemma EarlierWire(fs: seq<Func>, c: Client, w: nat)
    requires InClient(fs, c, w) && w > 0
    ensures InClient(fs, c, w - 1)
  {
  }

  lemma KnownsAppend(a: seq<Event>, b: seq<Event>)
    ensures Knowns(a + b) == Knowns(a) + Knowns(b)
  {
  }

  lemma NoWires(fs: seq<Func>, s: Pipe, c: nat)
    requires WellFormed(fs) && Valid(fs, s)
    ensures Meanings(fs, Gather(WireKeys(c, 0), (key: Key) => AcceptedAt(s, key))) == Knowns([])
  {
    hide WellFormed, Valid, AcceptedAt, Storage.MeaningOf;
    GatherNone(WireKeys(c, 0), (key: Key) => AcceptedAt(s, key));
  }

  lemma OneMoreWire(fs: seq<Func>, s: Pipe, c: nat, w: nat)
    requires WellFormed(fs) && Valid(fs, s)
    ensures Meanings(fs, Gather(WireKeys(c, w + 1), (key: Key) => AcceptedAt(s, key))) ==
            Meanings(fs, Gather(WireKeys(c, w), (key: Key) => AcceptedAt(s, key))) + Meanings(fs, AcceptedAt(s, Key(c, w)))
  {
    hide WellFormed, Valid, AcceptedAt, Storage.MeaningOf, Gather, Meanings, WireKeys;
    var f := (key: Key) => AcceptedAt(s, key);
    WireKeysSnoc(c, w);
    GatherSnoc(WireKeys(c, w), Key(c, w), f);
    MeaningsAppend(fs, Gather(WireKeys(c, w), f), AcceptedAt(s, Key(c, w)));
  }

  lemma WireKeysSnoc(c: nat, w: nat)
    ensures WireKeys(c, w + 1) == WireKeys(c, w) + [Key(c, w)]
  {
  }

  lemma GatherSnoc<T>(keys: seq<Key>, key: Key, f: Key -> seq<T>)
    ensures Gather(keys + [key], f) == Gather(keys, f) + f(key)
  {
    assert (keys + [key])[..|keys|] == keys;
  }

  lemma AcceptedMeans(fs: seq<Func>, s: Pipe, key: Key)
    requires WellFormed(fs) && Valid(fs, s) && key.client < |s.clients| && InClient(fs, s.clients[key.client], key.wire)
    requires AllLoggable(fs, s.clients[key.client].logged)
    ensures Meanings(fs, AcceptedAt(s, key)) == Knowns(Segment(s.clients[key.client], key.wire))
  {
    hide Valid, WellFormed, ClientOk, Segment, Storage.MeaningOf, Loggable, WireCodec.AllShort, Bodies;
    KeyKnown(fs, s, key);
    SegmentLogged(fs, s.clients[key.client], key.wire);
    BodiesMean(fs, key, Segment(s.clients[key.client], key.wire));
  }

  lemma {:induction false} ClientsMean(fs: seq<Func>, s: Pipe, n: nat)
    requires WellFormed(fs) && Valid(fs, s) && n <= |s.clients| && AllLoggable(fs, Logged(s.clients, n))
    ensures Meanings(fs, Gather(Keys(s.clients, n), (key: Key) => AcceptedAt(s, key))) == Knowns(Logged(s.clients, n))
  {
    hide Valid, WellFormed, ClientOk, Until, Segment, Storage.MeaningOf, Loggable, WireCodec.AllShort, AcceptedAt, Gather;
    var f := (key: Key) => AcceptedAt(s, key);
    if n == 0 {
      GatherNone([], f);
    } else {
      ClientsMean(fs, s, n - 1);
      var c := s.clients[n - 1];
      var mine := WireKeys(n - 1, |c.remotes|);
      GatherAppend(Keys(s.clients, n - 1), mine, f);
      MeaningsAppend(fs, Gather(Keys(s.clients, n - 1), f), Gather(mine, f));
      LastClient(fs, s, n - 1);
    }
  }

  lemma LastClient(fs: seq<Func>, s: Pipe, c: nat)
    requires WellFormed(fs) && Valid(fs, s) && c < |s.clients| && AllLoggable(fs, s.clients[c].logged)
    ensures Meanings(fs, Gather(WireKeys(c, |s.clients[c].remotes|), (key: Key) => AcceptedAt(s, key))) ==
            Knowns(s.clients[c].logged)
  {
    hide WellFormed, Until, Segment, Storage.MeaningOf, Loggable, WireCodec.AllShort, AcceptedAt, Gather, RemotesOk;
    var client := s.clients[c];
    SomeRemote(fs, client);
    var w := |client.remotes| - 1;
    hide Valid, ClientOk;
    ClientMeans(fs, s, c, w);
    SegmentsJoin(fs, client, w);
  }

  lemma SomeRemote(fs: seq<Func>, c: Client)
    requires ClientOk(fs, c)
    ensures |c.remotes| >= 1
  {
  }

  /** End to end, under every interleaving of calls, partial writes, reconnects, reads and worker turns: the events accepted
      by the clients are, as a multiset, those handed to the storage or waiting in a batch, those in the channel, those that
      wait for the channel, those in the bytes on the way, and those stranded on a closed connection. */
  lemma EventsConserved(fs: seq<Func>, u: Setup, actions: seq<Action>)
    requires WellFormed(fs) && AllLoggable(fs, LoggedIn(Reached(fs, u, actions)))
    ensures Accounts(fs, Reached(fs, u, actions))
  {
    hide *;
    ReachedValid(fs, u, actions);
    EventsAccounted(fs, Reached(fs, u, actions));
  }

  ghost function LoggedIn(s: Pipe): seq<Event> {
    Logged(s.clients, |s.clients|)
  }

  ghost predicate Accounts(fs: seq<Func>, s: Pipe)
    requires WellFormed(fs)
  {
    multiset(Knowns(LoggedIn(s))) ==
    multiset(Meanings(fs, Ingester.TakenBy(s.server.workers, |s.server.workers|))) +
    multiset(Meanings(fs, s.server.channel)) +
    multiset(Meanings(fs, Waiting(s))) +
    multiset(Meanings(fs, Coming(s))) +
    multiset(Meanings(fs, Stranded(s)))
  }

  lemma SameMeanings(fs: seq<Func>, a: seq<Item>, b: seq<Item>)
    requires WellFormed(fs) && multiset(a) == multiset(b)
    ensures multiset(Meanings(fs, a)) == multiset(Meanings(fs, b))
  {
    MapMultiset((x: Item) => Storage.MeaningOf(fs, x.packet), a, b);
  }

  lemma MeaningsFive(fs: seq<Func>, a: seq<Item>, b: seq<Item>, c: seq<Item>, d: seq<Item>, e: seq<Item>)
    requires WellFormed(fs)
    ensures multiset(Meanings(fs, a + b + c + d + e)) ==
            multiset(Meanings(fs, a)) + multiset(Meanings(fs, b)) + multiset(Meanings(fs, c)) +
            multiset(Meanings(fs, d)) + multiset(Meanings(fs, e))
  {
    hide WellFormed, Meanings;
    MeaningsAppend(fs, a + b + c + d, e);
    MeaningsAppend(fs, a + b + c, d);
    MeaningsAppend(fs, a + b, c);
    MeaningsAppend(fs, a, b);
    MultisetAppend(Meanings(fs, a + b + c + d), Meanings(fs, e));
    MultisetAppend(Meanings(fs, a + b + c), Meanings(fs, d));
    MultisetAppend(Meanings(fs, a + b), Meanings(fs, c));
    MultisetAppend(Meanings(fs, a), Meanings(fs, b));
  }

  lemma EventsAccounted(fs: seq<Func>, s: Pipe)
    requires WellFormed(fs) && Valid(fs, s) && AllLoggable(fs, LoggedIn(s))
    ensures Accounts(fs, s)
  {
    hide WellFormed, ClientsOk, Gather, AllLoggable, Ingester.Valid, KeysIn, Waiting, Coming, Stranded, Keys, Logged,
         Ingester.TakenBy, Meanings;
    var server := s.server;
    ClientsMean(fs, s, |s.clients|);
    FramesConserved(fs, s);
    Ingester.NothingLost(server);
    var taken := Ingester.TakenBy(server.workers, |server.workers|);
    var there := taken + server.channel + Waiting(s) + Coming(s) + Stranded(s);
    MultisetFive(taken, server.channel, Waiting(s), Coming(s), Stranded(s));
    SameMeanings(fs, Accepted(s), there);
    MeaningsFive(fs, taken, server.channel, Waiting(s), Coming(s), Stranded(s));
  }

  /** Without a read error the server gives up a connection for one reason only: the next event on it is too short. All
      events before it have come out, and none after it ever will. */
  lemma ClosedByShortEvent(fs: seq<Func>, u: Setup, actions: seq<Action>, key: Key)
    requires WellFormed(fs) && KeyIn(Reached(fs, u, actions), key)
    requires RemoteAt(Reached(fs, u, actions), key).reader.Closed? && !RemoteAt(Reached(fs, u, actions), key).failed
    ensures var s := Reached(fs, u, actions);
            FirstShort(Segment(s.clients[key.client], key.wire), |Arrived(s, key)|)
  {
    hide *;
    ReachedValid(fs, u, actions);
    ClosedAtShort(fs, Reached(fs, u, actions), key);
  }

  ghost predicate FirstShort(es: seq<Event>, k: nat) {
    k < |es| && Compiler.TooShort(es[k]) && forall i :: 0 <= i < k ==> !Compiler.TooShort(es[i])
  }

  lemma ClosedAtShort(fs: seq<Func>, s: Pipe, key: Key)
    requires WellFormed(fs) && Valid(fs, s) && KeyIn(s, key)
    requires RemoteAt(s, key).reader.Closed? && !RemoteAt(s, key).failed
    ensures FirstShort(Segment(s.clients[key.client], key.wire), |Arrived(s, key)|)
  {
    hide Valid, WellFormed, Segment, Arrived, Unwritten, ClientOk, Compiler.TooShort, Loggable;
    FaithfulAt(fs, s, key);
    var c, k := s.clients[key.client], |Arrived(s, key)|;
    var es := Segment(c, key.wire);
    SegmentLogged(fs, c, key.wire);
    forall i | 0 <= i <= k ensures |Bodies(es)[i]| < SHORTEST <==> Compiler.TooShort(es[i]) {
      assert es[i] in es;
      ShortIff(fs, c, es[i]);
    }
  }

  lemma ShortIff(fs: seq<Func>, c: Client, e: Event)
    requires WellFormed(fs) && ClientOk(fs, c) && e in c.logged
    ensures |BodyOf(e)| < SHORTEST <==> Compiler.TooShort(e)
  {
    hide WellFormed, Loggable;
    BodySized(fs, e);
    Compiler.ShortBodyIff(e);
  }

  /** The converse too: a handler is closed exactly when a read has failed, or it has read the whole frame of the first event
      that is too short. */
  lemma ClosedIffShortRead(fs: seq<Func>, u: Setup, actions: seq<Action>, key: Key)
    requires WellFormed(fs) && KeyIn(Reached(fs, u, actions), key)
    ensures var s := Reached(fs, u, actions);
            var r, es := RemoteAt(s, key), Segment(s.clients[key.client], key.wire);
            r.reader.Closed? <==> r.failed || ShortRead(es, r.consumed)
  {
    hide *;
    ReachedValid(fs, u, actions);
    ClosedIffAt(fs, Reached(fs, u, actions), key);
  }

  /** The first `n` bytes for these events include the whole frame of one that is too short. */
  ghost predicate ShortRead(es: seq<Event>, n: nat) {
    exists k: nat :: FirstShort(es, k) && n >= |Flat(FramesOf(Bodies(es[..k + 1])))|
  }

  lemma ClosedIffAt(fs: seq<Func>, s: Pipe, key: Key)
    requires WellFormed(fs) && Valid(fs, s) && KeyIn(s, key)
    ensures RemoteAt(s, key).reader.Closed? <==>
            RemoteAt(s, key).failed || ShortRead(Segment(s.clients[key.client], key.wire), RemoteAt(s, key).consumed)
  {
    hide Valid, WellFormed, Segment, Arrived, Unwritten, ClientOk, Loggable, Flat, FramesOf, Listener.Partial, ShortWithin,
         ShortRead;
    FaithfulAt(fs, s, key);
    ShortReadIff(fs, s.clients[key.client], key.wire, RemoteAt(s, key).consumed);
  }

  lemma ShortReadIff(fs: seq<Func>, c: Client, w: nat, n: nat)
    requires WellFormed(fs) && InClient(fs, c, w)
    ensures ShortWithin(Bodies(Segment(c, w)), n) <==> ShortRead(Segment(c, w), n)
  {
    hide WellFormed, Segment, ClientOk, Flat, FramesOf, Compiler.TooShort, BodyOf;
    var es := Segment(c, w);
    var d := Delivered(Bodies(es));
    SegmentLogged(fs, c, w);
    forall i | 0 <= i < |es| ensures |Bodies(es)[i]| < SHORTEST <==> Compiler.TooShort(es[i]) {
      assert es[i] in es;
      ShortIff(fs, c, es[i]);
    }
    if d < |es| {
      assert FirstShort(es, d) && Bodies(es)[..d + 1] == Bodies(es[..d + 1]);
    }
    forall k: nat | FirstShort(es, k) ensures k == d {
      assert |Bodies(es)[k]| < SHORTEST <==> Compiler.TooShort(es[k]);
      assert d < |es| ==> |Bodies(es)[d]| < SHORTEST;
    }
  }

  ghost predicate NoReadError(s: Pipe) {
    forall key :: KeyIn(s, key) ==> !RemoteAt(s, key).failed
  }

  ghost predicate NoneTooShort(es: seq<Event>) {
    forall e :: e in es ==> !Compiler.TooShort(e)
  }

  lemma {:induction false} InLogged(clients: seq<Client>, n: nat, c: nat, e: Event)
    requires c < n <= |clients| && e in clients[c].logged
    ensures e in Logged(clients, n)
  {
    if c < n - 1 {
      InLogged(clients, n - 1, c, e);
    }
  }

  lemma NotStranded(fs: seq<Func>, s: Pipe, key: Key)
    requires WellFormed(fs) && Valid(fs, s) && NoReadError(s) && NoneTooShort(LoggedIn(s))
    ensures StrandedAt(s, key) == []
  {
    hide WellFormed, Valid, Segment, Arrived, AcceptedAt, ClientOk, Compiler.TooShort, Logged;
    if KeyIn(s, key) && RemoteAt(s, key).reader.Closed? {
      ClosedAtShort(fs, s, key);
      var c, k := s.clients[key.client], |Arrived(s, key)|;
      var e := Segment(c, key.wire)[k];
      OwnClient(fs, s, key);
      SegmentLogged(fs, c, key.wire);
      InLogged(s.clients, |s.clients|, key.client, e);
      assert false;
    }
  }

  lemma OwnClient(fs: seq<Func>, s: Pipe, key: Key)
    requires Valid(fs, s) && KeyIn(s, key)
    ensures InClient(fs, s.clients[key.client], key.wire)
  {
    hide RemotesOk;
  }

  /** The clean case: when no read fails and no accepted event is too short, every accepted event is with the storage, in a
      batch, in the channel, with a handler, or in the bytes on the way. None is lost. */
  lemma NoEventLost(fs: seq<Func>, u: Setup, actions: seq<Action>)
    requires WellFormed(fs) && AllLoggable(fs, LoggedIn(Reached(fs, u, actions)))
    requires NoReadError(Reached(fs, u, actions)) && NoneTooShort(LoggedIn(Reached(fs, u, actions)))
    ensures AllThere(fs, Reached(fs, u, actions)) && Stranded(Reached(fs, u, actions)) == []
  {
    hide *;
    ReachedValid(fs, u, actions);
    NothingStranded(fs, Reached(fs, u, actions));
    EventsAccounted(fs, Reached(fs, u, actions));
    AccountsThere(fs, Reached(fs, u, actions));
  }

  ghost predicate AllThere(fs: seq<Func>, s: Pipe)
    requires WellFormed(fs)
  {
    multiset(Knowns(LoggedIn(s))) ==
    multiset(Meanings(fs, Ingester.TakenBy(s.server.workers, |s.server.workers|))) +
    multiset(Meanings(fs, s.server.channel)) +
    multiset(Meanings(fs, Waiting(s))) +
    multiset(Meanings(fs, Coming(s)))
  }

  lemma AccountsThere(fs: seq<Func>, s: Pipe)
    requires WellFormed(fs) && Accounts(fs, s) && Stranded(s) == []
    ensures AllThere(fs, s)
  {
    hide WellFormed, Waiting, Coming, Stranded, Knowns, LoggedIn, Ingester.TakenBy, Storage.MeaningOf;
    assert Meanings(fs, []) == [];
  }

  lemma NothingStranded(fs: seq<Func>, s: Pipe)
    requires WellFormed(fs) && Valid(fs, s) && NoReadError(s) && NoneTooShort(LoggedIn(s))
    ensures Stranded(s) == []
  {
    hide WellFormed, Valid, NoReadError, NoneTooShort, LoggedIn, StrandedAt, Keys;
    forall key ensures StrandedAt(s, key) == [] {
      NotStranded(fs, s, key);
    }
    GatherNone(Keys(s.clients, |s.clients|), (key: Key) => StrandedAt(s, key));
  }

  // ---- One client, one connection, one worker ----------------------------------------------------

  lemma {:induction false} OneKey(key: Key, history: seq<Item>)
    requires forall i :: 0 <= i < |history| ==> history[i].key == key
    ensures Items(key, From(key, history)) == history
  {
    if history != [] {
      var k := |history| - 1;
      OneKey(key, history[..k]);
      ItemsAppend(key, From(key, history[..k]), [history[k].packet]);
      assert history == history[..k] + [history[k]];
    }
  }

  lemma OnlyKey(fs: seq<Func>, s: Pipe)
    requires Valid(fs, s) && |s.clients| == 1 && |s.clients[0].remotes| == 1
    ensures KeyIn(s, Key(0, 0))
    ensures forall i :: 0 <= i < |s.server.history| ==> s.server.history[i].key == Key(0, 0)
  {
    hide ClientOk, RemotesOk;
    KeyKnown(fs, s, Key(0, 0));
    forall i | 0 <= i < |s.server.history| ensures s.server.history[i].key == Key(0, 0) {
      assert KeyIn(s, s.server.history[i].key);
    }
  }

  lemma GatheredAlone(s: Pipe)
    requires |s.clients| == 1 && |s.clients[0].remotes| == 1
    ensures Accepted(s) == AcceptedAt(s, Key(0, 0)) && Waiting(s) == WaitingAt(s, Key(0, 0))
    ensures Coming(s) == ComingAt(s, Key(0, 0)) && Stranded(s) == StrandedAt(s, Key(0, 0))
  {
    hide AcceptedAt, WaitingAt, ComingAt, StrandedAt, Gather;
    var key := Key(0, 0);
    assert Keys(s.clients, 1) == [] + [key];
    GatherFirst(key, (k: Key) => AcceptedAt(s, k));
    GatherFirst(key, (k: Key) => WaitingAt(s, k));
    GatherFirst(key, (k: Key) => ComingAt(s, k));
    GatherFirst(key, (k: Key) => StrandedAt(s, k));
  }

  lemma GatherFirst<T>(key: Key, f: Key -> seq<T>)
    ensures Gather([] + [key], f) == f(key)
  {
    GatherSnoc([], key, f);
    GatherNone([], f);
  }

  lemma OneConnection(fs: seq<Func>, s: Pipe)
    requires WellFormed(fs) && Valid(fs, s) && |s.clients| == 1 && |s.clients[0].remotes| == 1
    ensures Accepted(s) == s.server.history + Waiting(s) + (Coming(s) + Stranded(s))
  {
    hide WellFormed, Valid, KeyIn, From, Accepted, Waiting, Coming, Stranded, AcceptedAt, WaitingAt, ComingAt, StrandedAt;
    OnlyKey(fs, s);
    GatheredAlone(s);
    SplitAt(fs, s, Key(0, 0));
    OneKey(Key(0, 0), s.server.history);
  }

  ghost predicate OneLine(s: Pipe) {
    |s.clients| == 1 && |s.clients[0].remotes| == 1 && |s.server.workers| == 1
  }

  /** The accepted events are, in order, those handed to the storage, those in the batch, the channel and the handler, and
      those on the way. */
  ghost predicate InLine(fs: seq<Func>, s: Pipe)
    requires WellFormed(fs) && OneLine(s)
  {
    var worker := s.server.workers[0];
    Knowns(s.clients[0].logged) ==
    Meanings(fs, Flat(Ingester.Batches(worker.handed)) + worker.batch + s.server.channel) +
    Meanings(fs, Waiting(s) + (Coming(s) + Stranded(s)))
  }

  /** With one client on one connection and one worker the order is kept all the way: what was handed to the storage is the
      first accepted events. */
  lemma EventsInOrder(fs: seq<Func>, u: Setup, actions: seq<Action>)
    requires WellFormed(fs) && OneLine(Reached(fs, u, actions))
    requires AllLoggable(fs, Reached(fs, u, actions).clients[0].logged)
    ensures InLine(fs, Reached(fs, u, actions))
  {
    hide *;
    ReachedValid(fs, u, actions);
    InOrderAt(fs, Reached(fs, u, actions));
  }

  lemma InOrderAt(fs: seq<Func>, s: Pipe)
    requires WellFormed(fs) && Valid(fs, s) && OneLine(s) && AllLoggable(fs, s.clients[0].logged)
    ensures InLine(fs, s)
  {
    hide WellFormed, ClientsOk, Gather, Storage.MeaningOf, Ingester.Valid, KeysIn, Waiting, Coming, Stranded, Keys, Flat,
         AllLoggable;
    assert Logged(s.clients, 1) == [] + s.clients[0].logged == s.clients[0].logged;
    OneConnection(fs, s);
    ClientsMean(fs, s, 1);
    Ingester.InOrder(s.server);
    Assoc(s.server.history, Waiting(s), Coming(s) + Stranded(s));
    MeaningsAppend(fs, s.server.history, Waiting(s) + (Coming(s) + Stranded(s)));
  }

  // ---- One worker, any number of clients -----------------------------------------------------------

  lemma {:induction false} FromAppend(key: Key, a: seq<Item>, b: seq<Item>)
    ensures From(key, a + b) == From(key, a) + From(key, b)
  {
    hide From;
    if b == [] {
      assert a + b == a;
      FromNone(key, b);
      assert From(key, a) + [] == From(key, a);
    } else {
      var k := |b| - 1;
      FromAppend(key, a, b[..k]);
      FromSnoc(key, a + b[..k], b[k]);
      FromSnoc(key, b[..k], b[k]);
      assert a + b == (a + b[..k]) + [b[k]] && b == b[..k] + [b[k]];
      Assoc(From(key, a), From(key, b[..k]), if b[k].key == key then [b[k].packet] else []);
    }
  }

  /** What one connection has in the hands of a single worker: its first accepted events, in order, and behind those handed
      over the ones in the batch, the channel and the handler. */
  ghost predicate KeyInLine(fs: seq<Func>, s: Pipe, key: Key)
    requires WellFormed(fs) && KeyIn(s, key) && |s.server.workers| == 1
  {
    var worker, es := s.server.workers[0], Segment(s.clients[key.client], key.wire);
    var handed := From(key, Flat(Ingester.Batches(worker.handed)));
    var behind := From(key, worker.batch) + From(key, s.server.channel) + RemoteAt(s, key).outbox;
    && |handed + behind| <= |es|
    && handed + behind == Bodies(es)[..|handed + behind|]
    && forall i :: 0 <= i < |handed| ==> Storage.MeaningOf(fs, handed[i]) == Storage.Known(es[i])
  }

  /** With one worker every connection keeps its order all the way to the storage, whatever the other clients and connections
      do. */
  lemma EveryConnectionInOrder(fs: seq<Func>, u: Setup, actions: seq<Action>, key: Key)
    requires WellFormed(fs) && KeyIn(Reached(fs, u, actions), key) && |Reached(fs, u, actions).server.workers| == 1
    requires AllLoggable(fs, Segment(Reached(fs, u, actions).clients[key.client], key.wire))
    ensures KeyInLine(fs, Reached(fs, u, actions), key)
  {
    hide *;
    ReachedValid(fs, u, actions);
    KeyInLineAt(fs, Reached(fs, u, actions), key);
  }

  lemma KeyInLineAt(fs: seq<Func>, s: Pipe, key: Key)
    requires WellFormed(fs) && Valid(fs, s) && KeyIn(s, key) && |s.server.workers| == 1
    requires AllLoggable(fs, Segment(s.clients[key.client], key.wire))
    ensures KeyInLine(fs, s, key)
  {
    hide WellFormedFunc, ClientsOk, KeysIn, Ingester.Valid, From, Segment, Flat, Ingester.Batches, Unwritten, Delivered,
         Listener.Partial, FramesOf, ShortWithin, ClientOk, Storage.MeaningOf, Loggable, WireCodec.AllShort, BodyOf;
    var worker, es := s.server.workers[0], Segment(s.clients[key.client], key.wire);
    var handed, batch, channel := Flat(Ingester.Batches(worker.handed)), worker.batch, s.server.channel;
    Ingester.InOrder(s.server);
    FromAppend(key, handed + batch, channel);
    FromAppend(key, handed, batch);
    FaithfulAt(fs, s, key);
    BodiesLength(es);
    var behind := From(key, batch) + From(key, channel) + RemoteAt(s, key).outbox;
    assert Arrived(s, key) == From(key, handed) + behind;
    forall i | 0 <= i < |From(key, handed)|
      ensures Storage.MeaningOf(fs, From(key, handed)[i]) == Storage.Known(es[i])
    {
      assert From(key, handed)[i] == (From(key, handed) + behind)[i] == Bodies(es)[i];
      assert es[i] in es;
      BodyMeans(fs, es[i]);
    }
  }

  // ---- What the storage keeps --------------------------------------------------------------------

  function Packets(items: seq<Item>): (r: seq<Packet>)
    ensures |r| == |items| && forall i :: 0 <= i < |r| ==> r[i] == items[i].packet
  {
    seq(|items|, i requires 0 <= i < |items| => items[i].packet)
  }

  lemma InOwn(worker: Ingester.Worker<Item>, h: Ingester.Handed<Item>, x: Item)
    requires h in worker.handed && x in h.batch
    ensures x in Ingester.Taken(worker)
  {
    hide Flat;
    var i :| 0 <= i < |worker.handed| && worker.handed[i] == h;
    InFlat(Ingester.Batches(worker.handed), i, x);
  }

  lemma {:induction false} InTaken(workers: seq<Ingester.Worker<Item>>, n: nat, w: nat, x: Item)
    requires w < n <= |workers| && x in Ingester.Taken(workers[w])
    ensures x in Ingester.TakenBy(workers, n)
  {
    hide Ingester.Taken;
    if w < n - 1 {
      InTaken(workers, n - 1, w, x);
    }
  }

  /** A packet handed to the storage is an accepted event. */
  lemma HandedKnown(fs: seq<Func>, s: Pipe, w: nat, h: Ingester.Handed<Item>, x: Item)
    requires WellFormed(fs) && Valid(fs, s) && AllLoggable(fs, LoggedIn(s))
    requires w < |s.server.workers| && h in s.server.workers[w].handed && x in h.batch
    ensures Storage.MeaningOf(fs, x.packet).Known?
    ensures Storage.MeaningOf(fs, x.packet).event in LoggedIn(s)
  {
    hide WellFormedFunc, Valid, AllLoggable, Ingester.TakenBy, Storage.MeaningOf, Waiting, Coming, Stranded, LoggedIn;
    var workers, es := s.server.workers, LoggedIn(s);
    InOwn(workers[w], h, x);
    InTaken(workers, |workers|, w, x);
    EventsAccounted(fs, s);
    var taken := Ingester.TakenBy(workers, |workers|);
    var i := IndexIn(taken, x);
    var m := Meanings(fs, taken)[i];
    assert m == Storage.MeaningOf(fs, x.packet);
    assert m in multiset(Meanings(fs, taken));
    assert m in multiset(Knowns(es));
    var j := IndexIn(Knowns(es), m);
    assert es[j] in es;
  }

  /** Every packet of a batch is kept, as an event that was logged. */
  ghost predicate Kept(fs: seq<Func>, s: Pipe, batch: seq<Item>, skipHeadless: bool)
    requires WellFormed(fs)
  {
    var r := Storage.KnownEvents(fs, Packets(batch), skipHeadless);
    r.Some? && Knowns(r.value) == Meanings(fs, batch) && forall e :: e in r.value ==> e in LoggedIn(s)
  }

  /** Nothing is filtered out at the end of the path: either backend keeps all of every batch it is handed. */
  lemma BatchesKept(fs: seq<Func>, u: Setup, actions: seq<Action>, w: nat, h: Ingester.Handed<Item>, skipHeadless: bool)
    requires WellFormed(fs) && AllLoggable(fs, LoggedIn(Reached(fs, u, actions)))
    requires var workers := Reached(fs, u, actions).server.workers;
             w < |workers| && h in workers[w].handed
    ensures Kept(fs, Reached(fs, u, actions), h.batch, skipHeadless)
  {
    hide *;
    ReachedValid(fs, u, actions);
    KeptAt(fs, Reached(fs, u, actions), w, h, skipHeadless);
  }

  lemma KeptAt(fs: seq<Func>, s: Pipe, w: nat, h: Ingester.Handed<Item>, skipHeadless: bool)
    requires WellFormed(fs) && Valid(fs, s) && AllLoggable(fs, LoggedIn(s))
    requires w < |s.server.workers| && h in s.server.workers[w].handed
    ensures Kept(fs, s, h.batch, skipHeadless)
  {
    hide Valid, WellFormedFunc, AllLoggable, LoggedIn, Storage.MeaningOf, Storage.KnownEvents;
    var batch := Packets(h.batch);
    forall i | 0 <= i < |batch|
      ensures Storage.MeaningOf(fs, batch[i]).Known?
      ensures Storage.MeaningOf(fs, batch[i]).event in LoggedIn(s)
    {
      assert h.batch[i] in h.batch;
      HandedKnown(fs, s, w, h, h.batch[i]);
    }
    Storage.AllKept(fs, batch, skipHeadless);
    var es := Storage.KnownEvents(fs, batch, skipHeadless).value;
    forall e | e in es ensures e in LoggedIn(s) {
      var j := IndexIn(es, e);
      assert Storage.MeaningOf(fs, batch[j]) == Storage.Known(e);
    }
    assert Knowns(es) == Meanings(fs, h.batch);
  }
}
