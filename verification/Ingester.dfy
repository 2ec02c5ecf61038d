/** The ingester: one bounded channel, and workers that each collect a private batch and hand it to `Flush`. */
module Ingester {
  import opened Bytes
  import opened Sequences

  // ---- One worker --------------------------------------------------------------------------------

  /** A batch handed to `Flush`, and whether that was on the way out after the channel was closed. */
  datatype Handed<T> = Handed(batch: seq<T>, ok: bool, shutdown: bool)

  datatype Worker<T> = Worker(batch: seq<T>, alive: bool, handed: seq<Handed<T>>)

  /** What `select` picked, and what `Flush` will answer if it is called. */
  datatype Input<T> = Received(item: T, flushOk: bool) | ChannelClosed(flushOk: bool) | Ticked(flushOk: bool)

  function NewWorker<T>(): Worker<T> {
    Worker([], true, [])
  }

  /** A failed flush costs the worker its batch either way, but only after a tick does the worker give up. */
  function Turn<T>(w: Worker<T>, input: Input<T>, bufferSize: nat): Worker<T>
    requires w.alive
  {
    match input
    case Received(item, ok) =>
      var batch := w.batch + [item];
      if |batch| >= bufferSize then w.(batch := [], handed := w.handed + [Handed(batch, ok, false)])
      else w.(batch := batch)
    case ChannelClosed(ok) => Worker([], false, w.handed + [Handed(w.batch, ok, true)])
    case Ticked(ok) =>
      if |w.batch| > 0 then Worker([], ok, w.handed + [Handed(w.batch, ok, false)]) else w
  }

  function Turns<T>(w: Worker<T>, inputs: seq<Input<T>>, bufferSize: nat): Worker<T>
    decreases |inputs|
  {
    if inputs == [] || !w.alive then w else Turns(Turn(w, inputs[0], bufferSize), inputs[1..], bufferSize)
  }

  // ---- What a worker does, said of its inputs alone ----------------------------------------------

  /** How many packets came after the last tick or close. */
  function SinceTick<T>(inputs: seq<Input<T>>): (n: nat)
    ensures n <= |inputs| && forall i :: |inputs| - n <= i < |inputs| ==> inputs[i].Received?
    ensures n < |inputs| ==> !inputs[|inputs| - n - 1].Received?
  {
    var k := |inputs| - 1;
    if inputs == [] || !inputs[k].Received? then 0 else SinceTick(inputs[..k]) + 1
  }

  /** What is left of those packets when every `bufferSize` of them leave together. */
  function Waiting<T>(inputs: seq<Input<T>>, bufferSize: nat): (n: nat)
    requires bufferSize > 0
    ensures n <= SinceTick(inputs) && n < bufferSize
  {
    RemainderAtMost(SinceTick(inputs), bufferSize);
    SinceTick(inputs) % bufferSize
  }

  lemma RemainderAtMost(n: nat, d: nat)
    requires d > 0
    ensures n % d <= n
  {
    assert n == n / d * d + n % d;
  }

  function LastPackets<T>(inputs: seq<Input<T>>, n: nat): (r: seq<T>)
    requires n <= SinceTick(inputs)
    ensures |r| == n && forall j :: 0 <= j < n ==> r[j] == inputs[|inputs| - n + j].item
  {
    var k := |inputs| - 1;
    if n == 0 then [] else LastPackets(inputs[..k], n - 1) + [inputs[k].item]
  }

  /** The call of `Flush` that the last input causes, if any. */
  function LastFlush<T>(inputs: seq<Input<T>>, bufferSize: nat): seq<Handed<T>>
    requires bufferSize > 0 && inputs != []
  {
    var k := |inputs| - 1;
    var waiting := LastPackets(inputs[..k], Waiting(inputs[..k], bufferSize));
    match inputs[k]
    case Received(_, ok) =>
      if |waiting| + 1 == bufferSize then [Handed(LastPackets(inputs, bufferSize), ok, false)] else []
    case Ticked(ok) => if waiting == [] then [] else [Handed(waiting, ok, false)]
    case ChannelClosed(ok) => [Handed(waiting, ok, true)]
  }

  function Flushes<T>(inputs: seq<Input<T>>, bufferSize: nat): seq<Handed<T>>
    requires bufferSize > 0
  {
    if inputs == [] then [] else Flushes(inputs[..|inputs| - 1], bufferSize) + LastFlush(inputs, bufferSize)
  }

  /** The worker returns on a closed channel, and when the flush of a tick fails. No other failed flush counts. */
  predicate Ends<T>(inputs: seq<Input<T>>, i: nat, bufferSize: nat)
    requires bufferSize > 0
  {
    && i < |inputs|
    && (inputs[i].ChannelClosed? || (inputs[i] == Ticked(false) && Waiting(inputs[..i], bufferSize) > 0))
  }

  ghost predicate GoesOn<T>(inputs: seq<Input<T>>, bufferSize: nat)
    requires bufferSize > 0
  {
    forall i :: 0 <= i < |inputs| ==> !Ends(inputs, i, bufferSize)
  }

  ghost predicate EndsFirst<T>(inputs: seq<Input<T>>, i: nat, bufferSize: nat)
    requires bufferSize > 0
  {
    Ends(inputs, i, bufferSize) && forall j :: 0 <= j < i ==> !Ends(inputs, j, bufferSize)
  }

  lemma {:induction false} TurnsSnoc<T>(w: Worker<T>, inputs: seq<Input<T>>, last: Input<T>, bufferSize: nat)
    ensures var t := Turns(w, inputs, bufferSize);
            Turns(w, inputs + [last], bufferSize) == if t.alive then Turn(t, last, bufferSize) else t
    decreases |inputs|
  {
    hide Turn;
    if inputs == [] {
      assert (inputs + [last])[1..] == [] && (inputs + [last])[0] == last;
    } else if w.alive {
      TurnsSnoc(Turn(w, inputs[0], bufferSize), inputs[1..], last, bufferSize);
      assert (inputs + [last])[1..] == inputs[1..] + [last];
    }
  }

  lemma {:induction false} TurnsEnded<T>(w: Worker<T>, inputs: seq<Input<T>>, more: seq<Input<T>>, bufferSize: nat)
    requires !Turns(w, inputs, bufferSize).alive
    ensures Turns(w, inputs + more, bufferSize) == Turns(w, inputs, bufferSize)
    decreases |inputs|
  {
    hide Turn;
    if inputs != [] && w.alive {
      TurnsEnded(Turn(w, inputs[0], bufferSize), inputs[1..], more, bufferSize);
      assert (inputs + more)[1..] == inputs[1..] + more;
    }
  }

  lemma QuotientNext(n: nat, d: nat)
    requires d > 0
    ensures if n % d + 1 == d then (n + 1) % d == 0 && (n + 1) / d == n / d + 1
            else (n + 1) % d == n % d + 1 && (n + 1) / d == n / d
  {
    var q, r := n / d, n % d;
    assert n == q * d + r;
    if r + 1 == d {
      assert n + 1 == q * d + d == (q + 1) * d;
      QuotientAndRest(n + 1, d, q + 1, 0);
    } else {
      QuotientAndRest(n + 1, d, q, r + 1);
    }
  }

  lemma QuotientAndRest(n: nat, d: nat, q: nat, r: nat)
    requires d > 0 && r < d && n == q * d + r
    ensures n / d == q && n % d == r
  {
    QuotientIs(n, d, q, r);
    assert n == n / d * d + n % d;
  }

  lemma WaitingNext<T>(inputs: seq<Input<T>>, bufferSize: nat)
    requires bufferSize > 0 && inputs != []
    ensures var n := Waiting(inputs[..|inputs| - 1], bufferSize);
            Waiting(inputs, bufferSize) ==
            if inputs[|inputs| - 1].Received? && n + 1 != bufferSize then n + 1 else 0
  {
    var front := inputs[..|inputs| - 1];
    if inputs[|inputs| - 1].Received? {
      QuotientNext(SinceTick(front), bufferSize);
    } else {
      RemainderAtMost(0, bufferSize);
    }
  }

  /** The batch the worker holds, and what it has handed over, while nothing ended it. */
  function Holding<T>(inputs: seq<Input<T>>, bufferSize: nat): Worker<T>
    requires bufferSize > 0
  {
    Worker(LastPackets(inputs, Waiting(inputs, bufferSize)), true, Flushes(inputs, bufferSize))
  }

  lemma HoldingTurn<T>(inputs: seq<Input<T>>, bufferSize: nat)
    requires bufferSize > 0 && inputs != []
    ensures var k := |inputs| - 1;
            var t := Turn(Holding(inputs[..k], bufferSize), inputs[k], bufferSize);
            if Ends(inputs, k, bufferSize) then t == Worker([], false, Flushes(inputs, bufferSize))
            else t == Holding(inputs, bufferSize)
  {
    hide Waiting, LastPackets, Flushes;
    WaitingNext(inputs, bufferSize);
    LastPacketsNext(inputs, Waiting(inputs[..|inputs| - 1], bufferSize));
    FlushesNext(inputs, bufferSize);
    NoPackets(inputs);
  }

  lemma NoPackets<T>(inputs: seq<Input<T>>)
    ensures LastPackets(inputs, 0) == []
  {
  }

  lemma FlushesNext<T>(inputs: seq<Input<T>>, bufferSize: nat)
    requires bufferSize > 0 && inputs != []
    ensures Flushes(inputs, bufferSize) == Flushes(inputs[..|inputs| - 1], bufferSize) + LastFlush(inputs, bufferSize)
  {
    hide LastFlush;
  }

  lemma LastPacketsNext<T>(inputs: seq<Input<T>>, n: nat)
    requires inputs != [] && n <= SinceTick(inputs[..|inputs| - 1])
    ensures var k := |inputs| - 1;
            inputs[k].Received? ==>
              n + 1 <= SinceTick(inputs) && LastPackets(inputs, n + 1) == LastPackets(inputs[..k], n) + [inputs[k].item]
  {
  }

  /** A worker that nothing ended holds the last `SinceTick % bufferSize` packets, and has handed over each full batch when it
      was full and each rest when a tick came. */
  lemma {:induction false} WhileAlive<T>(inputs: seq<Input<T>>, bufferSize: nat)
    requires bufferSize > 0 && GoesOn(inputs, bufferSize)
    ensures Turns(NewWorker(), inputs, bufferSize) == Holding(inputs, bufferSize)
  {
    hide Turn, Holding, Ends;
    if inputs == [] {
      assert Turns(NewWorker<T>(), [], bufferSize) == NewWorker();
      HoldingNothing<T>(bufferSize);
    } else {
      var k := |inputs| - 1;
      FrontGoesOn(inputs, k, bufferSize);
      WhileAlive(inputs[..k], bufferSize);
      TurnsSnoc(NewWorker(), inputs[..k], inputs[k], bufferSize);
      assert inputs == inputs[..k] + [inputs[k]];
      HoldingTurn(inputs, bufferSize);
      HoldingAlive(inputs[..k], bufferSize);
    }
  }

  lemma HoldingNothing<T>(bufferSize: nat)
    requires bufferSize > 0
    ensures Holding<T>([], bufferSize) == NewWorker()
  {
  }

  lemma HoldingAlive<T>(inputs: seq<Input<T>>, bufferSize: nat)
    requires bufferSize > 0
    ensures Holding(inputs, bufferSize).alive
  {
  }

  lemma FrontGoesOn<T>(inputs: seq<Input<T>>, k: nat, bufferSize: nat)
    requires bufferSize > 0 && k <= |inputs| && forall i :: 0 <= i < k ==> !Ends(inputs, i, bufferSize)
    ensures GoesOn(inputs[..k], bufferSize)
  {
    forall i | 0 <= i < k ensures !Ends(inputs[..k], i, bufferSize) {
      assert inputs[..k][..i] == inputs[..i];
      assert !Ends(inputs, i, bufferSize);
    }
  }

  /** The first input that ends a worker ends it: its last batch has gone to `Flush`, and later inputs change nothing. */
  lemma OnceEnded<T>(inputs: seq<Input<T>>, i: nat, bufferSize: nat)
    requires bufferSize > 0 && EndsFirst(inputs, i, bufferSize)
    ensures i < |inputs|
    ensures Turns(NewWorker(), inputs, bufferSize) == Worker([], false, Flushes(inputs[..i + 1], bufferSize))
  {
    InRange(inputs, i, bufferSize);
    hide Turn, Turns, Holding, Flushes, Ends;
    var reached := inputs[..i + 1];
    assert reached[..i] == inputs[..i] && reached == inputs[..i] + [inputs[i]] && inputs == reached + inputs[i + 1..];
    FrontGoesOn(inputs, i, bufferSize);
    WhileAlive(inputs[..i], bufferSize);
    TurnsSnoc(NewWorker(), inputs[..i], inputs[i], bufferSize);
    HoldingAlive(inputs[..i], bufferSize);
    HoldingTurn(reached, bufferSize);
    SameEnd(inputs, i, bufferSize);
    TurnsEnded(NewWorker(), reached, inputs[i + 1..], bufferSize);
  }

  lemma InRange<T>(inputs: seq<Input<T>>, i: nat, bufferSize: nat)
    requires bufferSize > 0 && Ends(inputs, i, bufferSize)
    ensures i < |inputs|
  {
  }

  lemma SameEnd<T>(inputs: seq<Input<T>>, i: nat, bufferSize: nat)
    requires bufferSize > 0 && i < |inputs|
    ensures Ends(inputs[..i + 1], i, bufferSize) == Ends(inputs, i, bufferSize)
  {
    assert inputs[..i + 1][..i] == inputs[..i];
  }

  lemma {:induction false} FirstEnd<T>(inputs: seq<Input<T>>, i: nat, bufferSize: nat) returns (first: nat)
    requires bufferSize > 0 && Ends(inputs, i, bufferSize)
    ensures EndsFirst(inputs, first, bufferSize)
  {
    hide Ends;
    if earlier: nat :| earlier < i && Ends(inputs, earlier, bufferSize) {
      first := FirstEnd(inputs, earlier, bufferSize);
    } else {
      first := i;
    }
  }

  /** A worker returns exactly when some input is a closed channel, or a failing tick that finds packets waiting. */
  lemma ReturnsIff<T>(inputs: seq<Input<T>>, bufferSize: nat)
    requires bufferSize > 0
    ensures !Turns(NewWorker(), inputs, bufferSize).alive <==> exists i :: Ends(inputs, i, bufferSize)
  {
    hide Turns, Ends, Flushes;
    if i :| Ends(inputs, i, bufferSize) {
      var first := FirstEnd(inputs, i, bufferSize);
      OnceEnded(inputs, first, bufferSize);
    } else {
      WhileAlive(inputs, bufferSize);
    }
  }

  /** Without ticks and close every batch handed over has exactly `bufferSize` packets, as many batches as fit have gone, failed
      flushes or not, and the rest is waiting. */
  lemma {:induction false} OnlyPackets<T>(inputs: seq<Input<T>>, bufferSize: nat)
    requires bufferSize > 0 && forall i :: 0 <= i < |inputs| ==> inputs[i].Received?
    ensures var t := Turns(NewWorker(), inputs, bufferSize);
            && t.alive
            && |t.batch| == |inputs| % bufferSize
            && |t.handed| == |inputs| / bufferSize
            && (forall h :: h in t.handed ==> |h.batch| == bufferSize && !h.shutdown)
  {
    hide Turns, Flushes, Waiting, LastPackets;
    WhileAlive(inputs, bufferSize);
    FullBatches(inputs, bufferSize);
  }

  lemma {:induction false} FullBatches<T>(inputs: seq<Input<T>>, bufferSize: nat)
    requires bufferSize > 0 && forall i :: 0 <= i < |inputs| ==> inputs[i].Received?
    ensures Waiting(inputs, bufferSize) == |inputs| % bufferSize
    ensures |Flushes(inputs, bufferSize)| == |inputs| / bufferSize
    ensures forall h :: h in Flushes(inputs, bufferSize) ==> |h.batch| == bufferSize && !h.shutdown
  {
    if inputs == [] {
      QuotientAndRest(0, bufferSize, 0, 0);
    } else {
      hide Waiting;
      var k := |inputs| - 1;
      FullBatches(inputs[..k], bufferSize);
      WaitingNext(inputs, bufferSize);
      QuotientNext(k, bufferSize);
    }
  }

  /** The storage behind the interface: a log of what `Flush` was called with. */
  class StorageLog<T> {
    var handed: seq<Handed<T>>

    constructor ()
      ensures handed == []
    {
      handed := [];
    }

    method Flush(batch: seq<T>, ok: bool, shutdown: bool) returns (err: bool)
      modifies this
      ensures handed == old(handed) + [Handed(batch, ok, shutdown)] && err == !ok
    {
      handed := handed + [Handed(batch, ok, shutdown)];
      err := !ok;
    }
  }

  /** `workerMain`, for the selections it makes until it returns or none is left. */
  method WorkerMain<T>(storage: StorageLog<T>, inputs: seq<Input<T>>, bufferSize: nat)
    returns (batch: seq<T>, returned: bool)
    requires storage.handed == []
    modifies storage
    ensures Turns(NewWorker(), inputs, bufferSize) == Worker(batch, !returned, storage.handed)
    ensures bufferSize > 0 ==> (returned <==> exists i :: Ends(inputs, i, bufferSize))
    ensures bufferSize > 0 && !returned ==> Worker(batch, true, storage.handed) == Holding(inputs, bufferSize)
    ensures bufferSize > 0 ==>
              forall i: nat :: EndsFirst(inputs, i, bufferSize) ==> storage.handed == Flushes(inputs[..i + 1], bufferSize)
  {
    hide Ends, Holding, EndsFirst, Flushes;
    if bufferSize > 0 {
      ReturnsIff(inputs, bufferSize);
      if GoesOn(inputs, bufferSize) {
        WhileAlive(inputs, bufferSize);
      }
      forall i: nat | EndsFirst(inputs, i, bufferSize)
        ensures i < |inputs| && Turns(NewWorker(), inputs, bufferSize).handed == Flushes(inputs[..i + 1], bufferSize)
      {
        OnceEnded(inputs, i, bufferSize);
      }
    }
    batch, returned := [], false;
    for i := 0 to |inputs|
      invariant !returned
      invariant Turns(NewWorker(), inputs, bufferSize) == Turns(Worker(batch, true, storage.handed), inputs[i..], bufferSize)
    {
      assert inputs[i..][1..] == inputs[i + 1..];
      match inputs[i] {
        case Received(item, ok) =>
          batch := batch + [item];
          if |batch| >= bufferSize {
            var err := storage.Flush(batch, ok, false);
            batch := batch[..0];
          }
        case ChannelClosed(ok) =>
          var err := storage.Flush(batch, ok, true);
          return [], true;
        case Ticked(ok) =>
          if |batch| > 0 {
            var err := storage.Flush(batch, ok, false);
            if err {
              return [], true;
            }
            batch := batch[..0];
          }
      }
    }
  }

  // ---- All workers -------------------------------------------------------------------------------

  /** `history`: every packet enqueued so far, in order. `owners[i]`: the worker that received `history[i]`. */
  datatype System<T> = System(
    bufferSize: nat,
    channel: seq<T>,
    closed: bool,
    workers: seq<Worker<T>>,
    history: seq<T>,
    owners: seq<nat>)

  /** `Init`: configured numbers that are not positive fall back to the number of processors and to 1024. */
  function Init<T>(workers: int, bufferSize: int, processors: nat): System<T> {
    var n := if workers > 0 then workers else processors;
    System(if bufferSize > 0 then bufferSize else 1024, [], false, seq(n, _ => NewWorker()), [], [])
  }

  datatype Action<T> =
    | Enqueue(item: T)
    | Receive(worker: nat, flushOk: bool)
    | Tick(worker: nat, flushOk: bool)
    | Close
    | Stop(worker: nat, flushOk: bool)

  /** A full channel blocks `Enqueue`; a closed one is drained before workers see that it is closed. */
  predicate Enabled<T>(s: System<T>, a: Action<T>) {
    match a
    case Enqueue(_) => !s.closed && |s.channel| < s.bufferSize
    case Receive(w, _) => w < |s.workers| && s.workers[w].alive && s.channel != []
    case Tick(w, _) => w < |s.workers| && s.workers[w].alive
    case Close => !s.closed
    case Stop(w, _) => w < |s.workers| && s.workers[w].alive && s.closed && s.channel == []
  }

  function Next<T>(s: System<T>, a: Action<T>): System<T> {
    if !Enabled(s, a) then s
    else
      match a
      case Enqueue(item) => s.(channel := s.channel + [item], history := s.history + [item])
      case Receive(w, ok) =>
        s.(channel := s.channel[1..], owners := s.owners + [w],
           workers := s.workers[w := Turn(s.workers[w], Received(s.channel[0], ok), s.bufferSize)])
      case Tick(w, ok) => s.(workers := s.workers[w := Turn(s.workers[w], Ticked(ok), s.bufferSize)])
      case Close => s.(closed := true)
      case Stop(w, ok) => s.(workers := s.workers[w := Turn(s.workers[w], ChannelClosed(ok), s.bufferSize)])
  }

  function Run<T>(s: System<T>, actions: seq<Action<T>>): System<T>
    decreases |actions|
  {
    if actions == [] then s else Run(Next(s, actions[0]), actions[1..])
  }

  /** The variables of the package, set once before the workers start. */
  class Package<T> {
    var channel: seq<T>
    var numberOfWorkers: int
    var workersBufferSize: int

    constructor ()
      ensures channel == [] && numberOfWorkers == 0 && workersBufferSize == 1024
    {
      channel, numberOfWorkers, workersBufferSize := [], 0, 1024;
    }

    method Configure(workers: int, bufferSize: int, processors: nat)
      requires workersBufferSize == 1024
      modifies this
      ensures workers > 0 ==> numberOfWorkers == workers
      ensures workers <= 0 ==> numberOfWorkers == processors
      ensures bufferSize > 0 ==> workersBufferSize == bufferSize
      ensures bufferSize <= 0 ==> workersBufferSize == 1024
      ensures channel == [] && numberOfWorkers == |Init<T>(workers, bufferSize, processors).workers|
      ensures workersBufferSize == Init<T>(workers, bufferSize, processors).bufferSize
    {
      if workers > 0 {
        numberOfWorkers := workers;
      } else {
        numberOfWorkers := processors;
      }
      if bufferSize > 0 {
        workersBufferSize := bufferSize;
      }
      channel := [];
    }
  }

  /** What one worker's `select` picks during a run of all of them. */
  ghost function InputsOf<T>(s: System<T>, actions: seq<Action<T>>, w: nat): seq<Input<T>>
    decreases |actions|
  {
    if actions == [] then []
    else
      var a := actions[0];
      var rest := InputsOf(Next(s, a), actions[1..], w);
      if !Enabled(s, a) then rest
      else
        match a
        case Receive(v, ok) => if v == w then [Received(s.channel[0], ok)] + rest else rest
        case Tick(v, ok) => if v == w then [Ticked(ok)] + rest else rest
        case Stop(v, ok) => if v == w then [ChannelClosed(ok)] + rest else rest
        case _ => rest
  }

  /** Among all the others, each worker goes through the turns of `WorkerMain` on what it picks. */
  lemma {:induction false} WorkerRunsAlone<T>(s: System<T>, actions: seq<Action<T>>, w: nat)
    requires w < |s.workers|
    ensures |Run(s, actions).workers| == |s.workers|
    ensures Run(s, actions).workers[w] == Turns(s.workers[w], InputsOf(s, actions, w), s.bufferSize)
    decreases |actions|
  {
    if actions != [] {
      hide Turn;
      var a := actions[0];
      WorkerRunsAlone(Next(s, a), actions[1..], w);
      var rest := InputsOf(Next(s, a), actions[1..], w);
      assert forall i: Input<T> :: ([i] + rest)[1..] == rest;
    }
  }

  // ---- What every interleaving keeps -------------------------------------------------------------

  /** The packets at the positions a worker owns, in enqueue order. */
  function Select<T>(w: nat, owners: seq<nat>, history: seq<T>): seq<T>
    requires |owners| <= |history|
  {
    if owners == [] then []
    else
      var k := |owners| - 1;
      Select(w, owners[..k], history) + if owners[k] == w then [history[k]] else []
  }

  function Batches<T>(handed: seq<Handed<T>>): (r: seq<seq<T>>)
    ensures |r| == |handed| && forall i :: 0 <= i < |r| ==> r[i] == handed[i].batch
  {
    MapSeq((h: Handed<T>) => h.batch, handed)
  }

  /** Everything a worker has received: what it handed over, then its batch. */
  function Taken<T>(w: Worker<T>): seq<T> {
    Flat(Batches(w.handed)) + w.batch
  }

  ghost predicate WorkerOk<T>(w: Worker<T>, bufferSize: nat) {
    && |w.batch| < bufferSize
    && (!w.alive ==> w.batch == [])
    && (forall h :: h in w.handed ==> |h.batch| <= bufferSize && (!h.shutdown ==> |h.batch| >= 1))
  }

  /** Every received packet is with the worker that received it, in order; the channel holds the rest of the history. */
  ghost predicate Valid<T>(s: System<T>) {
    && s.bufferSize > 0
    && |s.channel| <= s.bufferSize
    && |s.owners| <= |s.history|
    && s.channel == s.history[|s.owners|..]
    && (forall i :: 0 <= i < |s.owners| ==> s.owners[i] < |s.workers|)
    && (forall w :: 0 <= w < |s.workers| ==>
          WorkerOk(s.workers[w], s.bufferSize) && Taken(s.workers[w]) == Select(w, s.owners, s.history))
  }

  lemma InitValid<T>(workers: int, bufferSize: int, processors: nat)
    ensures Valid(Init<T>(workers, bufferSize, processors))
  {
  }

  lemma {:induction false} SelectPrefix<T>(w: nat, owners: seq<nat>, history: seq<T>, more: seq<T>)
    requires |owners| <= |history|
    ensures Select(w, owners, history + more) == Select(w, owners, history)
  {
    if owners != [] {
      SelectPrefix(w, owners[..|owners| - 1], history, more);
    }
  }

  lemma TurnTakes<T>(w: Worker<T>, input: Input<T>, bufferSize: nat)
    requires w.alive && WorkerOk(w, bufferSize)
    ensures WorkerOk(Turn(w, input, bufferSize), bufferSize)
    ensures Taken(Turn(w, input, bufferSize)) == Taken(w) + if input.Received? then [input.item] else []
  {
    var t := Turn(w, input, bufferSize);
    var batch := if input.Received? then w.batch + [input.item] else w.batch;
    if t.handed != w.handed {
      var h := t.handed[|w.handed|];
      FlatSnoc(Batches(w.handed), h.batch);
      assert Batches(t.handed) == Batches(w.handed) + [h.batch];
    }
    Assoc(Flat(Batches(w.handed)), w.batch, batch[|w.batch|..]);
  }

  lemma NextValid<T>(s: System<T>, a: Action<T>)
    requires Valid(s)
    ensures Valid(Next(s, a))
  {
    hide WorkerOk, Taken, Turn;
    if Enabled(s, a) {
      var t := Next(s, a);
      match a
      case Enqueue(item) =>
        forall w | 0 <= w < |s.workers| ensures Taken(t.workers[w]) == Select(w, t.owners, t.history) {
          SelectPrefix(w, s.owners, s.history, [item]);
        }
      case Receive(v, ok) =>
        TurnTakes(s.workers[v], Received(s.channel[0], ok), s.bufferSize);
        forall w | 0 <= w < |s.workers|
          ensures WorkerOk(t.workers[w], s.bufferSize) && Taken(t.workers[w]) == Select(w, t.owners, t.history)
        {
          assert t.owners[..|s.owners|] == s.owners && s.history[|s.owners|] == s.channel[0];
        }
      case Tick(v, ok) => TurnTakes(s.workers[v], Ticked(ok), s.bufferSize);
      case Close =>
      case Stop(v, ok) => TurnTakes(s.workers[v], ChannelClosed(ok), s.bufferSize);
    }
  }

  lemma {:induction false} RunValid<T>(s: System<T>, actions: seq<Action<T>>)
    requires Valid(s)
    ensures Valid(Run(s, actions))
    decreases |actions|
  {
    hide Valid, Next;
    if actions != [] {
      NextValid(s, actions[0]);
      RunValid(Next(s, actions[0]), actions[1..]);
    }
  }

  // ---- Order -------------------------------------------------------------------------------------

  /** The positions of the packets a worker received. */
  function Positions(w: nat, owners: seq<nat>): (ps: seq<nat>)
    ensures forall j :: 0 <= j < |ps| ==> ps[j] < |owners| && owners[ps[j]] == w
    ensures forall i, j :: 0 <= i < j < |ps| ==> ps[i] < ps[j]
    ensures forall i :: 0 <= i < |owners| && owners[i] == w ==> i in ps
  {
    if owners == [] then []
    else
      var k := |owners| - 1;
      var front := Positions(w, owners[..k]);
      assert forall i :: 0 <= i < k ==> owners[..k][i] == owners[i];
      if owners[k] == w then front + [k] else front
  }

  /** What a worker received, position by position. */
  lemma {:induction false} SelectAtPositions<T>(w: nat, owners: seq<nat>, history: seq<T>)
    requires |owners| <= |history|
    ensures |Select(w, owners, history)| == |Positions(w, owners)|
    ensures forall j :: 0 <= j < |Positions(w, owners)| ==>
              Select(w, owners, history)[j] == history[Positions(w, owners)[j]]
  {
    if owners != [] {
      SelectAtPositions(w, owners[..|owners| - 1], history);
    }
  }

  /** Worker order: what a worker handed over followed by its batch is a subsequence of the enqueue order at strictly
      increasing positions; no two workers share a position, and together they cover exactly what was received. */
  lemma WorkerOrder<T>(start: System<T>, actions: seq<Action<T>>, w: nat)
    requires Valid(start) && w < |Run(start, actions).workers|
    ensures var s := Run(start, actions);
            var ps := Positions(w, s.owners);
            && |s.owners| <= |s.history|
            && |Taken(s.workers[w])| == |ps|
            && (forall j :: 0 <= j < |ps| ==> ps[j] < |s.owners| && Taken(s.workers[w])[j] == s.history[ps[j]])
            && (forall i, j :: 0 <= i < j < |ps| ==> ps[i] < ps[j])
            && (forall i :: 0 <= i < |s.owners| ==> (i in ps <==> s.owners[i] == w) && s.owners[i] < |s.workers|)
  {
    RunValid(start, actions);
    var s := Run(start, actions);
    SelectAtPositions(w, s.owners, s.history);
  }

  // ---- Conservation ------------------------------------------------------------------------------

  /** All that the first `n` workers received. */
  function TakenBy<T>(workers: seq<Worker<T>>, n: nat): seq<T>
    requires n <= |workers|
  {
    if n == 0 then [] else TakenBy(workers, n - 1) + Taken(workers[n - 1])
  }

  function SelectAll<T>(n: nat, owners: seq<nat>, history: seq<T>): seq<T>
    requires |owners| <= |history|
  {
    if n == 0 then [] else SelectAll(n - 1, owners, history) + Select(n - 1, owners, history)
  }

  lemma {:induction false} SelectAllSnoc<T>(n: nat, owners: seq<nat>, w: nat, history: seq<T>)
    requires |owners| < |history|
    ensures multiset(SelectAll(n, owners + [w], history)) ==
            multiset(SelectAll(n, owners, history)) + if w < n then multiset{history[|owners|]} else multiset{}
  {
    hide Select, SelectAll;
    if n == 0 {
      SelectNone(owners, history);
      SelectNone(owners + [w], history);
    } else {
      SelectAllSnoc(n - 1, owners, w, history);
      SelectAllNext(n, owners, history);
      SelectAllNext(n, owners + [w], history);
      SelectSnoc(n - 1, owners, w, history);
      var before, mine := Select(n - 1, owners, history), if n - 1 == w then [history[|owners|]] else [];
      MultisetAppend(SelectAll(n - 1, owners, history), before);
      MultisetAppend(SelectAll(n - 1, owners + [w], history), before + mine);
      MultisetAppend(before, mine);
      Rearrange(multiset(SelectAll(n - 1, owners, history)), if w < n - 1 then multiset{history[|owners|]} else multiset{},
                multiset(before), multiset(mine));
    }
  }

  lemma SelectNone<T>(owners: seq<nat>, history: seq<T>)
    requires |owners| <= |history|
    ensures SelectAll(0, owners, history) == []
  {
  }

  lemma SelectAllNext<T>(n: nat, owners: seq<nat>, history: seq<T>)
    requires n > 0 && |owners| <= |history|
    ensures SelectAll(n, owners, history) == SelectAll(n - 1, owners, history) + Select(n - 1, owners, history)
  {
    hide Select;
  }

  lemma SelectSnoc<T>(v: nat, owners: seq<nat>, w: nat, history: seq<T>)
    requires |owners| < |history|
    ensures Select(v, owners + [w], history) == Select(v, owners, history) + if v == w then [history[|owners|]] else []
  {
    assert (owners + [w])[..|owners|] == owners;
  }

  lemma {:induction false} SelectAllCovers<T>(n: nat, owners: seq<nat>, history: seq<T>)
    requires |owners| <= |history| && forall i :: 0 <= i < |owners| ==> owners[i] < n
    ensures multiset(SelectAll(n, owners, history)) == multiset(history[..|owners|])
  {
    hide SelectAll;
    if owners == [] {
      SelectNothing(n, history);
      assert history[..0] == [];
    } else {
      var k := |owners| - 1;
      SelectAllCovers(n, owners[..k], history);
      SelectAllSnoc(n, owners[..k], owners[k], history);
      MultisetAppend(history[..k], [history[k]]);
      assert owners == owners[..k] + [owners[k]] && history[..k + 1] == history[..k] + [history[k]];
    }
  }

  lemma {:induction false} SelectNothing<T>(n: nat, history: seq<T>)
    ensures SelectAll(n, [], history) == []
  {
    if n > 0 {
      SelectNothing(n - 1, history);
    }
  }

  lemma {:induction false} TakenIsSelected<T>(s: System<T>, n: nat)
    requires Valid(s) && n <= |s.workers|
    ensures TakenBy(s.workers, n) == SelectAll(n, s.owners, s.history)
  {
    hide Valid, Taken, Select, TakenBy, SelectAll;
    OwnersFit(s);
    if n == 0 {
      NothingTaken(s);
      SelectNone(s.owners, s.history);
    } else {
      TakenIsSelected(s, n - 1);
      OneTaken(s, n - 1);
      OneMore(s, n);
      SelectAllNext(n, s.owners, s.history);
    }
  }

  lemma OwnersFit<T>(s: System<T>)
    requires Valid(s)
    ensures |s.owners| <= |s.history|
  {
  }

  lemma OneTaken<T>(s: System<T>, w: nat)
    requires Valid(s) && w < |s.workers|
    ensures Taken(s.workers[w]) == Select(w, s.owners, s.history)
  {
    hide Taken, Select, WorkerOk;
  }

  lemma OneMore<T>(s: System<T>, n: nat)
    requires 0 < n <= |s.workers|
    ensures TakenBy(s.workers, n) == TakenBy(s.workers, n - 1) + Taken(s.workers[n - 1])
  {
    hide Taken;
  }

  lemma NothingTaken<T>(s: System<T>)
    ensures TakenBy(s.workers, 0) == []
  {
  }

  lemma NothingLost<T>(s: System<T>)
    requires Valid(s)
    ensures multiset(s.history) == multiset(s.channel) + multiset(TakenBy(s.workers, |s.workers|))
  {
    hide WorkerOk, Taken, TakenBy, SelectAll, Select;
    TakenIsSelected(s, |s.workers|);
    SelectAllCovers(|s.workers|, s.owners, s.history);
    MultisetAppend(s.history[..|s.owners|], s.history[|s.owners|..]);
    assert s.history == s.history[..|s.owners|] + s.history[|s.owners|..];
  }

  /** Conservation under every interleaving, failed flushes and worker exits included: each enqueued packet is in the channel
      or with exactly one worker, handed over once or waiting in its batch. */
  lemma Conservation<T>(start: System<T>, actions: seq<Action<T>>)
    requires Valid(start)
    ensures var s := Run(start, actions);
            multiset(s.history) == multiset(s.channel) + multiset(TakenBy(s.workers, |s.workers|))
  {
    hide Valid, Run, TakenBy;
    RunValid(start, actions);
    NothingLost(Run(start, actions));
  }

  lemma InOrder<T>(s: System<T>)
    requires Valid(s) && |s.workers| == 1
    ensures Flat(Batches(s.workers[0].handed)) + s.workers[0].batch + s.channel == s.history
  {
    SelectEverything(s.owners, s.history);
    assert s.history == s.history[..|s.owners|] + s.history[|s.owners|..];
  }

  /** With one worker the order is kept: what was handed over, the batch and the channel are the enqueue order itself. */
  lemma SingleWorkerOrder<T>(start: System<T>, actions: seq<Action<T>>)
    requires Valid(start) && |Run(start, actions).workers| == 1
    ensures var s := Run(start, actions);
            Flat(Batches(s.workers[0].handed)) + s.workers[0].batch + s.channel == s.history
  {
    hide Valid, Run, Flat, Batches;
    RunValid(start, actions);
    InOrder(Run(start, actions));
  }

  lemma {:induction false} SelectEverything<T>(owners: seq<nat>, history: seq<T>)
    requires |owners| <= |history| && forall i :: 0 <= i < |owners| ==> owners[i] < 1
    ensures Select(0, owners, history) == history[..|owners|]
  {
    if owners != [] {
      var k := |owners| - 1;
      SelectEverything(owners[..k], history);
      assert history[..k + 1] == history[..k] + [history[k]];
    }
  }

  // ---- Blocking and closing ----------------------------------------------------------------------

  function Enqueues<T>(items: seq<T>): (r: seq<Action<T>>)
    ensures |r| == |items| && forall i :: 0 <= i < |r| ==> r[i] == Enqueue(items[i])
  {
    MapSeq((item: T) => Enqueue(item), items)
  }

  function UpTo<T>(items: seq<T>, n: nat): seq<T> {
    if n <= |items| then items[..n] else items
  }

  /** An open channel takes packets in order until exactly `bufferSize` of them wait in it; then `Enqueue` blocks. */
  lemma {:induction false} FillsUp<T>(s: System<T>, items: seq<T>)
    requires |s.channel| <= s.bufferSize && !s.closed
    ensures var taken := UpTo(items, s.bufferSize - |s.channel|);
            Run(s, Enqueues(items)) == s.(channel := s.channel + taken, history := s.history + taken)
    decreases |items|
  {
    hide Run, Next, UpTo;
    UpToNext(items, s.bufferSize - |s.channel|);
    if items == [] {
      RunNothing(s);
      assert s.channel + [] == s.channel && s.history + [] == s.history;
    } else {
      var next := Next(s, Enqueue(items[0]));
      assert Enqueues(items)[1..] == Enqueues(items[1..]);
      RunFirst(s, Enqueues(items));
      EnqueueOne(s, items[0]);
      FillsUp(next, items[1..]);
      if |s.channel| < s.bufferSize {
        var more := UpTo(items[1..], s.bufferSize - |s.channel| - 1);
        Assoc(s.channel, [items[0]], more);
        Assoc(s.history, [items[0]], more);
      }
    }
  }

  lemma UpToNext<T>(items: seq<T>, n: nat)
    ensures items == [] ==> UpTo(items, n) == []
    ensures n == 0 ==> UpTo(items, n) == []
    ensures items != [] && n > 0 ==> UpTo(items, n) == [items[0]] + UpTo(items[1..], n - 1)
    ensures items != [] && n == 0 ==> UpTo(items[1..], n) == []
  {
  }

  lemma EnqueueOne<T>(s: System<T>, item: T)
    requires |s.channel| <= s.bufferSize && !s.closed
    ensures Next(s, Enqueue(item)) ==
            if |s.channel| == s.bufferSize then s
            else s.(channel := s.channel + [item], history := s.history + [item])
  {
  }

  lemma RunNothing<T>(s: System<T>)
    ensures Run(s, Enqueues([])) == s
  {
  }

  lemma RunFirst<T>(s: System<T>, actions: seq<Action<T>>)
    requires actions != []
    ensures Run(s, actions) == Run(Next(s, actions[0]), actions[1..])
  {
    hide Next;
  }

  ghost predicate FlushedAtEnd<T>(w: Worker<T>) {
    exists h :: h in w.handed && h.shutdown
  }

  /** A worker that has seen the end of the channel is gone, and nothing is left in the channel. */
  ghost predicate Drained<T>(s: System<T>) {
    forall w :: 0 <= w < |s.workers| && FlushedAtEnd(s.workers[w]) ==>
      s.closed && s.channel == [] && !s.workers[w].alive
  }

  lemma TurnAtEnd<T>(w: Worker<T>, input: Input<T>, bufferSize: nat)
    requires w.alive && !FlushedAtEnd(w)
    ensures FlushedAtEnd(Turn(w, input, bufferSize)) <==> input.ChannelClosed?
    ensures input.ChannelClosed? ==> !Turn(w, input, bufferSize).alive
  {
    var t := Turn(w, input, bufferSize);
    if input.ChannelClosed? {
      assert t.handed[|w.handed|] in t.handed;
    }
  }

  lemma NextDrained<T>(s: System<T>, a: Action<T>)
    requires Drained(s)
    ensures Drained(Next(s, a))
  {
    hide FlushedAtEnd, Turn;
    if Enabled(s, a) {
      match a
      case Receive(w, ok) => TurnAtEnd(s.workers[w], Received(s.channel[0], ok), s.bufferSize);
      case Tick(w, ok) => TurnAtEnd(s.workers[w], Ticked(ok), s.bufferSize);
      case Stop(w, ok) => TurnAtEnd(s.workers[w], ChannelClosed(ok), s.bufferSize);
      case _ =>
    }
  }

  /** A closed channel is drained first: no worker makes its last flush before every enqueued packet has been received. */
  lemma {:induction false} ClosedIsDrained<T>(s: System<T>, actions: seq<Action<T>>)
    requires Drained(s)
    ensures Drained(Run(s, actions))
    decreases |actions|
  {
    hide Drained, Next;
    if actions != [] {
      NextDrained(s, actions[0]);
      ClosedIsDrained(Next(s, actions[0]), actions[1..]);
    }
  }

  lemma InitDrained<T>(workers: int, bufferSize: int, processors: nat)
    ensures Drained(Init<T>(workers, bufferSize, processors))
  {
  }

  // ---- Backlog -----------------------------------------------------------------------------------

  function HandedBy<T>(workers: seq<Worker<T>>, n: nat): nat
    requires n <= |workers|
  {
    if n == 0 then 0 else HandedBy(workers, n - 1) + |Flat(Batches(workers[n - 1].handed))|
  }

  lemma WorkerBound<T>(w: Worker<T>, bufferSize: nat)
    requires WorkerOk(w, bufferSize)
    ensures var handed := |Flat(Batches(w.handed))|;
            handed <= |Taken(w)| <= handed + (bufferSize - 1)
  {
    hide Flat, Batches;
  }

  lemma {:induction false} WaitingBounded<T>(s: System<T>, n: nat)
    requires Valid(s) && n <= |s.workers|
    ensures |TakenBy(s.workers, n)| <= HandedBy(s.workers, n) + n * (s.bufferSize - 1)
    ensures HandedBy(s.workers, n) <= |TakenBy(s.workers, n)|
  {
    hide Select, Taken, WorkerOk, Flat, Batches;
    if n > 0 {
      WaitingBounded(s, n - 1);
      WorkerBound(s.workers[n - 1], s.bufferSize);
      assert n * (s.bufferSize - 1) == (n - 1) * (s.bufferSize - 1) + (s.bufferSize - 1);
    }
  }

  /** The server never holds back more than a full channel and one packet less than a full batch per worker. */
  lemma BacklogBound<T>(start: System<T>, actions: seq<Action<T>>)
    requires Valid(start)
    ensures var s := Run(start, actions);
            && |s.channel| <= s.bufferSize
            && (forall w :: 0 <= w < |s.workers| ==> WorkerOk(s.workers[w], s.bufferSize))
            && |s.history| <= HandedBy(s.workers, |s.workers|) + s.bufferSize + |s.workers| * (s.bufferSize - 1)
  {
    RunValid(start, actions);
    var s := Run(start, actions);
    Conservation(start, actions);
    WaitingBounded(s, |s.workers|);
    assert |multiset(s.history)| == |s.history|;
  }
}
