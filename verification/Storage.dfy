/** The generated `Flush` methods of both backends and the generated ClickHouse views, over an in-order log of rows. */
module Storage {
  import opened Bytes
  import opened Sequences
  import opened Schema
  import opened CodeGen
  import opened WireCodec
  import opened EventDecoder

  // ---- What a packet says, without names or generated code ---------------------------------------

  /** `Headless`: too short for an event number. `Unknown`: no such event. `Corrupt`: its fields do not decode. */
  datatype Meaning = Headless | Unknown | Corrupt(error: DecodeError) | Known(event: Event)

  function MeaningOf(fs: seq<Func>, packet: Packet): Meaning
    requires forall f :: f in fs ==> |f.params| >= 1
  {
    match DecodeUint64(packet)
    case Err(_) => Headless
    case Ok(id, n) =>
      if id >= |fs| then Unknown
      else
        match DecodeFields(Types(Fields(fs[id])), packet[n..])
        case Err(e) => Corrupt(e)
        case Ok(vs, _) => Known(Event(id, vs))
  }

  lemma KnownIsEvent(fs: seq<Func>, packet: Packet)
    requires (forall f :: f in fs ==> |f.params| >= 1) && MeaningOf(fs, packet).Known?
    ensures IsEvent(fs, MeaningOf(fs, packet).event)
  {
    var id := DecodeUint64(packet).value;
    DecodeFieldsCanonical(Types(Fields(fs[id])), packet[8..]);
  }

  datatype Option<T> = None | Some(value: T)

  /** The known events of a batch in order, or `None` when a packet makes `Flush` return early. Mongo gives up on a packet
      without an event number; ClickHouse skips it. */
  function KnownEvents(fs: seq<Func>, batch: seq<Packet>, skipHeadless: bool): (r: Option<seq<Event>>)
    requires forall f :: f in fs ==> |f.params| >= 1
    ensures r.Some? ==> forall e :: e in r.value ==> IsEvent(fs, e)
  {
    if batch == [] then Some([])
    else
      var last := batch[|batch| - 1];
      match KnownEvents(fs, batch[..|batch| - 1], skipHeadless)
      case None => None
      case Some(es) =>
        match MeaningOf(fs, last)
        case Headless => if skipHeadless then Some(es) else None
        case Unknown => Some(es)
        case Corrupt(_) => None
        case Known(e) => KnownIsEvent(fs, last); Some(es + [e])
  }

  /** The struct of an event. */
  function StructOf(fs: seq<Func>, e: Event): Record
    requires WellFormed(fs) && IsEvent(fs, e)
  {
    RecordOf(fs[e.id], e.id, e.args)
  }

  /** A raw ClickHouse row: the event number and the JSON payload as a map. */
  datatype Row = Row(event: Word64, payload: map<string, Value>)

  function RowOf(fs: seq<Func>, e: Event): Row
    requires WellFormed(fs) && IsEvent(fs, e)
  {
    Row(e.id, Bind(FieldNames(Fields(fs[e.id])), e.args))
  }

  ghost predicate AllEvents(fs: seq<Func>, es: seq<Event>) {
    forall e :: e in es ==> IsEvent(fs, e)
  }

  function StructsOf(fs: seq<Func>, es: seq<Event>): (r: seq<Record>)
    requires WellFormed(fs) && AllEvents(fs, es)
    ensures |r| == |es| && forall i :: 0 <= i < |es| ==> r[i] == StructOf(fs, es[i])
  {
    seq(|es|, i requires 0 <= i < |es| => StructOf(fs, es[i]))
  }

  function RowsOf(fs: seq<Func>, es: seq<Event>): (r: seq<Row>)
    requires WellFormed(fs) && AllEvents(fs, es)
    ensures |r| == |es| && forall i :: 0 <= i < |es| ==> r[i] == RowOf(fs, es[i])
  {
    seq(|es|, i requires 0 <= i < |es| => RowOf(fs, es[i]))
  }

  // ---- Running the generated switches ------------------------------------------------------------

  /** The generated server code: constants, decoders, and the cases of one `Flush` switch. */
  datatype Server = Server(constants: seq<string>, decoders: seq<DecoderCode>, cases: seq<FlushCase>)

  ghost predicate HasDecoder(decoders: seq<DecoderCode>, event: string) {
    exists d :: d in decoders && d.event == event
  }

  ghost predicate Resolved(s: Server) {
    && |s.constants| <= TWO_32
    && (forall i :: 0 <= i < |s.cases| ==> s.cases[i].constant in s.constants && HasDecoder(s.decoders, s.cases[i].decoder))
    && (forall d :: d in s.decoders ==> Compiles(d, s.constants))
  }

  /** The `i`-th case on: the first one whose constant has the value `event`. */
  function Switch(s: Server, event: nat, i: nat): (r: nat)
    requires (forall j :: 0 <= j < |s.cases| ==> s.cases[j].constant in s.constants) && i <= |s.cases|
    ensures i <= r <= |s.cases|
    decreases |s.cases| - i
  {
    if i == |s.cases| || IndexOf(s.constants, s.cases[i].constant) == event then i else Switch(s, event, i + 1)
  }

  function FindDecoder(decoders: seq<DecoderCode>, event: string): (d: DecoderCode)
    requires HasDecoder(decoders, event)
    ensures d in decoders && d.event == event
  {
    if decoders[0].event == event then decoders[0]
    else
      assert forall d :: d in decoders && d.event == event ==> d in decoders[1..];
      FindDecoder(decoders[1..], event)
  }

  /** The code generated from `fs`; the two backends differ only in the payload lists of their cases. */
  ghost predicate Generated(s: Server, fs: seq<Func>)
    requires Usable(fs)
  {
    && s.constants == GoConstants(fs) && s.decoders == DecodersOf(fs) && |s.cases| == |fs|
    && forall i :: 0 <= i < |fs| ==>
         s.cases[i].constant == Capital(EventName(fs[i])) && s.cases[i].decoder == EventName(fs[i])
  }

  lemma CaseNumber(s: Server, fs: seq<Func>, i: nat)
    requires WellFormed(fs) && Generated(s, fs) && i < |fs|
    ensures s.cases[i].constant in s.constants && IndexOf(s.constants, s.cases[i].constant) == i
  {
    hide WellFormedFunc, IndexOf, DecodersOf;
    assert GoConstants(fs)[i] == s.cases[i].constant;
    IndexOfDistinct(GoConstants(fs), i);
  }

  lemma {:induction false} SwitchFindsEvent(s: Server, fs: seq<Func>, event: nat, i: nat)
    requires WellFormed(fs) && Generated(s, fs) && i <= |fs| && (event < |fs| ==> i <= event)
    requires forall j :: 0 <= j < |s.cases| ==> s.cases[j].constant in s.constants
    ensures Switch(s, event, i) == if event < |fs| then event else |fs|
    decreases |fs| - i
  {
    hide WellFormed, WellFormedFunc, IndexOf, DecodersOf, GoConstants;
    if i < |fs| {
      CaseNumber(s, fs, i);
      if i != event {
        SwitchFindsEvent(s, fs, event, i + 1);
      }
    }
  }

  lemma FindsOwnDecoder(s: Server, fs: seq<Func>, i: nat)
    requires WellFormed(fs) && Generated(s, fs) && i < |fs|
    ensures s.cases[i].constant in s.constants
    ensures HasDecoder(s.decoders, s.cases[i].decoder)
    ensures FindDecoder(s.decoders, s.cases[i].decoder) == DecoderOf(fs[i])
  {
    assert s.constants[i] == s.cases[i].constant;
    assert s.decoders[i] in s.decoders && s.decoders[i].event == s.cases[i].decoder;
    var d := FindDecoder(s.decoders, s.cases[i].decoder);
    var j :| 0 <= j < |fs| && d == s.decoders[j];
    DistinctEventNames(fs, i, j);
  }

  lemma GeneratedResolves(s: Server, fs: seq<Func>)
    requires WellFormed(fs) && Generated(s, fs)
    ensures Resolved(s)
  {
    hide DecoderOf, FindDecoder, HasDecoder, Compiles, WellFormedFunc, MapSeq;
    forall d | d in s.decoders ensures Compiles(d, s.constants) {
      var i :| 0 <= i < |s.decoders| && d == s.decoders[i];
      GeneratedCompiles(fs, i);
    }
    forall i | 0 <= i < |s.cases|
      ensures s.cases[i].constant in s.constants && HasDecoder(s.decoders, s.cases[i].decoder)
    {
      FindsOwnDecoder(s, fs, i);
    }
  }

  /** What both switches do with one packet: the case taken, and the struct its decoder returns. */
  datatype Dispatched = NoNumber | NoCase | Broken | Taken(index: nat, event: Word64, record: Record)

  method Dispatch(s: Server, packet: Packet) returns (r: Dispatched)
    requires Resolved(s)
    ensures r == DispatchOf(s, packet)
  {
    hide Compiles, HasDecoder, FindDecoder, EventDecoder.Decode, EncodeValue, IndexOf;
    var number := DecodeUint64(packet);
    if number.Err? {
      return NoNumber;
    }
    var i := 0;
    while i < |s.cases| && IndexOf(s.constants, s.cases[i].constant) != number.value
      invariant i <= |s.cases| && Switch(s, number.value, 0) == Switch(s, number.value, i)
    {
      i := i + 1;
    }
    if i == |s.cases| {
      return NoCase;
    }
    var decoded := RunDecoder(FindDecoder(s.decoders, s.cases[i].decoder), s.constants, packet[number.consumed..]);
    r := if decoded.Failure? then Broken else Taken(i, number.value, decoded.value);
  }

  function DispatchOf(s: Server, packet: Packet): Dispatched
    requires Resolved(s)
  {
    match DecodeUint64(packet)
    case Err(_) => NoNumber
    case Ok(event, n) =>
      var i := Switch(s, event, 0);
      if i == |s.cases| then NoCase
      else
        match EventDecoder.Decode(FindDecoder(s.decoders, s.cases[i].decoder), s.constants, packet[n..])
        case Failure(_) => Broken
        case Success(record) => Taken(i, event, record)
  }

  /** The generated switch and decoders say of every packet what its bytes mean. */
  lemma DispatchMeaning(s: Server, fs: seq<Func>, packet: Packet)
    requires WellFormed(fs) && Generated(s, fs) && Resolved(s)
    ensures match MeaningOf(fs, packet)
            case Headless => DispatchOf(s, packet) == NoNumber
            case Unknown => DispatchOf(s, packet) == NoCase
            case Corrupt(_) => DispatchOf(s, packet) == Broken
            case Known(e) => IsEvent(fs, e) && DispatchOf(s, packet) == Taken(e.id, e.id, StructOf(fs, e))
  {
    hide DecodeFields, EventDecoder.Decode, RecordOf, Switch, FindDecoder, WellFormedFunc, Resolved, DecoderOf, EncodeValue;
    var number := DecodeUint64(packet);
    if number.Ok? {
      SwitchFindsEvent(s, fs, number.value, 0) by { GeneratedResolves(s, fs); }
      if number.value < |fs| {
        DecoderMeaning(fs, number.value, packet[8..]);
        FindsOwnDecoder(s, fs, number.value);
        if MeaningOf(fs, packet).Known? {
          KnownIsEvent(fs, packet);
        }
      }
    }
  }

  // ---- Flush -------------------------------------------------------------------------------------

  lemma {:induction false} AbortStays(fs: seq<Func>, batch: seq<Packet>, i: nat, skipHeadless: bool)
    requires (forall f :: f in fs ==> |f.params| >= 1) && i <= |batch|
    requires KnownEvents(fs, batch[..i], skipHeadless).None?
    ensures KnownEvents(fs, batch, skipHeadless).None?
  {
    hide MeaningOf;
    if i == |batch| {
      assert batch[..i] == batch;
    } else {
      var k := |batch| - 1;
      assert batch[..k][..i] == batch[..i];
      AbortStays(fs, batch[..k], i, skipHeadless);
    }
  }

  lemma KnownEventsNext(fs: seq<Func>, batch: seq<Packet>, i: nat, skipHeadless: bool)
    requires (forall f :: f in fs ==> |f.params| >= 1) && i < |batch|
    requires KnownEvents(fs, batch[..i], skipHeadless).Some?
    ensures KnownEvents(fs, batch[..i + 1], skipHeadless) ==
            var es := KnownEvents(fs, batch[..i], skipHeadless).value;
            match MeaningOf(fs, batch[i])
            case Headless => if skipHeadless then Some(es) else None
            case Unknown => Some(es)
            case Corrupt(_) => None
            case Known(e) => Some(es + [e])
  {
    hide MeaningOf;
    assert batch[..i + 1][..i] == batch[..i];
  }

  /** The Mongo `Flush`: one `InsertMany` of all decoded structs, unless a packet made it give up before. */
  method MongoFlush(s: Server, ghost fs: seq<Func>, batch: seq<Packet>, driverOk: bool)
    returns (err: bool, stored: seq<Record>)
    requires WellFormed(fs) && Generated(s, fs)
    ensures var events := KnownEvents(fs, batch, false);
            if events.None? then err && stored == []
            else
              && stored == (if driverOk then StructsOf(fs, events.value) else [])
              && (err <==> !driverOk && events.value != [])
  {
    hide StructOf, DispatchOf, MeaningOf, KnownEvents, Resolved, Generated, WellFormedFunc;
    GeneratedResolves(s, fs);
    var fields: seq<Record> := [];
    ghost var events: seq<Event> := [];
    NothingKnown(fs, false);
    assert batch[..0] == [];
    for i := 0 to |batch|
      invariant KnownEvents(fs, batch[..i], false) == Some(events)
      invariant AllEvents(fs, events) && fields == StructsOf(fs, events)
    {
      var d := Dispatch(s, batch[i]);
      DispatchMeaning(s, fs, batch[i]);
      KnownEventsNext(fs, batch, i, false);
      match d {
        case NoNumber =>
          AbortStays(fs, batch, i + 1, false);
          return true, [];
        case NoCase =>
        case Broken =>
          AbortStays(fs, batch, i + 1, false);
          return true, [];
        case Taken(_, _, record) =>
          fields := fields + [record];
          events := events + [MeaningOf(fs, batch[i]).event];
      }
    }
    assert batch[..|batch|] == batch;
    if |fields| > 0 {
      return !driverOk, if driverOk then fields else [];
    }
    return false, [];
  }

  lemma NothingKnown(fs: seq<Func>, skipHeadless: bool)
    requires forall f :: f in fs ==> |f.params| >= 1
    ensures KnownEvents(fs, [], skipHeadless) == Some([])
  {
  }

  /** The JSON payload of a case: the listed fields of the decoded struct. */
  function PayloadOf(fields: seq<string>, record: Record): map<string, Value>
    requires forall i :: 0 <= i < |fields| ==> fields[i] in record
  {
    Bind(fields, seq(|fields|, i requires 0 <= i < |fields| => record[fields[i]]))
  }

  lemma PayloadOfStruct(fs: seq<Func>, e: Event)
    requires WellFormed(fs) && IsEvent(fs, e)
    ensures var fields := FieldNames(Fields(fs[e.id]));
            && (forall i :: 0 <= i < |fields| ==> fields[i] in StructOf(fs, e))
            && PayloadOf(fields, StructOf(fs, e)) == RowOf(fs, e).payload
  {
    hide StructOf, RowOf, WellFormedFunc;
    var fields := FieldNames(Fields(fs[e.id]));
    forall i | 0 <= i < |fields| ensures fields[i] in StructOf(fs, e) && StructOf(fs, e)[fields[i]] == e.args[i] {
      FieldOfBoth(fs, e, i);
    }
    PayloadOfArgs(fs, e);
  }

  lemma PayloadOfArgs(fs: seq<Func>, e: Event)
    requires WellFormed(fs) && IsEvent(fs, e)
    requires var fields := FieldNames(Fields(fs[e.id]));
             forall i :: 0 <= i < |fields| ==> fields[i] in StructOf(fs, e) && StructOf(fs, e)[fields[i]] == e.args[i]
    ensures PayloadOf(FieldNames(Fields(fs[e.id])), StructOf(fs, e)) == RowOf(fs, e).payload
  {
    hide StructOf, WellFormedFunc;
    var fields := FieldNames(Fields(fs[e.id]));
    assert seq(|fields|, i requires 0 <= i < |fields| => StructOf(fs, e)[fields[i]]) == e.args;
  }

  /** The `i`-th field of an event, in its struct and in its payload. */
  lemma FieldOfBoth(fs: seq<Func>, e: Event, i: nat)
    requires WellFormed(fs) && IsEvent(fs, e) && i < |e.args|
    ensures var name, event := Capital(Fields(fs[e.id])[i].name), Capital(EventName(fs[e.id]));
            && name != event && |FieldNames(Fields(fs[e.id]))| == |e.args|
            && name in StructOf(fs, e) && StructOf(fs, e)[name] == e.args[i]
            && name in RowOf(fs, e).payload && RowOf(fs, e).payload[name] == e.args[i]
            && event in StructOf(fs, e) && StructOf(fs, e)[event] == Num(e.id)
  {
    var f := fs[e.id];
    assert WellFormedFunc(f);
    var names, values := FieldNames(f.params), [Num(e.id)] + e.args;
    DistinctParamNames(f.params);
    BindAt(names, values, 0);
    BindAt(names, values, i + 1);
    BindAt(FieldNames(Fields(f)), e.args, i);
    assert names[0] != names[i + 1];
  }

  ghost predicate HasFields(s: Server, index: nat, record: Record) {
    && |s.constants| <= TWO_32 && index < |s.cases|
    && s.cases[index].constant in s.constants
    && forall i :: 0 <= i < |s.cases[index].payload| ==> s.cases[index].payload[i] in record
  }

  /** The row a case appends: the number its constant stands for, and the listed fields. */
  function CaseRow(s: Server, index: nat, record: Record): Row
    requires HasFields(s, index, record)
  {
    Row(IndexOf(s.constants, s.cases[index].constant), PayloadOf(s.cases[index].payload, record))
  }

  /** What a prepared batch holds after appending these rows: `oks` says how the calls of `Append` went, further ones went
      well. */
  function Appended(rows: seq<Row>, oks: seq<bool>): seq<Row> {
    if rows == [] then []
    else
      var k := |rows| - 1;
      Appended(rows[..k], oks) + if k < |oks| && !oks[k] then [] else [rows[k]]
  }

  lemma AppendedSnoc(rows: seq<Row>, row: Row, oks: seq<bool>)
    ensures Appended(rows + [row], oks) ==
            Appended(rows, oks) + if |rows| < |oks| && !oks[|rows|] then [] else [row]
  {
    assert (rows + [row])[..|rows|] == rows;
  }

  lemma AppendedNone(oks: seq<bool>)
    ensures Appended([], oks) == []
  {
  }

  /** Rows are missing exactly when an `Append` failed. */
  lemma {:induction false} AppendedAllIff(rows: seq<Row>, oks: seq<bool>)
    ensures |Appended(rows, oks)| <= |rows|
    ensures Appended(rows, oks) == rows <==> forall i :: 0 <= i < |oks| && i < |rows| ==> oks[i]
  {
    if rows != [] {
      var k := |rows| - 1;
      AppendedAllIff(rows[..k], oks);
      assert rows == rows[..k] + [rows[k]];
      if |Appended(rows[..k], oks)| == k && Appended(rows, oks) == rows {
        assert Appended(rows[..k], oks) == Appended(rows, oks)[..k] == rows[..k];
      }
    }
  }

  /** The rows whose `Append` went well. */
  function WellAppended(n: nat, oks: seq<bool>): (ps: seq<nat>)
    ensures forall j :: 0 <= j < |ps| ==> ps[j] < n && (ps[j] < |oks| ==> oks[ps[j]])
    ensures forall i, j :: 0 <= i < j < |ps| ==> ps[i] < ps[j]
    ensures forall i :: 0 <= i < n && (i < |oks| ==> oks[i]) ==> i in ps
  {
    if n == 0 then []
    else
      WellAppended(n - 1, oks) + if n - 1 < |oks| && !oks[n - 1] then [] else [n - 1]
  }

  /** A failed `Append` costs its own row and no other. */
  lemma {:induction false} AppendedAt(rows: seq<Row>, oks: seq<bool>)
    ensures |Appended(rows, oks)| == |WellAppended(|rows|, oks)|
    ensures forall j :: 0 <= j < |Appended(rows, oks)| ==> Appended(rows, oks)[j] == rows[WellAppended(|rows|, oks)[j]]
  {
    if rows != [] {
      AppendedAt(rows[..|rows| - 1], oks);
    }
  }

  /** The ClickHouse `Flush`: rows are appended to one prepared batch, which is sent unless a packet made it give up. A failed
      `Append` is printed and costs its row. */
  method ClickHouseFlush(s: Server, ghost fs: seq<Func>, batch: seq<Packet>, prepareOk: bool, appendOk: seq<bool>, sendOk: bool)
    returns (err: bool, stored: seq<Row>)
    requires WellFormed(fs) && Generated(s, fs) && s.cases == FlushCasesOf(fs)
    ensures var events := KnownEvents(fs, batch, true);
            if !prepareOk || events.None? then err && stored == []
            else stored == (if sendOk then Appended(RowsOf(fs, events.value), appendOk) else []) && err == !sendOk
  {
    hide Appended, StructOf, RowOf, CaseRow, HasFields, FlushCaseOf, DispatchOf, MeaningOf, KnownEvents, Resolved, Generated,
         WellFormedFunc;
    if !prepareOk {
      return true, [];
    }
    GeneratedResolves(s, fs);
    var rows: seq<Row> := [];
    var appends: nat := 0;
    ghost var events: seq<Event> := [];
    NothingKnown(fs, true);
    AppendedNone(appendOk);
    assert batch[..0] == [];
    for i := 0 to |batch|
      invariant KnownEvents(fs, batch[..i], true) == Some(events)
      invariant AllEvents(fs, events) && appends == |events|
      invariant rows == Appended(RowsOf(fs, events), appendOk)
    {
      var d := Dispatch(s, batch[i]);
      DispatchMeaning(s, fs, batch[i]);
      KnownEventsNext(fs, batch, i, true);
      match d {
        case NoNumber =>
        case NoCase =>
        case Broken =>
          AbortStays(fs, batch, i + 1, true);
          return true, [];
        case Taken(index, event, record) =>
          ghost var e := MeaningOf(fs, batch[i]).event;
          CaseMakesRow(s, fs, e);
          AppendedSnoc(RowsOf(fs, events), RowOf(fs, e), appendOk);
          assert RowsOf(fs, events + [e]) == RowsOf(fs, events) + [RowOf(fs, e)];
          if appends >= |appendOk| || appendOk[appends] {
            rows := rows + [CaseRow(s, index, record)];
          }
          appends := appends + 1;
          events := events + [e];
      }
    }
    assert batch[..|batch|] == batch;
    return !sendOk, if sendOk then rows else [];
  }

  lemma CaseMakesRow(s: Server, fs: seq<Func>, e: Event)
    requires WellFormed(fs) && Generated(s, fs) && s.cases == FlushCasesOf(fs) && IsEvent(fs, e)
    ensures HasFields(s, e.id, StructOf(fs, e)) && CaseRow(s, e.id, StructOf(fs, e)) == RowOf(fs, e)
  {
    hide StructOf, PayloadOf, DecoderOf;
    PayloadOfStruct(fs, e);
    assert s.constants[e.id] == s.cases[e.id].constant;
    IndexOfDistinct(s.constants, e.id);
  }

  // ---- The backends agree ------------------------------------------------------------------------

  /** Both backends see the same events of a batch exactly when every packet carries an event number, or a broken packet
      stops both. The listener only lets packets of more than 12 bytes through. */
  lemma {:induction false} BackendsAgreeIff(fs: seq<Func>, batch: seq<Packet>)
    requires forall f :: f in fs ==> |f.params| >= 1
    ensures KnownEvents(fs, batch, false) == KnownEvents(fs, batch, true) <==>
            (forall p :: p in batch ==> |p| >= 8) || (exists p :: p in batch && MeaningOf(fs, p).Corrupt?)
    ensures KnownEvents(fs, batch, true).None? <==> exists p :: p in batch && MeaningOf(fs, p).Corrupt?
    ensures (exists p :: p in batch && MeaningOf(fs, p).Corrupt?) ==> KnownEvents(fs, batch, false).None?
    ensures (exists p :: p in batch && |p| < 8) ==> KnownEvents(fs, batch, false).None?
  {
    hide MeaningOf;
    if batch != [] {
      var k := |batch| - 1;
      BackendsAgreeIff(fs, batch[..k]);
      assert batch == batch[..k] + [batch[k]];
      HeadlessIffShort(fs, batch[k]);
    }
  }

  /** A batch of known events is kept in full, by both backends. */
  lemma {:induction false} AllKept(fs: seq<Func>, batch: seq<Packet>, skipHeadless: bool)
    requires WellFormed(fs) && forall i :: 0 <= i < |batch| ==> MeaningOf(fs, batch[i]).Known?
    ensures var r := KnownEvents(fs, batch, skipHeadless);
            r.Some? && |r.value| == |batch| &&
            forall i :: 0 <= i < |batch| ==> MeaningOf(fs, batch[i]) == Known(r.value[i])
  {
    hide MeaningOf, WellFormedFunc;
    if batch != [] {
      AllKept(fs, batch[..|batch| - 1], skipHeadless);
    }
  }

  lemma HeadlessIffShort(fs: seq<Func>, packet: Packet)
    requires forall f :: f in fs ==> |f.params| >= 1
    ensures MeaningOf(fs, packet).Headless? <==> |packet| < 8
  {
  }

  /** A batch is handled packet by packet. */
  lemma {:induction false} KnownEventsAppend(fs: seq<Func>, a: seq<Packet>, b: seq<Packet>, skipHeadless: bool)
    requires forall f :: f in fs ==> |f.params| >= 1
    ensures var first, second := KnownEvents(fs, a, skipHeadless), KnownEvents(fs, b, skipHeadless);
            KnownEvents(fs, a + b, skipHeadless) ==
            if first.None? || second.None? then None else Some(first.value + second.value)
  {
    hide MeaningOf;
    if b == [] {
      assert a + b == a;
      var first := KnownEvents(fs, a, skipHeadless);
      assert first.Some? ==> first.value + [] == first.value;
    } else {
      var k := |b| - 1;
      KnownEventsAppend(fs, a, b[..k], skipHeadless);
      assert (a + b)[..|a + b| - 1] == a + b[..k];
      var first, front := KnownEvents(fs, a, skipHeadless), KnownEvents(fs, b[..k], skipHeadless);
      if first.Some? && front.Some? && MeaningOf(fs, b[k]).Known? {
        Assoc(first.value, front.value, [MeaningOf(fs, b[k]).event]);
      }
    }
  }

  lemma MeaningByBytes(fs: seq<Func>, packet: Packet)
    requires forall f :: f in fs ==> |f.params| >= 1
    ensures MeaningOf(fs, packet) ==
            if |packet| < 8 then Headless
            else
              var id := FromBigEndian(packet[..8]);
              if id >= |fs| then Unknown
              else
                var fields := DecodeFields(Types(Fields(fs[id])), packet[8..]);
                if fields.Err? then Corrupt(fields.error) else Known(Event(id, fields.value))
  {
    hide DecodeFields;
  }

  /** One packet: too short for a number, it stops the flush or is skipped; with a number no event has, it is skipped; otherwise
      its fields decode, or it stops the flush. */
  lemma OnePacket(fs: seq<Func>, packet: Packet, skipHeadless: bool)
    requires forall f :: f in fs ==> |f.params| >= 1
    ensures KnownEvents(fs, [packet], skipHeadless) ==
            if |packet| < 8 then (if skipHeadless then Some([]) else None)
            else
              var id := FromBigEndian(packet[..8]);
              if id >= |fs| then Some([])
              else
                var fields := DecodeFields(Types(Fields(fs[id])), packet[8..]);
                if fields.Err? then None else Some([Event(id, fields.value)])
  {
    hide KnownEvents, MeaningOf, DecodeFields;
    NothingKnown(fs, skipHeadless);
    KnownEventsNext(fs, [packet], 0, skipHeadless) by {
      assert [packet][..0] == [];
    }
    assert [packet][..0] == [] && [packet][..1] == [packet];
    MeaningByBytes(fs, packet);
    var m := MeaningOf(fs, packet);
    assert m.Known? ==> [] + [m.event] == [m.event];
  }

  /** A packet with an unknown event number changes nothing for the others. */
  lemma UnknownSkipped(fs: seq<Func>, a: seq<Packet>, packet: Packet, b: seq<Packet>, skipHeadless: bool)
    requires forall f :: f in fs ==> |f.params| >= 1
    requires |packet| >= 8 && FromBigEndian(packet[..8]) >= |fs|
    ensures KnownEvents(fs, a + [packet] + b, skipHeadless) == KnownEvents(fs, a + b, skipHeadless)
  {
    hide KnownEvents;
    OnePacket(fs, packet, skipHeadless);
    KnownEventsAppend(fs, a, [packet], skipHeadless);
    KnownEventsAppend(fs, a + [packet], b, skipHeadless);
    KnownEventsAppend(fs, a, b, skipHeadless);
    var first := KnownEvents(fs, a, skipHeadless);
    assert first.Some? ==> first.value + [] == first.value;
  }

  /** One empty packet is enough for the backends to disagree. */
  lemma EmptyPacketSplits(fs: seq<Func>)
    requires forall f :: f in fs ==> |f.params| >= 1
    ensures KnownEvents(fs, [[]], false) == None && KnownEvents(fs, [[]], true) == Some([])
  {
    var batch: seq<Packet> := [[]];
    assert batch[..0] == [];
  }

  /** Every packet of the batch holds an event number, or some packet is broken. */
  ghost predicate Agreeable(fs: seq<Func>, batch: seq<Packet>)
    requires forall f :: f in fs ==> |f.params| >= 1
  {
    (forall p :: p in batch ==> |p| >= 8) || exists p :: p in batch && MeaningOf(fs, p).Corrupt?
  }

  /** The two stores hold the same events in the same order. */
  ghost predicate SameEvents(fs: seq<Func>, documents: seq<Record>, rows: seq<Row>)
    requires WellFormed(fs)
  {
    exists es :: AllEvents(fs, es) && documents == StructsOf(fs, es) && rows == RowsOf(fs, es)
  }

  /** Both `Flush` methods on one batch, with drivers that do not fail: they report the same and store the same events exactly
      when every packet holds an event number or some packet is broken. The listener passes on no packet of 12 bytes or less. */
  method FlushBoth(mongo: Server, clickHouse: Server, ghost fs: seq<Func>, batch: seq<Packet>)
    returns (mongoErr: bool, documents: seq<Record>, clickHouseErr: bool, rows: seq<Row>)
    requires WellFormed(fs) && Generated(mongo, fs) && Generated(clickHouse, fs) && clickHouse.cases == FlushCasesOf(fs)
    ensures (mongoErr == clickHouseErr && SameEvents(fs, documents, rows)) <==> Agreeable(fs, batch)
    ensures mongoErr ==> documents == []
    ensures clickHouseErr ==> rows == []
    ensures (forall p :: p in batch ==> |p| > 12) ==> Agreeable(fs, batch)
  {
    hide WellFormedFunc, Generated, KnownEvents, StructOf, RowOf, Appended, MeaningOf;
    mongoErr, documents := MongoFlush(mongo, fs, batch, true);
    clickHouseErr, rows := ClickHouseFlush(clickHouse, fs, batch, true, [], true);
    BackendsAgreeIff(fs, batch);
    ghost var inMongo, inClickHouse := KnownEvents(fs, batch, false), KnownEvents(fs, batch, true);
    if inClickHouse.Some? {
      AppendedAllIff(RowsOf(fs, inClickHouse.value), []);
    }
    if inMongo == inClickHouse {
      ghost var es := if inMongo.Some? then inMongo.value else [];
      assert AllEvents(fs, es) && documents == StructsOf(fs, es) && rows == RowsOf(fs, es);
    }
  }

  /** What each backend keeps of the same events: the ClickHouse row is the Mongo struct without its event field. */
  lemma RowIsStruct(fs: seq<Func>, e: Event)
    requires WellFormed(fs) && IsEvent(fs, e)
    ensures RowOf(fs, e).event == e.id
    ensures RowOf(fs, e).payload == StructOf(fs, e) - {Capital(EventName(fs[e.id]))}
    ensures Capital(EventName(fs[e.id])) in StructOf(fs, e) && StructOf(fs, e)[Capital(EventName(fs[e.id]))] == Num(e.id)
  {
    EventField(fs, e);
    NamesSplit(fs, e.id);
    hide Bind, WellFormedFunc, FieldNames, Capital;
    BindTail(Capital(EventName(fs[e.id])), Num(e.id), FieldNames(Fields(fs[e.id])), e.args);
  }

  lemma NamesSplit(fs: seq<Func>, id: nat)
    requires WellFormed(fs) && id < |fs|
    ensures FieldNames(fs[id].params) == [Capital(EventName(fs[id]))] + FieldNames(Fields(fs[id]))
    ensures Capital(EventName(fs[id])) !in FieldNames(Fields(fs[id]))
  {
    hide Capital;
    assert WellFormedFunc(fs[id]);
    var names := FieldNames(fs[id].params);
    assert forall i :: 1 <= i < |names| ==> names[i] != names[0];
  }

  lemma EventField(fs: seq<Func>, e: Event)
    requires WellFormed(fs) && IsEvent(fs, e)
    ensures var event := Capital(EventName(fs[e.id]));
            event in StructOf(fs, e) && StructOf(fs, e)[event] == Num(e.id)
  {
    assert WellFormedFunc(fs[e.id]);
    BindAt(FieldNames(fs[e.id].params), [Num(e.id)] + e.args, 0);
  }

  // ---- Typed tables ------------------------------------------------------------------------------

  /** `JSONExtractUInt`, `JSONExtractString`, `JSONExtractBool`, with their defaults. */
  function ExtractField(column: Column, payload: map<string, Value>): Value {
    var v := if column.field in payload then payload[column.field] else Num(0);
    match column.extract
    case ExtractUInt => if v.Num? then v else Num(0)
    case ExtractString => if v.Str? then v else Str([])
    case ExtractBool => if v.Num? && v.n != 0 then Num(1) else Num(0)
  }

  function Tuple(columns: seq<Column>, payload: map<string, Value>): (r: seq<Value>)
    ensures |r| == |columns| && forall i :: 0 <= i < |r| ==> r[i] == ExtractField(columns[i], payload)
  {
    seq(|columns|, i requires 0 <= i < |columns| => ExtractField(columns[i], payload))
  }

  /** The rows a materialized view has put into its typed table. */
  function ViewOf(m: Migration, constants: seq<string>, rows: seq<Row>): seq<seq<Value>>
    requires m.constant in constants
  {
    if rows == [] then []
    else
      var k := |rows| - 1;
      ViewOf(m, constants, rows[..k]) +
      if rows[k].event == IndexOf(constants, m.constant) then [Tuple(m.select, rows[k].payload)] else []
  }

  /** The arguments of the events with one number, in order. */
  function OfType(es: seq<Event>, id: nat): seq<seq<Value>> {
    if es == [] then []
    else
      var k := |es| - 1;
      OfType(es[..k], id) + if es[k].id == id then [es[k].args] else []
  }

  lemma TupleIsArgs(fs: seq<Func>, e: Event)
    requires WellFormed(fs) && IsEvent(fs, e)
    ensures Tuple(MigrationOf(fs[e.id]).select, RowOf(fs, e).payload) == e.args
  {
    hide RowOf, StructOf, WellFormedFunc, TableColumnsOf;
    var ps, columns, payload := Fields(fs[e.id]), ColumnsOf(Fields(fs[e.id])), RowOf(fs, e).payload;
    forall i | 0 <= i < |ps| ensures ExtractField(columns[i], payload) == e.args[i] {
      FieldOfBoth(fs, e, i);
      PlainField(fs, e.id, i);
      assert Types(ps)[i] == ps[i].ty;
    }
  }

  lemma PlainField(fs: seq<Func>, id: nat, i: nat)
    requires WellFormed(fs) && id < |fs| && i < |Fields(fs[id])|
    ensures !Fields(fs[id])[i].ty.Other?
  {
    assert WellFormedFunc(fs[id]);
  }

  /** The typed table of an event holds exactly its field tuples, in the order the events were stored. */
  lemma {:induction false} TypedTable(fs: seq<Func>, es: seq<Event>, id: nat)
    requires WellFormed(fs) && AllEvents(fs, es) && id < |fs|
    ensures MigrationOf(fs[id]).constant in GoConstants(fs)
    ensures ViewOf(MigrationOf(fs[id]), GoConstants(fs), RowsOf(fs, es)) == OfType(es, id)
  {
    hide RowOf, Tuple, WellFormedFunc, ColumnsOf, TableColumnsOf;
    assert GoConstants(fs)[id] == MigrationOf(fs[id]).constant;
    IndexOfDistinct(GoConstants(fs), id);
    if es != [] {
      var k := |es| - 1;
      TypedTable(fs, es[..k], id);
      assert RowsOf(fs, es)[..k] == RowsOf(fs, es[..k]);
      RowIsStruct(fs, es[k]);
      if es[k].id == id {
        TupleIsArgs(fs, es[k]);
      }
    }
  }

  /** How many rows the first `n` typed tables hold. */
  ghost function TableSizes(es: seq<Event>, n: nat): nat {
    if n == 0 then 0 else TableSizes(es, n - 1) + |OfType(es, n - 1)|
  }

  lemma {:induction false} TableSizesSnoc(es: seq<Event>, e: Event, n: nat)
    ensures TableSizes(es + [e], n) == TableSizes(es, n) + if e.id < n then 1 else 0
  {
    if n > 0 {
      TableSizesSnoc(es, e, n - 1);
      assert (es + [e])[..|es|] == es;
    }
  }

  lemma {:induction false} SizesAddUp(fs: seq<Func>, es: seq<Event>)
    requires AllEvents(fs, es)
    ensures TableSizes(es, |fs|) == |es|
  {
    if es == [] {
      NoRows(|fs|);
    } else {
      var k := |es| - 1;
      SizesAddUp(fs, es[..k]);
      TableSizesSnoc(es[..k], es[k], |fs|);
      assert es[k] in es;
      assert es == es[..k] + [es[k]];
    }
  }

  /** The `WHERE event = …` of the view of event `id` lets this row through. */
  ghost predicate Feeds(fs: seq<Func>, row: Row, id: nat)
    requires Usable(fs) && id < |fs|
  {
    MigrationOf(fs[id]).constant in GoConstants(fs) && row.event == IndexOf(GoConstants(fs), MigrationOf(fs[id]).constant)
  }

  /** How many rows the typed tables of the first `n` events hold. */
  ghost function ViewSizes(fs: seq<Func>, rows: seq<Row>, n: nat): nat
    requires WellFormed(fs) && n <= |fs|
  {
    if n == 0 then 0
    else
      assert GoConstants(fs)[n - 1] == MigrationOf(fs[n - 1]).constant;
      ViewSizes(fs, rows, n - 1) + |ViewOf(MigrationOf(fs[n - 1]), GoConstants(fs), rows)|
  }

  lemma {:induction false} ViewSizesAre(fs: seq<Func>, es: seq<Event>, n: nat)
    requires WellFormed(fs) && AllEvents(fs, es) && n <= |fs|
    ensures ViewSizes(fs, RowsOf(fs, es), n) == TableSizes(es, n)
  {
    hide ViewOf, OfType, RowOf, WellFormedFunc, ColumnsOf, Capital, MigrationOf;
    if n > 0 {
      ViewSizesAre(fs, es, n - 1);
      TypedTable(fs, es, n - 1);
    }
  }

  lemma FeedsOwn(fs: seq<Func>, e: Event, id: nat)
    requires WellFormed(fs) && IsEvent(fs, e) && id < |fs|
    ensures Feeds(fs, RowOf(fs, e), id) <==> id == e.id
  {
    hide Bind, WellFormedFunc, Capital, ColumnsOf, TableColumnsOf;
    assert GoConstants(fs)[id] == MigrationOf(fs[id]).constant;
    IndexOfDistinct(GoConstants(fs), id);
  }

  /** Every stored row feeds exactly one typed table, that of its event, so the tables together hold as many rows as there are
      events. */
  lemma TablesPartition(fs: seq<Func>, es: seq<Event>)
    requires WellFormed(fs) && AllEvents(fs, es)
    ensures forall i, id :: 0 <= i < |es| && 0 <= id < |fs| ==> (Feeds(fs, RowsOf(fs, es)[i], id) <==> id == es[i].id)
    ensures ViewSizes(fs, RowsOf(fs, es), |fs|) == |es|
  {
    hide Feeds, WellFormedFunc, RowOf, ViewSizes, TableSizes;
    forall i, id | 0 <= i < |es| && 0 <= id < |fs| ensures Feeds(fs, RowsOf(fs, es)[i], id) <==> id == es[i].id {
      assert es[i] in es;
      FeedsOwn(fs, es[i], id);
    }
    ViewSizesAre(fs, es, |fs|);
    SizesAddUp(fs, es);
  }

  lemma {:induction false} NoRows(n: nat)
    ensures TableSizes([], n) == 0
  {
    if n > 0 {
      NoRows(n - 1);
    }
  }
}
