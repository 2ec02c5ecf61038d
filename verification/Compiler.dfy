/** The two generated halves fit together: what a client function encodes, the server reads back as the same event. */
module Compiler {
  import opened Bytes
  import opened Sequences
  import opened Schema
  import opened WireCodec
  import opened ClientRuntime
  import opened CodeGen
  import opened EventDecoder
  import opened Storage
  import opened ClickHouse

  lemma MeaningOfBody(fs: seq<Func>, e: Event, packet: Packet)
    requires WellFormed(fs) && e.id < |fs| && |packet| >= 8 && packet[..8] == U64(e.id)
    ensures MeaningOf(fs, packet) ==
            var fields := DecodeFields(Types(Fields(fs[e.id])), packet[8..]);
            if fields.Err? then Corrupt(fields.error) else Known(Event(e.id, fields.value))
  {
  }

  /** An event survives the generated encoder, the switch on its number and the generated decoder exactly when all its
      strings are shorter than 65536 bytes. The C++ enum and the Go constants number the events alike. */
  lemma EventRoundTripIff(fs: seq<Func>, e: Event)
    requires WellFormed(fs) && IsEvent(fs, e)
    ensures MeaningOf(fs, Body(e)) == Known(e) <==> AllShort(e.args)
  {
    hide MeaningOf, DecodeFields, EncodeValue, EncodeValues;
    BodySize(e);
    var packet := Body(e);
    assert packet[..8] == U64(e.id) && packet[8..] == EncodeValues(e.args);
    MeaningOfBody(fs, e, packet);
    RoundTripIff(Types(Fields(fs[e.id])), e.args);
    if DecodeFields(Types(Fields(fs[e.id])), EncodeValues(e.args)).Ok? {
      DecodeFieldsCanonical(Types(Fields(fs[e.id])), EncodeValues(e.args));
    }
    if MeaningOf(fs, packet) == Known(e) {
      assert DecodeFields(Types(Fields(fs[e.id])), EncodeValues(e.args)).value == e.args;
    }
  }

  /** A packet cut short is never taken for an event. */
  lemma TruncatedRejected(fs: seq<Func>, e: Event, cut: nat)
    requires WellFormed(fs) && IsEvent(fs, e) && AllShort(e.args) && cut < |Body(e)|
    ensures if cut < 8 then MeaningOf(fs, Body(e)[..cut]).Headless? else MeaningOf(fs, Body(e)[..cut]).Corrupt?
  {
    BodySize(e);
    var packet := Body(e)[..cut];
    HeadlessIffShort(fs, packet);
    if cut >= 8 {
      hide MeaningOf, DecodeFields, EncodeValue, EncodeValues;
      StrictPrefixRejected(Types(Fields(fs[e.id])), e.args, cut - 8);
      assert packet[8..] == EncodeValues(e.args)[..cut - 8];
      MeaningOfBody(fs, e, packet);
    }
  }

  /** Whatever the server takes for an event is that event's own encoding, with bytes it ignores at most behind it. */
  lemma MeaningCanonical(fs: seq<Func>, packet: Packet)
    requires WellFormed(fs) && MeaningOf(fs, packet).Known?
    ensures var e := MeaningOf(fs, packet).event;
            IsEvent(fs, e) && AllShort(e.args) && Body(e) <= packet
  {
    var e := MeaningOf(fs, packet).event;
    var tys := Types(Fields(fs[e.id]));
    DecodeFieldsCanonical(tys, packet[8..]);
    var n := DecodeFields(tys, packet[8..]).consumed;
    hide MeaningOf, DecodeFields, EncodeValue, EncodeValues;
    BodySize(e);
    assert packet == packet[..8] + packet[8..] && packet[8..][..n] == EncodeValues(e.args);
    assert Body(e) == packet[..8 + n];
  }

  // ---- Events the listener cannot take -----------------------------------------------------------

  function EncodedSize(v: Value): nat {
    if v.Num? then 8 else 2 + |v.s|
  }

  lemma ValueSize(v: Value)
    ensures |EncodeValue(v)| == EncodedSize(v)
  {
  }

  /** Payloads of at most four bytes: none at all, one string of at most two bytes, or two empty strings. */
  predicate Tiny(vs: seq<Value>) {
    || vs == []
    || (|vs| == 1 && vs[0].Str? && |vs[0].s| <= 2)
    || vs == [Str([]), Str([])]
  }

  /** An event whose body the listener takes for an error. */
  predicate TooShort(e: Event) {
    Tiny(e.args)
  }

  /** Three values take more than four bytes, and so does every number. */
  lemma SmallPayloads(vs: seq<Value>)
    ensures |EncodeValues(vs)| <= 4 <==> Tiny(vs)
  {
    hide EncodeValue, EncodeValues;
    if vs == [] {
      NothingEncoded();
    } else {
      EncodeValuesCons(vs);
      ValueSize(vs[0]);
      if |vs| == 1 {
        NothingEncoded();
        assert vs[1..] == [];
      } else {
        EncodeValuesCons(vs[1..]);
        ValueSize(vs[1]);
        if |vs| == 2 {
          NothingEncoded();
          assert vs[1..][1..] == [];
          assert vs == [vs[0], vs[1]];
        } else {
          EncodeValuesCons(vs[1..][1..]);
          ValueSize(vs[2]);
        }
      }
    }
  }

  /** The events whose body the listener calls unexpectedly short. */
  lemma ShortBodyIff(e: Event)
    requires e.id < TWO_32
    ensures |Body(e)| <= 12 <==> TooShort(e)
  {
    BodySize(e);
    SmallPayloads(e.args);
  }

  // ---- Both generators, then both halves of what they generate -------------------------------------

  lemma SameRecord(fs: seq<Func>, id: nat, a: seq<Value>, b: seq<Value>)
    requires WellFormed(fs) && id < |fs| && |a| == |b| == |Fields(fs[id])|
    requires RecordOf(fs[id], id, a) == RecordOf(fs[id], id, b)
    ensures a == b
  {
    hide Bind, Capital;
    assert WellFormedFunc(fs[id]);
    var names := FieldNames(fs[id].params);
    forall i | 0 <= i < |a| ensures a[i] == b[i] {
      BindAt(names, [Num(id)] + a, i + 1);
      BindAt(names, [Num(id)] + b, i + 1);
    }
  }

  /** Different events have different structs. */
  lemma SameStruct(fs: seq<Func>, a: Event, b: Event)
    requires WellFormed(fs) && IsEvent(fs, a) && IsEvent(fs, b)
    requires Taken(a.id, a.id, StructOf(fs, a)) == Taken(b.id, b.id, StructOf(fs, b))
    ensures a == b
  {
    hide RecordOf, WellFormedFunc;
    SameRecord(fs, a.id, a.args, b.args);
  }

  /** The generated server takes the body of an event for that event exactly when its strings are short enough. */
  lemma DispatchesIff(s: Server, fs: seq<Func>, e: Event)
    requires WellFormed(fs) && IsEvent(fs, e) && Generated(s, fs) && Resolved(s)
    ensures DispatchOf(s, Body(e)) == Taken(e.id, e.id, StructOf(fs, e)) <==> AllShort(e.args)
  {
    hide DispatchOf, MeaningOf, StructOf, WellFormedFunc, Generated, Resolved, AllShort, Body;
    DispatchMeaning(s, fs, Body(e));
    EventRoundTripIff(fs, e);
    if MeaningOf(fs, Body(e)).Known? && DispatchOf(s, Body(e)) == Taken(e.id, e.id, StructOf(fs, e)) {
      SameStruct(fs, MeaningOf(fs, Body(e)).event, e);
    }
  }

  /** A body cut off anywhere is not taken for the event it was cut from. */
  lemma DispatchesWholeIff(s: Server, fs: seq<Func>, e: Event, n: nat)
    requires WellFormed(fs) && IsEvent(fs, e) && Generated(s, fs) && Resolved(s) && n <= |Body(e)|
    ensures DispatchOf(s, Body(e)[..n]) == Taken(e.id, e.id, StructOf(fs, e)) <==> AllShort(e.args) && n == |Body(e)|
  {
    hide DispatchOf, MeaningOf, StructOf, WellFormedFunc, Generated, Resolved, AllShort, Body, DecodeFields;
    var packet := Body(e)[..n];
    assert Body(e)[..|Body(e)|] == Body(e);
    DispatchesIff(s, fs, e);
    if DispatchOf(s, packet) == Taken(e.id, e.id, StructOf(fs, e)) {
      DispatchMeaning(s, fs, packet);
      SameStruct(fs, MeaningOf(fs, packet).event, e);
      MeaningCanonical(fs, packet);
    }
  }

  /** The client and the two servers generated from one header. */
  method Compile(funcs: seq<Func>)
    returns (client: CppCodeGen, clickHouse: Server, mongo: Server, migrations: seq<Migration>)
    requires WellFormed(ValidFuncs(funcs))
    ensures var fs := ValidFuncs(funcs);
            && fresh(client) && client.funcs == funcs && client.enumNames == CppEnum(fs) && client.apis == ApisOf(fs)
            && Generated(clickHouse, fs) && clickHouse.cases == FlushCasesOf(fs)
            && Generated(mongo, fs)
            && migrations == MigrationsOf(fs)
  {
    hide WellFormedFunc;
    client := new CppCodeGen(funcs);
    client.GenerateCode();
    var server := new GoCodeGen(funcs);
    server.GenerateCode();
    var cases := server.GetStorageDefinitionsCode();
    clickHouse := Server(server.constants, server.decoders, server.clickHouseCases);
    mongo := Server(server.constants, server.decoders, cases);
    migrations := server.migrations;
  }

  /** The body in the buffer of a client function. */
  lemma PacketOf(e: Event, size: nat)
    requires e.id < TWO_32 && 4 <= size <= |HEADER + Body(e)|
    ensures (HEADER + Body(e))[..size][4..] == Body(e)[..size - 4]
  {
    hide Body;
  }

  /** Compiler correctness, run from end to end: generate both halves from one header, encode an event with the generated
      client function, and dispatch and decode the frame's body with the generated servers. Both return the event's struct
      exactly when its strings are shorter than 65536 bytes and its frame fits an `int`. Nothing comes out when the client
      function has no buffer. */
  method EncodeAndDecode(funcs: seq<Func>, e: Event)
    returns (viaClickHouse: Option<Dispatched>, viaMongo: Option<Dispatched>)
    requires WellFormed(ValidFuncs(funcs)) && IsEvent(ValidFuncs(funcs), e)
    ensures var expected := Some(Taken(e.id, e.id, StructOf(ValidFuncs(funcs), e)));
            && (viaClickHouse == expected <==> AllShort(e.args) && Fits(e))
            && (viaMongo == expected <==> AllShort(e.args) && Fits(e))
  {
    hide WellFormedFunc, Generated, Resolved, DispatchOf, AllShort, Body, StructOf, AsInt;
    ghost var fs, whole := ValidFuncs(funcs), HEADER + Body(e);
    var client, clickHouse, mongo, _ := Compile(funcs);
    var buffer := LogCall(client, e);
    if buffer == null {
      return None, None;
    }
    ghost var size := AsInt(|whole|);
    var packet := buffer.data[4..];
    PacketOf(e, size);
    GeneratedResolves(clickHouse, fs);
    GeneratedResolves(mongo, fs);
    DispatchesWholeIff(clickHouse, fs, e, size - 4);
    DispatchesWholeIff(mongo, fs, e, size - 4);
    var first := Dispatch(clickHouse, packet);
    var second := Dispatch(mongo, packet);
    return Some(first), Some(second);
  }

  ghost predicate AllStorable(fs: seq<Func>, es: seq<Event>)
    requires |fs| < TWO_32
  {
    forall e :: e in es ==> IsEvent(fs, e) && AllShort(e.args) && Fits(e)
  }

  lemma BatchKnown(fs: seq<Func>, es: seq<Event>, batch: seq<Packet>, skipHeadless: bool)
    requires WellFormed(fs) && AllStorable(fs, es) && |batch| == |es|
    requires forall i :: 0 <= i < |es| ==> batch[i] == Body(es[i])
    ensures KnownEvents(fs, batch, skipHeadless) == Some(es)
  {
    hide MeaningOf, KnownEvents, Body, AllShort, WellFormedFunc, Fits;
    forall i | 0 <= i < |batch| ensures MeaningOf(fs, batch[i]) == Known(es[i]) {
      assert es[i] in es;
      EventRoundTripIff(fs, es[i]);
    }
    AllKept(fs, batch, skipHeadless);
    assert KnownEvents(fs, batch, skipHeadless).value == es;
  }

  /** Client functions called one after the other, and the bodies of their frames. */
  method LogAll(client: CppCodeGen, es: seq<Event>) returns (batch: seq<Packet>)
    requires WellFormed(ValidFuncs(client.funcs)) && AllStorable(ValidFuncs(client.funcs), es)
    requires client.enumNames == CppEnum(ValidFuncs(client.funcs)) && client.apis == ApisOf(ValidFuncs(client.funcs))
    ensures |batch| == |es| && forall i :: 0 <= i < |es| ==> es[i].id < TWO_32 && batch[i] == Body(es[i])
  {
    hide WellFormedFunc, AllShort, Body, CppEnum, ApisOf, ValidFuncs, Fits, AsInt;
    batch := [];
    for i := 0 to |es|
      invariant client.enumNames == CppEnum(ValidFuncs(client.funcs))
      invariant client.apis == ApisOf(ValidFuncs(client.funcs))
      invariant |batch| == i && forall j :: 0 <= j < i ==> es[j].id < TWO_32 && batch[j] == Body(es[j])
    {
      assert es[i] in es;
      var buffer := LogCall(client, es[i]);
      var packet := buffer.data[4..];
      assert packet == Body(es[i]);
      batch := batch + [packet];
    }
  }

  /** A new database with the generated migrations, and the rows of a batch in it. */
  method FillTables(funcs: seq<Func>, migrations: seq<Migration>, constants: seq<string>, ghost es: seq<Event>, rows: seq<Row>)
    returns (database: Database)
    requires WellFormed(ValidFuncs(funcs)) && AllEvents(ValidFuncs(funcs), es)
    requires migrations == MigrationsOf(ValidFuncs(funcs)) && constants == GoConstants(ValidFuncs(funcs))
    requires rows == RowsOf(ValidFuncs(funcs), es)
    ensures fresh(database) && database.rows == rows && Holds(database.tables, ValidFuncs(funcs), es, |ValidFuncs(funcs)|)
    ensures |database.tables| == |ValidFuncs(funcs)|
    ensures forall name :: name in database.tables ==> TableFits(database.tables[name])
  {
    hide WellFormedFunc, GoConstants, RowOf, OfType, MigrationOf, Holds, TableFits;
    ghost var fs := ValidFuncs(funcs);
    database := new Database();
    NothingHeld(fs);
    database.Migrate(fs, [], 0, migrations, constants);
    database.InsertAll(fs, [], es, rows);
    assert [] + es == es && [] + rows == rows;
    TableCount(database.tables, fs, es, |fs|);
    forall name | name in database.tables ensures TableFits(database.tables[name]) {
      RowsFit(database.tables, fs, es, name);
    }
  }

  /** Generated client functions log a list of events, generated `Flush` methods store them, and the generated views fill the
      typed tables: the documents, the raw rows and the tables are the events, in order. */
  method LogAndStore(funcs: seq<Func>, es: seq<Event>)
    returns (documents: seq<Record>, database: Database)
    requires WellFormed(ValidFuncs(funcs)) && AllStorable(ValidFuncs(funcs), es)
    ensures var fs := ValidFuncs(funcs);
            && documents == StructsOf(fs, es)
            && database.rows == RowsOf(fs, es)
            && Holds(database.tables, fs, es, |fs|) && |database.tables| == |fs|
            && forall name :: name in database.tables ==> TableFits(database.tables[name])
  {
    hide WellFormedFunc, Generated, AllShort, Fits, Body, StructOf, RowOf, KnownEvents, Appended, OfType, Holds, TableFits;
    ghost var fs := ValidFuncs(funcs);
    var client, clickHouse, mongo, migrations := Compile(funcs);
    var batch := LogAll(client, es);
    BatchKnown(fs, es, batch, false);
    BatchKnown(fs, es, batch, true);
    GeneratedConstants(clickHouse, fs);
    AppendedAllIff(RowsOf(fs, es), []);
    var mongoFailed, clickHouseFailed, rows;
    mongoFailed, documents := MongoFlush(mongo, fs, batch, true);
    clickHouseFailed, rows := ClickHouseFlush(clickHouse, fs, batch, true, [], true);
    database := FillTables(funcs, migrations, clickHouse.constants, es, rows);
  }

  lemma GeneratedConstants(s: Server, fs: seq<Func>)
    requires Usable(fs) && Generated(s, fs)
    ensures s.constants == GoConstants(fs)
  {
  }
}
