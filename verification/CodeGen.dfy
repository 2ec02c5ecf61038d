/** The two code generators of tools/code_gen.py. The text they emit is kept as small programs: the statements of a
    client function, the statements of a decoder, the cases of a `Flush` switch, and the migrations. */
module CodeGen {
  import opened Sequences
  import opened Schema

  // ---- What the C++ generator emits ------------------------------------------------------------

  datatype LengthStmt = AddEight | AddString(param: string)

  datatype EncodeCall = EncodeEnum(event: string) | EncodeParam(param: string)

  datatype ClientApi =
    ClientApi(name: string, signature: seq<Param>, lengths: seq<LengthStmt>, encodes: seq<EncodeCall>)

  /** Only strings and 64-bit numbers add to `total_length`. */
  function LengthOf(p: Param): seq<LengthStmt> {
    match p.ty
    case Text => [AddString(p.name)]
    case Uint64 => [AddEight]
    case Other(_) => []
  }

  function LengthsOf(ps: seq<Param>): seq<LengthStmt> {
    if ps == [] then [] else LengthsOf(ps[..|ps| - 1]) + LengthOf(ps[|ps| - 1])
  }

  lemma NoLengths(ps: seq<Param>)
    ensures LengthsOf(ps[..0]) == [] && LengthsOf(ps[..|ps|]) == LengthsOf(ps)
  {
    assert ps[..|ps|] == ps;
  }

  lemma LengthsNext(ps: seq<Param>, k: nat)
    requires k < |ps|
    ensures LengthsOf(ps[..k + 1]) == LengthsOf(ps[..k]) + LengthOf(ps[k])
  {
    assert ps[..k + 1][..k] == ps[..k];
  }

  function EncodesOf(ps: seq<Param>): seq<EncodeCall> {
    MapSeq((p: Param) => EncodeParam(p.name), ps)
  }

  function ApiOf(f: Func): ClientApi
    requires |f.params| >= 1
  {
    ClientApi(f.name + "_" + EventName(f), Fields(f), [AddEight] + LengthsOf(Fields(f)),
              [EncodeEnum(EventName(f))] + EncodesOf(Fields(f)))
  }

  function CppEnum(fs: seq<Func>): (r: seq<string>)
    requires forall f :: f in fs ==> |f.params| >= 1
    ensures |r| == |fs| && forall i :: 0 <= i < |fs| ==> r[i] == EventName(fs[i])
  {
    seq(|fs|, i requires 0 <= i < |fs| => EventName(fs[i]))
  }

  function ApisOf(fs: seq<Func>): (r: seq<ClientApi>)
    requires forall f :: f in fs ==> |f.params| >= 1
    ensures |r| == |fs| && forall i :: 0 <= i < |fs| ==> r[i] == ApiOf(fs[i])
  {
    seq(|fs|, i requires 0 <= i < |fs| => ApiOf(fs[i]))
  }

  lemma ApiParts(f: Func)
    requires |f.params| >= 1
    ensures ApiOf(f) == ClientApi(f.name + "_" + EventName(f), Fields(f), ApiOf(f).lengths, ApiOf(f).encodes)
  {
  }

  class CppCodeGen {
    const funcs: seq<Func>
    var enumNames: seq<string>
    var apis: seq<ClientApi>

    constructor (funcs: seq<Func>)
      ensures this.funcs == funcs
    {
      this.funcs := funcs;
      enumNames, apis := [], [];
    }

    method GenerateCode()
      requires Usable(ValidFuncs(funcs))
      modifies this
      ensures enumNames == CppEnum(ValidFuncs(funcs))
      ensures apis == ApisOf(ValidFuncs(funcs))
    {
      hide ApiOf, ValidFuncs;
      var valid := ValidFuncs(funcs);
      enumNames, apis := [], [];
      for i := 0 to |valid|
        invariant enumNames == CppEnum(valid)[..i]
        invariant apis == ApisOf(valid)[..i]
      {
        var f := valid[i];
        enumNames := enumNames + [EventName(f)];
        var nameSuffix, signature, lengths := SizeComputation(f);
        var encodes := EncodeCalls(f);
        ApiParts(f);
        apis := apis + [ClientApi(f.name + "_" + nameSuffix, signature, lengths, encodes)];
      }
    }

    /** The first parameter gives the function its suffix and never reaches the signature. */
    static method SizeComputation(f: Func)
      returns (nameSuffix: string, signature: seq<Param>, lengths: seq<LengthStmt>)
      requires |f.params| >= 1 && Named(f.params)
      ensures nameSuffix == EventName(f)
      ensures signature == Fields(f)
      ensures lengths == ApiOf(f).lengths
    {
      hide LengthsOf;
      NoLengths(Fields(f));
      nameSuffix, signature, lengths := "", [], [];
      for i := 0 to |f.params|
        invariant i == 0 ==> nameSuffix == "" && signature == [] && lengths == []
        invariant i > 0 ==> nameSuffix == EventName(f) && signature == Fields(f)[..i - 1]
        invariant i > 0 ==> lengths == [AddEight] + LengthsOf(Fields(f)[..i - 1])
      {
        var p := f.params[i];
        if nameSuffix == "" {
          nameSuffix := p.name;
          lengths := lengths + [AddEight];
        } else {
          LengthsNext(Fields(f), i - 1);
          signature := signature + [p];
          if p.ty == Text {
            lengths := lengths + [AddString(p.name)];
          } else if p.ty == Uint64 {
            lengths := lengths + [AddEight];
          }
        }
      }
    }

    static method EncodeCalls(f: Func) returns (encodes: seq<EncodeCall>)
      requires |f.params| >= 1
      ensures encodes == ApiOf(f).encodes
    {
      encodes := [];
      for i := 0 to |f.params|
        invariant encodes == ApiOf(f).encodes[..i]
      {
        if i == 0 {
          encodes := encodes + [EncodeEnum(f.params[i].name)];
        } else {
          encodes := encodes + [EncodeParam(f.params[i].name)];
        }
      }
    }
  }

  // ---- What the Go generator emits -------------------------------------------------------------

  datatype DecodeStmt = SetEvent(target: string, constant: string) | ReadText(target: string) | ReadUint64(target: string)

  datatype StructField = StructField(name: string, ty: FieldType)

  /** The Go struct of an event. */
  datatype StructCode = StructCode(name: string, fields: seq<StructField>)

  /** One `Field: variable` entry of the returned struct. */
  datatype Init = Init(field: string, variable: string)

  /** The function for an event, with the name of the struct it returns. */
  datatype DecoderCode = DecoderCode(event: string, result: string, stmts: seq<DecodeStmt>, literal: seq<Init>)

  /** One case of a `Flush` switch; `payload` lists the struct fields put into the JSON map. */
  datatype FlushCase = FlushCase(constant: string, decoder: string, payload: seq<string>)

  datatype Extract = ExtractUInt | ExtractString | ExtractBool

  datatype Column = Column(field: string, extract: Extract)

  datatype ColumnType = UInt64Column | StringColumn | BoolColumn

  datatype TableColumn = TableColumn(field: string, ty: ColumnType)

  /** A name that holds the name of the raw table, to be filled in when the server starts. */
  datatype Name = Name(before: string, after: string)

  /** A typed table, and the materialized view that fills `target` from the rows of `source` with one event number. */
  datatype Migration = Migration(
    table: Name,
    columns: seq<TableColumn>,
    view: Name,
    target: Name,
    select: seq<Column>,
    source: Name,
    constant: string)

  function DecodeStmtOf(p: Param): DecodeStmt {
    if p.ty == Text then ReadText(p.name) else ReadUint64(p.name)
  }

  function StructFieldsOf(ps: seq<Param>): (r: seq<StructField>)
    requires Named(ps)
    ensures |r| == |ps| && forall i :: 0 <= i < |ps| ==> r[i] == StructField(Capital(ps[i].name), ps[i].ty)
  {
    seq(|ps|, i requires 0 <= i < |ps| => StructField(Capital(ps[i].name), ps[i].ty))
  }

  function StructCodeOf(f: Func): StructCode
    requires |f.params| >= 1 && Named(f.params)
  {
    StructCode(Capital(EventName(f)) + "_struct", StructFieldsOf(f.params))
  }

  function StructCodesOf(fs: seq<Func>): (r: seq<StructCode>)
    requires Usable(fs)
    ensures |r| == |fs| && forall i :: 0 <= i < |fs| ==> r[i] == StructCodeOf(fs[i])
  {
    seq(|fs|, i requires 0 <= i < |fs| => StructCodeOf(fs[i]))
  }

  function InitsOf(ps: seq<Param>): (r: seq<Init>)
    requires Named(ps)
    ensures |r| == |ps| && forall i :: 0 <= i < |ps| ==> r[i] == Init(Capital(ps[i].name), ps[i].name)
  {
    seq(|ps|, i requires 0 <= i < |ps| => Init(Capital(ps[i].name), ps[i].name))
  }

  function DecoderOf(f: Func): DecoderCode
    requires |f.params| >= 1 && Named(f.params)
  {
    DecoderCode(EventName(f), Capital(EventName(f)) + "_struct",
                [SetEvent(EventName(f), Capital(EventName(f)))] + MapSeq(DecodeStmtOf, Fields(f)),
                InitsOf(f.params))
  }

  lemma StmtCount(f: Func)
    requires |f.params| >= 1 && Named(f.params)
    ensures |DecoderOf(f).stmts| == |f.params| && DecoderOf(f).result == Capital(EventName(f)) + "_struct"
    ensures DecoderOf(f) == DecoderCode(EventName(f), DecoderOf(f).result, DecoderOf(f).stmts, InitsOf(f.params))
  {
  }

  lemma StmtAt(f: Func, i: nat)
    requires |f.params| >= 1 && Named(f.params) && i < |f.params|
    ensures |DecoderOf(f).stmts| == |f.params|
    ensures DecoderOf(f).stmts[i] ==
            if i == 0 then SetEvent(f.params[0].name, Capital(f.params[0].name)) else DecodeStmtOf(f.params[i])
  {
    hide Capital, InitsOf, DecodeStmtOf;
  }

  function FlushCaseOf(f: Func): FlushCase
    requires |f.params| >= 1 && Named(f.params)
  {
    FlushCase(Capital(EventName(f)), EventName(f), FieldNames(Fields(f)))
  }

  function ColumnOf(p: Param): Column
    requires p.name != ""
  {
    Column(Capital(p.name),
           if p.ty == Uint64 then ExtractUInt
           else if p.ty == Text then ExtractString
           else if p.ty == Other("bool") then ExtractBool
           else ExtractString)
  }

  function ColumnsOf(ps: seq<Param>): (r: seq<Column>)
    requires Named(ps)
    ensures |r| == |ps| && forall i :: 0 <= i < |ps| ==> r[i] == ColumnOf(ps[i])
  {
    seq(|ps|, i requires 0 <= i < |ps| => ColumnOf(ps[i]))
  }

  function TableColumnOf(p: Param): TableColumn
    requires p.name != ""
  {
    TableColumn(Capital(p.name),
                if p.ty == Uint64 then UInt64Column
                else if p.ty == Text then StringColumn
                else if p.ty == Other("bool") then BoolColumn
                else StringColumn)
  }

  function TableColumnsOf(ps: seq<Param>): (r: seq<TableColumn>)
    requires Named(ps)
    ensures |r| == |ps| && forall i :: 0 <= i < |ps| ==> r[i] == TableColumnOf(ps[i])
  {
    seq(|ps|, i requires 0 <= i < |ps| => TableColumnOf(ps[i]))
  }

  function MigrationOf(f: Func): Migration
    requires |f.params| >= 1 && Named(f.params)
  {
    var suffix := "_" + EventName(f);
    Migration(Name("", suffix), TableColumnsOf(Fields(f)), Name("mv_", suffix), Name("", suffix), ColumnsOf(Fields(f)),
              Name("", ""), Capital(EventName(f)))
  }

  function DecodersOf(fs: seq<Func>): (r: seq<DecoderCode>)
    requires Usable(fs)
    ensures |r| == |fs| && forall i :: 0 <= i < |fs| ==> r[i] == DecoderOf(fs[i])
  {
    seq(|fs|, i requires 0 <= i < |fs| => DecoderOf(fs[i]))
  }

  function FlushCasesOf(fs: seq<Func>): (r: seq<FlushCase>)
    requires Usable(fs)
    ensures |r| == |fs| && forall i :: 0 <= i < |fs| ==> r[i] == FlushCaseOf(fs[i])
  {
    seq(|fs|, i requires 0 <= i < |fs| => FlushCaseOf(fs[i]))
  }

  /** The Mongo switch stores the decoded struct itself and lists no payload. */
  function MongoCasesOf(fs: seq<Func>): (r: seq<FlushCase>)
    requires Usable(fs)
    ensures |r| == |fs| && forall i :: 0 <= i < |fs| ==> r[i] == FlushCaseOf(fs[i]).(payload := [])
  {
    seq(|fs|, i requires 0 <= i < |fs| => FlushCaseOf(fs[i]).(payload := []))
  }

  function MigrationsOf(fs: seq<Func>): (r: seq<Migration>)
    requires Usable(fs)
    ensures |r| == |fs| && forall i :: 0 <= i < |fs| ==> r[i] == MigrationOf(fs[i])
  {
    seq(|fs|, i requires 0 <= i < |fs| => MigrationOf(fs[i]))
  }

  class GoCodeGen {
    const funcs: seq<Func>
    var constants: seq<string>
    var structures: seq<StructCode>
    var decoders: seq<DecoderCode>
    var clickHouseCases: seq<FlushCase>
    var migrations: seq<Migration>

    constructor (funcs: seq<Func>)
      ensures this.funcs == funcs
    {
      this.funcs := funcs;
      constants, structures, decoders, clickHouseCases, migrations := [], [], [], [], [];
    }

    method GenerateCode()
      requires Usable(ValidFuncs(funcs))
      modifies this
      ensures constants == GoConstants(ValidFuncs(funcs))
      ensures structures == StructCodesOf(ValidFuncs(funcs))
      ensures decoders == DecodersOf(ValidFuncs(funcs))
      ensures clickHouseCases == FlushCasesOf(ValidFuncs(funcs))
      ensures migrations == MigrationsOf(ValidFuncs(funcs))
    {
      var valid := ValidFuncs(funcs);
      constants := EnumConstants(valid);
      structures := Structures(valid);
      decoders := Decoders(valid);
      clickHouseCases := ClickHouseCases(valid);
      migrations := Migrations(valid);
    }

    static method EnumConstants(valid: seq<Func>) returns (constants: seq<string>)
      requires Usable(valid)
      ensures constants == GoConstants(valid)
    {
      constants := [];
      for i := 0 to |valid|
        invariant constants == GoConstants(valid)[..i]
      {
        constants := constants + [Capital(EventName(valid[i]))];
      }
      constants := constants + ["EventMax"];
    }

    static method Structures(valid: seq<Func>) returns (structures: seq<StructCode>)
      requires Usable(valid)
      ensures structures == StructCodesOf(valid)
    {
      structures := [];
      for i := 0 to |valid|
        invariant structures == StructCodesOf(valid)[..i]
      {
        var fields := StructFields(valid[i]);
        structures := structures + [StructCode(Capital(EventName(valid[i])) + "_struct", fields)];
      }
    }

    static method StructFields(f: Func) returns (fields: seq<StructField>)
      requires |f.params| >= 1 && Named(f.params)
      ensures fields == StructCodeOf(f).fields
    {
      fields := [];
      for i := 0 to |f.params|
        invariant fields == StructFieldsOf(f.params)[..i]
      {
        fields := fields + [StructField(Capital(f.params[i].name), f.params[i].ty)];
      }
    }

    static method Decoders(valid: seq<Func>) returns (decoders: seq<DecoderCode>)
      requires Usable(valid)
      ensures decoders == DecodersOf(valid)
    {
      decoders := [];
      for i := 0 to |valid|
        invariant decoders == DecodersOf(valid)[..i]
      {
        var decoder := Decoder(valid[i]);
        decoders := decoders + [decoder];
      }
    }

    static method ClickHouseCases(valid: seq<Func>) returns (cases: seq<FlushCase>)
      requires Usable(valid)
      ensures cases == FlushCasesOf(valid)
    {
      cases := [];
      for i := 0 to |valid|
        invariant cases == FlushCasesOf(valid)[..i]
      {
        var payload := PayloadFields(valid[i]);
        cases := cases + [FlushCase(Capital(EventName(valid[i])), EventName(valid[i]), payload)];
      }
    }

    static method Migrations(valid: seq<Func>) returns (migrations: seq<Migration>)
      requires Usable(valid)
      ensures migrations == MigrationsOf(valid)
    {
      migrations := [];
      for i := 0 to |valid|
        invariant migrations == MigrationsOf(valid)[..i]
      {
        var columns, select := MigrationColumns(valid[i]);
        var suffix := "_" + EventName(valid[i]);
        migrations := migrations + [Migration(Name("", suffix), columns, Name("mv_", suffix), Name("", suffix), select,
                                              Name("", ""), Capital(EventName(valid[i])))];
      }
    }

    static method Decoder(f: Func) returns (code: DecoderCode)
      requires |f.params| >= 1 && Named(f.params)
      ensures code == DecoderOf(f)
    {
      hide MapSeq, Capital, DecoderOf;
      StmtCount(f);
      var stmts: seq<DecodeStmt> := [];
      for i := 0 to |f.params|
        invariant stmts == DecoderOf(f).stmts[..i]
      {
        StmtAt(f, i);
        var p := f.params[i];
        if i == 0 {
          stmts := stmts + [SetEvent(p.name, Capital(p.name))];
        } else if p.ty == Text {
          stmts := stmts + [ReadText(p.name)];
        } else {
          stmts := stmts + [ReadUint64(p.name)];
        }
      }
      var literal: seq<Init> := [];
      for i := 0 to |f.params|
        invariant literal == InitsOf(f.params)[..i]
      {
        literal := literal + [Init(Capital(f.params[i].name), f.params[i].name)];
      }
      code := DecoderCode(EventName(f), Capital(EventName(f)) + "_struct", stmts, literal);
    }

    static method PayloadFields(f: Func) returns (payload: seq<string>)
      requires |f.params| >= 1 && Named(f.params)
      ensures payload == FlushCaseOf(f).payload
    {
      payload := [];
      for i := 1 to |f.params|
        invariant payload == FieldNames(Fields(f))[..i - 1]
      {
        payload := payload + [Capital(f.params[i].name)];
      }
    }

    static method MigrationColumns(f: Func) returns (columns: seq<TableColumn>, select: seq<Column>)
      requires |f.params| >= 1 && Named(f.params)
      ensures columns == MigrationOf(f).columns && select == MigrationOf(f).select
    {
      columns, select := [], [];
      for i := 1 to |f.params|
        invariant columns == TableColumnsOf(Fields(f))[..i - 1] && select == ColumnsOf(Fields(f))[..i - 1]
      {
        var p := f.params[i];
        var ty, extract;
        if p.ty == Uint64 {
          ty, extract := UInt64Column, ExtractUInt;
        } else if p.ty == Text {
          ty, extract := StringColumn, ExtractString;
        } else if p.ty == Other("bool") {
          ty, extract := BoolColumn, ExtractBool;
        } else {
          ty, extract := StringColumn, ExtractString;
        }
        select := select + [Column(Capital(p.name), extract)];
        columns := columns + [TableColumn(Capital(p.name), ty)];
      }
    }

    /** The Mongo `Flush` is generated on demand, from the schema alone. */
    method GetStorageDefinitionsCode() returns (cases: seq<FlushCase>)
      requires Usable(ValidFuncs(funcs))
      ensures cases == MongoCasesOf(ValidFuncs(funcs))
    {
      var valid := ValidFuncs(funcs);
      cases := [];
      for i := 0 to |valid|
        invariant cases == MongoCasesOf(valid)[..i]
      {
        cases := cases + [FlushCase(Capital(EventName(valid[i])), EventName(valid[i]), [])];
      }
    }
  }
}
