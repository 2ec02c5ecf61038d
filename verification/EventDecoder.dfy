/** Running a generated Go decoder: variables are assigned one after the other at a running offset, then the struct is
    built from them. */
module EventDecoder {
  import opened Bytes
  import opened Sequences
  import opened Schema
  import opened CodeGen
  import opened WireCodec

  /** A decoded struct, by field name. */
  type Record = map<string, Value>

  datatype Outcome<T> = Success(value: T) | Failure(error: DecodeError)

  type Variables = map<string, Value>

  datatype Progress = Running(variables: Variables, decoded: nat) | Returned(error: DecodeError)

  /** What the Go compiler checks: constants resolve, and the struct literal only mentions declared variables. */
  ghost predicate Compiles(code: DecoderCode, constants: seq<string>) {
    && |constants| <= TWO_32
    && (forall s :: s in code.stmts && s.SetEvent? ==> s.constant in constants)
    && (forall i :: 0 <= i < |code.literal| ==>
          exists m :: 0 <= m < |code.stmts| && code.stmts[m].target == code.literal[i].variable)
  }

  /** One statement, with its `if err != nil { return }`. */
  function Step(stmt: DecodeStmt, constants: seq<string>, packet: seq<Byte>, variables: Variables, decoded: nat): (r: Progress)
    requires |constants| <= TWO_32 && (stmt.SetEvent? ==> stmt.constant in constants) && decoded <= |packet|
    ensures r.Running? ==> decoded <= r.decoded <= |packet| && r.variables.Keys == variables.Keys + {stmt.target}
  {
    match stmt
    case SetEvent(target, constant) => Running(variables[target := Num(IndexOf(constants, constant))], decoded)
    case ReadText(target) =>
      (match DecodeString(packet[decoded..])
       case Err(e) => Returned(e)
       case Ok(s, n) => Running(variables[target := Str(s)], decoded + n))
    case ReadUint64(target) =>
      (match DecodeUint64(packet[decoded..])
       case Err(e) => Returned(e)
       case Ok(v, n) => Running(variables[target := Num(v)], decoded + n))
  }

  /** The statements from the `i`-th one on. */
  function Resume(stmts: seq<DecodeStmt>, i: nat, constants: seq<string>, packet: seq<Byte>, p: Progress): (r: Progress)
    requires |constants| <= TWO_32 && (forall s :: s in stmts && s.SetEvent? ==> s.constant in constants)
    requires i <= |stmts| && (p.Running? ==> p.decoded <= |packet|)
    ensures r.Running? ==> p.Running? && r.decoded <= |packet|
    ensures r.Running? ==> p.variables.Keys <= r.variables.Keys
    ensures r.Running? ==> forall m :: i <= m < |stmts| ==> stmts[m].target in r.variables
    decreases |stmts| - i
  {
    if i == |stmts| || p.Returned? then p
    else Resume(stmts, i + 1, constants, packet, Step(stmts[i], constants, packet, p.variables, p.decoded))
  }

  ghost predicate Declared(literal: seq<Init>, variables: Variables) {
    forall i :: 0 <= i < |literal| ==> literal[i].variable in variables
  }

  function Literal(literal: seq<Init>, variables: Variables): Record
    requires Declared(literal, variables)
  {
    Bind(seq(|literal|, i requires 0 <= i < |literal| => literal[i].field),
         seq(|literal|, i requires 0 <= i < |literal| => variables[literal[i].variable]))
  }

  function Decode(code: DecoderCode, constants: seq<string>, packet: seq<Byte>): Outcome<Record>
    requires Compiles(code, constants)
  {
    match Resume(code.stmts, 0, constants, packet, Running(map[], 0))
    case Returned(e) => Failure(e)
    case Running(variables, _) =>
      Success(Literal(code.literal, variables))
  }

  lemma ResumeNext(stmts: seq<DecodeStmt>, j: nat, constants: seq<string>, packet: seq<Byte>,
                   variables: Variables, decoded: nat)
    requires |constants| <= TWO_32 && (forall s :: s in stmts && s.SetEvent? ==> s.constant in constants)
    requires j < |stmts| && decoded <= |packet|
    ensures var next := Step(stmts[j], constants, packet, variables, decoded);
            Resume(stmts, j, constants, packet, Running(variables, decoded)) ==
            if next.Returned? then next else Resume(stmts, j + 1, constants, packet, next)
  {
  }

  lemma ResumeEnd(stmts: seq<DecodeStmt>, constants: seq<string>, packet: seq<Byte>, p: Progress)
    requires |constants| <= TWO_32 && (forall s :: s in stmts && s.SetEvent? ==> s.constant in constants)
    requires p.Running? ==> p.decoded <= |packet|
    ensures Resume(stmts, |stmts|, constants, packet, p) == p
  {
  }

  /** The generated function as the straight-line code it is. */
  method RunDecoder(code: DecoderCode, constants: seq<string>, packet: seq<Byte>) returns (r: Outcome<Record>)
    requires Compiles(code, constants)
    ensures r == Decode(code, constants, packet)
  {
    hide Literal, DecodeString, DecodeUint64, Resume, IndexOf, HoldsString;
    var variables: Variables := map[];
    var decoded: nat := 0;
    ghost var end := Resume(code.stmts, 0, constants, packet, Running(map[], 0));
    for i := 0 to |code.stmts|
      invariant decoded <= |packet|
      invariant end == Resume(code.stmts, i, constants, packet, Running(variables, decoded))
    {
      ResumeNext(code.stmts, i, constants, packet, variables, decoded);
      match code.stmts[i] {
        case SetEvent(target, constant) =>
          variables := variables[target := Num(IndexOf(constants, constant))];
        case ReadText(target) =>
          var s := DecodeString(packet[decoded..]);
          if s.Err? {
            return Failure(s.error);
          }
          variables := variables[target := Str(s.value)];
          decoded := decoded + s.consumed;
        case ReadUint64(target) =>
          var v := DecodeUint64(packet[decoded..]);
          if v.Err? {
            return Failure(v.error);
          }
          variables := variables[target := Num(v.value)];
          decoded := decoded + v.consumed;
      }
    }
    ResumeEnd(code.stmts, constants, packet, Running(variables, decoded));
    r := Success(Literal(code.literal, variables));
  }

  // ---- What a generated decoder means ------------------------------------------------------------

  /** The struct of event number `id` with payload `vs`. */
  function RecordOf(f: Func, id: Word64, vs: seq<Value>): Record
    requires |f.params| >= 1 && Named(f.params) && |vs| == |Fields(f)|
  {
    Bind(FieldNames(f.params), [Num(id)] + vs)
  }

  lemma GeneratedCompiles(fs: seq<Func>, id: nat)
    requires WellFormed(fs) && id < |fs|
    ensures Compiles(DecoderOf(fs[id]), GoConstants(fs))
  {
    var f := fs[id];
    var code := DecoderOf(f);
    assert GoConstants(fs)[id] == Capital(EventName(f));
    forall i | 0 <= i < |f.params| ensures code.stmts[i].target == code.literal[i].variable {
      if i > 0 {
        assert code.stmts[i] == DecodeStmtOf(f.params[i]);
      }
    }
  }

  lemma FieldKind(f: Func, id: Word64, vs: seq<Value>, i: nat)
    requires |f.params| >= 1 && Named(f.params) && f.params[0].ty == Uint64 && Distinct(FieldNames(f.params))
    requires Matches(Types(Fields(f)), vs) && i < |f.params|
    ensures var name, record := Capital(f.params[i].name), RecordOf(f, id, vs);
            name in record && (record[name].Str? <==> f.params[i].ty.Text?)
  {
    hide Bind, Capital;
    BindAt(FieldNames(f.params), [Num(id)] + vs, i);
    if i > 0 {
      assert Types(Fields(f))[i - 1] == f.params[i].ty;
    }
  }

  lemma NoOtherField(f: Func, id: Word64, vs: seq<Value>, name: string)
    requires |f.params| >= 1 && Named(f.params) && |vs| == |Fields(f)| && name in RecordOf(f, id, vs)
    ensures exists i :: 0 <= i < |f.params| && Capital(f.params[i].name) == name
  {
    hide Bind, Capital;
    var i :| 0 <= i < |f.params| && FieldNames(f.params)[i] == name;
  }

  /** The struct type a decoder names is that of its own event and of no other. */
  lemma OwnStruct(fs: seq<Func>, i: nat, j: nat)
    requires WellFormed(fs) && i < |fs| && j < |fs|
    ensures DecodersOf(fs)[i].result == StructCodesOf(fs)[j].name <==> i == j
  {
    hide WellFormedFunc, Capital;
    var a, b := Capital(EventName(fs[i])), Capital(EventName(fs[j]));
    if a + "_struct" == b + "_struct" {
      assert a == (a + "_struct")[..|a|] && b == (b + "_struct")[..|b|];
      assert GoConstants(fs)[i] == GoConstants(fs)[j];
    }
  }

  /** The struct a decoder returns has the declared fields and no others, each of its declared kind; and the struct literal
      names them in declaration order. */
  lemma RecordFitsStruct(f: Func, id: Word64, vs: seq<Value>)
    requires WellFormedFunc(f) && Matches(Types(Fields(f)), vs)
    ensures var fields, record := StructCodeOf(f).fields, RecordOf(f, id, vs);
            && |DecoderOf(f).literal| == |fields|
            && (forall i :: 0 <= i < |fields| ==> DecoderOf(f).literal[i].field == fields[i].name)
            && (forall i :: 0 <= i < |fields| ==>
                  fields[i].name in record && (record[fields[i].name].Str? <==> fields[i].ty.Text?))
            && forall name :: name in record ==> exists i :: 0 <= i < |fields| && fields[i].name == name
  {
    hide RecordOf, Capital, DecodeStmtOf, MapSeq;
    var fields, record := StructCodeOf(f).fields, RecordOf(f, id, vs);
    forall i | 0 <= i < |fields|
      ensures fields[i].name in record && (record[fields[i].name].Str? <==> fields[i].ty.Text?)
    {
      FieldKind(f, id, vs, i);
    }
    forall name | name in record ensures exists i :: 0 <= i < |fields| && fields[i].name == name {
      NoOtherField(f, id, vs, name);
      var i :| 0 <= i < |f.params| && Capital(f.params[i].name) == name;
      assert fields[i].name == name;
    }
  }

  /** From `before` to `after`, the parameters from the `j`-th one on received `vs` and no other variable changed. */
  ghost predicate Assigned(ps: seq<Param>, j: nat, vs: seq<Value>, before: Variables, after: Variables) {
    && j <= |ps| && |vs| == |ps| - j
    && (forall m :: j <= m < |ps| ==> ps[m].name in after && after[ps[m].name] == vs[m - j])
    && (forall x :: x in before && (forall m :: j <= m < |ps| ==> ps[m].name != x) ==> x in after && after[x] == before[x])
  }

  lemma AssignedNext(ps: seq<Param>, j: nat, v: Value, vs: seq<Value>, before: Variables, after: Variables)
    requires Distinct(Names(ps)) && j < |ps| && Assigned(ps, j + 1, vs, before[ps[j].name := v], after)
    ensures Assigned(ps, j, [v] + vs, before, after)
  {
    var between := before[ps[j].name := v];
    forall m | j < m < |ps| ensures ps[m].name != ps[j].name {
      assert Names(ps)[m] != Names(ps)[j];
    }
    assert ps[j].name in between && after[ps[j].name] == v;
  }

  lemma StepReads(p: Param, constants: seq<string>, packet: seq<Byte>, variables: Variables, decoded: nat)
    requires |constants| <= TWO_32 && decoded <= |packet| && !p.ty.Other?
    ensures Step(DecodeStmtOf(p), constants, packet, variables, decoded) ==
            var field := DecodeField(p.ty, packet[decoded..]);
            if field.Err? then Returned(field.error)
            else Running(variables[p.name := field.value], decoded + field.consumed)
  {
  }

  lemma FieldsNext(tys: seq<FieldType>, j: nat, packet: seq<Byte>, decoded: nat)
    requires j < |tys| && decoded <= |packet|
    ensures var field := DecodeField(tys[j], packet[decoded..]);
            DecodeFields(tys[j..], packet[decoded..]) ==
            if field.Err? then Err(field.error)
            else
              var rest := DecodeFields(tys[j + 1..], packet[decoded + field.consumed..]);
              if rest.Err? then Err(rest.error) else Ok([field.value] + rest.value, field.consumed + rest.consumed)
  {
    hide DecodeField;
    assert tys[j..][0] == tys[j] && tys[j..][1..] == tys[j + 1..];
    var field := DecodeField(tys[j], packet[decoded..]);
    if field.Ok? {
      assert packet[decoded..][field.consumed..] == packet[decoded + field.consumed..];
    }
  }

  /** The payload statements of a decoder read its parameters in order. */
  ghost predicate ReadsParams(stmts: seq<DecodeStmt>, ps: seq<Param>) {
    && |stmts| == |ps|
    && (forall j :: 1 <= j < |ps| ==> stmts[j] == DecodeStmtOf(ps[j]) && !ps[j].ty.Other?)
    && Distinct(Names(ps))
  }

  ghost predicate Agree(ps: seq<Param>, j: nat, fields: Decoded<seq<Value>>, before: Variables, end: Progress) {
    if fields.Err? then end == Returned(fields.error)
    else end.Running? && Assigned(ps, j, fields.value, before, end.variables)
  }

  /** The named variables of a decoder hold what the nameless decoder returns, from the `j`-th parameter on. */
  lemma {:induction false} VariablesHoldFields(stmts: seq<DecodeStmt>, ps: seq<Param>, j: nat, constants: seq<string>,
                                               packet: seq<Byte>, variables: Variables, decoded: nat)
    requires ReadsParams(stmts, ps) && 1 <= j <= |ps| && decoded <= |packet|
    requires |constants| <= TWO_32 && forall s :: s in stmts && s.SetEvent? ==> s.constant in constants
    ensures Agree(ps, j, DecodeFields(Types(ps)[j..], packet[decoded..]), variables,
                  Resume(stmts, j, constants, packet, Running(variables, decoded)))
    decreases |ps| - j
  {
    hide Step, DecodeField, DecodeFields, Assigned, Resume;
    if j == |ps| {
      NothingLeft(stmts, ps, constants, packet, variables, decoded);
    } else {
      ResumeNext(stmts, j, constants, packet, variables, decoded);
      StepReads(ps[j], constants, packet, variables, decoded);
      FieldsNext(Types(ps), j, packet, decoded);
      var first := DecodeField(ps[j].ty, packet[decoded..]);
      if first.Ok? {
        var between, offset := variables[ps[j].name := first.value], decoded + first.consumed;
        VariablesHoldFields(stmts, ps, j + 1, constants, packet, between, offset);
        var rest := DecodeFields(Types(ps)[j + 1..], packet[offset..]);
        if rest.Ok? {
          var end := Resume(stmts, j + 1, constants, packet, Running(between, offset));
          AssignedNext(ps, j, first.value, rest.value, variables, end.variables);
        }
      }
    }
  }

  lemma NothingLeft(stmts: seq<DecodeStmt>, ps: seq<Param>, constants: seq<string>, packet: seq<Byte>,
                    variables: Variables, decoded: nat)
    requires |stmts| == |ps| && decoded <= |packet|
    requires |constants| <= TWO_32 && forall s :: s in stmts && s.SetEvent? ==> s.constant in constants
    ensures Agree(ps, |ps|, DecodeFields(Types(ps)[|ps|..], packet[decoded..]), variables,
                  Resume(stmts, |ps|, constants, packet, Running(variables, decoded)))
  {
    assert Types(ps)[|ps|..] == [];
  }

  lemma GeneratedReadsParams(f: Func)
    requires WellFormedFunc(f)
    ensures ReadsParams(DecoderOf(f).stmts, f.params)
  {
    DistinctParamNames(f.params);
    StmtCount(f);
    hide DecoderOf, DecodeStmtOf, Distinct, Names, Capital;
    forall j | 1 <= j < |f.params| ensures DecoderOf(f).stmts[j] == DecodeStmtOf(f.params[j]) && !f.params[j].ty.Other? {
      StmtAt(f, j);
      assert f.params[j] in f.params;
    }
  }

  /** A generated decoder rejects a payload exactly as the nameless decoder does, and otherwise returns the struct that
      holds the event's own number and the decoded fields. */
  lemma DecoderMeaning(fs: seq<Func>, id: nat, packet: seq<Byte>)
    requires WellFormed(fs) && id < |fs|
    ensures Compiles(DecoderOf(fs[id]), GoConstants(fs))
    ensures var fields := DecodeFields(Types(Fields(fs[id])), packet);
            && (fields.Ok? ==> |fields.value| == |Fields(fs[id])|)
            && Decode(DecoderOf(fs[id]), GoConstants(fs), packet) ==
               if fields.Ok? then Success(RecordOf(fs[id], id, fields.value)) else Failure(fields.error)
  {
    hide Step, Resume, DecodeField, DecodeFields, RecordOf, Literal, EncodeValue;
    EndOfDecoder(fs, id, packet);
    var f := fs[id];
    var end := Resume(DecoderOf(f).stmts, 0, GoConstants(fs), packet, Running(map[], 0));
    var fields := DecodeFields(Types(Fields(f)), packet);
    if fields.Ok? {
      LiteralHoldsFields(f, id, fields.value, end.variables);
    }
  }

  /** Where the statements of a decoder end: all the parameters are set, the event variable first. */
  lemma EndOfDecoder(fs: seq<Func>, id: nat, packet: seq<Byte>)
    requires WellFormed(fs) && id < |fs|
    ensures Compiles(DecoderOf(fs[id]), GoConstants(fs))
    ensures var fields := DecodeFields(Types(Fields(fs[id])), packet);
            var end := Resume(DecoderOf(fs[id]).stmts, 0, GoConstants(fs), packet, Running(map[], 0));
            if fields.Err? then end == Returned(fields.error)
            else end.Running? && Assigned(fs[id].params, 0, [Num(id)] + fields.value, map[], end.variables)
  {
    hide Step, Resume, DecodeField, DecodeFields, EncodeValue, DecoderOf, Assigned;
    GeneratedCompiles(fs, id);
    GeneratedReadsParams(fs[id]);
    FirstStatement(fs, id, packet);
    var f := fs[id];
    VariablesHoldFields(DecoderOf(f).stmts, f.params, 1, GoConstants(fs), packet, map[EventName(f) := Num(id)], 0);
    TypesOfFields(f, packet);
    var end := Resume(DecoderOf(f).stmts, 0, GoConstants(fs), packet, Running(map[], 0));
    var fields := DecodeFields(Types(Fields(f)), packet);
    if fields.Ok? {
      AssignedNext(f.params, 0, Num(id), fields.value, map[], end.variables);
    }
  }

  lemma TypesOfFields(f: Func, packet: seq<Byte>)
    requires |f.params| >= 1
    ensures Types(f.params)[1..] == Types(Fields(f)) && packet[0..] == packet
  {
  }

  /** The first statement sets the event variable to the event's own constant, whatever the packet says. */
  lemma FirstStatement(fs: seq<Func>, id: nat, packet: seq<Byte>)
    requires WellFormed(fs) && id < |fs| && Compiles(DecoderOf(fs[id]), GoConstants(fs))
    ensures Resume(DecoderOf(fs[id]).stmts, 0, GoConstants(fs), packet, Running(map[], 0))
         == Resume(DecoderOf(fs[id]).stmts, 1, GoConstants(fs), packet, Running(map[EventName(fs[id]) := Num(id)], 0))
  {
    var name := EventName(fs[id]);
    assert GoConstants(fs)[id] == Capital(name);
    IndexOfDistinct(GoConstants(fs), id);
    assert Step(SetEvent(name, Capital(name)), GoConstants(fs), packet, map[], 0) == Running(map[name := Num(id)], 0);
  }

  lemma LiteralHoldsFields(f: Func, id: Word64, vs: seq<Value>, variables: Variables)
    requires WellFormedFunc(f) && |vs| == |Fields(f)|
    requires forall m :: 0 <= m < |f.params| ==>
               f.params[m].name in variables && variables[f.params[m].name] == ([Num(id)] + vs)[m]
    ensures Declared(InitsOf(f.params), variables)
    ensures Literal(InitsOf(f.params), variables) == RecordOf(f, id, vs)
  {
    var literal := InitsOf(f.params);
    assert seq(|literal|, i requires 0 <= i < |literal| => literal[i].field) == FieldNames(f.params);
    assert seq(|literal|, i requires 0 <= i < |literal| => variables[literal[i].variable]) == [Num(id)] + vs;
  }
}
