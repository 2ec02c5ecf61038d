/** Running a generated client function: size the buffer, leave four bytes for the header, encode every argument. */
module ClientRuntime {
  import opened Bytes
  import opened Sequences
  import opened Schema
  import opened CodeGen
  import opened WireCodec
  import opened PosixBuffers

  const HEADER: seq<Byte> := [0, 0, 0, 0]

  /** The arguments of a client function, by parameter name. */
  type Arguments = map<string, Value>

  /** What the C++ compiler checks: names resolve, and only strings have a size. */
  ghost predicate Runnable(api: ClientApi, enumNames: seq<string>, args: Arguments) {
    && |enumNames| < TWO_32
    && SizesResolve(api.lengths, args)
    && (forall c :: c in api.encodes ==> Resolves(c, enumNames, args))
  }

  ghost predicate SizesResolve(lengths: seq<LengthStmt>, args: Arguments) {
    forall s :: s in lengths && s.AddString? ==> s.param in args && args[s.param].Str?
  }

  predicate Resolves(call: EncodeCall, enumNames: seq<string>, args: Arguments) {
    match call
    case EncodeEnum(event) => event in enumNames
    case EncodeParam(param) => param in args
  }

  /** An enumerator is its position in the enum. */
  function CallValue(call: EncodeCall, enumNames: seq<string>, args: Arguments): Value
    requires |enumNames| < TWO_32 && Resolves(call, enumNames, args)
  {
    match call
    case EncodeEnum(event) => Num(IndexOf(enumNames, event))
    case EncodeParam(param) => args[param]
  }

  function CallValues(calls: seq<EncodeCall>, enumNames: seq<string>, args: Arguments): (vs: seq<Value>)
    requires |enumNames| < TWO_32 && forall c :: c in calls ==> Resolves(c, enumNames, args)
    ensures |vs| == |calls|
    ensures forall i :: 0 <= i < |calls| ==> vs[i] == CallValue(calls[i], enumNames, args)
  {
    seq(|calls|, i requires 0 <= i < |calls| => CallValue(calls[i], enumNames, args))
  }

  function AddedLength(stmt: LengthStmt, args: Arguments): nat
    requires stmt.AddString? ==> stmt.param in args && args[stmt.param].Str?
  {
    match stmt
    case AddEight => 8
    case AddString(param) => |args[param].s| + 2
  }

  function TotalLength(lengths: seq<LengthStmt>, args: Arguments): nat
    requires SizesResolve(lengths, args)
  {
    if lengths == [] then 0
    else TotalLength(lengths[..|lengths| - 1], args) + AddedLength(lengths[|lengths| - 1], args)
  }

  /** Both `encode` overloads. Whatever does not fit any more is cut off. */
  method Encode(buffer: PosixBuffer, v: Value) returns (written: nat)
    requires buffer.Valid()
    modifies buffer`writeOffset, buffer.data
    ensures buffer.Valid()
    ensures written == Room(buffer.data.Length, old(buffer.writeOffset), |EncodeValue(v)|)
    ensures buffer.writeOffset == old(buffer.writeOffset) + written
    ensures buffer.data[..] == Fill(old(buffer.data[..]), old(buffer.writeOffset), EncodeValue(v))
  {
    match v {
      case Num(n) =>
        written := buffer.WriteData(U64(n));
      case Str(s) =>
        var size := U16(|s| % TWO_16);
        FillTwice(buffer.data[..], buffer.writeOffset, size, s);
        written := buffer.WriteData(size);
        var more := buffer.WriteData(s);
        written := written + more;
    }
  }

  /** A new buffer of `size` zero bytes. */
  function Blank(size: nat): seq<Byte> {
    seq(size, _ => 0)
  }

  /** A number stored in a C++ `int` of 32 bits. */
  function AsInt(n: int): (r: int)
    ensures -TWO_31 <= r < TWO_31
    ensures 0 <= n ==> r <= n
    ensures r == n <==> -TWO_31 <= n < TWO_31
    ensures (n - r) % TWO_32 == 0
  {
    if n % TWO_32 < TWO_31 then n % TWO_32 else n % TWO_32 - TWO_32
  }

  /** Storing every partial sum comes to storing the sum. */
  lemma AsIntAdds(a: int, b: int)
    ensures AsInt(AsInt(a) + b) == AsInt(a + b)
  {
    var k := (a - AsInt(a)) / TWO_32;
    assert a == AsInt(a) + k * TWO_32;
    assert (a + b) % TWO_32 == (AsInt(a) + b + k * TWO_32) % TWO_32 == (AsInt(a) + b) % TWO_32;
  }

  /** `total_length` is an `int`, and every statement stores its sum there. */
  method ComputeTotal(lengths: seq<LengthStmt>, args: Arguments) returns (totalLength: int)
    requires SizesResolve(lengths, args)
    ensures totalLength == AsInt(4 + TotalLength(lengths, args))
  {
    hide AsInt;
    totalLength := 4;
    for i := 0 to |lengths|
      invariant totalLength == AsInt(4 + TotalLength(lengths[..i], args))
    {
      AsIntAdds(4 + TotalLength(lengths[..i], args), AddedLength(lengths[i], args));
      totalLength := AsInt(totalLength + AddedLength(lengths[i], args));
      assert lengths[..i + 1][..i] == lengths[..i];
    }
    assert lengths[..|lengths|] == lengths;
  }

  method EncodeAll(buffer: PosixBuffer, calls: seq<EncodeCall>, enumNames: seq<string>, args: Arguments)
    requires buffer.Valid()
    requires |enumNames| < TWO_32 && forall c :: c in calls ==> Resolves(c, enumNames, args)
    modifies buffer`writeOffset, buffer.data
    ensures buffer.Valid()
    ensures var payload, offset := EncodeValues(CallValues(calls, enumNames, args)), old(buffer.writeOffset);
            && buffer.writeOffset == offset + Room(buffer.data.Length, offset, |payload|)
            && buffer.data[..] == Fill(old(buffer.data[..]), offset, payload)
  {
    hide EncodeValue;
    ghost var start, offset := buffer.data[..], buffer.writeOffset;
    ghost var values := CallValues(calls, enumNames, args);
    assert values[..0] == [];
    assert start == Fill(start, offset, []);
    for i := 0 to |calls|
      invariant buffer.Valid()
      invariant buffer.writeOffset == offset + Room(buffer.data.Length, offset, |EncodeValues(values[..i])|)
      invariant buffer.data[..] == Fill(start, offset, EncodeValues(values[..i]))
    {
      FillNext(start, offset, values, i);
      var v := CallValue(calls[i], enumNames, args);
      var written := Encode(buffer, v);
    }
    assert values[..|calls|] == values;
  }

  lemma FillNext(start: seq<Byte>, offset: nat, values: seq<Value>, i: nat)
    requires offset <= |start| && i < |values|
    ensures var done, next := EncodeValues(values[..i]), EncodeValues(values[..i + 1]);
            var n := Room(|start|, offset, |done|);
            && n + Room(|start|, offset + n, |EncodeValue(values[i])|) == Room(|start|, offset, |next|)
            && Fill(Fill(start, offset, done), offset + n, EncodeValue(values[i])) == Fill(start, offset, next)
  {
    assert values[..i + 1] == values[..i] + [values[i]];
    EncodeValuesSnoc(values[..i], values[i]);
    FillTwice(start, offset, EncodeValues(values[..i]), EncodeValue(values[i]));
  }

  /** The body of a generated client function, up to the call of `send`. No buffer comes of a negative size, which `calloc`
      takes for one of almost 2^64 bytes, or of a size that leaves the write offset 4 behind the end. */
  method RunApi(api: ClientApi, enumNames: seq<string>, args: Arguments) returns (buffer: PosixBuffer?)
    requires Runnable(api, enumNames, args)
    ensures buffer == null <==> AsInt(4 + TotalLength(api.lengths, args)) < 4
    ensures buffer != null ==> fresh(buffer) && fresh(buffer.data) && buffer.Valid() && buffer.readOffset == 0
    ensures buffer != null ==>
              var size := AsInt(4 + TotalLength(api.lengths, args));
              var payload := EncodeValues(CallValues(api.encodes, enumNames, args));
              && buffer.writeOffset == 4 + Room(size, 4, |payload|)
              && buffer.data[..] == Fill(Blank(size), 4, payload)
  {
    hide AsInt;
    var totalLength := ComputeTotal(api.lengths, args);
    if totalLength < 4 {
      return null;
    }
    buffer := new PosixBuffer(totalLength);
    assert buffer.data[..] == Blank(totalLength);
    buffer.SetWriteOffset(4);
    EncodeAll(buffer, api.encodes, enumNames, args);
  }

  // ---- The generated size is the encoded size ----------------------------------------------------

  function ArgumentsOf(f: Func, vs: seq<Value>): Arguments
    requires |f.params| >= 1 && |vs| == |Fields(f)|
  {
    Bind(Names(Fields(f)), vs)
  }

  /** The body of an event's frame: its number, then its fields. */
  function Body(e: Event): seq<Byte>
    requires e.id < TWO_32
  {
    EncodeValues([Num(e.id)] + e.args)
  }

  function OtherFields(ps: seq<Param>): nat {
    if ps == [] then 0 else OtherFields(ps[..|ps| - 1]) + if ps[|ps| - 1].ty.Other? then 1 else 0
  }

  lemma {:induction false} LengthsResolve(ps: seq<Param>, vs: seq<Value>, args: Arguments, k: nat)
    requires |ps| == |vs| && k <= |ps|
    requires forall i :: 0 <= i < |ps| ==> (vs[i].Str? <==> ps[i].ty.Text?)
    requires forall i :: 0 <= i < |ps| ==> ps[i].name in args && args[ps[i].name] == vs[i]
    ensures SizesResolve(LengthsOf(ps[..k]), args)
    ensures TotalLength(LengthsOf(ps[..k]), args) + 8 * OtherFields(ps[..k]) == |EncodeValues(vs[..k])|
  {
    hide EncodeValue, EncodeValues, LengthsOf, LengthOf, TotalLength, OtherFields, SizesResolve;
    if k == 0 {
      NothingToSize(ps, args);
      NothingEncoded();
      assert vs[..0] == [];
    } else {
      LengthsResolve(ps, vs, args, k - 1);
      LastLength(LengthsOf(ps[..k - 1]), ps[k - 1], vs[k - 1], args);
      LengthsNext(ps, k - 1);
      OtherNext(ps, k - 1);
      assert vs[..k] == vs[..k - 1] + [vs[k - 1]];
      EncodeValuesSnoc(vs[..k - 1], vs[k - 1]);
    }
  }

  lemma NothingToSize(ps: seq<Param>, args: Arguments)
    ensures OtherFields(ps[..0]) == 0
    ensures SizesResolve(LengthsOf(ps[..0]), args) && TotalLength(LengthsOf(ps[..0]), args) == 0
  {
  }

  lemma OtherNext(ps: seq<Param>, k: nat)
    requires k < |ps|
    ensures OtherFields(ps[..k + 1]) == OtherFields(ps[..k]) + if ps[k].ty.Other? then 1 else 0
  {
    assert ps[..k + 1][..k] == ps[..k];
  }

  lemma LastLength(front: seq<LengthStmt>, p: Param, v: Value, args: Arguments)
    requires SizesResolve(front, args) && p.name in args && args[p.name] == v && (v.Str? <==> p.ty.Text?)
    ensures SizesResolve(front + LengthOf(p), args)
    ensures TotalLength(front + LengthOf(p), args) + (if p.ty.Other? then 8 else 0)
         == TotalLength(front, args) + |EncodeValue(v)|
  {
    match p.ty
    case Text => assert (front + [AddString(p.name)])[..|front|] == front;
    case Uint64 => assert (front + [AddEight])[..|front|] == front;
    case Other(_) => assert front + [] == front;
  }

  lemma NamedArguments(f: Func, vs: seq<Value>)
    requires |f.params| >= 1 && Distinct(Names(Fields(f))) && |vs| == |Fields(f)|
    ensures var args := ArgumentsOf(f, vs);
            forall i :: 0 <= i < |vs| ==> Fields(f)[i].name in args && args[Fields(f)[i].name] == vs[i]
  {
    forall i | 0 <= i < |vs|
      ensures Fields(f)[i].name in ArgumentsOf(f, vs) && ArgumentsOf(f, vs)[Fields(f)[i].name] == vs[i]
    {
      BindAt(Names(Fields(f)), vs, i);
      assert Names(Fields(f))[i] == Fields(f)[i].name;
    }
  }

  lemma CallsResolve(fs: seq<Func>, e: Event)
    requires |fs| < TWO_32 && (forall f :: f in fs ==> |f.params| >= 1) && IsEvent(fs, e)
    requires Distinct(CppEnum(fs)) && Distinct(Names(Fields(fs[e.id])))
    ensures var calls, args := ApiOf(fs[e.id]).encodes, ArgumentsOf(fs[e.id], e.args);
            && (forall c :: c in calls ==> Resolves(c, CppEnum(fs), args))
            && CallValues(calls, CppEnum(fs), args) == [Num(e.id)] + e.args
  {
    hide EncodeValue, Bind, LengthsOf;
    var f := fs[e.id];
    var args, calls, names := ArgumentsOf(f, e.args), ApiOf(f).encodes, CppEnum(fs);
    assert names[e.id] == EventName(f);
    IndexOfDistinct(names, e.id);
    NamedArguments(f, e.args);
    assert calls[0] == EncodeEnum(EventName(f));
    forall i | 0 < i < |calls|
      ensures Resolves(calls[i], names, args) && CallValue(calls[i], names, args) == e.args[i - 1]
    {
      assert calls[i] == EncodeParam(Fields(f)[i - 1].name);
    }
  }

  lemma BodySize(e: Event)
    requires e.id < TWO_32
    ensures Body(e) == U64(e.id) + EncodeValues(e.args)
  {
    EncodeValuesAppend([Num(e.id)], e.args);
    EncodeValuesCons([Num(e.id)]);
  }

  lemma ApiResolves(fs: seq<Func>, e: Event)
    requires |fs| < TWO_32 && (forall f :: f in fs ==> |f.params| >= 1) && IsEvent(fs, e)
    requires Distinct(CppEnum(fs)) && Distinct(Names(Fields(fs[e.id])))
    ensures var args := ArgumentsOf(fs[e.id], e.args);
            && Runnable(ApiOf(fs[e.id]), CppEnum(fs), args)
            && CallValues(ApiOf(fs[e.id]).encodes, CppEnum(fs), args) == [Num(e.id)] + e.args
            && TotalLength(ApiOf(fs[e.id]).lengths, args) + 8 * OtherFields(Fields(fs[e.id])) == |Body(e)|
  {
    var f := fs[e.id];
    var args := ArgumentsOf(f, e.args);
    CallsResolve(fs, e);
    NamedArguments(f, e.args);
    var ps := Fields(f);
    forall i | 0 <= i < |ps| ensures e.args[i].Str? <==> ps[i].ty.Text? {
      assert Types(ps)[i] == ps[i].ty;
    }
    LengthsResolve(ps, e.args, args, |ps|);
    assert ps[..|ps|] == ps && e.args[..|ps|] == e.args;
    PrependEight(LengthsOf(Fields(f)), args);
    BodySize(e);
  }

  lemma {:induction false} PrependEight(lengths: seq<LengthStmt>, args: Arguments)
    requires SizesResolve(lengths, args)
    ensures TotalLength([AddEight] + lengths, args) == 8 + TotalLength(lengths, args)
  {
    var all := [AddEight] + lengths;
    if lengths == [] {
      assert all == [AddEight] && all[..0] == [];
    } else {
      PrependEight(lengths[..|lengths| - 1], args);
      assert all[..|all| - 1] == [AddEight] + lengths[..|lengths| - 1];
    }
  }

  /** The frame's size fits the `int` that holds it. */
  ghost predicate Fits(e: Event)
    requires e.id < TWO_32
  {
    |HEADER + Body(e)| < TWO_31
  }

  /** `total_length` is four bytes of header plus the encoded event exactly when every field is a string or a 64-bit number and
      the sum fits an `int`. Each field of another type leaves the buffer eight bytes short. */
  lemma ExactFitIff(fs: seq<Func>, e: Event)
    requires |fs| < TWO_32 && (forall f :: f in fs ==> |f.params| >= 1) && IsEvent(fs, e)
    requires Distinct(CppEnum(fs)) && Distinct(Names(Fields(fs[e.id])))
    ensures SizesResolve(ApiOf(fs[e.id]).lengths, ArgumentsOf(fs[e.id], e.args))
    ensures AsInt(4 + TotalLength(ApiOf(fs[e.id]).lengths, ArgumentsOf(fs[e.id], e.args))) == |HEADER + Body(e)| <==>
            (forall p :: p in Fields(fs[e.id]) ==> !p.ty.Other?) && Fits(e)
  {
    hide AsInt, ApiOf, Body, LengthsOf, TotalLength, EncodeValue, ArgumentsOf, CppEnum, SizesResolve;
    ApiResolves(fs, e);
    OtherFieldsNone(Fields(fs[e.id]));
  }

  lemma {:induction false} OtherFieldsNone(ps: seq<Param>)
    ensures OtherFields(ps) == 0 <==> forall p :: p in ps ==> !p.ty.Other?
  {
    if ps != [] {
      OtherFieldsNone(ps[..|ps| - 1]);
      assert ps == ps[..|ps| - 1] + [ps[|ps| - 1]];
    }
  }

  lemma WellFormedResolves(fs: seq<Func>, id: nat)
    requires WellFormed(fs) && id < |fs|
    ensures Distinct(CppEnum(fs)) && Distinct(Names(Fields(fs[id])))
    ensures OtherFields(Fields(fs[id])) == 0
  {
    forall i, j | 0 <= i < j < |fs| ensures CppEnum(fs)[i] != CppEnum(fs)[j] {
      if CppEnum(fs)[i] == CppEnum(fs)[j] {
        DistinctEventNames(fs, i, j);
      }
    }
    DistinctParamNames(fs[id].params);
    OtherFieldsNone(Fields(fs[id]));
  }

  lemma SameEnd(prefix: string, a: string, b: string)
    requires prefix + a == prefix + b
    ensures a == b
  {
    assert (prefix + a)[|prefix|..] == a && (prefix + b)[|prefix|..] == b;
  }

  /** The client functions made of one function name have different names, so a call names its event. */
  lemma ClientNames(fs: seq<Func>, i: nat, j: nat)
    requires WellFormed(fs) && i < |fs| && j < |fs| && fs[i].name == fs[j].name
    ensures ApiOf(fs[i]).name == ApiOf(fs[j]).name <==> i == j
  {
    hide WellFormedFunc, GoConstants;
    if ApiOf(fs[i]).name == ApiOf(fs[j]).name {
      SameEnd(fs[i].name + "_", EventName(fs[i]), EventName(fs[j]));
      DistinctEventNames(fs, i, j);
    }
  }

  /** Two function names may still give one client function name. */
  lemma ClientNamesMeet()
    ensures var f, g := Func("log", [Param("in_now", Uint64)]), Func("log_in", [Param("now", Uint64)]);
            WellFormed([f, g]) && ApiOf(f).name == ApiOf(g).name
  {
    var f, g := Func("log", [Param("in_now", Uint64)]), Func("log_in", [Param("now", Uint64)]);
    var constants := GoConstants([f, g]);
    assert constants[0][0] == 'I' && constants[1][0] == 'N' && constants[2][0] == 'E';
    assert WellFormedFunc(f) && WellFormedFunc(g);
    assert ApiOf(f).name == "log_in_now" == ApiOf(g).name;
  }

  /** A call of the client function generated for event `e`. If its frame fits an `int`, the buffer is filled to the last byte
      with the canonical encoding, behind four bytes left for the header. Otherwise the size wraps around: there is no buffer, or
      one that is too small and cuts the encoding off. */
  method LogCall(generated: CppCodeGen, e: Event) returns (buffer: PosixBuffer?)
    requires WellFormed(ValidFuncs(generated.funcs)) && IsEvent(ValidFuncs(generated.funcs), e)
    requires generated.enumNames == CppEnum(ValidFuncs(generated.funcs))
    requires generated.apis == ApisOf(ValidFuncs(generated.funcs))
    ensures buffer == null <==> AsInt(|HEADER + Body(e)|) < 4
    ensures buffer != null ==> fresh(buffer) && fresh(buffer.data) && buffer.Valid()
    ensures buffer != null ==> buffer.readOffset == 0 && buffer.writeOffset == buffer.data.Length
    ensures buffer != null ==> buffer.data[..] == (HEADER + Body(e))[..AsInt(|HEADER + Body(e)|)]
    ensures Fits(e) ==> buffer != null && buffer.data[..] == HEADER + Body(e)
  {
    hide AsInt, Body, WellFormedFunc, TotalLength, ValidFuncs, CppEnum, LengthsOf, EncodesOf;
    ghost var fs := ValidFuncs(generated.funcs);
    WellFormedResolves(fs, e.id);
    ApiResolves(fs, e);
    ArgumentsAre(fs[e.id], e.args);
    var api := generated.apis[e.id];
    buffer := RunApi(api, generated.enumNames, Bind(Names(api.signature), e.args));
    if buffer != null {
      FillBlank(Body(e), AsInt(|HEADER + Body(e)|));
      BodyValues(e);
      assert (HEADER + Body(e))[..|HEADER + Body(e)|] == HEADER + Body(e);
    }
  }

  lemma ArgumentsAre(f: Func, vs: seq<Value>)
    requires |f.params| >= 1 && |vs| == |Fields(f)|
    ensures Bind(Names(ApiOf(f).signature), vs) == ArgumentsOf(f, vs)
  {
  }

  lemma BodyValues(e: Event)
    requires e.id < TWO_32
    ensures Body(e) == EncodeValues([Num(e.id)] + e.args)
  {
  }

  lemma FillBlank(payload: seq<Byte>, size: nat)
    requires 4 <= size <= 4 + |payload|
    ensures Fill(Blank(size), 4, payload) == (HEADER + payload)[..size]
    ensures 4 + Room(size, 4, |payload|) == size
  {
  }

  // ---- Where the size is wrong -------------------------------------------------------------------

  function OneField(ty: FieldType): seq<Func> {
    [Func("f", [Param("ev", Uint64), Param("x", ty)])]
  }

  lemma OneFieldWellFormed(ty: FieldType)
    requires !ty.Other?
    ensures WellFormed(OneField(ty)) && Distinct(CppEnum(OneField(ty))) && Distinct(Names(Fields(OneField(ty)[0])))
  {
    var fs := OneField(ty);
    hide Upper;
    var names := FieldNames(fs[0].params);
    assert |names[0]| == 2 && |names[1]| == 1 && |GoConstants(fs)[0]| == 2 && |GoConstants(fs)[1]| == 8;
    assert fs[0].params[0].name != fs[0].params[1].name;
  }

  /** A schema that compiles, and a string of 2^31 bytes: the size is negative. With 2^32 bytes it wraps around to 14, and
      the whole string is cut off. */
  lemma TotalOverflows(s: seq<Byte>)
    requires |s| == TWO_31 || |s| == TWO_32
    ensures var fs, e := OneField(Text), Event(0, [Str(s)]);
            && WellFormed(fs) && IsEvent(fs, e) && !Fits(e)
            && |HEADER + Body(e)| == 14 + |s|
            && AsInt(|HEADER + Body(e)|) == if |s| == TWO_31 then 14 - TWO_31 else 14
  {
    hide EncodeValues, EncodeValue, Body, WellFormed;
    OneFieldWellFormed(Text);
    var e := Event(0, [Str(s)]);
    assert Types(Fields(OneField(Text)[0])) == [Text];
    BodySize(e);
    OneString(s);
  }

  lemma OneString(s: seq<Byte>)
    ensures |EncodeValues([Str(s)])| == 2 + |s|
  {
    EncodeValuesCons([Str(s)]);
    NothingEncoded();
    assert [Str(s)][1..] == [];
  }

  /** A field of a third type: its eight bytes are encoded into a buffer that has no room for them. */
  lemma ThirdTypeUncounted(n: Word64)
    ensures var fs, e := OneField(Other("bool")), Event(0, [Num(n)]);
            && IsEvent(fs, e) && SizesResolve(ApiOf(fs[0]).lengths, ArgumentsOf(fs[0], e.args))
            && AsInt(4 + TotalLength(ApiOf(fs[0]).lengths, ArgumentsOf(fs[0], e.args))) == 12
            && |HEADER + Body(e)| == 20
  {
    hide EncodeValues, EncodeValue, Body, Bind, AsInt;
    var fs, e := OneField(Other("bool")), Event(0, [Num(n)]);
    assert Types(Fields(fs[0])) == [Other("bool")];
    BodySize(e);
    OneNumber(n);
    OnlyEventCounted();
  }

  lemma OneNumber(n: Word64)
    ensures |EncodeValues([Num(n)])| == 8
  {
    EncodeValuesCons([Num(n)]);
    NothingEncoded();
    assert [Num(n)][1..] == [];
  }

  lemma OnlyEventCounted()
    ensures ApiOf(OneField(Other("bool"))[0]).lengths == [AddEight]
    ensures forall args: Arguments :: SizesResolve([AddEight], args) && TotalLength([AddEight], args) == 8
  {
    var ps := Fields(OneField(Other("bool"))[0]);
    assert ps == [Param("x", Other("bool"))] && ps[..0] == [];
    forall args: Arguments ensures TotalLength([AddEight], args) == 8 {
      assert [AddEight][..0] == [];
    }
  }
}
