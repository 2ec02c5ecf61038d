/** The event schema: the list of function descriptions that both code generators read. */
module Schema {
  import opened Bytes
  import opened Sequences

  /** `Other` stands for any parameter type besides the two that the wire format knows. */
  datatype FieldType = Uint64 | Text | Other(name: string)

  datatype Param = Param(name: string, ty: FieldType)

  datatype Func = Func(name: string, params: seq<Param>)

  /** A field value. A parameter of another type reaches `encode` converted to a 64-bit number. */
  datatype Value = Num(n: Word64) | Str(s: seq<Byte>)

  /** One logged event: the position of its function among the valid ones, and its arguments. */
  datatype Event = Event(id: nat, args: seq<Value>)

  /** Functions without parameters name no event and are skipped by both generators. */
  function ValidFuncs(fs: seq<Func>): (r: seq<Func>)
    ensures forall f :: f in r <==> f in fs && |f.params| >= 1
  {
    if fs == [] then []
    else
      var k := |fs| - 1;
      assert fs == fs[..k] + [fs[k]];
      ValidFuncs(fs[..k]) + if |fs[k].params| >= 1 then [fs[k]] else []
  }

  /** Where the valid functions stand in the list. */
  function ValidPositions(fs: seq<Func>): (ps: seq<nat>)
    ensures forall j :: 0 <= j < |ps| ==> ps[j] < |fs| && |fs[ps[j]].params| >= 1
    ensures forall i, j :: 0 <= i < j < |ps| ==> ps[i] < ps[j]
    ensures forall i :: 0 <= i < |fs| && |fs[i].params| >= 1 ==> i in ps
  {
    if fs == [] then []
    else
      var k := |fs| - 1;
      var front := ValidPositions(fs[..k]);
      assert forall i :: 0 <= i < k ==> fs[..k][i] == fs[i];
      if |fs[k].params| >= 1 then front + [k] else front
  }

  /** The valid functions are those at these positions, in that order: event `j` is the `j`-th of them. */
  lemma {:induction false} ValidInOrder(fs: seq<Func>)
    ensures |ValidFuncs(fs)| == |ValidPositions(fs)|
    ensures forall j :: 0 <= j < |ValidFuncs(fs)| ==> ValidFuncs(fs)[j] == fs[ValidPositions(fs)[j]]
  {
    hide ValidFuncs, ValidPositions;
    if fs == [] {
      NoneValid();
    } else {
      var k := |fs| - 1;
      var front, ps := ValidFuncs(fs[..k]), ValidPositions(fs[..k]);
      ValidInOrder(fs[..k]);
      LastValid(fs);
      forall j | 0 <= j < |front| ensures front[j] == fs[ps[j]] {
        assert fs[..k][ps[j]] == fs[ps[j]];
      }
    }
  }

  lemma NoneValid()
    ensures ValidFuncs([]) == [] && ValidPositions([]) == []
  {
  }

  lemma LastValid(fs: seq<Func>)
    requires fs != []
    ensures var k := |fs| - 1;
            && ValidFuncs(fs) == ValidFuncs(fs[..k]) + (if |fs[k].params| >= 1 then [fs[k]] else [])
            && ValidPositions(fs) == ValidPositions(fs[..k]) + if |fs[k].params| >= 1 then [k] else []
  {
    assert ValidPositions(fs[..|fs| - 1]) + [] == ValidPositions(fs[..|fs| - 1]);
  }

  function Upper(c: char): char {
    if 'a' <= c <= 'z' then (c as int - 32) as char else c
  }

  /** `name[0].upper() + name[1:]` for an identifier. */
  function Capital(name: string): string
    requires name != ""
  {
    [Upper(name[0])] + name[1..]
  }

  /** Go exports a capitalised name exactly when the parameter name starts with an ASCII letter; a lower-case first letter gives
      way to its upper-case form, and nothing else changes. */
  lemma CapitalExports(name: string)
    requires name != ""
    ensures |Capital(name)| == |name| && Capital(name)[1..] == name[1..]
    ensures 'A' <= Capital(name)[0] <= 'Z' <==> ('a' <= name[0] <= 'z' || 'A' <= name[0] <= 'Z')
    ensures 'a' <= name[0] <= 'z' ==> Capital(name)[0] as int - 'A' as int == name[0] as int - 'a' as int
    ensures !('a' <= name[0] <= 'z') ==> Capital(name) == name
  {
  }

  function Names(ps: seq<Param>): (r: seq<string>)
    ensures |r| == |ps| && forall i :: 0 <= i < |ps| ==> r[i] == ps[i].name
  {
    seq(|ps|, i requires 0 <= i < |ps| => ps[i].name)
  }

  ghost predicate Named(ps: seq<Param>) {
    forall p :: p in ps ==> p.name != ""
  }

  function FieldNames(ps: seq<Param>): (r: seq<string>)
    requires Named(ps)
    ensures |r| == |ps| && forall i :: 0 <= i < |ps| ==> r[i] == Capital(ps[i].name)
  {
    seq(|ps|, i requires 0 <= i < |ps| => Capital(ps[i].name))
  }

  function Types(ps: seq<Param>): (r: seq<FieldType>)
    ensures |r| == |ps| && forall i :: 0 <= i < |ps| ==> r[i] == ps[i].ty
  {
    seq(|ps|, i requires 0 <= i < |ps| => ps[i].ty)
  }

  /** The name of an event is the name of its function's first parameter. */
  function EventName(f: Func): string
    requires |f.params| >= 1
  {
    f.params[0].name
  }

  ghost predicate Usable(fs: seq<Func>) {
    forall f :: f in fs ==> |f.params| >= 1 && Named(f.params)
  }

  /** The payload: every parameter but the first. */
  function Fields(f: Func): seq<Param>
    requires |f.params| >= 1
  {
    f.params[1..]
  }

  ghost predicate Matches(tys: seq<FieldType>, vs: seq<Value>) {
    && |tys| == |vs|
    && forall i :: 0 <= i < |tys| ==> (vs[i].Str? <==> tys[i].Text?)
  }

  /** What the C++ and Go compilers ask of the generated text: struct fields and constants are distinct, an event
      number is a number, and the decoder's two primitives fit the declared variables. */
  ghost predicate WellFormedFunc(f: Func) {
    && |f.params| >= 1
    && Named(f.params)
    && f.params[0].ty == Uint64
    && Distinct(FieldNames(f.params))
    && forall p :: p in f.params ==> p.ty.Uint64? || p.ty.Text?
  }

  /** The constants of the generated Go `storage` package, the closing `EventMax` included. */
  function GoConstants(fs: seq<Func>): (r: seq<string>)
    requires Usable(fs)
    ensures |r| == |fs| + 1 && r[|fs|] == "EventMax"
    ensures forall i :: 0 <= i < |fs| ==> r[i] == Capital(EventName(fs[i]))
  {
    seq(|fs|, i requires 0 <= i < |fs| => Capital(EventName(fs[i]))) + ["EventMax"]
  }

  ghost predicate WellFormed(fs: seq<Func>) {
    && Usable(fs)
    && (forall f :: f in fs ==> WellFormedFunc(f))
    && Distinct(GoConstants(fs))
    && |fs| < TWO_32
  }

  ghost predicate IsEvent(fs: seq<Func>, e: Event) {
    e.id < |fs| && |fs[e.id].params| >= 1 && Matches(Types(Fields(fs[e.id])), e.args)
  }

  lemma DistinctParamNames(ps: seq<Param>)
    requires Named(ps) && Distinct(FieldNames(ps))
    ensures Distinct(Names(ps)) && (|ps| > 0 ==> Distinct(Names(ps[1..])) && Distinct(FieldNames(ps[1..])))
  {
    forall i, j | 0 <= i < j < |ps| ensures Names(ps)[i] != Names(ps)[j] {
      assert FieldNames(ps)[i] != FieldNames(ps)[j];
    }
    if |ps| > 0 {
      forall i, j | 0 <= i < j < |ps| - 1
        ensures Names(ps[1..])[i] != Names(ps[1..])[j] && FieldNames(ps[1..])[i] != FieldNames(ps[1..])[j]
      {
        assert FieldNames(ps)[i + 1] != FieldNames(ps)[j + 1];
      }
    }
  }

  lemma DistinctEventNames(fs: seq<Func>, i: nat, j: nat)
    requires WellFormed(fs) && i < |fs| && j < |fs| && EventName(fs[i]) == EventName(fs[j])
    ensures i == j
  {
    assert GoConstants(fs)[i] == GoConstants(fs)[j];
  }
}
