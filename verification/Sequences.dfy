/** Facts about sequences that several stages of the pipeline share. */
module Sequences {

  function Flat<T>(ss: seq<seq<T>>): seq<T> {
    if ss == [] then [] else ss[0] + Flat(ss[1..])
  }

  lemma Assoc<T>(a: seq<T>, b: seq<T>, c: seq<T>)
    ensures a + (b + c) == (a + b) + c
  {
  }

  lemma Thirds<T>(a: seq<T>, b: seq<T>, c: seq<T>)
    ensures var s := a + b + c;
            s[..|a|] == a && s[|a|..|a| + |b|] == b && s[|a| + |b|..] == c
  {
  }

  lemma {:induction false} FlatAppend<T>(a: seq<seq<T>>, b: seq<seq<T>>)
    ensures Flat(a + b) == Flat(a) + Flat(b)
  {
    if a == [] {
      assert a + b == b;
    } else {
      FlatAppend(a[1..], b);
      assert (a + b)[0] == a[0] && (a + b)[1..] == a[1..] + b;
      Assoc(a[0], Flat(a[1..]), Flat(b));
    }
  }

  lemma FlatSnoc<T>(a: seq<seq<T>>, x: seq<T>)
    ensures Flat(a + [x]) == Flat(a) + x
  {
    FlatAppend(a, [x]);
    assert Flat([x]) == x + Flat<T>([]);
  }

  lemma FlatTake<T>(a: seq<seq<T>>, from: nat, to: nat)
    requires from <= to <= |a|
    ensures Flat(a[..to]) == Flat(a[..from]) + Flat(a[from..to])
  {
    assert a[..to] == a[..from] + a[from..to];
    FlatAppend(a[..from], a[from..to]);
  }

  lemma FlatOne<T>(x: seq<T>)
    ensures Flat([x]) == x
  {
    FlatSnoc([], x);
    assert [] + [x] == [x] && [] + x == x;
  }

  lemma MultisetAppend<T>(a: seq<T>, b: seq<T>)
    ensures multiset(a + b) == multiset(a) + multiset(b)
  {
  }

  ghost predicate Distinct<T>(s: seq<T>) {
    forall i, j :: 0 <= i < j < |s| ==> s[i] != s[j]
  }

  /** The position of the first occurrence of `x`. */
  function IndexOf<T(==)>(s: seq<T>, x: T): (i: nat)
    requires x in s
    ensures i < |s| && s[i] == x && x !in s[..i]
  {
    if s[0] == x then 0
    else
      var i := 1 + IndexOf(s[1..], x);
      assert s[..i] == [s[0]] + s[1..][..i - 1];
      i
  }

  lemma IndexOfDistinct<T>(s: seq<T>, i: nat)
    requires Distinct(s) && i < |s|
    ensures IndexOf(s, s[i]) == i
  {
  }

  /** The map built by binding names to values from left to right. */
  function Bind<K(==,!new), V>(names: seq<K>, values: seq<V>): (m: map<K, V>)
    requires |names| == |values|
    ensures forall n :: n in m <==> n in names
  {
    if names == [] then map[]
    else
      var k := |names| - 1;
      assert names == names[..k] + [names[k]];
      Bind(names[..k], values[..k])[names[k] := values[k]]
  }

  lemma {:induction false} BindAt<K(!new), V>(names: seq<K>, values: seq<V>, i: nat)
    requires |names| == |values| && i < |names| && Distinct(names)
    ensures Bind(names, values)[names[i]] == values[i]
  {
    var k := |names| - 1;
    if i < k {
      BindAt(names[..k], values[..k], i);
    }
  }

  lemma BindSnoc<K(!new), V>(names: seq<K>, values: seq<V>, n: K, v: V)
    requires |names| == |values|
    ensures Bind(names + [n], values + [v]) == Bind(names, values)[n := v]
  {
    assert (names + [n])[..|names|] == names && (values + [v])[..|values|] == values;
  }

  /** Binding the first name last changes nothing else: dropping it leaves the others bound. */
  lemma {:induction false} BindTail<K(!new), V>(name: K, value: V, names: seq<K>, values: seq<V>)
    requires |names| == |values| && name !in names
    ensures Bind(names, values) == Bind([name] + names, [value] + values) - {name}
  {
    hide Bind;
    if names == [] {
      BindSnoc<K, V>([], [], name, value);
      BindNone<K, V>();
      assert [name] + names == [] + [name] && [value] + values == [] + [value];
    } else {
      var k := |names| - 1;
      BindTail(name, value, names[..k], values[..k]);
      BindSnoc([name] + names[..k], [value] + values[..k], names[k], values[k]);
      BindSnoc(names[..k], values[..k], names[k], values[k]);
      DropThenSet(Bind([name] + names[..k], [value] + values[..k]), name, names[k], values[k]);
      assert names == names[..k] + [names[k]] && values == values[..k] + [values[k]];
      assert [name] + names == ([name] + names[..k]) + [names[k]];
      assert [value] + values == ([value] + values[..k]) + [values[k]];
    }
  }

  lemma BindNone<K(!new), V>()
    ensures Bind<K, V>([], []) == map[]
  {
  }

  lemma DropThenSet<K, V>(m: map<K, V>, x: K, k: K, v: V)
    requires k != x
    ensures (m - {x})[k := v] == m[k := v] - {x}
  {
  }

  function MapSeq<A, B>(f: A -> B, s: seq<A>): (r: seq<B>)
    ensures |r| == |s| && forall i :: 0 <= i < |s| ==> r[i] == f(s[i])
  {
    seq(|s|, i requires 0 <= i < |s| => f(s[i]))
  }

  lemma Rearrange<T>(a: multiset<T>, x: multiset<T>, b: multiset<T>, y: multiset<T>)
    ensures (a + x) + (b + y) == (a + b) + (x + y)
  {
  }

  lemma MultisetThree<T>(a: seq<T>, b: seq<T>, c: seq<T>)
    ensures multiset(a + b + c) == multiset(a) + multiset(b) + multiset(c)
  {
    MultisetAppend(a + b, c);
    MultisetAppend(a, b);
  }

  lemma {:induction false} MapMultiset<A, B>(f: A -> B, a: seq<A>, b: seq<A>)
    requires multiset(a) == multiset(b)
    ensures multiset(MapSeq(f, a)) == multiset(MapSeq(f, b))
    decreases |a|
  {
    if a == [] {
      SameLength(a, b);
      assert MapSeq(f, a) == MapSeq(f, b);
    } else {
      var i := IndexIn(b, a[0]) by { SameElements(a, b); }
      hide Without;
      WithoutOne(a, 0);
      WithoutOne(b, i);
      Cancel(multiset(Without(a, 0)), multiset(Without(b, i)), a[0]);
      MapMultiset(f, Without(a, 0), Without(b, i));
      MapWithout(f, a, 0);
      MapWithout(f, b, i);
    }
  }

  lemma SameLength<T>(a: seq<T>, b: seq<T>)
    requires multiset(a) == multiset(b)
    ensures |a| == |b|
  {
    assert |multiset(a)| == |a| && |multiset(b)| == |b|;
  }

  lemma SameElements<T>(a: seq<T>, b: seq<T>)
    requires multiset(a) == multiset(b)
    ensures forall x :: x in a ==> x in b
  {
    assert forall x :: x in a ==> x in multiset(a);
  }

  lemma Cancel<T>(a: multiset<T>, b: multiset<T>, x: T)
    requires a + multiset{x} == b + multiset{x}
    ensures a == b
  {
    assert a == (a + multiset{x}) - multiset{x};
  }

  ghost function IndexIn<T>(s: seq<T>, x: T): (i: nat)
    requires x in s
    ensures i < |s| && s[i] == x
  {
    var i :| 0 <= i < |s| && s[i] == x;
    i
  }

  function Without<T>(s: seq<T>, i: nat): (r: seq<T>)
    requires i < |s|
    ensures |r| == |s| - 1
  {
    s[..i] + s[i + 1..]
  }

  lemma WithoutOne<T>(s: seq<T>, i: nat)
    requires i < |s|
    ensures multiset(s) == multiset(Without(s, i)) + multiset{s[i]}
  {
    assert s == s[..i] + [s[i]] + s[i + 1..];
    MultisetThree(s[..i], [s[i]], s[i + 1..]);
    MultisetAppend(s[..i], s[i + 1..]);
  }

  lemma MapWithout<A, B>(f: A -> B, s: seq<A>, i: nat)
    requires i < |s|
    ensures multiset(MapSeq(f, s)) == multiset(MapSeq(f, Without(s, i))) + multiset{f(s[i])}
  {
    var m := MapSeq(f, s);
    WithoutOne(m, i);
    assert Without(m, i) == MapSeq(f, Without(s, i));
  }

  lemma MultisetFive<T>(a: seq<T>, b: seq<T>, c: seq<T>, d: seq<T>, e: seq<T>)
    ensures multiset(a + b + c + d + e) == ((multiset(b) + multiset(a)) + multiset(c)) + (multiset(d) + multiset(e))
  {
    MultisetAppend(a + b + c + d, e);
    MultisetAppend(a + b + c, d);
    MultisetAppend(a + b, c);
    MultisetAppend(a, b);
  }

  lemma {:induction false} InFlat<T>(ss: seq<seq<T>>, i: nat, x: T)
    requires i < |ss| && x in ss[i]
    ensures x in Flat(ss)
  {
    if i > 0 {
      InFlat(ss[1..], i - 1, x);
    }
  }
}
