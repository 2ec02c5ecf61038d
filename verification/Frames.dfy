/** Frames on the wire: a four-byte length, then the body. The parser here is the reference for the listener. */
module Frames {
  import opened Bytes
  import opened Sequences

  /** What a sender puts on the wire for a buffer with this body: `send` stamps the size as 32 bits. */
  function Frame(body: Packet): (r: seq<Byte>)
    ensures |r| == 4 + |body|
  {
    U32(|body| % TWO_32) + body
  }

  function FramesOf(bodies: seq<Packet>): (r: seq<seq<Byte>>)
    ensures |r| == |bodies| && forall i :: 0 <= i < |r| ==> r[i] == Frame(bodies[i])
  {
    MapSeq(Frame, bodies)
  }

  /** `packets` have gone to the ingester. `ended`: a body of 1 to 12 bytes closed the connection; otherwise `rest` are the
      bytes of an unfinished frame. */
  datatype Parsed = Parsed(packets: seq<Packet>, ended: bool, rest: seq<Byte>)

  const SHORTEST := 13

  datatype Front = Incomplete | Complete(length: nat)

  /** Whether `s` starts with a whole frame, and how long its body is. */
  function NextFrame(s: seq<Byte>): (r: Front)
    ensures r.Complete? ==> 4 + r.length <= |s|
  {
    if |s| < 4 || |s| < 4 + FromBigEndian(s[..4]) then Incomplete else Complete(FromBigEndian(s[..4]))
  }

  function Parse(s: seq<Byte>): Parsed
    decreases |s|
  {
    match NextFrame(s)
    case Incomplete => Parsed([], false, s)
    case Complete(length) =>
      if length == 0 then Parse(s[4..])
      else if length < SHORTEST then Parsed([], true, s[4 + length..])
      else
        var r := Parse(s[4 + length..]);
        r.(packets := [s[4..4 + length]] + r.packets)
  }

  lemma ParseNothing()
    ensures Parse([]) == Parsed([], false, [])
  {
  }

  lemma NextFrameStays(s: seq<Byte>, t: seq<Byte>)
    requires NextFrame(s).Complete?
    ensures var length := NextFrame(s).length;
            && NextFrame(s + t) == NextFrame(s)
            && (s + t)[4..4 + length] == s[4..4 + length]
            && (s + t)[4 + length..] == s[4 + length..] + t
  {
    assert (s + t)[..4] == s[..4];
  }

  /** A frame without a body does not count: the parser goes on behind it as if it had not been there. */
  lemma {:induction false} EmptyFrameSkipped(s: seq<Byte>, t: seq<Byte>)
    requires Parse(s) == Parsed(Parse(s).packets, false, [])
    ensures Parse(s + Frame([]) + t) == Parse(s + t)
  {
    hide Parse, U32, NextFrame;
    EmptyFrame(t);
    ParseResumes(s, t);
    ParseResumes(s, Frame([]) + t);
    Assoc(s, Frame([]), t);
    assert [] + t == t && [] + (Frame([]) + t) == Frame([]) + t;
  }

  lemma EmptyFrame(t: seq<Byte>)
    ensures Parse(Frame([]) + t) == Parse(t)
  {
    var s := Frame([]) + t;
    hide U32, FromBigEndian;
    NetworkLong(0);
    FixedWidths(s[..4]);
    assert s[..4] == U32(0) && s[4..] == t;
  }

  /** Parsing can stop anywhere and go on later from the unfinished frame. */
  lemma {:induction false} ParseResumes(s: seq<Byte>, t: seq<Byte>)
    requires !Parse(s).ended
    ensures var p := Parse(s); var q := Parse(p.rest + t);
            Parse(s + t) == Parsed(p.packets + q.packets, q.ended, q.rest)
    decreases |s|
  {
    hide NextFrame;
    if NextFrame(s).Complete? {
      var length := NextFrame(s).length;
      NextFrameStays(s, t);
      ParseResumes(s[4 + length..], t);
    }
  }

  /** Once a short body has ended the connection, later bytes change nothing but the rest. */
  lemma {:induction false} ParseEnded(s: seq<Byte>, t: seq<Byte>)
    requires Parse(s).ended
    ensures Parse(s + t) == Parse(s).(rest := Parse(s).rest + t)
    decreases |s|
  {
    hide NextFrame;
    var length := NextFrame(s).length;
    NextFrameStays(s, t);
    if length == 0 || length >= SHORTEST {
      ParseEnded(s[4 + length..], t);
    }
  }

  /** The unfinished frame is what it says: parsing it alone gives no packet and leaves all of it. */
  lemma {:induction false} RestIsUnfinished(s: seq<Byte>)
    requires !Parse(s).ended
    ensures Parse(Parse(s).rest) == Parsed([], false, Parse(s).rest)
    decreases |s|
  {
    hide NextFrame;
    if NextFrame(s).Complete? {
      RestIsUnfinished(s[4 + NextFrame(s).length..]);
    }
  }

  // ---- Streams of frames -------------------------------------------------------------------------

  ghost predicate Sized(body: Packet) {
    0 < |body| < TWO_32
  }

  ghost predicate AllSized(bodies: seq<Packet>) {
    forall i :: 0 <= i < |bodies| ==> Sized(bodies[i])
  }

  lemma ParseFrame(body: Packet, tail: seq<Byte>)
    requires Sized(body)
    ensures Parse(Frame(body) + tail) ==
            if |body| < SHORTEST then Parsed([], true, tail)
            else Parsed([body] + Parse(tail).packets, Parse(tail).ended, Parse(tail).rest)
  {
    FrameParts(body, tail);
  }

  /** How many frames of a stream reach the ingester: those before the first short one. */
  function Delivered(bodies: seq<Packet>): (n: nat)
    ensures n <= |bodies|
    ensures forall i :: 0 <= i < n ==> |bodies[i]| >= SHORTEST
    ensures n < |bodies| ==> |bodies[n]| < SHORTEST
  {
    if bodies == [] || |bodies[0]| < SHORTEST then 0 else 1 + Delivered(bodies[1..])
  }

  lemma FlatFramesCons(bodies: seq<Packet>)
    requires bodies != []
    ensures Flat(FramesOf(bodies)) == Frame(bodies[0]) + Flat(FramesOf(bodies[1..]))
  {
    assert FramesOf(bodies)[1..] == FramesOf(bodies[1..]);
  }

  /** A stream of whole frames comes out as its bodies up to the first short one; every frame comes out exactly when
      none is short. */
  lemma {:induction false} ParseStream(bodies: seq<Packet>)
    requires AllSized(bodies)
    ensures var p, n := Parse(Flat(FramesOf(bodies))), Delivered(bodies);
            && p.packets == bodies[..n]
            && (p.ended <==> n < |bodies|)
            && (!p.ended ==> p.rest == [])
  {
    hide Frame;
    if bodies != [] {
      FlatFramesCons(bodies);
      ParseFrame(bodies[0], Flat(FramesOf(bodies[1..])));
      if |bodies[0]| >= SHORTEST {
        ParseStream(bodies[1..]);
      }
    }
  }

  /** Two lists of frames with the same bytes are the same list, whatever the sizes of their bodies. */
  lemma {:induction false} UniquelyParsable(a: seq<Packet>, b: seq<Packet>)
    requires AllSized(a) && AllSized(b) && Flat(FramesOf(a)) == Flat(FramesOf(b))
    ensures a == b
  {
    if a == [] || b == [] {
      if a != [] {
        FlatFramesCons(a);
      }
      if b != [] {
        FlatFramesCons(b);
      }
    } else {
      FlatFramesCons(a);
      FlatFramesCons(b);
      FirstFrame(a[0], Flat(FramesOf(a[1..])), b[0], Flat(FramesOf(b[1..])));
      UniquelyParsable(a[1..], b[1..]);
      assert a == [a[0]] + a[1..] && b == [b[0]] + b[1..];
    }
  }

  lemma FirstFrame(a: Packet, s: seq<Byte>, b: Packet, t: seq<Byte>)
    requires Sized(a) && Sized(b) && Frame(a) + s == Frame(b) + t
    ensures a == b && s == t
  {
    var whole := Frame(a) + s;
    FrameParts(a, s);
    FrameParts(b, t);
  }

  lemma FrameParts(body: Packet, tail: seq<Byte>)
    requires Sized(body)
    ensures var whole := Frame(body) + tail;
            whole[..4] == U32(|body|) && whole[4..4 + |body|] == body && whole[4 + |body|..] == tail
  {
    hide Frame, U32;
    SizedFrame(body);
    Thirds(U32(|body|), body, tail);
  }

  lemma SizedFrame(body: Packet)
    requires Sized(body)
    ensures Frame(body) == U32(|body|) + body
  {
    assert |body| % TWO_32 == |body|;
  }

  /** The bodies of the whole frames at the front of `s`, however short they are. */
  function Split(s: seq<Byte>): seq<Packet>
    decreases |s|
  {
    match NextFrame(s)
    case Incomplete => []
    case Complete(length) => [s[4..4 + length]] + Split(s[4 + length..])
  }

  lemma {:induction false} SplitStream(bodies: seq<Packet>)
    requires AllSized(bodies)
    ensures Split(Flat(FramesOf(bodies))) == bodies
  {
    hide Frame, Split, NextFrame;
    if bodies == [] {
      SplitNothing();
    } else {
      var tail := Flat(FramesOf(bodies[1..]));
      FlatFramesCons(bodies);
      SplitFrame(bodies[0], tail);
      SplitStream(bodies[1..]);
    }
  }

  lemma SplitNothing()
    ensures Split([]) == []
  {
  }

  lemma SplitFrame(body: Packet, tail: seq<Byte>)
    requires Sized(body)
    ensures Split(Frame(body) + tail) == [body] + Split(tail)
  {
    hide Frame;
    FrameParts(body, tail);
  }

  /** A stream cut anywhere gives a prefix of the frames, and the cut frame stays unfinished. */
  lemma ParsePrefix(bodies: seq<Packet>, cut: nat)
    requires AllSized(bodies) && cut <= |Flat(FramesOf(bodies))|
    ensures var s := Flat(FramesOf(bodies));
            Parse(s[..cut]).packets <= Parse(s).packets && Parse(s).packets <= bodies
  {
    var s := Flat(FramesOf(bodies));
    assert s == s[..cut] + s[cut..];
    if Parse(s[..cut]).ended {
      ParseEnded(s[..cut], s[cut..]);
    } else {
      ParseResumes(s[..cut], s[cut..]);
    }
    ParseStream(bodies);
  }

  lemma CutFrame(body: Packet, tail: seq<Byte>, cut: nat)
    requires Sized(body) && cut < |Frame(body)|
    ensures var whole := Frame(body) + tail;
            Parse(whole[..cut]) == Parsed([], false, whole[..cut])
  {
    hide U32;
    SizedFrame(body);
    var head := (Frame(body) + tail)[..cut];
    if cut >= 4 {
      assert head[..4] == U32(|body|);
      FixedWidths(head[..4]);
    }
  }

  /** Where a stream cut into `before` and `after` stands: so many whole frames have come out, a short body has ended it or
      not, and the unfinished frame with the bytes behind the cut are the frames to come. */
  ghost predicate CutAt(bodies: seq<Packet>, before: seq<Byte>, after: seq<Byte>) {
    var p := Parse(before);
    var k := |p.packets|;
    && k <= Delivered(bodies) && p.packets == bodies[..k]
    && (p.ended ==> k == Delivered(bodies) < |bodies|)
    && (!p.ended ==> p.rest + after == Flat(FramesOf(bodies[k..])))
  }

  lemma {:induction false} CutStream(bodies: seq<Packet>, before: seq<Byte>, after: seq<Byte>)
    requires AllSized(bodies) && before + after == Flat(FramesOf(bodies))
    ensures CutAt(bodies, before, after)
  {
    hide Frame, Parse, CutAt;
    if bodies == [] {
      CutNothing(before, after);
    } else {
      FlatFramesCons(bodies);
      var f, tail := Frame(bodies[0]), Flat(FramesOf(bodies[1..]));
      if |before| < |f| {
        CutFirst(bodies, before, after);
      } else {
        var rest := before[|f|..];
        assert f == (f + tail)[..|f|] == before[..|f|] && before == f + rest;
        assert rest + after == (before + after)[|f|..] == tail;
        if |bodies[0]| >= SHORTEST {
          CutStream(bodies[1..], rest, after);
        }
        CutLater(bodies, rest, after);
      }
    }
  }

  lemma CutNothing(before: seq<Byte>, after: seq<Byte>)
    requires before + after == Flat(FramesOf([]))
    ensures CutAt([], before, after)
  {
    assert before == [] && after == [];
    assert FramesOf([]) == [] && [][0..] == FramesOf([]);
  }

  lemma CutFirst(bodies: seq<Packet>, before: seq<Byte>, after: seq<Byte>)
    requires bodies != [] && Sized(bodies[0]) && before + after == Flat(FramesOf(bodies)) && |before| < |Frame(bodies[0])|
    ensures CutAt(bodies, before, after)
  {
    hide Frame, Parse;
    FlatFramesCons(bodies);
    var whole := Frame(bodies[0]) + Flat(FramesOf(bodies[1..]));
    CutFrame(bodies[0], Flat(FramesOf(bodies[1..])), |before|);
    assert whole[..|before|] == before && bodies[0..] == bodies && bodies[..0] == [];
  }

  lemma CutLater(bodies: seq<Packet>, rest: seq<Byte>, after: seq<Byte>)
    requires bodies != [] && Sized(bodies[0])
    requires |bodies[0]| >= SHORTEST ==> CutAt(bodies[1..], rest, after)
    ensures CutAt(bodies, Frame(bodies[0]) + rest, after)
  {
    hide Frame, Parse, Flat, FramesOf;
    ParseFrame(bodies[0], rest);
    if |bodies[0]| >= SHORTEST {
      var k := |Parse(rest).packets|;
      assert [bodies[0]] + bodies[1..][..k] == bodies[..1 + k] && bodies[1..][k..] == bodies[1 + k..];
    } else {
      assert bodies[..0] == [];
    }
  }

  /** The first `n` bytes of a stream of these frames include all of its first short one. */
  ghost predicate ShortWithin(bodies: seq<Packet>, n: nat) {
    var d := Delivered(bodies);
    d < |bodies| && n >= |Flat(FramesOf(bodies[..d + 1]))|
  }

  lemma ShortWithinCons(bodies: seq<Packet>, n: nat)
    requires bodies != []
    ensures var f := |Frame(bodies[0])|;
            ShortWithin(bodies, n) <==> n >= f && (|bodies[0]| < SHORTEST || ShortWithin(bodies[1..], n - f))
  {
    hide Frame, FramesOf, Flat;
    var d := Delivered(bodies);
    if d < |bodies| {
      FlatFramesCons(bodies[..d + 1]);
      assert bodies[..d + 1][1..] == bodies[1..][..d];
      if d == 0 {
        NoFrames();
      }
    }
  }

  lemma NoFrames()
    ensures Flat(FramesOf([])) == []
  {
  }

  /** A reader of a stream meets the end exactly when it has read all of the first short frame. */
  lemma {:induction false} EndedIff(bodies: seq<Packet>, before: seq<Byte>, after: seq<Byte>)
    requires AllSized(bodies) && before + after == Flat(FramesOf(bodies))
    ensures Parse(before).ended <==> ShortWithin(bodies, |before|)
  {
    hide Frame, Parse, ShortWithin, Flat, FramesOf;
    if bodies == [] {
      NoFrames();
      ParseNothing();
      NeverShort(|before|);
      assert before == [];
    } else {
      FlatFramesCons(bodies);
      ShortWithinCons(bodies, |before|);
      var f, tail := Frame(bodies[0]), Flat(FramesOf(bodies[1..]));
      if |before| < |f| {
        CutFrame(bodies[0], tail, |before|);
        assert (f + tail)[..|before|] == before;
      } else {
        var rest := before[|f|..];
        assert f == (f + tail)[..|f|] == before[..|f|] && before == f + rest;
        assert rest + after == (before + after)[|f|..] == tail;
        ParseFrame(bodies[0], rest);
        if |bodies[0]| >= SHORTEST {
          EndedIff(bodies[1..], rest, after);
        }
      }
    }
  }

  lemma NeverShort(n: nat)
    ensures !ShortWithin([], n)
  {
  }
}
