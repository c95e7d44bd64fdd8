/** How the framer depends on the way a stream is cut into chunks: fusion of pushes, the exact
    conditions under which no chunking forces a flush and under which every chunking gives the
    same frames, conservation of bytes across changes of strategy, and what validation buys. */
module Chunking {
  import opened Common
  import opened Framing

  // ---- More bytes never change a cut that could already be made ----

  lemma FindStable(a: Bytes, b: Bytes, d: Bytes)
    requires FindSubslice(a, d).Some?
    ensures FindSubslice(a + b, d) == FindSubslice(a, d)
  {
    var pos := FindSubslice(a, d).value;
    assert (a + b)[pos..pos + |d|] == a[pos..pos + |d|];
    assert OccursAt(a + b, d, pos);
    forall j: nat | j < pos
      ensures !OccursAt(a + b, d, j)
    {
      assert (a + b)[j..j + |d|] == a[j..j + |d|];
      assert !OccursAt(a, d, j);
    }
  }

  lemma DelimiterCutStable(d: Bytes, inclusive: bool, a: Bytes, b: Bytes)
    requires !NextCut(Delimiter(d, inclusive), a).Stop?
    ensures NextCut(Delimiter(d, inclusive), a + b) == NextCut(Delimiter(d, inclusive), a)
  {
    FindStable(a, b, d);
    hide FindSubslice;
    var pos := FindSubslice(a, d).value;
    assert (a + b)[..pos + |d|] == a[..pos + |d|] && (a + b)[..pos] == a[..pos];
  }

  lemma LengthCutStable(st: Strategy, a: Bytes, b: Bytes)
    requires st.LengthPrefixed? && !NextCut(st, a).Stop?
    ensures NextCut(st, a + b) == NextCut(st, a)
  {
    hide UintValue;
    assert (a + b)[st.lengthOffset..st.lengthOffset + st.lengthSize] ==
           a[st.lengthOffset..st.lengthOffset + st.lengthSize];
    var total := DeclaredTotal(st, a);
    if total <= |a| {
      assert (a + b)[..total] == a[..total];
    }
  }

  lemma CutStable(st: Strategy, a: Bytes, b: Bytes)
    requires !NextCut(st, a).Stop?
    ensures NextCut(st, a + b) == NextCut(st, a)
  {
    match st {
      case Delimiter(d, inclusive) => DelimiterCutStable(d, inclusive, a, b);
      case Fixed(len) => FixedCutStable(len, a, b);
      case LengthPrefixed(_, _, _, _, _, _) => LengthCutStable(st, a, b);
      case IdleTimeout =>
    }
  }

  lemma FixedCutStable(len: nat, a: Bytes, b: Bytes)
    requires !NextCut(Fixed(len), a).Stop?
    ensures NextCut(Fixed(len), a + b) == NextCut(Fixed(len), a)
  {
    assert (a + b)[..len] == a[..len];
  }

  lemma EmptyIsStop(st: Strategy)
    requires st.WellFormed()
    ensures NextCut(st, []).Stop?
  {
  }

  // ---- Draining ----

  lemma {:induction false} DrainedRestStops(st: Strategy, buf: Bytes)
    requires st.WellFormed()
    ensures NextCut(st, Drained(st, buf).rest).Stop?
    decreases |buf|
  {
    EmptyIsStop(st);
    var c := NextCut(st, buf);
    if c.Emit? {
      DrainedRestStops(st, buf[|c.Wire()|..]);
    }
  }

  lemma ForcedAppend(a: seq<Emission>, b: seq<Emission>)
    ensures Forced(a + b) <==> Forced(a) || Forced(b)
  {
    if Forced(a) {
      var i :| 0 <= i < |a| && a[i].cause != Boundary;
      assert (a + b)[i] == a[i];
    }
    if Forced(b) {
      var i :| 0 <= i < |b| && b[i].cause != Boundary;
      assert (a + b)[|a| + i] == b[i];
    }
  }

  lemma AfterAfter(o: Outcome, a: seq<Emission>, b: seq<Emission>)
    ensures o.After(b).After(a) == o.After(a + b)
    ensures o.After([]) == o
  {
    assert a + (b + o.out) == (a + b) + o.out;
    assert [] + o.out == o.out;
  }

  lemma DrainedEmits(st: Strategy, buf: Bytes)
    requires st.WellFormed() && NextCut(st, buf).Emit?
    ensures var c := NextCut(st, buf);
            && 0 < |c.Wire()| <= |buf|
            && Drained(st, buf) ==
               Drained(st, buf[|c.Wire()|..]).After([Emission(c.frame, c.stripped, Boundary)])
  {
  }

  lemma MalformedForces(st: Strategy, buf: Bytes)
    requires st.WellFormed() && NextCut(st, buf).Malformed?
    ensures Forced(Drained(st, buf).out)
  {
    assert Drained(st, buf).out[0].cause == MalformedLength;
  }

  /** Draining early and then draining the rest with more bytes is draining once, unless the
      early drain met a malformed length. */
  lemma {:induction false} DrainFusion(st: Strategy, a: Bytes, b: Bytes)
    requires st.WellFormed() && !Forced(Drained(st, a).out)
    ensures var first := Drained(st, a);
            Drained(st, a + b) == Drained(st, first.rest + b).After(first.out)
    decreases |a|
  {
    hide NextCut, Forced;
    var c := NextCut(st, a);
    if c.Stop? {
      AfterAfter(Drained(st, a + b), [], []);
    } else if c.Malformed? {
      MalformedForces(st, a);
      assert false;
    } else {
      var n, e := |c.Wire()|, Emission(c.frame, c.stripped, Boundary);
      var first := Drained(st, a[n..]);
      CutStable(st, a, b);
      DrainedEmits(st, a);
      DrainedEmits(st, a + b);
      ForcedAppend([e], first.out);
      DrainFusion(st, a[n..], b);
      assert (a + b)[n..] == a[n..] + b;
      AfterAfter(Drained(st, first.rest + b), [e], first.out);
    }
  }

  // ---- Pushing ----

  /** What every push leaves behind: nothing more to cut, and no more than the bound. */
  predicate Settled(spec: FramingSpec, buf: Bytes) {
    NextCut(spec.strategy, buf).Stop? && |buf| <= spec.maxBuffer
  }

  /** Whatever the buffer held before, even bytes left there by another strategy. */
  lemma PushSettles(spec: FramingSpec, buf: Bytes, chunk: Bytes)
    requires spec.strategy.WellFormed()
    ensures Settled(spec, Pushed(spec, buf, chunk).rest)
  {
    EmptyIsStop(spec.strategy);
    DrainedRestStops(spec.strategy, buf + chunk);
  }

  lemma PushUnforced(spec: FramingSpec, buf: Bytes, chunk: Bytes)
    requires spec.strategy.WellFormed()
    ensures var o := Drained(spec.strategy, buf + chunk);
            !Forced(Pushed(spec, buf, chunk).out) <==> !Forced(o.out) && |o.rest| <= spec.maxBuffer
    ensures !Forced(Pushed(spec, buf, chunk).out) ==>
              Pushed(spec, buf, chunk) == Drained(spec.strategy, buf + chunk)
  {
    var o := Drained(spec.strategy, buf + chunk);
    if |o.rest| > spec.maxBuffer {
      var last := Emission(o.rest, [], Backstop);
      ForcedAppend(o.out, [last]);
      assert [last][0].cause != Boundary;
    }
  }

  lemma BoundedAfter(spec: FramingSpec, o: Outcome, earlier: seq<Emission>)
    ensures Bounded(spec, o.After(earlier)) == Bounded(spec, o).After(earlier)
  {
    AfterAfter(Outcome([Emission(o.rest, [], Backstop)], []), earlier, o.out);
  }

  lemma PushFusion(spec: FramingSpec, buf: Bytes, c1: Bytes, c2: Bytes)
    requires spec.strategy.WellFormed() && !Forced(Pushed(spec, buf, c1).out)
    ensures var first := Pushed(spec, buf, c1);
            Pushed(spec, buf, c1 + c2) == Pushed(spec, first.rest, c2).After(first.out)
  {
    hide Drained, Bounded;
    var first := Pushed(spec, buf, c1);
    PushUnforced(spec, buf, c1);
    DrainFusion(spec.strategy, buf + c1, c2);
    assert buf + (c1 + c2) == (buf + c1) + c2;
    BoundedAfter(spec, Drained(spec.strategy, first.rest + c2), first.out);
  }

  /** A run of pushes, one for each chunk. */
  function PushAll(spec: FramingSpec, buf: Bytes, chunks: seq<Bytes>): Outcome
    requires spec.strategy.WellFormed()
    decreases |chunks|
  {
    if chunks == [] then Outcome([], buf)
    else
      var first := Pushed(spec, buf, chunks[0]);
      PushAll(spec, first.rest, chunks[1..]).After(first.out)
  }

  lemma {:induction false} PushAllAppend(spec: FramingSpec, buf: Bytes, a: seq<Bytes>, b: seq<Bytes>)
    requires spec.strategy.WellFormed()
    ensures var first := PushAll(spec, buf, a);
            PushAll(spec, buf, a + b) == PushAll(spec, first.rest, b).After(first.out)
    decreases |a|
  {
    if a == [] {
      assert a + b == b;
      AfterAfter(PushAll(spec, buf, b), [], []);
    } else {
      var head := Pushed(spec, buf, a[0]);
      var mid := PushAll(spec, head.rest, a[1..]);
      assert (a + b)[1..] == a[1..] + b;
      PushAllAppend(spec, head.rest, a[1..], b);
      AfterAfter(PushAll(spec, mid.rest, b), head.out, mid.out);
    }
  }

  lemma {:induction false} PushAllSettles(spec: FramingSpec, buf: Bytes, chunks: seq<Bytes>)
    requires spec.strategy.WellFormed() && (Settled(spec, buf) || chunks != [])
    ensures Settled(spec, PushAll(spec, buf, chunks).rest)
    decreases |chunks|
  {
    if chunks != [] {
      PushSettles(spec, buf, chunks[0]);
      PushAllSettles(spec, Pushed(spec, buf, chunks[0]).rest, chunks[1..]);
    }
  }

  /** A run in which no push forced a flush gives what one push of the whole stream gives. */
  lemma {:induction false} UnforcedRunFuses(spec: FramingSpec, buf: Bytes, chunks: seq<Bytes>)
    requires spec.strategy.WellFormed() && Settled(spec, buf)
    requires !Forced(PushAll(spec, buf, chunks).out)
    ensures PushAll(spec, buf, chunks) == Pushed(spec, buf, Flatten(chunks))
    decreases |chunks|
  {
    if chunks == [] {
      assert buf + [] == buf;
    } else {
      var first := Pushed(spec, buf, chunks[0]);
      ForcedAppend(first.out, PushAll(spec, first.rest, chunks[1..]).out);
      PushSettles(spec, buf, chunks[0]);
      UnforcedRunFuses(spec, first.rest, chunks[1..]);
      PushFusion(spec, buf, chunks[0], Flatten(chunks[1..]));
    }
  }

  /** No prefix of the stream, pushed in one piece, forces a flush. */
  ghost predicate Quiet(spec: FramingSpec, buf: Bytes, stream: Bytes)
    requires spec.strategy.WellFormed()
  {
    forall k :: 0 <= k <= |stream| ==> !Forced(Pushed(spec, buf, stream[..k]).out)
  }

  lemma QuietTail(spec: FramingSpec, buf: Bytes, c: Bytes, stream: Bytes)
    requires spec.strategy.WellFormed() && Quiet(spec, buf, c + stream)
    ensures !Forced(Pushed(spec, buf, c).out)
    ensures Quiet(spec, Pushed(spec, buf, c).rest, stream)
  {
    var all := c + stream;
    assert all[..|c|] == c;
    var first := Pushed(spec, buf, c);
    forall k | 0 <= k <= |stream|
      ensures !Forced(Pushed(spec, first.rest, stream[..k]).out)
    {
      assert all[..|c| + k] == c + stream[..k];
      PushFusion(spec, buf, c, stream[..k]);
      ForcedAppend(first.out, Pushed(spec, first.rest, stream[..k]).out);
    }
  }

  /** On a quiet stream every chunking drains the stream as a whole. */
  lemma {:induction false} QuietRun(spec: FramingSpec, buf: Bytes, chunks: seq<Bytes>)
    requires spec.strategy.WellFormed() && Settled(spec, buf)
    requires Quiet(spec, buf, Flatten(chunks))
    ensures !Forced(PushAll(spec, buf, chunks).out)
    ensures PushAll(spec, buf, chunks) == Drained(spec.strategy, buf + Flatten(chunks))
  {
    QuietUnforced(spec, buf, chunks);
    UnforcedRunFuses(spec, buf, chunks);
    var s := Flatten(chunks);
    assert s[..|s|] == s;
    PushUnforced(spec, buf, s);
  }

  lemma {:induction false} QuietUnforced(spec: FramingSpec, buf: Bytes, chunks: seq<Bytes>)
    requires spec.strategy.WellFormed() && Quiet(spec, buf, Flatten(chunks))
    ensures !Forced(PushAll(spec, buf, chunks).out)
    decreases |chunks|
  {
    if chunks != [] {
      QuietTail(spec, buf, chunks[0], Flatten(chunks[1..]));
      var first := Pushed(spec, buf, chunks[0]);
      QuietUnforced(spec, first.rest, chunks[1..]);
      ForcedAppend(first.out, PushAll(spec, first.rest, chunks[1..]).out);
    }
  }

  /** A stream that is not quiet forces a flush when it arrives byte by byte. */
  lemma LoudByteByByte(spec: FramingSpec, buf: Bytes, stream: Bytes)
    requires spec.strategy.WellFormed() && Settled(spec, buf)
    requires !Quiet(spec, buf, stream)
    ensures Forced(PushAll(spec, buf, Singletons(stream)).out)
  {
    hide Pushed, PushAll, Forced, Settled;
    var k :| 0 <= k <= |stream| && Forced(Pushed(spec, buf, stream[..k]).out);
    var early, late := stream[..k], stream[k..];
    assert Singletons(stream) == Singletons(early) + Singletons(late);
    PushAllAppend(spec, buf, Singletons(early), Singletons(late));
    var first := PushAll(spec, buf, Singletons(early));
    ForcedAppend(first.out, PushAll(spec, first.rest, Singletons(late)).out);
    if !Forced(first.out) {
      UnforcedRunFuses(spec, buf, Singletons(early));
      FlattenSingletons(early);
    }
  }

  /** Exactly on the quiet streams no chunking forces a flush, and every chunking of one drains
      the stream as a whole. */
  lemma UnforcedExactly(spec: FramingSpec, buf: Bytes, stream: Bytes)
    requires spec.strategy.WellFormed() && Settled(spec, buf)
    ensures Quiet(spec, buf, stream) <==>
            forall chunks | Flatten(chunks) == stream :: !Forced(PushAll(spec, buf, chunks).out)
    ensures Quiet(spec, buf, stream) ==>
            forall chunks | Flatten(chunks) == stream ::
              PushAll(spec, buf, chunks) == Drained(spec.strategy, buf + stream)
  {
    if Quiet(spec, buf, stream) {
      forall chunks | Flatten(chunks) == stream
        ensures !Forced(PushAll(spec, buf, chunks).out)
        ensures PushAll(spec, buf, chunks) == Drained(spec.strategy, buf + stream)
      {
        QuietRun(spec, buf, chunks);
      }
    } else {
      FlattenSingletons(stream);
      LoudByteByByte(spec, buf, stream);
    }
  }

  // ---- Exactly when the chunks do not matter ----

  /** No proper prefix of the stream, pushed in one piece, forces a flush: one may come with the
      very last byte, where no chunking can avoid it. */
  ghost predicate QuietInside(spec: FramingSpec, buf: Bytes, stream: Bytes)
    requires spec.strategy.WellFormed()
  {
    forall k :: 0 <= k < |stream| ==> !Forced(Pushed(spec, buf, stream[..k]).out)
  }

  lemma EmptyPush(spec: FramingSpec, buf: Bytes)
    requires spec.strategy.WellFormed() && Settled(spec, buf)
    ensures Pushed(spec, buf, []) == Outcome([], buf)
  {
    assert buf + [] == buf;
  }

  lemma QuietInsideTail(spec: FramingSpec, buf: Bytes, c: Bytes, stream: Bytes)
    requires spec.strategy.WellFormed() && QuietInside(spec, buf, c + stream) && stream != []
    ensures !Forced(Pushed(spec, buf, c).out)
    ensures QuietInside(spec, Pushed(spec, buf, c).rest, stream)
  {
    hide Pushed, Forced;
    var all := c + stream;
    assert all[..|c|] == c;
    var first := Pushed(spec, buf, c);
    forall k | 0 <= k < |stream|
      ensures !Forced(Pushed(spec, first.rest, stream[..k]).out)
    {
      assert all[..|c| + k] == c + stream[..k];
      PushFusion(spec, buf, c, stream[..k]);
      ForcedAppend(first.out, Pushed(spec, first.rest, stream[..k]).out);
    }
  }

  /** Then every chunking gives what one push of the whole stream gives. */
  lemma {:induction false} QuietInsideRun(spec: FramingSpec, buf: Bytes, chunks: seq<Bytes>)
    requires spec.strategy.WellFormed() && Settled(spec, buf)
    requires QuietInside(spec, buf, Flatten(chunks))
    ensures PushAll(spec, buf, chunks) == Pushed(spec, buf, Flatten(chunks))
    decreases |chunks|
  {
    hide Pushed, Settled;
    if chunks == [] {
      EmptyPush(spec, buf);
    } else {
      var first, later := Pushed(spec, buf, chunks[0]), Flatten(chunks[1..]);
      PushSettles(spec, buf, chunks[0]);
      if later != [] {
        QuietInsideTail(spec, buf, chunks[0], later);
        PushFusion(spec, buf, chunks[0], later);
      } else {
        assert chunks[0] + later == chunks[0];
        EmptyPush(spec, first.rest);
        assert first.out + [] == first.out;
      }
      QuietInsideRun(spec, first.rest, chunks[1..]);
    }
  }

  /** When a byte makes a cut possible, the cut takes the whole buffer. */
  lemma CutTakesAll(st: Strategy, r: Bytes, x: byte)
    requires st.WellFormed() && NextCut(st, r).Stop? && NextCut(st, r + [x]).Emit?
    ensures NextCut(st, r + [x]).Wire() == r + [x]
  {
    hide NextCut;
    var w := NextCut(st, r + [x]).Wire();
    CutOfWire(st, r + [x]);
    if |w| <= |r| {
      assert w == r[..|w|] && w + r[|w|..] == r;
      CutStable(st, w, r[|w|..]);
      assert false;
    }
  }

  /** A byte that forces a flush flushes the whole buffer as one frame. */
  lemma FirstFlush(spec: FramingSpec, r: Bytes, x: byte)
    requires spec.strategy.WellFormed() && Settled(spec, r) && Forced(Pushed(spec, r, [x]).out)
    ensures Pushed(spec, r, [x]).rest == []
    ensures Frames(Pushed(spec, r, [x]).out) == [r + [x]]
    ensures NextCut(spec.strategy, r + [x]).Malformed? ||
            (NextCut(spec.strategy, r + [x]).Stop? && |r + [x]| > spec.maxBuffer)
  {
    var w := r + [x];
    assert w[|w|..] == [];
    if NextCut(spec.strategy, w).Emit? {
      CutTakesAll(spec.strategy, r, x);
      DrainedEmits(spec.strategy, w);
      EmptyIsStop(spec.strategy);
      assert false;
    }
    hide NextCut;
  }

  /** One more byte in the same chunk changes the flushed frame, unless it is a one-byte
      delimiter that is stripped off. */
  lemma FlushGrows(spec: FramingSpec, r: Bytes, x: byte, y: byte)
    requires spec.strategy.WellFormed() && Settled(spec, r) && Forced(Pushed(spec, r, [x]).out)
    ensures var o := Pushed(spec, r, [x, y]);
            && |o.out| == 1
            && (o.out[0].frame != r + [x] || (spec.strategy == Delimiter([y], false) && o.rest == []))
  {
    var st, w := spec.strategy, r + [x];
    FirstFlush(spec, r, x);
    assert r + [x, y] == w + [y];
    if NextCut(st, w).Malformed? {
      CutStable(st, w, [y]);
    } else if NextCut(st, w + [y]).Emit? {
      CutTakesAll(st, w, y);
      var c := NextCut(st, w + [y]);
      DrainedEmits(st, w + [y]);
      EmptyIsStop(st);
      assert (w + [y])[|w + [y]|..] == [];
      if c.frame == w {
        StrippedIsDelimiter(st, w + [y]);
        assert c.stripped == (w + [y])[|w|..] == [y];
      }
    }
  }

  lemma StrippedIsDelimiter(st: Strategy, buf: Bytes)
    requires NextCut(st, buf).Emit? && NextCut(st, buf).stripped != []
    ensures st == Delimiter(NextCut(st, buf).stripped, false)
  {
  }

  /** A lone stripped delimiter is an empty frame of its own. */
  lemma LoneDelimiter(spec: FramingSpec, y: byte)
    requires spec.strategy == Delimiter([y], false)
    ensures Pushed(spec, [], [y]) == Outcome([Emission([], [y], Boundary)], [])
  {
    var st, s: Bytes := spec.strategy, [y];
    assert [] + s == s;
    assert OccursAt(s, [y], 0);
    assert FindSubslice(s, [y]) == Some(0);
    assert NextCut(st, s) == Emit([], [y]);
    DrainedEmits(st, s);
    EmptyIsStop(st);
    assert s[1..] == [];
  }

  lemma PushFirst(spec: FramingSpec, buf: Bytes, c: Bytes, more: seq<Bytes>)
    requires spec.strategy.WellFormed()
    ensures var first := Pushed(spec, buf, c);
            PushAll(spec, buf, [c] + more) == PushAll(spec, first.rest, more).After(first.out)
  {
    assert ([c] + more)[1..] == more;
  }

  /** The framer tells two chunkings apart: by frames or by what it keeps. */
  ghost predicate ToldApart(spec: FramingSpec, buf: Bytes, c1: seq<Bytes>, c2: seq<Bytes>)
    requires spec.strategy.WellFormed()
  {
    || Frames(PushAll(spec, buf, c1).out) != Frames(PushAll(spec, buf, c2).out)
    || PushAll(spec, buf, c1).rest != PushAll(spec, buf, c2).rest
  }

  lemma FramesDiffer(p: seq<Emission>, a: seq<Emission>, b: seq<Emission>)
    requires |a| != |b| || (a != [] && a[0].frame != b[0].frame)
    ensures Frames(p + a) != Frames(p + b)
  {
    if |a| == |b| {
      assert Frames(p + a)[|p|] == a[0].frame && Frames(p + b)[|p|] == b[0].frame;
    } else {
      assert |Frames(p + a)| != |Frames(p + b)|;
    }
  }

  /** If the byte `x` behind some chunks forces a flush, and `y` follows, then cutting between
      the two and keeping them together give different frames, whatever chunks come after. */
  lemma FlushTellsApart(spec: FramingSpec, buf: Bytes, early: seq<Bytes>, x: byte, y: byte, late: seq<Bytes>)
    requires spec.strategy.WellFormed() && Settled(spec, PushAll(spec, buf, early).rest)
    requires Forced(Pushed(spec, PushAll(spec, buf, early).rest, [x]).out)
    ensures Frames(PushAll(spec, buf, early + ([[x]] + ([[y]] + late))).out) !=
            Frames(PushAll(spec, buf, early + ([[x, y]] + late)).out)
  {
    hide Pushed, Settled, PushAll, Frames;
    var o := PushAll(spec, buf, early);
    PushAllAppend(spec, buf, early, [[x]] + ([[y]] + late));
    PushAllAppend(spec, buf, early, [[x, y]] + late);
    FirstFlush(spec, o.rest, x);
    FlushGrows(spec, o.rest, x, y);
    var a, b, l := Pushed(spec, o.rest, [x]), Pushed(spec, o.rest, [x, y]), Pushed(spec, [], [y]);
    PushFirst(spec, o.rest, [x], [[y]] + late);
    PushFirst(spec, [], [y], late);
    PushFirst(spec, o.rest, [x, y], late);
    assert |a.out| == |Frames(a.out)| == 1 && a.out[0].frame == Frames(a.out)[0] == o.rest + [x];
    if b.out[0].frame == o.rest + [x] {
      LoneDelimiter(spec, y);
    }
    FramesDiffer(o.out, a.out + (l.out + PushAll(spec, l.rest, late).out), b.out + PushAll(spec, b.rest, late).out);
  }

  predicate ShortChunks(chunks: seq<Bytes>) {
    forall i :: 0 <= i < |chunks| ==> 1 <= |chunks[i]| <= 2
  }

  /** Chunks of at most two bytes are enough to tell, and the frames alone differ. */
  lemma LoudInsideTellsApart(spec: FramingSpec, buf: Bytes, stream: Bytes) returns (c1: seq<Bytes>, c2: seq<Bytes>)
    requires spec.strategy.WellFormed() && Settled(spec, buf) && !QuietInside(spec, buf, stream)
    ensures Flatten(c1) == stream == Flatten(c2) && ShortChunks(c1) && ShortChunks(c2)
    ensures Frames(PushAll(spec, buf, c1).out) != Frames(PushAll(spec, buf, c2).out)
  {
    hide Pushed, Forced, Settled, Flatten, PushAll;
    EmptyPush(spec, buf);
    NothingForced();
    assert stream[..0] == [];
    var k: nat := 0;
    while !Forced(Pushed(spec, buf, stream[..k + 1]).out)
      invariant k + 1 < |stream|
      invariant forall j :: 0 <= j <= k ==> !Forced(Pushed(spec, buf, stream[..j]).out)
      decreases |stream| - k
    {
      k := k + 1;
    }
    var p, x, y, z := stream[..k], stream[k], stream[k + 1], stream[k + 2..];
    var early, late := Singletons(p), Singletons(z);
    forall j | 0 <= j < k
      ensures p[..j] == stream[..j]
    {
    }
    FlattenSingletons(p);
    FlattenSingletons(z);
    QuietInsideRun(spec, buf, early);
    PushAllSettles(spec, buf, early);
    assert stream[..k + 1] == p + [x];
    PushFusion(spec, buf, p, [x]);
    ForcedAppend(Pushed(spec, buf, p).out, Pushed(spec, Pushed(spec, buf, p).rest, [x]).out);
    FlushTellsApart(spec, buf, early, x, y, late);
    c1, c2 := early + ([[x]] + ([[y]] + late)), early + ([[x, y]] + late);
    FlattenTwoCuts(early, x, y, late);
    assert stream == p + ([x, y] + z);
  }

  lemma FlattenTwoCuts(early: seq<Bytes>, x: byte, y: byte, late: seq<Bytes>)
    ensures Flatten(early + ([[x]] + ([[y]] + late))) == Flatten(early) + ([x, y] + Flatten(late))
    ensures Flatten(early + ([[x, y]] + late)) == Flatten(early) + ([x, y] + Flatten(late))
  {
    FlattenAppend(early, [[x]] + ([[y]] + late));
    FlattenAppend(early, [[x, y]] + late);
    FlattenFirst([y], late);
    FlattenFirst([x], [[y]] + late);
    FlattenFirst([x, y], late);
    hide Flatten;
    assert [x] + ([y] + Flatten(late)) == [x, y] + Flatten(late);
  }

  lemma FlattenFirst(c: Bytes, more: seq<Bytes>)
    ensures Flatten([c] + more) == c + Flatten(more)
  {
    assert ([c] + more)[1..] == more;
  }

  lemma NothingForced()
    ensures !Forced([])
  {
  }

  /** Frames and residue do not depend on the chunks if and only if no proper prefix of the
      stream forces a flush. */
  lemma ChunkingIsIrrelevant(spec: FramingSpec, buf: Bytes, stream: Bytes)
    requires spec.strategy.WellFormed() && Settled(spec, buf)
    ensures QuietInside(spec, buf, stream) <==>
            forall c1, c2 | Flatten(c1) == stream == Flatten(c2) :: !ToldApart(spec, buf, c1, c2)
  {
    if QuietInside(spec, buf, stream) {
      forall c1, c2 | Flatten(c1) == stream == Flatten(c2)
        ensures !ToldApart(spec, buf, c1, c2)
      {
        QuietInsideRun(spec, buf, c1);
        QuietInsideRun(spec, buf, c2);
      }
    } else {
      var c1, c2 := LoudInsideTellsApart(spec, buf, stream);
    }
  }

  // ---- Fixed-length framing is quiet on every stream ----

  lemma {:induction false} FixedDrain(st: Strategy, buf: Bytes)
    requires st.Fixed? && st.WellFormed()
    ensures !Forced(Drained(st, buf).out) && |Drained(st, buf).rest| < st.len
    decreases |buf|
  {
    if |buf| >= st.len {
      DrainedEmits(st, buf);
      FixedDrain(st, buf[st.len..]);
      ForcedAppend([Emission(buf[..st.len], [], Boundary)], Drained(st, buf[st.len..]).out);
    }
  }

  /** The bound that `from_config` picks puts the backstop out of reach, from any buffer. */
  lemma FixedNeverForces(cfg: FramingConfig, buf: Bytes, stream: Bytes)
    requires cfg.FixedConfig? && Validate(cfg).Ok?
    ensures Quiet(FromConfig(Some(cfg)), buf, stream)
  {
    var spec := FromConfig(Some(cfg));
    forall k | 0 <= k <= |stream|
      ensures !Forced(Pushed(spec, buf, stream[..k]).out)
    {
      FixedDrain(spec.strategy, buf + stream[..k]);
    }
  }

  // ---- Conservation across changes of strategy ----

  /** One call of the framer, each with the specification that was current when it was made. */
  datatype Call = PushCall(spec: FramingSpec, chunk: Bytes) | IdleCall(spec: FramingSpec) {
    function Input(): Bytes {
      if PushCall? then chunk else []
    }
  }

  function Called(buf: Bytes, call: Call): Outcome
    requires call.spec.strategy.WellFormed()
  {
    match call
    case PushCall(spec, chunk) => Pushed(spec, buf, chunk)
    case IdleCall(spec) => Idled(spec, buf)
  }

  ghost predicate AllWellFormed(calls: seq<Call>) {
    forall i :: 0 <= i < |calls| ==> calls[i].spec.strategy.WellFormed()
  }

  function CallAll(buf: Bytes, calls: seq<Call>): Outcome
    requires AllWellFormed(calls)
    decreases |calls|
  {
    if calls == [] then Outcome([], buf)
    else
      var first := Called(buf, calls[0]);
      CallAll(first.rest, calls[1..]).After(first.out)
  }

  lemma {:induction false} CallAllAppend(buf: Bytes, a: seq<Call>, b: seq<Call>)
    requires AllWellFormed(a) && AllWellFormed(b)
    ensures AllWellFormed(a + b)
    ensures var first := CallAll(buf, a); CallAll(buf, a + b) == CallAll(first.rest, b).After(first.out)
    decreases |a|
  {
    hide Called;
    if a == [] {
      assert a + b == b;
      AfterAfter(CallAll(buf, b), [], []);
    } else {
      var head := Called(buf, a[0]);
      var mid := CallAll(head.rest, a[1..]);
      assert (a + b)[1..] == a[1..] + b;
      CallAllAppend(head.rest, a[1..], b);
      AfterAfter(CallAll(mid.rest, b), head.out, mid.out);
    }
  }

  /** One push for each chunk. */
  function Pushes(spec: FramingSpec, chunks: seq<Bytes>): (calls: seq<Call>)
    ensures |calls| == |chunks|
    ensures forall i :: 0 <= i < |calls| ==> calls[i] == PushCall(spec, chunks[i])
  {
    seq(|chunks|, i requires 0 <= i < |chunks| => PushCall(spec, chunks[i]))
  }

  lemma {:induction false} PushesPush(spec: FramingSpec, buf: Bytes, chunks: seq<Bytes>)
    requires spec.strategy.WellFormed()
    ensures CallAll(buf, Pushes(spec, chunks)) == PushAll(spec, buf, chunks)
    decreases |chunks|
  {
    hide Pushed;
    if chunks != [] {
      assert Pushes(spec, chunks)[1..] == Pushes(spec, chunks[1..]);
      PushesPush(spec, Pushed(spec, buf, chunks[0]).rest, chunks[1..]);
    }
  }

  function Inputs(calls: seq<Call>): Bytes {
    if calls == [] then [] else calls[0].Input() + Inputs(calls[1..])
  }

  /** What one emission may look like when it was made under `spec`. */
  predicate Shaped(spec: FramingSpec, e: Emission) {
    && (e.stripped != [] ==> e.cause == Boundary && spec.strategy == Delimiter(e.stripped, false))
    && (e.frame == [] ==> e.stripped != [])
    && (e.cause == Backstop ==> |e.frame| > spec.maxBuffer && NextCut(spec.strategy, e.frame).Stop?)
    && (e.cause == MalformedLength ==> NextCut(spec.strategy, e.frame).Malformed?)
    && (e.cause == Boundary ==> NextCut(spec.strategy, e.Wire()) == Emit(e.frame, e.stripped))
    && (e.cause == Idle ==> spec.strategy.IdleTimeout?)
  }

  predicate AllShaped(spec: FramingSpec, out: seq<Emission>) {
    forall i :: 0 <= i < |out| ==> Shaped(spec, out[i])
  }

  lemma WiresAppend(a: seq<Emission>, b: seq<Emission>)
    ensures Flatten(Wires(a + b)) == Flatten(Wires(a)) + Flatten(Wires(b))
  {
    assert Wires(a + b) == Wires(a) + Wires(b);
    FlattenAppend(Wires(a), Wires(b));
  }

  lemma WireOfOne(e: Emission)
    ensures Flatten(Wires([e])) == e.Wire()
  {
    assert Wires([e]) == [] + [e.Wire()];
    FlattenSnoc([], e.Wire());
  }

  lemma DelimiterCutOfWire(d: Bytes, inclusive: bool, buf: Bytes)
    requires NextCut(Delimiter(d, inclusive), buf).Emit?
    ensures var st := Delimiter(d, inclusive); NextCut(st, NextCut(st, buf).Wire()) == NextCut(st, buf)
  {
    var pos := FindSubslice(buf, d).value;
    var w := NextCut(Delimiter(d, inclusive), buf).Wire();
    assert w == buf[..pos + |d|] && w[pos..pos + |d|] == d;
    assert OccursAt(w, d, pos);
    forall j: nat | j < pos
      ensures !OccursAt(w, d, j)
    {
      assert w[j..j + |d|] == buf[j..j + |d|];
      assert !OccursAt(buf, d, j);
    }
    assert w[..pos] == buf[..pos];
    assert w[..pos + |d|] == w;
  }

  /** A cut looks at nothing beyond the stretch it takes away. */
  lemma CutOfWire(st: Strategy, buf: Bytes)
    requires NextCut(st, buf).Emit?
    ensures NextCut(st, NextCut(st, buf).Wire()) == NextCut(st, buf)
  {
    var w := NextCut(st, buf).Wire();
    match st
    case Delimiter(d, inclusive) =>
      DelimiterCutOfWire(d, inclusive, buf);
    case Fixed(len) =>
      assert w[..len] == w;
    case LengthPrefixed(_, off, size, _, _, _) =>
      assert w[off..off + size] == buf[off..off + size];
      assert w[..|w|] == w;
  }

  lemma CutShape(spec: FramingSpec, buf: Bytes)
    requires spec.strategy.WellFormed() && NextCut(spec.strategy, buf).Emit?
    ensures var c := NextCut(spec.strategy, buf); Shaped(spec, Emission(c.frame, c.stripped, Boundary))
  {
    CutOfWire(spec.strategy, buf);
  }

  /** The outcome uses up exactly `input`. */
  predicate Accounts(o: Outcome, input: Bytes) {
    Flatten(Wires(o.out)) + o.rest == input
  }

  lemma AccountsAfter(earlier: Outcome, input: Bytes, later: Outcome, more: Bytes)
    requires Accounts(earlier, input) && Accounts(later, earlier.rest + more)
    ensures Accounts(later.After(earlier.out), input + more)
  {
    WiresAppend(earlier.out, later.out);
    var a, b := Flatten(Wires(earlier.out)), Flatten(Wires(later.out));
    calc {
      (a + b) + later.rest;
      a + (b + later.rest);
      a + (earlier.rest + more);
      (a + earlier.rest) + more;
      input + more;
    }
  }

  lemma OneAccounts(e: Emission)
    ensures Accounts(Outcome([e], []), e.Wire())
  {
    WireOfOne(e);
  }

  lemma NothingAccounts(buf: Bytes)
    ensures Accounts(Outcome([], buf), buf + [])
  {
  }

  lemma OneCutConserves(spec: FramingSpec, buf: Bytes)
    requires spec.strategy.WellFormed() && NextCut(spec.strategy, buf).Emit?
    ensures 0 < |NextCut(spec.strategy, buf).Wire()| <= |buf|
    ensures var later := buf[|NextCut(spec.strategy, buf).Wire()|..];
            Accounts(Drained(spec.strategy, later), later) && AllShaped(spec, Drained(spec.strategy, later).out) ==>
              Accounts(Drained(spec.strategy, buf), buf) && AllShaped(spec, Drained(spec.strategy, buf).out)
  {
    hide NextCut, Shaped, Accounts, Drained;
    var c := NextCut(spec.strategy, buf);
    var e, n := Emission(c.frame, c.stripped, Boundary), |c.Wire()|;
    DrainedEmits(spec.strategy, buf);
    var o := Drained(spec.strategy, buf[n..]);
    if Accounts(o, buf[n..]) && AllShaped(spec, o.out) {
      CutShape(spec, buf);
      OneAccounts(e);
      assert e.Wire() == buf[..n] && [] + buf[n..] == buf[n..] && buf[..n] + buf[n..] == buf;
      AccountsAfter(Outcome([e], []), buf[..n], o, buf[n..]);
    }
  }

  lemma {:induction false} DrainedConserves(spec: FramingSpec, buf: Bytes)
    requires spec.strategy.WellFormed()
    ensures Accounts(Drained(spec.strategy, buf), buf)
    ensures AllShaped(spec, Drained(spec.strategy, buf).out)
    decreases |buf|
  {
    hide NextCut, Shaped, Accounts;
    var c := NextCut(spec.strategy, buf);
    if c.Stop? {
      NothingAccounts(buf);
      assert buf + [] == buf;
    } else if c.Malformed? {
      MalformedShape(spec, buf);
    } else {
      OneCutConserves(spec, buf);
      DrainedConserves(spec, buf[|c.Wire()|..]);
    }
  }

  lemma MalformedShape(spec: FramingSpec, buf: Bytes)
    requires spec.strategy.WellFormed() && NextCut(spec.strategy, buf).Malformed?
    ensures var o := Drained(spec.strategy, buf); Accounts(o, buf) && AllShaped(spec, o.out)
  {
    WireOfOne(Emission(buf, [], MalformedLength));
  }

  lemma CallConserves(buf: Bytes, call: Call)
    requires call.spec.strategy.WellFormed()
    ensures Accounts(Called(buf, call), buf + call.Input())
    ensures AllShaped(call.spec, Called(buf, call).out)
  {
    match call
    case PushCall(spec, chunk) =>
      DrainedConserves(spec, buf + chunk);
      DrainedRestStops(spec.strategy, buf + chunk);
      var o := Drained(spec.strategy, buf + chunk);
      var last := Emission(o.rest, [], Backstop);
      WireOfOne(last);
      WiresAppend(o.out, [last]);
    case IdleCall(_) =>
      WireOfOne(Emission(buf, [], Idle));
  }

  /** No byte is lost, duplicated or reordered, whatever strategies the calls use: the input is
      the emitted stretches in order followed by the buffer. A stretch is longer than its frame
      only by the delimiter of a stripping strategy in use, and only then may a frame be empty. */
  lemma {:induction false} CallsConserve(buf: Bytes, calls: seq<Call>)
    requires AllWellFormed(calls)
    ensures Accounts(CallAll(buf, calls), buf + Inputs(calls))
    ensures forall e | e in CallAll(buf, calls).out ::
              exists i :: 0 <= i < |calls| && Shaped(calls[i].spec, e)
    decreases |calls|
  {
    hide Called, Shaped, Accounts;
    if calls == [] {
      NothingAccounts(buf);
    } else {
      var first := Called(buf, calls[0]);
      var later := CallAll(first.rest, calls[1..]);
      CallConserves(buf, calls[0]);
      CallsConserve(first.rest, calls[1..]);
      AccountsAfter(first, buf + calls[0].Input(), later, Inputs(calls[1..]));
      assert (buf + calls[0].Input()) + Inputs(calls[1..]) == buf + Inputs(calls);
      forall e | e in CallAll(buf, calls).out
        ensures exists i :: 0 <= i < |calls| && Shaped(calls[i].spec, e)
      {
        if e in first.out {
          assert Shaped(calls[0].spec, e);
        } else {
          var i :| 0 <= i < |calls[1..]| && Shaped(calls[1..][i].spec, e);
          assert Shaped(calls[i + 1].spec, e);
        }
      }
    }
  }

  // ---- What validation buys ----

  /** Validation accepts exactly the configurations whose strategy is well formed (and whose
      quiet period is not zero), and an absent configuration needs no validation. */
  lemma ValidateIsExact(cfg: FramingConfig)
    ensures Validate(cfg).Ok? <==>
            FromConfig(Some(cfg)).strategy.WellFormed() && FromConfig(Some(cfg)).idle != Some(0)
    ensures FromConfig(None).strategy.WellFormed()
    ensures FromConfig(Some(cfg)).idle.Some? <==> FromConfig(Some(cfg)).strategy.IdleTimeout?
    ensures Validate(cfg) == Err(EmptyDelimiter) <==> cfg.DelimiterConfig? && cfg.delimiter == []
    ensures Validate(cfg) == Err(ZeroLength) <==> cfg == FixedConfig(0)
    ensures Validate(cfg) == Err(ZeroQuiet) <==> cfg == IdleTimeoutConfig(0)
    ensures forall n :: Validate(cfg) == Err(BadLengthSize(n)) <==>
              cfg.LengthPrefixedConfig? && n == cfg.lengthSize && n !in {1, 2, 4}
  {
  }

  /** Every cut shortens the buffer, so that the drain loops end, except for a fixed length of
      zero, which would cut empty frames for ever. */
  lemma ProgressExactly(st: Strategy)
    ensures (forall buf :: NextCut(st, buf).Emit? ==> NextCut(st, buf).Wire() != [])
            <==> st != Fixed(0)
  {
    assert NextCut(Fixed(0), []).Emit?;
    assert NextCut(Fixed(0), []).Wire() == [];
  }
}
