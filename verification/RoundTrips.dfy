/** Streams that are made of whole frames: which byte strings are one frame on the wire, how a
    concatenation of them comes back under every chunking, the sharp bound on their size, and
    what happens at the first malformed length. */
module RoundTrips {
  import opened Common
  import opened Framing
  import opened Chunking

  /** `w` is exactly one frame on the wire, delimiter included. */
  predicate IsUnit(st: Strategy, w: Bytes) {
    NextCut(st, w).Emit? && NextCut(st, w).Wire() == w
  }

  predicate AllUnits(st: Strategy, units: seq<Bytes>) {
    forall i :: 0 <= i < |units| ==> IsUnit(st, units[i])
  }

  function UnitEmission(st: Strategy, w: Bytes): (e: Emission)
    requires IsUnit(st, w)
    ensures e.Wire() == w && e.cause == Boundary
  {
    Emission(NextCut(st, w).frame, NextCut(st, w).stripped, Boundary)
  }

  function UnitEmissions(st: Strategy, units: seq<Bytes>): (out: seq<Emission>)
    requires AllUnits(st, units)
    ensures |out| == |units|
    ensures forall i :: 0 <= i < |units| ==> out[i] == UnitEmission(st, units[i])
  {
    seq(|units|, i requires 0 <= i < |units| => UnitEmission(st, units[i]))
  }

  lemma UnitEmissionsAppend(st: Strategy, a: seq<Bytes>, b: seq<Bytes>)
    requires AllUnits(st, a) && AllUnits(st, b)
    ensures AllUnits(st, a + b)
    ensures UnitEmissions(st, a + b) == UnitEmissions(st, a) + UnitEmissions(st, b)
  {
  }

  lemma UnitEmissionsUnforced(st: Strategy, units: seq<Bytes>)
    requires AllUnits(st, units)
    ensures !Forced(UnitEmissions(st, units)) && Wires(UnitEmissions(st, units)) == units
  {
  }

  // ---- Draining a concatenation of units ----

  lemma FirstUnit(st: Strategy, w: Bytes, tail: Bytes)
    requires st.WellFormed() && IsUnit(st, w)
    ensures w != [] && Drained(st, w + tail) == Drained(st, tail).After([UnitEmission(st, w)])
  {
    hide NextCut;
    CutStable(st, w, tail);
    DrainedEmits(st, w + tail);
    assert (w + tail)[|w|..] == tail;
  }

  lemma {:induction false} UnitsDrain(st: Strategy, units: seq<Bytes>, tail: Bytes)
    requires st.WellFormed() && AllUnits(st, units)
    ensures Drained(st, Flatten(units) + tail) == Drained(st, tail).After(UnitEmissions(st, units))
    decreases |units|
  {
    hide NextCut, Drained, IsUnit;
    if units == [] {
      assert [] + tail == tail;
      AfterAfter(Drained(st, tail), [], []);
    } else {
      var later := Flatten(units[1..]);
      assert Flatten(units) + tail == units[0] + (later + tail);
      FirstUnit(st, units[0], later + tail);
      UnitsDrain(st, units[1..], tail);
      var e, es := UnitEmission(st, units[0]), UnitEmissions(st, units[1..]);
      AfterAfter(Drained(st, tail), [e], es);
      assert UnitEmissions(st, units) == [e] + es;
    }
  }

  /** A reference definition of framing that does not mention the algorithm: the drained
      frames are the only way to write the stream as whole units followed by a residue in which
      nothing can be cut. */
  lemma DrainIsTheDecomposition(st: Strategy, stream: Bytes, units: seq<Bytes>, rest: Bytes)
    requires st.WellFormed() && AllUnits(st, units)
    ensures stream == Flatten(units) + rest && NextCut(st, rest).Stop?
            <==> Drained(st, stream) == Outcome(UnitEmissions(st, units), rest)
  {
    UnitEmissionsUnforced(st, units);
    var es := UnitEmissions(st, units);
    if stream == Flatten(units) + rest && NextCut(st, rest).Stop? {
      UnitsDrain(st, units, rest);
      assert es + [] == es;
    }
    if Drained(st, stream) == Outcome(es, rest) {
      DrainedConserves(FramingSpec(st, 0, None), stream);
      DrainedRestStops(st, stream);
    }
  }

  /** Such a decomposition exists unless the stream runs into a malformed length. */
  lemma DecompositionExists(st: Strategy, stream: Bytes)
    requires st.WellFormed() && !Forced(Drained(st, stream).out)
    ensures AllUnits(st, Wires(Drained(st, stream).out))
    ensures Drained(st, stream).out == UnitEmissions(st, Wires(Drained(st, stream).out))
  {
    hide NextCut, Drained, UnitEmission;
    var spec := FramingSpec(st, 0, None);
    var out := Drained(st, stream).out;
    DrainedConserves(spec, stream);
    forall i | 0 <= i < |out|
      ensures IsUnit(st, Wires(out)[i]) && out[i] == UnitEmission(st, Wires(out)[i])
    {
      assert Shaped(spec, out[i]) && out[i].cause == Boundary;
      WireIsUnit(st, out[i]);
    }
  }

  lemma WireIsUnit(st: Strategy, e: Emission)
    requires NextCut(st, e.Wire()) == Emit(e.frame, e.stripped) && e.cause == Boundary
    ensures IsUnit(st, e.Wire()) && UnitEmission(st, e.Wire()) == e
  {
  }

  // ---- Round trips under every chunking ----

  predicate FitBackstop(spec: FramingSpec, units: seq<Bytes>) {
    forall i :: 0 <= i < |units| ==> |units[i]| <= spec.maxBuffer + 1
  }

  lemma PartOfUnitStops(st: Strategy, w: Bytes, k: nat)
    requires IsUnit(st, w) && k < |w|
    ensures NextCut(st, w[..k]).Stop?
  {
    hide NextCut;
    assert w[..k] + w[k..] == w;
    if !NextCut(st, w[..k]).Stop? {
      CutStable(st, w[..k], w[k..]);
      assert false;
    }
  }

  /** Nothing can be cut from fewer than `need` bytes of `m`, and so few fit the buffer. */
  predicate StopsBefore(spec: FramingSpec, m: Bytes, need: nat) {
    && 0 < need <= spec.maxBuffer + 1
    && forall j :: 0 <= j < need && j <= |m| ==> NextCut(spec.strategy, m[..j]).Stop?
  }

  lemma StopDrains(st: Strategy, x: Bytes)
    requires st.WellFormed() && NextCut(st, x).Stop?
    ensures Flatten<byte>([]) + x == x
    ensures Drained(st, x) == Outcome(UnitEmissions(st, []), x)
  {
  }

  lemma UnitEmissionsOfOne(st: Strategy, w: Bytes)
    requires IsUnit(st, w)
    ensures UnitEmissions(st, [w]) == [UnitEmission(st, w)]
  {
  }

  lemma PrefixStep(st: Strategy, w: Bytes, later: seq<Bytes>, r: Bytes, x: Bytes)
    requires st.WellFormed() && IsUnit(st, w) && AllUnits(st, later)
    requires x == Flatten(later) + r && Drained(st, x) == Outcome(UnitEmissions(st, later), r)
    ensures AllUnits(st, [w] + later)
    ensures w + x == Flatten([w] + later) + r
    ensures Drained(st, w + x) == Outcome(UnitEmissions(st, [w] + later), r)
  {
    hide NextCut, Drained, IsUnit, UnitEmissions;
    FirstUnit(st, w, x);
    UnitEmissionsOfOne(st, w);
    UnitEmissionsAppend(st, [w], later);
    assert ([w] + later)[1..] == later;
    assert (w + Flatten(later)) + r == w + x;
  }

  /** A prefix `x` of `units + m` that ends before the `need`-th byte of `m` drains to the
      first `i` units, with a residue that fits the buffer. */
  lemma {:induction false} PrefixDrains(spec: FramingSpec, units: seq<Bytes>, m: Bytes, need: nat, x: Bytes)
      returns (i: nat, r: Bytes)
    requires spec.strategy.WellFormed() && AllUnits(spec.strategy, units) && FitBackstop(spec, units)
    requires StopsBefore(spec, m, need)
    requires x <= Flatten(units) + m && |x| < |Flatten(units)| + need
    ensures i <= |units| && x == Flatten(units[..i]) + r && |r| <= spec.maxBuffer
    ensures Drained(spec.strategy, x) == Outcome(UnitEmissions(spec.strategy, units[..i]), r)
    decreases |units|
  {
    hide NextCut, Drained, IsUnit, UnitEmissions;
    var st := spec.strategy;
    if units == [] {
      i, r := 0, x;
      assert x == m[..|x|];
      StopDrains(st, x);
    } else {
      var w, later := units[0], Flatten(units[1..]);
      var all := Flatten(units) + m;
      assert all == w + (later + m);
      if |x| < |w| {
        i, r := 0, x;
        assert x == w[..|x|];
        PartOfUnitStops(st, w, |x|);
        StopDrains(st, x);
      } else {
        var x' := x[|w|..];
        assert x == w + x' && x' == (later + m)[..|x'|];
        var j;
        j, r := PrefixDrains(spec, units[1..], m, need, x');
        i := j + 1;
        assert units[..i] == [w] + units[1..][..j];
        PrefixStep(st, w, units[1..][..j], r, x');
      }
    }
  }

  lemma QuietWhenUnitsFit(spec: FramingSpec, buf: Bytes, stream: Bytes, units: seq<Bytes>, rest: Bytes)
    requires spec.strategy.WellFormed() && AllUnits(spec.strategy, units) && FitBackstop(spec, units)
    requires Settled(spec, rest) && buf + stream == Flatten(units) + rest
    ensures Quiet(spec, buf, stream)
  {
    hide NextCut, Drained;
    forall j | 0 <= j <= |rest|
      ensures NextCut(spec.strategy, rest[..j]).Stop?
    {
      assert rest[..j] + rest[j..] == rest;
      if !NextCut(spec.strategy, rest[..j]).Stop? {
        CutStable(spec.strategy, rest[..j], rest[j..]);
        assert false;
      }
    }
    forall k | 0 <= k <= |stream|
      ensures !Forced(Pushed(spec, buf, stream[..k]).out)
    {
      var x := buf + stream[..k];
      assert x == (buf + stream)[..|x|];
      var i, r := PrefixDrains(spec, units, rest, |rest| + 1, x);
      UnitEmissionsUnforced(spec.strategy, units[..i]);
      PushUnforced(spec, buf, stream[..k]);
    }
  }

  lemma UnitsAreQuiet(spec: FramingSpec, units: seq<Bytes>)
    requires spec.strategy.WellFormed() && AllUnits(spec.strategy, units) && FitBackstop(spec, units)
    ensures Quiet(spec, [], Flatten(units))
  {
    EmptyIsStop(spec.strategy);
    assert [] + Flatten(units) == Flatten(units) + [];
    QuietWhenUnitsFit(spec, [], Flatten(units), units, []);
  }

  /** Units that fit come back one by one, with nothing left over, however they are chunked. */
  lemma RoundTrip(spec: FramingSpec, units: seq<Bytes>, chunks: seq<Bytes>)
    requires spec.strategy.WellFormed() && AllUnits(spec.strategy, units) && FitBackstop(spec, units)
    requires Flatten(chunks) == Flatten(units)
    ensures PushAll(spec, [], chunks) == Outcome(UnitEmissions(spec.strategy, units), [])
  {
    hide NextCut, Drained, IsUnit, UnitEmissions, Flatten;
    EmptyIsStop(spec.strategy);
    UnitsAreQuiet(spec, units);
    QuietRun(spec, [], chunks);
    assert [] + Flatten(units) == Flatten(units) + [];
    DrainIsTheDecomposition(spec.strategy, Flatten(units), units, []);
  }

  /** One unit above the bound makes the stream loud: the backstop fires inside that unit. */
  lemma TooLongIsLoud(spec: FramingSpec, buf: Bytes, stream: Bytes, units: seq<Bytes>, rest: Bytes, i: nat)
    requires spec.strategy.WellFormed() && AllUnits(spec.strategy, units) && |buf| <= spec.maxBuffer
    requires buf + stream == Flatten(units) + rest
    requires i < |units| && |units[i]| > spec.maxBuffer + 1
    ensures !Quiet(spec, buf, stream)
  {
    hide NextCut, IsUnit, Flatten, Drained, UnitEmissions;
    var st, early := spec.strategy, Flatten(units[..i]);
    var part := units[i][..spec.maxBuffer + 1];
    UnitInside(units, i, rest, |part|);
    var k := |early| + |part| - |buf|;
    assert buf + stream[..k] == (buf + stream)[..|early| + |part|];
    UnitsDrain(st, units[..i], part);
    PartOfUnitStops(st, units[i], |part|);
    StopDrains(st, part);
    assert Drained(st, buf + stream[..k]).rest == part;
    PushUnforced(spec, buf, stream[..k]);
  }

  lemma UnitInside(units: seq<Bytes>, i: nat, rest: Bytes, n: nat)
    requires i < |units| && n <= |units[i]|
    ensures |Flatten(units[..i])| + n <= |Flatten(units) + rest|
    ensures (Flatten(units) + rest)[..|Flatten(units[..i])| + n] == Flatten(units[..i]) + units[i][..n]
  {
    assert units == units[..i] + ([units[i]] + units[i + 1..]);
    FlattenAppend(units[..i], [units[i]] + units[i + 1..]);
    assert ([units[i]] + units[i + 1..])[1..] == units[i + 1..];
    assert Flatten([units[i]] + units[i + 1..]) == units[i] + Flatten(units[i + 1..]);
  }

  /** Quietness needs no look at prefixes: drain the whole stream once, and see that no length
      was malformed, no frame took more than `max_buffer + 1` bytes off the wire, and no more
      than `max_buffer` bytes are left. */
  lemma QuietExactly(spec: FramingSpec, buf: Bytes, stream: Bytes)
    requires spec.strategy.WellFormed() && Settled(spec, buf)
    ensures var o := Drained(spec.strategy, buf + stream);
            Quiet(spec, buf, stream) <==>
            !Forced(o.out) && FitBackstop(spec, Wires(o.out)) && |o.rest| <= spec.maxBuffer
  {
    hide NextCut, Drained, AllUnits;
    var st := spec.strategy;
    var o := Drained(st, buf + stream);
    assert stream[..|stream|] == stream;
    PushUnforced(spec, buf, stream);
    if !Forced(o.out) {
      DecompositionExists(st, buf + stream);
      DrainedConserves(spec, buf + stream);
      DrainedRestStops(st, buf + stream);
      if !FitBackstop(spec, Wires(o.out)) {
        var i :| 0 <= i < |o.out| && |Wires(o.out)[i]| > spec.maxBuffer + 1;
        TooLongIsLoud(spec, buf, stream, Wires(o.out), o.rest, i);
      } else if |o.rest| <= spec.maxBuffer {
        QuietWhenUnitsFit(spec, buf, stream, Wires(o.out), o.rest);
      }
    }
  }

  /** The whole condition for independence of the chunks, read off one drain: a nonempty stream
      gives the same frames and residue under every chunking if and only if all of it but the
      last byte drains without a malformed length, takes at most `max_buffer + 1` bytes off the
      wire for each frame and leaves at most `max_buffer`. */
  lemma IndependentExactly(spec: FramingSpec, buf: Bytes, stream: Bytes)
    requires spec.strategy.WellFormed() && Settled(spec, buf) && stream != []
    ensures var o := Drained(spec.strategy, buf + stream[..|stream| - 1]);
            (forall c1, c2 | Flatten(c1) == stream == Flatten(c2) :: !ToldApart(spec, buf, c1, c2)) <==>
            !Forced(o.out) && FitBackstop(spec, Wires(o.out)) && |o.rest| <= spec.maxBuffer
  {
    hide Drained, Forced, Settled, FitBackstop, Flatten, ToldApart, Pushed;
    var early := stream[..|stream| - 1];
    forall k | 0 <= k < |stream|
      ensures stream[..k] == early[..k]
    {
    }
    ChunkingIsIrrelevant(spec, buf, stream);
    QuietExactly(spec, buf, early);
  }

  lemma {:induction false} PushAllShaped(spec: FramingSpec, buf: Bytes, chunks: seq<Bytes>)
    requires spec.strategy.WellFormed()
    ensures Accounts(PushAll(spec, buf, chunks), buf + Flatten(chunks))
    ensures AllShaped(spec, PushAll(spec, buf, chunks).out)
    decreases |chunks|
  {
    hide Shaped, Accounts, Pushed;
    if chunks == [] {
      NothingAccounts(buf);
    } else {
      var first := Pushed(spec, buf, chunks[0]);
      CallConserves(buf, PushCall(spec, chunks[0]));
      PushAllShaped(spec, first.rest, chunks[1..]);
      AccountsAfter(first, buf + chunks[0], PushAll(spec, first.rest, chunks[1..]), Flatten(chunks[1..]));
      assert (buf + chunks[0]) + Flatten(chunks[1..]) == buf + Flatten(chunks);
    }
  }

  /** Of two emission lists with the same frames, the one that strips less covers less. */
  lemma {:induction false} StrippedLess(a: seq<Emission>, b: seq<Emission>)
    requires Frames(a) == Frames(b)
    requires forall i :: 0 <= i < |a| ==> |a[i].stripped| <= |b[i].stripped|
    ensures |Flatten(Wires(a))| <= |Flatten(Wires(b))|
    ensures (exists i :: 0 <= i < |a| && |a[i].stripped| < |b[i].stripped|) ==>
              |Flatten(Wires(a))| < |Flatten(Wires(b))|
  {
    assert |a| == |Frames(a)| == |Frames(b)| == |b|;
    if a != [] {
      assert Frames(a[1..]) == Frames(a)[1..] == Frames(b)[1..] == Frames(b[1..]);
      assert Wires(a)[1..] == Wires(a[1..]) && Wires(b)[1..] == Wires(b[1..]);
      assert a[0].frame == Frames(a)[0] == Frames(b)[0] == b[0].frame;
      StrippedLess(a[1..], b[1..]);
      if i :| 0 <= i < |a| && |a[i].stripped| < |b[i].stripped| {
        if i > 0 {
          assert a[1..][i - 1] == a[i] && b[1..][i - 1] == b[i];
        }
      }
    }
  }

  lemma UnitShape(spec: FramingSpec, w: Bytes)
    requires IsUnit(spec.strategy, w)
    ensures var e := UnitEmission(spec.strategy, w);
            if spec.strategy.Strips() then e.stripped == spec.strategy.delim else e.frame == w && e.stripped == []
  {
  }

  lemma ForcedShape(spec: FramingSpec, e: Emission, w: Bytes)
    requires Shaped(spec, e) && e.cause != Boundary && IsUnit(spec.strategy, w)
    ensures e.stripped == [] && e.frame != w
  {
  }

  lemma StrippedShape(spec: FramingSpec, e: Emission)
    requires spec.strategy.WellFormed() && spec.strategy.Strips() && Shaped(spec, e)
    ensures 0 < |spec.strategy.delim| && |e.stripped| <= |spec.strategy.delim|
  {
  }

  /** A forced flush never reproduces the frames of a stream of units. */
  lemma ForcedIsWrong(spec: FramingSpec, units: seq<Bytes>, chunks: seq<Bytes>)
    requires spec.strategy.WellFormed() && AllUnits(spec.strategy, units)
    requires Flatten(chunks) == Flatten(units) && Forced(PushAll(spec, [], chunks).out)
    ensures PushAll(spec, [], chunks).rest != [] ||
            Frames(PushAll(spec, [], chunks).out) != Frames(UnitEmissions(spec.strategy, units))
  {
    hide PushAll, Shaped, IsUnit, UnitEmission;
    var o, es := PushAll(spec, [], chunks), UnitEmissions(spec.strategy, units);
    if o.rest == [] && Frames(o.out) == Frames(es) {
      PushAllShaped(spec, [], chunks);
      UnitEmissionsUnforced(spec.strategy, units);
      assert |o.out| == |Frames(o.out)| == |es|;
      forall i | 0 <= i < |o.out|
        ensures o.out[i].frame == es[i].frame
      {
        assert Frames(o.out)[i] == Frames(es)[i];
      }
      var j :| 0 <= j < |o.out| && o.out[j].cause != Boundary;
      ForcedShape(spec, o.out[j], units[j]);
      UnitShape(spec, units[j]);
      if spec.strategy.Strips() {
        forall i | 0 <= i < |o.out|
          ensures |o.out[i].stripped| <= |es[i].stripped|
        {
          UnitShape(spec, units[i]);
          StrippedShape(spec, o.out[i]);
        }
        StrippedShape(spec, o.out[j]);
        StrippedLess(o.out, es);
      }
      assert false;
    }
  }

  /** These frames come out, and nothing is left, however the wire is cut into chunks. */
  ghost predicate ComesBack(spec: FramingSpec, wire: Bytes, frames: seq<Bytes>)
    requires spec.strategy.WellFormed()
  {
    forall chunks | Flatten(chunks) == wire ::
      PushAll(spec, [], chunks).rest == [] && Frames(PushAll(spec, [], chunks).out) == frames
  }

  /** The round trip holds for every chunking exactly when every unit has at most
      `max_buffer + 1` bytes. */
  lemma RoundTripExactly(spec: FramingSpec, units: seq<Bytes>)
    requires spec.strategy.WellFormed() && AllUnits(spec.strategy, units)
    ensures FitBackstop(spec, units) <==>
            ComesBack(spec, Flatten(units), Frames(UnitEmissions(spec.strategy, units)))
  {
    hide NextCut, Drained, IsUnit, AllUnits, UnitEmissions, Frames, Flatten, PushAll;
    var st := spec.strategy;
    if FitBackstop(spec, units) {
      forall chunks | Flatten(chunks) == Flatten(units)
        ensures PushAll(spec, [], chunks).rest == []
        ensures Frames(PushAll(spec, [], chunks).out) == Frames(UnitEmissions(st, units))
      {
        RoundTrip(spec, units, chunks);
      }
    } else {
      var i :| 0 <= i < |units| && |units[i]| > spec.maxBuffer + 1;
      var bytewise := Singletons(Flatten(units));
      EmptyIsStop(st);
      assert [] + Flatten(units) == Flatten(units) + [];
      TooLongIsLoud(spec, [], Flatten(units), units, [], i);
      LoudByteByByte(spec, [], Flatten(units));
      FlattenSingletons(Flatten(units));
      ForcedIsWrong(spec, units, bytewise);
    }
  }

  // ---- The first malformed length ----

  /** The length field is complete, and the total that it declares does not even reach its end. */
  predicate DeclaresTooLittle(st: Strategy, m: Bytes) {
    && st.LengthPrefixed? && st.lengthOffset + st.lengthSize <= |m|
    && var n := UintValue(m[st.lengthOffset..st.lengthOffset + st.lengthSize], st.endian);
       (if st.includes == Payload then st.headerSize + n + st.trailerSize else n) < st.lengthOffset + st.lengthSize
  }

  /** Exactly such headers are malformed. */
  lemma MalformedExactly(st: Strategy, m: Bytes)
    requires st.WellFormed()
    ensures NextCut(st, m).Malformed? <==> DeclaresTooLittle(st, m)
  {
    hide UintValue, FindSubslice;
  }

  /** Good units followed by a malformed header, of which `buf` is already buffered and
      `chunks` are still to come. */
  ghost predicate MalformedAhead(spec: FramingSpec, buf: Bytes, chunks: seq<Bytes>, units: seq<Bytes>, m: Bytes,
                                 need: nat) {
    && spec.strategy.WellFormed() && AllUnits(spec.strategy, units) && FitBackstop(spec, units)
    && StopsBefore(spec, m, need) && need <= |m| && NextCut(spec.strategy, m[..need]).Malformed?
    && buf + Flatten(chunks) == Flatten(units) + m
    && |buf| < |Flatten(units)| + need
  }

  lemma MalformedStillAhead(spec: FramingSpec, buf: Bytes, chunks: seq<Bytes>, units: seq<Bytes>, m: Bytes, need: nat)
      returns (i: nat, r: Bytes)
    requires MalformedAhead(spec, buf, chunks, units, m, need)
    requires chunks != [] && |buf + chunks[0]| < |Flatten(units)| + need
    ensures i <= |units| && AllUnits(spec.strategy, units[..i])
    ensures Pushed(spec, buf, chunks[0]) == Outcome(UnitEmissions(spec.strategy, units[..i]), r)
    ensures MalformedAhead(spec, r, chunks[1..], units[i..], m, need)
  {
    hide NextCut, Drained, IsUnit, UnitEmissions, StopsBefore, AllUnits, FitBackstop, Flatten;
    var x, later := buf + chunks[0], Flatten(chunks[1..]);
    MalformedBytes(spec, buf, chunks, units, m, need);
    i, r := PrefixDrains(spec, units, m, need, x);
    SplitUnits(spec, units, i);
    Residue(Flatten(units[..i]), r, later, Flatten(units[i..]), m);
    assert |x| == |Flatten(units[..i])| + |r|;
  }

  lemma MalformedBytes(spec: FramingSpec, buf: Bytes, chunks: seq<Bytes>, units: seq<Bytes>, m: Bytes, need: nat)
    requires MalformedAhead(spec, buf, chunks, units, m, need) && chunks != []
    ensures (buf + chunks[0]) + Flatten(chunks[1..]) == Flatten(units) + m
    ensures buf + chunks[0] <= Flatten(units) + m
  {
    hide NextCut, AllUnits, FitBackstop, StopsBefore;
    Peel(buf, chunks[0], Flatten(chunks[1..]));
  }

  lemma SplitUnits(spec: FramingSpec, units: seq<Bytes>, i: nat)
    requires i <= |units| && AllUnits(spec.strategy, units) && FitBackstop(spec, units)
    ensures AllUnits(spec.strategy, units[..i]) && AllUnits(spec.strategy, units[i..])
    ensures FitBackstop(spec, units[i..])
    ensures Flatten(units) == Flatten(units[..i]) + Flatten(units[i..])
  {
    hide IsUnit, Flatten;
    assert units == units[..i] + units[i..];
    FlattenAppend(units[..i], units[i..]);
  }

  lemma Residue(early: Bytes, r: Bytes, later: Bytes, tail: Bytes, m: Bytes)
    requires (early + r) + later == (early + tail) + m
    ensures r + later == tail + m
  {
    Peel(early, r, later);
    Peel(early, tail, m);
    assert (early + (r + later))[|early|..] == r + later && (early + (tail + m))[|early|..] == tail + m;
  }

  lemma MalformedReached(spec: FramingSpec, buf: Bytes, chunks: seq<Bytes>, units: seq<Bytes>, m: Bytes, need: nat)
    requires MalformedAhead(spec, buf, chunks, units, m, need)
    requires chunks != [] && |buf + chunks[0]| >= |Flatten(units)| + need
    ensures var m' := (buf + chunks[0])[|Flatten(units)|..];
            && m[..need] <= m' <= m
            && Pushed(spec, buf, chunks[0]).out ==
               UnitEmissions(spec.strategy, units) + [Emission(m', [], MalformedLength)]
            && Pushed(spec, buf, chunks[0]).rest == []
  {
    hide NextCut, IsUnit, UnitEmissions, StopsBefore, AllUnits, FitBackstop, Flatten;
    var x, wire := buf + chunks[0], Flatten(units);
    var m' := x[|wire|..];
    MalformedBytes(spec, buf, chunks, units, m, need);
    TailOfPrefix(x, wire, m);
    assert m' == m[..need] + m'[need..];
    CutStable(spec.strategy, m[..need], m'[need..]);
    UnitsDrain(spec.strategy, units, m');
    DrainMalformed(spec.strategy, m');
  }

  lemma TailOfPrefix(x: Bytes, a: Bytes, m: Bytes)
    requires x <= a + m && |x| >= |a|
    ensures x == a + x[|a|..] && x[|a|..] <= m
  {
    assert x == (a + m)[..|x|];
    assert x[|a|..] == m[..|x| - |a|];
  }

  lemma DrainMalformed(st: Strategy, m: Bytes)
    requires st.WellFormed() && NextCut(st, m).Malformed?
    ensures Drained(st, m) == Outcome([Emission(m, [], MalformedLength)], [])
  {
    hide NextCut;
  }

  /** The output starts with the good units and goes on exactly at the malformed header. */
  ghost predicate MalformedSeen(st: Strategy, out: seq<Emission>, units: seq<Bytes>, m: Bytes, need: nat) {
    && AllUnits(st, units) && need <= |m|
    && |out| > |units|
    && out[..|units|] == UnitEmissions(st, units)
    && out[|units|].cause == MalformedLength
    && m[..need] <= out[|units|].frame <= m
  }

  lemma MalformedSeenAfter(st: Strategy, a: seq<Bytes>, out: seq<Emission>, b: seq<Bytes>, m: Bytes, need: nat)
    requires AllUnits(st, a) && MalformedSeen(st, out, b, m, need)
    ensures MalformedSeen(st, UnitEmissions(st, a) + out, a + b, m, need)
  {
    hide IsUnit, UnitEmissions;
    UnitEmissionsAppend(st, a, b);
    var all := UnitEmissions(st, a) + out;
    assert all[..|a| + |b|] == UnitEmissions(st, a) + out[..|b|];
    assert all[|a| + |b|] == out[|b|];
  }

  /** Every chunking of good units followed by a malformed header emits those units, and the
      next emission starts exactly at that header. */
  lemma {:induction false} MalformedHeader(spec: FramingSpec, buf: Bytes, chunks: seq<Bytes>, units: seq<Bytes>,
                                           m: Bytes, need: nat)
    requires spec.strategy.WellFormed() && MalformedAhead(spec, buf, chunks, units, m, need)
    ensures MalformedSeen(spec.strategy, PushAll(spec, buf, chunks).out, units, m, need)
    decreases |chunks|
  {
    MalformedNeedsChunk(spec, buf, chunks, units, m, need);
    hide MalformedAhead, MalformedSeen, Pushed, UnitEmissions, AllUnits, IsUnit, Flatten;
    if |buf + chunks[0]| < |Flatten(units)| + need {
      var i, r := MalformedStillAhead(spec, buf, chunks, units, m, need);
      var later := PushAll(spec, r, chunks[1..]).out;
      assert PushAll(spec, buf, chunks).out == UnitEmissions(spec.strategy, units[..i]) + later;
      MalformedHeader(spec, r, chunks[1..], units[i..], m, need);
      hide PushAll;
      assert units[..i] + units[i..] == units;
      MalformedSeenAfter(spec.strategy, units[..i], later, units[i..], m, need);
    } else {
      MalformedFirst(spec, buf, chunks, units, m, need);
    }
  }

  lemma MalformedNeedsChunk(spec: FramingSpec, buf: Bytes, chunks: seq<Bytes>, units: seq<Bytes>, m: Bytes, need: nat)
    requires MalformedAhead(spec, buf, chunks, units, m, need)
    ensures chunks != []
  {
    assert |buf + Flatten(chunks)| == |Flatten(units)| + |m|;
  }

  lemma MalformedFirst(spec: FramingSpec, buf: Bytes, chunks: seq<Bytes>, units: seq<Bytes>, m: Bytes, need: nat)
    requires MalformedAhead(spec, buf, chunks, units, m, need)
    requires chunks != [] && |buf + chunks[0]| >= |Flatten(units)| + need
    ensures MalformedSeen(spec.strategy, PushAll(spec, buf, chunks).out, units, m, need)
  {
    hide NextCut, IsUnit, Pushed, UnitEmissions, StopsBefore;
    MalformedReached(spec, buf, chunks, units, m, need);
    var es, first := UnitEmissions(spec.strategy, units), Pushed(spec, buf, chunks[0]);
    var later := PushAll(spec, first.rest, chunks[1..]).out;
    assert (first.out + later)[..|units|] == es;
  }

  /** When a length field is needed in full before it can be judged, `StopsBefore` is nothing
      but a bound on the offset and size of that field. */
  lemma HeaderStopsBefore(spec: FramingSpec, m: Bytes)
    requires spec.strategy.LengthPrefixed? && spec.strategy.WellFormed()
    requires spec.strategy.lengthOffset + spec.strategy.lengthSize <= spec.maxBuffer + 1
    ensures StopsBefore(spec, m, spec.strategy.lengthOffset + spec.strategy.lengthSize)
  {
  }

  lemma HeaderAlone(st: Strategy, m: Bytes)
    requires st.WellFormed() && DeclaresTooLittle(st, m)
    ensures var header := m[..st.lengthOffset + st.lengthSize]; DeclaresTooLittle(st, header) && header <= m
  {
    hide UintValue;
    var off, need := st.lengthOffset, st.lengthOffset + st.lengthSize;
    assert m[..need][off..need] == m[off..need];
  }

  /** Good units and then a header that declares too little: however the stream is chunked, the
      units come out first, and the next frame starts with that header. */
  lemma TooLittleIsFlushed(spec: FramingSpec, units: seq<Bytes>, m: Bytes, chunks: seq<Bytes>)
    requires spec.strategy.WellFormed() && DeclaresTooLittle(spec.strategy, m)
    requires AllUnits(spec.strategy, units) && FitBackstop(spec, units)
    requires spec.strategy.lengthOffset + spec.strategy.lengthSize <= spec.maxBuffer + 1
    requires Flatten(chunks) == Flatten(units) + m
    ensures MalformedSeen(spec.strategy, PushAll(spec, [], chunks).out, units, m,
                          spec.strategy.lengthOffset + spec.strategy.lengthSize)
  {
    hide NextCut, IsUnit, Flatten, PushAll, UintValue;
    var need := spec.strategy.lengthOffset + spec.strategy.lengthSize;
    HeaderStopsBefore(spec, m);
    HeaderAlone(spec.strategy, m);
    MalformedExactly(spec.strategy, m[..need]);
    assert [] + Flatten(chunks) == Flatten(chunks);
    MalformedHeader(spec, [], chunks, units, m, need);
  }

  /** The push that brings the whole header flushes all that it has of it as one frame and leaves
      nothing behind. */
  lemma TooLittleTakesTheRest(spec: FramingSpec, units: seq<Bytes>, m: Bytes)
    requires spec.strategy.WellFormed() && DeclaresTooLittle(spec.strategy, m)
    requires AllUnits(spec.strategy, units)
    ensures Pushed(spec, [], Flatten(units) + m) ==
            Outcome(UnitEmissions(spec.strategy, units) + [Emission(m, [], MalformedLength)], [])
  {
    hide NextCut, IsUnit, Flatten, UintValue, Drained, DeclaresTooLittle, UnitEmissions;
    MalformedExactly(spec.strategy, m);
    UnitsDrain(spec.strategy, units, m);
    DrainMalformed(spec.strategy, m);
    assert [] + (Flatten(units) + m) == Flatten(units) + m;
  }
}
