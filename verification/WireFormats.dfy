/** Which byte strings are one frame under each strategy: delimited payloads and the role of
    borders, fixed blocks, and length-prefixed frames with an encoder for their length field. */
module WireFormats {
  import opened Common
  import opened Framing
  import opened Chunking
  import opened RoundTrips

  // ---- Delimited frames ----

  /** The delimiter stands in `p + d` for the first time right after the payload. */
  predicate FirstAtEnd(p: Bytes, d: Bytes) {
    FindSubslice(p + d, d) == Some(|p|)
  }

  /** A payload and its delimiter are one frame exactly when the delimiter does not show up
      earlier; the frame is the payload, with or without the delimiter. */
  lemma DelimitedUnit(d: Bytes, inclusive: bool, p: Bytes)
    requires d != []
    ensures IsUnit(Delimiter(d, inclusive), p + d) <==> FirstAtEnd(p, d)
    ensures FirstAtEnd(p, d) ==>
              UnitEmission(Delimiter(d, inclusive), p + d).frame == if inclusive then p + d else p
  {
    assert (p + d)[|p|..|p| + |d|] == d;
    assert OccursAt(p + d, d, |p|);
    var pos := FindSubslice(p + d, d).value;
    assert (p + d)[..|p| + |d|] == p + d && (p + d)[..|p|] == p;
    if pos < |p| {
      assert |NextCut(Delimiter(d, inclusive), p + d).Wire()| == pos + |d|;
    }
  }

  /** Every delimited frame has this form. */
  lemma DelimitedUnitForm(d: Bytes, inclusive: bool, w: Bytes)
    requires d != [] && IsUnit(Delimiter(d, inclusive), w)
    ensures |w| >= |d| && w == w[..|w| - |d|] + d && FirstAtEnd(w[..|w| - |d|], d)
  {
    var pos := FindSubslice(w, d).value;
    assert |NextCut(Delimiter(d, inclusive), w).Wire()| == pos + |d| == |w|;
    assert w == w[..pos] + w[pos..pos + |d|];
  }

  ghost predicate Contains(s: Bytes, d: Bytes) {
    exists i: nat :: OccursAt(s, d, i)
  }

  /** A proper nonempty prefix of `d` is also a suffix of `d`. */
  predicate Bordered(d: Bytes) {
    exists k :: 0 < k < |d| && BorderAt(d, k)
  }

  predicate BorderAt(d: Bytes, k: nat)
    requires k <= |d|
  {
    d[..k] == d[|d| - k..]
  }

  lemma OverlapIsBorder(p: Bytes, d: Bytes, i: nat)
    requires i < |p| < i + |d| && OccursAt(p + d, d, i)
    ensures Bordered(d)
  {
    var s, k := p + d, i + |d| - |p|;
    assert d[|d| - k..] == s[i..i + |d|][|d| - k..] == s[|p|..|p| + k] == d[..k];
    assert BorderAt(d, k);
  }

  lemma InsidePayload(p: Bytes, d: Bytes, i: nat)
    requires i + |d| <= |p| && OccursAt(p + d, d, i)
    ensures Contains(p, d)
  {
    assert (p + d)[i..i + |d|] == p[i..i + |d|];
    assert OccursAt(p, d, i);
  }

  lemma BorderlessFirst(p: Bytes, d: Bytes)
    requires d != [] && !Bordered(d) && !Contains(p, d)
    ensures FirstAtEnd(p, d)
  {
    var s := p + d;
    assert s[|p|..|p| + |d|] == d;
    assert OccursAt(s, d, |p|);
    var i := FindSubslice(s, d).value;
    if i + |d| <= |p| {
      InsidePayload(p, d, i);
    } else if i < |p| {
      OverlapIsBorder(p, d, i);
    }
  }

  /** A bordered delimiter completed by its own tail: the payload does not contain it and yet
      the first occurrence comes too early. */
  lemma BorderedCounterexample(d: Bytes, k: nat)
    requires 0 < k < |d| && BorderAt(d, k)
    ensures !Contains(d[..|d| - k], d) && !FirstAtEnd(d[..|d| - k], d)
  {
    var p := d[..|d| - k];
    assert (p + d)[0..0 + |d|] == p + d[..k] == d;
    assert OccursAt(p + d, d, 0);
  }

  /** Payloads need only be free of the delimiter exactly when the delimiter has no border. */
  lemma BorderlessExactly(d: Bytes)
    requires d != []
    ensures !Bordered(d) <==> forall p | !Contains(p, d) :: FirstAtEnd(p, d)
  {
    if Bordered(d) {
      var k :| 0 < k < |d| && BorderAt(d, k);
      BorderedCounterexample(d, k);
    } else {
      forall p | !Contains(p, d)
        ensures FirstAtEnd(p, d)
      {
        BorderlessFirst(p, d);
      }
    }
  }

  lemma LineEndingsAreBorderless()
    ensures !Bordered([10]) && !Bordered([13, 10])
  {
    var crlf: Bytes := [13, 10];
    assert crlf[..1] == [13] && crlf[1..] == [10];
  }

  // ---- Fixed blocks ----

  lemma FixedUnit(n: nat, w: Bytes)
    requires n > 0
    ensures IsUnit(Fixed(n), w) <==> |w| == n
    ensures |w| == n ==> UnitEmission(Fixed(n), w).frame == w
  {
    assert w[..|w|] == w;
    if |w| >= n {
      assert |w[..n]| == n;
    }
  }

  // ---- Length-prefixed frames ----

  lemma NextByte(b: byte)
    requires b != 255
    ensures Value(b + 1) == Value(b) + 1
  {
  }

  lemma ByteIsUnique(b: byte, c: byte)
    requires Value(b) == Value(c)
    ensures b == c
  {
  }

  /** The byte with value `n`. */
  ghost function ByteOf(n: nat): (b: byte)
    requires n < 256
    ensures Value(b) == n
  {
    if n == 0 then 0
    else
      NextByte(ByteOf(n - 1));
      ByteOf(n - 1) + 1
  }

  /** The length field of `size` bytes that denotes `n`. */
  ghost function WriteUint(n: nat, size: nat, endian: Endian): (field: Bytes)
    requires n < Pow256(size)
    ensures |field| == size
    decreases size
  {
    if size == 0 then []
    else
      match endian
      case Big => WriteUint(n / 256, size - 1, endian) + [ByteOf(n % 256)]
      case Little => [ByteOf(n % 256)] + WriteUint(n / 256, size - 1, endian)
  }

  lemma LittleStep(b: byte, high: Bytes)
    ensures UintValue([b] + high, Little) == Value(b) + 256 * UintValue(high, Little)
  {
    hide Value;
    assert ([b] + high)[1..] == high;
  }

  lemma {:induction false} WriteThenRead(n: nat, size: nat, endian: Endian)
    requires n < Pow256(size)
    ensures UintValue(WriteUint(n, size, endian), endian) == n
    decreases size
  {
    hide Value, UintValue, WriteUint, Pow256, ByteOf;
    if size == 0 {
      NothingWritten(n, endian);
    } else {
      WriteUnfolds(n, size, endian);
      WriteThenRead(n / 256, size - 1, endian);
      var high, b := WriteUint(n / 256, size - 1, endian), ByteOf(n % 256);
      if endian == Big {
        BigEndianSnoc(high, b);
      } else {
        LittleStep(b, high);
      }
    }
  }

  lemma NothingWritten(n: nat, endian: Endian)
    requires n < Pow256(0)
    ensures n == 0 == UintValue(WriteUint(n, 0, endian), endian)
  {
  }

  lemma WriteUnfolds(n: nat, size: nat, endian: Endian)
    requires 0 < size && n < Pow256(size)
    ensures n == 256 * (n / 256) + n % 256 && n / 256 < Pow256(size - 1)
    ensures WriteUint(n, size, endian) ==
            if endian == Big then WriteUint(n / 256, size - 1, endian) + [ByteOf(n % 256)]
            else [ByteOf(n % 256)] + WriteUint(n / 256, size - 1, endian)
  {
    hide ByteOf;
  }

  lemma WriteStep(v: nat, b: byte, size: nat, endian: Endian)
    requires v < Pow256(size)
    ensures 256 * v + Value(b) < Pow256(size + 1)
    ensures WriteUint(256 * v + Value(b), size + 1, endian) ==
            if endian == Big then WriteUint(v, size, endian) + [b] else [b] + WriteUint(v, size, endian)
  {
    hide Value, ByteOf;
    var n := 256 * v + Value(b);
    assert n / 256 == v && n % 256 == Value(b);
    ByteIsUnique(ByteOf(n % 256), b);
  }

  lemma {:induction false} ReadThenWrite(field: Bytes, endian: Endian)
    ensures UintValue(field, endian) < Pow256(|field|)
    ensures WriteUint(UintValue(field, endian), |field|, endian) == field
    decreases |field|
  {
    hide Value, UintValue, WriteUint, Pow256;
    UintValueBound(field, endian);
    if field != [] {
      if endian == Big {
        var high, b := field[..|field| - 1], field[|field| - 1];
        ReadThenWrite(high, endian);
        BigEndianSnoc(high, b);
        WriteStep(UintValue(high, endian), b, |high|, endian);
        assert field == high + [b];
      } else {
        var high, b := field[1..], field[0];
        ReadThenWrite(high, endian);
        LittleStep(b, high);
        WriteStep(UintValue(high, endian), b, |high|, endian);
        assert field == [b] + high;
      }
    }
  }

  /** The number that the length field of a frame of `total` bytes has to declare. */
  function Declared(st: Strategy, total: nat): int
    requires st.LengthPrefixed?
  {
    match st.includes
    case Payload => total - st.headerSize - st.trailerSize
    case Frame => total
  }

  /** The frame has room for its length field, and its length fits into that field. */
  ghost predicate Encodable(st: Strategy, frame: Bytes)
    requires st.LengthPrefixed?
  {
    && st.lengthOffset + st.lengthSize <= |frame|
    && 0 <= Declared(st, |frame|) < Pow256(st.lengthSize)
  }

  /** The frame with its own length written into the length field. */
  ghost function Stamp(st: Strategy, frame: Bytes): (w: Bytes)
    requires st.LengthPrefixed? && Encodable(st, frame)
    ensures |w| == |frame|
    ensures w[..st.lengthOffset] == frame[..st.lengthOffset]
    ensures w[st.lengthOffset + st.lengthSize..] == frame[st.lengthOffset + st.lengthSize..]
  {
    frame[..st.lengthOffset] + WriteUint(Declared(st, |frame|), st.lengthSize, st.endian)
      + frame[st.lengthOffset + st.lengthSize..]
  }

  lemma StampedUnit(st: Strategy, frame: Bytes)
    requires st.LengthPrefixed? && st.WellFormed() && Encodable(st, frame)
    ensures IsUnit(st, Stamp(st, frame))
    ensures UnitEmission(st, Stamp(st, frame)).frame == Stamp(st, frame)
  {
    hide UintValue, WriteUint;
    var off, size := st.lengthOffset, st.lengthSize;
    var w, n := Stamp(st, frame), Declared(st, |frame|);
    assert w[off..off + size] == WriteUint(n, size, st.endian);
    WriteThenRead(n, size, st.endian);
    assert DeclaredTotal(st, w) == |w|;
    assert w[..|w|] == w;
  }

  lemma UnitDeclaresItself(st: Strategy, w: Bytes)
    requires st.LengthPrefixed? && st.WellFormed() && IsUnit(st, w)
    ensures st.lengthOffset + st.lengthSize <= |w|
    ensures Declared(st, |w|) == UintValue(w[st.lengthOffset..st.lengthOffset + st.lengthSize], st.endian)
  {
    hide UintValue;
    assert |NextCut(st, w).Wire()| == DeclaredTotal(st, w) == |w|;
  }

  /** The length-prefixed frames are exactly the strings that declare their own length. */
  lemma LengthPrefixedUnit(st: Strategy, w: Bytes)
    requires st.LengthPrefixed? && st.WellFormed()
    ensures IsUnit(st, w) <==> Encodable(st, w) && Stamp(st, w) == w
  {
    hide NextCut, IsUnit, UintValue, WriteUint;
    var off, size := st.lengthOffset, st.lengthSize;
    if IsUnit(st, w) {
      UnitDeclaresItself(st, w);
      var field := w[off..off + size];
      ReadThenWrite(field, st.endian);
      assert w == w[..off] + field + w[off + size..];
    } else if Encodable(st, w) && Stamp(st, w) == w {
      StampedUnit(st, w);
    }
  }

  // ---- The round trip, strategy by strategy ----

  function Delimited(payloads: seq<Bytes>, d: Bytes): (units: seq<Bytes>)
    ensures |units| == |payloads|
    ensures forall i :: 0 <= i < |units| ==> units[i] == payloads[i] + d
  {
    seq(|payloads|, i requires 0 <= i < |payloads| => payloads[i] + d)
  }

  /** What comes out of one push of delimited payloads shows that each of them was cut off at
      its own delimiter, if the frames are the right ones and nothing is left. */
  lemma RecoveredIsUnit(spec: FramingSpec, payloads: seq<Bytes>, o: Outcome, i: nat)
    requires spec.strategy.Delimiter? && spec.strategy.WellFormed() && i < |payloads|
    requires Accounts(o, Flatten(Delimited(payloads, spec.strategy.delim))) && AllShaped(spec, o.out)
    requires o.rest == [] && Frames(o.out) == Recovered(spec.strategy, payloads)
    ensures IsUnit(spec.strategy, payloads[i] + spec.strategy.delim)
  {
    hide FindSubslice;
    var d, units := spec.strategy.delim, Delimited(payloads, spec.strategy.delim);
    assert |o.out| == |Frames(o.out)| == |payloads|;
    assert o.out[i].frame == Frames(o.out)[i];
    assert Shaped(spec, o.out[i]);
    if spec.strategy.inclusive {
      ContainsItsDelimiter(payloads[i], d);
      assert o.out[i].frame == payloads[i] + d && o.out[i].frame + [] == o.out[i].frame;
    } else {
      WholeStripped(spec, payloads, o, i);
    }
  }

  lemma ContainsItsDelimiter(p: Bytes, d: Bytes)
    requires d != []
    ensures FindSubslice(p + d, d).Some?
  {
    assert OccursAt(p + d, d, |p|);
  }

  lemma WholeStripped(spec: FramingSpec, payloads: seq<Bytes>, o: Outcome, i: nat)
    requires spec.strategy.Strips() && spec.strategy.WellFormed() && i < |payloads|
    requires Accounts(o, Flatten(Delimited(payloads, spec.strategy.delim))) && AllShaped(spec, o.out)
    requires o.rest == [] && Frames(o.out) == payloads && |o.out| == |payloads|
    ensures o.out[i].stripped == spec.strategy.delim && o.out[i].frame == payloads[i]
  {
    hide NextCut, Flatten;
    var d := spec.strategy.delim;
    var whole := seq(|payloads|, j requires 0 <= j < |payloads| => Emission(payloads[j], d, Boundary));
    assert Frames(whole) == payloads && Wires(whole) == Delimited(payloads, d);
    forall j | 0 <= j < |o.out|
      ensures |o.out[j].stripped| <= |whole[j].stripped|
    {
      StrippedShape(spec, o.out[j]);
    }
    StrippedLess(o.out, whole);
    assert |o.out[i].stripped| == |whole[i].stripped|;
    assert Frames(o.out)[i] == o.out[i].frame && Shaped(spec, o.out[i]);
    StrippedShape(spec, o.out[i]);
  }

  /** The frames that delimited payloads should give. */
  function Recovered(st: Strategy, payloads: seq<Bytes>): seq<Bytes>
    requires st.Delimiter?
  {
    if st.inclusive then Delimited(payloads, st.delim) else payloads
  }

  predicate FirstAtEndOfAll(payloads: seq<Bytes>, d: Bytes) {
    forall i :: 0 <= i < |payloads| ==> FirstAtEnd(payloads[i], d)
  }

  lemma UnitsOfPayloads(st: Strategy, payloads: seq<Bytes>)
    requires st.Delimiter? && st.WellFormed() && FirstAtEndOfAll(payloads, st.delim)
    ensures AllUnits(st, Delimited(payloads, st.delim))
    ensures Frames(UnitEmissions(st, Delimited(payloads, st.delim))) == Recovered(st, payloads)
  {
    hide NextCut, FirstAtEnd;
    var units := Delimited(payloads, st.delim);
    forall i | 0 <= i < |units|
      ensures IsUnit(st, units[i])
      ensures UnitEmission(st, units[i]).frame == if st.inclusive then units[i] else payloads[i]
    {
      DelimitedUnit(st.delim, st.inclusive, payloads[i]);
    }
  }

  /** Payloads come back under every chunking if and only if the delimiter first occurs at the
      end of each, and none has more than `max_buffer + 1` bytes with it. */
  lemma DelimitedRoundTrip(spec: FramingSpec, payloads: seq<Bytes>)
    requires spec.strategy.Delimiter? && spec.strategy.WellFormed()
    ensures var d := spec.strategy.delim;
            (forall i :: 0 <= i < |payloads| ==>
               FirstAtEnd(payloads[i], d) && |payloads[i]| + |d| <= spec.maxBuffer + 1)
            <==> ComesBack(spec, Flatten(Delimited(payloads, d)), Recovered(spec.strategy, payloads))
  {
    hide NextCut, FirstAtEnd, Flatten, PushAll, IsUnit, Recovered;
    var st, d := spec.strategy, spec.strategy.delim;
    var units := Delimited(payloads, d);
    if FirstAtEndOfAll(payloads, d) {
      UnitsOfPayloads(st, payloads);
      RoundTripExactly(spec, units);
      assert FitBackstop(spec, units) <==>
             forall i :: 0 <= i < |payloads| ==> |payloads[i]| + |d| <= spec.maxBuffer + 1;
    } else {
      var o := PushAll(spec, [], [Flatten(units)]);
      OneChunk(Flatten(units));
      if o.rest == [] && Frames(o.out) == Recovered(st, payloads) {
        PushAllShaped(spec, [], [Flatten(units)]);
        var i :| 0 <= i < |payloads| && !FirstAtEnd(payloads[i], d);
        assert [] + Flatten(units) == Flatten(units);
        RecoveredIsUnit(spec, payloads, o, i);
        DelimitedUnit(d, st.inclusive, payloads[i]);
        assert false;
      }
    }
  }

  lemma OneChunk(s: Bytes)
    ensures Flatten([s]) == s
  {
    FlattenSnoc([], s);
  }

  /** For a delimiter that does not overlap itself it is enough that no payload contains it. */
  lemma BorderlessRoundTrip(spec: FramingSpec, payloads: seq<Bytes>)
    requires spec.strategy.Delimiter? && spec.strategy.WellFormed() && !Bordered(spec.strategy.delim)
    requires forall p | p in payloads ::
               !Contains(p, spec.strategy.delim) && |p| + |spec.strategy.delim| <= spec.maxBuffer + 1
    ensures ComesBack(spec, Flatten(Delimited(payloads, spec.strategy.delim)), Recovered(spec.strategy, payloads))
  {
    hide FirstAtEnd, Contains, Bordered, Flatten, ComesBack, Recovered;
    forall i | 0 <= i < |payloads|
      ensures FirstAtEnd(payloads[i], spec.strategy.delim)
      ensures |payloads[i]| + |spec.strategy.delim| <= spec.maxBuffer + 1
    {
      assert payloads[i] in payloads;
      BorderlessFirst(payloads[i], spec.strategy.delim);
    }
    DelimitedRoundTrip(spec, payloads);
  }

  ghost function Stamped(st: Strategy, frames: seq<Bytes>): (units: seq<Bytes>)
    requires st.LengthPrefixed? && forall i :: 0 <= i < |frames| ==> Encodable(st, frames[i])
    ensures |units| == |frames|
    ensures forall i :: 0 <= i < |units| ==> units[i] == Stamp(st, frames[i])
  {
    seq(|frames|, i requires 0 <= i < |frames| => Stamp(st, frames[i]))
  }

  /** Frames whose length was stamped into them come back one by one under every chunking
      exactly when none has more than `max_buffer + 1` bytes. */
  lemma LengthPrefixedRoundTrip(spec: FramingSpec, frames: seq<Bytes>)
    requires spec.strategy.LengthPrefixed? && spec.strategy.WellFormed()
    requires forall i :: 0 <= i < |frames| ==> Encodable(spec.strategy, frames[i])
    ensures var wire := Stamped(spec.strategy, frames);
            (forall i :: 0 <= i < |frames| ==> |frames[i]| <= spec.maxBuffer + 1)
            <==> ComesBack(spec, Flatten(wire), wire)
  {
    hide NextCut, Stamp, Encodable;
    var st, wire := spec.strategy, Stamped(spec.strategy, frames);
    forall i | 0 <= i < |wire|
      ensures IsUnit(st, wire[i]) && UnitEmission(st, wire[i]).frame == wire[i]
      ensures |wire[i]| == |frames[i]|
    {
      StampedUnit(st, frames[i]);
    }
    assert Frames(UnitEmissions(st, wire)) == wire;
    RoundTripExactly(spec, wire);
    assert FitBackstop(spec, wire) <==> forall i :: 0 <= i < |frames| ==> |frames[i]| <= spec.maxBuffer + 1;
  }
}
