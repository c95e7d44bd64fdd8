/** The stream framer: configuration, the compiled strategy, one cut of the buffer, and the
    loops that cut a buffer in place. */
module Framing {
  import opened Common

  const DEFAULT_MAX_BUFFER: nat := 4096

  datatype Endian = Big | Little

  datatype LengthIncludes = Payload | Frame

  datatype FramingConfig =
    | DelimiterConfig(delimiter: Bytes, includeDelimiter: bool)
    | FixedConfig(length: nat)
    | LengthPrefixedConfig(headerSize: nat, lengthOffset: nat, lengthSize: nat, lengthEndian: Endian,
                           lengthIncludes: LengthIncludes, trailerSize: nat)
    | IdleTimeoutConfig(quietMs: nat)

  datatype FramingError = EmptyDelimiter | ZeroLength | BadLengthSize(size: nat) | ZeroQuiet

  datatype Strategy =
    | Delimiter(delim: Bytes, inclusive: bool)
    | Fixed(len: nat)
    | LengthPrefixed(headerSize: nat, lengthOffset: nat, lengthSize: nat, endian: Endian,
                     includes: LengthIncludes, trailerSize: nat)
    | IdleTimeout
  {
    /** What `Validate` promises about a compiled strategy. */
    predicate WellFormed() {
      match this
      case Delimiter(delim, _) => delim != []
      case Fixed(len) => len > 0
      case LengthPrefixed(_, _, size, _, _, _) => size == 1 || size == 2 || size == 4
      case IdleTimeout => true
    }

    /** The strategy emits frames that are shorter than the bytes they consume. */
    predicate Strips() {
      Delimiter? && !inclusive
    }
  }

  function Validate(cfg: FramingConfig): Result<(), FramingError> {
    match cfg
    case DelimiterConfig(d, _) => if d == [] then Err(EmptyDelimiter) else Ok(())
    case FixedConfig(n) => if n == 0 then Err(ZeroLength) else Ok(())
    case LengthPrefixedConfig(_, _, size, _, _, _) =>
      if size == 1 || size == 2 || size == 4 then Ok(()) else Err(BadLengthSize(size))
    case IdleTimeoutConfig(ms) => if ms == 0 then Err(ZeroQuiet) else Ok(())
  }

  function FromConfig(cfg: Option<FramingConfig>): FramingSpec {
    match cfg
    case None => FramingSpec(Delimiter([10], true), DEFAULT_MAX_BUFFER, None)
    case Some(DelimiterConfig(d, inclusive)) =>
      FramingSpec(Delimiter(d, inclusive), DEFAULT_MAX_BUFFER, None)
    case Some(FixedConfig(n)) =>
      FramingSpec(Fixed(n), if n > DEFAULT_MAX_BUFFER then n else DEFAULT_MAX_BUFFER, None)
    case Some(LengthPrefixedConfig(h, off, size, e, inc, t)) =>
      FramingSpec(LengthPrefixed(h, off, size, e, inc, t), DEFAULT_MAX_BUFFER, None)
    case Some(IdleTimeoutConfig(ms)) =>
      FramingSpec(IdleTimeout, DEFAULT_MAX_BUFFER, Some(ms))
  }

  /** `needle` stands in `haystack` at index `i`. */
  predicate OccursAt(haystack: Bytes, needle: Bytes, i: nat) {
    i + |needle| <= |haystack| && haystack[i..i + |needle|] == needle
  }

  function FindFrom(haystack: Bytes, needle: Bytes, i: nat): (r: Option<nat>)
    requires i <= |haystack|
    ensures r.Some? ==> i <= r.value && OccursAt(haystack, needle, r.value)
    ensures forall j :: i <= j < (if r.Some? then r.value else |haystack| + 1) ==> !OccursAt(haystack, needle, j)
    decreases |haystack| - i
  {
    if i + |needle| > |haystack| then None
    else if haystack[i..i + |needle|] == needle then Some(i)
    else if i == |haystack| then None
    else FindFrom(haystack, needle, i + 1)
  }

  /** First index of a nonempty `needle`, or none. */
  function FindSubslice(haystack: Bytes, needle: Bytes): (r: Option<nat>)
    ensures r.Some? ==> needle != [] && OccursAt(haystack, needle, r.value)
    ensures r.Some? ==> forall j: nat :: j < r.value ==> !OccursAt(haystack, needle, j)
    ensures r.None? ==> needle == [] || forall j: nat :: !OccursAt(haystack, needle, j)
  {
    if needle == [] || |haystack| < |needle| then None else FindFrom(haystack, needle, 0)
  }

  function Pow256(n: nat): (r: nat)
    ensures r > 0
  {
    if n == 0 then 1 else 256 * Pow256(n - 1)
  }

  function Value(b: byte): (n: nat)
    ensures n < 256
  {
    b as nat
  }

  /** The number that a length field denotes. */
  function UintValue(field: Bytes, endian: Endian): nat {
    if field == [] then 0
    else
      match endian
      case Big => 256 * UintValue(field[..|field| - 1], endian) + Value(field[|field| - 1])
      case Little => Value(field[0]) + 256 * UintValue(field[1..], endian)
  }

  /** One look at the buffer: nothing to cut yet, a frame (with the delimiter stripped off its
      end), or a declared length that cannot be honoured. */
  datatype Cut = Stop | Emit(frame: Bytes, stripped: Bytes) | Malformed {
    /** The stretch of the buffer that the cut takes away. */
    function Wire(): Bytes
      requires Emit?
    {
      frame + stripped
    }
  }

  function DeclaredTotal(st: Strategy, buf: Bytes): nat
    requires st.LengthPrefixed? && st.lengthOffset + st.lengthSize <= |buf|
  {
    var l := UintValue(buf[st.lengthOffset..st.lengthOffset + st.lengthSize], st.endian);
    match st.includes
    case Payload => st.headerSize + l + st.trailerSize
    case Frame => l
  }

  function NextCut(st: Strategy, buf: Bytes): (c: Cut)
    ensures c.Emit? ==> c.Wire() <= buf
    ensures c.Emit? && st.WellFormed() ==> |c.Wire()| > 0
    ensures c.Malformed? ==> st.LengthPrefixed? && (st.WellFormed() ==> buf != [])
  {
    match st
    case Delimiter(delim, inclusive) => (
      match FindSubslice(buf, delim)
      case None => Stop
      case Some(pos) =>
        assert buf[..pos + |delim|] == buf[..pos] + delim;
        if inclusive then Emit(buf[..pos + |delim|], []) else Emit(buf[..pos], delim))
    case Fixed(len) => if |buf| >= len then Emit(buf[..len], []) else Stop
    case LengthPrefixed(_, off, size, _, _, _) =>
      if |buf| < off + size then Stop
      else
        var total := DeclaredTotal(st, buf);
        if total == 0 || total < off + size then Malformed
        else if |buf| < total then Stop
        else Emit(buf[..total], [])
    case IdleTimeout => Stop
  }

  /** Why a frame was emitted. Only `Boundary` frames were delimited by the stream itself. */
  datatype Cause = Boundary | MalformedLength | Backstop | Idle

  datatype Emission = Emission(frame: Bytes, stripped: Bytes, cause: Cause) {
    /** The stretch of the input that this emission used up. */
    function Wire(): Bytes {
      frame + stripped
    }
  }

  /** What a call emitted and what it left in the buffer. */
  datatype Outcome = Outcome(out: seq<Emission>, rest: Bytes) {
    /** The same outcome with more emissions in front. */
    function After(earlier: seq<Emission>): Outcome {
      Outcome(earlier + out, rest)
    }
  }

  function Frames(out: seq<Emission>): (r: seq<Bytes>)
    ensures |r| == |out|
    ensures forall i :: 0 <= i < |out| ==> r[i] == out[i].frame
  {
    seq(|out|, i requires 0 <= i < |out| => out[i].frame)
  }

  lemma FramesAppend(a: seq<Emission>, b: seq<Emission>)
    ensures Frames(a + b) == Frames(a) + Frames(b)
  {
  }

  function Wires(out: seq<Emission>): (r: seq<Bytes>)
    ensures |r| == |out|
    ensures forall i :: 0 <= i < |out| ==> r[i] == out[i].Wire()
  {
    seq(|out|, i requires 0 <= i < |out| => out[i].Wire())
  }

  /** Some frame was cut by a guard rather than by the stream. */
  predicate Forced(out: seq<Emission>) {
    exists i :: 0 <= i < |out| && out[i].cause != Boundary
  }

  /** The meaning of `drain`: cut until nothing more can be cut. */
  function Drained(st: Strategy, buf: Bytes): Outcome
    requires st.WellFormed()
    decreases |buf|
  {
    var c := NextCut(st, buf);
    match c
    case Stop => Outcome([], buf)
    case Malformed => Outcome([Emission(buf, [], MalformedLength)], [])
    case Emit(frame, stripped) =>
      Drained(st, buf[|c.Wire()|..]).After([Emission(frame, stripped, Boundary)])
  }

  /** The backstop: a residue above `max_buffer` is flushed as one frame. */
  function Bounded(spec: FramingSpec, o: Outcome): Outcome {
    if |o.rest| > spec.maxBuffer then Outcome(o.out + [Emission(o.rest, [], Backstop)], []) else o
  }

  /** The meaning of `push`. */
  function Pushed(spec: FramingSpec, buf: Bytes, chunk: Bytes): Outcome
    requires spec.strategy.WellFormed()
  {
    Bounded(spec, Drained(spec.strategy, buf + chunk))
  }

  /** The meaning of `on_idle`. */
  function Idled(spec: FramingSpec, buf: Bytes): Outcome {
    if spec.strategy.IdleTimeout? && buf != [] then Outcome([Emission(buf, [], Idle)], [])
    else Outcome([], buf)
  }

  // ---- Reading a length field bit by bit ----

  lemma ShiftInByte(v: bv64, b: byte)
    requires v as nat < 0x100_0000
    ensures ((v << 8) | (b as bv64)) as nat == 256 * (v as nat) + Value(b)
  {
  }

  method ShiftIn(v: bv64, b: byte) returns (r: bv64)
    requires v as nat < 0x100_0000
    ensures r as nat == 256 * (v as nat) + Value(b)
  {
    ShiftInByte(v, b);
    return (v << 8) | (b as bv64);
  }

  lemma OrByte0(v: bv64, b: byte)
    requires v as nat < 1
    ensures (v | (b as bv64)) as nat == v as nat + Value(b)
  {
  }

  lemma OrByte1(v: bv64, b: byte)
    requires v as nat < 0x100
    ensures (v | ((b as bv64) << 8)) as nat == v as nat + 0x100 * Value(b)
  {
  }

  lemma OrByte2(v: bv64, b: byte)
    requires v as nat < 0x1_0000
    ensures (v | ((b as bv64) << 16)) as nat == v as nat + 0x1_0000 * Value(b)
  {
  }

  lemma OrByte3(v: bv64, b: byte)
    requires v as nat < 0x100_0000
    ensures (v | ((b as bv64) << 24)) as nat == v as nat + 0x100_0000 * Value(b)
  {
  }

  lemma SmallPowers()
    ensures Pow256(1) == 0x100 && Pow256(2) == 0x1_0000
    ensures Pow256(3) == 0x100_0000 && Pow256(4) == 0x1_0000_0000
  {
  }

  /** `v | b << 8 * i`, for the shift amounts that a length field needs. */
  method OrShifted(v: bv64, b: byte, i: nat) returns (r: bv64)
    requires i < 4 && v as nat < Pow256(i)
    ensures r as nat == v as nat + Pow256(i) * Value(b)
  {
    SmallPowers();
    match i {
      case 0 => OrByte0(v, b); return v | (b as bv64);
      case 1 => OrByte1(v, b); return v | ((b as bv64) << 8);
      case 2 => OrByte2(v, b); return v | ((b as bv64) << 16);
      case 3 => OrByte3(v, b); return v | ((b as bv64) << 24);
    }
  }

  lemma {:induction false} UintValueBound(field: Bytes, endian: Endian)
    ensures UintValue(field, endian) < Pow256(|field|)
  {
    hide Value;
    if field != [] {
      match endian
      case Big => UintValueBound(field[..|field| - 1], endian);
      case Little => UintValueBound(field[1..], endian);
    }
  }

  lemma ScaleUp(v: nat, p: nat, x: nat)
    ensures 256 * (v + p * x) == 256 * v + (256 * p) * x
  {
  }

  /** The last byte of a little-endian field carries the highest weight. */
  lemma {:induction false} LittleEndianSnoc(field: Bytes, b: byte)
    ensures UintValue(field + [b], Little) == UintValue(field, Little) + Pow256(|field|) * Value(b)
  {
    hide Value;
    if field == [] {
      assert (field + [b])[1..] == [];
    } else {
      assert (field + [b])[1..] == field[1..] + [b];
      LittleEndianSnoc(field[1..], b);
      ScaleUp(UintValue(field[1..], Little), Pow256(|field| - 1), Value(b));
    }
  }

  lemma ReadBound(field: Bytes, endian: Endian)
    requires |field| < 4
    ensures UintValue(field, endian) < 0x100_0000
  {
    UintValueBound(field, endian);
    SmallPowers();
  }

  /** The last byte of a big-endian field carries the lowest weight. */
  lemma BigEndianSnoc(field: Bytes, b: byte)
    ensures UintValue(field + [b], Big) == 256 * UintValue(field, Big) + Value(b)
  {
    hide Value;
    assert (field + [b])[..|field|] == field;
  }

  lemma EmptyField(endian: Endian)
    ensures UintValue([], endian) == 0
  {
  }

  method ReadBigEndian(field: Bytes) returns (v: bv64)
    requires |field| <= 4
    ensures v as nat == UintValue(field, Big)
  {
    hide Value, UintValue;
    v := 0;
    EmptyField(Big);
    var i := 0;
    while i < |field|
      invariant 0 <= i <= |field|
      invariant v as nat == UintValue(field[..i], Big)
    {
      ReadBound(field[..i], Big);
      BigEndianSnoc(field[..i], field[i]);
      assert field[..i + 1] == field[..i] + [field[i]];
      v := ShiftIn(v, field[i]);
      i := i + 1;
    }
    assert field[..|field|] == field;
  }

  method ReadLittleEndian(field: Bytes) returns (v: bv64)
    requires |field| <= 4
    ensures v as nat == UintValue(field, Little)
  {
    hide Value, UintValue, Pow256;
    v := 0;
    EmptyField(Little);
    var i := 0;
    while i < |field|
      invariant 0 <= i <= |field|
      invariant v as nat == UintValue(field[..i], Little)
    {
      UintValueBound(field[..i], Little);
      LittleEndianSnoc(field[..i], field[i]);
      assert field[..i + 1] == field[..i] + [field[i]];
      v := OrShifted(v, field[i], i);
      i := i + 1;
    }
    assert field[..|field|] == field;
  }

  /** A length field of up to four bytes read with shifts and ors is the number it denotes. */
  method ReadUint(field: Bytes, endian: Endian) returns (v: bv64)
    requires |field| <= 4
    ensures v as nat == UintValue(field, endian)
  {
    match endian
    case Big => v := ReadBigEndian(field);
    case Little => v := ReadLittleEndian(field);
  }

  method ReadTotal(st: Strategy, buf: Bytes) returns (total: nat)
    requires st.LengthPrefixed? && st.WellFormed() && st.lengthOffset + st.lengthSize <= |buf|
    ensures total == DeclaredTotal(st, buf)
  {
    var l := ReadUint(buf[st.lengthOffset..st.lengthOffset + st.lengthSize], st.endian);
    match st.includes
    case Payload => total := st.headerSize + l as nat + st.trailerSize;
    case Frame => total := l as nat;
  }

  // ---- The framer, cutting the buffer in place ----

  datatype FramingSpec = FramingSpec(strategy: Strategy, maxBuffer: nat, idle: Option<nat>) {

    method Drain(buf: Vec<byte>, out: Vec<Bytes>)
      requires strategy.WellFormed() && buf as object != out
      modifies buf, out
      ensures buf.items == Drained(strategy, old(buf.items)).rest
      ensures out.items == old(out.items) + Frames(Drained(strategy, old(buf.items)).out)
    {
      match strategy {
        case Delimiter(_, _) => DrainDelimiter(buf, out);
        case Fixed(_) => DrainFixed(buf, out);
        case LengthPrefixed(_, _, _, _, _, _) => DrainLengthPrefixed(buf, out);
        case IdleTimeout => assert Frames([]) == [];
      }
    }

    method DrainDelimiter(buf: Vec<byte>, out: Vec<Bytes>)
      requires strategy.Delimiter? && strategy.WellFormed() && buf as object != out
      modifies buf, out
      ensures buf.items == Drained(strategy, old(buf.items)).rest
      ensures out.items == old(out.items) + Frames(Drained(strategy, old(buf.items)).out)
    {
      var delim, inclusive := strategy.delim, strategy.inclusive;
      var found := FindSubslice(buf.items, delim);
      while found.Some?
        invariant found == FindSubslice(buf.items, delim)
        invariant DrainedSoFar(old(buf.items), old(out.items), buf.items, out.items)
        decreases |buf.items|
      {
        var end := found.value + |delim|;
        var take := if inclusive then end else found.value;
        var frame := buf.items[..take];
        DelimiterCut(delim, inclusive, buf.items);
        DrainStep(old(buf.items), old(out.items), buf.items, out.items, frame, end);
        buf.items := buf.items[end..];
        out.items := out.items + [frame];
        found := FindSubslice(buf.items, delim);
      }
      DrainStop(old(buf.items), old(out.items), buf.items, out.items);
    }

    method DrainFixed(buf: Vec<byte>, out: Vec<Bytes>)
      requires strategy.Fixed? && strategy.WellFormed() && buf as object != out
      modifies buf, out
      ensures buf.items == Drained(strategy, old(buf.items)).rest
      ensures out.items == old(out.items) + Frames(Drained(strategy, old(buf.items)).out)
    {
      var len := strategy.len;
      while |buf.items| >= len
        invariant DrainedSoFar(old(buf.items), old(out.items), buf.items, out.items)
        decreases |buf.items|
      {
        var frame := buf.items[..len];
        DrainStep(old(buf.items), old(out.items), buf.items, out.items, frame, len);
        buf.items := buf.items[len..];
        out.items := out.items + [frame];
      }
      DrainStop(old(buf.items), old(out.items), buf.items, out.items);
    }

    method DrainLengthPrefixed(buf: Vec<byte>, out: Vec<Bytes>)
      requires strategy.LengthPrefixed? && strategy.WellFormed() && buf as object != out
      modifies buf, out
      ensures buf.items == Drained(strategy, old(buf.items)).rest
      ensures out.items == old(out.items) + Frames(Drained(strategy, old(buf.items)).out)
    {
      var needForLen := strategy.lengthOffset + strategy.lengthSize;
      while |buf.items| >= needForLen
        invariant DrainedSoFar(old(buf.items), old(out.items), buf.items, out.items)
        decreases |buf.items|
      {
        var total := ReadTotal(strategy, buf.items);
        if total == 0 || total < needForLen {
          FlushStep(old(buf.items), old(out.items), buf.items, out.items);
          out.items := out.items + [buf.items];
          buf.items := [];
          return;
        }
        if |buf.items| < total {
          break;
        }
        var frame := buf.items[..total];
        DrainStep(old(buf.items), old(out.items), buf.items, out.items, frame, total);
        buf.items := buf.items[total..];
        out.items := out.items + [frame];
      }
      DrainStop(old(buf.items), old(out.items), buf.items, out.items);
    }

    method Push(buf: Vec<byte>, chunk: Bytes, out: Vec<Bytes>)
      requires strategy.WellFormed()
      requires buf as object != out
      modifies buf, out
      ensures buf.items == Pushed(this, old(buf.items), chunk).rest
      ensures out.items == old(out.items) + Frames(Pushed(this, old(buf.items), chunk).out)
    {
      buf.items := buf.items + chunk;
      Drain(buf, out);
      if |buf.items| > maxBuffer {
        ghost var last := Emission(buf.items, [], Backstop);
        FramesAppend(Drained(strategy, old(buf.items) + chunk).out, [last]);
        assert Frames([last]) == [buf.items];
        out.items := out.items + [buf.items];
        buf.items := [];
      }
    }

    method OnIdle(buf: Vec<byte>, out: Vec<Bytes>)
      requires buf as object != out
      modifies buf, out
      ensures buf.items == Idled(this, old(buf.items)).rest
      ensures out.items == old(out.items) + Frames(Idled(this, old(buf.items)).out)
    {
      assert Frames([]) == [];
      if strategy.IdleTimeout? && buf.items != [] {
        assert Frames([Emission(buf.items, [], Idle)]) == [buf.items];
        out.items := out.items + [buf.items];
        buf.items := [];
      }
    }

    /** Loop invariant of the drain loops: what is left to do from here completes the whole. */
    ghost predicate DrainedSoFar(buf0: Bytes, out0: seq<Bytes>, buf: Bytes, out: seq<Bytes>)
      requires strategy.WellFormed()
    {
      var all, left := Drained(strategy, buf0), Drained(strategy, buf);
      all.rest == left.rest && out0 + Frames(all.out) == out + Frames(left.out)
    }

    lemma DelimiterCut(delim: Bytes, inclusive: bool, buf: Bytes)
      requires delim != [] && FindSubslice(buf, delim).Some?
      ensures var pos := FindSubslice(buf, delim).value;
              NextCut(Delimiter(delim, inclusive), buf) ==
              if inclusive then Emit(buf[..pos + |delim|], []) else Emit(buf[..pos], delim)
    {
    }

    lemma DrainStep(buf0: Bytes, out0: seq<Bytes>, buf: Bytes, out: seq<Bytes>, frame: Bytes, used: nat)
      requires strategy.WellFormed() && DrainedSoFar(buf0, out0, buf, out)
      requires NextCut(strategy, buf).Emit?
      requires frame == NextCut(strategy, buf).frame && used == |frame| + |NextCut(strategy, buf).stripped|
      ensures 0 < used <= |buf|
      ensures DrainedSoFar(buf0, out0, buf[used..], out + [frame])
    {
      hide NextCut, FindSubslice;
      var later := Drained(strategy, buf[used..]);
      assert Frames(Drained(strategy, buf).out) == [frame] + Frames(later.out);
      assert out + ([frame] + Frames(later.out)) == (out + [frame]) + Frames(later.out);
    }

    lemma DrainStop(buf0: Bytes, out0: seq<Bytes>, buf: Bytes, out: seq<Bytes>)
      requires strategy.WellFormed() && DrainedSoFar(buf0, out0, buf, out)
      requires NextCut(strategy, buf).Stop?
      ensures Drained(strategy, buf0).rest == buf
      ensures out0 + Frames(Drained(strategy, buf0).out) == out
    {
      assert Frames([]) == [];
    }

    lemma FlushStep(buf0: Bytes, out0: seq<Bytes>, buf: Bytes, out: seq<Bytes>)
      requires strategy.WellFormed() && DrainedSoFar(buf0, out0, buf, out)
      requires NextCut(strategy, buf).Malformed?
      ensures Drained(strategy, buf0).rest == []
      ensures out0 + Frames(Drained(strategy, buf0).out) == out + [buf]
    {
      assert Frames(Drained(strategy, buf).out) == [buf];
    }
  }
}
