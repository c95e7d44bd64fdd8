/** What each framing configuration does on the wire, with nothing left to the compiled
    specification. Every bound is that of the default buffer. */
module FramingConfigs {
  import opened Common
  import opened Framing
  import opened Chunking
  import opened RoundTrips
  import opened WireFormats

  /** A delimiter configuration hands on each payload with its delimiter exactly if it includes
      delimiters, for exactly the payloads that end at the first delimiter and fit. */
  lemma DelimiterConfigExactly(d: Bytes, inclusive: bool, payloads: seq<Bytes>)
    requires d != []
    ensures FromConfig(Some(DelimiterConfig(d, inclusive))).strategy.WellFormed()
    ensures ComesBack(FromConfig(Some(DelimiterConfig(d, inclusive))), Flatten(Delimited(payloads, d)),
                      if inclusive then Delimited(payloads, d) else payloads) <==>
            forall i :: 0 <= i < |payloads| ==> FirstAtEnd(payloads[i], d) && |payloads[i]| + |d| <= 4097
  {
    hide FirstAtEnd, Flatten, ComesBack;
    DelimitedRoundTrip(FromConfig(Some(DelimiterConfig(d, inclusive))), payloads);
  }

  /** Without a configuration, lines come back with their line feed. */
  lemma DefaultIsLines(lines: seq<Bytes>)
    requires forall i :: 0 <= i < |lines| ==> 10 !in lines[i] && |lines[i]| <= 4096
    ensures FromConfig(None).strategy.WellFormed()
    ensures ComesBack(FromConfig(None), Flatten(Delimited(lines, [10])), Delimited(lines, [10]))
  {
    hide Contains, Bordered, Flatten, ComesBack;
    LineEndingsAreBorderless();
    var lf: Bytes := [10];
    forall p | p in lines
      ensures !Contains(p, lf) && |p| + |lf| <= 4097
    {
      LineIsFree(p);
    }
    BorderlessRoundTrip(FromConfig(None), lines);
  }

  lemma LineIsFree(p: Bytes)
    requires 10 !in p
    ensures !Contains(p, [10])
  {
    var lf: Bytes := [10];
    forall j: nat
      ensures !OccursAt(p, lf, j)
    {
      if j < |p| {
        assert p[j..j + 1] == [p[j]] && p[j] in p;
      }
    }
  }

  /** Blocks of the configured length come back, whatever that length is. */
  lemma FixedConfigBlocks(n: nat, blocks: seq<Bytes>)
    requires n > 0 && forall i :: 0 <= i < |blocks| ==> |blocks[i]| == n
    ensures FromConfig(Some(FixedConfig(n))).strategy.WellFormed()
    ensures ComesBack(FromConfig(Some(FixedConfig(n))), Flatten(blocks), blocks)
  {
    hide NextCut, IsUnit, Flatten, ComesBack;
    var spec := FromConfig(Some(FixedConfig(n)));
    forall i | 0 <= i < |blocks|
      ensures IsUnit(spec.strategy, blocks[i]) && UnitEmission(spec.strategy, blocks[i]).frame == blocks[i]
    {
      FixedUnit(n, blocks[i]);
    }
    assert Frames(UnitEmissions(spec.strategy, blocks)) == blocks;
    RoundTripExactly(spec, blocks);
  }

  /** The frame is as long as its length field says, read at the configured place, in the
      configured order and with the configured meaning. */
  predicate SelfDescribed(cfg: FramingConfig, frame: Bytes)
    requires cfg.LengthPrefixedConfig?
  {
    && cfg.lengthOffset + cfg.lengthSize <= |frame|
    && var n := UintValue(frame[cfg.lengthOffset..cfg.lengthOffset + cfg.lengthSize], cfg.lengthEndian);
       match cfg.lengthIncludes
       case Payload => |frame| == cfg.headerSize + n + cfg.trailerSize
       case Frame => |frame| == n
  }

  lemma SelfDescribedIsUnit(cfg: FramingConfig, frame: Bytes)
    requires cfg.LengthPrefixedConfig? && Validate(cfg).Ok?
    ensures IsUnit(FromConfig(Some(cfg)).strategy, frame) <==> SelfDescribed(cfg, frame)
    ensures IsUnit(FromConfig(Some(cfg)).strategy, frame) ==>
              UnitEmission(FromConfig(Some(cfg)).strategy, frame).frame == frame
  {
    hide UintValue, FindSubslice;
    var st := FromConfig(Some(cfg)).strategy;
    assert frame[..|frame|] == frame;
    if NextCut(st, frame).Emit? {
      assert NextCut(st, frame).Wire() == frame[..DeclaredTotal(st, frame)];
    }
  }

  /** Frames that describe themselves come back exactly if none has more than 4097 bytes. */
  lemma LengthPrefixedConfigExactly(cfg: FramingConfig, frames: seq<Bytes>)
    requires cfg.LengthPrefixedConfig? && Validate(cfg).Ok?
    requires forall i :: 0 <= i < |frames| ==> SelfDescribed(cfg, frames[i])
    ensures FromConfig(Some(cfg)).strategy.WellFormed()
    ensures ComesBack(FromConfig(Some(cfg)), Flatten(frames), frames) <==>
            forall i :: 0 <= i < |frames| ==> |frames[i]| <= 4097
  {
    hide NextCut, IsUnit, SelfDescribed, Flatten, ComesBack;
    var spec := FromConfig(Some(cfg));
    forall i | 0 <= i < |frames|
      ensures IsUnit(spec.strategy, frames[i]) && UnitEmission(spec.strategy, frames[i]).frame == frames[i]
    {
      SelfDescribedIsUnit(cfg, frames[i]);
    }
    assert Frames(UnitEmissions(spec.strategy, frames)) == frames;
    RoundTripExactly(spec, frames);
  }

  /** A header that declares less than itself makes the rest of the buffer one frame at once. */
  lemma LengthPrefixedConfigMalformed(cfg: FramingConfig, frames: seq<Bytes>, m: Bytes)
    requires cfg.LengthPrefixedConfig? && Validate(cfg).Ok?
    requires forall i :: 0 <= i < |frames| ==> SelfDescribed(cfg, frames[i])
    requires cfg.lengthOffset + cfg.lengthSize <= |m|
    requires var n := UintValue(m[cfg.lengthOffset..cfg.lengthOffset + cfg.lengthSize], cfg.lengthEndian);
             (match cfg.lengthIncludes
              case Payload => cfg.headerSize + n + cfg.trailerSize
              case Frame => n) < cfg.lengthOffset + cfg.lengthSize
    ensures FromConfig(Some(cfg)).strategy.WellFormed()
    ensures var o := Pushed(FromConfig(Some(cfg)), [], Flatten(frames) + m);
            Frames(o.out) == frames + [m] && o.rest == []
  {
    hide NextCut, IsUnit, SelfDescribed, Flatten, UintValue, Pushed;
    var spec := FromConfig(Some(cfg));
    forall i | 0 <= i < |frames|
      ensures IsUnit(spec.strategy, frames[i]) && UnitEmission(spec.strategy, frames[i]).frame == frames[i]
    {
      SelfDescribedIsUnit(cfg, frames[i]);
    }
    assert Frames(UnitEmissions(spec.strategy, frames)) == frames;
    TooLittleTakesTheRest(spec, frames, m);
    FramesAppend(UnitEmissions(spec.strategy, frames), [Emission(m, [], MalformedLength)]);
  }

  // ---- Idle framing ----

  lemma IdleDrains(buf: Bytes)
    ensures Drained(IdleTimeout, buf) == Outcome([], buf)
  {
  }

  lemma {:induction false} IdleAccumulates(spec: FramingSpec, buf: Bytes, chunks: seq<Bytes>)
    requires spec.strategy.IdleTimeout? && |buf + Flatten(chunks)| <= spec.maxBuffer
    ensures PushAll(spec, buf, chunks) == Outcome([], buf + Flatten(chunks))
    decreases |chunks|
  {
    hide Drained;
    if chunks == [] {
      assert buf + [] == buf;
    } else {
      IdleDrains(buf + chunks[0]);
      Peel(buf, chunks[0], Flatten(chunks[1..]));
      IdleAccumulates(spec, buf + chunks[0], chunks[1..]);
    }
  }

  /** A burst: some chunks and then a quiet gap. */
  function Burst(spec: FramingSpec, chunks: seq<Bytes>): seq<Call> {
    Pushes(spec, chunks) + [IdleCall(spec)]
  }

  lemma OneBurst(spec: FramingSpec, chunks: seq<Bytes>)
    requires spec.strategy.IdleTimeout? && 0 < |Flatten(chunks)| <= spec.maxBuffer
    ensures AllWellFormed(Burst(spec, chunks))
    ensures CallAll([], Pushes(spec, chunks)) == Outcome([], Flatten(chunks))
    ensures CallAll([], Burst(spec, chunks)) == Outcome([Emission(Flatten(chunks), [], Idle)], [])
  {
    hide Flatten, PushAll;
    var s := Flatten(chunks);
    assert [] + s == s;
    IdleAccumulates(spec, [], chunks);
    PushesPush(spec, [], chunks);
    CallAllAppend([], Pushes(spec, chunks), [IdleCall(spec)]);
    var flush := Emission(s, [], Idle);
    assert CallAll(s, [IdleCall(spec)]) == Outcome([flush] + [], []) by {
      assert [IdleCall(spec)][1..] == [];
    }
    assert [flush] + [] == [flush] && [] + [flush] == [flush];
  }

  function Bursts(spec: FramingSpec, bursts: seq<seq<Bytes>>): seq<Call> {
    if bursts == [] then [] else Burst(spec, bursts[0]) + Bursts(spec, bursts[1..])
  }

  function Joined(bursts: seq<seq<Bytes>>): (frames: seq<Bytes>)
    ensures |frames| == |bursts|
    ensures forall i :: 0 <= i < |frames| ==> frames[i] == Flatten(bursts[i])
  {
    seq(|bursts|, i requires 0 <= i < |bursts| => Flatten(bursts[i]))
  }

  /** Under an idle configuration each burst of at most 4096 bytes comes back as one frame at the
      gap that ends it, however it was cut into chunks, and not before. */
  lemma {:induction false} IdleConfigBursts(quietMs: nat, bursts: seq<seq<Bytes>>)
    requires forall i :: 0 <= i < |bursts| ==> 0 < |Flatten(bursts[i])| <= 4096
    ensures var spec := FromConfig(Some(IdleTimeoutConfig(quietMs)));
            && spec.idle == Some(quietMs) && AllWellFormed(Bursts(spec, bursts))
            && Frames(CallAll([], Bursts(spec, bursts)).out) == Joined(bursts)
            && CallAll([], Bursts(spec, bursts)).rest == []
            && forall i :: 0 <= i < |bursts| ==>
                 PushAll(spec, [], bursts[i]) == Outcome([], Flatten(bursts[i]))
    decreases |bursts|
  {
    hide Flatten, CallAll, PushAll, Burst;
    var spec := FromConfig(Some(IdleTimeoutConfig(quietMs)));
    forall i | 0 <= i < |bursts|
      ensures PushAll(spec, [], bursts[i]) == Outcome([], Flatten(bursts[i]))
    {
      assert [] + Flatten(bursts[i]) == Flatten(bursts[i]);
      IdleAccumulates(spec, [], bursts[i]);
    }
    if bursts == [] {
      NoCalls();
    } else {
      assert forall i :: 0 <= i < |bursts[1..]| ==> bursts[1..][i] == bursts[i + 1];
      IdleConfigBursts(quietMs, bursts[1..]);
      OneBurst(spec, bursts[0]);
      CallAllAppend([], Burst(spec, bursts[0]), Bursts(spec, bursts[1..]));
      var first, later := [Emission(Flatten(bursts[0]), [], Idle)], CallAll([], Bursts(spec, bursts[1..])).out;
      FramesAppend(first, later);
      assert Frames(first) == [Flatten(bursts[0])];
      assert Joined(bursts) == [Flatten(bursts[0])] + Joined(bursts[1..]);
    }
  }

  lemma NoCalls()
    ensures CallAll([], []) == Outcome([], []) && Frames([]) == []
  {
  }

  /** A gap changes nothing without an idle configuration, nor with an empty buffer. */
  lemma GapOnlyFlushesIdle(cfg: Option<FramingConfig>, buf: Bytes)
    ensures Idled(FromConfig(cfg), buf) ==
            if cfg.Some? && cfg.value.IdleTimeoutConfig? && buf != [] then Outcome([Emission(buf, [], Idle)], [])
            else Outcome([], buf)
  {
  }
}
