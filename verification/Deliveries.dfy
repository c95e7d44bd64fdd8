/** Every way to cut a stream into reads is a run of the port; hence exactly those streams decide
    the answers on which the framer does not depend on the chunks. */
module Deliveries {
  import opened Common
  import opened Config
  import opened Captures
  import opened Framing
  import opened Chunking
  import opened Port
  import opened Protocol
  import opened Invariants
  import opened Determinism
  import Guarantees

  /** The reader alone is at work, with these frames still to handle. */
  predicate Busy(s: State, todo: seq<Bytes>) {
    s.reader == Handling(todo) && s.writer.Free? && s.current.None? && s.framing.strategy.WellFormed()
  }

  predicate Ready(s: State) {
    s.reader.AtHead? && s.writer.Free? && s.current.None? && s.framing.strategy.WellFormed()
  }

  /** What handling frames leaves alone. */
  predicate SameStream(s: State, t: State) {
    t.framing == s.framing && t.buf == s.buf && t.hist.raw == s.hist.raw && t.hist.emitted == s.hist.emitted
  }

  predicate Gapless(acts: seq<Action>) {
    AllUndisturbing(acts, false)
  }

  lemma GapFreeAppend(a: seq<Action>, b: seq<Action>)
    requires Gapless(a) && Gapless(b)
    ensures Gapless(a + b)
  {
  }

  lemma OneStep(eng: Engine, s: State, a: Action)
    requires Enabled(eng, s, a)
    ensures Runs(eng, s, [a]) && StateAfter(eng, s, [a]) == Next(eng, s, a)
  {
    Guarantees.RunsNone(eng, Next(eng, s, a));
    Guarantees.RunsOne(eng, s, a, []);
    assert [a] + [] == [a];
  }

  /** The frame in hand is matched and its response, if any, about to be written. */
  predicate FrameMatched(s: State, todo: seq<Bytes>) {
    && s.framing.strategy.WellFormed()
    && (|| (s.reader.Recording? && s.writer.Free? && s.current.None?)
        || (s.reader.Writing? && s.current.Some? && s.current.value.sent == 0))
    && s.reader.todo == todo
  }

  predicate Answered(s: State, todo: seq<Bytes>) {
    && s.framing.strategy.WellFormed()
    && s.reader.Recording? && s.writer.Free? && s.current.None? && s.reader.todo == todo
  }

  lemma MatchFrame(eng: Engine, s: State, todo: seq<Bytes>)
    requires Busy(s, todo) && todo != []
    ensures var acts := [ByReader(Choose), ByReader(MatchLine)];
            && Runs(eng, s, acts)
            && FrameMatched(StateAfter(eng, s, acts), todo[1..]) && SameStream(s, StateAfter(eng, s, acts))
  {
    hide Answer;
    var choose, line := ByReader(Choose), ByReader(MatchLine);
    var s1 := Next(eng, s, choose);
    OneStep(eng, s1, line);
    Guarantees.RunsOne(eng, s, choose, [line]);
    assert [choose] + [line] == [choose, line];
  }

  lemma SendResponse(eng: Engine, s: State, todo: seq<Bytes>) returns (acts: seq<Action>)
    requires FrameMatched(s, todo)
    ensures Gapless(acts) && Runs(eng, s, acts)
    ensures Answered(StateAfter(eng, s, acts), todo) && SameStream(s, StateAfter(eng, s, acts))
  {
    if s.reader.Recording? {
      Guarantees.RunsNone(eng, s);
      acts := [];
    } else {
      var send, release := ByReader(WriteSome(|s.current.value.data|)), ByReader(Release);
      var t := Next(eng, s, send);
      OneStep(eng, t, release);
      Guarantees.RunsOne(eng, s, send, [release]);
      acts := [send] + [release];
    }
  }

  lemma HandleOne(eng: Engine, s: State, todo: seq<Bytes>) returns (acts: seq<Action>)
    requires Busy(s, todo) && todo != []
    ensures Gapless(acts) && Runs(eng, s, acts)
    ensures Busy(StateAfter(eng, s, acts), todo[1..]) && SameStream(s, StateAfter(eng, s, acts))
  {
    var first, record := [ByReader(Choose), ByReader(MatchLine)], ByReader(Record(0));
    MatchFrame(eng, s, todo);
    var s1 := StateAfter(eng, s, first);
    var send := SendResponse(eng, s1, todo[1..]);
    var s2 := StateAfter(eng, s1, send);
    RecordFrame(eng, s2, todo[1..]);
    assert Gapless(first) && Gapless([record]);
    hide Runs, StateAfter, Gapless, FrameMatched, Answered, Busy;
    GapFreeAppend(send, [record]);
    GapFreeAppend(first, send + [record]);
    Guarantees.RunsAppend(eng, s1, send, [record]);
    Guarantees.RunsAppend(eng, s, first, send + [record]);
    acts := first + (send + [record]);
  }

  lemma RecordFrame(eng: Engine, s: State, todo: seq<Bytes>)
    requires Answered(s, todo)
    ensures var acts := [ByReader(Record(0))];
            && Runs(eng, s, acts)
            && Busy(StateAfter(eng, s, acts), todo) && SameStream(s, StateAfter(eng, s, acts))
  {
    hide Apply, Remember;
    OneStep(eng, s, ByReader(Record(0)));
  }

  lemma {:induction false} HandleAll(eng: Engine, s: State, todo: seq<Bytes>) returns (acts: seq<Action>)
    requires Busy(s, todo)
    ensures Gapless(acts) && Runs(eng, s, acts)
    ensures Ready(StateAfter(eng, s, acts)) && SameStream(s, StateAfter(eng, s, acts))
    decreases |todo|
  {
    if todo == [] {
      OneStep(eng, s, ByReader(Finish));
      acts := [ByReader(Finish)];
    } else {
      acts := HandleOne(eng, s, todo);
      hide Runs, StateAfter, Gapless;
      var more := HandleAll(eng, StateAfter(eng, s, acts), todo[1..]);
      Guarantees.RunsAppend(eng, s, acts, more);
      GapFreeAppend(acts, more);
      acts := acts + more;
    }
  }

  /** One read of a chunk, all the way to the next loop head. */
  lemma ServeChunk(eng: Engine, s: State, chunk: Bytes) returns (acts: seq<Action>)
    requires Ready(s) && 1 <= |chunk| <= READ_SIZE
    ensures Gapless(acts) && Runs(eng, s, acts)
    ensures var t, o := StateAfter(eng, s, acts), Pushed(s.framing, s.buf, chunk);
            && Ready(t) && t.framing == s.framing && t.hist.raw == s.hist.raw + chunk
            && t.buf == o.rest && t.hist.emitted == s.hist.emitted + o.out
  {
    hide Apply, Remember, Pushed, Idled;
    var a1, a2, a3 := ByReader(Snapshot), ByReader(Read(chunk)), ByReader(PushChunk);
    var s1 := Next(eng, s, a1);
    var s2 := Next(eng, s1, a2);
    var s3 := Next(eng, s2, a3);
    var more := HandleAll(eng, s3, Frames(Pushed(s.framing, s.buf, chunk).out));
    hide Next, Enabled;
    Guarantees.RunsOne(eng, s2, a3, more);
    Guarantees.RunsOne(eng, s1, a2, [a3] + more);
    Guarantees.RunsOne(eng, s, a1, [a2] + ([a3] + more));
    acts := [a1] + ([a2] + ([a3] + more));
    GapFreeAppend([a1, a2, a3], more);
    assert acts == [a1, a2, a3] + more;
  }

  predicate Readable(chunks: seq<Bytes>) {
    forall i :: 0 <= i < |chunks| ==> 1 <= |chunks[i]| <= READ_SIZE
  }

  /** Any list of chunks that the reader's buffer can take is what some run reads. */
  lemma {:induction false} ServeAll(eng: Engine, s: State, chunks: seq<Bytes>) returns (acts: seq<Action>)
    requires Ready(s) && Readable(chunks)
    ensures Gapless(acts) && Runs(eng, s, acts)
    ensures var t := StateAfter(eng, s, acts);
            && Ready(t) && t.hist.raw == s.hist.raw + Flatten(chunks)
            && Outcome(t.hist.emitted, t.buf) == PushAll(s.framing, s.buf, chunks).After(s.hist.emitted)
    decreases |chunks|
  {
    hide Runs, StateAfter, Gapless, Pushed;
    if chunks == [] {
      Guarantees.RunsNone(eng, s);
      acts := [];
      assert Gapless([]) by {
        NoSteps();
      }
      assert s.hist.emitted + [] == s.hist.emitted && s.hist.raw + [] == s.hist.raw;
    } else {
      acts := ServeChunk(eng, s, chunks[0]);
      var t := StateAfter(eng, s, acts);
      var more := ServeAll(eng, t, chunks[1..]);
      Guarantees.RunsAppend(eng, s, acts, more);
      GapFreeAppend(acts, more);
      acts := acts + more;
      var first := Pushed(s.framing, s.buf, chunks[0]);
      AfterAfter(PushAll(s.framing, first.rest, chunks[1..]), s.hist.emitted, first.out);
      Peel(s.hist.raw, chunks[0], Flatten(chunks[1..]));
    }
  }

  lemma NoSteps()
    ensures Gapless([])
  {
  }

  /** A run from the start that receives exactly this stream, without gaps and disturbances, and
      has handled all of it. */
  ghost predicate Receives(eng: Engine, s0: State, acts: seq<Action>, stream: Bytes) {
    && Runs(eng, s0, acts) && Gapless(acts)
    && Guarantees.BetweenTurns(StateAfter(eng, s0, acts).reader) && StateAfter(eng, s0, acts).hist.raw == stream
  }

  ghost predicate AnswersAlike(eng: Engine, s0: State, a: seq<Action>, b: seq<Action>)
    requires Runs(eng, s0, a) && Runs(eng, s0, b)
  {
    var s, t := StateAfter(eng, s0, a), StateAfter(eng, s0, b);
    s.output == t.output && Outcomes(s.hist.handled) == Outcomes(t.hist.handled)
  }

  /** A run that reads the given chunks of the stream records the frames of their pushes. */
  lemma Delivered(eng: Engine, cfg: PortConfig, s0: State, chunks: seq<Bytes>) returns (acts: seq<Action>)
    requires InitFrom(eng, cfg, s0) && s0.framing.strategy.WellFormed() && Readable(chunks)
    ensures Receives(eng, s0, acts, Flatten(chunks))
    ensures HandledFrames(StateAfter(eng, s0, acts).hist.handled) == Frames(PushAll(s0.framing, [], chunks).out)
  {
    hide Runs, StateAfter, PushAll, Flatten, HandledFrames, Histories, Scenarios, Swapping, Specs, Conserved;
    hide EmittedShaped, Locking, OutputIsBlocks, Sourced, Paired, Triggered, Logged;
    StartsIdle(eng, cfg, s0);
    InitInv(eng, cfg, s0);
    hide InitFrom;
    acts := ServeAll(eng, s0, chunks);
    RunKeepsInv(eng, s0, acts);
    var t := StateAfter(eng, s0, acts);
    assert [] + Flatten(chunks) == Flatten(chunks);
    assert [] + PushAll(s0.framing, [], chunks).out == PushAll(s0.framing, [], chunks).out;
    assert HandledFrames(t.hist.handled) + [] == HandledFrames(t.hist.handled);
  }

  lemma StartsIdle(eng: Engine, cfg: PortConfig, s0: State)
    requires InitFrom(eng, cfg, s0)
    ensures Ready(s0) && s0.buf == [] && s0.hist.raw == [] && s0.hist.emitted == []
  {
    hide Compiled, ValidPort, FromConfig;
    FromConfigWellFormed(eng, cfg);
  }

  lemma DifferentFrames(a: seq<Handled>, b: seq<Handled>)
    requires HandledFrames(a) != HandledFrames(b)
    ensures Outcomes(a) != Outcomes(b)
  {
    if |a| == |b| {
      var i :| 0 <= i < |a| && a[i].frame != b[i].frame;
      assert Outcomes(a)[i] != Outcomes(b)[i];
    }
  }

  lemma ShortIsReadable(chunks: seq<Bytes>)
    requires ShortChunks(chunks)
    ensures Readable(chunks)
  {
  }

  /** If the stream forces a flush before its last byte, two runs that read it in small pieces
      record different frames. */
  lemma LoudStreamsDiffer(eng: Engine, cfg: PortConfig, s0: State, stream: Bytes)
      returns (a: seq<Action>, b: seq<Action>)
    requires InitFrom(eng, cfg, s0) && s0.framing.strategy.WellFormed()
    requires !QuietInside(s0.framing, [], stream)
    ensures Receives(eng, s0, a, stream) && Receives(eng, s0, b, stream) && !AnswersAlike(eng, s0, a, b)
  {
    hide InitFrom, QuietInside, PushAll, Flatten, Frames, ShortChunks, Readable, HandledFrames, StateAfter;
    EmptyIsStop(s0.framing.strategy);
    var c1, c2 := LoudInsideTellsApart(s0.framing, [], stream);
    ShortIsReadable(c1);
    ShortIsReadable(c2);
    a := Delivered(eng, cfg, s0, c1);
    b := Delivered(eng, cfg, s0, c2);
    DifferentFrames(StateAfter(eng, s0, a).hist.handled, StateAfter(eng, s0, b).hist.handled);
  }

  /** All gap-free runs that receive a stream answer and record the same if and only if no proper
      prefix of the stream forces a flush. */
  lemma StreamDecidesExactly(eng: Engine, cfg: PortConfig, s0: State, stream: Bytes)
    requires InitFrom(eng, cfg, s0) && s0.framing.strategy.WellFormed()
    ensures QuietInside(s0.framing, [], stream) <==>
            forall a, b | Receives(eng, s0, a, stream) && Receives(eng, s0, b, stream) :: AnswersAlike(eng, s0, a, b)
  {
    hide InitFrom, Runs, StateAfter;
    if QuietInside(s0.framing, [], stream) {
      forall a, b | Receives(eng, s0, a, stream) && Receives(eng, s0, b, stream)
        ensures AnswersAlike(eng, s0, a, b)
      {
        SameStreamSameAnswers(eng, cfg, s0, a, b);
      }
    } else {
      var a, b := LoudStreamsDiffer(eng, cfg, s0, stream);
    }
  }
}
