/** With a fixed scenario and framing, successful writes and no triggers: every run of the
    concurrent port does what the sequential reader loop does, and as long as no quiet gap is
    used, what it answers and records is a function of the byte stream alone. */
module Determinism {
  import opened Common
  import opened Config
  import opened Captures
  import opened Framing
  import opened Chunking
  import opened Port
  import opened Protocol
  import opened Invariants
  import Matching
  import Guarantees

  /** Steps that neither change the configuration, nor fire a trigger, nor let a write fail.
      Everything else may interleave. */
  predicate Undisturbing(a: Action) {
    match a
    case ByReader(r) => !r.WriteFails?
    case ByClient(_, c) => c.SwitchBegin? || c.FireBegin?
    case ByReload(w) => w.SwapBegin?
    case DropRaw => true
    case DropEvents => true
  }

  /** All steps are undisturbing; a quiet gap may be used only if `gaps` says so. */
  predicate AllUndisturbing(acts: seq<Action>, gaps: bool) {
    forall i :: 0 <= i < |acts| ==> Undisturbing(acts[i]) && (gaps || acts[i] != ByReader(Timeout))
  }

  predicate ReadersOwn(b: Block) {
    b.source.FromFrame? && !b.failed
  }

  predicate OnlyReaderWrites(s: State) {
    && (forall t | t in s.clients :: !s.clients[t].FiringWrite?)
    && (forall i :: 0 <= i < |s.hist.blocks| ==> ReadersOwn(s.hist.blocks[i]))
    && (s.current.Some? ==> ReadersOwn(s.current.value))
  }

  /** Calls of the framer with one specification; without `gaps` only pushes. */
  predicate CallsOf(spec: FramingSpec, calls: seq<Call>, gaps: bool) {
    forall i :: 0 <= i < |calls| ==>
      calls[i].spec == spec && (calls[i].PushCall? || (gaps && spec.idle.Some?))
  }

  /** The framer's calls that a run asks for: a push for each read and an idle call for each gap. */
  function CallsIn(spec: FramingSpec, acts: seq<Action>): seq<Call> {
    if acts == [] then [] else CallIn(spec, acts[0]) + CallsIn(spec, acts[1..])
  }

  function CallIn(spec: FramingSpec, a: Action): seq<Call> {
    match a
    case ByReader(Read(chunk)) => [PushCall(spec, chunk)]
    case ByReader(Timeout) => [IdleCall(spec)]
    case _ => []
  }

  /** The calls asked for are the ones made, and one more for a chunk in hand; the calls made
      explain what was emitted and what is buffered. */
  ghost predicate FramedBy(spec: FramingSpec, s: State, made: seq<Call>, asked: seq<Call>, gaps: bool)
    requires spec.strategy.WellFormed()
  {
    && CallsOf(spec, made, gaps) && s.hist.raw == Inputs(made) + Pending(s.reader)
    && asked == made + (if s.reader.HasChunk? then [PushCall(spec, s.reader.chunk)] else [])
    && Outcome(s.hist.emitted, s.buf) == CallAll([], made)
  }

  ghost predicate Framed(spec: FramingSpec, s: State, asked: seq<Call>, gaps: bool)
    requires spec.strategy.WellFormed()
  {
    && (Holds(s.reader) ==> s.reader.spec == spec)
    && (s.reader.HasChunk? ==> s.reader.chunk != [])
    && exists made :: FramedBy(spec, s, made, asked, gaps)
  }

  ghost predicate Undisturbed(s0: State, s: State, asked: seq<Call>, gaps: bool)
    requires s0.framing.strategy.WellFormed()
  {
    && s.hist.actives == [s0.active] && s.hist.specs == [s0.framing] && s.framing == s0.framing
    && !s.reload.ActiveIn?
    && OnlyReaderWrites(s) && Framed(s0.framing, s, asked, gaps)
  }

  lemma {:induction false} InputsSnoc(calls: seq<Call>, call: Call)
    ensures Inputs(calls + [call]) == Inputs(calls) + call.Input()
  {
    if calls != [] {
      assert (calls + [call])[1..] == calls[1..] + [call];
      InputsSnoc(calls[1..], call);
    }
  }

  lemma {:induction false} CallAllSnoc(buf: Bytes, calls: seq<Call>, call: Call)
    requires AllWellFormed(calls) && call.spec.strategy.WellFormed()
    ensures AllWellFormed(calls + [call])
    ensures var o := CallAll(buf, calls);
            CallAll(buf, calls + [call]) == Called(o.rest, call).After(o.out)
    decreases |calls|
  {
    hide Called;
    if calls == [] {
      var first := Called(buf, call);
      assert first.out + [] == first.out && [] + first.out == first.out;
    } else {
      var first := Called(buf, calls[0]);
      var mid := CallAll(first.rest, calls[1..]);
      assert (calls + [call])[1..] == calls[1..] + [call];
      CallAllSnoc(first.rest, calls[1..], call);
      AfterAfter(Called(mid.rest, call), first.out, mid.out);
    }
  }

  /** A call that the framer makes, on a chunk in hand or on a gap. */
  lemma FramedMore(spec: FramingSpec, s: State, t: State, made: seq<Call>, asked: seq<Call>, call: Call, gaps: bool)
    requires spec.strategy.WellFormed() && FramedBy(spec, s, made, asked, gaps)
    requires call.spec == spec && (call.PushCall? || (gaps && spec.idle.Some?))
    requires call.Input() == Pending(s.reader) && !t.reader.HasChunk?
    requires t.hist.raw == s.hist.raw
    requires var o := Called(s.buf, call); t.hist.emitted == s.hist.emitted + o.out && t.buf == o.rest
    ensures FramedBy(spec, t, made + [call], made + [call], gaps)
  {
    hide CallAll, Called, CallsOf, AllWellFormed, Inputs;
    CallsOfSnoc(spec, made, call, gaps);
    CallAllSnoc([], made, call);
    InputsSnoc(made, call);
    assert Inputs(made + [call]) + [] == Inputs(made + [call]) && (made + [call]) + [] == made + [call];
  }

  lemma CallsOfSnoc(spec: FramingSpec, calls: seq<Call>, call: Call, gaps: bool)
    requires CallsOf(spec, calls, gaps) && spec.strategy.WellFormed()
    requires call.spec == spec && (call.PushCall? || (gaps && spec.idle.Some?))
    ensures CallsOf(spec, calls + [call], gaps) && AllWellFormed(calls)
  {
  }

  /** A chunk that the reader takes in hand. */
  lemma FramedRead(spec: FramingSpec, s: State, t: State, made: seq<Call>, asked: seq<Call>, chunk: Bytes, gaps: bool)
    requires spec.strategy.WellFormed() && FramedBy(spec, s, made, asked, gaps)
    requires !s.reader.HasChunk? && t.reader.HasChunk? && t.reader.chunk == chunk
    requires t.hist.raw == s.hist.raw + chunk && t.hist.emitted == s.hist.emitted && t.buf == s.buf
    ensures FramedBy(spec, t, made, asked + [PushCall(spec, chunk)], gaps)
  {
    hide CallAll, CallsOf;
    assert asked == made && Inputs(made) + [] == Inputs(made);
  }

  lemma FramedStays(spec: FramingSpec, s: State, t: State, made: seq<Call>, asked: seq<Call>, gaps: bool)
    requires spec.strategy.WellFormed() && FramedBy(spec, s, made, asked, gaps)
    requires !s.reader.HasChunk? && !t.reader.HasChunk?
    requires t.hist.raw == s.hist.raw && t.hist.emitted == s.hist.emitted && t.buf == s.buf
    ensures FramedBy(spec, t, made, asked, gaps)
  {
    hide CallAll, CallsOf;
  }

  lemma AskedIsMade(spec: FramingSpec, s: State, made: seq<Call>, asked: seq<Call>, gaps: bool)
    requires spec.strategy.WellFormed() && FramedBy(spec, s, made, asked, gaps)
    ensures asked == if s.reader.HasChunk? then made + [PushCall(spec, s.reader.chunk)] else made
  {
    hide CallAll, CallsOf;
  }

  lemma FramedReader(eng: Engine, spec: FramingSpec, s: State, r: ReaderStep, asked: seq<Call>, gaps: bool)
    requires spec.strategy.WellFormed() && Framed(spec, s, asked, gaps)
    requires ReaderEnabled(s, r) && (r.Snapshot? ==> s.framing == spec) && (gaps || !r.Timeout?)
    ensures Framed(spec, ReaderDoes(eng, s, r), asked + CallIn(spec, ByReader(r)), gaps)
  {
    hide Pushed, Idled, Answer, Apply, Remember, FramedBy;
    var made :| FramedBy(spec, s, made, asked, gaps);
    var t := ReaderDoes(eng, s, r);
    AskedIsMade(spec, s, made, asked, gaps);
    if r.PushChunk? {
      FramedMore(spec, s, t, made, asked, PushCall(spec, s.reader.chunk), gaps);
    } else if r.Timeout? {
      FramedMore(spec, s, t, made, asked, IdleCall(spec), gaps);
    } else if r.Read? {
      FramedRead(spec, s, t, made, asked, r.chunk, gaps);
    } else {
      FramedStays(spec, s, t, made, asked, gaps);
    }
    assert asked + [] == asked;
  }

  lemma OnlyReaderWritesReader(eng: Engine, s: State, r: ReaderStep)
    requires OnlyReaderWrites(s) && ReaderEnabled(s, r) && !r.WriteFails?
    ensures OnlyReaderWrites(ReaderDoes(eng, s, r))
  {
    hide Pushed, Idled, Apply, Remember;
  }

  lemma UndisturbedReader(eng: Engine, s0: State, s: State, r: ReaderStep, asked: seq<Call>, gaps: bool)
    requires s0.framing.strategy.WellFormed() && Undisturbed(s0, s, asked, gaps)
    requires ReaderEnabled(s, r) && Undisturbing(ByReader(r)) && (gaps || !r.Timeout?)
    ensures Undisturbed(s0, ReaderDoes(eng, s, r), asked + CallIn(s0.framing, ByReader(r)), gaps)
  {
    hide ReaderDoes, ReaderEnabled, OnlyReaderWrites, Framed;
    ReaderFrame(eng, s, r);
    OnlyReaderWritesReader(eng, s, r);
    FramedReader(eng, s0.framing, s, r, asked, gaps);
  }

  lemma SameReaderSide(spec: FramingSpec, s: State, t: State, asked: seq<Call>, gaps: bool)
    requires spec.strategy.WellFormed() && Framed(spec, s, asked, gaps)
    requires t.reader == s.reader && t.buf == s.buf && t.hist.raw == s.hist.raw && t.hist.emitted == s.hist.emitted
    ensures Framed(spec, t, asked, gaps)
  {
    hide CallAll;
    var made :| FramedBy(spec, s, made, asked, gaps);
    assert FramedBy(spec, t, made, asked, gaps);
  }

  lemma UndisturbedClient(s0: State, s: State, tid: nat, c: ClientStep, asked: seq<Call>, gaps: bool)
    requires s0.framing.strategy.WellFormed() && Undisturbed(s0, s, asked, gaps)
    requires ClientEnabled(s, tid, c) && Undisturbing(ByClient(tid, c))
    ensures Undisturbed(s0, ClientDoes(s, tid, c), asked, gaps)
  {
    hide Framed;
    SameReaderSide(s0.framing, s, ClientDoes(s, tid, c), asked, gaps);
  }

  lemma UndisturbedReload(eng: Engine, s0: State, s: State, w: ReloadStep, asked: seq<Call>, gaps: bool)
    requires s0.framing.strategy.WellFormed() && Undisturbed(s0, s, asked, gaps)
    requires ReloadEnabled(eng, s, w) && w.SwapBegin?
    ensures Undisturbed(s0, ReloadDoes(eng, s, w), asked, gaps)
  {
    hide Framed, Compiled, NextActive, ValidPort;
    SameReaderSide(s0.framing, s, ReloadDoes(eng, s, w), asked, gaps);
  }

  lemma CaptureOnly(s0: State, s: State, op: Op, asked: seq<Call>, gaps: bool)
    requires s0.framing.strategy.WellFormed() && Undisturbed(s0, s, asked, gaps)
    ensures Undisturbed(s0, Capturing(s, op), asked, gaps)
  {
    hide Apply, Remember, Framed;
    SameReaderSide(s0.framing, s, Capturing(s, op), asked, gaps);
  }

  lemma UndisturbedStep(eng: Engine, s0: State, s: State, a: Action, asked: seq<Call>, gaps: bool)
    requires s0.framing.strategy.WellFormed() && Undisturbed(s0, s, asked, gaps) && Enabled(eng, s, a)
    requires Undisturbing(a) && (gaps || a != ByReader(Timeout))
    ensures Undisturbed(s0, Next(eng, s, a), asked + CallIn(s0.framing, a), gaps)
  {
    hide ReaderDoes, ClientDoes, ReloadDoes, ReaderEnabled, ClientEnabled, ReloadEnabled, Apply, Remember;
    hide OnlyReaderWrites, Framed;
    assert asked + [] == asked;
    match a {
      case ByReader(r) => UndisturbedReader(eng, s0, s, r, asked, gaps);
      case ByClient(tid, c) => UndisturbedClient(s0, s, tid, c, asked, gaps);
      case ByReload(w) => UndisturbedReload(eng, s0, s, w, asked, gaps);
      case DropRaw => CaptureOnly(s0, s, ClearRaw, asked, gaps);
      case DropEvents => CaptureOnly(s0, s, ClearEvents, asked, gaps);
    }
  }

  lemma {:induction false} RunStaysUndisturbed(eng: Engine, s0: State, s: State, acts: seq<Action>, asked: seq<Call>,
                                               gaps: bool)
    requires s0.framing.strategy.WellFormed() && Undisturbed(s0, s, asked, gaps)
    requires Runs(eng, s, acts) && AllUndisturbing(acts, gaps)
    ensures Undisturbed(s0, StateAfter(eng, s, acts), asked + CallsIn(s0.framing, acts), gaps)
    decreases |acts|
  {
    hide Undisturbed, Next, Enabled, CallIn;
    if acts == [] {
      assert asked + [] == asked;
    } else {
      assert Undisturbing(acts[0]);
      UndisturbedStep(eng, s0, s, acts[0], asked, gaps);
      assert forall i :: 0 <= i < |acts[1..]| ==> acts[1..][i] == acts[i + 1];
      RunStaysUndisturbed(eng, s0, Next(eng, s, acts[0]), acts[1..], asked + CallIn(s0.framing, acts[0]), gaps);
      Peel(asked, CallIn(s0.framing, acts[0]), CallsIn(s0.framing, acts[1..]));
    }
  }

  // ---- Output as a function of the recorded frames ----

  lemma {:induction false} WritesOfReader(eng: Engine, sc: CompiledScenario, blocks: seq<Block>)
    requires forall i :: 0 <= i < |blocks| ==>
               ReadersOwn(blocks[i]) && Justified(eng, blocks[i]) && blocks[i].scenario == sc
    ensures Flatten(Guarantees.Datas(blocks)) == Responses(eng, sc, HandledFrames(ReaderBlocks(blocks)))
  {
    hide Answer, Flatten;
    if blocks == [] {
      NothingSent();
    } else {
      var n := |blocks| - 1;
      var b := blocks[n];
      assert ReadersOwn(b) && Justified(eng, b);
      WritesOfReader(eng, sc, blocks[..n]);
      var early := ReaderBlocks(blocks[..n]);
      var h := Handled(b.source.frame, b.scenario, b.at, Some(b.source.rule));
      assert HandledFrames(early + [h]) == HandledFrames(early) + [h.frame];
      ResponsesSnoc(eng, sc, HandledFrames(early), h.frame);
      assert Guarantees.Datas(blocks) == Guarantees.Datas(blocks[..n]) + [b.data];
      FlattenSnoc(Guarantees.Datas(blocks[..n]), b.data);
    }
  }

  lemma NothingSent()
    ensures Flatten(Guarantees.Datas([])) == []
  {
  }

  predicate LabelledBy(eng: Engine, sc: CompiledScenario, h: Handled) {
    h.outcome == AnswerLabel(eng, sc, h.frame)
  }

  lemma {:induction false} UnmatchedAreSilent(eng: Engine, sc: CompiledScenario, handled: seq<Handled>)
    requires forall i :: 0 <= i < |handled| ==> LabelledBy(eng, sc, handled[i])
    ensures Responses(eng, sc, HandledFrames(Matched(handled))) == Responses(eng, sc, HandledFrames(handled))
  {
    hide Responses, HandledFrames, LabelledBy;
    if handled != [] {
      var n := |handled| - 1;
      UnmatchedAreSilent(eng, sc, handled[..n]);
      SilentStep(eng, sc, handled[..n], handled[n]);
      assert handled == handled[..n] + [handled[n]];
    }
  }

  lemma SilentStep(eng: Engine, sc: CompiledScenario, early: seq<Handled>, h: Handled)
    requires LabelledBy(eng, sc, h)
    requires Responses(eng, sc, HandledFrames(Matched(early))) == Responses(eng, sc, HandledFrames(early))
    ensures Responses(eng, sc, HandledFrames(Matched(early + [h]))) == Responses(eng, sc, HandledFrames(early + [h]))
  {
    SilentUnlessMatched(eng, sc, h.frame);
    hide AnswerLabel, AnswerBytes, Responses, HandledFrames, Matched;
    MatchedSnoc(early, h);
    ResponsesOfSnoc(eng, sc, early, h);
    ResponsesOfSnoc(eng, sc, Matched(early), h);
    var r := Responses(eng, sc, HandledFrames(early));
    assert r + [] == r && Matched(early) + [] == Matched(early);
  }

  lemma ResponsesOfSnoc(eng: Engine, sc: CompiledScenario, handled: seq<Handled>, h: Handled)
    ensures Responses(eng, sc, HandledFrames(handled + [h])) ==
            Responses(eng, sc, HandledFrames(handled)) + AnswerBytes(eng, sc, h.frame)
  {
    assert HandledFrames(handled + [h]) == HandledFrames(handled) + [h.frame];
    ResponsesSnoc(eng, sc, HandledFrames(handled), h.frame);
  }

  lemma SilentUnlessMatched(eng: Engine, sc: CompiledScenario, frame: Bytes)
    ensures AnswerLabel(eng, sc, frame).None? ==> AnswerBytes(eng, sc, frame) == []
  {
  }

  lemma SingleSnapshot(eng: Engine, sc: CompiledScenario, s: State)
    requires GoodWrites(eng, s) && GoodRecords(eng, s) && s.hist.actives == [sc]
    ensures forall i :: 0 <= i < |s.hist.blocks| ==> Justified(eng, s.hist.blocks[i]) && s.hist.blocks[i].scenario == sc
    ensures forall i :: 0 <= i < |s.hist.handled| ==> LabelledBy(eng, sc, s.hist.handled[i])
  {
    hide Justified, AnswerLabel;
    forall i | 0 <= i < |s.hist.blocks|
      ensures Justified(eng, s.hist.blocks[i]) && s.hist.blocks[i].scenario == sc
    {
      assert GoodBlock(eng, s, s.hist.blocks[i]);
    }
    forall i | 0 <= i < |s.hist.handled|
      ensures LabelledBy(eng, sc, s.hist.handled[i])
    {
      assert GoodHandled(eng, s, s.hist.handled[i]);
    }
  }

  lemma OnlyReaderHolds(s: State)
    requires Locking(s) && OnlyReaderWrites(s)
    ensures s.current.Some? ==> s.reader.Writing?
  {
  }

  /** The part of the first frame's response that has already been written. */
  ghost function Underway(eng: Engine, sc: CompiledScenario, s: State): Bytes {
    if s.reader.Recording? then AnswerBytes(eng, sc, s.reader.frame)
    else if s.current.Some? && s.current.value.sent <= |s.current.value.data| then Part(s.current.value)
    else []
  }

  lemma UnderwayIsPart(eng: Engine, sc: CompiledScenario, s: State)
    requires Locking(s) && Sourced(eng, s) && s.hist.actives == [sc] && OnlyReaderWrites(s)
    ensures Underway(eng, sc, s) == [] ||
            (InFlight(s.reader) != [] && Underway(eng, sc, s) <= AnswerBytes(eng, sc, InFlight(s.reader)[0]))
  {
    hide Matching.FirstMatch, LookupTrigger;
    OnlyReaderHolds(s);
  }

  lemma BlocksOfHandled(eng: Engine, sc: CompiledScenario, s: State)
    requires OutputIsBlocks(s) && Sourced(eng, s) && Paired(s)
    requires s.hist.actives == [sc] && OnlyReaderWrites(s)
    ensures Flatten(Parts(s.hist.blocks)) ==
            Responses(eng, sc, HandledFrames(s.hist.handled)) +
            if s.reader.Recording? then AnswerBytes(eng, sc, s.reader.frame) else []
  {
    SingleSnapshot(eng, sc, s);
    RecordingSilent(eng, sc, s);
    WholeParts(s.hist.blocks);
    hide Sourced, LabelledBy, Justified, Responses, Matched, ReaderBlocks, Flatten, AnswerBytes, HandledFrames;
    hide Parts, OutputIsBlocks;
    WritesOfReader(eng, sc, s.hist.blocks);
    UnmatchedAreSilent(eng, sc, s.hist.handled);
    var m, r := Matched(s.hist.handled), Responses(eng, sc, HandledFrames(s.hist.handled));
    assert m + [] == m && r + [] == r;
    if s.reader.Recording? && s.reader.outcome.Some? {
      ResponsesOfSnoc(eng, sc, m, BeingRecorded(s.reader)[0]);
    }
  }

  lemma OutputOfHandled(eng: Engine, sc: CompiledScenario, s: State)
    requires Locking(s) && OutputIsBlocks(s) && Sourced(eng, s) && Paired(s)
    requires s.hist.actives == [sc] && OnlyReaderWrites(s)
    ensures s.output == Responses(eng, sc, HandledFrames(s.hist.handled)) + Underway(eng, sc, s)
    ensures forall i :: 0 <= i < |s.hist.handled| ==> LabelledBy(eng, sc, s.hist.handled[i])
  {
    OnlyReaderHolds(s);
    SingleSnapshot(eng, sc, s);
    BlocksOfHandled(eng, sc, s);
    hide Locking, Sourced, Paired, LabelledBy, Justified, Responses, Flatten, AnswerBytes, HandledFrames;
    var r := Responses(eng, sc, HandledFrames(s.hist.handled));
    assert r + [] == r && s.output + [] == s.output;
  }

  lemma RecordingSilent(eng: Engine, sc: CompiledScenario, s: State)
    requires Sourced(eng, s) && s.hist.actives == [sc]
    ensures s.reader.Recording? && s.reader.outcome.None? ==> AnswerBytes(eng, sc, s.reader.frame) == []
  {
    hide Matching.FirstMatch;
  }

  lemma WholeParts(blocks: seq<Block>)
    requires forall i :: 0 <= i < |blocks| ==> Done(blocks[i])
    requires forall i :: 0 <= i < |blocks| ==> ReadersOwn(blocks[i])
    ensures forall i :: 0 <= i < |blocks| ==> WithinData(blocks[i])
    ensures Parts(blocks) == Guarantees.Datas(blocks)
  {
    forall i | 0 <= i < |blocks|
      ensures WithinData(blocks[i]) && Part(blocks[i]) == blocks[i].data
    {
      assert ReadersOwn(blocks[i]) && Done(blocks[i]);
      assert blocks[i].data[..|blocks[i].data|] == blocks[i].data;
    }
  }

  lemma StartsUndisturbed(eng: Engine, cfg: PortConfig, s0: State, gaps: bool)
    requires InitFrom(eng, cfg, s0)
    ensures Inv(eng, s0) && s0.framing.strategy.WellFormed() && Undisturbed(s0, s0, [], gaps)
  {
    hide Compiled, ValidPort, FromConfig, Inv;
    InitInv(eng, cfg, s0);
    FromConfigWellFormed(eng, cfg);
    assert FramedBy(s0.framing, s0, [], [], gaps);
  }

  // ---- Every run is a run of the sequential reader loop ----

  /** The reader meets this input where the framer gets this call; its clock does not matter. */
  predicate Fits(input: Input, call: Call) {
    match call
    case PushCall(_, chunk) => input.Chunk? && input.data == chunk
    case IdleCall(_) => input.Gap?
  }

  predicate AllFit(inputs: seq<Input>, calls: seq<Call>) {
    |inputs| == |calls| && forall i :: 0 <= i < |calls| ==> Fits(inputs[i], calls[i])
  }

  function InputsFor(calls: seq<Call>): (inputs: seq<Input>)
    ensures AllFit(inputs, calls)
  {
    seq(|calls|, i requires 0 <= i < |calls| =>
      match calls[i]
      case PushCall(_, chunk) => Chunk(chunk, n => 0)
      case IdleCall(_) => Gap(n => 0))
  }

  /** The events that the operations record, time stamps aside. */
  function EventsOf(ops: seq<Op>): seq<(Bytes, Option<string>)> {
    if ops == [] then []
    else (if ops[0].Push? then [(ops[0].data, ops[0].matchedRule)] else []) + EventsOf(ops[1..])
  }

  /** The raw bytes that the operations record. */
  function RawOf(ops: seq<Op>): Bytes {
    if ops == [] then [] else (if ops[0].Raw? then ops[0].chunk else []) + RawOf(ops[1..])
  }

  lemma {:induction false} OpsAppend(a: seq<Op>, b: seq<Op>)
    ensures EventsOf(a + b) == EventsOf(a) + EventsOf(b) && RawOf(a + b) == RawOf(a) + RawOf(b)
  {
    if a == [] {
      assert a + b == b;
    } else {
      assert (a + b)[1..] == a[1..] + b;
      OpsAppend(a[1..], b);
      Peel(if a[0].Push? then [(a[0].data, a[0].matchedRule)] else [], EventsOf(a[1..]), EventsOf(b));
      Peel(if a[0].Raw? then a[0].chunk else [], RawOf(a[1..]), RawOf(b));
    }
  }

  /** The events that answer the frames. */
  function EventsFor(eng: Engine, sc: CompiledScenario, frames: seq<Bytes>): (r: seq<(Bytes, Option<string>)>)
    ensures |r| == |frames|
    ensures forall i :: 0 <= i < |r| ==> r[i] == (frames[i], AnswerLabel(eng, sc, frames[i]))
  {
    seq(|frames|, i requires 0 <= i < |frames| => (frames[i], AnswerLabel(eng, sc, frames[i])))
  }

  lemma {:induction false} RecordedEvents(eng: Engine, sc: CompiledScenario, frames: seq<Bytes>, clock: nat -> nat)
    ensures EventsOf(Recorded(eng, sc, frames, clock)) == EventsFor(eng, sc, frames)
    ensures RawOf(Recorded(eng, sc, frames, clock)) == []
  {
    hide AnswerLabel;
    if frames != [] {
      var later := (n: nat) => clock(n + 1);
      var ops := Recorded(eng, sc, frames, clock);
      assert ops[1..] == Recorded(eng, sc, frames[1..], later);
      RecordedEvents(eng, sc, frames[1..], later);
      hide Recorded;
      assert EventsFor(eng, sc, frames) == [EventsFor(eng, sc, frames)[0]] + EventsFor(eng, sc, frames[1..]);
    }
  }

  lemma TurnOfCall(eng: Engine, spec: FramingSpec, sc: CompiledScenario, buf: Bytes, call: Call, input: Input)
    requires spec.strategy.WellFormed() && call.spec == spec && (call.PushCall? || spec.idle.Some?)
    requires Fits(input, call)
    ensures var t, o := TurnOf(eng, spec, sc, buf, input), Called(buf, call);
            && t.sent == Replies(eng, sc, Frames(o.out)) && t.buf == o.rest
            && EventsOf(t.ops) == EventsFor(eng, sc, Frames(o.out)) && RawOf(t.ops) == call.Input()
  {
    hide Pushed, Idled, AnswerLabel, AnswerBytes;
    var o := Called(buf, call);
    RecordedEvents(eng, sc, Frames(o.out), input.clock);
    if call.PushCall? {
      OpsAppend([Raw(call.chunk)], Recorded(eng, sc, Frames(o.out), input.clock));
      assert RawOf([Raw(call.chunk)]) == call.chunk + [] && EventsOf([Raw(call.chunk)]) == [];
    }
  }

  /** What the reader loop does for a list of inputs is what the framer's calls make of them. */
  lemma {:induction false} ReaderRunOfCalls(eng: Engine, spec: FramingSpec, sc: CompiledScenario, buf: Bytes,
                                            calls: seq<Call>, inputs: seq<Input>)
    requires spec.strategy.WellFormed() && CallsOf(spec, calls, true) && AllFit(inputs, calls)
    ensures var t, o := ReaderRun(eng, spec, sc, buf, inputs), CallAll(buf, calls);
            && t.sent == Replies(eng, sc, Frames(o.out)) && t.buf == o.rest
            && EventsOf(t.ops) == EventsFor(eng, sc, Frames(o.out)) && RawOf(t.ops) == Inputs(calls)
    decreases |calls|
  {
    hide Called, TurnOf, AnswerLabel, AnswerBytes;
    if calls != [] {
      TurnOfCall(eng, spec, sc, buf, calls[0], inputs[0]);
      var o, t := Called(buf, calls[0]), TurnOf(eng, spec, sc, buf, inputs[0]);
      ReaderRunOfCalls(eng, spec, sc, o.rest, calls[1..], inputs[1..]);
      var later, rest := CallAll(o.rest, calls[1..]), ReaderRun(eng, spec, sc, o.rest, inputs[1..]);
      assert ReaderRun(eng, spec, sc, buf, inputs) == rest.Behind(t.ops, t.sent) by {
        assert Fits(inputs[0], calls[0]);
      }
      hide ReaderRun, EventsFor, Replies, EventsOf, RawOf, CallsOf, AllFit;
      OpsAppend(t.ops, rest.ops);
      FramesAppend(o.out, later.out);
      AnswersAppend(eng, sc, Frames(o.out), Frames(later.out));
    }
  }

  lemma AnswersAppend(eng: Engine, sc: CompiledScenario, a: seq<Bytes>, b: seq<Bytes>)
    ensures Replies(eng, sc, a + b) == Replies(eng, sc, a) + Replies(eng, sc, b)
    ensures EventsFor(eng, sc, a + b) == EventsFor(eng, sc, a) + EventsFor(eng, sc, b)
  {
    hide AnswerLabel, AnswerBytes;
  }

  /** The inputs explain all that the port did: what it sent, what it holds in its framing
      buffer, and what it received and recorded, time stamps aside. */
  ghost predicate Explains(eng: Engine, s0: State, s: State, inputs: seq<Input>)
    requires s0.framing.strategy.WellFormed()
  {
    var t := ReaderRun(eng, s0.framing, s0.active, [], inputs);
    && s.output == Flatten(t.sent) && s.buf == t.buf && s.hist.raw == RawOf(t.ops)
    && EventsOf(t.ops) == Outcomes(s.hist.handled)
  }

  function Outcomes(handled: seq<Handled>): (r: seq<(Bytes, Option<string>)>)
    ensures |r| == |handled|
    ensures forall i :: 0 <= i < |r| ==> r[i] == (handled[i].frame, handled[i].outcome)
  {
    seq(|handled|, i requires 0 <= i < |handled| => (handled[i].frame, handled[i].outcome))
  }

  lemma OutcomesOfLabelled(eng: Engine, sc: CompiledScenario, handled: seq<Handled>)
    requires forall i :: 0 <= i < |handled| ==> LabelledBy(eng, sc, handled[i])
    ensures Outcomes(handled) == EventsFor(eng, sc, HandledFrames(handled))
  {
    hide AnswerLabel;
    forall i | 0 <= i < |handled|
      ensures handled[i].outcome == AnswerLabel(eng, sc, handled[i].frame)
    {
      assert LabelledBy(eng, sc, handled[i]);
    }
  }

  /** The inputs that a run takes from the transport. */
  function InputsTaken(spec: FramingSpec, acts: seq<Action>): seq<Input> {
    InputsFor(CallsIn(spec, acts))
  }

  /** Between two of its turns, in every run that others do not disturb, quiet gaps included,
      the port has done exactly what the sequential reader loop does for the chunks and gaps
      that the run took. */
  lemma EveryRunIsAReaderRun(eng: Engine, cfg: PortConfig, s0: State, acts: seq<Action>)
    requires InitFrom(eng, cfg, s0) && Runs(eng, s0, acts) && AllUndisturbing(acts, true)
    requires Guarantees.BetweenTurns(StateAfter(eng, s0, acts).reader)
    ensures s0.framing.strategy.WellFormed()
    ensures Explains(eng, s0, StateAfter(eng, s0, acts), InputsTaken(s0.framing, acts))
  {
    hide InitFrom, Runs, StateAfter, Histories, Scenarios, Swapping, Specs, Conserved, EmittedShaped, Locking;
    hide OutputIsBlocks, Sourced, Paired, Triggered, Logged, OnlyReaderWrites, AnswerLabel, AnswerBytes, Flatten;
    hide CallAll, ReaderRun, LabelledBy, CallsIn;
    var s := StateAfter(eng, s0, acts);
    StartsUndisturbed(eng, cfg, s0, true);
    RunKeepsInv(eng, s0, acts);
    RunStaysUndisturbed(eng, s0, s0, acts, [], true);
    OutputOfHandled(eng, s0.active, s);
    NothingUnderway(eng, s0.active, s);
    var asked := [] + CallsIn(s0.framing, acts);
    var made :| FramedBy(s0.framing, s, made, asked, true);
    assert made == asked == CallsIn(s0.framing, acts);
    ReaderRunOfCalls(eng, s0.framing, s0.active, [], made, InputsFor(made));
    var frames := HandledFrames(s.hist.handled);
    assert frames + [] == frames && Inputs(made) + [] == Inputs(made);
    assert Responses(eng, s0.active, frames) + [] == Responses(eng, s0.active, frames);
    OutcomesOfLabelled(eng, s0.active, s.hist.handled);
  }

  lemma NothingUnderway(eng: Engine, sc: CompiledScenario, s: State)
    requires Locking(s) && OnlyReaderWrites(s) && Guarantees.BetweenTurns(s.reader)
    ensures Underway(eng, sc, s) == []
  {
    OnlyReaderHolds(s);
  }

  // ---- Without gaps the byte stream alone decides ----

  function ChunksOf(calls: seq<Call>): (chunks: seq<Bytes>)
    ensures |chunks| == |calls|
    ensures forall i :: 0 <= i < |calls| ==> chunks[i] == calls[i].Input()
  {
    seq(|calls|, i requires 0 <= i < |calls| => calls[i].Input())
  }

  lemma {:induction false} PushCalls(spec: FramingSpec, buf: Bytes, calls: seq<Call>)
    requires spec.strategy.WellFormed() && CallsOf(spec, calls, false)
    ensures CallAll(buf, calls) == PushAll(spec, buf, ChunksOf(calls)) && Inputs(calls) == Flatten(ChunksOf(calls))
    decreases |calls|
  {
    hide Pushed;
    if calls != [] {
      assert ChunksOf(calls)[1..] == ChunksOf(calls[1..]);
      PushCalls(spec, Pushed(spec, buf, calls[0].chunk).rest, calls[1..]);
    }
  }

  /** On a stream that forces no flush before its last byte, the emitted frames are the first
      of those that one push of the whole stream gives; all of them once nothing is pending. */
  lemma FramedIsStream(spec: FramingSpec, s: State, asked: seq<Call>)
    requires spec.strategy.WellFormed() && Framed(spec, s, asked, false) && QuietInside(spec, [], s.hist.raw)
    ensures Frames(s.hist.emitted) <= Frames(Pushed(spec, [], s.hist.raw).out)
    ensures !s.reader.HasChunk? ==> Frames(s.hist.emitted) == Frames(Pushed(spec, [], s.hist.raw).out)
  {
    hide Pushed, CallAll, PushAll;
    var calls :| FramedBy(spec, s, calls, asked, false);
    var done, pending := Inputs(calls), Pending(s.reader);
    PushCalls(spec, [], calls);
    forall k | 0 <= k < |done|
      ensures s.hist.raw[..k] == done[..k]
    {
    }
    EmptyIsStop(spec.strategy);
    QuietInsideRun(spec, [], ChunksOf(calls));
    if pending == [] {
      assert done + pending == done;
    } else {
      QuietInsideTail(spec, [], done, pending);
      PushFusion(spec, [], done, pending);
      FramesAppend(Pushed(spec, [], done).out, Pushed(spec, Pushed(spec, [], done).rest, pending).out);
    }
  }

  /** The port has answered and recorded the first of the frames, in order, each as its scenario
      does, and part of the response to the next one may be out. */
  ghost predicate AnswersSoFar(eng: Engine, sc: CompiledScenario, frames: seq<Bytes>, s: State) {
    && Outcomes(s.hist.handled) <= EventsFor(eng, sc, frames)
    && Responses(eng, sc, HandledFrames(s.hist.handled)) <= s.output
    && s.output <= Responses(eng, sc, frames)
  }

  lemma ResponsesAppend(eng: Engine, sc: CompiledScenario, a: seq<Bytes>, b: seq<Bytes>)
    ensures Responses(eng, sc, a + b) == Responses(eng, sc, a) + Responses(eng, sc, b)
  {
    hide AnswerBytes;
    AnswersAppend(eng, sc, a, b);
    FlattenAppend(Replies(eng, sc, a), Replies(eng, sc, b));
  }

  lemma AnsweredPrefix(eng: Engine, sc: CompiledScenario, handled: seq<Bytes>, flying: seq<Bytes>, frames: seq<Bytes>,
                       underway: Bytes)
    requires handled + flying <= frames
    requires underway == [] || (flying != [] && underway <= AnswerBytes(eng, sc, flying[0]))
    ensures Responses(eng, sc, handled) + underway <= Responses(eng, sc, frames)
  {
    hide AnswerBytes, Responses;
    var n := |handled|;
    assert frames == handled + frames[n..];
    ResponsesAppend(eng, sc, handled, frames[n..]);
    if underway == [] {
      assert Responses(eng, sc, handled) + [] == Responses(eng, sc, handled);
    } else {
      var a, r := AnswerBytes(eng, sc, frames[n]), Responses(eng, sc, frames[n + 1..]);
      assert frames[n] == flying[0] && frames[n..] == [frames[n]] + frames[n + 1..];
      ResponsesAppend(eng, sc, [frames[n]], frames[n + 1..]);
      OneResponse(eng, sc, frames[n]);
      var tail := a[|underway|..] + r;
      assert a == underway + a[|underway|..];
      Peel(underway, a[|underway|..], r);
      Peel(Responses(eng, sc, handled), underway, tail);
    }
  }

  lemma OneResponse(eng: Engine, sc: CompiledScenario, frame: Bytes)
    ensures Responses(eng, sc, [frame]) == AnswerBytes(eng, sc, frame)
  {
    hide AnswerBytes;
    assert Replies(eng, sc, [frame]) == [] + [AnswerBytes(eng, sc, frame)];
    FlattenSnoc([], AnswerBytes(eng, sc, frame));
  }

  /** At every moment of any undisturbed interleaving without quiet gaps, what has been answered
      and recorded is the beginning of what the received stream as a whole calls for, and
      between two turns of the reader it is all of that, however the stream was cut into reads,
      provided it forces no flush before its last byte. */
  lemma AnswersDependOnTheStreamAlone(eng: Engine, cfg: PortConfig, s0: State, acts: seq<Action>)
    requires InitFrom(eng, cfg, s0) && Runs(eng, s0, acts) && AllUndisturbing(acts, false)
    requires s0.framing.strategy.WellFormed()
    requires QuietInside(s0.framing, [], StateAfter(eng, s0, acts).hist.raw)
    ensures var s := StateAfter(eng, s0, acts);
            var frames := Frames(Pushed(s0.framing, [], s.hist.raw).out);
            && AnswersSoFar(eng, s0.active, frames, s)
            && (Guarantees.BetweenTurns(s.reader) ==>
                  && Outcomes(s.hist.handled) == EventsFor(eng, s0.active, frames)
                  && s.output == Responses(eng, s0.active, frames))
  {
    hide InitFrom, Runs, StateAfter, Histories, Scenarios, Swapping, Specs, Conserved, EmittedShaped, Locking;
    hide OutputIsBlocks, Sourced, Paired, Triggered, Logged, OnlyReaderWrites, QuietInside, Pushed, Responses, Framed;
    hide AnswerLabel, LabelledBy, Underway;
    var s := StateAfter(eng, s0, acts);
    StartsUndisturbed(eng, cfg, s0, false);
    RunKeepsInv(eng, s0, acts);
    RunStaysUndisturbed(eng, s0, s0, acts, [], false);
    var frames := Frames(Pushed(s0.framing, [], s.hist.raw).out);
    FramedIsStream(s0.framing, s, [] + CallsIn(s0.framing, acts));
    OutputOfHandled(eng, s0.active, s);
    UnderwayIsPart(eng, s0.active, s);
    OutcomesOfLabelled(eng, s0.active, s.hist.handled);
    var handled := HandledFrames(s.hist.handled);
    assert handled <= frames;
    AnsweredPrefix(eng, s0.active, handled, InFlight(s.reader), frames, Underway(eng, s0.active, s));
    if Guarantees.BetweenTurns(s.reader) {
      NothingUnderway(eng, s0.active, s);
      assert handled + [] == handled;
      assert Responses(eng, s0.active, handled) + [] == Responses(eng, s0.active, handled);
    }
  }

  /** Two runs of one port that received the same bytes have sent and recorded the same. */
  lemma SameStreamSameAnswers(eng: Engine, cfg: PortConfig, s0: State, acts1: seq<Action>, acts2: seq<Action>)
    requires InitFrom(eng, cfg, s0) && s0.framing.strategy.WellFormed()
    requires Runs(eng, s0, acts1) && AllUndisturbing(acts1, false)
    requires Runs(eng, s0, acts2) && AllUndisturbing(acts2, false)
    requires Guarantees.BetweenTurns(StateAfter(eng, s0, acts1).reader)
    requires Guarantees.BetweenTurns(StateAfter(eng, s0, acts2).reader)
    requires StateAfter(eng, s0, acts1).hist.raw == StateAfter(eng, s0, acts2).hist.raw
    requires QuietInside(s0.framing, [], StateAfter(eng, s0, acts1).hist.raw)
    ensures var s, t := StateAfter(eng, s0, acts1), StateAfter(eng, s0, acts2);
            s.output == t.output && Outcomes(s.hist.handled) == Outcomes(t.hist.handled)
  {
    hide InitFrom, Runs, StateAfter, QuietInside, AnswersSoFar, AllUndisturbing;
    AnswersDependOnTheStreamAlone(eng, cfg, s0, acts1);
    AnswersDependOnTheStreamAlone(eng, cfg, s0, acts2);
  }

  // ---- The reader loop of the source, on its own ----

  /** Undisturbed by other threads, the reader loop sends, records and keeps what the stream as a
      whole calls for, whatever its chunks, on every stream that forces no flush before its last
      byte. */
  lemma ReaderRunAnswersStream(eng: Engine, spec: FramingSpec, sc: CompiledScenario, inputs: seq<Input>,
                               calls: seq<Call>)
    requires spec.strategy.WellFormed() && CallsOf(spec, calls, false) && AllFit(inputs, calls)
    requires QuietInside(spec, [], Inputs(calls))
    ensures var t, o := ReaderRun(eng, spec, sc, [], inputs), Pushed(spec, [], Inputs(calls));
            && t.sent == Replies(eng, sc, Frames(o.out)) && t.buf == o.rest
            && EventsOf(t.ops) == EventsFor(eng, sc, Frames(o.out)) && RawOf(t.ops) == Inputs(calls)
  {
    hide Pushed, ReaderRun, CallAll, PushAll;
    EmptyIsStop(spec.strategy);
    PushCalls(spec, [], calls);
    QuietInsideRun(spec, [], ChunksOf(calls));
    ReaderRunOfCalls(eng, spec, sc, [], calls, inputs);
  }
}
