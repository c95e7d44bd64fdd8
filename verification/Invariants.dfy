/** What every interleaving of the port's threads keeps. */
module Invariants {
  import opened Common
  import opened Config
  import opened Captures
  import opened Framing
  import opened Chunking
  import opened Port
  import opened Protocol

  // ---- The current values are the newest entries of their histories ----

  predicate Histories(s: State) {
    && s.hist.actives != [] && s.active == s.hist.actives[Latest(s.hist.actives)]
    && s.hist.gens != [] && s.compiled == s.hist.gens[Latest(s.hist.gens)]
    && s.hist.specs != [] && s.framing == s.hist.specs[Latest(s.hist.specs)]
  }

  // ---- Scenarios and generations ----

  /** `sc` is the entry under its own name in generation `g`. */
  predicate FromGen(gens: seq<CompiledPort>, g: nat, sc: CompiledScenario) {
    g < |gens| && sc.name in gens[g].scenarios && gens[g].scenarios[sc.name] == sc
  }

  ghost predicate Scenarios(s: State) {
    && FromGen(s.hist.gens, s.hist.activeGen, s.active)
    && (forall t | t in s.clients && s.clients[t].Switching? ::
          FromGen(s.hist.gens, s.clients[t].gen, s.clients[t].next))
    && (forall g | 0 <= g < |s.hist.gens| :: NamesAgree(s.hist.gens[g]))
  }

  ghost predicate Swapping(s: State) {
    match s.reload
    case Named(p, w) =>
      && NamesAgree(p) && NextActive(p, w.current, w.initial) == Some(w.next) && Unswitched(s, w)
    case CompiledIn(w) =>
      && NextActive(s.compiled, w.current, w.initial) == Some(w.next) && Unswitched(s, w)
    case _ => true
  }

  /** Unless a switch has been committed since, the name read by the swap is still active. */
  predicate Unswitched(s: State, w: Swap) {
    w.seen <= s.hist.switches && (w.seen == s.hist.switches ==> s.active.name == w.current)
  }

  // ---- Framing specifications ----

  predicate Holds(r: Reader) {
    r.HasSpec? || r.HasChunk?
  }

  predicate Outdated(s: State) {
    Holds(s.reader) && s.reader.gen != Latest(s.hist.specs)
  }

  ghost predicate Specs(s: State) {
    && (forall i | 0 <= i < |s.hist.specs| :: s.hist.specs[i].strategy.WellFormed())
    && (Holds(s.reader) ==> s.reader.gen < |s.hist.specs| && s.reader.spec == s.hist.specs[s.reader.gen])
    && (s.reload.Named? || s.reload.CompiledIn? ==> s.reload.swap.spec.strategy.WellFormed())
    && (s.reload.ActiveIn? ==> s.reload.framing.strategy.WellFormed())
    && s.hist.staleCalls + (if Outdated(s) then 1 else 0) <= 1
  }

  // ---- Bytes and frames ----

  function Pending(r: Reader): Bytes {
    if r.HasChunk? then r.chunk else []
  }

  function InFlight(r: Reader): seq<Bytes> {
    match r
    case Handling(todo) => todo
    case Chosen(f, _, _, todo) => [f] + todo
    case Writing(f, _, _, _, todo) => [f] + todo
    case Recording(f, _, _, _, todo) => [f] + todo
    case _ => []
  }

  function HandledFrames(handled: seq<Handled>): (r: seq<Bytes>)
    ensures |r| == |handled|
    ensures forall i :: 0 <= i < |r| ==> r[i] == handled[i].frame
  {
    seq(|handled|, i requires 0 <= i < |handled| => handled[i].frame)
  }

  predicate Conserved(s: State) {
    Flatten(Wires(s.hist.emitted)) + s.buf + Pending(s.reader) == s.hist.raw
  }

  predicate InOrder(s: State) {
    Frames(s.hist.emitted) == HandledFrames(s.hist.handled) + InFlight(s.reader)
  }

  ghost predicate ShapedBySome(specs: seq<FramingSpec>, e: Emission) {
    exists i :: 0 <= i < |specs| && Shaped(specs[i], e)
  }

  ghost predicate EmittedShaped(s: State) {
    forall e | e in s.hist.emitted :: ShapedBySome(s.hist.specs, e)
  }

  // ---- The writer lock and the output ----

  predicate Locking(s: State) {
    && (s.writer.Free? <==> s.current.None?)
    && (s.writer.HeldByReader? <==> s.reader.Writing?)
    && (forall t | t in s.clients :: s.clients[t].FiringWrite? <==> s.writer == HeldBy(t))
    && (s.writer.HeldBy? ==> s.writer.tid in s.clients)
  }

  function Part(b: Block): Bytes
    requires b.sent <= |b.data|
  {
    b.data[..b.sent]
  }

  predicate WithinData(b: Block) {
    b.sent <= |b.data|
  }

  function Parts(blocks: seq<Block>): (r: seq<Bytes>)
    requires forall i :: 0 <= i < |blocks| ==> WithinData(blocks[i])
    ensures |r| == |blocks|
    ensures forall i :: 0 <= i < |r| ==> WithinData(blocks[i]) && r[i] == Part(blocks[i])
  {
    seq(|blocks|, i requires 0 <= i < |blocks| => assert WithinData(blocks[i]); Part(blocks[i]))
  }

  predicate Done(b: Block) {
    WithinData(b) && (b.failed <==> b.sent < |b.data|)
  }

  predicate OutputIsBlocks(s: State) {
    && (forall i :: 0 <= i < |s.hist.blocks| ==> Done(s.hist.blocks[i]))
    && (s.current.Some? ==> WithinData(s.current.value))
    && s.output == Flatten(Parts(s.hist.blocks)) + if s.current.Some? then Part(s.current.value) else []
  }

  // ---- Every response and every label comes from one snapshot of `active` ----

  predicate IsSnapshot(s: State, sc: CompiledScenario, at: nat) {
    at < |s.hist.actives| && s.hist.actives[at] == sc
  }

  /** The block is the scenario's answer to the frame, or its bytes for the trigger. */
  predicate Justified(eng: Engine, b: Block) {
    match b.source
    case FromFrame(frame, rule) => Answer(eng, b.scenario, frame) == Some((rule, b.data))
    case FromTrigger(name) => LookupTrigger(b.scenario, name) == Some(b.data)
  }

  predicate GoodBlock(eng: Engine, s: State, b: Block) {
    IsSnapshot(s, b.scenario, b.at) && Justified(eng, b)
  }

  predicate GoodHandled(eng: Engine, s: State, h: Handled) {
    IsSnapshot(s, h.scenario, h.at) && h.outcome == AnswerLabel(eng, h.scenario, h.frame)
  }

  predicate GoodReader(eng: Engine, s: State) {
    match s.reader
    case Chosen(_, sc, at, _) => IsSnapshot(s, sc, at)
    case Writing(f, sc, at, rule, _) =>
      && IsSnapshot(s, sc, at) && s.current.Some? && s.current.value.source == FromFrame(f, rule)
      && s.current.value.scenario == sc && s.current.value.at == at
    case Recording(f, sc, at, outcome, _) => GoodHandled(eng, s, Handled(f, sc, at, outcome))
    case _ => true
  }

  predicate GoodClients(s: State) {
    forall t | t in s.clients ::
      s.clients[t].Firing? || s.clients[t].FiringWrite? ==> IsSnapshot(s, s.clients[t].scenario, s.clients[t].at)
  }

  predicate GoodWrites(eng: Engine, s: State) {
    && (forall i :: 0 <= i < |s.hist.blocks| ==> GoodBlock(eng, s, s.hist.blocks[i]))
    && (s.current.Some? ==> GoodBlock(eng, s, s.current.value))
  }

  predicate GoodRecords(eng: Engine, s: State) {
    forall i :: 0 <= i < |s.hist.handled| ==> GoodHandled(eng, s, s.hist.handled[i])
  }

  predicate Sourced(eng: Engine, s: State) {
    GoodWrites(eng, s) && GoodRecords(eng, s) && GoodReader(eng, s) && GoodClients(s)
  }

  // ---- Recorded frames and the writes made for them ----

  /** The reader's finished writes, as the recordings they belong to. */
  function ReaderBlocks(blocks: seq<Block>): seq<Handled> {
    if blocks == [] then []
    else
      var b := blocks[|blocks| - 1];
      ReaderBlocks(blocks[..|blocks| - 1]) +
      if b.source.FromFrame? then [Handled(b.source.frame, b.scenario, b.at, Some(b.source.rule))] else []
  }

  /** The recordings that name a rule. */
  function Matched(handled: seq<Handled>): seq<Handled> {
    if handled == [] then []
    else
      var h := handled[|handled| - 1];
      Matched(handled[..|handled| - 1]) + if h.outcome.Some? then [h] else []
  }

  function BeingRecorded(r: Reader): seq<Handled> {
    if r.Recording? && r.outcome.Some? then [Handled(r.frame, r.scenario, r.at, r.outcome)] else []
  }

  predicate Paired(s: State) {
    ReaderBlocks(s.hist.blocks) == Matched(s.hist.handled) + BeingRecorded(s.reader)
  }

  // ---- The capture ----

  ghost predicate Logged(s: State) {
    && Refines(s.capture, s.hist.log)
    && |s.hist.log.events| == |s.hist.handled|
    && (forall i :: 0 <= i < |s.hist.handled| ==>
          && s.hist.log.events[i].data == s.hist.handled[i].frame
          && s.hist.log.events[i].matchedRule == s.hist.handled[i].outcome)
    && |s.hist.log.raw| <= |s.hist.raw|
    && s.hist.log.raw == s.hist.raw[|s.hist.raw| - |s.hist.log.raw|..]
  }

  // ---- All of it ----

  ghost predicate Inv(eng: Engine, s: State) {
    && Histories(s) && Scenarios(s) && Swapping(s) && Specs(s)
    && Conserved(s) && InOrder(s) && EmittedShaped(s)
    && Locking(s) && OutputIsBlocks(s) && Sourced(eng, s) && Paired(s) && Triggered(s) && Logged(s)
  }

  lemma InitInv(eng: Engine, cfg: PortConfig, s: State)
    requires InitFrom(eng, cfg, s)
    ensures Inv(eng, s)
  {
    hide Compiled, ValidPort, FromConfig;
    var p := Compiled(eng, cfg).value;
    SpawnedNamesAgree(eng, cfg);
    assert s.hist.gens == [p];
    FromConfigWellFormed(eng, cfg);
    assert Window<byte>(s.capture.maxRaw, []) == [];
    assert Window<Event>(s.capture.maxEvents, s.hist.log.events[0..]) == [];
  }

  lemma SpawnedNamesAgree(eng: Engine, cfg: PortConfig)
    requires Compiled(eng, cfg).Ok?
    ensures NamesAgree(Compiled(eng, cfg).value)
  {
    CompiledNamesAgree(eng, cfg.scenarios, ScenarioNames(cfg.scenarios));
  }

  lemma FromConfigWellFormed(eng: Engine, cfg: PortConfig)
    requires ValidPort(eng, cfg)
    ensures FromConfig(cfg.framing).strategy.WellFormed()
  {
    ValidateIsExact(if cfg.framing.Some? then cfg.framing.value else FixedConfig(1));
  }

  // ---- What each thread leaves alone ----

  lemma ReaderFrame(eng: Engine, s: State, r: ReaderStep)
    requires ReaderEnabled(s, r)
    ensures var t := ReaderDoes(eng, s, r);
            && t.active == s.active && t.compiled == s.compiled && t.framing == s.framing
            && t.clients == s.clients && t.reload == s.reload
            && t.hist.actives == s.hist.actives && t.hist.gens == s.hist.gens && t.hist.specs == s.hist.specs
            && t.hist.activeGen == s.hist.activeGen && t.hist.switches == s.hist.switches
  {
    hide Apply, Remember, Pushed, Idled, Answer;
  }

  lemma ClientFrame(s: State, tid: nat, c: ClientStep)
    requires ClientEnabled(s, tid, c)
    ensures var t := ClientDoes(s, tid, c);
            && t.compiled == s.compiled && t.framing == s.framing && t.capture == s.capture
            && t.buf == s.buf && t.reader == s.reader && t.reload == s.reload
            && t.hist.raw == s.hist.raw && t.hist.emitted == s.hist.emitted && t.hist.handled == s.hist.handled
            && t.hist.gens == s.hist.gens && t.hist.specs == s.hist.specs
            && t.hist.staleCalls == s.hist.staleCalls && t.hist.log == s.hist.log
            && s.hist.actives <= t.hist.actives
            && (!c.SwitchCommit? ==>
                  && t.active == s.active && t.hist.actives == s.hist.actives
                  && t.hist.activeGen == s.hist.activeGen && t.hist.switches == s.hist.switches)
  {
    hide LookupTrigger;
  }

  lemma ReloadFrame(eng: Engine, s: State, w: ReloadStep)
    requires ReloadEnabled(eng, s, w)
    ensures var t := ReloadDoes(eng, s, w);
            && t.capture == s.capture && t.writer == s.writer && t.current == s.current && t.output == s.output
            && t.buf == s.buf && t.reader == s.reader && t.clients == s.clients
            && t.hist.raw == s.hist.raw && t.hist.emitted == s.hist.emitted && t.hist.handled == s.hist.handled
            && t.hist.blocks == s.hist.blocks && t.hist.log == s.hist.log && t.hist.switches == s.hist.switches
            && s.hist.actives <= t.hist.actives && s.hist.gens <= t.hist.gens && s.hist.specs <= t.hist.specs
  {
    hide Compiled, NextActive, ValidPort;
  }

  // ---- Preservation, one invariant at a time ----

  lemma HistoriesClient(s: State, tid: nat, c: ClientStep)
    requires Histories(s) && ClientEnabled(s, tid, c)
    ensures Histories(ClientDoes(s, tid, c))
  {
    hide LookupTrigger;
  }

  lemma HistoriesReload(eng: Engine, s: State, w: ReloadStep)
    requires Histories(s) && ReloadEnabled(eng, s, w)
    ensures Histories(ReloadDoes(eng, s, w))
  {
    hide Compiled, NextActive, ValidPort;
  }

  lemma HistoriesStep(eng: Engine, s: State, a: Action)
    requires Histories(s) && Enabled(eng, s, a)
    ensures Histories(Next(eng, s, a))
  {
    hide ReaderDoes, ClientDoes, ReloadDoes, ReaderEnabled, ClientEnabled, ReloadEnabled, Apply, Remember;
    match a {
      case ByReader(r) => ReaderFrame(eng, s, r);
      case ByClient(tid, c) => HistoriesClient(s, tid, c);
      case ByReload(w) => HistoriesReload(eng, s, w);
      case DropRaw =>
      case DropEvents =>
    }
  }

  lemma NextActiveIsOfGen(p: CompiledPort, w: Swap)
    requires NamesAgree(p) && NextActive(p, w.current, w.initial) == Some(w.next)
    ensures w.next.name in p.scenarios && p.scenarios[w.next.name] == w.next
  {
  }

  lemma SwitchBeginOfGen(s: State, name: string)
    requires Histories(s) && Scenarios(s)
    ensures name in s.compiled.scenarios ==> FromGen(s.hist.gens, Latest(s.hist.gens), s.compiled.scenarios[name])
  {
    assert NamesAgree(s.hist.gens[Latest(s.hist.gens)]);
  }

  lemma ScenariosClient(s: State, tid: nat, c: ClientStep)
    requires Histories(s) && Scenarios(s) && ClientEnabled(s, tid, c)
    ensures Scenarios(ClientDoes(s, tid, c))
  {
    if c.SwitchBegin? {
      SwitchBeginOfGen(s, c.name);
    }
    hide FromGen, NamesAgree, LookupTrigger;
  }

  lemma ScenariosReload(eng: Engine, s: State, w: ReloadStep)
    requires Histories(s) && Scenarios(s) && Swapping(s) && ReloadEnabled(eng, s, w)
    ensures Scenarios(ReloadDoes(eng, s, w))
  {
    hide NamesAgree, Compiled, ValidPort;
    if w.SwapActive? {
      assert NamesAgree(s.hist.gens[Latest(s.hist.gens)]);
      NextActiveIsOfGen(s.compiled, s.reload.swap);
    }
    hide NextActive;
  }

  lemma ScenariosStep(eng: Engine, s: State, a: Action)
    requires Histories(s) && Scenarios(s) && Swapping(s) && Enabled(eng, s, a)
    ensures Scenarios(Next(eng, s, a))
  {
    hide ReaderDoes, ClientDoes, ReloadDoes, ReaderEnabled, ClientEnabled, ReloadEnabled, Apply, Remember;
    match a
    case ByReader(r) => ReaderFrame(eng, s, r);
    case ByClient(tid, c) => ScenariosClient(s, tid, c);
    case ByReload(w) => ScenariosReload(eng, s, w);
    case DropRaw =>
    case DropEvents =>
  }

  lemma SwappingReload(eng: Engine, s: State, w: ReloadStep)
    requires Swapping(s) && ReloadEnabled(eng, s, w)
    ensures Swapping(ReloadDoes(eng, s, w))
  {
    hide NamesAgree, NextActive, Compiled, ValidPort;
    if w.SwapBegin? && Compiled(eng, w.cfg).Ok? {
      SpawnedNamesAgree(eng, w.cfg);
    }
  }

  lemma SwappingStep(eng: Engine, s: State, a: Action)
    requires Swapping(s) && Enabled(eng, s, a)
    ensures Swapping(Next(eng, s, a))
  {
    hide ReaderDoes, ReloadDoes, ReaderEnabled, ReloadEnabled, Apply, Remember, NamesAgree, NextActive, LookupTrigger;
    match a
    case ByReader(r) => ReaderFrame(eng, s, r);
    case ByClient(tid, c) => ClientFrame(s, tid, c);
    case ByReload(w) => SwappingReload(eng, s, w);
    case DropRaw =>
    case DropEvents =>
  }

  lemma SpecsReader(eng: Engine, s: State, r: ReaderStep)
    requires Histories(s) && Specs(s) && ReaderEnabled(s, r)
    ensures Specs(ReaderDoes(eng, s, r))
  {
    hide Apply, Remember, Pushed, Idled, Answer;
    ReaderFrame(eng, s, r);
  }

  lemma SpecsReload(eng: Engine, s: State, w: ReloadStep)
    requires Histories(s) && Specs(s) && ReloadEnabled(eng, s, w)
    ensures Specs(ReloadDoes(eng, s, w))
  {
    hide Compiled, NextActive;
    if w.SwapBegin? {
      FromConfigWellFormed(eng, w.cfg);
    }
    hide FromConfig, ValidPort;
  }

  lemma SpecsStep(eng: Engine, s: State, a: Action)
    requires Histories(s) && Specs(s) && Enabled(eng, s, a)
    ensures Specs(Next(eng, s, a))
  {
    hide ReaderDoes, ClientDoes, ReloadDoes, ReaderEnabled, ClientEnabled, ReloadEnabled, Apply, Remember;
    match a
    case ByReader(r) => SpecsReader(eng, s, r);
    case ByClient(tid, c) => ClientFrame(s, tid, c);
    case ByReload(w) => SpecsReload(eng, s, w);
    case DropRaw =>
    case DropEvents =>
  }

  // ---- Bytes and frames ----

  lemma EmittingKeeps(s: State, call: Call, gen: nat)
    requires call.spec.strategy.WellFormed() && call.Input() == Pending(s.reader)
    requires Conserved(s)
    ensures Conserved(Emitting(s, Called(s.buf, call), gen))
  {
    hide Called, Flatten, Wires;
    var o := Called(s.buf, call);
    CallConserves(s.buf, call);
    WiresAppend(s.hist.emitted, o.out);
    Regroup(Flatten(Wires(s.hist.emitted)), Flatten(Wires(o.out)), o.rest, s.buf, call.Input());
  }

  lemma Regroup(a: Bytes, b: Bytes, c: Bytes, d: Bytes, e: Bytes)
    requires b + c == d + e
    ensures (a + b) + c + [] == (a + d) + e
  {
    assert (a + b) + c + [] == a + (b + c);
    assert (a + d) + e == a + (d + e);
  }

  lemma ConservedReader(eng: Engine, s: State, r: ReaderStep)
    requires Specs(s) && Conserved(s) && ReaderEnabled(s, r)
    ensures Conserved(ReaderDoes(eng, s, r))
  {
    hide Apply, Remember, Pushed, Idled, Answer;
    if r.PushChunk? {
      EmittingKeeps(s, PushCall(s.reader.spec, s.reader.chunk), s.reader.gen);
    } else if r.Timeout? {
      EmittingKeeps(s, IdleCall(s.reader.spec), s.reader.gen);
    }
    hide Flatten;
  }

  lemma ConservedStep(eng: Engine, s: State, a: Action)
    requires Specs(s) && Conserved(s) && Enabled(eng, s, a)
    ensures Conserved(Next(eng, s, a))
  {
    hide ReaderDoes, ClientDoes, ReloadDoes, ReaderEnabled, ClientEnabled, ReloadEnabled;
    hide Apply, Remember, Specs, Flatten;
    match a
    case ByReader(r) => ConservedReader(eng, s, r);
    case ByClient(tid, c) => ClientFrame(s, tid, c);
    case ByReload(w) => ReloadFrame(eng, s, w);
    case DropRaw =>
    case DropEvents =>
  }

  lemma InOrderReader(eng: Engine, s: State, r: ReaderStep)
    requires InOrder(s) && ReaderEnabled(s, r)
    ensures InOrder(ReaderDoes(eng, s, r))
  {
    hide Apply, Remember, Pushed, Idled, Answer, Frames, HandledFrames;
    match r
    case PushChunk => FramesAppend(s.hist.emitted, Pushed(s.reader.spec, s.buf, s.reader.chunk).out);
    case Timeout => FramesAppend(s.hist.emitted, Idled(s.reader.spec, s.buf).out);
    case Choose => assert [s.reader.todo[0]] + s.reader.todo[1..] == s.reader.todo;
    case Record(_) => RecordInOrder(s.hist.handled, s.reader);
    case _ =>
  }

  lemma RecordInOrder(handled: seq<Handled>, rd: Reader)
    requires rd.Recording?
    ensures HandledFrames(handled + [Handled(rd.frame, rd.scenario, rd.at, rd.outcome)]) + rd.todo
         == HandledFrames(handled) + InFlight(rd)
  {
    var h := Handled(rd.frame, rd.scenario, rd.at, rd.outcome);
    assert HandledFrames(handled + [h]) == HandledFrames(handled) + [rd.frame];
    assert (HandledFrames(handled) + [rd.frame]) + rd.todo == HandledFrames(handled) + ([rd.frame] + rd.todo);
  }

  lemma InOrderStep(eng: Engine, s: State, a: Action)
    requires InOrder(s) && Enabled(eng, s, a)
    ensures InOrder(Next(eng, s, a))
  {
    hide ReaderDoes, ClientDoes, ReloadDoes, ReaderEnabled, ClientEnabled, ReloadEnabled, Apply, Remember;
    match a
    case ByReader(r) => InOrderReader(eng, s, r);
    case ByClient(tid, c) => ClientFrame(s, tid, c);
    case ByReload(w) => ReloadFrame(eng, s, w);
    case DropRaw =>
    case DropEvents =>
  }

  lemma CallShaped(s: State, call: Call, e: Emission)
    requires Specs(s) && Holds(s.reader) && call.spec == s.reader.spec && e in Called(s.buf, call).out
    ensures ShapedBySome(s.hist.specs, e)
  {
    hide Called, Shaped;
    CallConserves(s.buf, call);
    assert Shaped(s.hist.specs[s.reader.gen], e);
  }

  lemma EmittedShapedReader(eng: Engine, s: State, r: ReaderStep)
    requires Specs(s) && EmittedShaped(s) && ReaderEnabled(s, r)
    ensures EmittedShaped(ReaderDoes(eng, s, r))
  {
    hide Apply, Remember, Pushed, Idled, Answer, ShapedBySome;
    ReaderFrame(eng, s, r);
    var t := ReaderDoes(eng, s, r);
    forall e | e in t.hist.emitted
      ensures ShapedBySome(t.hist.specs, e)
    {
      if e !in s.hist.emitted {
        var spec := s.reader.spec;
        CallShaped(s, if r.PushChunk? then PushCall(spec, s.reader.chunk) else IdleCall(spec), e);
      }
    }
  }

  lemma ShapedByMore(a: seq<FramingSpec>, b: seq<FramingSpec>, e: Emission)
    requires ShapedBySome(a, e) && a <= b
    ensures ShapedBySome(b, e)
  {
    hide Shaped;
    var i :| 0 <= i < |a| && Shaped(a[i], e);
    assert Shaped(b[i], e);
  }

  lemma EmittedShapedStep(eng: Engine, s: State, a: Action)
    requires Specs(s) && EmittedShaped(s) && Enabled(eng, s, a)
    ensures EmittedShaped(Next(eng, s, a))
  {
    hide ReaderDoes, ClientDoes, ReloadDoes, ReaderEnabled, ClientEnabled, ReloadEnabled;
    hide Apply, Remember, Specs, ShapedBySome;
    match a
    case ByReader(r) => EmittedShapedReader(eng, s, r);
    case ByClient(tid, c) => ClientFrame(s, tid, c);
    case ByReload(w) =>
      ReloadFrame(eng, s, w);
      forall e | e in s.hist.emitted
        ensures ShapedBySome(ReloadDoes(eng, s, w).hist.specs, e)
      {
        ShapedByMore(s.hist.specs, ReloadDoes(eng, s, w).hist.specs, e);
      }
    case DropRaw =>
    case DropEvents =>
  }

  // ---- The lock and the output ----

  lemma LockingReader(eng: Engine, s: State, r: ReaderStep)
    requires Locking(s) && ReaderEnabled(s, r)
    ensures Locking(ReaderDoes(eng, s, r))
  {
    hide Apply, Remember, Pushed, Idled, Answer;
  }

  lemma LockingClient(s: State, tid: nat, c: ClientStep)
    requires Locking(s) && ClientEnabled(s, tid, c)
    ensures Locking(ClientDoes(s, tid, c))
  {
    hide LookupTrigger;
  }

  lemma LockingStep(eng: Engine, s: State, a: Action)
    requires Locking(s) && Enabled(eng, s, a)
    ensures Locking(Next(eng, s, a))
  {
    hide ReaderDoes, ClientDoes, ReloadDoes, ReaderEnabled, ClientEnabled, ReloadEnabled, Apply, Remember;
    match a
    case ByReader(r) => LockingReader(eng, s, r);
    case ByClient(tid, c) => LockingClient(s, tid, c);
    case ByReload(w) => ReloadFrame(eng, s, w);
    case DropRaw =>
    case DropEvents =>
  }

  lemma GrabKeepsOutput(s: State, holder: Lock, b: Block)
    requires OutputIsBlocks(s) && s.current.None? && b.sent == 0
    ensures OutputIsBlocks(Grab(s, holder, b))
  {
    assert s.output + Part(b) == s.output;
  }

  lemma AdvanceKeepsOutput(s: State, n: nat)
    requires OutputIsBlocks(s) && s.current.Some? && s.current.value.sent + n <= |s.current.value.data|
    ensures OutputIsBlocks(Advance(s, n))
  {
    hide Flatten, Parts;
    var b, early := s.current.value, Flatten(Parts(s.hist.blocks));
    assert b.data[..b.sent] + b.data[b.sent..b.sent + n] == b.data[..b.sent + n];
    Peel(early, b.data[..b.sent], b.data[b.sent..b.sent + n]);
  }

  lemma LetKeepsOutput(s: State, failed: bool)
    requires OutputIsBlocks(s) && s.current.Some?
    requires failed <==> s.current.value.sent < |s.current.value.data|
    ensures OutputIsBlocks(Let(s, failed))
  {
    var b := s.current.value.(failed := failed);
    var blocks := s.hist.blocks + [b];
    assert Parts(blocks) == Parts(s.hist.blocks) + [Part(b)];
    FlattenSnoc(Parts(s.hist.blocks), Part(b));
    assert s.output + [] == s.output;
  }

  lemma OutputReader(eng: Engine, s: State, r: ReaderStep)
    requires Locking(s) && OutputIsBlocks(s) && ReaderEnabled(s, r)
    ensures OutputIsBlocks(ReaderDoes(eng, s, r))
  {
    hide Apply, Remember, Pushed, Idled, Part, Parts, Flatten;
    match r
    case MatchLine =>
      match Answer(eng, s.reader.scenario, s.reader.frame) {
        case None =>
        case Some((rule, response)) =>
          GrabKeepsOutput(s, HeldByReader,
                          Block(FromFrame(s.reader.frame, rule), s.reader.scenario, s.reader.at, response, 0, false));
      }
    case WriteSome(n) => AdvanceKeepsOutput(s, n);
    case Release => LetKeepsOutput(s, false);
    case WriteFails => LetKeepsOutput(s, true);
    case _ =>
  }

  lemma OutputClient(s: State, tid: nat, c: ClientStep)
    requires Locking(s) && OutputIsBlocks(s) && ClientEnabled(s, tid, c)
    ensures OutputIsBlocks(ClientDoes(s, tid, c))
  {
    hide Part, Parts, Flatten;
    match c
    case FireLock =>
      var f := s.clients[tid];
      match LookupTrigger(f.scenario, f.trigger) {
        case None =>
        case Some(response) =>
          GrabKeepsOutput(s, HeldBy(tid), Block(FromTrigger(f.trigger), f.scenario, f.at, response, 0, false));
      }
    case FireWrite(n) => AdvanceKeepsOutput(s, n);
    case FireRelease => LetKeepsOutput(s, false);
    case FireFails => LetKeepsOutput(s, true);
    case _ =>
  }

  lemma OutputStep(eng: Engine, s: State, a: Action)
    requires Locking(s) && OutputIsBlocks(s) && Enabled(eng, s, a)
    ensures OutputIsBlocks(Next(eng, s, a))
  {
    hide ReaderDoes, ClientDoes, ReloadDoes, ReaderEnabled, ClientEnabled, ReloadEnabled, Apply, Remember, Locking;
    match a
    case ByReader(r) => OutputReader(eng, s, r);
    case ByClient(tid, c) => OutputClient(s, tid, c);
    case ByReload(w) => ReloadFrame(eng, s, w);
    case DropRaw =>
    case DropEvents =>
  }

  // ---- Snapshots ----

  lemma SnapshotsLast(eng: Engine, s: State, t: State)
    requires s.hist.actives <= t.hist.actives
    ensures forall b :: GoodBlock(eng, s, b) ==> GoodBlock(eng, t, b)
    ensures forall h :: GoodHandled(eng, s, h) ==> GoodHandled(eng, t, h)
    ensures forall sc, at :: IsSnapshot(s, sc, at) ==> IsSnapshot(t, sc, at)
  {
    hide Justified, AnswerLabel;
  }

  lemma ActiveIsSnapshot(s: State)
    requires Histories(s)
    ensures IsSnapshot(s, s.active, Latest(s.hist.actives))
  {
  }

  lemma ProgressKeepsGood(eng: Engine, s: State, b: Block)
    requires GoodBlock(eng, s, b)
    ensures forall sent :: GoodBlock(eng, s, b.(sent := sent))
    ensures forall failed :: GoodBlock(eng, s, b.(failed := failed))
  {
    hide Answer, LookupTrigger;
  }

  lemma GoodWritesReader(eng: Engine, s: State, r: ReaderStep)
    requires Sourced(eng, s) && ReaderEnabled(s, r)
    ensures GoodWrites(eng, ReaderDoes(eng, s, r))
  {
    hide Apply, Remember, Pushed, Idled, LookupTrigger, Answer, AnswerLabel, GoodReader, GoodClients;
    ReaderFrame(eng, s, r);
    SnapshotsLast(eng, s, ReaderDoes(eng, s, r));
    if r.MatchLine? {
      MatchLineSourced(eng, s);
    }
    if s.current.Some? {
      ProgressKeepsGood(eng, s, s.current.value);
    }
    hide IsSnapshot, GoodBlock, GoodHandled;
  }

  lemma GoodRecordsReader(eng: Engine, s: State, r: ReaderStep)
    requires Sourced(eng, s) && ReaderEnabled(s, r)
    ensures GoodRecords(eng, ReaderDoes(eng, s, r))
  {
    hide Apply, Remember, Pushed, Idled, Answer, AnswerLabel, GoodWrites, GoodClients;
    ReaderFrame(eng, s, r);
    SnapshotsLast(eng, s, ReaderDoes(eng, s, r));
    hide IsSnapshot, GoodBlock, GoodHandled;
  }

  lemma GoodReaderReader(eng: Engine, s: State, r: ReaderStep)
    requires Histories(s) && Locking(s) && Sourced(eng, s) && ReaderEnabled(s, r)
    ensures GoodReader(eng, ReaderDoes(eng, s, r)) && GoodClients(ReaderDoes(eng, s, r))
  {
    hide Apply, Remember, Pushed, Idled, LookupTrigger, Answer, AnswerLabel, GoodRecords, GoodWrites;
    ReaderFrame(eng, s, r);
    SnapshotsLast(eng, s, ReaderDoes(eng, s, r));
    ActiveIsSnapshot(s);
    if r.MatchLine? {
      MatchLineSourced(eng, s);
    } else if r.Release? || r.WriteFails? {
      WrittenSourced(eng, s);
    }
    hide IsSnapshot, GoodBlock, GoodHandled, Histories;
  }

  lemma SourcedReader(eng: Engine, s: State, r: ReaderStep)
    requires Histories(s) && Locking(s) && Sourced(eng, s) && ReaderEnabled(s, r)
    ensures Sourced(eng, ReaderDoes(eng, s, r))
  {
    hide ReaderDoes, ReaderEnabled, GoodWrites, GoodRecords, GoodReader, GoodClients;
    GoodWritesReader(eng, s, r);
    GoodRecordsReader(eng, s, r);
    GoodReaderReader(eng, s, r);
  }

  lemma MatchLineSourced(eng: Engine, s: State)
    requires Sourced(eng, s) && ReaderEnabled(s, MatchLine)
    ensures GoodReader(eng, ReaderDoes(eng, s, MatchLine))
    ensures var t := ReaderDoes(eng, s, MatchLine);
            t.current.Some? ==> t.current == s.current || GoodBlock(eng, t, t.current.value)
  {
  }

  lemma WrittenSourced(eng: Engine, s: State)
    requires Sourced(eng, s) && s.reader.Writing?
    ensures var rd := s.reader; GoodHandled(eng, s, Handled(rd.frame, rd.scenario, rd.at, Some(rd.rule)))
  {
  }

  lemma GoodWritesClient(eng: Engine, s: State, tid: nat, c: ClientStep)
    requires Sourced(eng, s) && ClientEnabled(s, tid, c)
    ensures GoodWrites(eng, ClientDoes(s, tid, c))
  {
    hide Answer, AnswerLabel, GoodReader, GoodRecords;
    ClientFrame(s, tid, c);
    SnapshotsLast(eng, s, ClientDoes(s, tid, c));
    if s.current.Some? {
      ProgressKeepsGood(eng, s, s.current.value);
    }
  }

  lemma GoodClientsClient(eng: Engine, s: State, tid: nat, c: ClientStep)
    requires Histories(s) && Locking(s) && Sourced(eng, s) && ClientEnabled(s, tid, c)
    ensures GoodReader(eng, ClientDoes(s, tid, c)) && GoodClients(ClientDoes(s, tid, c))
  {
    hide Answer, AnswerLabel, LookupTrigger, GoodWrites, GoodRecords;
    ClientFrame(s, tid, c);
    SnapshotsLast(eng, s, ClientDoes(s, tid, c));
    ActiveIsSnapshot(s);
    hide IsSnapshot, GoodBlock, GoodHandled, Histories;
  }

  lemma SourcedClient(eng: Engine, s: State, tid: nat, c: ClientStep)
    requires Histories(s) && Locking(s) && Sourced(eng, s) && ClientEnabled(s, tid, c)
    ensures Sourced(eng, ClientDoes(s, tid, c))
  {
    hide ClientDoes, ClientEnabled, GoodWrites, GoodReader, GoodClients, GoodHandled;
    ClientFrame(s, tid, c);
    SnapshotsLast(eng, s, ClientDoes(s, tid, c));
    GoodWritesClient(eng, s, tid, c);
    GoodClientsClient(eng, s, tid, c);
  }

  lemma SourcedStep(eng: Engine, s: State, a: Action)
    requires Histories(s) && Locking(s) && Sourced(eng, s) && Enabled(eng, s, a)
    ensures Sourced(eng, Next(eng, s, a))
  {
    hide ReaderDoes, ClientDoes, ReloadDoes, ReaderEnabled, ClientEnabled, ReloadEnabled, Apply, Remember, Locking;
    hide GoodBlock, GoodHandled, IsSnapshot;
    match a
    case ByReader(r) => SourcedReader(eng, s, r);
    case ByClient(tid, c) => SourcedClient(eng, s, tid, c);
    case ByReload(w) =>
      ReloadFrame(eng, s, w);
      SnapshotsLast(eng, s, ReloadDoes(eng, s, w));
    case DropRaw =>
      SnapshotsLast(eng, s, Next(eng, s, a));
    case DropEvents =>
      SnapshotsLast(eng, s, Next(eng, s, a));
  }

  // ---- Writes and recordings ----

  lemma ReaderBlocksSnoc(blocks: seq<Block>, b: Block)
    ensures ReaderBlocks(blocks + [b]) == ReaderBlocks(blocks) +
            if b.source.FromFrame? then [Handled(b.source.frame, b.scenario, b.at, Some(b.source.rule))] else []
  {
    assert (blocks + [b])[..|blocks|] == blocks;
  }

  lemma MatchedSnoc(handled: seq<Handled>, h: Handled)
    ensures Matched(handled + [h]) == Matched(handled) + if h.outcome.Some? then [h] else []
  {
    assert (handled + [h])[..|handled|] == handled;
  }

  lemma PairedReader(eng: Engine, s: State, r: ReaderStep)
    requires Locking(s) && GoodReader(eng, s) && Paired(s) && ReaderEnabled(s, r)
    ensures Paired(ReaderDoes(eng, s, r))
  {
    hide Apply, Remember, Pushed, Idled, Answer, ReaderBlocks, Matched, IsSnapshot;
    var m := Matched(s.hist.handled);
    assert m + [] == m;
    match r
    case Release => ReaderBlocksSnoc(s.hist.blocks, s.current.value.(failed := false));
    case WriteFails => ReaderBlocksSnoc(s.hist.blocks, s.current.value.(failed := true));
    case Record(_) =>
      var rd := s.reader;
      MatchedSnoc(s.hist.handled, Handled(rd.frame, rd.scenario, rd.at, rd.outcome));
    case _ =>
  }

  lemma PairedClient(eng: Engine, s: State, tid: nat, c: ClientStep)
    requires Locking(s) && Sourced(eng, s) && Triggered(s) && Paired(s) && ClientEnabled(s, tid, c)
    ensures Paired(ClientDoes(s, tid, c)) && Triggered(ClientDoes(s, tid, c))
  {
    hide LookupTrigger, ReaderBlocks, Matched, Sourced;
    var rb := ReaderBlocks(s.hist.blocks);
    assert rb + [] == rb;
    match c
    case FireRelease => ReaderBlocksSnoc(s.hist.blocks, s.current.value.(failed := false));
    case FireFails => ReaderBlocksSnoc(s.hist.blocks, s.current.value.(failed := true));
    case _ =>
  }

  /** A write that a request holds is a trigger's. */
  predicate Triggered(s: State) {
    s.writer.HeldBy? && s.current.Some? ==> s.current.value.source.FromTrigger?
  }

  lemma PairedStep(eng: Engine, s: State, a: Action)
    requires Locking(s) && Sourced(eng, s) && Triggered(s) && Paired(s) && Enabled(eng, s, a)
    ensures Paired(Next(eng, s, a)) && Triggered(Next(eng, s, a))
  {
    hide ClientDoes, ReloadDoes, ClientEnabled, ReloadEnabled;
    hide Apply, Remember, Pushed, Idled, Answer, ReaderBlocks, Matched;
    match a
    case ByReader(r) => PairedReader(eng, s, r);
    case ByClient(tid, c) => PairedClient(eng, s, tid, c);
    case ByReload(w) => ReloadFrame(eng, s, w);
    case DropRaw =>
    case DropEvents =>
  }

  // ---- The capture ----

  lemma CapturingKeeps(s: State, op: Op)
    requires Refines(s.capture, s.hist.log)
    ensures Refines(Capturing(s, op).capture, Capturing(s, op).hist.log)
  {
    OpRefines(s.capture, s.hist.log, op);
  }

  lemma LoggedRead(eng: Engine, s: State, chunk: Bytes)
    requires Logged(s) && ReaderEnabled(s, Read(chunk))
    ensures Logged(ReaderDoes(eng, s, Read(chunk)))
  {
    hide Apply, Refines;
    CapturingKeeps(s, Raw(chunk));
    var raw, log := s.hist.raw, s.hist.log.raw;
    assert (raw + chunk)[|raw| - |log|..] == raw[|raw| - |log|..] + chunk;
  }

  lemma LoggedRecord(eng: Engine, s: State, now: nat)
    requires Logged(s) && ReaderEnabled(s, Record(now))
    ensures Logged(ReaderDoes(eng, s, Record(now)))
  {
    hide Apply, Refines;
    CapturingKeeps(s, Push(now, s.reader.frame, s.reader.outcome));
  }

  lemma LoggedSame(s: State, t: State)
    requires Logged(s) && t.capture == s.capture && t.hist.log == s.hist.log
    requires t.hist.raw == s.hist.raw && t.hist.handled == s.hist.handled
    ensures Logged(t)
  {
    hide Refines;
  }

  lemma LoggedReader(eng: Engine, s: State, r: ReaderStep)
    requires Logged(s) && ReaderEnabled(s, r)
    ensures Logged(ReaderDoes(eng, s, r))
  {
    hide Logged, Apply, Remember, Pushed, Idled, Answer;
    match r
    case Read(chunk) => LoggedRead(eng, s, chunk);
    case Record(now) => LoggedRecord(eng, s, now);
    case _ => LoggedSame(s, ReaderDoes(eng, s, r));
  }

  lemma LoggedStep(eng: Engine, s: State, a: Action)
    requires Logged(s) && Enabled(eng, s, a)
    ensures Logged(Next(eng, s, a))
  {
    hide ReaderDoes, ClientDoes, ReloadDoes, ReaderEnabled, ClientEnabled, ReloadEnabled, Apply, Refines;
    match a
    case ByReader(r) => LoggedReader(eng, s, r);
    case ByClient(tid, c) => ClientFrame(s, tid, c);
    case ByReload(w) => ReloadFrame(eng, s, w);
    case DropRaw => CapturingKeeps(s, ClearRaw);
    case DropEvents => CapturingKeeps(s, ClearEvents);
  }

  // ---- Every reachable state ----

  lemma Step(eng: Engine, s: State, a: Action)
    requires Inv(eng, s) && Enabled(eng, s, a)
    ensures Inv(eng, Next(eng, s, a))
  {
    hide Histories, Scenarios, Swapping, Specs, Conserved, InOrder, EmittedShaped, Locking, OutputIsBlocks, Sourced;
    hide Paired, Triggered, Logged, Next, Enabled;
    HistoriesStep(eng, s, a);
    ScenariosStep(eng, s, a);
    SwappingStep(eng, s, a);
    SpecsStep(eng, s, a);
    ConservedStep(eng, s, a);
    InOrderStep(eng, s, a);
    EmittedShapedStep(eng, s, a);
    LockingStep(eng, s, a);
    OutputStep(eng, s, a);
    SourcedStep(eng, s, a);
    PairedStep(eng, s, a);
    LoggedStep(eng, s, a);
  }

  lemma {:induction false} RunKeepsInv(eng: Engine, s: State, acts: seq<Action>)
    requires Inv(eng, s) && Runs(eng, s, acts)
    ensures Inv(eng, StateAfter(eng, s, acts))
    decreases |acts|
  {
    hide Inv, Enabled, Next;
    if acts != [] {
      Step(eng, s, acts[0]);
      RunKeepsInv(eng, Next(eng, s, acts[0]), acts[1..]);
    }
  }
}
