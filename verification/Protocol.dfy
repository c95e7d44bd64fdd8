/** One port as a concurrent machine. The reader thread, any number of HTTP requests and the
    reload thread interleave; each lock acquisition is one atomic step, and so is each partial
    write under the writer lock. */
module Protocol {
  import opened Common
  import opened Config
  import opened Captures
  import opened Framing
  import opened Port

  // ---- Where the threads are ----

  datatype Reader =
    | AtHead
    | HasSpec(spec: FramingSpec, gen: nat)
    | HasChunk(spec: FramingSpec, gen: nat, chunk: Bytes)
    | Handling(todo: seq<Bytes>)
    | Chosen(frame: Bytes, scenario: CompiledScenario, at: nat, todo: seq<Bytes>)
    | Writing(frame: Bytes, scenario: CompiledScenario, at: nat, rule: string, todo: seq<Bytes>)
    | Recording(frame: Bytes, scenario: CompiledScenario, at: nat, outcome: Option<string>, todo: seq<Bytes>)
    | Exited

  /** An HTTP request between two of its lock acquisitions. */
  datatype Client =
    | Switching(next: CompiledScenario, gen: nat)
    | Firing(scenario: CompiledScenario, at: nat, trigger: string)
    | FiringWrite(scenario: CompiledScenario, at: nat, trigger: string)

  /** `swap_config` between two of its lock acquisitions. `seen` counts the switches that had
      been committed when it read the active name. */
  datatype Reload =
    | Resting
    | Named(port: CompiledPort, swap: Swap)
    | CompiledIn(swap: Swap)
    | ActiveIn(framing: FramingSpec)

  datatype Swap = Swap(current: string, initial: string, next: CompiledScenario, spec: FramingSpec, seen: nat)

  datatype Lock = Free | HeldByReader | HeldBy(tid: nat)

  // ---- Histories ----

  datatype Source = FromFrame(frame: Bytes, rule: string) | FromTrigger(trigger: string)

  /** One `write_all`: the response, the scenario snapshot it was taken from, and how much of
      it reached the transport. */
  datatype Block = Block(source: Source, scenario: CompiledScenario, at: nat, data: Bytes, sent: nat, failed: bool)

  /** A frame whose event has been recorded. */
  datatype Handled = Handled(frame: Bytes, scenario: CompiledScenario, at: nat, outcome: Option<string>)

  /** What has happened so far: received bytes, emissions of the framer, recorded frames,
      finished writes, every value of `active`, `compiled` and `framing` in order, the
      generation `active` was taken from, committed switches, and the framer calls made with an
      outdated specification since the last change of framing. */
  datatype Hist = Hist(raw: Bytes, emitted: seq<Emission>, handled: seq<Handled>, blocks: seq<Block>,
                       actives: seq<CompiledScenario>, gens: seq<CompiledPort>, specs: seq<FramingSpec>,
                       activeGen: nat, switches: nat, staleCalls: nat, log: History)

  datatype State = State(active: CompiledScenario, compiled: CompiledPort, framing: FramingSpec, capture: Buffers,
                         writer: Lock, current: Option<Block>, output: Bytes, buf: Bytes, reader: Reader,
                         clients: map<nat, Client>, reload: Reload, hist: Hist)

  function Spawned(p: CompiledPort, initial: CompiledScenario, spec: FramingSpec, maxRaw: nat, maxEvents: nat): State {
    State(initial, p, spec, EmptyBuffers(maxRaw, maxEvents), Free, None, [], [], AtHead, map[], Resting,
          Hist([], [], [], [], [initial], [p], [spec], 0, 0, 0, History([], [], 0)))
  }

  /** The initial states: what `spawn` builds from a validated configuration. */
  ghost predicate Init(eng: Engine, s: State) {
    exists cfg: PortConfig :: InitFrom(eng, cfg, s)
  }

  predicate InitFrom(eng: Engine, cfg: PortConfig, s: State) {
    && ValidPort(eng, cfg) && Compiled(eng, cfg).Ok?
    && var p := Compiled(eng, cfg).value;
       && cfg.initialScenario in p.scenarios
       && s == Spawned(p, p.scenarios[cfg.initialScenario], FromConfig(cfg.framing), cfg.maxRawBytes, cfg.maxEvents)
  }

  // ---- Steps ----

  datatype ReaderStep =
    | Snapshot
    | Timeout
    | Read(chunk: Bytes)
    | Stop
    | PushChunk
    | Choose
    | Finish
    | MatchLine
    | WriteSome(n: nat)
    | Release
    | WriteFails
    | Record(now: nat)

  datatype ClientStep =
    | SwitchBegin(name: string)
    | SwitchCommit
    | FireBegin(trigger: string)
    | FireLock
    | FireWrite(n: nat)
    | FireRelease
    | FireFails

  datatype ReloadStep = SwapBegin(cfg: PortConfig) | SwapCompiled | SwapActive | SwapFraming

  datatype Action =
    | ByReader(r: ReaderStep)
    | ByClient(tid: nat, c: ClientStep)
    | ByReload(w: ReloadStep)
    | DropRaw
    | DropEvents

  const READ_SIZE: nat := 1024

  predicate ReaderEnabled(s: State, r: ReaderStep) {
    match r
    case Snapshot => s.reader.AtHead?
    case Timeout => s.reader.HasSpec? && s.reader.spec.idle.Some?
    case Read(chunk) => s.reader.HasSpec? && 1 <= |chunk| <= READ_SIZE
    case Stop => s.reader.HasSpec?
    case PushChunk => s.reader.HasChunk? && s.reader.spec.strategy.WellFormed()
    case Choose => s.reader.Handling? && s.reader.todo != []
    case Finish => s.reader.Handling? && s.reader.todo == []
    case MatchLine => s.reader.Chosen? && s.writer.Free?
    case WriteSome(n) => s.reader.Writing? && s.current.Some? && s.current.value.sent + n <= |s.current.value.data|
    case Release => s.reader.Writing? && s.current.Some? && s.current.value.sent == |s.current.value.data|
    case WriteFails => s.reader.Writing? && s.current.Some? && s.current.value.sent < |s.current.value.data|
    case Record(_) => s.reader.Recording?
  }

  predicate ClientEnabled(s: State, tid: nat, c: ClientStep) {
    match c
    case SwitchBegin(_) => tid !in s.clients
    case SwitchCommit => tid in s.clients && s.clients[tid].Switching?
    case FireBegin(_) => tid !in s.clients
    case FireLock => tid in s.clients && s.clients[tid].Firing? && s.writer.Free?
    case FireWrite(n) =>
      && tid in s.clients && s.clients[tid].FiringWrite?
      && s.current.Some? && s.current.value.sent + n <= |s.current.value.data|
    case FireRelease =>
      && tid in s.clients && s.clients[tid].FiringWrite?
      && s.current.Some? && s.current.value.sent == |s.current.value.data|
    case FireFails =>
      && tid in s.clients && s.clients[tid].FiringWrite?
      && s.current.Some? && s.current.value.sent < |s.current.value.data|
  }

  predicate ReloadEnabled(eng: Engine, s: State, w: ReloadStep) {
    match w
    case SwapBegin(cfg) => s.reload.Resting? && ValidPort(eng, cfg)
    case SwapCompiled => s.reload.Named?
    case SwapActive => s.reload.CompiledIn?
    case SwapFraming => s.reload.ActiveIn?
  }

  predicate Enabled(eng: Engine, s: State, a: Action) {
    match a
    case ByReader(r) => ReaderEnabled(s, r)
    case ByClient(tid, c) => ClientEnabled(s, tid, c)
    case ByReload(w) => ReloadEnabled(eng, s, w)
    case DropRaw => true
    case DropEvents => true
  }

  /** Begin a `write_all` under the writer lock. */
  function Grab(s: State, holder: Lock, b: Block): State {
    s.(writer := holder, current := Some(b))
  }

  function Advance(s: State, n: nat): State
    requires s.current.Some? && s.current.value.sent + n <= |s.current.value.data|
  {
    var b := s.current.value;
    s.(current := Some(b.(sent := b.sent + n)), output := s.output + b.data[b.sent..b.sent + n])
  }

  /** End a `write_all` and give the writer lock back. */
  function Let(s: State, failed: bool): State
    requires s.current.Some?
  {
    s.(writer := Free, current := None, hist := s.hist.(blocks := s.hist.blocks + [s.current.value.(failed := failed)]))
  }

  function Emitting(s: State, o: Outcome, gen: nat): State {
    s.(buf := o.rest, reader := Handling(Frames(o.out)),
       hist := s.hist.(emitted := s.hist.emitted + o.out,
                       staleCalls := s.hist.staleCalls + if gen == Latest(s.hist.specs) then 0 else 1))
  }

  function Capturing(s: State, op: Op): State {
    s.(capture := Apply(s.capture, op), hist := s.hist.(log := Remember(s.hist.log, op)))
  }

  function ReaderDoes(eng: Engine, s: State, r: ReaderStep): State
    requires ReaderEnabled(s, r)
  {
    match r
    case Snapshot => s.(reader := HasSpec(s.framing, Latest(s.hist.specs)))
    case Timeout => Emitting(s, Idled(s.reader.spec, s.buf), s.reader.gen)
    case Read(chunk) =>
      var t := Capturing(s, Raw(chunk));
      t.(reader := HasChunk(s.reader.spec, s.reader.gen, chunk), hist := t.hist.(raw := t.hist.raw + chunk))
    case Stop => s.(reader := Exited)
    case PushChunk => Emitting(s, Pushed(s.reader.spec, s.buf, s.reader.chunk), s.reader.gen)
    case Choose =>
      s.(reader := Chosen(s.reader.todo[0], s.active, Latest(s.hist.actives), s.reader.todo[1..]))
    case Finish => s.(reader := AtHead)
    case MatchLine => (
      var rd := s.reader;
      match Answer(eng, rd.scenario, rd.frame)
      case None => s.(reader := Recording(rd.frame, rd.scenario, rd.at, None, rd.todo))
      case Some((rule, response)) =>
        Grab(s, HeldByReader, Block(FromFrame(rd.frame, rule), rd.scenario, rd.at, response, 0, false))
          .(reader := Writing(rd.frame, rd.scenario, rd.at, rule, rd.todo)))
    case WriteSome(n) => Advance(s, n)
    case Release => Let(s, false).(reader := Written(s.reader))
    case WriteFails => Let(s, true).(reader := Written(s.reader))
    case Record(now) =>
      var rd := s.reader;
      var t := Capturing(s, Push(now, rd.frame, rd.outcome));
      t.(reader := Handling(rd.todo),
         hist := t.hist.(handled := t.hist.handled + [Handled(rd.frame, rd.scenario, rd.at, rd.outcome)]))
  }

  function Written(r: Reader): Reader
    requires r.Writing?
  {
    Recording(r.frame, r.scenario, r.at, Some(r.rule), r.todo)
  }

  /** Index of the newest entry of a history. */
  function Latest<T>(h: seq<T>): nat {
    if h == [] then 0 else |h| - 1
  }

  function SetActive(s: State, sc: CompiledScenario, gen: nat): State {
    s.(active := sc, hist := s.hist.(actives := s.hist.actives + [sc], activeGen := gen))
  }

  function ClientDoes(s: State, tid: nat, c: ClientStep): State
    requires ClientEnabled(s, tid, c)
  {
    match c
    case SwitchBegin(name) =>
      if name in s.compiled.scenarios
      then s.(clients := s.clients[tid := Switching(s.compiled.scenarios[name], Latest(s.hist.gens))])
      else s
    case SwitchCommit =>
      var t := SetActive(s, s.clients[tid].next, s.clients[tid].gen);
      t.(clients := s.clients - {tid}, hist := t.hist.(switches := t.hist.switches + 1))
    case FireBegin(name) => s.(clients := s.clients[tid := Firing(s.active, Latest(s.hist.actives), name)])
    case FireLock => (
      var f := s.clients[tid];
      match LookupTrigger(f.scenario, f.trigger)
      case None => s.(clients := s.clients - {tid})
      case Some(response) =>
        Grab(s, HeldBy(tid), Block(FromTrigger(f.trigger), f.scenario, f.at, response, 0, false))
          .(clients := s.clients[tid := FiringWrite(f.scenario, f.at, f.trigger)]))
    case FireWrite(n) => Advance(s, n)
    case FireRelease => Let(s, false).(clients := s.clients - {tid})
    case FireFails => Let(s, true).(clients := s.clients - {tid})
  }

  function ReloadDoes(eng: Engine, s: State, w: ReloadStep): State
    requires ReloadEnabled(eng, s, w)
  {
    match w
    case SwapBegin(cfg) => (
      match Compiled(eng, cfg)
      case Err(_) => s
      case Ok(p) => (
        match NextActive(p, s.active.name, cfg.initialScenario)
        case None => s
        case Some(next) =>
          var swap := Swap(s.active.name, cfg.initialScenario, next, FromConfig(cfg.framing), s.hist.switches);
          s.(reload := Named(p, swap))))
    case SwapCompiled =>
      s.(compiled := s.reload.port, reload := CompiledIn(s.reload.swap),
         hist := s.hist.(gens := s.hist.gens + [s.reload.port]))
    case SwapActive =>
      SetActive(s, s.reload.swap.next, Latest(s.hist.gens)).(reload := ActiveIn(s.reload.swap.spec))
    case SwapFraming =>
      s.(framing := s.reload.framing, reload := Resting,
         hist := s.hist.(specs := s.hist.specs + [s.reload.framing], staleCalls := 0))
  }

  function Next(eng: Engine, s: State, a: Action): State
    requires Enabled(eng, s, a)
  {
    match a
    case ByReader(r) => ReaderDoes(eng, s, r)
    case ByClient(tid, c) => ClientDoes(s, tid, c)
    case ByReload(w) => ReloadDoes(eng, s, w)
    case DropRaw => Capturing(s, ClearRaw)
    case DropEvents => Capturing(s, ClearEvents)
  }

  /** A run is a list of actions, each enabled when it is taken. */
  predicate Runs(eng: Engine, s: State, acts: seq<Action>)
    decreases |acts|
  {
    acts != [] ==> Enabled(eng, s, acts[0]) && Runs(eng, Next(eng, s, acts[0]), acts[1..])
  }

  function StateAfter(eng: Engine, s: State, acts: seq<Action>): State
    requires Runs(eng, s, acts)
    decreases |acts|
  {
    if acts == [] then s else StateAfter(eng, Next(eng, s, acts[0]), acts[1..])
  }
}
