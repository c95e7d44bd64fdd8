/** The live set of ports and the reload that brings it in line with a new configuration. */
module Reload {
  import opened Common
  import opened Config
  import opened Captures
  import opened Framing
  import opened Port

  class PortMap {
    var inner: map<string, PortState>

    constructor ()
      ensures inner == map[]
    {
      inner := map[];
    }

    function Get(name: string): Option<PortState>
      reads this
    {
      if name in inner then Some(inner[name]) else None
    }

    function Names(): set<string>
      reads this
    {
      inner.Keys
    }

    method Insert(state: PortState)
      modifies this
      ensures inner == old(inner)[state.name := state]
    {
      inner := inner[state.name := state];
    }

    method Remove(name: string) returns (r: Option<PortState>)
      modifies this
      ensures r == old(Get(name)) && inner == old(inner) - {name}
    {
      r := Get(name);
      inner := inner - {name};
    }
  }

  /** Every port is filed under its own name, so that different names are different ports. */
  ghost predicate Keyed(m: map<string, PortState>) {
    forall n :: n in m ==> m[n].name == n
  }

  /** What a port runs. */
  datatype Settings = Settings(active: CompiledScenario, compiled: CompiledPort, framing: FramingSpec)

  /** A live port as seen from outside. */
  datatype View = View(port: PortState, settings: Settings, log: Buffers)

  ghost function ViewOf(p: PortState): View
    reads p, p.capture
  {
    View(p, Settings(p.active, p.compiled, p.framing), p.capture.State())
  }

  /** The live port of this name, if there is one. */
  ghost function Seen(server: PortMap, name: string): Option<View>
    reads *
  {
    if name in server.inner then Some(ViewOf(server.inner[name])) else None
  }

  /** The settings are what the configuration compiles to. */
  ghost predicate Configured(eng: Engine, cfg: PortConfig, s: Settings) {
    Ok(s.compiled) == Compiled(eng, cfg) && s.framing == FromConfig(cfg.framing)
  }

  /** Once a valid configuration compiles, the initial scenario is in the table, so a swap
      always finds a scenario to activate. */
  lemma ValidSwapSucceeds(eng: Engine, cfg: PortConfig, current: string)
    requires ValidPort(eng, cfg) && Compiled(eng, cfg).Ok?
    ensures cfg.initialScenario in Compiled(eng, cfg).value.scenarios
    ensures NextActive(Compiled(eng, cfg).value, current, cfg.initialScenario).Some?
  {
    CompiledKeys(eng, cfg.scenarios);
  }

  /** Compile, pick the initial scenario, then open the transport; `opens` says whether the
      operating system lets it. */
  method Spawn(eng: Engine, cfg: PortConfig, opens: bool) returns (r: Result<PortState, PortError>)
    ensures r.Ok? <==> opens && Compiled(eng, cfg).Ok? && cfg.initialScenario in Compiled(eng, cfg).value.scenarios
    ensures r.Ok? ==>
              && fresh(r.value) && fresh(r.value.capture) && fresh(r.value.writer) && r.value.name == cfg.name
              && StartedWith(eng, cfg, ViewOf(r.value))
  {
    var compiled := CompilePort(eng, cfg);
    if compiled.Err? {
      return Err(compiled.error);
    }
    if cfg.initialScenario !in compiled.value.scenarios {
      return Err(NoUsableScenario);
    }
    if !opens {
      return Err(OpenFailed);
    }
    var capture := new Capture(cfg.maxRawBytes, cfg.maxEvents);
    var writer := new Sink();
    var state := new PortState(cfg.name, compiled.value.scenarios[cfg.initialScenario], compiled.value,
                               FromConfig(cfg.framing), capture, writer);
    return Ok(state);
  }

  /** What a swap makes of a port: nothing if the configuration does not compile. */
  ghost predicate Swapped(eng: Engine, cfg: PortConfig, before: Settings, after: Settings) {
    if Compiled(eng, cfg).Ok? then
      && Configured(eng, cfg, after)
      && Some(after.active) == NextActive(after.compiled, before.active.name, cfg.initialScenario)
    else after == before
  }

  /** What a port is started with. */
  ghost predicate StartedWith(eng: Engine, cfg: PortConfig, v: View) {
    && Configured(eng, cfg, v.settings) && cfg.initialScenario in v.settings.compiled.scenarios
    && v.settings.active == v.settings.compiled.scenarios[cfg.initialScenario]
    && v.log == EmptyBuffers(cfg.maxRawBytes, cfg.maxEvents)
  }

  /** Whether a port that is not live yet can be started. */
  ghost predicate Starts(eng: Engine, cfg: PortConfig, opens: string -> bool) {
    Compiled(eng, cfg).Ok? && opens(cfg.name)
  }

  /** What a reload makes of one declared port: a live one stays the same port with the same
      capture contents and is swapped, another one is started if that is possible. */
  ghost predicate Reloaded(eng: Engine, cfg: PortConfig, opens: string -> bool,
                           before: Option<View>, after: Option<View>) {
    match before
    case Some(v) =>
      && after.Some? && after.value.port == v.port && after.value.log == v.log
      && Swapped(eng, cfg, v.settings, after.value.settings)
    case None =>
      if Starts(eng, cfg, opens) then after.Some? && StartedWith(eng, cfg, after.value) else after.None?
  }

  /** A live port was live before, or is new with a capture and a transport of its own. */
  twostate predicate OldOrNew(server: PortMap)
    reads server
  {
    forall n :: n in server.inner ==>
      var p := server.inner[n];
      if n in old(server.inner) then p == old(server.inner[n]) else fresh(p) && fresh(p.capture) && fresh(p.writer)
  }

  /** The object that this name stands for, if it is live. */
  ghost function Live(server: PortMap, name: string): set<PortState>
    reads server
  {
    if name in server.inner then {server.inner[name]} else {}
  }

  /** Swap the port if it is live, else start it. */
  method ReloadOne(eng: Engine, server: PortMap, cfg: PortConfig, opens: string -> bool)
    requires ValidPort(eng, cfg) && Keyed(server.inner)
    modifies server, Live(server, cfg.name)
    ensures Keyed(server.inner) && OldOrNew(server) && old(server.inner.Keys) <= server.inner.Keys
    ensures Reloaded(eng, cfg, opens, old(Seen(server, cfg.name)), Seen(server, cfg.name))
    ensures forall n :: n != cfg.name ==> Seen(server, n) == old(Seen(server, n))
  {
    hide Compiled, ValidPort, NextActive, FromConfig;
    match server.Get(cfg.name) {
      case Some(state) =>
        if Compiled(eng, cfg).Ok? {
          ValidSwapSucceeds(eng, cfg, state.active.name);
        }
        var r := state.SwapConfig(eng, cfg);
      case None =>
        if Compiled(eng, cfg).Ok? {
          ValidSwapSucceeds(eng, cfg, cfg.name);
        }
        var r := Spawn(eng, cfg, opens(cfg.name));
        if r.Ok? {
          server.Insert(r.value);
        }
    }
  }

  method UpdateAndSpawn(eng: Engine, server: PortMap, cfg: Config, opens: string -> bool)
    requires ValidConfig(eng, cfg) && Keyed(server.inner)
    modifies server, server.inner.Values
    ensures Keyed(server.inner) && OldOrNew(server) && old(server.inner.Keys) <= server.inner.Keys
    ensures forall i :: 0 <= i < |cfg.ports| ==>
              Reloaded(eng, cfg.ports[i], opens, old(Seen(server, cfg.ports[i].name)), Seen(server, cfg.ports[i].name))
    ensures forall n :: n !in PortNames(cfg.ports) ==> Seen(server, n) == old(Seen(server, n))
  {
    hide ValidPort, Seen, Reloaded, Keyed;
    var names := PortNames(cfg.ports);
    assert forall j :: 0 <= j < |names| ==> names[j] == cfg.ports[j].name && ValidPort(eng, cfg.ports[j]);
    hide ValidConfig, PortNames;
    for i := 0 to |cfg.ports|
      invariant Keyed(server.inner) && OldOrNew(server) && old(server.inner.Keys) <= server.inner.Keys
      invariant forall j :: 0 <= j < i ==>
                  Reloaded(eng, cfg.ports[j], opens, old(Seen(server, names[j])), Seen(server, names[j]))
      invariant forall n :: n !in names[..i] ==> Seen(server, n) == old(Seen(server, n))
    {
      assert names[i] !in names[..i];
      assert forall j :: 0 <= j < i ==> names[j] != names[i];
      ReloadOne(eng, server, cfg.ports[i], opens);
      assert names[..i + 1] == names[..i] + [names[i]];
    }
    assert names[..|names|] == names;
  }

  /** Remove the names in `existing` that are not declared any more. */
  method DropRemoved(server: PortMap, existing: set<string>, declared: seq<string>)
    modifies server
    ensures server.inner == old(server.inner) - (set n | n in existing && n !in declared)
  {
    var left := existing;
    while left != {}
      invariant left <= existing
      invariant server.inner == old(server.inner) - (set n | n in existing - left && n !in declared)
      decreases left
    {
      var n :| n in left;
      left := left - {n};
      if n !in declared {
        var removed := server.Remove(n);
      }
    }
  }

  lemma ValidPortsStart(eng: Engine, cfg: Config, opens: string -> bool)
    requires Sound(eng) && ValidConfig(eng, cfg)
    ensures forall i :: 0 <= i < |cfg.ports| ==> (Starts(eng, cfg.ports[i], opens) <==> opens(cfg.ports[i].name))
  {
    hide Compiled, ValidPort;
    forall i | 0 <= i < |cfg.ports|
      ensures Compiled(eng, cfg.ports[i]).Ok?
    {
      ValidPortCompiles(eng, cfg.ports[i]);
    }
  }

  /** After a reload every declared port is swapped or started and no other name is live; when
      patterns valid over text are valid over bytes, the live names are exactly the declared ones
      that were live or can be opened. A port that stays keeps its identity, hence its capture,
      whose contents are not among what a reload may modify; a port that is dropped is left as
      it was. */
  method Apply(eng: Engine, server: PortMap, cfg: Config, opens: string -> bool)
    requires ValidConfig(eng, cfg) && Keyed(server.inner)
    modifies server, server.inner.Values
    ensures Keyed(server.inner) && OldOrNew(server)
    ensures forall n :: n in server.inner ==> n in PortNames(cfg.ports)
    ensures forall i :: 0 <= i < |cfg.ports| ==>
              Reloaded(eng, cfg.ports[i], opens, old(Seen(server, cfg.ports[i].name)), Seen(server, cfg.ports[i].name))
    ensures Sound(eng) ==> forall n :: n in server.inner <==>
              n in PortNames(cfg.ports) && (n in old(server.inner) || opens(n))
    ensures forall n :: n in old(server.inner) && n !in PortNames(cfg.ports) ==>
              ViewOf(old(server.inner[n])) == old(ViewOf(server.inner[n]))
  {
    hide Compiled, ValidPort, NextActive, FromConfig, Swapped, StartedWith;
    var existing := server.Names();
    var newNames := PortNames(cfg.ports);
    UpdateAndSpawn(eng, server, cfg, opens);
    label updated:
    DropRemoved(server, existing, newNames);
    forall i | 0 <= i < |cfg.ports|
      ensures newNames[i] == cfg.ports[i].name
      ensures Seen(server, newNames[i]) == old@updated(Seen(server, newNames[i]))
    {
      assert newNames[i] in newNames;
    }
    if Sound(eng) {
      ValidPortsStart(eng, cfg, opens);
    }
  }
}
