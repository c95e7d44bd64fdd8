/** What the port answers, in terms of the configurations that were installed. */
module Meaning {
  import opened Common
  import opened Config
  import opened Captures
  import opened Framing
  import opened Matching
  import opened Port
  import opened Protocol
  import opened Invariants
  import Guarantees

  /** The table is what a valid configuration compiles to. */
  predicate FromConfiguration(eng: Engine, cfg: PortConfig, p: CompiledPort) {
    ValidPort(eng, cfg) && Compiled(eng, cfg) == Ok(p)
  }

  ghost predicate Installable(eng: Engine, p: CompiledPort) {
    exists cfg :: FromConfiguration(eng, cfg, p)
  }

  /** Every table that was or is about to be installed comes from a valid configuration, and every
      scenario that ever was active is an entry of such a table. */
  ghost predicate Configured(eng: Engine, s: State) {
    && (forall g | 0 <= g < |s.hist.gens| :: Installable(eng, s.hist.gens[g]))
    && (s.reload.Named? ==> Installable(eng, s.reload.port))
    && (forall i | 0 <= i < |s.hist.actives| :: OfSomeTable(s.hist.gens, s.hist.actives[i]))
  }

  ghost predicate OfSomeTable(gens: seq<CompiledPort>, sc: CompiledScenario) {
    exists g: nat :: FromGen(gens, g, sc)
  }

  lemma TablesStay(a: seq<CompiledPort>, b: seq<CompiledPort>, sc: CompiledScenario)
    requires OfSomeTable(a, sc) && a <= b
    ensures OfSomeTable(b, sc)
  {
    var g: nat :| FromGen(a, g, sc);
    assert FromGen(b, g, sc);
  }

  lemma ConfiguredInit(eng: Engine, cfg: PortConfig, s: State)
    requires InitFrom(eng, cfg, s)
    ensures Configured(eng, s)
  {
    hide Compiled, ValidPort;
    assert FromConfiguration(eng, cfg, s.compiled);
    SpawnedNamesAgree(eng, cfg);
    assert FromGen(s.hist.gens, 0, s.active);
  }

  /** A step that adds at most one table and one active scenario. */
  lemma ConfiguredGrows(eng: Engine, s: State, t: State)
    requires Configured(eng, s) && Scenarios(t)
    requires t.hist.gens == s.hist.gens || (s.reload.Named? && t.hist.gens == s.hist.gens + [s.reload.port])
    requires t.hist.actives == s.hist.actives || t.hist.actives == s.hist.actives + [t.active]
    requires t.reload.Named? ==> Installable(eng, t.reload.port)
    ensures Configured(eng, t)
  {
    hide FromGen, Installable;
    forall i | 0 <= i < |t.hist.actives|
      ensures OfSomeTable(t.hist.gens, t.hist.actives[i])
    {
      if i < |s.hist.actives| {
        TablesStay(s.hist.gens, t.hist.gens, s.hist.actives[i]);
      }
    }
  }

  lemma ConfiguredReload(eng: Engine, s: State, w: ReloadStep)
    requires Configured(eng, s) && ReloadEnabled(eng, s, w) && Scenarios(ReloadDoes(eng, s, w))
    ensures Configured(eng, ReloadDoes(eng, s, w))
  {
    hide Compiled, NextActive, ValidPort, Scenarios;
    if w.SwapBegin? && Compiled(eng, w.cfg).Ok? {
      assert FromConfiguration(eng, w.cfg, Compiled(eng, w.cfg).value);
    }
    ConfiguredGrows(eng, s, ReloadDoes(eng, s, w));
  }

  lemma ConfiguredClient(eng: Engine, s: State, tid: nat, c: ClientStep)
    requires Configured(eng, s) && ClientEnabled(s, tid, c) && Scenarios(ClientDoes(s, tid, c))
    ensures Configured(eng, ClientDoes(s, tid, c))
  {
    hide LookupTrigger, Scenarios, Configured;
    ConfiguredGrowsHere(eng, s, ClientDoes(s, tid, c));
  }

  lemma ConfiguredGrowsHere(eng: Engine, s: State, t: State)
    requires Configured(eng, s) && Scenarios(t) && t.reload == s.reload && t.hist.gens == s.hist.gens
    requires t.hist.actives == s.hist.actives || t.hist.actives == s.hist.actives + [t.active]
    ensures Configured(eng, t)
  {
    ConfiguredGrows(eng, s, t);
  }

  lemma ConfiguredStep(eng: Engine, s: State, a: Action)
    requires Configured(eng, s) && Enabled(eng, s, a) && Scenarios(Next(eng, s, a))
    ensures Configured(eng, Next(eng, s, a))
  {
    hide ReaderDoes, ClientDoes, ReloadDoes, ReaderEnabled, ClientEnabled, ReloadEnabled, Apply, Remember;
    hide Configured, Scenarios;
    match a {
      case ByReader(r) =>
        ReaderFrame(eng, s, r);
        ConfiguredGrowsHere(eng, s, ReaderDoes(eng, s, r));
      case ByClient(tid, c) => ConfiguredClient(eng, s, tid, c);
      case ByReload(w) => ConfiguredReload(eng, s, w);
      case DropRaw => ConfiguredGrowsHere(eng, s, Capturing(s, ClearRaw));
      case DropEvents => ConfiguredGrowsHere(eng, s, Capturing(s, ClearEvents));
    }
  }

  lemma ScenariosOfInv(eng: Engine, s: State)
    requires Inv(eng, s)
    ensures Scenarios(s) && Histories(s) && Sourced(eng, s)
  {
  }

  lemma {:induction false} ConfiguredRun(eng: Engine, s: State, acts: seq<Action>)
    requires Configured(eng, s) && Inv(eng, s) && Runs(eng, s, acts)
    ensures Configured(eng, StateAfter(eng, s, acts))
    decreases |acts|
  {
    hide Configured, Inv, Enabled, Next, Scenarios;
    if acts != [] {
      var t := Next(eng, s, acts[0]);
      Invariants.Step(eng, s, acts[0]);
      ScenariosOfInv(eng, t);
      ConfiguredStep(eng, s, acts[0]);
      ConfiguredRun(eng, t, acts[1..]);
    }
  }

  lemma ReachableConfigured(eng: Engine, s: State)
    requires Guarantees.Reachable(eng, s)
    ensures Configured(eng, s)
  {
    hide Inv, InitFrom, Configured, Runs, StateAfter;
    var s0, acts :| Guarantees.Reaches(eng, s0, acts, s);
    var cfg :| InitFrom(eng, cfg, s0);
    InitInv(eng, cfg, s0);
    ConfiguredInit(eng, cfg, s0);
    ConfiguredRun(eng, s0, acts);
  }

  /** The compiled scenario is that of a scenario declared in a valid configuration. */
  ghost predicate DeclaredIn(eng: Engine, cfg: PortConfig, i: nat, c: CompiledScenario) {
    ValidPort(eng, cfg) && i < |cfg.scenarios| && Means(eng, cfg.scenarios[i], c)
  }

  ghost predicate DeclaredSomewhere(eng: Engine, c: CompiledScenario) {
    exists cfg: PortConfig, i: nat :: DeclaredIn(eng, cfg, i, c)
  }

  lemma EntryIsDeclared(eng: Engine, cfg: PortConfig, c: CompiledScenario)
    requires Sound(eng) && ValidPort(eng, cfg) && Compiled(eng, cfg).Ok?
    requires c.name in Compiled(eng, cfg).value.scenarios && Compiled(eng, cfg).value.scenarios[c.name] == c
    ensures DeclaredSomewhere(eng, c)
  {
    CompiledKeys(eng, cfg.scenarios);
    var i :| 0 <= i < |cfg.scenarios| && ScenarioNames(cfg.scenarios)[i] == c.name;
    ValidPortMeans(eng, cfg, i);
    hide Means, ValidPort, Compiled;
    assert DeclaredIn(eng, cfg, i, c);
  }

  lemma ActiveIsDeclared(eng: Engine, s: State, i: nat)
    requires Sound(eng) && Configured(eng, s) && i < |s.hist.actives|
    ensures DeclaredSomewhere(eng, s.hist.actives[i])
  {
    hide Compiled, ValidPort;
    var c := s.hist.actives[i];
    var g: nat :| FromGen(s.hist.gens, g, c);
    assert Installable(eng, s.hist.gens[g]);
    var cfg :| FromConfiguration(eng, cfg, s.hist.gens[g]);
    EntryIsDeclared(eng, cfg, c);
  }

  /** A frame's label and response are those of some declared scenario's first rule that holds. */
  ghost predicate AnsweredByConfiguration(eng: Engine, frame: Bytes, outcome: Option<string>, response: Bytes) {
    exists cfg: PortConfig, i: nat ::
      ValidPort(eng, cfg) && i < |cfg.scenarios| && AnsweredAs(eng, cfg.scenarios[i], frame, outcome, response)
  }

  /** The bytes are what some declared scenario has for the trigger. */
  ghost predicate FiredByConfiguration(eng: Engine, name: string, response: Bytes) {
    exists cfg: PortConfig, i: nat ::
      ValidPort(eng, cfg) && i < |cfg.scenarios| && Declares(cfg.scenarios[i], name, response)
  }

  lemma FrameOfDeclared(eng: Engine, c: CompiledScenario, frame: Bytes)
    requires DeclaredSomewhere(eng, c)
    ensures AnsweredByConfiguration(eng, frame, AnswerLabel(eng, c, frame), AnswerBytes(eng, c, frame))
  {
    hide ValidPort, AnsweredAs, AnswerLabel, AnswerBytes;
    var cfg: PortConfig, i: nat :| DeclaredIn(eng, cfg, i, c);
    assert AnsweredAs(eng, cfg.scenarios[i], frame, AnswerLabel(eng, c, frame), AnswerBytes(eng, c, frame));
  }

  lemma TriggerOfDeclared(eng: Engine, c: CompiledScenario, name: string, response: Bytes)
    requires DeclaredSomewhere(eng, c) && LookupTrigger(c, name) == Some(response)
    ensures FiredByConfiguration(eng, name, response)
  {
    hide ValidPort, Declares, LookupTrigger, AnsweredAs;
    var cfg: PortConfig, i: nat :| DeclaredIn(eng, cfg, i, c);
    assert Declares(cfg.scenarios[i], name, response);
  }

  lemma JustifiedFrame(eng: Engine, b: Block)
    requires Justified(eng, b) && b.source.FromFrame?
    ensures AnswerLabel(eng, b.scenario, b.source.frame) == Some(b.source.rule)
    ensures AnswerBytes(eng, b.scenario, b.source.frame) == b.data
  {
  }

  /** In every reachable state, each recorded frame carries the label that a declared scenario's
      first holding rule gives it, each write for a frame is that rule's response, and each
      write for a trigger is the response declared for it. */
  lemma AnswersFollowTheConfiguration(eng: Engine, s: State)
    requires Sound(eng) && Guarantees.Reachable(eng, s)
    ensures forall i :: 0 <= i < |s.hist.handled| ==>
              var h := s.hist.handled[i];
              AnsweredByConfiguration(eng, h.frame, h.outcome, AnswerBytes(eng, h.scenario, h.frame))
    ensures forall i :: 0 <= i < |s.hist.blocks| ==>
              match s.hist.blocks[i].source
              case FromFrame(frame, rule) => AnsweredByConfiguration(eng, frame, Some(rule), s.hist.blocks[i].data)
              case FromTrigger(name) => FiredByConfiguration(eng, name, s.hist.blocks[i].data)
  {
    hide Inv, AnsweredByConfiguration, FiredByConfiguration, DeclaredSomewhere, AnswerLabel, AnswerBytes, Answer;
    hide LookupTrigger, Configured, GoodReader, GoodClients;
    Guarantees.ReachableInv(eng, s);
    ReachableConfigured(eng, s);
    ScenariosOfInv(eng, s);
    forall i | 0 <= i < |s.hist.handled|
      ensures var h := s.hist.handled[i];
              AnsweredByConfiguration(eng, h.frame, h.outcome, AnswerBytes(eng, h.scenario, h.frame))
    {
      var h := s.hist.handled[i];
      assert GoodHandled(eng, s, h);
      ActiveIsDeclared(eng, s, h.at);
      FrameOfDeclared(eng, h.scenario, h.frame);
    }
    forall i | 0 <= i < |s.hist.blocks|
      ensures match s.hist.blocks[i].source
              case FromFrame(frame, rule) => AnsweredByConfiguration(eng, frame, Some(rule), s.hist.blocks[i].data)
              case FromTrigger(name) => FiredByConfiguration(eng, name, s.hist.blocks[i].data)
    {
      var b := s.hist.blocks[i];
      assert GoodBlock(eng, s, b);
      ActiveIsDeclared(eng, s, b.at);
      match b.source {
        case FromFrame(frame, _) =>
          JustifiedFrame(eng, b);
          FrameOfDeclared(eng, b.scenario, frame);
        case FromTrigger(name) =>
          TriggerOfDeclared(eng, b.scenario, name, b.data);
      }
    }
  }

  /** A port starts with the scenario that its configuration names, meaning what it says there. */
  lemma StartsAsConfigured(eng: Engine, cfg: PortConfig, s: State) returns (i: nat)
    requires Sound(eng) && InitFrom(eng, cfg, s)
    ensures i < |cfg.scenarios| && cfg.scenarios[i].name == cfg.initialScenario
    ensures Means(eng, cfg.scenarios[i], s.active)
  {
    hide Means;
    i :| 0 <= i < |cfg.scenarios| && ScenarioNames(cfg.scenarios)[i] == cfg.initialScenario;
    ValidPortMeans(eng, cfg, i);
  }
}
