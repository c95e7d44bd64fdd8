/** The parsed configuration and its validation. */
module Config {
  import opened Common
  import Framing

  datatype MaskConfig = MaskConfig(pattern: Bytes, mask: Bytes)

  datatype MatchConfig = MatchConfig(exact: Option<Bytes>, regex: Option<string>, mask: Option<MaskConfig>)

  datatype Match = Exact(bytes: Bytes) | Regex(pattern: string) | Mask(bits: Bytes, mask: Bytes)

  datatype MatchError = NothingSet | SeveralSet | UnequalLengths

  datatype InputRuleConfig = InputRuleConfig(match_: MatchConfig, response: Bytes)

  datatype TriggerConfig = TriggerConfig(name: string, response: Bytes)

  datatype ScenarioConfig = ScenarioConfig(name: string, triggers: seq<TriggerConfig>, inputRules: seq<InputRuleConfig>)

  datatype PortConfig = PortConfig(name: string, initialScenario: string, framing: Option<Framing.FramingConfig>,
                                   maxEvents: nat, maxRawBytes: nat, scenarios: seq<ScenarioConfig>)

  datatype Config = Config(ports: seq<PortConfig>)

  /** The two faces of the regular-expression library: patterns over text, which validation
      compiles, and patterns over bytes, which the matcher compiles and runs. */
  datatype Engine = Engine(textValid: string -> bool, bytesValid: string -> bool, isMatch: (string, Bytes) -> bool)

  /** Every pattern that compiles over text also compiles over bytes. */
  ghost predicate Sound(eng: Engine) {
    forall p :: eng.textValid(p) ==> eng.bytesValid(p)
  }

  function CountSet(m: MatchConfig): nat {
    (if m.exact.Some? then 1 else 0) + (if m.regex.Some? then 1 else 0) + (if m.mask.Some? then 1 else 0)
  }

  function Resolve(m: MatchConfig): Result<Match, MatchError> {
    var count := CountSet(m);
    if count == 0 then Err(NothingSet)
    else if count == 1 then
      if m.exact.Some? then Ok(Exact(m.exact.value))
      else if m.regex.Some? then Ok(Regex(m.regex.value))
      else if |m.mask.value.pattern| != |m.mask.value.mask| then Err(UnequalLengths)
      else Ok(Mask(m.mask.value.pattern, m.mask.value.mask))
    else Err(SeveralSet)
  }

  /** A match resolves exactly if one of its fields is set and no other, and a mask is as long as
      its pattern; and each error belongs to its own case. */
  lemma ResolveExactly(m: MatchConfig)
    ensures Resolve(m).Ok? <==>
            || (m.exact.Some? && m.regex.None? && m.mask.None?)
            || (m.exact.None? && m.regex.Some? && m.mask.None?)
            || (m.exact.None? && m.regex.None? && m.mask.Some? && |m.mask.value.pattern| == |m.mask.value.mask|)
    ensures Resolve(m) == Err(NothingSet) <==> m.exact.None? && m.regex.None? && m.mask.None?
    ensures Resolve(m) == Err(UnequalLengths) <==>
            m.exact.None? && m.regex.None? && m.mask.Some? && |m.mask.value.pattern| != |m.mask.value.mask|
    ensures forall b :: Resolve(m) == Ok(Exact(b)) ==> m.exact == Some(b)
    ensures forall p :: Resolve(m) == Ok(Regex(p)) ==> m.regex == Some(p)
    ensures forall p, k :: Resolve(m) == Ok(Mask(p, k)) ==> m.mask == Some(MaskConfig(p, k))
  {
  }

  // ---- What a valid configuration is ----

  predicate Distinct<T(==)>(s: seq<T>) {
    forall i, j :: 0 <= i < j < |s| ==> s[i] != s[j]
  }

  function PortNames(ports: seq<PortConfig>): (r: seq<string>)
    ensures |r| == |ports| && forall i :: 0 <= i < |r| ==> r[i] == ports[i].name
  {
    seq(|ports|, i requires 0 <= i < |ports| => ports[i].name)
  }

  function ScenarioNames(scenarios: seq<ScenarioConfig>): (r: seq<string>)
    ensures |r| == |scenarios| && forall i :: 0 <= i < |r| ==> r[i] == scenarios[i].name
  {
    seq(|scenarios|, i requires 0 <= i < |scenarios| => scenarios[i].name)
  }

  function TriggerNames(triggers: seq<TriggerConfig>): (r: seq<string>)
    ensures |r| == |triggers| && forall i :: 0 <= i < |r| ==> r[i] == triggers[i].name
  {
    seq(|triggers|, i requires 0 <= i < |triggers| => triggers[i].name)
  }

  predicate ValidRule(eng: Engine, r: InputRuleConfig) {
    && Resolve(r.match_).Ok?
    && (Resolve(r.match_).value.Regex? ==> eng.textValid(Resolve(r.match_).value.pattern))
  }

  predicate ValidScenario(eng: Engine, sc: ScenarioConfig) {
    && Distinct(TriggerNames(sc.triggers))
    && forall i :: 0 <= i < |sc.inputRules| ==> ValidRule(eng, sc.inputRules[i])
  }

  predicate ValidPort(eng: Engine, p: PortConfig) {
    && (p.framing.Some? ==> Framing.Validate(p.framing.value).Ok?)
    && p.scenarios != []
    && Distinct(ScenarioNames(p.scenarios))
    && (forall i :: 0 <= i < |p.scenarios| ==> ValidScenario(eng, p.scenarios[i]))
    && p.initialScenario in ScenarioNames(p.scenarios)
  }

  predicate ValidConfig(eng: Engine, cfg: Config) {
    && Distinct(PortNames(cfg.ports))
    && forall i :: 0 <= i < |cfg.ports| ==> ValidPort(eng, cfg.ports[i])
  }

  /** A rule is valid exactly if its match is an exact one, a pattern that compiles over text, or
      a mask as long as its pattern, and only one of them. */
  lemma ValidRuleExactly(eng: Engine, r: InputRuleConfig)
    ensures var m := r.match_;
            ValidRule(eng, r) <==>
            || (m.exact.Some? && m.regex.None? && m.mask.None?)
            || (m.exact.None? && m.regex.Some? && m.mask.None? && eng.textValid(m.regex.value))
            || (m.exact.None? && m.regex.None? && m.mask.Some? && |m.mask.value.pattern| == |m.mask.value.mask|)
  {
    ResolveExactly(r.match_);
  }

  // ---- Validation as the source performs it ----

  datatype RuleFault = BadMatch(index: nat, error: MatchError) | BadRegex(index: nat, pattern: string)

  datatype ScenarioFault = DuplicateTrigger(trigger: string) | BadRule(fault: RuleFault)

  datatype PortFault =
    | BadFraming(error: Framing.FramingError)
    | NoScenario
    | DuplicateScenario(scenario: string)
    | InScenario(scenario: string, scenarioFault: ScenarioFault)
    | MissingInitial(initial: string)

  datatype ConfigError = DuplicatePort(port: string) | InPort(port: string, portFault: PortFault)

  predicate Repeats<T(==)>(s: seq<T>, x: T) {
    exists i, j :: 0 <= i < j < |s| && s[i] == x == s[j]
  }

  predicate RealRuleFault(eng: Engine, rules: seq<InputRuleConfig>, f: RuleFault) {
    && f.index < |rules|
    && var resolved := Resolve(rules[f.index].match_);
       match f
       case BadMatch(_, e) => resolved == Err(e)
       case BadRegex(_, p) => resolved == Ok(Regex(p)) && !eng.textValid(p)
  }

  predicate RealScenarioFault(eng: Engine, sc: ScenarioConfig, f: ScenarioFault) {
    match f
    case DuplicateTrigger(t) => Repeats(TriggerNames(sc.triggers), t)
    case BadRule(rf) => RealRuleFault(eng, sc.inputRules, rf)
  }

  predicate RealPortFault(eng: Engine, p: PortConfig, f: PortFault) {
    match f
    case BadFraming(e) => p.framing.Some? && Framing.Validate(p.framing.value) == Err(e)
    case NoScenario => p.scenarios == []
    case DuplicateScenario(s) => Repeats(ScenarioNames(p.scenarios), s)
    case InScenario(s, sf) =>
      exists i :: 0 <= i < |p.scenarios| && p.scenarios[i].name == s && RealScenarioFault(eng, p.scenarios[i], sf)
    case MissingInitial(s) => s == p.initialScenario && s !in ScenarioNames(p.scenarios)
  }

  predicate RealConfigError(eng: Engine, cfg: Config, e: ConfigError) {
    match e
    case DuplicatePort(name) => Repeats(PortNames(cfg.ports), name)
    case InPort(name, f) =>
      exists i :: 0 <= i < |cfg.ports| && cfg.ports[i].name == name && RealPortFault(eng, cfg.ports[i], f)
  }

  method CheckRules(eng: Engine, rules: seq<InputRuleConfig>) returns (r: Result<(), RuleFault>)
    ensures r.Ok? <==> forall i :: 0 <= i < |rules| ==> ValidRule(eng, rules[i])
    ensures r.Err? ==> RealRuleFault(eng, rules, r.error)
    ensures r.Err? ==> forall i :: 0 <= i < r.error.index ==> ValidRule(eng, rules[i])
  {
    for idx := 0 to |rules|
      invariant forall i :: 0 <= i < idx ==> ValidRule(eng, rules[i])
    {
      var resolved := Resolve(rules[idx].match_);
      if resolved.Err? {
        assert !ValidRule(eng, rules[idx]);
        return Err(BadMatch(idx, resolved.error));
      }
      if resolved.value.Regex? && !eng.textValid(resolved.value.pattern) {
        assert !ValidRule(eng, rules[idx]);
        return Err(BadRegex(idx, resolved.value.pattern));
      }
    }
    return Ok(());
  }

  /** Insert names into a set one by one until one is already there. */
  method FindRepeat(names: seq<string>) returns (r: Option<string>)
    ensures r.None? <==> Distinct(names)
    ensures r.Some? ==> Repeats(names, r.value)
  {
    var seen: set<string> := {};
    for i := 0 to |names|
      invariant forall x :: x in seen <==> exists j :: 0 <= j < i && names[j] == x
      invariant Distinct(names[..i])
    {
      if names[i] in seen {
        var j :| 0 <= j < i && names[j] == names[i];
        return Some(names[i]);
      }
      seen := seen + {names[i]};
      assert names[..i + 1] == names[..i] + [names[i]];
    }
    assert names[..|names|] == names;
    return None;
  }

  method CheckScenario(eng: Engine, sc: ScenarioConfig) returns (r: Result<(), ScenarioFault>)
    ensures r.Ok? <==> ValidScenario(eng, sc)
    ensures r.Err? ==> RealScenarioFault(eng, sc, r.error)
  {
    var repeated := FindRepeat(TriggerNames(sc.triggers));
    if repeated.Some? {
      return Err(DuplicateTrigger(repeated.value));
    }
    var rules := CheckRules(eng, sc.inputRules);
    match rules {
      case Err(f) => return Err(BadRule(f));
      case Ok(_) => return Ok(());
    }
  }

  method CheckPort(eng: Engine, p: PortConfig) returns (r: Result<(), PortFault>)
    ensures r.Ok? <==> ValidPort(eng, p)
    ensures r.Err? ==> RealPortFault(eng, p, r.error)
  {
    if p.framing.Some? {
      var framing := Framing.Validate(p.framing.value);
      if framing.Err? {
        return Err(BadFraming(framing.error));
      }
    }
    if p.scenarios == [] {
      return Err(NoScenario);
    }
    hide ValidScenario, RealScenarioFault, ValidPort, RealPortFault;
    var names := ScenarioNames(p.scenarios);
    var seen: set<string> := {};
    var foundInitial := false;
    for i := 0 to |p.scenarios|
      invariant forall x :: x in seen <==> exists j :: 0 <= j < i && names[j] == x
      invariant Distinct(names[..i])
      invariant foundInitial <==> p.initialScenario in names[..i]
      invariant forall j :: 0 <= j < i ==> ValidScenario(eng, p.scenarios[j])
    {
      if names[i] in seen {
        var j :| 0 <= j < i && names[j] == names[i];
        AtRepeat(eng, p, j, i);
        return Err(DuplicateScenario(names[i]));
      }
      seen := seen + {names[i]};
      assert names[..i + 1] == names[..i] + [names[i]];
      foundInitial := foundInitial || names[i] == p.initialScenario;
      var scenario := CheckScenario(eng, p.scenarios[i]);
      if scenario.Err? {
        AtFault(eng, p, i, scenario.error);
        return Err(InScenario(names[i], scenario.error));
      }
    }
    assert names[..|names|] == names;
    ScenariosChecked(eng, p);
    if !foundInitial {
      return Err(MissingInitial(p.initialScenario));
    }
    return Ok(());
  }

  lemma AtRepeat(eng: Engine, p: PortConfig, i: nat, j: nat)
    requires i < j < |p.scenarios| && p.scenarios[i].name == p.scenarios[j].name
    ensures !ValidPort(eng, p) && RealPortFault(eng, p, DuplicateScenario(p.scenarios[j].name))
  {
    var names := ScenarioNames(p.scenarios);
    assert names[i] == names[j];
  }

  lemma AtFault(eng: Engine, p: PortConfig, i: nat, f: ScenarioFault)
    requires i < |p.scenarios| && !ValidScenario(eng, p.scenarios[i]) && RealScenarioFault(eng, p.scenarios[i], f)
    ensures !ValidPort(eng, p) && RealPortFault(eng, p, InScenario(p.scenarios[i].name, f))
  {
    hide ValidScenario, RealScenarioFault;
  }

  lemma ScenariosChecked(eng: Engine, p: PortConfig)
    requires p.framing.Some? ==> Framing.Validate(p.framing.value).Ok?
    requires p.scenarios != [] && Distinct(ScenarioNames(p.scenarios))
    requires forall i :: 0 <= i < |p.scenarios| ==> ValidScenario(eng, p.scenarios[i])
    ensures ValidPort(eng, p) <==> p.initialScenario in ScenarioNames(p.scenarios)
    ensures p.initialScenario !in ScenarioNames(p.scenarios) ==>
              RealPortFault(eng, p, MissingInitial(p.initialScenario))
  {
    hide ValidScenario, RealScenarioFault;
  }

  /** Validation accepts exactly the valid configurations, and a rejection names a fault that
      the configuration really has. */
  method Validate(eng: Engine, cfg: Config) returns (r: Result<(), ConfigError>)
    ensures r.Ok? <==> ValidConfig(eng, cfg)
    ensures r.Err? ==> RealConfigError(eng, cfg, r.error)
  {
    hide ValidPort, RealPortFault;
    var names := PortNames(cfg.ports);
    var seen: set<string> := {};
    for i := 0 to |cfg.ports|
      invariant forall x :: x in seen <==> exists j :: 0 <= j < i && names[j] == x
      invariant Distinct(names[..i])
      invariant forall j :: 0 <= j < i ==> ValidPort(eng, cfg.ports[j])
    {
      if names[i] in seen {
        var j :| 0 <= j < i && names[j] == names[i];
        return Err(DuplicatePort(names[i]));
      }
      seen := seen + {names[i]};
      assert names[..i + 1] == names[..i] + [names[i]];
      var port := CheckPort(eng, cfg.ports[i]);
      if port.Err? {
        return Err(InPort(names[i], port.error));
      }
    }
    assert names[..|names|] == names;
    return Ok(());
  }
}
