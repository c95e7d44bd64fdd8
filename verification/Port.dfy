/** One port: compiling its configuration, answering frames and triggers, switching scenarios,
    swapping the configuration, and the reader loop, each as the source performs it when no
    other thread interferes. */
module Port {
  import opened Common
  import opened Config
  import opened Matching
  import opened Captures
  import opened Framing

  datatype CompiledScenario =
    CompiledScenario(name: string, triggers: map<string, Bytes>, inputRules: seq<CompiledRule>)

  datatype CompiledPort = CompiledPort(scenarios: map<string, CompiledScenario>, order: seq<string>)

  datatype PortError =
    | ScenarioFailed(scenario: string, cause: CompileError)
    | NoUsableScenario
    | UnknownScenario(name: string)
    | UnknownTrigger(name: string)
    | WriteFailed
    | OpenFailed

  // ---- Compilation ----

  /** Later triggers of the same name win. */
  function TriggerMap(triggers: seq<TriggerConfig>): map<string, Bytes> {
    if triggers == [] then map[]
    else
      var n := |triggers| - 1;
      TriggerMap(triggers[..n])[triggers[n].name := triggers[n].response]
  }

  lemma {:induction false} TriggerMapIsTheList(triggers: seq<TriggerConfig>)
    requires Distinct(TriggerNames(triggers))
    ensures forall name :: name in TriggerMap(triggers) <==> name in TriggerNames(triggers)
    ensures forall i :: 0 <= i < |triggers| ==> TriggerMap(triggers)[triggers[i].name] == triggers[i].response
  {
    if triggers != [] {
      var n := |triggers| - 1;
      assert TriggerNames(triggers) == TriggerNames(triggers[..n]) + [triggers[n].name];
      TriggerMapIsTheList(triggers[..n]);
      forall i | 0 <= i < n
        ensures triggers[i].name in TriggerMap(triggers[..n]) && triggers[i].name != triggers[n].name
      {
        assert TriggerNames(triggers[..n])[i] == triggers[i].name == TriggerNames(triggers)[i];
        assert TriggerNames(triggers)[n] == triggers[n].name;
      }
    }
  }

  function CompileScenario(eng: Engine, sc: ScenarioConfig): Result<CompiledScenario, PortError> {
    match CompileRules(eng, sc.inputRules)
    case Err(e) => Err(ScenarioFailed(sc.name, e))
    case Ok(rules) => Ok(CompiledScenario(sc.name, TriggerMap(sc.triggers), rules))
  }

  /** The scenarios by name, a later one of the same name winning, or the first error. */
  function CompileScenarios(eng: Engine, scenarios: seq<ScenarioConfig>)
      : Result<map<string, CompiledScenario>, PortError>
  {
    if scenarios == [] then Ok(map[])
    else
      var n := |scenarios| - 1;
      match CompileScenarios(eng, scenarios[..n])
      case Err(e) => Err(e)
      case Ok(early) => (
        match CompileScenario(eng, scenarios[n])
        case Err(e) => Err(e)
        case Ok(sc) => Ok(early[scenarios[n].name := sc]))
  }

  function Compiled(eng: Engine, cfg: PortConfig): Result<CompiledPort, PortError> {
    match CompileScenarios(eng, cfg.scenarios)
    case Err(e) => Err(e)
    case Ok(scenarios) => Ok(CompiledPort(scenarios, ScenarioNames(cfg.scenarios)))
  }

  method CompilePort(eng: Engine, cfg: PortConfig) returns (r: Result<CompiledPort, PortError>)
    ensures r == Compiled(eng, cfg)
  {
    hide CompileScenario;
    var scenarios: map<string, CompiledScenario> := map[];
    var order: seq<string> := [];
    for i := 0 to |cfg.scenarios|
      invariant CompileScenarios(eng, cfg.scenarios[..i]) == Ok(scenarios)
      invariant order == ScenarioNames(cfg.scenarios[..i])
    {
      assert cfg.scenarios[..i + 1][..i] == cfg.scenarios[..i];
      var sc := CompileScenario(eng, cfg.scenarios[i]);
      if sc.Err? {
        ErrorStays(eng, cfg.scenarios, i + 1);
        return Err(sc.error);
      }
      scenarios := scenarios[cfg.scenarios[i].name := sc.value];
      order := order + [cfg.scenarios[i].name];
    }
    assert cfg.scenarios[..|cfg.scenarios|] == cfg.scenarios;
    return Ok(CompiledPort(scenarios, order));
  }

  lemma {:induction false} ErrorStays(eng: Engine, scenarios: seq<ScenarioConfig>, n: nat)
    requires n <= |scenarios| && CompileScenarios(eng, scenarios[..n]).Err?
    ensures CompileScenarios(eng, scenarios) == CompileScenarios(eng, scenarios[..n])
  {
    if n < |scenarios| {
      var m := |scenarios| - 1;
      assert scenarios[..m][..n] == scenarios[..n];
      ErrorStays(eng, scenarios[..m], n);
    } else {
      assert scenarios[..n] == scenarios;
    }
  }

  lemma ValidScenarioCompiles(eng: Engine, sc: ScenarioConfig)
    requires Sound(eng) && ValidScenario(eng, sc)
    ensures CompileScenario(eng, sc).Ok?
  {
    CompileRulesExactly(eng, sc.inputRules);
    forall i | 0 <= i < |sc.inputRules|
      ensures Compilable(eng, sc.inputRules[i])
    {
      assert ValidRule(eng, sc.inputRules[i]);
    }
  }

  lemma {:induction false} DistinctScenariosCompile(eng: Engine, scenarios: seq<ScenarioConfig>)
    requires Distinct(ScenarioNames(scenarios))
    requires forall i :: 0 <= i < |scenarios| ==> CompileScenario(eng, scenarios[i]).Ok?
    ensures CompileScenarios(eng, scenarios).Ok?
    ensures forall name :: name in CompileScenarios(eng, scenarios).value <==> name in ScenarioNames(scenarios)
    ensures forall i :: 0 <= i < |scenarios| ==>
              CompileScenarios(eng, scenarios).value[scenarios[i].name] == CompileScenario(eng, scenarios[i]).value
  {
    hide CompileScenario;
    if scenarios != [] {
      var n := |scenarios| - 1;
      assert ScenarioNames(scenarios) == ScenarioNames(scenarios[..n]) + [scenarios[n].name];
      DistinctScenariosCompile(eng, scenarios[..n]);
      forall i | 0 <= i < n
        ensures scenarios[i].name in CompileScenarios(eng, scenarios[..n]).value
        ensures scenarios[i].name != scenarios[n].name
      {
        assert ScenarioNames(scenarios[..n])[i] == scenarios[i].name == ScenarioNames(scenarios)[i];
        assert ScenarioNames(scenarios)[n] == scenarios[n].name;
      }
    }
  }

  /** The table has exactly the declared names, whether or not they are distinct. */
  lemma {:induction false} CompiledKeys(eng: Engine, scenarios: seq<ScenarioConfig>)
    requires CompileScenarios(eng, scenarios).Ok?
    ensures forall name :: name in CompileScenarios(eng, scenarios).value <==> name in ScenarioNames(scenarios)
  {
    if scenarios != [] {
      var n := |scenarios| - 1;
      CompiledKeys(eng, scenarios[..n]);
      assert ScenarioNames(scenarios) == ScenarioNames(scenarios[..n]) + [scenarios[n].name];
    }
  }

  /** A port fails to compile with the first scenario that does, and with its first rule that
      does not. */
  lemma {:induction false} FirstFailure(eng: Engine, scenarios: seq<ScenarioConfig>) returns (k: nat)
    requires CompileScenarios(eng, scenarios).Err?
    ensures k < |scenarios| && CompileRules(eng, scenarios[k].inputRules).Err?
    ensures CompileScenarios(eng, scenarios).error ==
            ScenarioFailed(scenarios[k].name, CompileRules(eng, scenarios[k].inputRules).error)
    ensures forall i :: 0 <= i < k ==> CompileRules(eng, scenarios[i].inputRules).Ok?
  {
    hide CompileRules;
    var n := |scenarios| - 1;
    if CompileScenarios(eng, scenarios[..n]).Err? {
      k := FirstFailure(eng, scenarios[..n]);
    } else {
      k := n;
      EarlierCompile(eng, scenarios[..n]);
    }
  }

  lemma {:induction false} EarlierCompile(eng: Engine, scenarios: seq<ScenarioConfig>)
    requires CompileScenarios(eng, scenarios).Ok?
    ensures forall i :: 0 <= i < |scenarios| ==> CompileRules(eng, scenarios[i].inputRules).Ok?
  {
    hide CompileRules;
    if scenarios != [] {
      EarlierCompile(eng, scenarios[..|scenarios| - 1]);
    }
  }

  /** Every scenario in the table is stored under its own name. */
  ghost predicate NamesAgree(p: CompiledPort) {
    forall name :: name in p.scenarios ==> p.scenarios[name].name == name
  }

  lemma {:induction false} CompiledNamesAgree(eng: Engine, scenarios: seq<ScenarioConfig>, order: seq<string>)
    requires CompileScenarios(eng, scenarios).Ok?
    ensures NamesAgree(CompiledPort(CompileScenarios(eng, scenarios).value, order))
  {
    if scenarios != [] {
      CompiledNamesAgree(eng, scenarios[..|scenarios| - 1], order);
    }
  }

  /** A validated port compiles; its table has exactly the declared names, once each and in
      order, the initial scenario among them; and every scenario answers every frame as its
      configured rules do. */
  lemma ValidPortCompiles(eng: Engine, cfg: PortConfig)
    requires Sound(eng) && ValidPort(eng, cfg)
    ensures Compiled(eng, cfg).Ok? && NamesAgree(Compiled(eng, cfg).value)
    ensures var p := Compiled(eng, cfg).value;
            && |p.order| == |cfg.scenarios| && (forall i :: 0 <= i < |p.order| ==> p.order[i] == cfg.scenarios[i].name)
            && Distinct(p.order) && (forall name :: name in p.scenarios <==> name in p.order)
            && cfg.initialScenario in p.scenarios
            && forall i, frame :: 0 <= i < |cfg.scenarios| ==>
                 var sc := cfg.scenarios[i];
                 && sc.name in p.scenarios && p.scenarios[sc.name].triggers == TriggerMap(sc.triggers)
                 && Answers(eng, sc.inputRules, frame, FirstMatch(eng, p.scenarios[sc.name].inputRules, frame, 0))
  {
    ScenariosCompile(eng, cfg);
    CompiledNamesAgree(eng, cfg.scenarios, ScenarioNames(cfg.scenarios));
    forall i, frame | 0 <= i < |cfg.scenarios|
      ensures var sc, p := cfg.scenarios[i], Compiled(eng, cfg).value;
              && sc.name in p.scenarios && p.scenarios[sc.name].triggers == TriggerMap(sc.triggers)
              && Answers(eng, sc.inputRules, frame, FirstMatch(eng, p.scenarios[sc.name].inputRules, frame, 0))
    {
      assert ScenarioNames(cfg.scenarios)[i] == cfg.scenarios[i].name;
      CompilationPreservesMeaning(eng, cfg.scenarios[i].inputRules, frame);
    }
  }

  // ---- Answering ----

  function RuleLabel(scenario: string, idx: nat): string {
    scenario + ":" + Decimal(idx)
  }

  /** Label and response of the first rule of the scenario that matches. */
  function Answer(eng: Engine, sc: CompiledScenario, line: Bytes): Option<(string, Bytes)> {
    match FirstMatch(eng, sc.inputRules, line, 0)
    case None => None
    case Some((idx, response)) => Some((RuleLabel(sc.name, idx), response))
  }

  function AnswerLabel(eng: Engine, sc: CompiledScenario, line: Bytes): Option<string> {
    match Answer(eng, sc, line)
    case None => None
    case Some((rule, _)) => Some(rule)
  }

  function AnswerBytes(eng: Engine, sc: CompiledScenario, line: Bytes): Bytes {
    match Answer(eng, sc, line)
    case None => []
    case Some((_, response)) => response
  }

  function LookupTrigger(sc: CompiledScenario, name: string): Option<Bytes> {
    if name in sc.triggers then Some(sc.triggers[name]) else None
  }

  // ---- Answers in terms of the configuration ----

  /** The label names the scenario and the number of its rule. */
  ghost predicate Labels(text: string, scenario: string, idx: nat) {
    exists t :: Numeral(t, idx) && text == scenario + (":" + t)
  }

  lemma RuleLabelLabels(scenario: string, idx: nat)
    ensures Labels(RuleLabel(scenario, idx), scenario, idx)
  {
    DecimalIsNumeral(idx);
    Peel(scenario, ":", Decimal(idx));
    assert RuleLabel(scenario, idx) == scenario + (":" + Decimal(idx));
  }

  /** A label names one scenario and one rule only, even if scenario names contain colons. */
  lemma LabelsDetermine(text: string, s1: string, i1: nat, s2: string, i2: nat)
    requires Labels(text, s1, i1) && Labels(text, s2, i2)
    ensures s1 == s2 && i1 == i2
  {
    var t1 :| Numeral(t1, i1) && text == s1 + (":" + t1);
    var t2 :| Numeral(t2, i2) && text == s2 + (":" + t2);
    NoLaterColon(text, s1, t1);
    NoLaterColon(text, s2, t2);
    assert text[|s1|] == ':' == text[|s2|];
    assert s1 == text[..|s1|] == s2;
    assert t1 == text[|s1| + 1..] == t2;
  }

  lemma NoLaterColon(text: string, s: string, t: string)
    requires text == s + (":" + t) && AllDigits(t)
    ensures forall k :: |s| < k < |text| ==> text[k] != ':'
  {
    forall k | |s| < k < |text|
      ensures text[k] != ':'
    {
      assert text[k] == t[k - |s| - 1] && DecimalDigit(t[k - |s| - 1]);
    }
  }

  /** What the configured scenario says to a frame: the first rule that holds gives the label and
      the response, and without one there is neither. */
  ghost predicate AnsweredAs(eng: Engine, sc: ScenarioConfig, frame: Bytes, outcome: Option<string>, response: Bytes) {
    match outcome
    case None => Answers(eng, sc.inputRules, frame, None) && response == []
    case Some(text) =>
      exists k: nat :: Answers(eng, sc.inputRules, frame, Some((k, response))) && Labels(text, sc.name, k)
  }

  /** The scenario declares this trigger with this response. */
  predicate Declares(sc: ScenarioConfig, name: string, response: Bytes) {
    exists i :: 0 <= i < |sc.triggers| && sc.triggers[i].name == name && sc.triggers[i].response == response
  }

  /** The compiled scenario does for every frame and every trigger what the configured one says. */
  ghost predicate Means(eng: Engine, sc: ScenarioConfig, c: CompiledScenario) {
    && c.name == sc.name
    && (forall frame :: AnsweredAs(eng, sc, frame, AnswerLabel(eng, c, frame), AnswerBytes(eng, c, frame)))
    && (forall name, response :: LookupTrigger(c, name) == Some(response) <==> Declares(sc, name, response))
  }

  lemma AnswersMean(eng: Engine, sc: ScenarioConfig, c: CompiledScenario, frame: Bytes)
    requires c.name == sc.name && CompileRules(eng, sc.inputRules) == Ok(c.inputRules)
    ensures AnsweredAs(eng, sc, frame, AnswerLabel(eng, c, frame), AnswerBytes(eng, c, frame))
  {
    CompilationPreservesMeaning(eng, sc.inputRules, frame);
    hide Answers, Labels, RuleLabel;
    match FirstMatch(eng, c.inputRules, frame, 0) {
      case None =>
      case Some((k, response)) => RuleLabelLabels(sc.name, k);
    }
  }

  lemma TriggersMean(sc: ScenarioConfig, c: CompiledScenario, name: string, response: Bytes)
    requires Distinct(TriggerNames(sc.triggers)) && c.triggers == TriggerMap(sc.triggers)
    ensures LookupTrigger(c, name) == Some(response) <==> Declares(sc, name, response)
  {
    TriggerMapIsTheList(sc.triggers);
    if name in c.triggers {
      var i :| 0 <= i < |sc.triggers| && TriggerNames(sc.triggers)[i] == name;
      assert c.triggers[name] == sc.triggers[i].response;
    }
  }

  /** Every declared scenario of a validated port means in the table what it means in the
      configuration. */
  lemma ValidPortMeans(eng: Engine, cfg: PortConfig, i: nat)
    requires Sound(eng) && ValidPort(eng, cfg) && i < |cfg.scenarios|
    ensures Compiled(eng, cfg).Ok? && cfg.scenarios[i].name in Compiled(eng, cfg).value.scenarios
    ensures Means(eng, cfg.scenarios[i], Compiled(eng, cfg).value.scenarios[cfg.scenarios[i].name])
  {
    var sc := cfg.scenarios[i];
    ScenariosCompile(eng, cfg);
    assert ScenarioNames(cfg.scenarios)[i] == sc.name;
    var c := Compiled(eng, cfg).value.scenarios[sc.name];
    assert CompileScenario(eng, sc) == Ok(c);
    hide Compiled, AnswerLabel, AnswerBytes, LookupTrigger, AnsweredAs, Declares;
    forall frame
      ensures AnsweredAs(eng, sc, frame, AnswerLabel(eng, c, frame), AnswerBytes(eng, c, frame))
    {
      AnswersMean(eng, sc, c, frame);
    }
    assert ValidScenario(eng, sc);
    forall name, response
      ensures LookupTrigger(c, name) == Some(response) <==> Declares(sc, name, response)
    {
      TriggersMean(sc, c, name, response);
    }
  }

  lemma ScenariosCompile(eng: Engine, cfg: PortConfig)
    requires Sound(eng) && ValidPort(eng, cfg)
    ensures CompileScenarios(eng, cfg.scenarios).Ok?
    ensures forall name :: name in CompileScenarios(eng, cfg.scenarios).value <==> name in ScenarioNames(cfg.scenarios)
    ensures forall i :: 0 <= i < |cfg.scenarios| ==>
              CompileScenario(eng, cfg.scenarios[i]) ==
              Ok(CompileScenarios(eng, cfg.scenarios).value[cfg.scenarios[i].name])
  {
    forall i | 0 <= i < |cfg.scenarios|
      ensures CompileScenario(eng, cfg.scenarios[i]).Ok?
    {
      ValidScenarioCompiles(eng, cfg.scenarios[i]);
    }
    DistinctScenariosCompile(eng, cfg.scenarios);
  }

  /** A write of `data` that failed on the way. */
  ghost predicate CutShort(before: Bytes, data: Bytes, after: Bytes) {
    exists k :: 0 <= k < |data| && after == before + data[..k]
  }

  /** The transport: a write goes through whole, or fails after some part of it. */
  class Sink {
    var written: Bytes

    constructor ()
      ensures written == []
    {
      written := [];
    }

    method WriteAll(data: Bytes) returns (ok: bool)
      modifies this
      ensures ok ==> written == old(written) + data
      ensures !ok ==> CutShort(old(written), data, written)
    {
      var k :| 0 <= k <= |data|;
      written := written + data[..k];
      ok := k == |data|;
      assert data[..|data|] == data;
    }
  }

  /** Match a frame and write the response. The label is known even when the write fails. */
  method ProcessLineOn(eng: Engine, sc: CompiledScenario, line: Bytes, sink: Sink)
      returns (rule: Option<string>, ok: bool)
    modifies sink
    ensures rule == AnswerLabel(eng, sc, line)
    ensures forall cfg :: Means(eng, cfg, sc) ==> AnsweredAs(eng, cfg, line, rule, AnswerBytes(eng, sc, line))
    ensures ok ==> sink.written == old(sink.written) + AnswerBytes(eng, sc, line)
    ensures !ok ==> CutShort(old(sink.written), AnswerBytes(eng, sc, line), sink.written)
  {
    match Answer(eng, sc, line) {
      case None =>
        return None, true;
      case Some((rule', response)) =>
        ok := sink.WriteAll(response);
        return Some(rule'), ok;
    }
  }

  method FireTriggerOn(sc: CompiledScenario, name: string, sink: Sink) returns (r: Result<Bytes, PortError>)
    modifies sink
    ensures LookupTrigger(sc, name).None? ==> r == Err(UnknownTrigger(name)) && sink.written == old(sink.written)
    ensures r.Ok? ==> LookupTrigger(sc, name) == Some(r.value) && sink.written == old(sink.written) + r.value
    ensures r.Err? && LookupTrigger(sc, name).Some? ==>
              r.error == WriteFailed && CutShort(old(sink.written), LookupTrigger(sc, name).value, sink.written)
  {
    match LookupTrigger(sc, name) {
      case None =>
        return Err(UnknownTrigger(name));
      case Some(response) =>
        var ok := sink.WriteAll(response);
        return if ok then Ok(response) else Err(WriteFailed);
    }
  }

  /** The scenario that a swap activates: the one with the active name, else the initial one. */
  function NextActive(p: CompiledPort, current: string, initial: string): Option<CompiledScenario> {
    if current in p.scenarios then Some(p.scenarios[current])
    else if initial in p.scenarios then Some(p.scenarios[initial])
    else None
  }

  // ---- The reader's input ----

  /** What the reader meets: a quiet gap, a chunk, the end of the stream or a read error. The
      clock gives the time stamps of the frames that are handled next, which are arbitrary. */
  datatype Input = Gap(clock: nat -> nat) | Chunk(data: Bytes, clock: nat -> nat) | Eof | ReadError {
    predicate Ends() {
      Eof? || ReadError?
    }
  }

  /** Record each frame with the label of the rule that answers it. */
  function Recorded(eng: Engine, sc: CompiledScenario, frames: seq<Bytes>, clock: nat -> nat): (ops: seq<Op>)
    ensures |ops| == |frames|
    ensures forall i :: 0 <= i < |frames| ==> ops[i] == Push(clock(i), frames[i], AnswerLabel(eng, sc, frames[i]))
  {
    seq(|frames|, i requires 0 <= i < |frames| => Push(clock(i), frames[i], AnswerLabel(eng, sc, frames[i])))
  }

  /** What is to be sent back for each frame; nothing for one that no rule matches. */
  function Replies(eng: Engine, sc: CompiledScenario, frames: seq<Bytes>): (replies: seq<Bytes>)
    ensures |replies| == |frames|
    ensures forall i :: 0 <= i < |frames| ==> replies[i] == AnswerBytes(eng, sc, frames[i])
  {
    seq(|frames|, i requires 0 <= i < |frames| => AnswerBytes(eng, sc, frames[i]))
  }

  function Responses(eng: Engine, sc: CompiledScenario, frames: seq<Bytes>): Bytes {
    Flatten(Replies(eng, sc, frames))
  }

  /** One turn of the reader loop: what it does to the capture, what it sends back for the
      frames in order, and the framing buffer it leaves. */
  datatype Turn = Turn(ops: seq<Op>, sent: seq<Bytes>, buf: Bytes) {
    /** The same turn after what was done before. */
    function Behind(earlierOps: seq<Op>, earlierSent: seq<Bytes>): Turn {
      Turn(earlierOps + ops, earlierSent + sent, buf)
    }
  }

  function TurnOf(eng: Engine, spec: FramingSpec, sc: CompiledScenario, buf: Bytes, input: Input): Turn
    requires spec.strategy.WellFormed()
  {
    match input
    case Gap(clock) =>
      if spec.idle.Some? then
        var o := Idled(spec, buf);
        Turn(Recorded(eng, sc, Frames(o.out), clock), Replies(eng, sc, Frames(o.out)), o.rest)
      else Turn([], [], buf)
    case Chunk(data, clock) =>
      var o := Pushed(spec, buf, data);
      Turn([Raw(data)] + Recorded(eng, sc, Frames(o.out), clock), Replies(eng, sc, Frames(o.out)), o.rest)
    case Eof => Turn([], [], buf)
    case ReadError => Turn([], [], buf)
  }

  function ReaderRun(eng: Engine, spec: FramingSpec, sc: CompiledScenario, buf: Bytes, inputs: seq<Input>): Turn
    requires spec.strategy.WellFormed()
    decreases |inputs|
  {
    if |inputs| == 0 || inputs[0].Ends() then Turn([], [], buf)
    else
      var t := TurnOf(eng, spec, sc, buf, inputs[0]);
      ReaderRun(eng, spec, sc, t.buf, inputs[1..]).Behind(t.ops, t.sent)
  }

  lemma {:induction false} ApplyAllAppend(b: Buffers, a: seq<Op>, c: seq<Op>)
    ensures ApplyAll(b, a + c) == ApplyAll(ApplyAll(b, a), c)
  {
    if c == [] {
      assert a + c == a;
    } else {
      var n := |c| - 1;
      assert (a + c)[..|a| + n] == a + c[..n];
      ApplyAllAppend(b, a, c[..n]);
    }
  }

  lemma ResponsesSnoc(eng: Engine, sc: CompiledScenario, frames: seq<Bytes>, f: Bytes)
    ensures Responses(eng, sc, frames + [f]) == Responses(eng, sc, frames) + AnswerBytes(eng, sc, f)
  {
    hide AnswerBytes;
    assert Replies(eng, sc, frames + [f]) == Replies(eng, sc, frames) + [AnswerBytes(eng, sc, f)];
    FlattenSnoc(Replies(eng, sc, frames), AnswerBytes(eng, sc, f));
  }

  // ---- What reaches the transport ----

  ghost predicate PartsOf(parts: seq<Bytes>, replies: seq<Bytes>) {
    |parts| == |replies| && forall i :: 0 <= i < |parts| ==> parts[i] <= replies[i]
  }

  ghost predicate SentAs(before: Bytes, replies: seq<Bytes>, after: Bytes, ok: bool, parts: seq<Bytes>) {
    PartsOf(parts, replies) && after == before + Flatten(parts) && (ok <==> parts == replies)
  }

  /** The output grew by a part of each reply in order, and by all of them exactly if every
      write went through. */
  ghost predicate Sent(before: Bytes, replies: seq<Bytes>, after: Bytes, ok: bool) {
    exists parts :: SentAs(before, replies, after, ok, parts)
  }

  lemma SentNothing(before: Bytes)
    ensures Sent(before, [], before, true)
  {
    assert SentAs(before, [], before, true, []);
  }

  lemma SentOne(before: Bytes, reply: Bytes, after: Bytes, ok: bool)
    requires ok ==> after == before + reply
    requires !ok ==> CutShort(before, reply, after)
    ensures Sent(before, [reply], after, ok)
  {
    var part := reply;
    if !ok {
      var k :| 0 <= k < |reply| && after == before + reply[..k];
      part := reply[..k];
    }
    FlattenSnoc([], part);
    assert [part][0] == part && [reply][0] == reply;
    assert SentAs(before, [reply], after, ok, [part]);
  }

  lemma SentAppend(a: Bytes, r1: seq<Bytes>, b: Bytes, ok1: bool, r2: seq<Bytes>, c: Bytes, ok2: bool)
    requires Sent(a, r1, b, ok1) && Sent(b, r2, c, ok2)
    ensures Sent(a, r1 + r2, c, ok1 && ok2)
  {
    hide Flatten, PartsOf;
    var p1 :| SentAs(a, r1, b, ok1, p1);
    var p2 :| SentAs(b, r2, c, ok2, p2);
    FlattenAppend(p1, p2);
    Peel(a, Flatten(p1), Flatten(p2));
    PartsAppend(p1, r1, p2, r2);
    assert SentAs(a, r1 + r2, c, ok1 && ok2, p1 + p2);
  }

  lemma PartsAppend(p1: seq<Bytes>, r1: seq<Bytes>, p2: seq<Bytes>, r2: seq<Bytes>)
    requires PartsOf(p1, r1) && PartsOf(p2, r2)
    ensures PartsOf(p1 + p2, r1 + r2)
    ensures p1 + p2 == r1 + r2 <==> p1 == r1 && p2 == r2
  {
    assert (p1 + p2)[..|p1|] == p1 && (p1 + p2)[|p1|..] == p2;
    assert (r1 + r2)[..|r1|] == r1 && (r1 + r2)[|r1|..] == r2;
  }

  /** The state of one port. */
  class PortState {
    const name: string
    var active: CompiledScenario
    var compiled: CompiledPort
    var framing: FramingSpec
    const capture: Capture
    const writer: Sink

    constructor (name: string, active: CompiledScenario, compiled: CompiledPort, framing: FramingSpec,
                 capture: Capture, writer: Sink)
      ensures this.name == name && this.active == active && this.compiled == compiled && this.framing == framing
      ensures this.capture == capture && this.writer == writer
    {
      this.name, this.active, this.compiled, this.framing := name, active, compiled, framing;
      this.capture, this.writer := capture, writer;
    }

    /** Compile first, then replace: a failed swap changes nothing. */
    method SwapConfig(eng: Engine, cfg: PortConfig) returns (r: Result<(), PortError>)
      modifies this
      ensures r.Err? ==> active == old(active) && compiled == old(compiled) && framing == old(framing)
      ensures r.Ok? <==> Compiled(eng, cfg).Ok? &&
                         NextActive(Compiled(eng, cfg).value, old(active).name, cfg.initialScenario).Some?
      ensures r.Ok? ==>
                && Ok(compiled) == Compiled(eng, cfg)
                && Some(active) == NextActive(compiled, old(active).name, cfg.initialScenario)
                && framing == FromConfig(cfg.framing)
    {
      var result := CompilePort(eng, cfg);
      if result.Err? {
        return Err(result.error);
      }
      var newActive := NextActive(result.value, active.name, cfg.initialScenario);
      if newActive.None? {
        return Err(NoUsableScenario);
      }
      compiled := result.value;
      active := newActive.value;
      framing := FromConfig(cfg.framing);
      return Ok(());
    }

    method SwitchScenario(name: string) returns (r: Result<(), PortError>)
      modifies this`active
      ensures name in compiled.scenarios ==> r.Ok? && active == compiled.scenarios[name]
      ensures name !in compiled.scenarios ==> r == Err(UnknownScenario(name)) && active == old(active)
    {
      if name !in compiled.scenarios {
        return Err(UnknownScenario(name));
      }
      active := compiled.scenarios[name];
      return Ok(());
    }

    method FireTrigger(name: string) returns (r: Result<Bytes, PortError>)
      modifies writer
      ensures r.Ok? ==> LookupTrigger(active, name) == Some(r.value) && writer.written == old(writer.written) + r.value
      ensures LookupTrigger(active, name).None? ==>
                r == Err(UnknownTrigger(name)) && writer.written == old(writer.written)
      ensures r.Err? && LookupTrigger(active, name).Some? ==>
                && r.error == WriteFailed
                && CutShort(old(writer.written), LookupTrigger(active, name).value, writer.written)
    {
      r := FireTriggerOn(active, name, writer);
    }

    /** The event is recorded, with its label, whether or not the write goes through. */
    method HandleFrame(eng: Engine, bytes: Bytes, now: nat) returns (ok: bool)
      requires capture as object != writer
      modifies writer, capture
      ensures capture.State() == Apply(old(capture.State()), Push(now, bytes, AnswerLabel(eng, active, bytes)))
      ensures Sent(old(writer.written), [AnswerBytes(eng, active, bytes)], writer.written, ok)
      ensures forall sc :: Means(eng, sc, active) ==>
                AnsweredAs(eng, sc, bytes, AnswerLabel(eng, active, bytes), AnswerBytes(eng, active, bytes))
    {
      var rule;
      rule, ok := ProcessLineOn(eng, active, bytes, writer);
      SentOne(old(writer.written), AnswerBytes(eng, active, bytes), writer.written, ok);
      capture.PushEvent(now, bytes, rule);
    }

    method HandleFrames(eng: Engine, frames: seq<Bytes>, clock: nat -> nat) returns (ok: bool)
      requires capture as object != writer
      modifies writer, capture
      ensures capture.State() == ApplyAll(old(capture.State()), Recorded(eng, active, frames, clock))
      ensures Sent(old(writer.written), Replies(eng, active, frames), writer.written, ok)
    {
      hide Apply, AnswerLabel, AnswerBytes, Sent;
      ok := true;
      SentNothing(writer.written);
      for i := 0 to |frames|
        invariant capture.State() == ApplyAll(old(capture.State()), Recorded(eng, active, frames[..i], clock))
        invariant Sent(old(writer.written), Replies(eng, active, frames[..i]), writer.written, ok)
      {
        ghost var early := writer.written;
        var sent := HandleFrame(eng, frames[i], clock(i));
        SentAppend(old(writer.written), Replies(eng, active, frames[..i]), early, ok,
                   [AnswerBytes(eng, active, frames[i])], writer.written, sent);
        ok := ok && sent;
        OneMoreFrame(eng, active, frames, clock, i);
      }
      assert frames[..|frames|] == frames;
    }

    method ChunkTurn(eng: Engine, buf: Vec<byte>, data: Bytes, clock: nat -> nat) returns (ok: bool)
      requires framing.strategy.WellFormed() && capture as object != writer
      requires buf as object != writer && buf as object != capture
      modifies writer, capture, buf
      ensures var t := TurnOf(eng, framing, active, old(buf.items), Chunk(data, clock));
              && buf.items == t.buf
              && capture.State() == ApplyAll(old(capture.State()), t.ops)
              && Sent(old(writer.written), t.sent, writer.written, ok)
    {
      hide Apply, ApplyAll, Pushed, AnswerLabel, Replies, Sent;
      ghost var before := capture.State();
      var frames := new Vec<Bytes>();
      capture.AppendRaw(data);
      framing.Push(buf, data, frames);
      assert frames.items == Frames(Pushed(framing, old(buf.items), data).out);
      ok := HandleFrames(eng, frames.items, clock);
      ApplyFirst(before, Raw(data), Recorded(eng, active, frames.items, clock));
    }

    method GapTurn(eng: Engine, buf: Vec<byte>, clock: nat -> nat) returns (ok: bool)
      requires framing.strategy.WellFormed() && capture as object != writer
      requires buf as object != writer && buf as object != capture
      modifies writer, capture, buf
      ensures var t := TurnOf(eng, framing, active, old(buf.items), Gap(clock));
              && buf.items == t.buf
              && capture.State() == ApplyAll(old(capture.State()), t.ops)
              && Sent(old(writer.written), t.sent, writer.written, ok)
    {
      hide Apply, Idled, AnswerLabel, Replies, Sent;
      if framing.idle.None? {
        SentNothing(writer.written);
        return true;
      }
      var frames := new Vec<Bytes>();
      framing.OnIdle(buf, frames);
      assert frames.items == Frames(Idled(framing, old(buf.items)).out);
      ok := HandleFrames(eng, frames.items, clock);
    }

    /** The reader loop, with no reload and no trigger in between. */
    method ReaderLoop(eng: Engine, inputs: seq<Input>) returns (ok: bool)
      requires framing.strategy.WellFormed() && capture as object != writer
      modifies writer, capture
      ensures var t := ReaderRun(eng, framing, active, [], inputs);
              && capture.State() == ApplyAll(old(capture.State()), t.ops)
              && Sent(old(writer.written), t.sent, writer.written, ok)
    {
      hide Apply, TurnOf, ApplyAll, ReaderRun, Sent;
      var buf := new Vec<byte>();
      ok := true;
      var i := 0;
      ghost var ops, sent := [], [];
      NothingDone(old(capture.State()), ReaderRun(eng, framing, active, [], inputs));
      SentNothing(writer.written);
      assert inputs[0..] == inputs;
      while i < |inputs| && !inputs[i].Ends()
        invariant 0 <= i <= |inputs| && fresh(buf)
        invariant ReaderRun(eng, framing, active, [], inputs) ==
                  ReaderRun(eng, framing, active, buf.items, inputs[i..]).Behind(ops, sent)
        invariant capture.State() == ApplyAll(old(capture.State()), ops)
        invariant Sent(old(writer.written), sent, writer.written, ok)
        decreases |inputs| - i
      {
        ghost var t, early := TurnOf(eng, framing, active, buf.items, inputs[i]), writer.written;
        ReaderUnfolds(eng, framing, active, buf.items, inputs, i, ops, sent);
        var done := true;
        match inputs[i] {
          case Gap(clock) => done := GapTurn(eng, buf, clock);
          case Chunk(data, clock) => done := ChunkTurn(eng, buf, data, clock);
        }
        SentAppend(old(writer.written), sent, early, ok, t.sent, writer.written, done);
        ok := ok && done;
        ApplyAllAppend(old(capture.State()), ops, t.ops);
        ops, sent := ops + t.ops, sent + t.sent;
        i := i + 1;
      }
      ReaderEnds(eng, framing, active, buf.items, inputs[i..]);
      assert ops + [] == ops && sent + [] == sent;
    }
  }

  lemma OneMoreFrame(eng: Engine, sc: CompiledScenario, frames: seq<Bytes>, clock: nat -> nat, i: nat)
    requires i < |frames|
    ensures var push := Push(clock(i), frames[i], AnswerLabel(eng, sc, frames[i]));
            && Recorded(eng, sc, frames[..i + 1], clock)[..i] == Recorded(eng, sc, frames[..i], clock)
            && Recorded(eng, sc, frames[..i + 1], clock)[i] == push
    ensures Replies(eng, sc, frames[..i + 1]) == Replies(eng, sc, frames[..i]) + [AnswerBytes(eng, sc, frames[i])]
  {
    hide AnswerLabel, AnswerBytes;
    assert frames[..i + 1] == frames[..i] + [frames[i]];
  }

  lemma ApplyFirst(b: Buffers, op: Op, ops: seq<Op>)
    ensures ApplyAll(Apply(b, op), ops) == ApplyAll(b, [op] + ops)
  {
    ApplyAllAppend(b, [op], ops);
    assert ApplyAll(b, [op]) == Apply(ApplyAll(b, []), op);
  }

  lemma NothingDone(b: Buffers, t: Turn)
    ensures ApplyAll(b, []) == b && t.Behind([], []) == t
  {
  }

  lemma ReaderEnds(eng: Engine, spec: FramingSpec, sc: CompiledScenario, buf: Bytes, inputs: seq<Input>)
    requires spec.strategy.WellFormed()
    requires |inputs| == 0 || inputs[0].Ends()
    ensures ReaderRun(eng, spec, sc, buf, inputs) == Turn([], [], buf)
  {
  }

  lemma ReaderUnfolds(eng: Engine, spec: FramingSpec, sc: CompiledScenario, buf: Bytes, inputs: seq<Input>, i: nat,
                      ops: seq<Op>, sent: seq<Bytes>)
    requires spec.strategy.WellFormed() && i < |inputs| && !inputs[i].Ends()
    ensures var t := TurnOf(eng, spec, sc, buf, inputs[i]);
            ReaderRun(eng, spec, sc, buf, inputs[i..]).Behind(ops, sent) ==
            ReaderRun(eng, spec, sc, t.buf, inputs[i + 1..]).Behind(ops + t.ops, sent + t.sent)
  {
    hide TurnOf;
    var t := TurnOf(eng, spec, sc, buf, inputs[i]);
    var left := ReaderRun(eng, spec, sc, t.buf, inputs[i + 1..]);
    assert inputs[i..][1..] == inputs[i + 1..] && inputs[i..][0] == inputs[i];
    assert ops + (t.ops + left.ops) == (ops + t.ops) + left.ops;
    assert sent + (t.sent + left.sent) == (sent + t.sent) + left.sent;
  }
}
