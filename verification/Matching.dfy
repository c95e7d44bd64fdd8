/** Compiled input rules: what compilation makes of a rule and why it still means the same. */
module Matching {
  import opened Common
  import opened Config

  datatype Matcher = Exactly(bytes: Bytes) | Pattern(regex: string) | Masked(bits: Bytes, mask: Bytes)

  datatype CompiledRule = CompiledRule(matcher: Matcher, response: Bytes)

  datatype CompileError = Unresolved(index: nat, error: MatchError) | InvalidRegex(index: nat, pattern: string)

  function Masking(b: byte, m: byte): byte {
    b & m
  }

  /** Pairwise and, as long as the shorter of the two. */
  function ZipAnd(a: Bytes, m: Bytes): Bytes {
    if a == [] || m == [] then [] else [Masking(a[0], m[0])] + ZipAnd(a[1..], m[1..])
  }

  /** Every masked byte of the line is the byte in `bits`, as far as all three reach. */
  predicate ZipAll(line: Bytes, bits: Bytes, mask: Bytes) {
    line != [] && bits != [] && mask != [] ==>
      Masking(line[0], mask[0]) == bits[0] && ZipAll(line[1..], bits[1..], mask[1..])
  }

  predicate Matches(eng: Engine, m: Matcher, line: Bytes) {
    match m
    case Exactly(bytes) => line == bytes
    case Pattern(regex) => eng.isMatch(regex, line)
    case Masked(bits, mask) => |line| == |bits| && ZipAll(line, bits, mask)
  }

  function CompileRule(eng: Engine, idx: nat, r: InputRuleConfig): Result<CompiledRule, CompileError> {
    match Resolve(r.match_)
    case Err(e) => Err(Unresolved(idx, e))
    case Ok(Exact(bytes)) => Ok(CompiledRule(Exactly(bytes), r.response))
    case Ok(Regex(p)) =>
      if eng.bytesValid(p) then Ok(CompiledRule(Pattern(p), r.response)) else Err(InvalidRegex(idx, p))
    case Ok(Mask(bits, mask)) => Ok(CompiledRule(Masked(ZipAnd(bits, mask), mask), r.response))
  }

  /** All rules, or the error of the first one that does not compile. */
  function CompileRules(eng: Engine, rules: seq<InputRuleConfig>): Result<seq<CompiledRule>, CompileError> {
    if rules == [] then Ok([])
    else
      var n := |rules| - 1;
      match CompileRules(eng, rules[..n])
      case Err(e) => Err(e)
      case Ok(early) => (
        match CompileRule(eng, n, rules[n])
        case Err(e) => Err(e)
        case Ok(c) => Ok(early + [c]))
  }

  /** The rule as the configuration states it. */
  ghost predicate RuleHolds(eng: Engine, r: InputRuleConfig, frame: Bytes) {
    var m := r.match_;
    if m.exact.Some? then frame == m.exact.value
    else if m.regex.Some? then eng.isMatch(m.regex.value, frame)
    else m.mask.Some? && MaskHolds(m.mask.value, frame)
  }

  ghost predicate MaskHolds(m: MaskConfig, frame: Bytes) {
    && |frame| == |m.pattern| == |m.mask|
    && forall i :: 0 <= i < |frame| ==> Masking(frame[i], m.mask[i]) == Masking(m.pattern[i], m.mask[i])
  }

  /** The `k`-th bit, from the lowest. */
  predicate Bit(b: byte, k: nat)
    requires k < 8
  {
    b & (1 << k) != 0
  }

  lemma MaskedBits(a: byte, b: byte, m: byte)
    ensures Masking(a, m) == Masking(b, m) <==> forall k: nat | k < 8 :: Bit(m, k) ==> (Bit(a, k) <==> Bit(b, k))
  {
    hide Masking, Bit;
    BitsOfByte(a, b, m);
    if forall k: nat | k < 8 :: Bit(m, k) ==> (Bit(a, k) <==> Bit(b, k)) {
      assert forall k: nat | k < 8 :: SameBit(a, b, m, k);
      assert SameBit(a, b, m, 0) && SameBit(a, b, m, 1) && SameBit(a, b, m, 2) && SameBit(a, b, m, 3);
      assert SameBit(a, b, m, 4) && SameBit(a, b, m, 5) && SameBit(a, b, m, 6) && SameBit(a, b, m, 7);
    } else {
      var k: nat :| k < 8 && !SameBit(a, b, m, k);
      assert k == 0 || k == 1 || k == 2 || k == 3 || k == 4 || k == 5 || k == 6 || k == 7;
    }
  }

  predicate SameBit(a: byte, b: byte, m: byte, k: nat)
    requires k < 8
  {
    Bit(m, k) ==> (Bit(a, k) <==> Bit(b, k))
  }

  lemma BitsOfByte(a: byte, b: byte, m: byte)
    ensures Masking(a, m) == Masking(b, m) <==>
            && SameBit(a, b, m, 0) && SameBit(a, b, m, 1) && SameBit(a, b, m, 2) && SameBit(a, b, m, 3)
            && SameBit(a, b, m, 4) && SameBit(a, b, m, 5) && SameBit(a, b, m, 6) && SameBit(a, b, m, 7)
  {
  }

  /** A mask holds for a frame of its own length that agrees with the pattern in every bit that
      the mask has set. */
  lemma MaskHoldsBitwise(m: MaskConfig, frame: Bytes)
    ensures MaskHolds(m, frame) <==>
            && |frame| == |m.pattern| == |m.mask|
            && forall i, k: nat | 0 <= i < |frame| && k < 8 ::
                 Bit(m.mask[i], k) ==> (Bit(frame[i], k) <==> Bit(m.pattern[i], k))
  {
    hide Masking, Bit;
    if |frame| == |m.pattern| == |m.mask| {
      forall i | 0 <= i < |frame|
        ensures Masking(frame[i], m.mask[i]) == Masking(m.pattern[i], m.mask[i]) <==>
                forall k: nat | k < 8 :: Bit(m.mask[i], k) ==> (Bit(frame[i], k) <==> Bit(m.pattern[i], k))
      {
        MaskedBits(frame[i], m.pattern[i], m.mask[i]);
      }
    }
  }

  /** With equal lengths no `zip` truncates, and masking the pattern ahead of time changes
      nothing. */
  lemma {:induction false} PreMaskingIsSound(pattern: Bytes, mask: Bytes, line: Bytes)
    requires |pattern| == |mask|
    ensures |ZipAnd(pattern, mask)| == |pattern|
    ensures |line| == |pattern| ==>
              (ZipAll(line, ZipAnd(pattern, mask), mask) <==> MaskHolds(MaskConfig(pattern, mask), line))
  {
    hide Masking, MaskHolds;
    if pattern == [] {
      NoMask(line);
    } else {
      PreMaskingIsSound(pattern[1..], mask[1..], if line == [] then line else line[1..]);
      assert ZipAnd(pattern, mask)[1..] == ZipAnd(pattern[1..], mask[1..]);
      if |line| == |pattern| {
        MaskHoldsStep(pattern, mask, line);
      }
    }
  }

  lemma NoMask(line: Bytes)
    ensures line == [] ==> MaskHolds(MaskConfig([], []), line)
  {
  }

  lemma MaskHoldsStep(pattern: Bytes, mask: Bytes, line: Bytes)
    requires |pattern| == |mask| == |line| && pattern != []
    ensures MaskHolds(MaskConfig(pattern, mask), line) <==>
            && Masking(line[0], mask[0]) == Masking(pattern[0], mask[0])
            && MaskHolds(MaskConfig(pattern[1..], mask[1..]), line[1..])
  {
    hide Masking;
    forall i | 0 < i < |line|
      ensures line[i] == line[1..][i - 1] && mask[i] == mask[1..][i - 1] && pattern[i] == pattern[1..][i - 1]
    {
    }
  }

  lemma CompiledRuleMeansTheSame(eng: Engine, idx: nat, r: InputRuleConfig, frame: Bytes)
    requires CompileRule(eng, idx, r).Ok?
    ensures var c := CompileRule(eng, idx, r).value;
            && c.response == r.response
            && (Matches(eng, c.matcher, frame) <==> RuleHolds(eng, r, frame))
  {
    if Resolve(r.match_).value.Mask? {
      var m := r.match_.mask.value;
      PreMaskingIsSound(m.pattern, m.mask, frame);
    }
  }

  /** A rule that the byte matcher can take over. */
  predicate Compilable(eng: Engine, r: InputRuleConfig) {
    && Resolve(r.match_).Ok?
    && (Resolve(r.match_).value.Regex? ==> eng.bytesValid(Resolve(r.match_).value.pattern))
  }

  lemma CompileRuleExactly(eng: Engine, idx: nat, r: InputRuleConfig)
    ensures CompileRule(eng, idx, r).Ok? <==> Compilable(eng, r)
    ensures CompileRule(eng, idx, r).Err? ==>
              match CompileRule(eng, idx, r).error
              case Unresolved(i, e) => i == idx && Resolve(r.match_) == Err(e)
              case InvalidRegex(i, p) => i == idx && r.match_.regex == Some(p) && !eng.bytesValid(p)
  {
  }

  /** A rule list compiles exactly when each of its rules does; an error is the one of the
      first rule that does not. */
  lemma {:induction false} CompileRulesExactly(eng: Engine, rules: seq<InputRuleConfig>)
    ensures CompileRules(eng, rules).Ok? <==> forall i :: 0 <= i < |rules| ==> Compilable(eng, rules[i])
    ensures CompileRules(eng, rules).Ok? ==>
              var out := CompileRules(eng, rules).value;
              && |out| == |rules|
              && forall i :: 0 <= i < |rules| ==> CompileRule(eng, i, rules[i]) == Ok(out[i])
    ensures CompileRules(eng, rules).Err? ==>
              var e := CompileRules(eng, rules).error;
              && e.index < |rules| && CompileRule(eng, e.index, rules[e.index]) == Err(e)
              && forall i :: 0 <= i < e.index ==> Compilable(eng, rules[i])
  {
    hide CompileRule, Compilable;
    if rules != [] {
      var n := |rules| - 1;
      CompileRulesExactly(eng, rules[..n]);
      CompileRuleExactly(eng, n, rules[n]);
    }
  }

  /** Index and response of the first rule that matches, from `from` on. */
  function FirstMatch(eng: Engine, rules: seq<CompiledRule>, line: Bytes, from: nat): Option<(nat, Bytes)>
    requires from <= |rules|
    decreases |rules| - from
  {
    if from == |rules| then None
    else if Matches(eng, rules[from].matcher, line) then Some((from, rules[from].response))
    else FirstMatch(eng, rules, line, from + 1)
  }

  lemma {:induction false} FirstMatchIsLeast(eng: Engine, rules: seq<CompiledRule>, line: Bytes, from: nat)
    requires from <= |rules|
    ensures match FirstMatch(eng, rules, line, from)
            case None => forall i :: from <= i < |rules| ==> !Matches(eng, rules[i].matcher, line)
            case Some((idx, response)) =>
              && from <= idx < |rules| && response == rules[idx].response
              && Matches(eng, rules[idx].matcher, line)
              && forall i :: from <= i < idx ==> !Matches(eng, rules[i].matcher, line)
    decreases |rules| - from
  {
    if from < |rules| && !Matches(eng, rules[from].matcher, line) {
      FirstMatchIsLeast(eng, rules, line, from + 1);
    }
  }

  /** The configured rule that answers a frame is the first one that holds for it. */
  ghost predicate Answers(eng: Engine, rules: seq<InputRuleConfig>, frame: Bytes, answer: Option<(nat, Bytes)>) {
    match answer
    case None => forall i :: 0 <= i < |rules| ==> !RuleHolds(eng, rules[i], frame)
    case Some((idx, response)) =>
      && idx < |rules| && response == rules[idx].response
      && RuleHolds(eng, rules[idx], frame)
      && forall i :: 0 <= i < idx ==> !RuleHolds(eng, rules[i], frame)
  }

  /** Matching the compiled rules answers every frame as the configured rules do. */
  lemma CompilationPreservesMeaning(eng: Engine, rules: seq<InputRuleConfig>, frame: Bytes)
    requires CompileRules(eng, rules).Ok?
    ensures Answers(eng, rules, frame, FirstMatch(eng, CompileRules(eng, rules).value, frame, 0))
  {
    CompileRulesExactly(eng, rules);
    var out := CompileRules(eng, rules).value;
    forall i | 0 <= i < |rules|
      ensures out[i].response == rules[i].response
      ensures Matches(eng, out[i].matcher, frame) <==> RuleHolds(eng, rules[i], frame)
    {
      CompiledRuleMeansTheSame(eng, i, rules[i], frame);
    }
    FirstMatchIsLeast(eng, out, frame, 0);
  }
}
