/** What the invariants mean for an observer of the port, over every run from its start. */
module Guarantees {
  import opened Common
  import opened Config
  import opened Captures
  import opened Framing
  import opened Chunking
  import opened Port
  import opened Protocol
  import opened Invariants

  /** A state that some run of the port's threads reaches from `spawn`. */
  ghost predicate Reachable(eng: Engine, s: State) {
    exists s0, acts :: Reaches(eng, s0, acts, s)
  }

  ghost predicate Reaches(eng: Engine, s0: State, acts: seq<Action>, s: State) {
    Init(eng, s0) && Runs(eng, s0, acts) && StateAfter(eng, s0, acts) == s
  }

  lemma ReachableInv(eng: Engine, s: State)
    requires Reachable(eng, s)
    ensures Inv(eng, s)
  {
    hide Inv, Enabled, Next, InitFrom;
    var s0, acts :| Reaches(eng, s0, acts, s);
    var cfg :| InitFrom(eng, cfg, s0);
    InitInv(eng, cfg, s0);
    RunKeepsInv(eng, s0, acts);
  }

  // ---- No byte is lost between the transport and the event log ----

  lemma UnstrippedWires(emitted: seq<Emission>)
    requires forall e | e in emitted :: e.stripped == []
    ensures Wires(emitted) == Frames(emitted)
  {
    forall i | 0 <= i < |emitted|
      ensures Wires(emitted)[i] == Frames(emitted)[i]
    {
      assert emitted[i] in emitted;
    }
  }

  lemma NothingStripped(s: State)
    requires EmittedShaped(s) && forall i :: 0 <= i < |s.hist.specs| ==> !s.hist.specs[i].strategy.Strips()
    ensures Wires(s.hist.emitted) == Frames(s.hist.emitted)
  {
    forall e | e in s.hist.emitted
      ensures e.stripped == []
    {
      var i :| 0 <= i < |s.hist.specs| && Shaped(s.hist.specs[i], e);
    }
    UnstrippedWires(s.hist.emitted);
  }

  lemma Regrouped(done: Bytes, flying: Bytes, buf: Bytes, pending: Bytes)
    ensures done <= (done + flying) + buf + pending
    ensures flying == [] && pending == [] ==> (done + flying) + buf + pending == done + buf
  {
    assert (done + flying) + buf + pending == done + (flying + buf + pending);
  }

  predicate BetweenTurns(r: Reader) {
    r.AtHead? || r.HasSpec? || r.Exited?
  }

  /** As long as no specification strips its delimiter, the data of all recorded events is at
      every moment a prefix of the bytes received, across reloads, idle flushes, the backstop
      and malformed lengths; and whenever the reader is about to look for input, the bytes
      still missing are exactly the framing buffer. */
  lemma EventsArePrefixOfInput(eng: Engine, s: State)
    requires Reachable(eng, s)
    requires forall i :: 0 <= i < |s.hist.specs| ==> !s.hist.specs[i].strategy.Strips()
    ensures Flatten(HandledFrames(s.hist.handled)) <= s.hist.raw
    ensures BetweenTurns(s.reader) ==> Flatten(HandledFrames(s.hist.handled)) + s.buf == s.hist.raw
  {
    hide Reachable, Histories, Scenarios, Swapping, Specs, Locking, OutputIsBlocks, Sourced, Paired, Triggered, Logged;
    hide EmittedShaped, Flatten, Frames, HandledFrames, Wires;
    ReachableInv(eng, s);
    NothingStripped(s);
    FlattenAppend(HandledFrames(s.hist.handled), InFlight(s.reader));
    Regrouped(Flatten(HandledFrames(s.hist.handled)), Flatten(InFlight(s.reader)), s.buf, Pending(s.reader));
    NothingInFlight();
  }

  lemma NothingInFlight()
    ensures Flatten<byte>([]) == []
  {
  }

  /** With stripping as well: the received bytes start with the wires of the recorded frames,
      each one longer than its frame by at most the delimiter of a specification that was in
      use. */
  lemma EventsCoverInput(eng: Engine, s: State)
    requires Reachable(eng, s)
    ensures var n := |s.hist.handled|;
            && n <= |s.hist.emitted|
            && Frames(s.hist.emitted[..n]) == HandledFrames(s.hist.handled)
            && Flatten(Wires(s.hist.emitted[..n])) <= s.hist.raw
            && forall e | e in s.hist.emitted[..n] :: ShapedBySome(s.hist.specs, e)
  {
    hide Reachable, Histories, Scenarios, Swapping, Specs, Locking, OutputIsBlocks, Sourced, Paired, Triggered, Logged;
    hide Flatten, Wires, ShapedBySome;
    ReachableInv(eng, s);
    var n, emitted := |s.hist.handled|, s.hist.emitted;
    assert |Frames(emitted)| == n + |InFlight(s.reader)|;
    assert Frames(emitted[..n]) == Frames(emitted)[..n] == HandledFrames(s.hist.handled);
    assert emitted == emitted[..n] + emitted[n..];
    WiresAppend(emitted[..n], emitted[n..]);
    Regrouped(Flatten(Wires(emitted[..n])), Flatten(Wires(emitted[n..])), s.buf, Pending(s.reader));
    forall e | e in emitted[..n]
      ensures ShapedBySome(s.hist.specs, e)
    {
      assert e in emitted;
    }
  }

  // ---- Output ----

  function Datas(blocks: seq<Block>): (r: seq<Bytes>)
    ensures |r| == |blocks|
    ensures forall i :: 0 <= i < |r| ==> r[i] == blocks[i].data
  {
    seq(|blocks|, i requires 0 <= i < |blocks| => blocks[i].data)
  }

  /** While writes succeed, the output is a concatenation of whole responses, followed by a
      part of at most one more that a thread is writing under the lock; and each of them is
      what one scenario, active at some moment, answers to its frame or trigger. */
  lemma OutputIsWholeResponses(eng: Engine, s: State)
    requires Reachable(eng, s)
    requires forall i :: 0 <= i < |s.hist.blocks| ==> !s.hist.blocks[i].failed
    ensures s.current.None? ==> s.writer.Free? && s.output == Flatten(Datas(s.hist.blocks))
    ensures s.current.Some? ==>
              var b := s.current.value;
              && !s.writer.Free? && b.sent <= |b.data| && GoodBlock(eng, s, b)
              && s.output == Flatten(Datas(s.hist.blocks)) + b.data[..b.sent]
    ensures forall i :: 0 <= i < |s.hist.blocks| ==> GoodBlock(eng, s, s.hist.blocks[i])
  {
    hide Reachable, Histories, Scenarios, Swapping, Specs, Conserved, InOrder, EmittedShaped, Paired, Triggered, Logged;
    hide GoodBlock, GoodHandled;
    ReachableInv(eng, s);
    forall i | 0 <= i < |s.hist.blocks|
      ensures WithinData(s.hist.blocks[i]) && Parts(s.hist.blocks)[i] == Datas(s.hist.blocks)[i]
    {
      var b := s.hist.blocks[i];
      assert Done(b);
      assert b.data[..|b.data|] == b.data;
    }
    assert Parts(s.hist.blocks) == Datas(s.hist.blocks);
  }

  /** Every recorded frame is one event in the order of the framer, labelled by the rule that
      answers it in the snapshot taken for it; and the reader's writes are exactly one for each
      frame with a label, from that same snapshot, in the same order. */
  lemma EventsAndWritesAgree(eng: Engine, s: State)
    requires Reachable(eng, s)
    ensures HandledFrames(s.hist.handled) <= Frames(s.hist.emitted)
    ensures forall i :: 0 <= i < |s.hist.handled| ==> GoodHandled(eng, s, s.hist.handled[i])
    ensures ReaderBlocks(s.hist.blocks) == Matched(s.hist.handled) + BeingRecorded(s.reader)
    ensures |s.hist.log.events| == |s.hist.handled|
    ensures forall i :: 0 <= i < |s.hist.handled| ==>
              && s.hist.log.events[i].id == i + 1
              && s.hist.log.events[i].data == s.hist.handled[i].frame
              && s.hist.log.events[i].matchedRule == s.hist.handled[i].outcome
    ensures Refines(s.capture, s.hist.log)
  {
    hide Reachable, Histories, Scenarios, Swapping, Specs, Conserved, EmittedShaped, Locking, OutputIsBlocks;
    hide Triggered, GoodWrites, GoodReader, GoodClients, GoodHandled, Frames, HandledFrames;
    ReachableInv(eng, s);
  }

  // ---- How long an old scenario survives a switch ----

  predicate InHand(r: Reader) {
    r.Chosen? || r.Writing? || r.Recording?
  }

  /** Every frame from the `n`-th on is answered by a snapshot no older than the `m`-th value of
      `active`. */
  predicate AnsweredSince(s: State, n: nat, m: nat) {
    && m <= Latest(s.hist.actives)
    && (forall i :: n <= i < |s.hist.handled| ==> m <= s.hist.handled[i].at)
    && (InHand(s.reader) && n <= |s.hist.handled| ==> m <= s.reader.at)
  }

  lemma AnsweredSinceReader(eng: Engine, s: State, r: ReaderStep, n: nat, m: nat)
    requires AnsweredSince(s, n, m) && ReaderEnabled(s, r)
    ensures AnsweredSince(ReaderDoes(eng, s, r), n, m)
  {
    hide Pushed, Idled, Answer, Apply, Remember;
  }

  lemma AnsweredSinceStep(eng: Engine, s: State, a: Action, n: nat, m: nat)
    requires AnsweredSince(s, n, m) && Enabled(eng, s, a)
    ensures AnsweredSince(Next(eng, s, a), n, m)
  {
    hide ReaderDoes, ClientDoes, ReloadDoes, ReaderEnabled, ClientEnabled, ReloadEnabled, Apply, Remember;
    match a {
      case ByReader(r) => AnsweredSinceReader(eng, s, r, n, m);
      case ByClient(tid, c) => ClientFrame(s, tid, c);
      case ByReload(w) => ReloadFrame(eng, s, w);
      case DropRaw =>
      case DropEvents =>
    }
  }

  lemma {:induction false} AnsweredSinceRun(eng: Engine, s: State, acts: seq<Action>, n: nat, m: nat)
    requires AnsweredSince(s, n, m) && Runs(eng, s, acts)
    ensures AnsweredSince(StateAfter(eng, s, acts), n, m)
    decreases |acts|
  {
    hide AnsweredSince, Enabled, Next;
    if acts != [] {
      AnsweredSinceStep(eng, s, acts[0], n, m);
      AnsweredSinceRun(eng, Next(eng, s, acts[0]), acts[1..], n, m);
    }
  }

  /** Whatever happens after a moment `s`, at most the one frame that the reader has in hand is
      still answered by an older scenario than the one active at `s`: every later frame is
      answered by a snapshot no older than that, and as long as `active` is not written again,
      by that very scenario. */
  lemma SwitchLatency(eng: Engine, s: State, acts: seq<Action>)
    requires Inv(eng, s) && Runs(eng, s, acts)
    ensures var t, n := StateAfter(eng, s, acts), |s.hist.handled| + (if InHand(s.reader) then 1 else 0);
            forall i :: n <= i < |t.hist.handled| ==>
              && Latest(s.hist.actives) <= t.hist.handled[i].at
              && t.hist.handled[i].outcome == AnswerLabel(eng, t.hist.handled[i].scenario, t.hist.handled[i].frame)
              && (t.hist.actives == s.hist.actives ==> t.hist.handled[i].scenario == s.active)
  {
    hide Runs, StateAfter, Scenarios, Swapping, Specs, Conserved, InOrder, EmittedShaped, Locking, OutputIsBlocks;
    hide GoodWrites, GoodReader, GoodClients, Paired, Triggered, Logged, AnswerLabel;
    var t, n := StateAfter(eng, s, acts), |s.hist.handled| + (if InHand(s.reader) then 1 else 0);
    AnsweredSinceRun(eng, s, acts, n, Latest(s.hist.actives));
    RunKeepsInv(eng, s, acts);
    forall i | n <= i < |t.hist.handled|
      ensures GoodHandled(eng, t, t.hist.handled[i])
    {
    }
  }

  // ---- Scenario generations ----

  /** Whatever the interleaving, the active scenario is an entry of a generation that was
      installed. */
  lemma ActiveIsInstalled(eng: Engine, s: State)
    requires Reachable(eng, s)
    ensures exists g :: FromGen(s.hist.gens, g, s.active)
  {
    ReachableInv(eng, s);
    assert FromGen(s.hist.gens, s.hist.activeGen, s.active);
  }

  predicate UpToDate(s: State) {
    s.hist.activeGen == Latest(s.hist.gens)
  }

  /** The active scenario was taken from the newest table, or a swap is about to replace it. */
  predicate Fresh(s: State) {
    s.reload.CompiledIn? || UpToDate(s)
  }

  /** The step commits a switch that read an older table, outside the swap's own window. */
  predicate StaleCommit(s: State, a: Action) {
    && a.ByClient? && a.c.SwitchCommit? && a.tid in s.clients && s.clients[a.tid].Switching?
    && s.clients[a.tid].gen != Latest(s.hist.gens) && !s.reload.CompiledIn?
  }

  predicate NoStaleCommit(eng: Engine, s: State, acts: seq<Action>)
    requires Runs(eng, s, acts)
    decreases |acts|
  {
    acts != [] ==> !StaleCommit(s, acts[0]) && NoStaleCommit(eng, Next(eng, s, acts[0]), acts[1..])
  }

  predicate AlwaysFresh(eng: Engine, s: State, acts: seq<Action>)
    requires Runs(eng, s, acts)
    decreases |acts|
  {
    Fresh(s) && (acts != [] ==> AlwaysFresh(eng, Next(eng, s, acts[0]), acts[1..]))
  }

  lemma FreshStep(eng: Engine, s: State, a: Action)
    requires Histories(s) && Enabled(eng, s, a) && Fresh(s)
    ensures Fresh(Next(eng, s, a)) <==> !StaleCommit(s, a)
  {
    hide ReaderDoes, ReaderEnabled, Apply, Remember, Compiled, NextActive, LookupTrigger, ValidPort;
    if a.ByReader? {
      ReaderFrame(eng, s, a.r);
    }
  }

  /** Over a whole run, `active` never falls behind `compiled` outside the swap's own window if
      and only if no switch that had read an older table commits outside that window. */
  lemma {:induction false} FallsBehindExactly(eng: Engine, s: State, acts: seq<Action>)
    requires Histories(s) && Fresh(s) && Runs(eng, s, acts)
    ensures NoStaleCommit(eng, s, acts) <==> AlwaysFresh(eng, s, acts)
    decreases |acts|
  {
    hide Enabled, Next, Histories, Fresh, StaleCommit;
    if acts != [] {
      HistoriesStep(eng, s, acts[0]);
      FreshStep(eng, s, acts[0]);
      if !StaleCommit(s, acts[0]) {
        FallsBehindExactly(eng, Next(eng, s, acts[0]), acts[1..]);
      }
    }
  }

  // ---- The same without generations ----

  predicate IsEntry(p: CompiledPort, sc: CompiledScenario) {
    sc.name in p.scenarios && p.scenarios[sc.name] == sc
  }

  /** `active` is the entry of the current table under its own name, or a swap is about to
      replace it. */
  predicate Current(s: State) {
    s.reload.CompiledIn? || IsEntry(s.compiled, s.active)
  }

  /** The step commits a switch to a scenario that is not an entry of the current table. */
  predicate ForeignCommit(s: State, a: Action) {
    && a.ByClient? && a.c.SwitchCommit? && a.tid in s.clients && s.clients[a.tid].Switching?
    && !IsEntry(s.compiled, s.clients[a.tid].next) && !s.reload.CompiledIn?
  }

  predicate NoForeignCommit(eng: Engine, s: State, acts: seq<Action>)
    requires Runs(eng, s, acts)
    decreases |acts|
  {
    acts != [] ==> !ForeignCommit(s, acts[0]) && NoForeignCommit(eng, Next(eng, s, acts[0]), acts[1..])
  }

  predicate AlwaysCurrent(eng: Engine, s: State, acts: seq<Action>)
    requires Runs(eng, s, acts)
    decreases |acts|
  {
    Current(s) && (acts != [] ==> AlwaysCurrent(eng, Next(eng, s, acts[0]), acts[1..]))
  }

  lemma CurrentReload(eng: Engine, s: State, w: ReloadStep)
    requires Histories(s) && Scenarios(s) && Swapping(s) && ReloadEnabled(eng, s, w) && Current(s)
    ensures Current(ReloadDoes(eng, s, w))
  {
    hide Compiled, ValidPort;
    if w.SwapActive? {
      assert NamesAgree(s.hist.gens[Latest(s.hist.gens)]);
      NextActiveIsOfGen(s.compiled, s.reload.swap);
    }
    hide NextActive;
  }

  lemma CurrentStep(eng: Engine, s: State, a: Action)
    requires Histories(s) && Scenarios(s) && Swapping(s) && Enabled(eng, s, a) && Current(s)
    ensures Current(Next(eng, s, a)) <==> !ForeignCommit(s, a)
  {
    hide ReaderDoes, ReloadDoes, ReaderEnabled, ReloadEnabled, Apply, Remember, LookupTrigger, Scenarios, Swapping;
    match a {
      case ByReader(r) => ReaderFrame(eng, s, r);
      case ByClient(_, _) =>
      case ByReload(w) => CurrentReload(eng, s, w);
      case DropRaw =>
      case DropEvents =>
    }
  }

  /** Over a whole run, `active` is the entry of the current table under its own name, outside
      the swap's own window, if and only if every switch committed outside that window commits
      such an entry. */
  lemma {:induction false} ActiveIsCurrentExactly(eng: Engine, s: State, acts: seq<Action>)
    requires Inv(eng, s) && Current(s) && Runs(eng, s, acts)
    ensures NoForeignCommit(eng, s, acts) <==> AlwaysCurrent(eng, s, acts)
    decreases |acts|
  {
    if acts != [] {
      CurrentStep(eng, s, acts[0]);
      hide Inv, Enabled, Next, Current, ForeignCommit;
      Invariants.Step(eng, s, acts[0]);
      if !ForeignCommit(s, acts[0]) {
        ActiveIsCurrentExactly(eng, Next(eng, s, acts[0]), acts[1..]);
      }
    }
  }

  lemma {:induction false} FreshToTheEnd(eng: Engine, s: State, acts: seq<Action>)
    requires Runs(eng, s, acts) && AlwaysFresh(eng, s, acts)
    ensures Fresh(StateAfter(eng, s, acts))
    decreases |acts|
  {
    hide Enabled, Next, Fresh;
    if acts != [] {
      FreshToTheEnd(eng, Next(eng, s, acts[0]), acts[1..]);
    }
  }

  /** In a run from the start of the port that commits no stale switch, `active` is the entry of
      the current table under its own name, except between the swap's first two writes. */
  lemma ActiveIsCurrent(eng: Engine, s0: State, acts: seq<Action>)
    requires Init(eng, s0) && Runs(eng, s0, acts) && NoStaleCommit(eng, s0, acts)
    ensures Current(StateAfter(eng, s0, acts))
  {
    hide Runs, StateAfter, NoStaleCommit, AlwaysFresh;
    var cfg :| InitFrom(eng, cfg, s0);
    InitInv(eng, cfg, s0);
    FallsBehindExactly(eng, s0, acts);
    FreshToTheEnd(eng, s0, acts);
    RunKeepsInv(eng, s0, acts);
  }

  /** No switch is in flight when a swap installs its table. */
  predicate NoOverlap(eng: Engine, s: State, acts: seq<Action>)
    requires Runs(eng, s, acts)
    decreases |acts|
  {
    acts != [] ==>
      && (acts[0] == ByReload(SwapCompiled) ==> forall t | t in s.clients :: !s.clients[t].Switching?)
      && NoOverlap(eng, Next(eng, s, acts[0]), acts[1..])
  }

  predicate SwitchesFresh(s: State) {
    forall t | t in s.clients && s.clients[t].Switching? :: s.clients[t].gen == Latest(s.hist.gens)
  }

  lemma SwitchesFreshStep(eng: Engine, s: State, a: Action)
    requires Enabled(eng, s, a) && SwitchesFresh(s)
    requires a == ByReload(SwapCompiled) ==> forall t | t in s.clients :: !s.clients[t].Switching?
    ensures SwitchesFresh(Next(eng, s, a))
  {
    hide ReaderDoes, ReaderEnabled, Apply, Remember, Compiled, NextActive, LookupTrigger, ValidPort;
    if a.ByReader? {
      ReaderFrame(eng, s, a.r);
    }
  }

  /** That no switch overlaps a swap is enough. */
  lemma {:induction false} NoOverlapIsEnough(eng: Engine, s: State, acts: seq<Action>)
    requires Runs(eng, s, acts) && NoOverlap(eng, s, acts) && SwitchesFresh(s)
    ensures NoStaleCommit(eng, s, acts)
    decreases |acts|
  {
    hide Enabled, Next;
    if acts != [] {
      SwitchesFreshStep(eng, s, acts[0]);
      NoOverlapIsEnough(eng, Next(eng, s, acts[0]), acts[1..]);
    }
  }

  /** The four steps of a swap, with nothing in between. */
  lemma SwapAlone(eng: Engine, s: State, cfg: PortConfig)
    requires s.reload.Resting? && ValidPort(eng, cfg) && Compiled(eng, cfg).Ok?
    requires NextActive(Compiled(eng, cfg).value, s.active.name, cfg.initialScenario).Some?
    ensures var acts := [ByReload(SwapBegin(cfg)), ByReload(SwapCompiled), ByReload(SwapActive), ByReload(SwapFraming)];
            && Runs(eng, s, acts)
            && var t := StateAfter(eng, s, acts);
               t.reload.Resting? && t.compiled == Compiled(eng, cfg).value && t.clients == s.clients
  {
    hide Compiled, NextActive, ValidPort, FromConfig, ReaderDoes, ReaderEnabled, ClientDoes, ClientEnabled;
    var a1, a2, a3 := ByReload(SwapBegin(cfg)), ByReload(SwapCompiled), ByReload(SwapActive);
    var a4 := ByReload(SwapFraming);
    var s1 := Next(eng, s, a1);
    var s2 := Next(eng, s1, a2);
    var s3 := Next(eng, s2, a3);
    RunsOne(eng, s3, a4, []);
    RunsOne(eng, s2, a3, [a4]);
    RunsOne(eng, s1, a2, [a3, a4]);
    RunsOne(eng, s, a1, [a2, a3, a4]);
  }

  /** A stale commit: a switch that read the old table and commits after a swap has finished
      leaves the old scenario active over the new table. That is harmless if and only if the new
      table has the very same scenario under that name. */
  lemma StaleSwitch(eng: Engine, s: State, tid: nat, name: string, cfg: PortConfig)
    requires s.reload.Resting? && tid !in s.clients && name in s.compiled.scenarios
    requires NamesAgree(s.compiled) && ValidPort(eng, cfg) && Compiled(eng, cfg).Ok?
    requires NextActive(Compiled(eng, cfg).value, s.active.name, cfg.initialScenario).Some?
    ensures var acts := [ByClient(tid, SwitchBegin(name)), ByReload(SwapBegin(cfg)), ByReload(SwapCompiled),
                         ByReload(SwapActive), ByReload(SwapFraming), ByClient(tid, SwitchCommit)];
            && Runs(eng, s, acts)
            && var t := StateAfter(eng, s, acts);
               && t.reload.Resting? && t.compiled == Compiled(eng, cfg).value
               && t.active == s.compiled.scenarios[name]
               && (Current(t) <==>
                   name in t.compiled.scenarios && t.compiled.scenarios[name] == s.compiled.scenarios[name])
  {
    EntryUnderItsName(Compiled(eng, cfg).value, s.compiled, name);
    hide Compiled, NextActive, ValidPort, LookupTrigger, IsEntry, NamesAgree;
    hide ReaderDoes, ReaderEnabled, ReloadDoes, ReloadEnabled;
    var begin, commit := ByClient(tid, SwitchBegin(name)), ByClient(tid, SwitchCommit);
    var swap := [ByReload(SwapBegin(cfg)), ByReload(SwapCompiled), ByReload(SwapActive), ByReload(SwapFraming)];
    var s1 := Next(eng, s, begin);
    SwapAlone(eng, s1, cfg);
    var s2 := StateAfter(eng, s1, swap);
    assert Enabled(eng, s2, commit);
    RunsOne(eng, s2, commit, []);
    hide Enabled, Next, Runs, StateAfter;
    RunsAppend(eng, s1, swap, [commit]);
    RunsOne(eng, s, begin, swap + [commit]);
    assert [begin] + (swap + [commit]) == [begin, swap[0], swap[1], swap[2], swap[3], commit];
    assert StateAfter(eng, s2, [commit]) == Next(eng, s2, commit) by {
      RunsNone(eng, Next(eng, s2, commit));
      assert [commit] + [] == [commit];
    }
  }

  lemma EntryUnderItsName(p: CompiledPort, earlier: CompiledPort, name: string)
    requires NamesAgree(earlier) && name in earlier.scenarios
    ensures IsEntry(p, earlier.scenarios[name]) <==>
            name in p.scenarios && p.scenarios[name] == earlier.scenarios[name]
  {
  }

  lemma RunsNone(eng: Engine, s: State)
    ensures Runs(eng, s, []) && StateAfter(eng, s, []) == s
  {
  }

  lemma {:induction false} RunsAppend(eng: Engine, s: State, a: seq<Action>, b: seq<Action>)
    requires Runs(eng, s, a) && Runs(eng, StateAfter(eng, s, a), b)
    ensures Runs(eng, s, a + b) && StateAfter(eng, s, a + b) == StateAfter(eng, StateAfter(eng, s, a), b)
    decreases |a|
  {
    hide Enabled, Next;
    if a == [] {
      assert a + b == b;
    } else {
      assert (a + b)[1..] == a[1..] + b;
      RunsAppend(eng, Next(eng, s, a[0]), a[1..], b);
    }
  }

  lemma RunsOne(eng: Engine, s: State, a: Action, acts: seq<Action>)
    requires Enabled(eng, s, a) && Runs(eng, Next(eng, s, a), acts)
    ensures Runs(eng, s, [a] + acts) && StateAfter(eng, s, [a] + acts) == StateAfter(eng, Next(eng, s, a), acts)
  {
    assert ([a] + acts)[1..] == acts;
  }

  /** When no switch commits between the swap's read of the active name and its write of the
      new scenario, the name stays active exactly if the new table has it, and the initial
      scenario takes over otherwise. */
  lemma SwapKeepsTheName(eng: Engine, s: State)
    requires Reachable(eng, s) && s.reload.CompiledIn? && s.reload.swap.seen == s.hist.switches
    ensures var t, initial := Next(eng, s, ByReload(SwapActive)), s.reload.swap.initial;
            && t.compiled == s.compiled
            && (if s.active.name in s.compiled.scenarios then t.active == s.compiled.scenarios[s.active.name]
                else initial in s.compiled.scenarios && t.active == s.compiled.scenarios[initial])
            && (t.active.name == s.active.name <==> s.active.name in s.compiled.scenarios)
  {
    hide Reachable, Specs, Conserved, InOrder, EmittedShaped, Locking;
    hide OutputIsBlocks, Sourced, Paired, Triggered, Logged;
    ReachableInv(eng, s);
    assert NamesAgree(s.hist.gens[Latest(s.hist.gens)]);
  }

  // ---- Whole swaps ----

  function ReloadSteps(acts: seq<Action>): seq<ReloadStep> {
    if acts == [] then []
    else (if acts[0].ByReload? then [acts[0].w] else []) + ReloadSteps(acts[1..])
  }

  function SwapSteps(cfg: PortConfig): (steps: seq<ReloadStep>)
    ensures |steps| == 4
  {
    [SwapBegin(cfg), SwapCompiled, SwapActive, SwapFraming]
  }

  predicate CommitsNothing(acts: seq<Action>) {
    forall i :: 0 <= i < |acts| ==> !(acts[i].ByClient? && acts[i].c.SwitchCommit?)
  }

  predicate SameSettings(s: State, t: State) {
    t.active == s.active && t.compiled == s.compiled && t.framing == s.framing
  }

  /** What the configuration offers a port in state `s`: its table and the scenario to activate,
      or nothing if the swap fails. */
  function Offer(eng: Engine, s: State, cfg: PortConfig): Option<(CompiledPort, CompiledScenario)> {
    match Compiled(eng, cfg)
    case Err(_) => None
    case Ok(p) => (
      match NextActive(p, s.active.name, cfg.initialScenario)
      case None => None
      case Some(next) => Some((p, next)))
  }

  /** Where the swap of `cfg`, begun in `s`, has got to after `n` of its steps. */
  predicate SwapStage(eng: Engine, s: State, cfg: PortConfig, t: State, n: nat) {
    match Offer(eng, s, cfg)
    case None => n <= 1 && t.reload.Resting? && SameSettings(s, t)
    case Some((p, next)) =>
      && n <= 4
      && t.compiled == (if n < 2 then s.compiled else p)
      && t.active == (if n < 3 then s.active else next)
      && t.framing == (if n < 4 then s.framing else FromConfig(cfg.framing))
      && (n == 0 || n == 4 ==> t.reload.Resting?)
      && (n == 1 ==> t.reload.Named? && t.reload.port == p)
      && (n == 2 ==> t.reload.CompiledIn?)
      && (n == 1 || n == 2 ==> t.reload.swap.next == next && t.reload.swap.spec == FromConfig(cfg.framing))
      && (n == 3 ==> t.reload == ActiveIn(FromConfig(cfg.framing)))
  }

  lemma SwapStageReload(eng: Engine, s: State, cfg: PortConfig, t: State, n: nat, w: ReloadStep)
    requires SwapStage(eng, s, cfg, t, n) && n < 4 && w == SwapSteps(cfg)[n] && ReloadEnabled(eng, t, w)
    ensures SwapStage(eng, s, cfg, ReloadDoes(eng, t, w), n + 1)
  {
    hide Compiled, NextActive, ValidPort, FromConfig;
  }

  lemma SwapStageOther(eng: Engine, s: State, cfg: PortConfig, t: State, n: nat, a: Action)
    requires SwapStage(eng, s, cfg, t, n) && Enabled(eng, t, a)
    requires !a.ByReload? && !(a.ByClient? && a.c.SwitchCommit?)
    ensures SwapStage(eng, s, cfg, Next(eng, t, a), n)
  {
    hide Offer, FromConfig, Apply, Remember, ReaderDoes, ReaderEnabled, ReloadDoes, ReloadEnabled, LookupTrigger;
    if a.ByReader? {
      ReaderFrame(eng, t, a.r);
    }
  }

  lemma {:induction false} SwapStageRun(eng: Engine, s: State, cfg: PortConfig, t: State, n: nat, acts: seq<Action>)
    requires n <= 4 && SwapStage(eng, s, cfg, t, n)
    requires Runs(eng, t, acts) && CommitsNothing(acts) && ReloadSteps(acts) <= SwapSteps(cfg)[n..]
    ensures SwapStage(eng, s, cfg, StateAfter(eng, t, acts), n + |ReloadSteps(acts)|)
    decreases |acts|
  {
    hide SwapStage, SwapSteps, Enabled, Next;
    if acts != [] {
      var a, later := acts[0], ReloadSteps(acts[1..]);
      assert CommitsNothing(acts[1..]) by {
        assert forall i :: 0 <= i < |acts[1..]| ==> acts[1..][i] == acts[i + 1];
      }
      if a.ByReload? {
        NextSwapStep(a.w, later, SwapSteps(cfg), n);
        ByReloadNext(eng, t, a.w);
        SwapStageReload(eng, s, cfg, t, n, a.w);
        SwapStageRun(eng, s, cfg, Next(eng, t, a), n + 1, acts[1..]);
      } else {
        assert [] + later == later;
        SwapStageOther(eng, s, cfg, t, n, a);
        SwapStageRun(eng, s, cfg, Next(eng, t, a), n, acts[1..]);
      }
    }
  }

  lemma NextSwapStep(w: ReloadStep, later: seq<ReloadStep>, steps: seq<ReloadStep>, n: nat)
    requires n <= |steps| && [w] + later <= steps[n..]
    ensures n < |steps| && steps[n] == w && later <= steps[n + 1..]
  {
    assert ([w] + later)[0] == w && ([w] + later)[1..] == later;
    assert steps[n..][1..] == steps[n + 1..];
  }

  lemma ByReloadNext(eng: Engine, s: State, w: ReloadStep)
    requires Enabled(eng, s, ByReload(w))
    ensures ReloadEnabled(eng, s, w) && Next(eng, s, ByReload(w)) == ReloadDoes(eng, s, w)
  {
  }

  /** A whole swap among any steps of the other threads that commit no switch. A configuration
      that does not compile, or offers no scenario, changes nothing; otherwise the table, the
      scenario and the framing change one after the other to what the configuration compiles
      to, the name staying active if the table has it. The end result is that of `SwapConfig`. */
  lemma WholeSwap(eng: Engine, s: State, cfg: PortConfig, acts: seq<Action>)
    requires s.reload.Resting? && Runs(eng, s, acts) && CommitsNothing(acts)
    requires ReloadSteps(acts) <= SwapSteps(cfg)
    ensures SwapStage(eng, s, cfg, StateAfter(eng, s, acts), |ReloadSteps(acts)|)
    ensures Offer(eng, s, cfg).Some? && |ReloadSteps(acts)| == 4 ==>
              var t := StateAfter(eng, s, acts);
              && Ok(t.compiled) == Compiled(eng, cfg)
              && Some(t.active) == NextActive(t.compiled, s.active.name, cfg.initialScenario)
              && t.framing == FromConfig(cfg.framing)
  {
    hide Compiled, NextActive, FromConfig, Runs, StateAfter, ReloadSteps;
    assert SwapSteps(cfg)[0..] == SwapSteps(cfg);
    SwapStageRun(eng, s, cfg, s, 0, acts);
  }

  // ---- Whole requests ----

  lemma TwoSteps(eng: Engine, s: State, a: Action, b: Action)
    requires Enabled(eng, s, a) && Enabled(eng, Next(eng, s, a), b)
    ensures Runs(eng, s, [a, b]) && StateAfter(eng, s, [a, b]) == Next(eng, Next(eng, s, a), b)
  {
    hide Enabled, Next;
    var t := Next(eng, s, a);
    RunsNone(eng, Next(eng, t, b));
    RunsOne(eng, t, b, []);
    RunsOne(eng, s, a, [b]);
    assert [b] + [] == [b] && [a] + [b] == [a, b];
  }

  /** A switch with nothing in between does what `SwitchScenario` promises. */
  lemma WholeSwitch(eng: Engine, s: State, tid: nat, name: string)
    requires tid !in s.clients
    ensures name in s.compiled.scenarios ==>
              var acts := [ByClient(tid, SwitchBegin(name)), ByClient(tid, SwitchCommit)];
              && Runs(eng, s, acts)
              && var t := StateAfter(eng, s, acts);
                 && t.active == s.compiled.scenarios[name] && t.compiled == s.compiled && t.clients == s.clients
    ensures name !in s.compiled.scenarios ==> Next(eng, s, ByClient(tid, SwitchBegin(name))) == s
  {
    if name in s.compiled.scenarios {
      TwoSteps(eng, s, ByClient(tid, SwitchBegin(name)), ByClient(tid, SwitchCommit));
    }
  }

  lemma BeginAndLock(eng: Engine, s: State, tid: nat, name: string)
    requires tid !in s.clients && s.writer.Free? && s.current.None?
    ensures var acts := [ByClient(tid, FireBegin(name)), ByClient(tid, FireLock)];
            && Runs(eng, s, acts)
            && var t := StateAfter(eng, s, acts);
               && t.active == s.active && t.output == s.output && t.hist.blocks == s.hist.blocks
               && match LookupTrigger(s.active, name)
                  case None => t.writer.Free? && t.current.None? && t.clients == s.clients
                  case Some(data) =>
                    && tid in t.clients && t.clients[tid].FiringWrite? && t.clients - {tid} == s.clients
                    && t.current == Some(Block(FromTrigger(name), s.active, Latest(s.hist.actives), data, 0, false))
  {
    hide LookupTrigger;
    TwoSteps(eng, s, ByClient(tid, FireBegin(name)), ByClient(tid, FireLock));
  }

  lemma WriteAndRelease(eng: Engine, s: State, tid: nat)
    requires tid in s.clients && s.clients[tid].FiringWrite? && s.current.Some? && s.current.value.sent == 0
    ensures var data := s.current.value.data;
            var acts := [ByClient(tid, FireWrite(|data|)), ByClient(tid, FireRelease)];
            && Runs(eng, s, acts)
            && var t := StateAfter(eng, s, acts);
               && t.active == s.active && t.output == s.output + data && t.writer.Free? && t.current.None?
               && t.clients == s.clients - {tid}
               && t.hist.blocks == s.hist.blocks + [s.current.value.(sent := |data|, failed := false)]
  {
    var data := s.current.value.data;
    assert data[0..|data|] == data;
    TwoSteps(eng, s, ByClient(tid, FireWrite(|data|)), ByClient(tid, FireRelease));
  }

  /** A request for a trigger, with nothing in between and writes that succeed, does what
      `FireTrigger` promises: the response of the active scenario, or nothing. */
  lemma WholeTrigger(eng: Engine, s: State, tid: nat, name: string) returns (acts: seq<Action>)
    requires tid !in s.clients && s.writer.Free? && s.current.None?
    ensures Runs(eng, s, acts)
    ensures forall i :: 0 <= i < |acts| ==> acts[i].ByClient? && acts[i].tid == tid
    ensures acts != [] && acts[0] == ByClient(tid, FireBegin(name))
    ensures var t := StateAfter(eng, s, acts);
            && t.active == s.active && t.writer.Free? && t.current.None? && t.clients == s.clients
            && match LookupTrigger(s.active, name)
               case None => t.output == s.output && t.hist.blocks == s.hist.blocks
               case Some(data) =>
                 && t.output == s.output + data
                 && t.hist.blocks == s.hist.blocks +
                    [Block(FromTrigger(name), s.active, Latest(s.hist.actives), data, |data|, false)]
  {
    hide LookupTrigger, Enabled, Next, Runs, StateAfter;
    acts := [ByClient(tid, FireBegin(name)), ByClient(tid, FireLock)];
    BeginAndLock(eng, s, tid, name);
    match LookupTrigger(s.active, name) {
      case None =>
      case Some(data) =>
        var t := StateAfter(eng, s, acts);
        WriteAndRelease(eng, t, tid);
        var more := [ByClient(tid, FireWrite(|data|)), ByClient(tid, FireRelease)];
        RunsAppend(eng, s, acts, more);
        acts := acts + more;
    }
  }

  // ---- How long an old framing survives a swap ----

  /** Since the last change of framing at most one call of the framer has used an older
      specification, and if one has, the reader does not hold an older one any more. */
  lemma SwapLatency(eng: Engine, s: State)
    requires Reachable(eng, s)
    ensures s.hist.staleCalls <= 1
    ensures s.hist.staleCalls == 1 ==> !Outdated(s)
    ensures Holds(s.reader) && !Outdated(s) ==> s.reader.spec == s.framing
  {
    ReachableInv(eng, s);
  }

  /** After every push, whatever specification left the buffer behind, nothing more can be cut
      from it by the specification in use and it respects its bound. */
  lemma BufferSettles(eng: Engine, s: State)
    requires Reachable(eng, s) && Enabled(eng, s, ByReader(PushChunk))
    ensures Settled(s.reader.spec, Next(eng, s, ByReader(PushChunk)).buf)
  {
    hide Reachable, Pushed, Settled;
    PushSettles(s.reader.spec, s.buf, s.reader.chunk);
  }

  /** Whatever the reader has read can be framed: validation rules out every specification
      whose loop would not end. */
  lemma FramerNeverSticks(eng: Engine, s: State)
    requires Reachable(eng, s) && s.reader.HasChunk?
    ensures Enabled(eng, s, ByReader(PushChunk))
  {
    hide Reachable, Histories, Scenarios, Swapping, Conserved, InOrder, EmittedShaped, Locking, OutputIsBlocks;
    hide Sourced, Paired, Triggered, Logged;
    ReachableInv(eng, s);
  }
}
