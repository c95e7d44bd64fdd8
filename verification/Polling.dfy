/** A client that polls the events of a running port. */
module Polling {
  import opened Common
  import opened Config
  import opened Captures
  import opened Framing
  import opened Port
  import opened Protocol
  import opened Invariants
  import Guarantees
  import Determinism

  /** A step of the port, or a poll of the client with the last id it has seen. */
  datatype Move = Work(a: Action) | Ask

  function Works(moves: seq<Move>): seq<Action> {
    if moves == [] then []
    else (match moves[0] case Work(a) => [a] case Ask => []) + Works(moves[1..])
  }

  /** What a step does to the capture. */
  function OpOf(s: State, a: Action): seq<Act> {
    match a
    case ByReader(Read(chunk)) => [Do(Raw(chunk))]
    case ByReader(Record(now)) =>
      if s.reader.Recording? then [Do(Push(now, s.reader.frame, s.reader.outcome))] else []
    case DropRaw => [Do(ClearRaw)]
    case DropEvents => [Do(ClearEvents)]
    case _ => []
  }

  /** What the client's capture goes through. */
  function ActsOf(eng: Engine, s: State, moves: seq<Move>): seq<Act>
    requires Runs(eng, s, Works(moves))
    decreases |moves|
  {
    if moves == [] then []
    else
      match moves[0]
      case Ask =>
        WorksOfAsk(moves);
        [Poll] + ActsOf(eng, s, moves[1..])
      case Work(a) =>
        WorksOfWork(eng, s, moves);
        OpOf(s, a) + ActsOf(eng, Next(eng, s, a), moves[1..])
  }

  lemma WorksOfAsk(moves: seq<Move>)
    requires moves != [] && moves[0].Ask?
    ensures Works(moves) == Works(moves[1..])
  {
    assert [] + Works(moves[1..]) == Works(moves[1..]);
  }

  lemma WorksOfWork(eng: Engine, s: State, moves: seq<Move>)
    requires moves != [] && moves[0].Work? && Runs(eng, s, Works(moves))
    ensures Works(moves) == [moves[0].a] + Works(moves[1..])
    ensures Enabled(eng, s, moves[0].a) && Runs(eng, Next(eng, s, moves[0].a), Works(moves[1..]))
    ensures StateAfter(eng, s, Works(moves)) == StateAfter(eng, Next(eng, s, moves[0].a), Works(moves[1..]))
  {
    assert Works(moves)[0] == moves[0].a && Works(moves)[1..] == Works(moves[1..]);
  }

  /** A client next to the port in state `s`. */
  function WatchOf(s: State, cursor: nat, got: seq<Event>): Watch {
    Watch(s.capture, s.hist.log, cursor, got)
  }

  lemma {:induction false} WatchedAppend(w: Watch, a: seq<Act>, b: seq<Act>)
    ensures Watched(w, a + b) == Watched(Watched(w, a), b)
    decreases |a|
  {
    hide Captures.Step;
    if a == [] {
      assert a + b == b;
    } else {
      assert (a + b)[1..] == a[1..] + b;
      WatchedAppend(Captures.Step(w, a[0]), a[1..], b);
    }
  }

  lemma WatchedStep(eng: Engine, s: State, a: Action, cursor: nat, got: seq<Event>)
    requires Enabled(eng, s, a)
    ensures Watched(WatchOf(s, cursor, got), OpOf(s, a)) == WatchOf(Next(eng, s, a), cursor, got)
  {
    hide Apply, Remember, EventsAfter, ReloadDoes, ReloadEnabled;
    var w, ops := WatchOf(s, cursor, got), OpOf(s, a);
    if ops != [] {
      assert Watched(w, ops) == Watched(Captures.Step(w, ops[0]), ops[1..]);
      assert ops[1..] == [];
    }
    match a {
      case ByReader(r) => ReaderCapture(eng, s, r);
      case ByClient(tid, c) => ClientLog(s, tid, c);
      case ByReload(w) => ReloadFrame(eng, s, w);
      case DropRaw =>
      case DropEvents =>
    }
  }

  lemma ReaderCapture(eng: Engine, s: State, r: ReaderStep)
    requires ReaderEnabled(s, r)
    ensures var t := ReaderDoes(eng, s, r);
            match r
            case Read(chunk) =>
              t.capture == Apply(s.capture, Raw(chunk)) && t.hist.log == Remember(s.hist.log, Raw(chunk))
            case Record(now) =>
              var op := Push(now, s.reader.frame, s.reader.outcome);
              t.capture == Apply(s.capture, op) && t.hist.log == Remember(s.hist.log, op)
            case _ => t.capture == s.capture && t.hist.log == s.hist.log
  {
    hide Apply, Remember, Pushed, Idled, Answer;
  }

  lemma ClientLog(s: State, tid: nat, c: ClientStep)
    requires ClientEnabled(s, tid, c)
    ensures ClientDoes(s, tid, c).capture == s.capture && ClientDoes(s, tid, c).hist.log == s.hist.log
  {
    ClientFrame(s, tid, c);
  }

  lemma {:induction false} WatchFollows(eng: Engine, s: State, moves: seq<Move>, cursor: nat, got: seq<Event>)
    requires Runs(eng, s, Works(moves))
    ensures var w := Watched(WatchOf(s, cursor, got), ActsOf(eng, s, moves));
            w == WatchOf(StateAfter(eng, s, Works(moves)), w.cursor, w.got)
    decreases |moves|
  {
    hide Runs, StateAfter, Next, Enabled, Works, OpOf, Captures.Step;
    if moves == [] {
      NoWork(eng, s);
    } else {
      var w := WatchOf(s, cursor, got);
      match moves[0] {
        case Ask =>
          WorksOfAsk(moves);
          AskOnly(w);
          var asked := Captures.Step(w, Poll);
          WatchedAppend(w, [Poll], ActsOf(eng, s, moves[1..]));
          WatchFollows(eng, s, moves[1..], asked.cursor, asked.got);
        case Work(a) =>
          WorksOfWork(eng, s, moves);
          WatchedStep(eng, s, a, cursor, got);
          WatchedAppend(w, OpOf(s, a), ActsOf(eng, Next(eng, s, a), moves[1..]));
          WatchFollows(eng, Next(eng, s, a), moves[1..], cursor, got);
      }
    }
  }

  lemma NoWork(eng: Engine, s: State)
    ensures Works([]) == [] && StateAfter(eng, s, []) == s
  {
  }

  lemma AskOnly(w: Watch)
    ensures Watched(w, [Poll]) == Captures.Step(w, Poll)
    ensures Captures.Step(w, Poll).b == w.b && Captures.Step(w, Poll).h == w.h
  {
    assert [Poll][1..] == [];
  }

  /** What the client holds for some of the frames. */
  predicate Covers(got: seq<Event>, handled: seq<Handled>) {
    |got| == |handled| &&
    forall i :: 0 <= i < |got| ==>
      got[i].id == i + 1 && got[i].data == handled[i].frame && got[i].matchedRule == handled[i].outcome
  }

  lemma LoggedIsHeld(s: State, n: nat)
    requires Logged(s) && n <= |s.hist.handled|
    ensures Covers(s.hist.log.events[..n], s.hist.handled[..n])
  {
  }

  lemma StartsWatched(eng: Engine, s0: State)
    requires Init(eng, s0)
    ensures Inv(eng, s0) && WatchInv(WatchOf(s0, 0, [])) && Complete(WatchOf(s0, 0, []))
    ensures Gone(s0.capture, s0.hist.log) == 0
  {
    hide Compiled, ValidPort, FromConfig;
    var cfg :| InitFrom(eng, cfg, s0);
    InitInv(eng, cfg, s0);
    hide Inv;
    assert s0.hist.log == History([], [], 0) && s0.capture.events == [];
    assert Logged(s0) by {
      LoggedOfInv(eng, s0);
    }
  }

  lemma LoggedOfInv(eng: Engine, s: State)
    requires Inv(eng, s)
    ensures Logged(s)
  {
  }

  /** A client that holds as many events as its cursor says holds the right ones. */
  ghost predicate Tight(w: Watch) {
    WatchInv(w) && (|w.got| == w.cursor ==> Complete(w))
  }

  lemma TightStep(w: Watch, act: Act)
    requires Tight(w)
    ensures Tight(Captures.Step(w, act))
  {
    hide Refines, EventsAfter, Apply;
    StepKeeps(w, act);
    if act.Poll? && PollReply(w) != [] {
      var first := PollAdvances(w);
    }
  }

  lemma {:induction false} TightRun(w: Watch, acts: seq<Act>)
    requires Tight(w)
    ensures Tight(Watched(w, acts))
    decreases |acts|
  {
    hide Tight, Captures.Step;
    if acts != [] {
      TightStep(w, acts[0]);
      TightRun(Captures.Step(w, acts[0]), acts[1..]);
    }
  }

  /** In every run of a port, a client that polls with the last id it has seen holds the events of
      exactly the frames handled up to that id, in order and with their labels, if and only if no
      answer started with a gap. */
  lemma PortPollerExactly(eng: Engine, s0: State, moves: seq<Move>)
    requires Init(eng, s0) && Runs(eng, s0, Works(moves))
    ensures var w, t := Watched(WatchOf(s0, 0, []), ActsOf(eng, s0, moves)), StateAfter(eng, s0, Works(moves));
            && w.cursor <= |t.hist.handled|
            && (GapFreeRun(WatchOf(s0, 0, []), ActsOf(eng, s0, moves)) <==>
                  Covers(w.got, t.hist.handled[..w.cursor]))
  {
    hide Runs, StateAfter, Works, ActsOf, Watched, GapFreeRun, Refines, Inv, Covers, Init;
    StartsWatched(eng, s0);
    var w0, acts := WatchOf(s0, 0, []), ActsOf(eng, s0, moves);
    WatchFollows(eng, s0, moves, 0, []);
    PollerExactly(w0, acts);
    TightRun(w0, acts);
    RunKeepsInv(eng, s0, Works(moves));
    var w, t := Watched(w0, acts), StateAfter(eng, s0, Works(moves));
    LoggedOfInv(eng, t);
    LoggedIsHeld(t, w.cursor);
    if Covers(w.got, t.hist.handled[..w.cursor]) {
      HeldCount(w.got, t.hist.handled[..w.cursor]);
    }
  }

  lemma HeldCount(got: seq<Event>, handled: seq<Handled>)
    requires Covers(got, handled)
    ensures |got| == |handled|
  {
  }

  /** If never more than `max_events` events wait unseen and no unseen one is cleared, the client
      holds the events of all handled frames after its last poll. */
  lemma PacedPollerOfPort(eng: Engine, s0: State, moves: seq<Move>)
    requires Init(eng, s0) && Runs(eng, s0, Works(moves + [Ask]))
    requires PacedRun(WatchOf(s0, 0, []), ActsOf(eng, s0, moves + [Ask]))
    ensures Covers(Watched(WatchOf(s0, 0, []), ActsOf(eng, s0, moves + [Ask])).got,
                  StateAfter(eng, s0, Works(moves + [Ask])).hist.handled)
  {
    hide Runs, StateAfter, Works, ActsOf, Watched, Refines, Inv, Covers, Init, PacedRun;
    StartsWatched(eng, s0);
    var w0, acts := WatchOf(s0, 0, []), ActsOf(eng, s0, moves + [Ask]);
    WatchFollows(eng, s0, moves + [Ask], 0, []);
    EndsWithPoll(eng, s0, moves);
    PacedPollerSeesAll(w0, acts);
    RunKeepsInv(eng, s0, Works(moves + [Ask]));
    var t := StateAfter(eng, s0, Works(moves + [Ask]));
    LoggedOfInv(eng, t);
    LoggedIsHeld(t, |t.hist.handled|);
    AllLogged(t);
  }

  lemma AllLogged(s: State)
    requires Logged(s)
    ensures s.hist.log.events[..|s.hist.handled|] == s.hist.log.events
    ensures s.hist.handled[..|s.hist.handled|] == s.hist.handled
  {
  }

  lemma {:induction false} EndsWithPoll(eng: Engine, s: State, moves: seq<Move>)
    requires Runs(eng, s, Works(moves + [Ask]))
    ensures var acts := ActsOf(eng, s, moves + [Ask]); acts != [] && acts[|acts| - 1] == Poll
    decreases |moves|
  {
    var all := moves + [Ask];
    hide Enabled, Next, Runs, Works, OpOf;
    if moves == [] {
      WorksOfAsk(all);
    } else {
      assert all[1..] == moves[1..] + [Ask] && all[0] == moves[0];
      if moves[0].Ask? {
        WorksOfAsk(all);
        EndsWithPoll(eng, s, moves[1..]);
      } else {
        WorksOfWork(eng, s, all);
        EndsWithPoll(eng, Next(eng, s, moves[0].a), moves[1..]);
      }
    }
  }
}
