/** Bounded capture: a ring of raw bytes and a window of numbered events, both refining the
    history of what was recorded, and the client that polls the window. */
module Captures {
  import opened Common

  datatype Event = Event(id: nat, tsMs: nat, data: Bytes, matchedRule: Option<string>)

  /** The value of a capture. */
  datatype Buffers = Buffers(raw: Bytes, maxRaw: nat, events: seq<Event>, maxEvents: nat, nextId: nat)

  function EmptyBuffers(maxRaw: nat, maxEvents: nat): Buffers {
    Buffers([], maxRaw, [], maxEvents, 1)
  }

  /** Evict one element when the ring has exactly `max` of them, then add one. Evicting from an
      empty ring does nothing. */
  function Enqueue<T>(ring: seq<T>, max: nat, x: T): seq<T> {
    (if |ring| == max && ring != [] then ring[1..] else ring) + [x]
  }

  function EnqueueAll<T>(ring: seq<T>, max: nat, xs: seq<T>): seq<T> {
    if xs == [] then ring else Enqueue(EnqueueAll(ring, max, xs[..|xs| - 1]), max, xs[|xs| - 1])
  }

  /** One recording or clearing of a capture. */
  datatype Op =
    | Raw(chunk: Bytes)
    | Push(tsMs: nat, data: Bytes, matchedRule: Option<string>)
    | ClearRaw
    | ClearEvents

  function Apply(b: Buffers, op: Op): Buffers {
    match op
    case Raw(chunk) => b.(raw := EnqueueAll(b.raw, b.maxRaw, chunk))
    case Push(ts, data, rule) =>
      b.(events := Enqueue(b.events, b.maxEvents, Event(b.nextId, ts, data, rule)), nextId := b.nextId + 1)
    case ClearRaw => b.(raw := [])
    case ClearEvents => b.(events := [])
  }

  function EventsAfter(events: seq<Event>, since: nat): seq<Event> {
    if events == [] then []
    else (if events[0].id > since then [events[0]] else []) + EventsAfter(events[1..], since)
  }

  /** The capture of one port. */
  class Capture {
    var raw: Bytes
    const maxRaw: nat
    var events: seq<Event>
    const maxEvents: nat
    var nextId: nat

    constructor (maxRaw: nat, maxEvents: nat)
      ensures State() == EmptyBuffers(maxRaw, maxEvents)
    {
      this.raw, this.maxRaw := [], maxRaw;
      this.events, this.maxEvents := [], maxEvents;
      this.nextId := 1;
    }

    function State(): Buffers
      reads this
    {
      Buffers(raw, maxRaw, events, maxEvents, nextId)
    }

    method AppendRaw(chunk: Bytes)
      modifies this
      ensures State() == Apply(old(State()), Raw(chunk))
    {
      var i := 0;
      while i < |chunk|
        invariant 0 <= i <= |chunk|
        invariant State() == Apply(old(State()), Raw(chunk[..i]))
      {
        if |raw| == maxRaw {
          raw := if raw != [] then raw[1..] else raw;
        }
        raw := raw + [chunk[i]];
        assert chunk[..i + 1][..i] == chunk[..i];
        i := i + 1;
      }
      assert chunk[..|chunk|] == chunk;
    }

    method PushEvent(tsMs: nat, data: Bytes, matchedRule: Option<string>)
      modifies this
      ensures State() == Apply(old(State()), Push(tsMs, data, matchedRule))
    {
      var event := Event(nextId, tsMs, data, matchedRule);
      nextId := nextId + 1;
      if |events| == maxEvents {
        events := if events != [] then events[1..] else events;
      }
      events := events + [event];
    }

    function RawBytes(): Bytes
      reads this
    {
      raw
    }

    function EventsSince(since: nat): (answer: seq<Event>)
      reads this
      ensures forall e :: e in answer <==> e in events && e.id > since
    {
      AfterIsFilter(events, since);
      EventsAfter(events, since)
    }

    method DropRaw()
      modifies this
      ensures State() == Apply(old(State()), ClearRaw)
    {
      raw := [];
    }

    method DropEvents()
      modifies this
      ensures State() == Apply(old(State()), ClearEvents)
    {
      events := [];
    }
  }

  lemma {:induction false} AfterIsFilter(events: seq<Event>, since: nat)
    ensures forall e :: e in EventsAfter(events, since) <==> e in events && e.id > since
  {
    if events != [] {
      AfterIsFilter(events[1..], since);
      assert events == [events[0]] + events[1..];
    }
  }

  // ---- A ring is a window on its history ----

  /** The last `max` elements; all of them when `max` is zero. */
  function Window<T>(max: nat, s: seq<T>): seq<T> {
    if max == 0 || |s| <= max then s else s[|s| - max..]
  }

  lemma EnqueueSlides<T>(max: nat, s: seq<T>, x: T)
    ensures Enqueue(Window(max, s), max, x) == Window(max, s + [x])
  {
    if max > 0 && |s| >= max {
      assert s[|s| - max..][1..] + [x] == (s + [x])[|s| + 1 - max..];
    }
  }

  lemma {:induction false} EnqueueAllSlides<T>(max: nat, s: seq<T>, xs: seq<T>)
    ensures EnqueueAll(Window(max, s), max, xs) == Window(max, s + xs)
  {
    hide Window, Enqueue;
    if xs == [] {
      assert s + xs == s;
    } else {
      var n := |xs| - 1;
      EnqueueAllSlides(max, s, xs[..n]);
      EnqueueSlides(max, s + xs[..n], xs[n]);
      assert (s + xs[..n]) + [xs[n]] == s + xs;
    }
  }

  /** Everything ever recorded: the raw bytes since the last raw clear, all events, and how
      many of them lay before the last event clear. */
  datatype History = History(raw: Bytes, events: seq<Event>, cleared: nat)

  function Remember(h: History, op: Op): History {
    match op
    case Raw(chunk) => h.(raw := h.raw + chunk)
    case Push(ts, data, rule) => h.(events := h.events + [Event(|h.events| + 1, ts, data, rule)])
    case ClearRaw => h.(raw := [])
    case ClearEvents => h.(cleared := |h.events|)
  }

  ghost predicate Refines(b: Buffers, h: History) {
    && b.raw == Window(b.maxRaw, h.raw)
    && EventsRefine(b, h)
  }

  ghost predicate EventsRefine(b: Buffers, h: History) {
    && h.cleared <= |h.events|
    && b.events == Window(b.maxEvents, h.events[h.cleared..])
    && b.nextId == |h.events| + 1
    && forall i :: 0 <= i < |h.events| ==> h.events[i].id == i + 1
  }

  lemma PushRefines(b: Buffers, h: History, op: Op)
    requires op.Push? && EventsRefine(b, h)
    ensures EventsRefine(Apply(b, op), Remember(h, op))
  {
    var e := Event(b.nextId, op.tsMs, op.data, op.matchedRule);
    EnqueueSlides(b.maxEvents, h.events[h.cleared..], e);
    assert (h.events + [e])[h.cleared..] == h.events[h.cleared..] + [e];
  }

  lemma OpRefines(b: Buffers, h: History, op: Op)
    requires Refines(b, h)
    ensures Refines(Apply(b, op), Remember(h, op))
    ensures Apply(b, op).maxRaw == b.maxRaw && Apply(b, op).maxEvents == b.maxEvents
  {
    match op
    case Raw(chunk) => EnqueueAllSlides(b.maxRaw, h.raw, chunk);
    case Push(_, _, _) => PushRefines(b, h, op);
    case ClearRaw =>
    case ClearEvents => assert h.events[|h.events|..] == [];
  }

  function ApplyAll(b: Buffers, ops: seq<Op>): Buffers {
    if ops == [] then b else Apply(ApplyAll(b, ops[..|ops| - 1]), ops[|ops| - 1])
  }

  function RememberAll(h: History, ops: seq<Op>): History {
    if ops == [] then h else Remember(RememberAll(h, ops[..|ops| - 1]), ops[|ops| - 1])
  }

  /** Over any run the buffers are the windows on the history, the retained events carry the
      contiguous ids that end right below the next one, and no id is ever given out twice. */
  lemma {:induction false} RunRefines(maxRaw: nat, maxEvents: nat, ops: seq<Op>)
    ensures var b, h := ApplyAll(EmptyBuffers(maxRaw, maxEvents), ops), RememberAll(History([], [], 0), ops);
            && Refines(b, h)
            && b.maxRaw == maxRaw && b.maxEvents == maxEvents
            && |b.events| < b.nextId && Numbered(b.events, b.nextId - |b.events|)
  {
    var b0, h0 := EmptyBuffers(maxRaw, maxEvents), History([], [], 0);
    if ops == [] {
      NothingRefines(maxRaw, maxEvents);
    } else {
      hide Refines, Apply, Remember;
      var n := |ops| - 1;
      RunRefines(maxRaw, maxEvents, ops[..n]);
      OpRefines(ApplyAll(b0, ops[..n]), RememberAll(h0, ops[..n]), ops[n]);
    }
    RefinedIsNumbered(ApplyAll(b0, ops), RememberAll(h0, ops));
  }

  lemma NothingRefines(maxRaw: nat, maxEvents: nat)
    ensures Refines(EmptyBuffers(maxRaw, maxEvents), History([], [], 0))
  {
  }

  lemma RefinedIsNumbered(b: Buffers, h: History)
    requires Refines(b, h)
    ensures |b.events| < b.nextId && Numbered(b.events, b.nextId - |b.events|)
  {
    var start := |h.events| - |b.events|;
    assert b.events == h.events[start..];
  }

  /** Over all runs each buffer is bounded by its capacity exactly when that is not zero: the
      equality test that guards eviction never succeeds again once a buffer of capacity zero
      holds data. */
  lemma BoundedExactly(maxRaw: nat, maxEvents: nat)
    ensures maxRaw >= 1 <==> forall ops :: |ApplyAll(EmptyBuffers(maxRaw, maxEvents), ops).raw| <= maxRaw
    ensures maxEvents >= 1 <==> forall ops :: |ApplyAll(EmptyBuffers(maxRaw, maxEvents), ops).events| <= maxEvents
  {
    hide ApplyAll, Apply;
    var empty, raw, push := EmptyBuffers(maxRaw, maxEvents), Raw([0]), Push(0, [], None);
    forall ops
      ensures maxRaw >= 1 ==> |ApplyAll(empty, ops).raw| <= maxRaw
      ensures maxEvents >= 1 ==> |ApplyAll(empty, ops).events| <= maxEvents
    {
      BoundedByCapacity(maxRaw, maxEvents, ops);
    }
    FirstOp(maxRaw, maxEvents);
    assert |ApplyAll(empty, [raw]).raw| == 1 && |ApplyAll(empty, [push]).events| == 1;
  }

  lemma BoundedByCapacity(maxRaw: nat, maxEvents: nat, ops: seq<Op>)
    ensures maxRaw >= 1 ==> |ApplyAll(EmptyBuffers(maxRaw, maxEvents), ops).raw| <= maxRaw
    ensures maxEvents >= 1 ==> |ApplyAll(EmptyBuffers(maxRaw, maxEvents), ops).events| <= maxEvents
  {
    hide ApplyAll, RememberAll;
    RunRefines(maxRaw, maxEvents, ops);
  }

  lemma FirstOp(maxRaw: nat, maxEvents: nat)
    ensures |ApplyAll(EmptyBuffers(maxRaw, maxEvents), [Raw([0])]).raw| == 1
    ensures |ApplyAll(EmptyBuffers(maxRaw, maxEvents), [Push(0, [], None)]).events| == 1
  {
    var empty := EmptyBuffers(maxRaw, maxEvents);
    ApplyOne(empty, Raw([0]));
    ApplyOne(empty, Push(0, [], None));
    hide ApplyAll;
    EnqueueOne<byte>(maxRaw, 0);
  }

  lemma EnqueueOne<T>(max: nat, x: T)
    ensures EnqueueAll([], max, [x]) == [x]
  {
    assert [x][..0] == [];
    assert EnqueueAll<T>([], max, []) == [];
  }

  lemma ApplyOne(b: Buffers, op: Op)
    ensures ApplyAll(b, [op]) == Apply(b, op)
  {
    assert [op][..0] == [];
    assert ApplyAll(b, []) == b;
  }

  /** A buffer of capacity zero grows beyond every bound. */
  lemma ZeroIsUnbounded(maxRaw: nat, maxEvents: nat, n: nat) returns (ops: seq<Op>)
    ensures maxRaw == 0 ==> |ApplyAll(EmptyBuffers(maxRaw, maxEvents), ops).raw| > n
    ensures maxEvents == 0 ==> |ApplyAll(EmptyBuffers(maxRaw, maxEvents), ops).events| > n
  {
    ops := [];
    var h := RememberAll(History([], [], 0), ops);
    while |h.events| <= n
      invariant h == RememberAll(History([], [], 0), ops)
      invariant |h.raw| == |h.events| && h.cleared == 0
      decreases n + 1 - |h.events|
    {
      RememberTwo(History([], [], 0), ops, Raw([0]), Push(0, [], None));
      ops := ops + [Raw([0]), Push(0, [], None)];
      h := RememberAll(History([], [], 0), ops);
    }
    hide ApplyAll, RememberAll;
    RunRefines(maxRaw, maxEvents, ops);
    assert h.events[0..] == h.events;
  }

  lemma RememberTwo(h: History, ops: seq<Op>, a: Op, b: Op)
    ensures RememberAll(h, ops + [a, b]) == Remember(Remember(RememberAll(h, ops), a), b)
  {
    assert (ops + [a, b])[..|ops| + 1] == ops + [a] && (ops + [a])[..|ops|] == ops;
  }

  // ---- Polling ----

  /** How many of the events ever recorded are no longer in the window. */
  ghost function Gone(b: Buffers, h: History): nat
    requires Refines(b, h)
  {
    |h.events| - |b.events|
  }

  lemma AfterUnfolds(events: seq<Event>, since: nat)
    requires events != []
    ensures EventsAfter(events, since) ==
            (if events[0].id > since then [events[0]] + EventsAfter(events[1..], since)
             else EventsAfter(events[1..], since))
  {
  }

  /** The events carry consecutive ids from `first` on. */
  predicate Numbered(events: seq<Event>, first: nat) {
    forall i :: 0 <= i < |events| ==> events[i].id == first + i
  }

  lemma NumberedTail(events: seq<Event>, first: nat)
    requires Numbered(events, first) && events != []
    ensures events[0].id == first && Numbered(events[1..], first + 1)
  {
  }

  lemma TailOfTail(events: seq<Event>, k: nat)
    requires k < |events|
    ensures events[1..][k..] == events[k + 1..]
  {
  }

  lemma {:induction false} AfterIsSuffix(events: seq<Event>, first: nat, since: nat)
    requires Numbered(events, first)
    ensures EventsAfter(events, since) ==
            if since < first then events
            else if since - first < |events| then events[since + 1 - first..]
            else []
    decreases |events|
  {
    hide EventsAfter, Numbered;
    if events == [] {
      NothingAfter(since);
    } else {
      NumberedTail(events, first);
      AfterIsSuffix(events[1..], first + 1, since);
      AfterUnfolds(events, since);
      if since < first {
        assert [events[0]] + events[1..] == events;
      } else if since - first < |events| {
        TailOfTail(events, since - first);
      }
    }
  }

  lemma NothingAfter(since: nat)
    ensures EventsAfter([], since) == []
  {
  }

  /** The answer to a poll is everything after `since` that the window still holds. */
  lemma PollAnswer(b: Buffers, h: History, since: nat)
    requires Refines(b, h)
    ensures EventsAfter(b.events, since) ==
            if since >= |h.events| then [] else h.events[if since > Gone(b, h) then since else Gone(b, h)..]
  {
    hide EventsAfter;
    var gone := Gone(b, h);
    assert b.events == h.events[gone..];
    AfterIsSuffix(b.events, gone + 1, since);
    if gone < since < |h.events| {
      assert h.events[gone..][since - gone..] == h.events[since..];
    }
  }

  /** What a capture hands out is the last bytes and events of its history. */
  lemma CaptureAnswers(c: Capture, h: History, since: nat)
    requires Refines(c.State(), h)
    ensures c.RawBytes() == Window(c.maxRaw, h.raw)
    ensures c.EventsSince(since) ==
            if since >= |h.events| then []
            else h.events[if since > Gone(c.State(), h) then since else Gone(c.State(), h)..]
  {
    hide EventsAfter;
    PollAnswer(c.State(), h, since);
  }

  /** The first id of a nonempty answer tells exactly how many events were lost. */
  lemma PollTellsLoss(b: Buffers, h: History, since: nat)
    requires Refines(b, h) && EventsAfter(b.events, since) != []
    ensures var answer := EventsAfter(b.events, since);
            && 1 <= answer[0].id <= |h.events|
            && answer[0].id - (since + 1) == (if Gone(b, h) > since then Gone(b, h) - since else 0)
            && answer == h.events[answer[0].id - 1..]
  {
    PollAnswer(b, h, since);
  }

  /** A client that polls with the last id it has seen, next to a capture that goes on
      recording. */
  datatype Watch = Watch(b: Buffers, h: History, cursor: nat, got: seq<Event>)

  datatype Act = Do(op: Op) | Poll

  function PollReply(w: Watch): seq<Event> {
    EventsAfter(w.b.events, w.cursor)
  }

  function Step(w: Watch, act: Act): Watch {
    match act
    case Do(op) => w.(b := Apply(w.b, op), h := Remember(w.h, op))
    case Poll =>
      var answer := PollReply(w);
      w.(got := w.got + answer, cursor := if answer == [] then w.cursor else answer[|answer| - 1].id)
  }

  function Watched(w: Watch, acts: seq<Act>): Watch
    decreases |acts|
  {
    if acts == [] then w else Watched(Step(w, acts[0]), acts[1..])
  }

  ghost predicate WatchInv(w: Watch) {
    Refines(w.b, w.h) && w.cursor <= |w.h.events| && |w.got| <= w.cursor
  }

  /** The client holds every event up to its cursor, once and in order. */
  ghost predicate Complete(w: Watch)
    requires WatchInv(w)
  {
    w.got == w.h.events[..w.cursor]
  }

  /** What the client can see of a gap: a nonempty answer must start right after the cursor. */
  predicate GapFree(w: Watch, act: Act) {
    act.Poll? && PollReply(w) != [] ==> PollReply(w)[0].id == w.cursor + 1
  }

  predicate GapFreeRun(w: Watch, acts: seq<Act>)
    decreases |acts|
  {
    acts != [] ==> GapFree(w, acts[0]) && GapFreeRun(Step(w, acts[0]), acts[1..])
  }

  lemma DoKeeps(w: Watch, op: Op)
    requires WatchInv(w)
    ensures var w' := Step(w, Do(op)); WatchInv(w') && (Complete(w') <==> Complete(w))
  {
    hide Refines, Apply;
    OpRefines(w.b, w.h, op);
    assert Remember(w.h, op).events[..w.cursor] == w.h.events[..w.cursor];
  }

  lemma AppendsWhole<T>(got: seq<T>, all: seq<T>, first: nat, cursor: nat)
    requires |got| <= cursor <= first <= |all|
    ensures got + all[first..] == all <==> got == all[..cursor] && first == cursor
  {
    if got + all[first..] == all {
      assert |got| == first;
      assert got == (got + all[first..])[..first] == all[..first];
    }
    if got == all[..cursor] && first == cursor {
      assert all[..first] + all[first..] == all;
    }
  }

  lemma PollAdvances(w: Watch) returns (first: nat)
    requires WatchInv(w) && PollReply(w) != []
    ensures w.cursor <= first < |w.h.events|
    ensures Step(w, Poll) == w.(got := w.got + w.h.events[first..], cursor := |w.h.events|)
    ensures GapFree(w, Poll) <==> first == w.cursor
  {
    hide Refines, EventsAfter;
    PollTellsLoss(w.b, w.h, w.cursor);
    first := PollReply(w)[0].id - 1;
    LastId(w.b, w.h, first);
  }

  lemma PollKeeps(w: Watch)
    requires WatchInv(w)
    ensures var w' := Step(w, Poll); WatchInv(w') && (Complete(w') <==> Complete(w) && GapFree(w, Poll))
  {
    hide Refines, EventsAfter;
    if PollReply(w) == [] {
      assert w.got + PollReply(w) == w.got;
    } else {
      var first := PollAdvances(w);
      hide Step, GapFree, PollReply;
      assert w.h.events[..|w.h.events|] == w.h.events;
      AppendsWhole(w.got, w.h.events, first, w.cursor);
    }
  }

  lemma LastId(b: Buffers, h: History, first: nat)
    requires Refines(b, h) && first < |h.events|
    ensures var tail := h.events[first..]; tail[|tail| - 1].id == |h.events|
  {
  }

  lemma StepKeeps(w: Watch, act: Act)
    requires WatchInv(w)
    ensures WatchInv(Step(w, act))
    ensures Complete(Step(w, act)) <==> Complete(w) && GapFree(w, act)
  {
    match act
    case Do(op) => DoKeeps(w, op);
    case Poll => PollKeeps(w);
  }

  /** The client ends up with every event up to its cursor, exactly once and in order, exactly
      when no answer on the way started with a gap. */
  lemma {:induction false} PollerExactly(w: Watch, acts: seq<Act>)
    requires WatchInv(w) && Complete(w)
    ensures WatchInv(Watched(w, acts))
    ensures Complete(Watched(w, acts)) <==> GapFreeRun(w, acts)
    decreases |acts|
  {
    if acts != [] {
      StepKeeps(w, acts[0]);
      if GapFree(w, acts[0]) {
        PollerExactly(Step(w, acts[0]), acts[1..]);
      } else {
        NeverComplete(Step(w, acts[0]), acts[1..]);
      }
    }
  }

  lemma {:induction false} NeverComplete(w: Watch, acts: seq<Act>)
    requires WatchInv(w) && !Complete(w)
    ensures WatchInv(Watched(w, acts)) && !Complete(Watched(w, acts))
    decreases |acts|
  {
    if acts != [] {
      StepKeeps(w, acts[0]);
      NeverComplete(Step(w, acts[0]), acts[1..]);
    }
  }

  /** No more than `maxEvents` events wait to be seen, and none of them is cleared. A capacity
      of zero never evicts. */
  ghost predicate Paced(w: Watch, act: Act) {
    match act
    case Do(Push(_, _, _)) => w.b.maxEvents > 0 ==> |w.h.events| - w.cursor < w.b.maxEvents
    case Do(ClearEvents) => w.cursor == |w.h.events|
    case _ => true
  }

  ghost predicate PacedRun(w: Watch, acts: seq<Act>)
    decreases |acts|
  {
    acts != [] ==> Paced(w, acts[0]) && PacedRun(Step(w, acts[0]), acts[1..])
  }

  lemma GoneIs(b: Buffers, h: History)
    requires Refines(b, h)
    ensures h.cleared <= |h.events|
    ensures Gone(b, h) == if b.maxEvents == 0 || |h.events| - h.cleared <= b.maxEvents then h.cleared
                          else |h.events| - b.maxEvents
  {
  }

  lemma PacedDo(w: Watch, op: Op)
    requires WatchInv(w) && Gone(w.b, w.h) <= w.cursor && Paced(w, Do(op))
    ensures Refines(Step(w, Do(op)).b, Step(w, Do(op)).h)
    ensures Gone(Step(w, Do(op)).b, Step(w, Do(op)).h) <= w.cursor
  {
    OpRefines(w.b, w.h, op);
    GoneIs(w.b, w.h);
    GoneIs(Apply(w.b, op), Remember(w.h, op));
  }

  lemma PacedPoll(w: Watch)
    requires WatchInv(w) && Gone(w.b, w.h) <= w.cursor
    ensures GapFree(w, Poll) && Step(w, Poll).cursor == |w.h.events|
  {
    if PollReply(w) == [] {
      PollAnswer(w.b, w.h, w.cursor);
    } else {
      var first := PollAdvances(w);
      PollTellsLoss(w.b, w.h, w.cursor);
    }
  }

  lemma PacedStep(w: Watch, act: Act)
    requires WatchInv(w) && Gone(w.b, w.h) <= w.cursor && Paced(w, act)
    ensures WatchInv(Step(w, act)) && GapFree(w, act)
    ensures Gone(Step(w, act).b, Step(w, act).h) <= Step(w, act).cursor
    ensures act.Poll? ==> Step(w, act).cursor == |Step(w, act).h.events|
  {
    hide Refines, EventsAfter, Apply, Paced;
    StepKeeps(w, act);
    match act
    case Do(op) => PacedDo(w, op);
    case Poll => PacedPoll(w);
  }

  /** A paced client misses nothing: after its last poll it holds the whole history. */
  lemma {:induction false} PacedPollerSeesAll(w: Watch, acts: seq<Act>)
    requires WatchInv(w) && Complete(w) && Gone(w.b, w.h) <= w.cursor && PacedRun(w, acts)
    ensures WatchInv(Watched(w, acts)) && Complete(Watched(w, acts))
    ensures acts != [] && acts[|acts| - 1].Poll? ==> Watched(w, acts).got == Watched(w, acts).h.events
    decreases |acts|
  {
    hide Refines, Step, Paced, GapFree;
    if acts != [] {
      PacedStep(w, acts[0]);
      StepKeeps(w, acts[0]);
      PacedPollerSeesAll(Step(w, acts[0]), acts[1..]);
    }
  }
}
