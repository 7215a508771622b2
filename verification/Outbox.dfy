/** The bounded, coalescing queue of events that wait for a session to be flushed. */
module Outbox {
  import opened Options

  const OUTBOX_MAX_EVENTS: nat := 100

  /** What is known of an entity; `None` if it has no state. */
  type States = map<string, Option<string>>

  datatype Event = Delta(subscription: string, states: States) | Error(code: string)

  predicate IsDelta(e: Event, subscription: string) {
    e.Delta? && e.subscription == subscription
  }

  /** The position of the first delta of a subscription; the length if there is none. */
  function DeltaIndex(outbox: seq<Event>, subscription: string): (i: nat)
    ensures i <= |outbox|
    ensures i < |outbox| ==> IsDelta(outbox[i], subscription)
    ensures forall j :: 0 <= j < i ==> !IsDelta(outbox[j], subscription)
    decreases |outbox|
  {
    if outbox == [] then 0
    else if IsDelta(outbox[0], subscription) then 0
    else
      var i := DeltaIndex(outbox[1..], subscription);
      assert forall j :: 1 <= j <= i ==> outbox[j] == outbox[1..][j - 1];
      i + 1
  }

  predicate HasDelta(outbox: seq<Event>, subscription: string) {
    DeltaIndex(outbox, subscription) < |outbox|
  }

  predicate Coalesces(outbox: seq<Event>, e: Event) {
    e.Delta? && HasDelta(outbox, e.subscription)
  }

  function Queue(outbox: seq<Event>, e: Event): seq<Event> {
    if Coalesces(outbox, e) then
      var i := DeltaIndex(outbox, e.subscription);
      outbox[i := Delta(e.subscription, outbox[i].states + e.states)]
    else
      (if |outbox| >= OUTBOX_MAX_EVENTS then outbox[1..] else outbox) + [e]
  }

  method QueueEvent(outbox: seq<Event>, e: Event) returns (r: seq<Event>)
    ensures r == Queue(outbox, e)
  {
    if e.Delta? {
      var i := 0;
      while i < |outbox|
        invariant 0 <= i <= |outbox|
        invariant forall j :: 0 <= j < i ==> !IsDelta(outbox[j], e.subscription)
      {
        if IsDelta(outbox[i], e.subscription) {
          return outbox[i := Delta(e.subscription, outbox[i].states + e.states)];
        }
        i := i + 1;
      }
    }
    r := outbox;
    if |outbox| >= OUTBOX_MAX_EVENTS {
      r := r[1..];
    }
    r := r + [e];
  }

  // ----- Runs -----

  datatype Op = Put(event: Event) | Flush

  /** The events delivered so far, the events that wait, and the events dropped at the cap. */
  datatype Line = Line(delivered: seq<Event>, outbox: seq<Event>, dropped: seq<Event>)

  function Step(l: Line, op: Op): Line {
    match op
    case Flush => Line(l.delivered + l.outbox, [], l.dropped)
    case Put(e) =>
      Line(l.delivered, Queue(l.outbox, e),
           if !Coalesces(l.outbox, e) && |l.outbox| >= OUTBOX_MAX_EVENTS then l.dropped + [l.outbox[0]] else l.dropped)
  }

  function Run(ops: seq<Op>): Line
    decreases |ops|
  {
    if ops == [] then Line([], [], []) else Step(Run(ops[..|ops| - 1]), ops[|ops| - 1])
  }

  function Queued(ops: seq<Op>): seq<Event>
    decreases |ops|
  {
    if ops == [] then []
    else Queued(ops[..|ops| - 1]) + (if ops[|ops| - 1].Put? then [ops[|ops| - 1].event] else [])
  }

  /** What a consumer knows of a subscription after these events: the latest state of each entity. */
  function View(events: seq<Event>, subscription: string): States
    decreases |events|
  {
    if events == [] then map[]
    else
      var last := events[|events| - 1];
      View(events[..|events| - 1], subscription) + (if IsDelta(last, subscription) then last.states else map[])
  }

  function Others(events: seq<Event>): seq<Event>
    decreases |events|
  {
    if events == [] then []
    else Others(events[..|events| - 1]) + (if events[|events| - 1].Delta? then [] else [events[|events| - 1]])
  }

  predicate OneDeltaEach(outbox: seq<Event>) {
    forall i, j :: 0 <= i < j < |outbox| && outbox[i].Delta? ==> !IsDelta(outbox[j], outbox[i].subscription)
  }

  lemma {:induction false} QueueIsBounded(outbox: seq<Event>, e: Event)
    requires |outbox| <= OUTBOX_MAX_EVENTS && OneDeltaEach(outbox)
    ensures |Queue(outbox, e)| <= OUTBOX_MAX_EVENTS && OneDeltaEach(Queue(outbox, e))
  {
  }

  /** In every run the outbox holds at most a hundred events, and at most one delta per subscription. */
  lemma {:induction false} BoundedInEveryRun(ops: seq<Op>)
    ensures |Run(ops).outbox| <= 100 && OneDeltaEach(Run(ops).outbox)
    decreases |ops|
  {
    hide OneDeltaEach, Queue;
    if ops == [] {
      NothingWaits();
    } else {
      BoundedInEveryRun(ops[..|ops| - 1]);
      NothingWaits();
      if ops[|ops| - 1].Put? {
        QueueIsBounded(Run(ops[..|ops| - 1]).outbox, ops[|ops| - 1].event);
      }
    }
  }

  lemma {:induction false} NothingWaits()
    ensures OneDeltaEach([])
  {
  }

  /** A delta whose subscription has one waiting is merged into that one, its own states winning; any other event goes to the
      end, and of a hundred that wait the oldest is dropped for it. */
  lemma {:induction false} QueueExactly(outbox: seq<Event>, e: Event)
    requires OneDeltaEach(outbox)
    ensures forall i :: 0 <= i < |outbox| && e.Delta? && outbox[i].Delta? && outbox[i].subscription == e.subscription ==>
      Queue(outbox, e) == outbox[i := Delta(e.subscription, outbox[i].states + e.states)]
    ensures (forall i :: 0 <= i < |outbox| && outbox[i].Delta? ==> !e.Delta? || outbox[i].subscription != e.subscription) ==>
      Queue(outbox, e) == (if |outbox| < 100 then outbox else outbox[1..]) + [e]
  {
    if e.Delta? {
      forall i | 0 <= i < |outbox| && outbox[i].Delta? && outbox[i].subscription == e.subscription
        ensures DeltaIndex(outbox, e.subscription) == i
      {
      }
    }
  }

  // ----- Views -----

  lemma {:induction false} Merge(a: States, b: States, c: States)
    ensures (a + b) + c == a + (b + c) && a + map[] == a && map[] + a == a
  {
  }

  lemma {:induction false} ViewConcat(a: seq<Event>, b: seq<Event>, subscription: string)
    ensures View(a + b, subscription) == View(a, subscription) + View(b, subscription)
    decreases |b|
  {
    if b == [] {
      assert a + b == a;
      Merge(View(a, subscription), map[], map[]);
    } else {
      var last := b[|b| - 1];
      assert (a + b)[..|a + b| - 1] == a + b[..|b| - 1];
      ViewConcat(a, b[..|b| - 1], subscription);
      Merge(View(a, subscription), View(b[..|b| - 1], subscription), if IsDelta(last, subscription) then last.states else map[]);
    }
  }

  lemma {:induction false} NoView(events: seq<Event>, subscription: string)
    requires forall i :: 0 <= i < |events| ==> !IsDelta(events[i], subscription)
    ensures View(events, subscription) == map[]
    decreases |events|
  {
    if events != [] {
      NoView(events[..|events| - 1], subscription);
      Merge(map[], map[], map[]);
    }
  }

  lemma {:induction false} ViewOfOne(e: Event, subscription: string)
    ensures View([e], subscription) == if IsDelta(e, subscription) then e.states else map[]
  {
    assert [e][..0] == [];
    Merge(if IsDelta(e, subscription) then e.states else map[], map[], map[]);
  }

  /** Around its one delta, an outbox has no view of the subscription. */
  lemma {:induction false} ViewAround(outbox: seq<Event>, subscription: string)
    requires OneDeltaEach(outbox) && HasDelta(outbox, subscription)
    ensures View(outbox, subscription) == outbox[DeltaIndex(outbox, subscription)].states
  {
    var i := DeltaIndex(outbox, subscription);
    var before, after := outbox[..i], outbox[i + 1..];
    assert outbox == before + [outbox[i]] + after;
    forall j | 0 <= j < |after|
      ensures !IsDelta(after[j], subscription)
    {
      assert after[j] == outbox[i + 1 + j];
    }
    NoView(before, subscription);
    NoView(after, subscription);
    ViewConcat(before, [outbox[i]], subscription);
    ViewConcat(before + [outbox[i]], after, subscription);
    ViewOfOne(outbox[i], subscription);
    Merge(outbox[i].states, map[], map[]);
  }

  /** Replacing the delta of one subscription does not touch the view of another. */
  lemma {:induction false} ViewElsewhere(outbox: seq<Event>, i: nat, e: Event, subscription: string)
    requires i < |outbox| && !IsDelta(outbox[i], subscription) && !IsDelta(e, subscription)
    ensures View(outbox[i := e], subscription) == View(outbox, subscription)
    decreases |outbox|
  {
    var last := |outbox| - 1;
    if i < last {
      ViewElsewhere(outbox[..last], i, e, subscription);
      assert outbox[i := e][..last] == outbox[..last][i := e];
    } else {
      assert outbox[i := e][..last] == outbox[..last];
    }
  }

  /** Queueing adds the event to every view, unless a delta is dropped. */
  lemma {:induction false} QueueAddsToView(outbox: seq<Event>, e: Event, subscription: string)
    requires OneDeltaEach(outbox)
    requires !Coalesces(outbox, e) && |outbox| >= OUTBOX_MAX_EVENTS ==> !IsDelta(outbox[0], subscription)
    ensures View(Queue(outbox, e), subscription) == View(outbox, subscription) + View([e], subscription)
  {
    hide View, OneDeltaEach;
    ViewOfOne(e, subscription);
    Merge(View(outbox, subscription), map[], map[]);
    if Coalesces(outbox, e) {
      var i := DeltaIndex(outbox, e.subscription);
      var q := Queue(outbox, e);
      if e.subscription == subscription {
        ViewAround(outbox, subscription);
        QueueKeepsDelta(outbox, e);
        ViewAround(q, subscription);
      } else {
        ViewElsewhere(outbox, i, q[i], subscription);
      }
    } else {
      if |outbox| >= OUTBOX_MAX_EVENTS {
        assert outbox == [outbox[0]] + outbox[1..];
        ViewConcat([outbox[0]], outbox[1..], subscription);
        ViewOfOne(outbox[0], subscription);
        Merge(View(outbox[1..], subscription), map[], map[]);
        ViewConcat(outbox[1..], [e], subscription);
      } else {
        ViewConcat(outbox, [e], subscription);
      }
    }
  }

  lemma {:induction false} QueueKeepsDelta(outbox: seq<Event>, e: Event)
    requires OneDeltaEach(outbox) && Coalesces(outbox, e)
    ensures var q := Queue(outbox, e);
      OneDeltaEach(q) && HasDelta(q, e.subscription) && DeltaIndex(q, e.subscription) == DeltaIndex(outbox, e.subscription)
  {
  }

  lemma {:induction false} OneMoreOp(before: seq<Op>, op: Op)
    ensures Run(before + [op]) == Step(Run(before), op)
    ensures Queued(before + [op]) == Queued(before) + (if op.Put? then [op.event] else [])
  {
    hide Step;
    assert (before + [op])[..|before|] == before;
  }

  /** No delta of the subscription was dropped. */
  predicate Kept(dropped: seq<Event>, subscription: string) {
    forall i :: 0 <= i < |dropped| ==> !IsDelta(dropped[i], subscription)
  }

  /** If no delta of the subscription was dropped at the cap, replaying what was delivered and what still waits gives
      the view that the uncoalesced stream gives. */
  lemma {:induction false} ReplayGivesSameView(ops: seq<Op>, subscription: string)
    requires Kept(Run(ops).dropped, subscription)
    ensures var l := Run(ops); View(l.delivered + l.outbox, subscription) == View(Queued(ops), subscription)
    decreases |ops|
  {
    hide Queue, View, Coalesces, OneDeltaEach;
    if ops == [] {
      assert Run(ops).delivered + Run(ops).outbox == Queued(ops);
    } else {
      var before, op := ops[..|ops| - 1], ops[|ops| - 1];
      var l, m := Run(before), Run(ops);
      assert m == Step(l, op);
      assert |l.dropped| <= |m.dropped| && l.dropped == m.dropped[..|l.dropped|];
      ReplayGivesSameView(before, subscription);
      match op
      case Flush =>
        assert m.delivered + m.outbox == l.delivered + l.outbox;
        assert Queued(ops) == Queued(before) + [] == Queued(before);
      case Put(e) =>
        BoundedInEveryRun(before);
        assert |m.dropped| > |l.dropped| ==> m.dropped[|l.dropped|] == l.outbox[0];
        QueueAddsToView(l.outbox, e, subscription);
        ViewConcat(l.delivered, l.outbox, subscription);
        ViewConcat(m.delivered, m.outbox, subscription);
        ViewConcat(Queued(before), [e], subscription);
        Merge(View(l.delivered, subscription), View(l.outbox, subscription), View([e], subscription));
    }
  }

  // ----- What a waiting delta stands for -----

  /** The waiting delta was created by the event at `j` and has waited ever since. */
  ghost predicate CreatedAt(ops: seq<Op>, j: nat, subscription: string) {
    && j < |ops|
    && ops[j].Put? && IsDelta(ops[j].event, subscription)
    && !HasDelta(Run(ops[..j]).outbox, subscription)
    && (forall k :: j < k <= |ops| ==> HasDelta(Run(ops[..k]).outbox, subscription))
  }

  lemma {:induction false} CreatedStill(before: seq<Op>, op: Op, j: nat, subscription: string)
    requires CreatedAt(before, j, subscription) && HasDelta(Run(before + [op]).outbox, subscription)
    ensures CreatedAt(before + [op], j, subscription)
  {
    hide HasDelta, Run;
    var ops := before + [op];
    assert ops[..j] == before[..j];
    forall k | j < k <= |ops|
      ensures HasDelta(Run(ops[..k]).outbox, subscription)
    {
      if k <= |before| {
        assert ops[..k] == before[..k];
      } else {
        assert ops[..k] == ops;
      }
    }
  }

  lemma {:induction false} CreatedNow(before: seq<Op>, e: Event, subscription: string)
    requires IsDelta(e, subscription) && !HasDelta(Run(before).outbox, subscription)
    requires HasDelta(Run(before + [Put(e)]).outbox, subscription)
    ensures CreatedAt(before + [Put(e)], |before|, subscription)
  {
    hide HasDelta, Run;
    var ops := before + [Put(e)];
    assert ops[..|before|] == before && ops[..|ops|] == ops;
  }

  /** Where a subscription's delta is after a coalesced event, and what it then holds. */
  lemma {:induction false} CoalescedDelta(q: seq<Event>, e: Event, subscription: string)
    requires OneDeltaEach(q) && Coalesces(q, e) && HasDelta(Queue(q, e), subscription)
    ensures HasDelta(q, subscription)
    ensures var m := Queue(q, e);
      m[DeltaIndex(m, subscription)].states
      == q[DeltaIndex(q, subscription)].states + (if IsDelta(e, subscription) then e.states else map[])
  {
    var k, m := DeltaIndex(q, e.subscription), Queue(q, e);
    var i, j := DeltaIndex(m, subscription), DeltaIndex(q, subscription);
    assert IsDelta(m[i], subscription) && (i != k ==> m[i] == q[i]);
    assert j <= i && IsDelta(m[j], subscription);
    assert i == j;
    Merge(q[j].states, map[], map[]);
  }

  /** ... and after an appended one. */
  lemma {:induction false} AppendedDelta(q: seq<Event>, e: Event, subscription: string)
    requires OneDeltaEach(q) && !Coalesces(q, e) && HasDelta(Queue(q, e), subscription)
    ensures var m := Queue(q, e);
      var now := m[DeltaIndex(m, subscription)].states;
      if HasDelta(q, subscription) then !IsDelta(e, subscription) && now == q[DeltaIndex(q, subscription)].states
      else IsDelta(e, subscription) && now == e.states
  {
    var m := Queue(q, e);
    var i, j := DeltaIndex(m, subscription), DeltaIndex(q, subscription);
    var shift := |q| + 1 - |m|;
    assert forall n :: 0 <= n < |m| - 1 ==> m[n] == q[n + shift];
    if i < |m| - 1 {
      assert IsDelta(q[i + shift], subscription);
    }
  }

  /** A delta that is there after a step was there before it or was created by it. */
  lemma {:induction false} DeltaComesFrom(l: Line, op: Op, subscription: string)
    requires OneDeltaEach(l.outbox) && HasDelta(Step(l, op).outbox, subscription)
    ensures op.Put?
    ensures var m := Step(l, op).outbox;
      var now := m[DeltaIndex(m, subscription)].states;
      if HasDelta(l.outbox, subscription)
      then now == l.outbox[DeltaIndex(l.outbox, subscription)].states + (if IsDelta(op.event, subscription) then op.event.states else map[])
      else IsDelta(op.event, subscription) && now == op.event.states
  {
    hide Queue, OneDeltaEach;
    if op.Put? {
      if Coalesces(l.outbox, op.event) {
        CoalescedDelta(l.outbox, op.event, subscription);
      } else {
        AppendedDelta(l.outbox, op.event, subscription);
      }
    }
  }

  /** Every waiting delta is the fold, the latest state of each entity winning, of all deltas that were queued for its
      subscription since it was created. */
  lemma {:induction false} WaitingDeltaIsFold(ops: seq<Op>, subscription: string) returns (j: nat)
    requires HasDelta(Run(ops).outbox, subscription)
    ensures CreatedAt(ops, j, subscription)
    ensures var q := Run(ops).outbox; q[DeltaIndex(q, subscription)].states == View(Queued(ops[j..]), subscription)
    decreases |ops|
  {
    hide HasDelta, View, OneDeltaEach, Step, CreatedAt;
    assert ops != [] by { NothingHasDelta(subscription); }
    var before, op := ops[..|ops| - 1], ops[|ops| - 1];
    assert ops == before + [op];
    OneMoreOp(before, op);
    BoundedInEveryRun(before);
    DeltaComesFrom(Run(before), op, subscription);
    if HasDelta(Run(before).outbox, subscription) {
      j := WaitingDeltaIsFold(before, subscription);
      CreatedStill(before, op, j, subscription);
      CreatedInside(before, j, subscription);
      assert ops[j..] == before[j..] + [op];
      OneMoreOp(before[j..], op);
      ViewConcat(Queued(before[j..]), [op.event], subscription);
      ViewOfOne(op.event, subscription);
    } else {
      j := |before|;
      CreatedNow(before, op.event, subscription);
      assert ops[j..] == [op] == [] + [op];
      OneMoreOp([], op);
      assert Queued([]) + [op.event] == [op.event];
      ViewOfOne(op.event, subscription);
    }
  }

  lemma {:induction false} CreatedInside(ops: seq<Op>, j: nat, subscription: string)
    requires CreatedAt(ops, j, subscription)
    ensures j < |ops|
  {
  }

  lemma {:induction false} NothingHasDelta(subscription: string)
    ensures !HasDelta(Run([]).outbox, subscription)
  {
  }

  // ----- Other events -----

  lemma {:induction false} OthersConcat(a: seq<Event>, b: seq<Event>)
    ensures Others(a + b) == Others(a) + Others(b)
    decreases |b|
  {
    if b == [] {
      assert a + b == a;
    } else {
      assert (a + b)[..|a + b| - 1] == a + b[..|b| - 1];
      OthersConcat(a, b[..|b| - 1]);
    }
  }

  lemma {:induction false} OthersUnchanged(outbox: seq<Event>, i: nat, e: Event)
    requires i < |outbox| && outbox[i].Delta? && e.Delta?
    ensures Others(outbox[i := e]) == Others(outbox)
    decreases |outbox|
  {
    var last := |outbox| - 1;
    if i < last {
      OthersUnchanged(outbox[..last], i, e);
      assert outbox[i := e][..last] == outbox[..last][i := e];
    } else {
      assert outbox[i := e][..last] == outbox[..last];
    }
  }

  /** With nothing dropped, the events that are no deltas come through unchanged and in order. */
  lemma {:induction false} OthersComeThrough(ops: seq<Op>)
    requires Run(ops).dropped == []
    ensures Others(Run(ops).delivered + Run(ops).outbox) == Others(Queued(ops))
    decreases |ops|
  {
    hide Others;
    if ops == [] {
      assert Run(ops).delivered + Run(ops).outbox == Queued(ops);
    } else {
      var before, op := ops[..|ops| - 1], ops[|ops| - 1];
      var l, m := Run(before), Run(ops);
      assert m == Step(l, op);
      assert |l.dropped| <= |m.dropped|;
      OthersComeThrough(before);
      match op
      case Flush =>
        assert m.delivered + m.outbox == l.delivered + l.outbox;
        assert Queued(ops) == Queued(before) + [] == Queued(before);
      case Put(e) =>
        OthersConcat(Queued(before), [e]);
        OthersConcat(l.delivered, l.outbox);
        OthersConcat(m.delivered, m.outbox);
        if Coalesces(l.outbox, e) {
          var i := DeltaIndex(l.outbox, e.subscription);
          OthersUnchanged(l.outbox, i, m.outbox[i]);
          OneOther(e);
        } else {
          OthersConcat(l.outbox, [e]);
        }
    }
  }

  lemma {:induction false} OneOther(e: Event)
    ensures Others([e]) == if e.Delta? then [] else [e]
  {
    assert [e][..0] == [];
  }
}
