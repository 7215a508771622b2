/** The bridge's decisions about one socket. */
module BridgeLogic {
  import opened Options

  datatype Role = AuthorityRole | ConsumerRole

  datatype Mode = Relay | SignalingOnly

  /** A relayed payload: opaque, except for its type and lane. */
  datatype Payload = Hello(text: string) | Ciphertext(text: string, signaling: bool) | Data(text: string)

  datatype Signature = Missing | Bad | Good

  /** A parsed message. */
  datatype Message =
    | Auth(signature: Signature, proto: Option<int>)
    | AuthorityMessage(sessionId: string, payload: Payload)
    | CloseClient(sessionId: string)
    | Other(payload: Payload)

  datatype SocketState = SocketState(
    role: Role, authed: bool, sessionId: Option<string>,
    windowStart: int, messagesInWindow: nat, signalingCount: nat)

  datatype Limits = Limits(
    maxClients: real, maxSize: real, maxPerMinute: real, maxPending: real,
    mode: Mode, maxSignaling: real)

  const PROTO_VERSION: int := 1
  const WINDOW: int := 60_000

  datatype Gate = Pass | Reject(code: nat)

  /** Counts a message in the fixed window of its socket. */
  function GateMessage(s: SocketState, size: nat, l: Limits, now: int): (SocketState, Gate) {
    if size as real > l.maxSize then (s, Reject(4400))
    else
      var current := if now - s.windowStart >= WINDOW then s.(windowStart := now, messagesInWindow := 0) else s;
      var counted := current.(messagesInWindow := current.messagesInWindow + 1);
      (counted, if counted.messagesInWindow as real > l.maxPerMinute then Reject(4429) else Pass)
  }

  /** In signaling-only mode hellos pass, and signaling ciphertext passes within the socket's budget. */
  function RelayPayloadGate(s: SocketState, p: Payload, l: Limits): (SocketState, Gate) {
    if l.mode.Relay? || p.Hello? then (s, Pass)
    else if p.Ciphertext? && p.signaling then
      var counted := s.(signalingCount := s.signalingCount + 1);
      (counted, if counted.signalingCount as real <= l.maxSignaling then Pass else Reject(4405))
    else (s, Reject(4405))
  }

  datatype Action = Close(code: nat) | Ready | SendToConsumer(sessionId: string, payload: Payload) | CloseConsumer(sessionId: string) | Nothing

  function AuthorityMessageAction(s: SocketState, m: Message): (SocketState, Action) {
    if !s.authed then
      if !m.Auth? || m.signature.Missing? then (s, Close(4401))
      else if m.proto != None && m.proto != Some(PROTO_VERSION) then (s, Close(4406))
      else if m.signature.Bad? then (s, Close(4403))
      else (s.(authed := true), Ready)
    else
      match m
      case AuthorityMessage(sessionId, payload) => (s, SendToConsumer(sessionId, payload))
      case CloseClient(sessionId) => (s, CloseConsumer(sessionId))
      case _ => (s, Nothing)
  }

  /** `consumerConnectDecision`: 0 for accept, otherwise the close code. */
  function ConnectDecision(online: bool, count: nat, l: Limits): nat {
    if !online then 4404 else if count as real > l.maxClients then 4429 else 0
  }

  datatype Disconnect = EvictConsumers | NotifyAuthority(sessionId: string) | NoAction

  function DisconnectAction(s: SocketState): Disconnect {
    if s.role.AuthorityRole? then EvictConsumers
    else if s.sessionId.Some? then NotifyAuthority(s.sessionId.value)
    else NoAction
  }

  // ----- The message gate over a run of one socket -----

  /** A message: its size and its arrival. */
  datatype Arrival = Arrival(size: nat, now: int)

  function GateRun(s: SocketState, arrivals: seq<Arrival>, l: Limits): SocketState
    decreases |arrivals|
  {
    if arrivals == [] then s
    else
      var a := arrivals[|arrivals| - 1];
      GateMessage(GateRun(s, arrivals[..|arrivals| - 1], l), a.size, l, a.now).0
  }

  /** The arrival times of the messages that passed. */
  function Accepted(s: SocketState, arrivals: seq<Arrival>, l: Limits): seq<int>
    decreases |arrivals|
  {
    if arrivals == [] then []
    else
      var before, a := arrivals[..|arrivals| - 1], arrivals[|arrivals| - 1];
      if GateMessage(GateRun(s, before, l), a.size, l, a.now).1.Pass? then Accepted(s, before, l) + [a.now] else Accepted(s, before, l)
  }

  /** How many times lie from `lo` to `hi`, both included. */
  function CountBetween(times: seq<int>, lo: int, hi: int): nat
    decreases |times|
  {
    if times == [] then 0
    else CountBetween(times[..|times| - 1], lo, hi) + (if lo <= times[|times| - 1] <= hi then 1 else 0)
  }

  predicate InArrivalOrder(s: SocketState, arrivals: seq<Arrival>) {
    && (forall i :: 0 <= i < |arrivals| ==> s.windowStart <= arrivals[i].now)
    && (forall i, j :: 0 <= i <= j < |arrivals| ==> arrivals[i].now <= arrivals[j].now)
  }

  lemma {:induction false} CountAppend(times: seq<int>, t: int, lo: int, hi: int)
    ensures CountBetween(times + [t], lo, hi) == CountBetween(times, lo, hi) + (if lo <= t <= hi then 1 else 0)
  {
    assert (times + [t])[..|times|] == times;
  }

  lemma {:induction false} CountWider(times: seq<int>, lo: int, hi: int, lo': int, hi': int)
    requires lo' <= lo && forall i :: 0 <= i < |times| && times[i] <= hi ==> times[i] <= hi'
    ensures CountBetween(times, lo, hi) <= CountBetween(times, lo', hi')
    decreases |times|
  {
    if times != [] {
      CountWider(times[..|times| - 1], lo, hi, lo', hi');
    }
  }

  lemma {:induction false} CountSplit(times: seq<int>, lo: int, mid: int, hi: int)
    requires lo <= mid <= hi + 1
    ensures CountBetween(times, lo, hi) == CountBetween(times, lo, mid - 1) + CountBetween(times, mid, hi)
    decreases |times|
  {
    if times != [] {
      CountSplit(times[..|times| - 1], lo, mid, hi);
    }
  }

  /** What the one counter and the one window start say about the accepted messages: at most as many as counted lie in
      the current window, and the minute before it holds at most one window's worth. */
  ghost predicate GateInv(s: SocketState, times: seq<int>, l: Limits, last: int) {
    && s.windowStart <= last
    && (forall i :: 0 <= i < |times| ==> times[i] <= last && times[i] < s.windowStart + WINDOW)
    && CountBetween(times, s.windowStart, last) <= s.messagesInWindow
    && CountBetween(times, s.windowStart, last) as real <= l.maxPerMinute
    && CountBetween(times, s.windowStart - WINDOW, s.windowStart - 1) as real <= l.maxPerMinute
  }

  predicate SpanBound(times: seq<int>, l: Limits, lo: int) {
    CountBetween(times, lo, lo + WINDOW) as real <= 2.0 * l.maxPerMinute
  }

  lemma {:induction false} GateInvLater(s: SocketState, times: seq<int>, l: Limits, last: int, now: int)
    requires GateInv(s, times, l, last) && last <= now
    ensures GateInv(s, times, l, now)
  {
    CountWider(times, s.windowStart, now, s.windowStart, last);
  }

  /** A new window starts: what was the current window becomes the minute before. */
  lemma {:induction false} GateInvReset(s: SocketState, times: seq<int>, l: Limits, now: int)
    requires GateInv(s, times, l, now) && now - s.windowStart >= WINDOW && l.maxPerMinute >= 0.0
    ensures GateInv(s.(windowStart := now, messagesInWindow := 0), times, l, now)
  {
    CountNone(times, now, now);
    CountWider(times, now - WINDOW, now - 1, s.windowStart, now);
  }

  lemma {:induction false} CountNone(times: seq<int>, lo: int, hi: int)
    requires forall i :: 0 <= i < |times| ==> times[i] < lo
    ensures CountBetween(times, lo, hi) == 0
    decreases |times|
  {
    if times != [] {
      CountNone(times[..|times| - 1], lo, hi);
    }
  }

  lemma {:induction false} GateAccepts(s: SocketState, times: seq<int>, l: Limits, now: int)
    requires GateInv(s, times, l, now) && now - s.windowStart < WINDOW && (s.messagesInWindow + 1) as real <= l.maxPerMinute
    ensures GateInv(s.(messagesInWindow := s.messagesInWindow + 1), times + [now], l, now)
  {
    CountAppend(times, now, s.windowStart, now);
    CountAppend(times, now, s.windowStart - WINDOW, s.windowStart - 1);
  }

  lemma {:induction false} GateRefuses(s: SocketState, times: seq<int>, l: Limits, now: int)
    requires GateInv(s, times, l, now)
    ensures GateInv(s.(messagesInWindow := s.messagesInWindow + 1), times, l, now)
  {
  }

  lemma {:induction false} GateStep(s: SocketState, times: seq<int>, l: Limits, a: Arrival)
    requires GateInv(s, times, l, a.now) && l.maxPerMinute >= 0.0
    ensures var (t, g) := GateMessage(s, a.size, l, a.now);
      GateInv(t, if g.Pass? then times + [a.now] else times, l, a.now)
    ensures GateMessage(s, a.size, l, a.now).1.Pass? ==>
      forall lo :: SpanBound(times, l, lo) ==> SpanBound(times + [a.now], l, lo)
  {
    hide GateInv, SpanBound, CountBetween;
    var (t, g) := GateMessage(s, a.size, l, a.now);
    var reset := a.now - s.windowStart >= WINDOW;
    var current := if reset then s.(windowStart := a.now, messagesInWindow := 0) else s;
    if reset {
      GateInvReset(s, times, l, a.now);
    }
    if g.Pass? {
      GateAccepts(current, times, l, a.now);
      forall lo | SpanBound(times, l, lo)
        ensures SpanBound(times + [a.now], l, lo)
      {
        SpanStep(t, times, l, a.now, lo);
      }
    } else if a.size as real <= l.maxSize {
      GateRefuses(current, times, l, a.now);
    }
  }

  lemma {:induction false} SpanStep(t: SocketState, times: seq<int>, l: Limits, now: int, lo: int)
    requires GateInv(t, times + [now], l, now) && SpanBound(times, l, lo)
    ensures SpanBound(times + [now], l, lo)
  {
    CountAppend(times, now, lo, lo + WINDOW);
    if lo <= now <= lo + WINDOW {
      var all, w := times + [now], t.windowStart;
      assert lo >= w - WINDOW by {
        assert now >= w;
      }
      CountWider(all, lo, lo + WINDOW, w - WINDOW, now);
      CountSplit(all, w - WINDOW, w, now);
    }
  }

  lemma {:induction false} ForwardPrefix(s: SocketState, arrivals: seq<Arrival>)
    requires InArrivalOrder(s, arrivals) && arrivals != []
    ensures var before := arrivals[..|arrivals| - 1];
      InArrivalOrder(s, before) && LastTime(s, before) <= arrivals[|arrivals| - 1].now
  {
  }

  function LastTime(s: SocketState, arrivals: seq<Arrival>): int {
    if arrivals == [] then s.windowStart else arrivals[|arrivals| - 1].now
  }

  lemma {:induction false} GateInvHolds(s: SocketState, arrivals: seq<Arrival>, l: Limits)
    requires InArrivalOrder(s, arrivals) && l.maxPerMinute >= 0.0
    ensures GateInv(GateRun(s, arrivals, l), Accepted(s, arrivals, l), l, LastTime(s, arrivals))
    ensures forall lo :: SpanBound(Accepted(s, arrivals, l), l, lo)
    decreases |arrivals|
  {
    if arrivals == [] {
      forall lo
        ensures SpanBound([], l, lo)
      {
      }
    } else {
      hide GateInv, SpanBound, InArrivalOrder;
      var before, a := arrivals[..|arrivals| - 1], arrivals[|arrivals| - 1];
      ForwardPrefix(s, arrivals);
      GateInvHolds(s, before, l);
      GateInvLater(GateRun(s, before, l), Accepted(s, before, l), l, LastTime(s, before), a.now);
      GateStep(GateRun(s, before, l), Accepted(s, before, l), l, a);
    }
  }

  /** One counter and one window start suffice: any sixty seconds hold at most twice the limit of accepted messages. */
  lemma {:induction false} AtMostTwiceTheLimit(s: SocketState, arrivals: seq<Arrival>, l: Limits, lo: int)
    requires InArrivalOrder(s, arrivals) && l.maxPerMinute >= 0.0
    ensures CountBetween(Accepted(s, arrivals, l), lo, lo + 60_000) as real <= 2.0 * l.maxPerMinute
  {
    GateInvHolds(s, arrivals, l);
    assert SpanBound(Accepted(s, arrivals, l), l, lo);
  }
}
