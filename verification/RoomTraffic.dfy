/** What each event of a room sends, closes and registers, peer by peer. */
module RoomTraffic {
  import opened Options
  import opened BridgeLogic
  import opened RoomSpec
  import opened RoomRuns

  // ----- Which frames are let in -----

  /** How many messages the socket's window holds with the one at hand: a window ends after a minute. */
  function Counted(s: SocketState, now: int): nat {
    if now - s.windowStart >= 60_000 then 1 else s.messagesInWindow + 1
  }

  predicate IsTooBig(frame: Frame, l: Limits) {
    frame.size as real > l.maxSize
  }

  predicate IsTooOften(s: SocketState, now: int, l: Limits) {
    Counted(s, now) as real > l.maxPerMinute
  }

  /** The frame is small enough, not too soon and JSON. */
  predicate Enters(r: RoomState, e: Event, l: Limits) {
    e.Message? && e.id in r.peers && !IsTooBig(e.frame, l) && !IsTooOften(r.peers[e.id].session, e.now, l) && e.frame.parsed.Some?
  }

  /** Anything may be relayed in relay mode; otherwise hellos, and signaling while the socket's budget lasts. */
  predicate MayRelay(s: SocketState, p: Payload, l: Limits) {
    l.mode.Relay? || p.Hello? || (p.Ciphertext? && p.signaling && (s.signalingCount + 1) as real <= l.maxSignaling)
  }

  /** The message proves that its sender is the authority. */
  predicate Proves(m: BridgeLogic.Message) {
    m.Auth? && m.signature.Good? && (m.proto == None || m.proto == Some(1))
  }

  predicate HasAuthority(r: RoomState) {
    r.authority.Some? && r.authority.value in r.peers && r.peers[r.authority.value].open
  }

  predicate HasRoom(r: RoomState, l: Limits) {
    (|r.consumers| + 1) as real <= l.maxClients
  }

  // ----- What is sent -----

  /** What an entered message has sent on the socket of a peer. */
  function AnswerTo(r: RoomState, id: Id, m: Parsed, x: Id, l: Limits): seq<Out>
    requires id in r.peers
  {
    var s := r.peers[id].session;
    if s.role.ConsumerRole? then
      if !MayRelay(s, m.payload, l) then if x == id then [RelayDisabled] else []
      else if r.authority == Some(x) && s.sessionId.Some? then [ClientMessage(s.sessionId.value, m.payload)] else []
    else if !s.authed then if x == id && Proves(m.message) then [ReadyNotice] else []
    else
      match m.message
      case AuthorityMessage(sessionId, payload) =>
        if !MayRelay(s, payload, l) then if x == id then [RelayDisabled] else []
        else if sessionId in r.consumers && r.consumers[sessionId] == x then [Forwarded(payload)] else []
      case _ => []
  }

  /** What an event has sent on the socket of a peer. */
  function SentBy(r: RoomState, e: Event, x: Id, l: Limits): seq<Out>
    requires Possible(r, e)
  {
    match e
    case AuthorityConnects(id, allowlisted, _) => if x == id && allowlisted && |r.pending| as real < l.maxPending then [Challenge] else []
    case ConsumerConnects(id, sessionId, _) =>
      if !HasAuthority(r) then if x == id then [OfflineNotice] else []
      else if r.authority == Some(x) && HasRoom(r, l) then [ClientConnected(sessionId)] else []
    case Message(id, frame, _) =>
      if Enters(r, e, l) && x in r.peers && r.peers[x].open then AnswerTo(r, id, frame.parsed.value, x, l) else []
    case SocketCloses(id) =>
      var s := r.peers[id].session;
      if s.role.ConsumerRole? && s.sessionId.Some? && x != id && r.authority == Some(x) && x in r.peers && r.peers[x].open
      then [ClientDisconnected(s.sessionId.value)] else []
    case _ => []
  }

  function SentOf(r: RoomState, x: Id): seq<Out> {
    if x in r.peers then r.peers[x].sent else []
  }

  lemma {:induction false} SendSent(p: map<Id, Peer>, id: Id, o: Out, x: Id)
    requires x in p
    ensures x in Send(p, id, o) && Send(p, id, o)[x].sent == p[x].sent + (if x == id && p[x].open then [o] else [])
  {
    assert p[x].sent + [] == p[x].sent;
  }

  lemma {:induction false} SendKeepsKeys(p: map<Id, Peer>, id: Id, o: Out)
    ensures Send(p, id, o).Keys == p.Keys
  {
  }

  lemma {:induction false} HandlersKeepKeys(r: RoomState, id: Id, m: Parsed, l: Limits)
    requires id in r.peers
    ensures HandleAuthority(r, id, m.message, l).peers.Keys == r.peers.Keys
    ensures HandleConsumer(r, id, m.payload, l).peers.Keys == r.peers.Keys
  {
    hide HandleAuthority, HandleConsumer, BecomeAuthority;
    HandleConsumerIsGentle(r, id, m.payload, l);
    if AuthorityMessageAction(r.peers[id].session, m.message).1.Ready? {
      ReadyKeepsKeys(r, id, m.message, l);
    } else {
      HandleAuthorityIsGentle(r, id, m.message, l);
    }
  }

  lemma {:induction false} ReadyKeepsKeys(r: RoomState, id: Id, m: BridgeLogic.Message, l: Limits)
    requires id in r.peers && AuthorityMessageAction(r.peers[id].session, m).1.Ready?
    ensures HandleAuthority(r, id, m, l).peers.Keys == r.peers.Keys
  {
  }

  lemma {:induction false} MessageKeepsKeys(r: RoomState, e: Event, l: Limits)
    requires e.Message? && e.id in r.peers
    ensures HandleMessage(r, e.id, e.frame, e.now, l).peers.Keys == r.peers.Keys
  {
    hide HandleAuthority, HandleConsumer;
    var t := GateMessage(r.peers[e.id].session, e.frame.size, l, e.now).0;
    if e.frame.parsed.Some? {
      HandlersKeepKeys(r.(peers := r.peers[e.id := r.peers[e.id].(session := t)]), e.id, e.frame.parsed.value, l);
    }
  }

  lemma {:induction false} ClosedKeepsKeys(r: RoomState, id: Id)
    requires id in r.peers
    ensures HandleClosed(r, id).peers.Keys == r.peers.Keys
  {
  }

  lemma {:induction false} GateIs(s: SocketState, frame: Frame, l: Limits, now: int)
    ensures var (t, gate) := GateMessage(s, frame.size, l, now);
      && t.role == s.role && t.authed == s.authed && t.sessionId == s.sessionId && t.signalingCount == s.signalingCount
      && gate == (if IsTooBig(frame, l) then Reject(4400) else if IsTooOften(s, now, l) then Reject(4429) else Pass)
      && (if IsTooBig(frame, l) then t == s
          else t.messagesInWindow == Counted(s, now) && t.windowStart == if now - s.windowStart >= 60_000 then now else s.windowStart)
  {
  }

  lemma {:induction false} RelayGateIs(s: SocketState, p: Payload, l: Limits)
    ensures var (t, gate) := RelayPayloadGate(s, p, l);
      && gate == (if MayRelay(s, p, l) then Pass else Reject(4405))
      && t == s.(signalingCount := if l.mode.SignalingOnly? && p.Ciphertext? && p.signaling then s.signalingCount + 1 else s.signalingCount)
  {
  }

  lemma {:induction false} ConsumerSends(r: RoomState, id: Id, m: Parsed, x: Id, l: Limits)
    requires id in r.peers && x in r.peers && r.peers[id].session.role.ConsumerRole? && Known(r)
    ensures var q := HandleConsumer(r, id, m.payload, l);
      x in q.peers && q.peers[x].sent == r.peers[x].sent + (if r.peers[x].open then AnswerTo(r, id, m, x, l) else [])
  {
    hide Send, MayRelay, RelayPayloadGate;
    var s := r.peers[id].session;
    var t := RelayPayloadGate(s, m.payload, l).0;
    RelayGateIs(s, m.payload, l);
    var p := r.peers[id := r.peers[id].(session := t)];
    assert r.peers[x].sent + [] == r.peers[x].sent;
    if !MayRelay(s, m.payload, l) {
      SendSent(p, id, RelayDisabled, x);
    } else if r.authority.Some? && s.sessionId.Some? {
      SendSent(p, r.authority.value, ClientMessage(s.sessionId.value, m.payload), x);
    }
  }

  lemma {:induction false} ActionIs(s: SocketState, m: BridgeLogic.Message)
    ensures var (t, action) := AuthorityMessageAction(s, m);
      if s.authed then
        && t == s
        && action == (match m case AuthorityMessage(x, p) => SendToConsumer(x, p) case CloseClient(x) => CloseConsumer(x) case _ => Nothing)
      else if Proves(m) then t == s.(authed := true) && action == Ready
      else
        t == s && action == Close(if !m.Auth? || m.signature.Missing? then 4401 else if m.proto != None && m.proto != Some(1) then 4406 else 4403)
  {
  }

  lemma {:induction false} ForwardSends(r: RoomState, id: Id, sessionId: string, payload: Payload, x: Id, l: Limits)
    requires id in r.peers && x in r.peers && Known(r)
    ensures var q := Forward(r, id, sessionId, payload, l);
      && x in q.peers
      && q.peers[x].sent == r.peers[x].sent + (
           if !r.peers[x].open then []
           else if !MayRelay(r.peers[id].session, payload, l) then if x == id then [RelayDisabled] else []
           else if sessionId in r.consumers && r.consumers[sessionId] == x then [Forwarded(payload)] else [])
  {
    hide Send, MayRelay, RelayPayloadGate;
    var s := r.peers[id].session;
    var t := RelayPayloadGate(s, payload, l).0;
    RelayGateIs(s, payload, l);
    var p := r.peers[id := r.peers[id].(session := t)];
    assert r.peers[x].sent + [] == r.peers[x].sent;
    if !MayRelay(s, payload, l) {
      SendSent(p, id, RelayDisabled, x);
    } else if sessionId in r.consumers {
      SendSent(p, r.consumers[sessionId], Forwarded(payload), x);
    }
  }

  lemma {:induction false} ReadySends(r: RoomState, id: Id, x: Id)
    requires id in r.peers && x in r.peers && id !in r.consumers.Values
    ensures var q := BecomeAuthority(r, id);
      x in q.peers && q.peers[x].sent == r.peers[x].sent + (if x == id && r.peers[id].open then [ReadyNotice] else [])
  {
    hide Send;
    var disarmed := r.peers[id := r.peers[id].(timer := false)];
    var replaced := if r.authority.Some? && r.authority.value != id then CloseOne(disarmed, r.authority.value, 4409) else disarmed;
    SendSent(CloseEach(replaced, r.consumers.Values, 4404), id, ReadyNotice, x);
  }

  lemma {:induction false} AuthoritySends(r: RoomState, id: Id, m: Parsed, x: Id, l: Limits)
    requires id in r.peers && x in r.peers && r.peers[id].session.role.AuthorityRole? && Known(r) && id !in r.consumers.Values
    ensures var q := HandleAuthority(r, id, m.message, l);
      x in q.peers && q.peers[x].sent == r.peers[x].sent + (if r.peers[x].open then AnswerTo(r, id, m, x, l) else [])
  {
    hide Forward, BecomeAuthority, AuthorityMessageAction, MayRelay, Proves;
    var s := r.peers[id].session;
    var (t, action) := AuthorityMessageAction(s, m.message);
    ActionIs(s, m.message);
    var r1 := SetSession(r, id, t);
    assert r.peers[x].sent + [] == r.peers[x].sent;
    match action
    case Ready => ReadySends(r1, id, x);
    case SendToConsumer(sessionId, payload) => ForwardSends(r1, id, sessionId, payload, x, l);
    case _ =>
  }

  lemma {:induction false} ConsumersAreNoAuthorities(r: RoomState, id: Id, l: Limits)
    requires RoomInv(r, l) && id in r.peers && r.peers[id].session.role.AuthorityRole?
    ensures id !in r.consumers.Values
  {
  }

  lemma {:induction false} MessageSends(r: RoomState, e: Event, x: Id, l: Limits)
    requires RoomInv(r, l) && Possible(r, e) && e.Message? && x in r.peers
    ensures var q := HandleMessage(r, e.id, e.frame, e.now, l); x in q.peers && q.peers[x].sent == r.peers[x].sent + SentBy(r, e, x, l)
  {
    hide HandleConsumer, HandleAuthority, GateMessage, AnswerTo, RoomInv;
    var t := GateMessage(r.peers[e.id].session, e.frame.size, l, e.now).0;
    var r1 := r.(peers := r.peers[e.id := r.peers[e.id].(session := t)]);
    GateIs(r.peers[e.id].session, e.frame, l, e.now);
    assert r.peers[x].sent + [] == r.peers[x].sent;
    if Enters(r, e, l) {
      KnownIn(r, l);
      SameAnswer(r, e.id, t, e.frame.parsed.value, x, l);
      if t.role.ConsumerRole? {
        ConsumerSends(r1, e.id, e.frame.parsed.value, x, l);
      } else {
        ConsumersAreNoAuthorities(r, e.id, l);
        AuthoritySends(r1, e.id, e.frame.parsed.value, x, l);
      }
    }
  }

  lemma {:induction false} KnownIn(r: RoomState, l: Limits)
    requires RoomInv(r, l)
    ensures Known(r)
  {
  }

  /** The window's counters make no difference to the answer. */
  lemma {:induction false} SameAnswer(r: RoomState, id: Id, t: SocketState, m: Parsed, x: Id, l: Limits)
    requires id in r.peers
    requires var s := r.peers[id].session;
      t.role == s.role && t.authed == s.authed && t.sessionId == s.sessionId && t.signalingCount == s.signalingCount
    ensures AnswerTo(r.(peers := r.peers[id := r.peers[id].(session := t)]), id, m, x, l) == AnswerTo(r, id, m, x, l)
  {
  }

  lemma {:induction false} ClosedSends(r: RoomState, e: Event, x: Id, l: Limits)
    requires RoomInv(r, l) && Possible(r, e) && e.SocketCloses? && x in r.peers
    ensures var q := HandleClosed(r, e.id); x in q.peers && q.peers[x].sent == r.peers[x].sent + SentBy(r, e, x, l)
  {
    hide Send, RoomInv;
    var s := r.peers[e.id].session;
    var p := r.peers[e.id := r.peers[e.id].(timer := false, open := false)];
    OnlyConsumersHaveSessions(r, e.id, l);
    assert r.peers[x].sent + [] == r.peers[x].sent;
    if s.role.ConsumerRole? && r.authority.Some? {
      SendSent(p, r.authority.value, ClientDisconnected(s.sessionId.value), x);
    }
  }

  lemma {:induction false} OnlyConsumersHaveSessions(r: RoomState, id: Id, l: Limits)
    requires RoomInv(r, l) && id in r.peers
    ensures r.peers[id].session.role.ConsumerRole? <==> r.peers[id].session.sessionId.Some?
    ensures r.peers[id].session.role.ConsumerRole? ==> r.authority != Some(id)
  {
  }

  lemma {:induction false} ConnectSends(r: RoomState, e: Event, x: Id, l: Limits)
    requires RoomInv(r, l) && Possible(r, e) && (e.AuthorityConnects? || e.ConsumerConnects?)
    ensures SentOf(Step(r, e, l), x) == SentOf(r, x) + SentBy(r, e, x, l)
  {
    hide Send;
    assert SentOf(r, x) + [] == SentOf(r, x);
    assert [] + [OfflineNotice] == [OfflineNotice] && [] + [Challenge] == [Challenge];
    if e.ConsumerConnects? && HasAuthority(r) && HasRoom(r, l) {
      var p := r.peers[e.id := Peer(NewSession(ConsumerRole, Some(e.sessionId), e.now), true, true, [], 0, false)];
      if x in p {
        SendSent(p, r.authority.value, ClientConnected(e.sessionId), x);
      } else {
        SendKeepsKeys(p, r.authority.value, ClientConnected(e.sessionId));
      }
    }
  }

  lemma {:induction false} StepSends(r: RoomState, e: Event, x: Id, l: Limits)
    requires RoomInv(r, l) && Possible(r, e)
    ensures SentOf(Step(r, e, l), x) == SentOf(r, x) + SentBy(r, e, x, l)
  {
    hide HandleMessage, HandleClosed, CloseOne, AcceptAuthority, AcceptConsumer, RoomInv, Enters, AnswerTo;
    assert SentOf(r, x) + [] == SentOf(r, x);
    match e
    case Message(_, _, _) =>
      if x in r.peers {
        MessageSends(r, e, x, l);
      } else {
        MessageKeepsKeys(r, e, l);
      }
    case SocketCloses(id) =>
      if x in r.peers {
        ClosedSends(r, e, x, l);
      } else {
        ClosedKeepsKeys(r, id);
      }
    case AuthTimeout(id) => CloseSent(r.peers, id, 4408, x);
    case SocketDies(_) =>
    case Shutdown =>
    case _ => ConnectSends(r, e, x, l);
  }

  lemma {:induction false} CloseSent(p: map<Id, Peer>, id: Id, code: nat, x: Id)
    ensures (x in CloseOne(p, id, code) <==> x in p) && (x in p ==> CloseOne(p, id, code)[x].sent == p[x].sent)
  {
  }

  /** Everything a run has sent on a socket, event by event. */
  function Traffic(events: seq<Event>, x: Id, l: Limits): seq<Out>
    requires PossibleRun(events, l)
    decreases |events|
  {
    if events == [] then []
    else
      var before := events[..|events| - 1];
      Traffic(before, x, l) + SentBy(Run(before, l), events[|events| - 1], x, l)
  }

  /** In every run, each peer is sent exactly what each event says, in their order. */
  lemma {:induction false} SentExactly(events: seq<Event>, x: Id, l: Limits)
    requires PossibleRun(events, l) && l.maxClients >= 0.0 && l.maxPending >= 0.0
    ensures SentOf(Run(events, l), x) == Traffic(events, x, l)
    decreases |events|
  {
    if events != [] {
      hide Step, Possible, SentBy, RoomInv;
      var before := events[..|events| - 1];
      SentExactly(before, x, l);
      RoomInvHolds(before, l);
      StepSends(Run(before, l), events[|events| - 1], x, l);
    }
  }

  // ----- What consumers have sent to the authority -----

  /** The relayed consumer messages on a socket, each with its session id. */
  function ClientMessages(sent: seq<Out>): seq<(string, Payload)>
    decreases |sent|
  {
    if sent == [] then []
    else
      var last := sent[|sent| - 1];
      ClientMessages(sent[..|sent| - 1]) + (if last.ClientMessage? then [(last.sessionId, last.payload)] else [])
  }

  lemma {:induction false} ClientMessagesConcat(a: seq<Out>, b: seq<Out>)
    ensures ClientMessages(a + b) == ClientMessages(a) + ClientMessages(b)
    decreases |b|
  {
    if b == [] {
      assert a + b == a;
    } else {
      ClientMessagesConcat(a, b[..|b| - 1]);
      assert (a + b)[..|a + b| - 1] == a + b[..|b| - 1];
    }
  }

  /** A frame of a consumer that passes both gates while the peer is the authority, with its socket open. */
  predicate IsRelayed(r: RoomState, e: Event, x: Id, l: Limits) {
    && Enters(r, e, l) && r.authority == Some(x) && x in r.peers && r.peers[x].open
    && var s := r.peers[e.id].session;
    && s.role.ConsumerRole? && s.sessionId.Some? && MayRelay(s, e.frame.parsed.value.payload, l)
  }

  /** The consumer frames of a run that are relayed to a peer, in order. */
  function Relayed(events: seq<Event>, x: Id, l: Limits): seq<(string, Payload)>
    requires PossibleRun(events, l)
    decreases |events|
  {
    if events == [] then []
    else
      var before, e := events[..|events| - 1], events[|events| - 1];
      Relayed(before, x, l)
      + (if IsRelayed(Run(before, l), e, x, l)
         then [(Run(before, l).peers[e.id].session.sessionId.value, e.frame.parsed.value.payload)] else [])
  }

  lemma {:induction false} OneClientMessage(o: Out)
    ensures ClientMessages([o]) == (if o.ClientMessage? then [(o.sessionId, o.payload)] else []) && ClientMessages([]) == []
  {
    assert [o][..0] == [];
  }

  lemma {:induction false} RelayedNow(r: RoomState, e: Event, x: Id, l: Limits)
    requires Possible(r, e)
    ensures ClientMessages(SentBy(r, e, x, l))
      == if IsRelayed(r, e, x, l) then [(r.peers[e.id].session.sessionId.value, e.frame.parsed.value.payload)] else []
  {
    hide MayRelay, Proves, Enters;
    var out := SentBy(r, e, x, l);
    EntersMeans(r, e, l);
    if out != [] {
      assert out == [out[0]];
      OneClientMessage(out[0]);
    }
  }

  lemma {:induction false} EntersMeans(r: RoomState, e: Event, l: Limits)
    ensures Enters(r, e, l) ==> e.Message? && e.id in r.peers && e.frame.parsed.Some?
  {
  }

  /** The authority receives exactly what its consumers send and the gates let pass, each payload unchanged under its sender's
      session id, in order. */
  lemma {:induction false} RelaysExactly(events: seq<Event>, x: Id, l: Limits)
    requires PossibleRun(events, l) && l.maxClients >= 0.0 && l.maxPending >= 0.0
    ensures ClientMessages(SentOf(Run(events, l), x)) == Relayed(events, x, l)
  {
    SentExactly(events, x, l);
    TrafficRelays(events, x, l);
  }

  lemma {:induction false} TrafficRelays(events: seq<Event>, x: Id, l: Limits)
    requires PossibleRun(events, l)
    ensures ClientMessages(Traffic(events, x, l)) == Relayed(events, x, l)
    decreases |events|
  {
    if events != [] {
      hide Step, Possible, SentBy, IsRelayed;
      var before, e := events[..|events| - 1], events[|events| - 1];
      TrafficRelays(before, x, l);
      ClientMessagesConcat(Traffic(before, x, l), SentBy(Run(before, l), e, x, l));
      RelayedNow(Run(before, l), e, x, l);
    }
  }

  // ----- What the authority has sent to consumers -----

  /** The forwarded payloads on a socket. */
  function Forwards(sent: seq<Out>): seq<Payload>
    decreases |sent|
  {
    if sent == [] then []
    else Forwards(sent[..|sent| - 1]) + (if sent[|sent| - 1].Forwarded? then [sent[|sent| - 1].payload] else [])
  }

  lemma {:induction false} ForwardsConcat(a: seq<Out>, b: seq<Out>)
    ensures Forwards(a + b) == Forwards(a) + Forwards(b)
    decreases |b|
  {
    if b == [] {
      assert a + b == a;
    } else {
      ForwardsConcat(a, b[..|b| - 1]);
      assert (a + b)[..|a + b| - 1] == a + b[..|b| - 1];
    }
  }

  /** A frame of an authority that has proved itself and passes both gates, addressed to the session under which the peer is
      registered, with its socket open. */
  predicate IsDelivered(r: RoomState, e: Event, x: Id, l: Limits) {
    && Enters(r, e, l) && e.frame.parsed.value.message.AuthorityMessage?
    && var s, m := r.peers[e.id].session, e.frame.parsed.value.message;
    && s.role.AuthorityRole? && s.authed && MayRelay(s, m.payload, l)
    && m.sessionId in r.consumers && r.consumers[m.sessionId] == x && x in r.peers && r.peers[x].open
  }

  /** The authority's payloads of a run that are delivered to a peer, in order. */
  function Delivered(events: seq<Event>, x: Id, l: Limits): seq<Payload>
    requires PossibleRun(events, l)
    decreases |events|
  {
    if events == [] then []
    else
      var before, e := events[..|events| - 1], events[|events| - 1];
      Delivered(before, x, l) + (if IsDelivered(Run(before, l), e, x, l) then [e.frame.parsed.value.message.payload] else [])
  }

  lemma {:induction false} OneForward(o: Out)
    ensures Forwards([o]) == (if o.Forwarded? then [o.payload] else []) && Forwards([]) == []
  {
    assert [o][..0] == [];
  }

  lemma {:induction false} DeliveredNow(r: RoomState, e: Event, x: Id, l: Limits)
    requires Possible(r, e)
    ensures Forwards(SentBy(r, e, x, l)) == if IsDelivered(r, e, x, l) then [e.frame.parsed.value.message.payload] else []
  {
    hide MayRelay, Proves, Enters;
    var out := SentBy(r, e, x, l);
    EntersMeans(r, e, l);
    if out != [] {
      assert out == [out[0]];
      OneForward(out[0]);
    }
  }

  lemma {:induction false} TrafficDelivers(events: seq<Event>, x: Id, l: Limits)
    requires PossibleRun(events, l)
    ensures Forwards(Traffic(events, x, l)) == Delivered(events, x, l)
    decreases |events|
  {
    if events != [] {
      hide Step, Possible, SentBy, IsDelivered;
      var before, e := events[..|events| - 1], events[|events| - 1];
      TrafficDelivers(before, x, l);
      ForwardsConcat(Traffic(before, x, l), SentBy(Run(before, l), e, x, l));
      DeliveredNow(Run(before, l), e, x, l);
    }
  }

  /** A consumer receives exactly what the authority addresses to its session and the gates let pass, unchanged and in order. */
  lemma {:induction false} DeliversExactly(events: seq<Event>, x: Id, l: Limits)
    requires PossibleRun(events, l) && l.maxClients >= 0.0 && l.maxPending >= 0.0
    ensures Forwards(SentOf(Run(events, l), x)) == Delivered(events, x, l)
  {
    SentExactly(events, x, l);
    TrafficDelivers(events, x, l);
  }

  // ----- What is closed, and what is remembered of a socket -----

  /** How a peer fares: its session, whether its socket is told to close, and whether its timer stops. */
  predicate Fares(p: Peer, q: Peer, session: SocketState, code: Option<nat>, stops: bool) {
    && q.session == session && q.bound == p.bound
    && q.open == (p.open && code.None?)
    && q.closeCode == (if p.open && code.Some? then code.value else p.closeCode)
    && q.timer == (p.timer && !stops)
  }

  /** Why a peer that has not proved itself is refused. */
  function RefusalOf(m: BridgeLogic.Message): nat {
    if !m.Auth? || m.signature.Missing? then 4401 else if m.proto != None && m.proto != Some(1) then 4406 else 4403
  }

  /** The code with which an entered message closes the socket of a peer. */
  function ClosedByMessage(r: RoomState, id: Id, m: Parsed, x: Id, l: Limits): Option<nat>
    requires id in r.peers
  {
    var s := r.peers[id].session;
    if s.role.ConsumerRole? then if x == id && !MayRelay(s, m.payload, l) then Some(4405) else None
    else if !s.authed then
      if !Proves(m.message) then if x == id then Some(RefusalOf(m.message)) else None
      else if r.authority == Some(x) && x != id then Some(4409)
      else if x in r.consumers.Values then Some(4404)
      else None
    else
      match m.message
      case AuthorityMessage(_, payload) => if x == id && !MayRelay(s, payload, l) then Some(4405) else None
      case CloseClient(sessionId) => if sessionId in r.consumers && r.consumers[sessionId] == x then Some(4400) else None
      case _ => None
  }

  /** The code with which an event closes the socket of a peer. */
  function ClosedBy(r: RoomState, e: Event, x: Id, l: Limits): Option<nat>
    requires Possible(r, e)
  {
    match e
    case Message(id, frame, now) =>
      if Enters(r, e, l) then ClosedByMessage(r, id, frame.parsed.value, x, l)
      else if x != id then None
      else Some(if !IsTooBig(frame, l) && IsTooOften(r.peers[id].session, now, l) then 4429 else 4400)
    case AuthTimeout(id) => if x == id && r.peers[id].timer then Some(4408) else None
    case SocketCloses(id) => if r.peers[id].session.role.AuthorityRole? && x in r.consumers.Values then Some(4404) else None
    case _ => None
  }

  /** How much of the signaling budget a payload takes. */
  function Spent(p: Payload, l: Limits): nat {
    if l.mode.SignalingOnly? && p.Ciphertext? && p.signaling then 1 else 0
  }

  /** What an entered message leaves of its sender's session. */
  function SessionAfterMessage(s: SocketState, m: Parsed, l: Limits): SocketState {
    if s.role.ConsumerRole? then s.(signalingCount := s.signalingCount + Spent(m.payload, l))
    else if !s.authed then s.(authed := Proves(m.message))
    else if m.message.AuthorityMessage? then s.(signalingCount := s.signalingCount + Spent(m.message.payload, l))
    else s
  }

  /** What a message leaves of its sender's session: the window counts it, unless it is too big. */
  function SessionAfter(s: SocketState, frame: Frame, now: int, l: Limits): SocketState {
    if IsTooBig(frame, l) then s
    else
      var t := s.(windowStart := if now - s.windowStart >= 60_000 then now else s.windowStart, messagesInWindow := Counted(s, now));
      if IsTooOften(s, now, l) || frame.parsed.None? then t else SessionAfterMessage(t, frame.parsed.value, l)
  }

  /** The message makes its sender the authority. */
  predicate Installs(r: RoomState, e: Event, l: Limits) {
    && Enters(r, e, l)
    && r.peers[e.id].session.role.AuthorityRole? && !r.peers[e.id].session.authed && Proves(e.frame.parsed.value.message)
  }

  lemma {:induction false} CloseFares(p: map<Id, Peer>, id: Id, ids: set<Id>, code: nat, x: Id)
    requires x in p
    ensures x in CloseOne(p, id, code) && Fares(p[x], CloseOne(p, id, code)[x], p[x].session, if x == id then Some(code) else None, false)
    ensures x in CloseEach(p, ids, code) && Fares(p[x], CloseEach(p, ids, code)[x], p[x].session, if x in ids then Some(code) else None, false)
  {
  }

  lemma {:induction false} SendFares(p: map<Id, Peer>, id: Id, o: Out, x: Id)
    requires x in p
    ensures x in Send(p, id, o) && Fares(p[x], Send(p, id, o)[x], p[x].session, None, false)
  {
  }

  lemma {:induction false} ConsumerFares(r: RoomState, id: Id, m: Parsed, x: Id, l: Limits)
    requires id in r.peers && x in r.peers && r.peers[id].session.role.ConsumerRole? && Known(r)
    ensures var q := HandleConsumer(r, id, m.payload, l);
      && q == r.(peers := q.peers) && x in q.peers
      && Fares(r.peers[x], q.peers[x], if x == id then SessionAfterMessage(r.peers[id].session, m, l) else r.peers[x].session,
           ClosedByMessage(r, id, m, x, l), false)
  {
    hide Send, CloseOne, MayRelay, RelayPayloadGate;
    var s := r.peers[id].session;
    var t := RelayPayloadGate(s, m.payload, l).0;
    RelayGateIs(s, m.payload, l);
    var p := r.peers[id := r.peers[id].(session := t)];
    if !MayRelay(s, m.payload, l) {
      SendFares(p, id, RelayDisabled, x);
      CloseFares(Send(p, id, RelayDisabled), id, {}, 4405, x);
    } else if r.authority.Some? && s.sessionId.Some? {
      SendFares(p, r.authority.value, ClientMessage(s.sessionId.value, m.payload), x);
    }
  }

  lemma {:induction false} ForwardFares(r: RoomState, id: Id, sessionId: string, payload: Payload, x: Id, l: Limits)
    requires id in r.peers && x in r.peers && Known(r)
    ensures var q := Forward(r, id, sessionId, payload, l);
      var s := r.peers[id].session;
      && q == r.(peers := q.peers) && x in q.peers
      && Fares(r.peers[x], q.peers[x], if x == id then s.(signalingCount := s.signalingCount + Spent(payload, l)) else r.peers[x].session,
           if x == id && !MayRelay(s, payload, l) then Some(4405) else None, false)
  {
    hide Send, CloseOne, MayRelay, RelayPayloadGate;
    var s := r.peers[id].session;
    var t := RelayPayloadGate(s, payload, l).0;
    RelayGateIs(s, payload, l);
    var p := r.peers[id := r.peers[id].(session := t)];
    if !MayRelay(s, payload, l) {
      SendFares(p, id, RelayDisabled, x);
      CloseFares(Send(p, id, RelayDisabled), id, {}, 4405, x);
    } else if sessionId in r.consumers {
      SendFares(p, r.consumers[sessionId], Forwarded(payload), x);
    }
  }

  lemma {:induction false} ReadyFares(r: RoomState, id: Id, x: Id)
    requires id in r.peers && x in r.peers && id !in r.consumers.Values
    ensures var q := BecomeAuthority(r, id);
      && q == RoomState(Some(id), r.pending - {id}, map[], q.peers) && x in q.peers
      && Fares(r.peers[x], q.peers[x], r.peers[x].session,
           if r.authority == Some(x) && x != id then Some(4409) else if x in r.consumers.Values then Some(4404) else None, x == id)
  {
    hide Send, CloseOne, CloseEach;
    var disarmed := r.peers[id := r.peers[id].(timer := false)];
    var stale := r.authority.Some? && r.authority.value != id;
    var replaced := if stale then CloseOne(disarmed, r.authority.value, 4409) else disarmed;
    if stale {
      CloseFares(disarmed, r.authority.value, {}, 4409, x);
    }
    CloseFares(replaced, id, r.consumers.Values, 4404, x);
    SendFares(CloseEach(replaced, r.consumers.Values, 4404), id, ReadyNotice, x);
  }

  lemma {:induction false} AuthorityFares(r: RoomState, id: Id, m: Parsed, x: Id, l: Limits)
    requires id in r.peers && x in r.peers && r.peers[id].session.role.AuthorityRole? && Known(r) && id !in r.consumers.Values
    ensures var q := HandleAuthority(r, id, m.message, l);
      var s := r.peers[id].session;
      var installs := !s.authed && Proves(m.message);
      && q == (if installs then RoomState(Some(id), r.pending - {id}, map[], q.peers) else r.(peers := q.peers)) && x in q.peers
      && Fares(r.peers[x], q.peers[x], if x == id then SessionAfterMessage(s, m, l) else r.peers[x].session,
           ClosedByMessage(r, id, m, x, l), x == id && installs)
  {
    hide Forward, BecomeAuthority, AuthorityMessageAction, MayRelay, Proves, CloseOne;
    var s := r.peers[id].session;
    var (t, action) := AuthorityMessageAction(s, m.message);
    ActionIs(s, m.message);
    var r1 := SetSession(r, id, t);
    match action
    case Ready => ReadyFares(r1, id, x);
    case SendToConsumer(sessionId, payload) => ForwardFares(r1, id, sessionId, payload, x, l);
    case Close(code) => CloseFares(r1.peers, id, {}, code, x);
    case CloseConsumer(sessionId) =>
      if sessionId in r.consumers {
        CloseFares(r1.peers, r.consumers[sessionId], {}, 4400, x);
      }
    case Nothing =>
  }

  lemma {:induction false} SameClosing(r: RoomState, id: Id, t: SocketState, m: Parsed, x: Id, l: Limits)
    requires id in r.peers
    requires var s := r.peers[id].session;
      t.role == s.role && t.authed == s.authed && t.sessionId == s.sessionId && t.signalingCount == s.signalingCount
    ensures ClosedByMessage(r.(peers := r.peers[id := r.peers[id].(session := t)]), id, m, x, l) == ClosedByMessage(r, id, m, x, l)
  {
  }

  /** A message closes, counts and registers exactly so. */
  lemma {:induction false} MessageExactly(r: RoomState, e: Event, x: Id, l: Limits)
    requires RoomInv(r, l) && Possible(r, e) && e.Message? && x in r.peers
    ensures var q := HandleMessage(r, e.id, e.frame, e.now, l);
      && q == (if Installs(r, e, l) then RoomState(Some(e.id), r.pending - {e.id}, map[], q.peers) else r.(peers := q.peers))
      && x in q.peers
      && Fares(r.peers[x], q.peers[x], if x == e.id then SessionAfter(r.peers[x].session, e.frame, e.now, l) else r.peers[x].session,
           ClosedBy(r, e, x, l), x == e.id && Installs(r, e, l))
  {
    hide HandleConsumer, HandleAuthority, GateMessage, ClosedByMessage, SessionAfterMessage, RoomInv, CloseOne, Proves, IsTooBig, IsTooOften, Counted;
    var s := r.peers[e.id].session;
    var t := GateMessage(s, e.frame.size, l, e.now).0;
    var r1 := r.(peers := r.peers[e.id := r.peers[e.id].(session := t)]);
    GateIs(s, e.frame, l, e.now);
    if Enters(r, e, l) {
      KnownIn(r, l);
      SameClosing(r, e.id, t, e.frame.parsed.value, x, l);
      if t.role.ConsumerRole? {
        ConsumerFares(r1, e.id, e.frame.parsed.value, x, l);
      } else {
        ConsumersAreNoAuthorities(r, e.id, l);
        AuthorityFares(r1, e.id, e.frame.parsed.value, x, l);
      }
    } else {
      CloseFares(r1.peers, e.id, {}, if !IsTooBig(e.frame, l) && IsTooOften(s, e.now, l) then 4429 else 4400, x);
    }
  }

  // ----- Every event -----

  predicate IsRegistered(r: RoomState, x: Id) {
    r.authority == Some(x) || x in r.pending || x in r.consumers.Values
  }

  /** The new connection of an event. */
  predicate IsNew(e: Event, x: Id) {
    (e.AuthorityConnects? || e.ConsumerConnects?) && e.id == x
  }

  /** A new connection: an allowlisted authority waits for its proof while fewer wait than may, a consumer is let in while the
      authority is there and has room; others are closed at once. */
  predicate Starts(r: RoomState, e: Event, p: Peer, l: Limits)
    requires e.AuthorityConnects? || e.ConsumerConnects?
  {
    match e
    case AuthorityConnects(id, allowlisted, now) =>
      var waits := allowlisted && |r.pending| as real < l.maxPending;
      && p.session == SocketState(AuthorityRole, false, None, now, 0, 0)
      && p.bound == waits && p.open == waits && p.timer == waits
      && p.closeCode == (if waits then 0 else if allowlisted then 4429 else 4403)
    case ConsumerConnects(id, sessionId, now) =>
      && p.session == SocketState(ConsumerRole, false, Some(sessionId), now, 0, 0)
      && p.bound && !p.timer && p.open == (HasAuthority(r) && HasRoom(r, l))
      && p.closeCode == (if p.open then 0 else if HasAuthority(r) then 4429 else 4404)
  }

  /** Who is registered after an event. */
  predicate Registers(r: RoomState, e: Event, q: RoomState, l: Limits)
    requires Possible(r, e)
  {
    match e
    case AuthorityConnects(id, allowlisted, _) =>
      && q.authority == r.authority && q.consumers == r.consumers
      && q.pending == if allowlisted && |r.pending| as real < l.maxPending then r.pending + {id} else r.pending
    case ConsumerConnects(id, sessionId, _) =>
      && q.authority == r.authority && q.pending == r.pending
      && q.consumers == if HasAuthority(r) && HasRoom(r, l) then r.consumers[sessionId := id] else r.consumers
    case Message(id, _, _) =>
      if Installs(r, e, l) then q.authority == Some(id) && q.pending == r.pending - {id} && q.consumers == map[]
      else q.authority == r.authority && q.pending == r.pending && q.consumers == r.consumers
    case SocketCloses(id) =>
      && q.authority == (if r.authority == Some(id) then None else r.authority) && q.pending == r.pending - {id}
      && (if r.peers[id].session.role.AuthorityRole? then q.consumers == map[]
          else q.consumers == map s | s in r.consumers && r.peers[id].session.sessionId != Some(s) :: r.consumers[s])
    case Shutdown => q.authority == None && q.pending == {} && q.consumers == map[]
    case _ => q.authority == r.authority && q.pending == r.pending && q.consumers == r.consumers
  }

  /** The event ends the socket by itself. */
  predicate Ends(r: RoomState, e: Event, x: Id) {
    e == SocketDies(x) || e == SocketCloses(x) || (e.Shutdown? && IsRegistered(r, x))
  }

  /** A peer after an event. */
  predicate Continues(r: RoomState, e: Event, x: Id, q: Peer, l: Limits)
    requires Possible(r, e) && x in r.peers
  {
    var p := r.peers[x];
    && q.session == (if e.Message? && e.id == x then SessionAfter(p.session, e.frame, e.now, l) else p.session)
    && q.bound == p.bound
    && q.open == (p.open && ClosedBy(r, e, x, l).None? && !Ends(r, e, x))
    && q.closeCode == (if p.open && ClosedBy(r, e, x, l).Some? && !Ends(r, e, x) then ClosedBy(r, e, x, l).value else p.closeCode)
    && q.timer == (p.timer && !(e == SocketCloses(x) || (e.Shutdown? && IsRegistered(r, x)) || (e.Message? && e.id == x && Installs(r, e, l))))
  }

  /** A room after an event, as to its registrations and one peer. */
  predicate Becomes(r: RoomState, e: Event, x: Id, q: RoomState, l: Limits)
    requires Possible(r, e)
  {
    && Registers(r, e, q, l) && (x in q.peers <==> x in r.peers || IsNew(e, x))
    && (x in r.peers ==> Continues(r, e, x, q.peers[x], l)) && (IsNew(e, x) ==> Starts(r, e, q.peers[x], l))
  }

  lemma {:induction false} AuthorityConnectsExactly(r: RoomState, e: Event, x: Id, l: Limits)
    requires Possible(r, e) && e.AuthorityConnects?
    ensures var q := AcceptAuthority(r, e.id, e.allowlisted, e.now, l); Becomes(r, e, x, q, l)
  {
  }

  lemma {:induction false} ConsumerConnectsExactly(r: RoomState, e: Event, x: Id, l: Limits)
    requires Possible(r, e) && e.ConsumerConnects?
    ensures var q := AcceptConsumer(r, e.id, e.sessionId, e.now, l); Becomes(r, e, x, q, l)
  {
    hide Send;
    if HasAuthority(r) && HasRoom(r, l) {
      var p := r.peers[e.id := Peer(NewSession(ConsumerRole, Some(e.sessionId), e.now), true, true, [], 0, false)];
      SendKeepsKeys(p, r.authority.value, ClientConnected(e.sessionId));
      if x in p {
        SendFares(p, r.authority.value, ClientConnected(e.sessionId), x);
      }
    }
  }

  lemma {:induction false} ClosedExactly(r: RoomState, e: Event, x: Id, l: Limits)
    requires RoomInv(r, l) && Possible(r, e) && e.SocketCloses? && x in r.peers
    ensures var q := HandleClosed(r, e.id); Registers(r, e, q, l) && x in q.peers && Continues(r, e, x, q.peers[x], l)
  {
    hide Send, CloseEach, RoomInv;
    var s := r.peers[e.id].session;
    var p := r.peers[e.id := r.peers[e.id].(timer := false, open := false)];
    OnlyConsumersHaveSessions(r, e.id, l);
    if s.role.AuthorityRole? {
      CloseFares(p, e.id, r.consumers.Values, 4404, x);
    } else if r.authority.Some? {
      SendFares(p, r.authority.value, ClientDisconnected(s.sessionId.value), x);
    }
  }

  lemma {:induction false} MessageBecomes(r: RoomState, e: Event, x: Id, l: Limits)
    requires RoomInv(r, l) && Possible(r, e) && e.Message?
    ensures Becomes(r, e, x, HandleMessage(r, e.id, e.frame, e.now, l), l)
  {
    hide HandleMessage, RoomInv, Enters, SessionAfter, Installs, ClosedByMessage, IsTooBig, IsTooOften;
    MessageKeepsKeys(r, e, l);
    MessageExactly(r, e, e.id, l);
    if x in r.peers {
      MessageExactly(r, e, x, l);
    }
  }

  lemma {:induction false} ClosedBecomes(r: RoomState, e: Event, x: Id, l: Limits)
    requires RoomInv(r, l) && Possible(r, e) && e.SocketCloses?
    ensures Becomes(r, e, x, HandleClosed(r, e.id), l)
  {
    hide HandleClosed, RoomInv, Registers, Continues;
    ClosedKeepsKeys(r, e.id);
    ClosedExactly(r, e, e.id, l);
    if x in r.peers {
      ClosedExactly(r, e, x, l);
    }
  }

  lemma {:induction false} TimeoutBecomes(r: RoomState, e: Event, x: Id, l: Limits)
    requires Possible(r, e) && (e.AuthTimeout? || e.SocketDies?)
    ensures Becomes(r, e, x, Step(r, e, l), l)
  {
    hide Starts, SessionAfter, IsRegistered, Installs, ClosedByMessage;
  }

  lemma {:induction false} ShutdownBecomes(r: RoomState, x: Id, l: Limits)
    ensures Becomes(r, Shutdown, x, HandleShutdown(r), l)
  {
    hide Starts, SessionAfter, Installs, ClosedByMessage;
  }

  /** Every event registers, closes, counts and stops timers exactly so. */
  lemma {:induction false} StepExactly(r: RoomState, e: Event, x: Id, l: Limits)
    requires RoomInv(r, l) && Possible(r, e)
    ensures Becomes(r, e, x, Step(r, e, l), l)
  {
    hide HandleMessage, HandleClosed, AcceptAuthority, AcceptConsumer, RoomInv, Becomes;
    match e
    case Message(_, _, _) => MessageBecomes(r, e, x, l);
    case SocketCloses(_) => ClosedBecomes(r, e, x, l);
    case AuthorityConnects(_, _, _) => AuthorityConnectsExactly(r, e, x, l);
    case ConsumerConnects(_, _, _) => ConsumerConnectsExactly(r, e, x, l);
    case Shutdown => ShutdownBecomes(r, x, l);
    case _ => TimeoutBecomes(r, e, x, l);
  }

  // ----- Who comes to be the authority -----

  /** A connection of an authority is listened to only if it was allowlisted. */
  lemma {:induction false} BoundWasAllowlisted(events: seq<Event>, x: Id, l: Limits) returns (j: nat)
    requires PossibleRun(events, l) && l.maxClients >= 0.0 && l.maxPending >= 0.0
    requires var r := Run(events, l); x in r.peers && r.peers[x].bound && r.peers[x].session.role.AuthorityRole?
    ensures j < |events| && events[j].AuthorityConnects? && events[j].id == x && events[j].allowlisted
    decreases |events|
  {
    hide Step, Possible, RoomInv, Registers, SessionAfter, Installs, ClosedBy, IsRegistered;
    j := |events| - 1;
    var before, e := events[..j], events[j];
    RoomInvHolds(before, l);
    StepExactly(Run(before, l), e, x, l);
    if x in Run(before, l).peers {
      if e.Message? {
        RoleStays(Run(before, l), e, x, l);
      }
      j := BoundWasAllowlisted(before, x, l);
    }
  }

  lemma {:induction false} RoleStays(r: RoomState, e: Event, x: Id, l: Limits)
    requires x in r.peers && e.Message?
    ensures SessionAfter(r.peers[x].session, e.frame, e.now, l).role == r.peers[x].session.role
  {
    hide Proves, Spent;
  }

  /** In every run, the authority is an allowlisted connection that has proved with a good signature that it is, and nobody has
      done so since. */
  lemma {:induction false} AuthorityProved(events: seq<Event>, l: Limits) returns (j: nat, k: nat)
    requires PossibleRun(events, l) && l.maxClients >= 0.0 && l.maxPending >= 0.0 && Run(events, l).authority.Some?
    ensures var x := Run(events, l).authority.value;
      && j < k < |events| && events[j].AuthorityConnects? && events[j].id == x && events[j].allowlisted
      && PossibleRun(events[..k], l) && Installs(Run(events[..k], l), events[k], l) && events[k].id == x
      && forall i :: k < i < |events| ==> PossibleRun(events[..i], l) && !Installs(Run(events[..i], l), events[i], l)
    decreases |events|
  {
    hide Step, Possible, RoomInv, Becomes, Installs;
    var n := |events| - 1;
    var before, e := events[..n], events[n];
    var x := Run(events, l).authority.value;
    RoomInvHolds(before, l);
    StepExactly(Run(before, l), e, x, l);
    AuthorityComes(Run(before, l), e, x, Run(events, l), l);
    if Installs(Run(before, l), e, l) {
      k := n;
      InstallerIsBound(Run(before, l), e, l);
      j := BoundWasAllowlisted(before, x, l);
    } else {
      j, k := AuthorityProved(before, l);
      assert before[..k] == events[..k];
      forall i | k < i < |events|
        ensures PossibleRun(events[..i], l) && !Installs(Run(events[..i], l), events[i], l)
      {
        if i < n {
          assert before[..i] == events[..i];
        }
      }
    }
  }

  lemma {:induction false} AuthorityComes(r: RoomState, e: Event, x: Id, q: RoomState, l: Limits)
    requires Possible(r, e) && Becomes(r, e, x, q, l) && q.authority == Some(x)
    ensures if Installs(r, e, l) then e.Message? && e.id == x else r.authority == Some(x)
  {
    hide Starts, SessionAfter, ClosedByMessage, Continues, IsTooBig, IsTooOften;
  }

  lemma {:induction false} InstallerIsBound(r: RoomState, e: Event, l: Limits)
    requires Possible(r, e) && Installs(r, e, l)
    ensures e.Message? && e.id in r.peers && r.peers[e.id].bound && r.peers[e.id].session.role.AuthorityRole?
  {
  }
}
