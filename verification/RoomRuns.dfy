/** What holds in every reachable state of a room. */
module RoomRuns {
  import opened Lists
  import opened Options
  import opened BridgeLogic
  import opened RoomSpec

  // ----- Changes that touch no registration -----

  /** The same peers with the same identities; nothing said is unsaid and no timer starts. */
  predicate Gentle(p: map<Id, Peer>, q: map<Id, Peer>) {
    && p.Keys == q.Keys
    && forall id :: id in p ==> GentlePeer(p[id], q[id])
  }

  predicate GentlePeer(p: Peer, q: Peer) {
    && q.session.role == p.session.role && q.session.authed == p.session.authed && q.session.sessionId == p.session.sessionId
    && (q.timer ==> p.timer)
    && p.sent <= q.sent
  }

  lemma {:induction false} GentleTwice(p: map<Id, Peer>, q: map<Id, Peer>, r: map<Id, Peer>)
    requires Gentle(p, q) && Gentle(q, r)
    ensures Gentle(p, r)
  {
    forall id | id in p
      ensures GentlePeer(p[id], r[id])
    {
      assert GentlePeer(p[id], q[id]) && GentlePeer(q[id], r[id]);
    }
  }

  lemma {:induction false} SendIsGentle(p: map<Id, Peer>, id: Id, o: Out)
    ensures Gentle(p, Send(p, id, o))
  {
  }

  lemma {:induction false} CloseIsGentle(p: map<Id, Peer>, id: Id, ids: set<Id>, code: nat)
    ensures Gentle(p, CloseOne(p, id, code)) && Gentle(p, CloseEach(p, ids, code))
  {
  }

  lemma {:induction false} CountersAreGentle(p: map<Id, Peer>, id: Id, s: SocketState)
    requires id in p && s.role == p[id].session.role && s.authed == p[id].session.authed && s.sessionId == p[id].session.sessionId
    ensures Gentle(p, p[id := p[id].(session := s)])
  {
  }

  lemma {:induction false} GentleKeeps(r: RoomState, peers: map<Id, Peer>, l: Limits)
    requires RoomInv(r, l) && Gentle(r.peers, peers)
    ensures RoomInv(r.(peers := peers), l)
  {
    var q := r.(peers := peers);
    assert PeersInv(q) by {
      forall id | id in peers
        ensures GentlePeer(r.peers[id], peers[id])
      {
      }
    }
    assert AuthoritiesInv(q, l) by {
      forall id | id in peers
        ensures GentlePeer(r.peers[id], peers[id])
      {
      }
    }
    assert ConsumersInv(q, l) by {
      forall id | id in peers
        ensures GentlePeer(r.peers[id], peers[id])
      {
      }
    }
  }

  // ----- Each event keeps the invariant -----

  lemma {:induction false} NewPeerKeeps(r: RoomState, id: Id, p: Peer, l: Limits)
    requires RoomInv(r, l) && id !in r.peers && !p.timer && !p.session.authed
    requires p.session.role.ConsumerRole? <==> p.session.sessionId.Some?
    ensures RoomInv(r.(peers := r.peers[id := p]), l)
  {
    var q := r.(peers := r.peers[id := p]);
    assert id !in r.pending && r.authority != Some(id);
    assert Known(q);
  }

  /** The room with one more pending peer, its timer running. */
  function Pend(r: RoomState, id: Id): RoomState
    requires id in r.peers
  {
    r.(pending := r.pending + {id}, peers := r.peers[id := r.peers[id].(timer := true)])
  }

  lemma {:induction false} PendKeepsPeers(r: RoomState, id: Id)
    requires PeersInv(r) && id in r.peers
    ensures PeersInv(Pend(r, id))
  {
  }

  lemma {:induction false} PendKeepsAuthorities(r: RoomState, id: Id, l: Limits)
    requires Known(r) && AuthoritiesInv(r, l) && id in r.peers && r.authority != Some(id)
    requires r.peers[id].session.role.AuthorityRole? && !r.peers[id].session.authed
    requires |r.pending| as real < l.maxPending && id !in r.pending
    ensures Known(Pend(r, id)) && AuthoritiesInv(Pend(r, id), l)
  {
    assert |r.pending + {id}| == |r.pending| + 1;
  }

  lemma {:induction false} PendKeepsConsumers(r: RoomState, id: Id, l: Limits)
    requires Known(r) && ConsumersInv(r, l) && id in r.peers
    ensures Known(Pend(r, id)) && ConsumersInv(Pend(r, id), l)
  {
  }

  lemma {:induction false} PendKeeps(r: RoomState, id: Id, l: Limits)
    requires RoomInv(r, l) && id in r.peers && id !in r.pending && r.authority != Some(id)
    requires r.peers[id].session.role.AuthorityRole? && !r.peers[id].session.authed
    requires |r.pending| as real < l.maxPending
    ensures RoomInv(Pend(r, id), l)
  {
    PeersAreKnown(r);
    PendKeepsPeers(r, id);
    hide PeersInv, AuthoritiesInv, ConsumersInv, Known, Pend;
    PendKeepsAuthorities(r, id, l);
    PendKeepsConsumers(r, id, l);
  }

  lemma {:induction false} PeersAreKnown(r: RoomState)
    requires PeersInv(r)
    ensures Known(r)
  {
  }

  lemma {:induction false} AcceptAuthorityKeeps(r: RoomState, id: Id, allowlisted: bool, now: int, l: Limits)
    requires RoomInv(r, l) && id !in r.peers
    ensures RoomInv(AcceptAuthority(r, id, allowlisted, now, l), l)
  {
    var s := NewSession(AuthorityRole, None, now);
    var p := if !allowlisted then Peer(s, false, false, [], 4403, false)
             else if |r.pending| as real >= l.maxPending then Peer(s, false, false, [], 4429, false)
             else Peer(s, true, true, [Challenge], 0, false);
    NewPeerKeeps(r, id, p, l);
    RegisteredAreKnown(r, id, l);
    if allowlisted && |r.pending| as real < l.maxPending {
      hide RoomInv;
      var r1 := r.(peers := r.peers[id := p]);
      PendKeeps(r1, id, l);
      assert r1.peers[id := p.(timer := true)] == r.peers[id := p.(timer := true)];
      assert Pend(r1, id) == AcceptAuthority(r, id, allowlisted, now, l);
    }
  }

  lemma {:induction false} RegisteredAreKnown(r: RoomState, id: Id, l: Limits)
    requires RoomInv(r, l) && id !in r.peers
    ensures id !in r.pending && r.authority != Some(id)
  {
  }

  lemma {:induction false} RegisterKeepsConsumers(r: RoomState, id: Id, sessionId: string, l: Limits)
    requires Known(r) && ConsumersInv(r, l) && id in r.peers && r.authority.Some?
    requires r.peers[id].session.sessionId == Some(sessionId) && sessionId !in r.consumers
    requires ClientConnected(sessionId) in r.peers[r.authority.value].sent
    requires (|r.consumers| + 1) as real <= l.maxClients
    ensures var q := r.(consumers := r.consumers[sessionId := id]); Known(q) && ConsumersInv(q, l)
  {
    var q := r.(consumers := r.consumers[sessionId := id]);
    assert |q.consumers| == |r.consumers| + 1 by {
      assert q.consumers.Keys == r.consumers.Keys + {sessionId};
    }
  }

  lemma {:induction false} RegisterKeeps(r: RoomState, id: Id, sessionId: string, l: Limits)
    requires RoomInv(r, l) && id in r.peers && r.authority.Some?
    requires r.peers[id].session.sessionId == Some(sessionId) && sessionId !in r.consumers
    requires ClientConnected(sessionId) in r.peers[r.authority.value].sent
    requires (|r.consumers| + 1) as real <= l.maxClients
    ensures RoomInv(r.(consumers := r.consumers[sessionId := id]), l)
  {
    var q := r.(consumers := r.consumers[sessionId := id]);
    PeersAreKnown(r);
    RegisterKeepsConsumers(r, id, sessionId, l);
    RegistrationIsNoPeerMatter(r, q);
    AuthoritiesStay(r, q, l);
    hide PeersInv, AuthoritiesInv, ConsumersInv, Known;
  }

  lemma {:induction false} AuthoritiesStay(r: RoomState, q: RoomState, l: Limits)
    requires Known(r) && Known(q) && AuthoritiesInv(r, l) && q.peers == r.peers && q.pending <= r.pending
    requires q.authority == r.authority || q.authority.None?
    ensures AuthoritiesInv(q, l)
  {
    SubsetSize(q.pending, r.pending);
  }

  lemma {:induction false} RegistrationIsNoPeerMatter(r: RoomState, q: RoomState)
    requires PeersInv(r) && q.peers == r.peers && Known(q)
    requires forall id :: id in r.pending && r.peers[id].timer ==> id in q.pending
    ensures PeersInv(q)
  {
  }

  lemma {:induction false} AcceptConsumerKeeps(r: RoomState, id: Id, sessionId: string, now: int, l: Limits)
    requires RoomInv(r, l) && Possible(r, ConsumerConnects(id, sessionId, now))
    ensures RoomInv(AcceptConsumer(r, id, sessionId, now, l), l)
  {
    hide RoomInv;
    var p := Peer(NewSession(ConsumerRole, Some(sessionId), now), true, true, [], 0, false);
    var decision := ConnectDecision(Online(r), |r.consumers| + 1, l);
    if decision == 4404 {
      NewPeerKeeps(r, id, CloseSocket(SendTo(p, OfflineNotice), 4404), l);
    } else if decision != 0 {
      NewPeerKeeps(r, id, CloseSocket(p, decision), l);
    } else {
      var a := r.authority.value;
      var r1 := r.(peers := r.peers[id := p]);
      var r2 := r1.(peers := Send(r1.peers, a, ClientConnected(sessionId)));
      NewPeerKeeps(r, id, p, l);
      SendIsGentle(r1.peers, a, ClientConnected(sessionId));
      GentleKeeps(r1, r2.peers, l);
      SessionIsNew(r, sessionId, l);
      assert r2.peers[a].sent == r.peers[a].sent + [ClientConnected(sessionId)];
      RegisterKeeps(r2, id, sessionId, l);
    }
  }

  lemma {:induction false} SessionIsNew(r: RoomState, sessionId: string, l: Limits)
    requires RoomInv(r, l) && forall x :: x in r.peers ==> r.peers[x].session.sessionId != Some(sessionId)
    ensures sessionId !in r.consumers
  {
  }

  /** The room after a peer has proved to be the authority, before anything is sent or closed. */
  function Installed(r: RoomState, id: Id): RoomState
    requires id in r.peers
  {
    RoomState(Some(id), r.pending - {id}, map[],
      r.peers[id := r.peers[id].(session := r.peers[id].session.(authed := true), timer := false)])
  }

  lemma {:induction false} ReadyKeepsPeers(r: RoomState, id: Id)
    requires PeersInv(r) && id in r.peers && r.peers[id].session.role.AuthorityRole?
    ensures PeersInv(Installed(r, id))
  {
  }

  lemma {:induction false} ReadyKeepsAuthorities(r: RoomState, id: Id, l: Limits)
    requires Known(r) && AuthoritiesInv(r, l) && id in r.peers && r.peers[id].session.role.AuthorityRole?
    ensures Known(Installed(r, id)) && AuthoritiesInv(Installed(r, id), l)
  {
    SubsetSize(r.pending - {id}, r.pending);
  }

  lemma {:induction false} ReadyKeeps(r: RoomState, id: Id, l: Limits)
    requires RoomInv(r, l) && id in r.peers && r.peers[id].session.role.AuthorityRole? && l.maxClients >= 0.0
    ensures RoomInv(Installed(r, id), l)
  {
    PeersAreKnown(r);
    ReadyKeepsPeers(r, id);
    ReadyKeepsAuthorities(r, id, l);
    assert ConsumersInv(Installed(r, id), l);
    hide PeersInv, AuthoritiesInv, ConsumersInv, Known;
  }

  lemma {:induction false} HandleReadyKeeps(r: RoomState, id: Id, m: BridgeLogic.Message, l: Limits)
    requires RoomInv(r, l) && id in r.peers && r.peers[id].session.role.AuthorityRole? && l.maxClients >= 0.0
    requires AuthorityMessageAction(r.peers[id].session, m).1.Ready?
    ensures RoomInv(HandleAuthority(r, id, m, l), l)
  {
    hide RoomInv, Gentle, Send, CloseOne, CloseEach;
    var s := r.peers[id].session.(authed := true);
    var named := SetSession(r, id, s).peers;
    var disarmed := named[id := named[id].(timer := false)];
    assert disarmed == r.peers[id := r.peers[id].(session := s, timer := false)];
    var r1 := Installed(r, id);
    ReadyKeeps(r, id, l);
    var stale := r.authority.Some? && r.authority.value != id;
    var replaced := if stale then CloseOne(disarmed, r.authority.value, 4409) else disarmed;
    GentleSelf(disarmed);
    if stale {
      CloseIsGentle(disarmed, r.authority.value, {}, 4409);
    }
    var evicted := CloseEach(replaced, r.consumers.Values, 4404);
    CloseIsGentle(replaced, id, r.consumers.Values, 4404);
    SendIsGentle(evicted, id, ReadyNotice);
    GentleTwice(disarmed, replaced, evicted);
    GentleTwice(disarmed, evicted, Send(evicted, id, ReadyNotice));
    GentleKeeps(r1, Send(evicted, id, ReadyNotice), l);
  }

  lemma {:induction false} HandleAuthorityKeeps(r: RoomState, id: Id, m: BridgeLogic.Message, l: Limits)
    requires RoomInv(r, l) && id in r.peers && r.peers[id].session.role.AuthorityRole? && l.maxClients >= 0.0
    ensures RoomInv(HandleAuthority(r, id, m, l), l)
  {
    hide RoomInv, Gentle, Send, CloseOne, CloseEach;
    var s0 := r.peers[id].session;
    var (s, action) := AuthorityMessageAction(s0, m);
    if action.Ready? {
      HandleReadyKeeps(r, id, m, l);
    } else {
      HandleAuthorityIsGentle(r, id, m, l);
      GentleKeeps(r, HandleAuthority(r, id, m, l).peers, l);
    }
  }

  lemma {:induction false} GentleSelf(p: map<Id, Peer>)
    ensures Gentle(p, p)
  {
  }

  lemma {:induction false} RefusalIsGentle(r: RoomState, id: Id, code: nat)
    ensures Gentle(r.peers, Refuse(r, id, code).peers)
  {
    hide Gentle, Send, CloseOne;
    var p := Send(r.peers, id, RelayDisabled);
    SendIsGentle(r.peers, id, RelayDisabled);
    CloseIsGentle(p, id, {}, code);
    GentleTwice(r.peers, p, CloseOne(p, id, code));
  }

  lemma {:induction false} ForwardIsGentle(r: RoomState, id: Id, sessionId: string, payload: Payload, l: Limits)
    requires id in r.peers
    ensures Forward(r, id, sessionId, payload, l) == r.(peers := Forward(r, id, sessionId, payload, l).peers)
    ensures Gentle(r.peers, Forward(r, id, sessionId, payload, l).peers)
  {
    hide Gentle, Send, CloseOne;
    var (s, gate) := RelayPayloadGate(r.peers[id].session, payload, l);
    var r1 := SetSession(r, id, s);
    CountersAreGentle(r.peers, id, s);
    if gate.Reject? {
      RefusalIsGentle(r1, id, gate.code);
      GentleTwice(r.peers, r1.peers, Refuse(r1, id, gate.code).peers);
    } else if sessionId in r.consumers {
      SendIsGentle(r1.peers, r.consumers[sessionId], Forwarded(payload));
      GentleTwice(r.peers, r1.peers, Send(r1.peers, r.consumers[sessionId], Forwarded(payload)));
    }
  }

  lemma {:induction false} HandleAuthorityIsGentle(r: RoomState, id: Id, m: BridgeLogic.Message, l: Limits)
    requires id in r.peers && !AuthorityMessageAction(r.peers[id].session, m).1.Ready?
    ensures HandleAuthority(r, id, m, l) == r.(peers := HandleAuthority(r, id, m, l).peers)
    ensures Gentle(r.peers, HandleAuthority(r, id, m, l).peers)
  {
    hide Gentle, Send, CloseOne, CloseEach, Forward, BecomeAuthority;
    var (s, action) := AuthorityMessageAction(r.peers[id].session, m);
    assert s == r.peers[id].session;
    match action
    case Close(code) =>
      var p := r.peers[id := r.peers[id].(session := s)];
      CountersAreGentle(r.peers, id, s);
      CloseIsGentle(p, id, {}, code);
      GentleTwice(r.peers, p, CloseOne(p, id, code));
    case SendToConsumer(sessionId, payload) =>
      var r1 := SetSession(r, id, s);
      CountersAreGentle(r.peers, id, s);
      ForwardIsGentle(r1, id, sessionId, payload, l);
      GentleTwice(r.peers, r1.peers, Forward(r1, id, sessionId, payload, l).peers);
    case CloseConsumer(sessionId) =>
      var p := r.peers[id := r.peers[id].(session := s)];
      CountersAreGentle(r.peers, id, s);
      if sessionId in r.consumers {
        CloseIsGentle(p, r.consumers[sessionId], {}, 4400);
        GentleTwice(r.peers, p, CloseOne(p, r.consumers[sessionId], 4400));
      }
    case _ => CountersAreGentle(r.peers, id, s);
  }

  lemma {:induction false} HandleConsumerIsGentle(r: RoomState, id: Id, payload: Payload, l: Limits)
    requires id in r.peers
    ensures HandleConsumer(r, id, payload, l) == r.(peers := HandleConsumer(r, id, payload, l).peers)
    ensures Gentle(r.peers, HandleConsumer(r, id, payload, l).peers)
  {
    hide Gentle, Send, CloseOne;
    var (s, gate) := RelayPayloadGate(r.peers[id].session, payload, l);
    var p := r.peers[id := r.peers[id].(session := s)];
    CountersAreGentle(r.peers, id, s);
    if gate.Reject? {
      var r1 := SetSession(r, id, s);
      RefusalIsGentle(r1, id, gate.code);
      GentleTwice(r.peers, p, Refuse(r1, id, gate.code).peers);
    } else if r.authority.Some? && s.sessionId.Some? {
      SendIsGentle(p, r.authority.value, ClientMessage(s.sessionId.value, payload));
      GentleTwice(r.peers, p, Send(p, r.authority.value, ClientMessage(s.sessionId.value, payload)));
    }
  }

  lemma {:induction false} HandleMessageKeeps(r: RoomState, id: Id, frame: Frame, now: int, l: Limits)
    requires RoomInv(r, l) && id in r.peers && l.maxClients >= 0.0
    ensures RoomInv(HandleMessage(r, id, frame, now, l), l)
  {
    hide RoomInv, Gentle, CloseOne, HandleConsumer, HandleAuthority;
    var (s, gate) := GateMessage(r.peers[id].session, frame.size, l, now);
    var r1 := r.(peers := r.peers[id := r.peers[id].(session := s)]);
    CountersAreGentle(r.peers, id, s);
    GentleKeeps(r, r1.peers, l);
    if gate.Reject? || frame.parsed.None? {
      var code := if gate.Reject? then gate.code else 4400;
      CloseIsGentle(r1.peers, id, {}, code);
      GentleKeeps(r1, CloseOne(r1.peers, id, code), l);
    } else if s.role.ConsumerRole? {
      HandleConsumerIsGentle(r1, id, frame.parsed.value.payload, l);
      GentleKeeps(r1, HandleConsumer(r1, id, frame.parsed.value.payload, l).peers, l);
    } else {
      HandleAuthorityKeeps(r1, id, frame.parsed.value.message, l);
    }
  }

  lemma {:induction false} RemoveKeepsConsumers(r: RoomState, q: RoomState, l: Limits)
    requires Known(r) && ConsumersInv(r, l) && l.maxClients >= 0.0 && q.peers == r.peers && q.pending <= r.pending
    requires forall s :: s in q.consumers ==> s in r.consumers && q.consumers[s] == r.consumers[s]
    requires q.authority == r.authority || (q.authority.None? && q.consumers == map[])
    ensures Known(q) && ConsumersInv(q, l)
  {
    assert q.consumers.Keys <= r.consumers.Keys;
    SubsetSize(q.consumers.Keys, r.consumers.Keys);
  }

  /** Deregistering keeps the invariant, as long as consumers are evicted with their authority. */
  lemma {:induction false} RemoveKeeps(r: RoomState, id: Id, consumers: map<string, Id>, l: Limits)
    requires RoomInv(r, l) && id in r.peers && l.maxClients >= 0.0 && !r.peers[id].timer
    requires forall s :: s in consumers ==> s in r.consumers && consumers[s] == r.consumers[s]
    requires r.authority == Some(id) ==> consumers == map[]
    ensures RoomInv(RoomState(if r.authority == Some(id) then None else r.authority, r.pending - {id}, consumers, r.peers), l)
  {
    var q := RoomState(if r.authority == Some(id) then None else r.authority, r.pending - {id}, consumers, r.peers);
    PeersAreKnown(r);
    RemoveKeepsConsumers(r, q, l);
    RegistrationIsNoPeerMatter(r, q);
    AuthoritiesStay(r, q, l);
    hide PeersInv, AuthoritiesInv, ConsumersInv, Known;
  }

  lemma {:induction false} DeregisterKeeps(r: RoomState, id: Id, consumers: map<string, Id>, l: Limits)
    requires RoomInv(r, l) && id in r.peers && l.maxClients >= 0.0
    requires forall s :: s in consumers ==> s in r.consumers && consumers[s] == r.consumers[s]
    requires r.authority == Some(id) ==> consumers == map[]
    ensures RoomInv(RoomState(if r.authority == Some(id) then None else r.authority, r.pending - {id}, consumers,
      r.peers[id := r.peers[id].(timer := false, open := false)]), l)
  {
    hide RoomInv;
    var peers := r.peers[id := r.peers[id].(timer := false, open := false)];
    assert Gentle(r.peers, peers);
    GentleKeeps(r, peers, l);
    RemoveKeeps(r.(peers := peers), id, consumers, l);
  }

  lemma {:induction false} HandleClosedKeeps(r: RoomState, id: Id, l: Limits)
    requires RoomInv(r, l) && id in r.peers && l.maxClients >= 0.0
    ensures RoomInv(HandleClosed(r, id), l)
  {
    var s := r.peers[id].session;
    var peers := r.peers[id := r.peers[id].(timer := false, open := false)];
    var consumers := Without(r.consumers, s.sessionId);
    var authority := if r.authority == Some(id) then None else r.authority;
    hide Gentle, Send, CloseEach;
    if s.role.AuthorityRole? {
      DeregisterKeeps(r, id, map[], l);
      CloseIsGentle(peers, id, consumers.Values, 4404);
      GentleKeeps(RoomState(authority, r.pending - {id}, map[], peers), CloseEach(peers, consumers.Values, 4404), l);
    } else {
      DeregisterKeeps(r, id, consumers, l);
      if authority.Some? && s.sessionId.Some? {
        SendIsGentle(peers, authority.value, ClientDisconnected(s.sessionId.value));
        GentleKeeps(RoomState(authority, r.pending - {id}, consumers, peers),
          Send(peers, authority.value, ClientDisconnected(s.sessionId.value)), l);
      }
    }
  }

  lemma {:induction false} ShutdownKeeps(r: RoomState, l: Limits)
    requires RoomInv(r, l) && l.maxClients >= 0.0 && l.maxPending >= 0.0
    ensures RoomInv(HandleShutdown(r), l)
  {
  }

  lemma {:induction false} StepKeeps(r: RoomState, e: Event, l: Limits)
    requires RoomInv(r, l) && Possible(r, e) && l.maxClients >= 0.0 && l.maxPending >= 0.0
    ensures RoomInv(Step(r, e, l), l)
  {
    hide RoomInv, HandleMessage, HandleClosed, HandleShutdown, AcceptAuthority, AcceptConsumer, Gentle, CloseOne;
    match e
    case AuthorityConnects(id, allowlisted, now) => AcceptAuthorityKeeps(r, id, allowlisted, now, l);
    case ConsumerConnects(id, sessionId, now) => AcceptConsumerKeeps(r, id, sessionId, now, l);
    case Message(id, frame, now) => HandleMessageKeeps(r, id, frame, now, l);
    case SocketDies(id) =>
      DeadIsGentle(r.peers, id);
      GentleKeeps(r, r.peers[id := r.peers[id].(open := false)], l);
    case SocketCloses(id) => HandleClosedKeeps(r, id, l);
    case AuthTimeout(id) =>
      if r.peers[id].timer {
        CloseIsGentle(r.peers, id, {}, 4408);
        GentleKeeps(r, CloseOne(r.peers, id, 4408), l);
      }
    case Shutdown => ShutdownKeeps(r, l);
  }

  lemma {:induction false} DeadIsGentle(p: map<Id, Peer>, id: Id)
    requires id in p
    ensures Gentle(p, p[id := p[id].(open := false)])
  {
  }

  /** The invariant holds in every reachable state. */
  lemma {:induction false} RoomInvHolds(events: seq<Event>, l: Limits)
    requires PossibleRun(events, l) && l.maxClients >= 0.0 && l.maxPending >= 0.0
    ensures RoomInv(Run(events, l), l)
    decreases |events|
  {
    hide RoomInv, Step, Possible;
    if events == [] {
      EmptyInv(l);
    } else {
      RoomInvHolds(events[..|events| - 1], l);
      StepKeeps(Run(events[..|events| - 1], l), events[|events| - 1], l);
    }
  }

  lemma {:induction false} EmptyInv(l: Limits)
    requires l.maxClients >= 0.0 && l.maxPending >= 0.0
    ensures RoomInv(EMPTY, l)
  {
  }
}
