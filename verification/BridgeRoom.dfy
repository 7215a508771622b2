/** The room of one authority on the bridge, as functions of its state. Peers are named by numbers; `peers` holds
    what is known of each. */
module RoomSpec {
  import opened Options
  import opened BridgeLogic

  type Id = nat

  datatype Out =
    | Challenge
    | ReadyNotice
    | OfflineNotice
    | RelayDisabled
    | ClientConnected(sessionId: string)
    | ClientDisconnected(sessionId: string)
    | ClientMessage(sessionId: string, payload: Payload)
    | Forwarded(payload: Payload)

  /** A connection: its session record, its socket with everything sent on it, and its authentication timer. */
  datatype Peer = Peer(session: SocketState, bound: bool, open: bool, sent: seq<Out>, closeCode: nat, timer: bool)

  /** An incoming frame: its size, and if it is JSON, what it says to either kind of handler. */
  datatype Frame = Frame(size: nat, parsed: Option<Parsed>)

  datatype Parsed = Parsed(message: Message, payload: Payload)

  datatype RoomState = RoomState(authority: Option<Id>, pending: set<Id>, consumers: map<string, Id>, peers: map<Id, Peer>)

  const EMPTY := RoomState(None, {}, map[], map[])

  function SendTo(p: Peer, o: Out): Peer {
    if p.open then p.(sent := p.sent + [o]) else p
  }

  function CloseSocket(p: Peer, code: nat): Peer {
    if p.open then p.(open := false, closeCode := code) else p
  }

  function Send(peers: map<Id, Peer>, id: Id, o: Out): map<Id, Peer> {
    if id in peers then peers[id := SendTo(peers[id], o)] else peers
  }

  function CloseOne(peers: map<Id, Peer>, id: Id, code: nat): map<Id, Peer> {
    if id in peers then peers[id := CloseSocket(peers[id], code)] else peers
  }

  function CloseEach(peers: map<Id, Peer>, ids: set<Id>, code: nat): map<Id, Peer> {
    map id | id in peers :: if id in ids then CloseSocket(peers[id], code) else peers[id]
  }

  predicate Online(r: RoomState) {
    r.authority.Some? && r.authority.value in r.peers && r.peers[r.authority.value].open
  }

  function NewSession(role: Role, sessionId: Option<string>, now: int): SocketState {
    SocketState(role, false, sessionId, now, 0, 0)
  }

  // ----- The handlers as functions of the room -----

  function AcceptAuthority(r: RoomState, id: Id, allowlisted: bool, now: int, l: Limits): RoomState {
    var s := NewSession(AuthorityRole, None, now);
    if !allowlisted then r.(peers := r.peers[id := Peer(s, false, false, [], 4403, false)])
    else if |r.pending| as real >= l.maxPending then r.(peers := r.peers[id := Peer(s, false, false, [], 4429, false)])
    else r.(pending := r.pending + {id}, peers := r.peers[id := Peer(s, true, true, [Challenge], 0, true)])
  }

  function AcceptConsumer(r: RoomState, id: Id, sessionId: string, now: int, l: Limits): RoomState {
    var p := Peer(NewSession(ConsumerRole, Some(sessionId), now), true, true, [], 0, false);
    var decision := ConnectDecision(Online(r), |r.consumers| + 1, l);
    if decision == 4404 then r.(peers := r.peers[id := CloseSocket(SendTo(p, OfflineNotice), 4404)])
    else if decision != 0 then r.(peers := r.peers[id := CloseSocket(p, decision)])
    else
      r.(consumers := r.consumers[sessionId := id],
         peers := Send(r.peers[id := p], r.authority.value, ClientConnected(sessionId)))
  }

  function SetSession(r: RoomState, id: Id, s: SocketState): RoomState
    requires id in r.peers
  {
    r.(peers := r.peers[id := r.peers[id].(session := s)])
  }

  /** A peer has proved to be the authority: it replaces the one before and starts without consumers. */
  function BecomeAuthority(r: RoomState, id: Id): RoomState
    requires id in r.peers
  {
    var disarmed := r.peers[id := r.peers[id].(timer := false)];
    var replaced := if r.authority.Some? && r.authority.value != id then CloseOne(disarmed, r.authority.value, 4409) else disarmed;
    RoomState(Some(id), r.pending - {id}, map[], Send(CloseEach(replaced, r.consumers.Values, 4404), id, ReadyNotice))
  }

  function Refuse(r: RoomState, id: Id, code: nat): RoomState {
    r.(peers := CloseOne(Send(r.peers, id, RelayDisabled), id, code))
  }

  function Forward(r: RoomState, id: Id, sessionId: string, payload: Payload, l: Limits): RoomState
    requires id in r.peers
  {
    var (s, gate) := RelayPayloadGate(r.peers[id].session, payload, l);
    var r1 := SetSession(r, id, s);
    if gate.Reject? then Refuse(r1, id, gate.code)
    else if sessionId in r.consumers then r1.(peers := Send(r1.peers, r.consumers[sessionId], Forwarded(payload)))
    else r1
  }

  function HandleAuthority(r: RoomState, id: Id, m: Message, l: Limits): RoomState
    requires id in r.peers
  {
    var (s, action) := AuthorityMessageAction(r.peers[id].session, m);
    var r1 := SetSession(r, id, s);
    match action
    case Close(code) => r1.(peers := CloseOne(r1.peers, id, code))
    case Ready => BecomeAuthority(r1, id)
    case SendToConsumer(sessionId, payload) => Forward(r1, id, sessionId, payload, l)
    case CloseConsumer(sessionId) =>
      if sessionId in r.consumers then r1.(peers := CloseOne(r1.peers, r.consumers[sessionId], 4400)) else r1
    case Nothing => r1
  }

  function HandleConsumer(r: RoomState, id: Id, payload: Payload, l: Limits): RoomState
    requires id in r.peers
  {
    var (s, gate) := RelayPayloadGate(r.peers[id].session, payload, l);
    var r1 := SetSession(r, id, s);
    if gate.Reject? then Refuse(r1, id, gate.code)
    else if r.authority.Some? && s.sessionId.Some?
    then r1.(peers := Send(r1.peers, r.authority.value, ClientMessage(s.sessionId.value, payload)))
    else r1
  }

  function HandleMessage(r: RoomState, id: Id, frame: Frame, now: int, l: Limits): RoomState
    requires id in r.peers
  {
    var (s, gate) := GateMessage(r.peers[id].session, frame.size, l, now);
    var r1 := SetSession(r, id, s);
    if gate.Reject? then r1.(peers := CloseOne(r1.peers, id, gate.code))
    else if frame.parsed.None? then r1.(peers := CloseOne(r1.peers, id, 4400))
    else if s.role.ConsumerRole? then HandleConsumer(r1, id, frame.parsed.value.payload, l)
    else HandleAuthority(r1, id, frame.parsed.value.message, l)
  }

  function Without(consumers: map<string, Id>, sessionId: Option<string>): map<string, Id> {
    if sessionId.Some? then consumers - {sessionId.value} else consumers
  }

  function HandleClosed(r: RoomState, id: Id): RoomState
    requires id in r.peers
  {
    var s := r.peers[id].session;
    var peers := r.peers[id := r.peers[id].(timer := false, open := false)];
    var pending := r.pending - {id};
    var authority := if r.authority == Some(id) then None else r.authority;
    var consumers := Without(r.consumers, s.sessionId);
    match DisconnectAction(s)
    case EvictConsumers => RoomState(authority, pending, map[], CloseEach(peers, consumers.Values, 4404))
    case NotifyAuthority(sessionId) =>
      RoomState(authority, pending, consumers,
        if authority.Some? then Send(peers, authority.value, ClientDisconnected(sessionId)) else peers)
    case NoAction => RoomState(authority, pending, consumers, peers)
  }

  function Terminated(peers: map<Id, Peer>, ids: set<Id>): map<Id, Peer> {
    map id | id in peers :: if id in ids then peers[id].(open := false, timer := false) else peers[id]
  }

  function HandleShutdown(r: RoomState): RoomState {
    var ids := r.pending + r.consumers.Values + (if r.authority.Some? then {r.authority.value} else {});
    RoomState(None, {}, map[], Terminated(r.peers, ids))
  }

  /** Every registered peer is in the table. */
  predicate Known(r: RoomState) {
    && (r.authority.Some? ==> r.authority.value in r.peers)
    && r.pending <= r.peers.Keys
    && forall s :: s in r.consumers ==> r.consumers[s] in r.peers
  }

  lemma {:induction false} CloseOneMore(peers: map<Id, Peer>, done: set<Id>, id: Id, code: nat)
    requires id in peers
    ensures CloseOne(CloseEach(peers, done, code), id, code) == CloseEach(peers, done + {id}, code)
  {
  }

  // ----- Runs -----

  datatype Event =
    | AuthorityConnects(id: Id, allowlisted: bool, now: int)
    | ConsumerConnects(id: Id, sessionId: string, now: int)
    | Message(id: Id, frame: Frame, now: int)
    | SocketDies(id: Id)
    | SocketCloses(id: Id)
    | AuthTimeout(id: Id)
    | Shutdown

  function Step(r: RoomState, e: Event, l: Limits): RoomState
    requires Possible(r, e)
  {
    match e
    case AuthorityConnects(id, allowlisted, now) => AcceptAuthority(r, id, allowlisted, now, l)
    case ConsumerConnects(id, sessionId, now) => AcceptConsumer(r, id, sessionId, now, l)
    case Message(id, frame, now) => HandleMessage(r, id, frame, now, l)
    case SocketDies(id) => r.(peers := r.peers[id := r.peers[id].(open := false)])
    case SocketCloses(id) => HandleClosed(r, id)
    case AuthTimeout(id) => if r.peers[id].timer then r.(peers := CloseOne(r.peers, id, 4408)) else r
    case Shutdown => HandleShutdown(r)
  }

  /** Connections and sessions get fresh names; only bound peers have events. */
  predicate Possible(r: RoomState, e: Event) {
    match e
    case AuthorityConnects(id, _, _) => id !in r.peers
    case ConsumerConnects(id, sessionId, _) =>
      id !in r.peers && forall x :: x in r.peers ==> r.peers[x].session.sessionId != Some(sessionId)
    case Shutdown => true
    case _ => e.id in r.peers && r.peers[e.id].bound
  }

  predicate PossibleRun(events: seq<Event>, l: Limits)
    decreases |events|, 0
  {
    events == [] ||
    (PossibleRun(events[..|events| - 1], l) && Possible(Run(events[..|events| - 1], l), events[|events| - 1]))
  }

  function Run(events: seq<Event>, l: Limits): RoomState
    requires PossibleRun(events, l)
    decreases |events|, 1
  {
    if events == [] then EMPTY
    else
      assert PossibleRun(events[..|events| - 1], l);
      Step(Run(events[..|events| - 1], l), events[|events| - 1], l)
  }

  // ----- The invariant -----

  predicate PeersInv(r: RoomState) {
    && Known(r)
    && (forall id :: id in r.peers && r.peers[id].timer ==> id in r.pending)
    && (forall id :: id in r.peers ==> (r.peers[id].session.role.ConsumerRole? <==> r.peers[id].session.sessionId.Some?))
    && (forall id :: id in r.peers && r.peers[id].session.authed ==> r.peers[id].session.role.AuthorityRole?)
  }

  predicate AuthoritiesInv(r: RoomState, l: Limits)
    requires Known(r)
  {
    && (r.authority.Some? ==>
         r.peers[r.authority.value].session.role.AuthorityRole? && r.peers[r.authority.value].session.authed
         && r.authority.value !in r.pending)
    && (forall id :: id in r.pending ==> r.peers[id].session.role.AuthorityRole? && !r.peers[id].session.authed)
    && |r.pending| as real < l.maxPending + 1.0
  }

  predicate ConsumersInv(r: RoomState, l: Limits)
    requires Known(r)
  {
    && (forall s :: s in r.consumers ==> r.peers[r.consumers[s]].session.sessionId == Some(s))
    && |r.consumers| as real <= l.maxClients
    && (r.authority.None? ==> r.consumers == map[])
    && (r.authority.Some? ==> forall s :: s in r.consumers ==> ClientConnected(s) in r.peers[r.authority.value].sent)
  }

  /** The authority is authenticated and not pending; pending peers are unauthenticated authorities within their cap and
      the only ones with a running timer; consumers are keyed by their own session, within their cap, announced to the
      current authority, and none without one. */
  predicate RoomInv(r: RoomState, l: Limits) {
    PeersInv(r) && AuthoritiesInv(r, l) && ConsumersInv(r, l)
  }
}

/** The room step by step. */
module BridgeRoom {
  import opened Options
  import opened BridgeLogic
  import opened RoomSpec

  class Room {
    var authority: Option<Id>
    var pendingAuthorities: set<Id>
    var consumers: map<string, Id>
    var peers: map<Id, Peer>

    function State(): RoomState
      reads this
    {
      RoomState(authority, pendingAuthorities, consumers, peers)
    }

    ghost predicate Valid()
      reads this
    {
      Known(State())
    }

    constructor ()
      ensures Valid() && State() == EMPTY
    {
      authority, pendingAuthorities, consumers, peers := None, {}, map[], map[];
    }

    /** `sendJson`. */
    method SendJson(id: Id, o: Out)
      requires id in peers
      modifies this`peers
      ensures peers == Send(old(peers), id, o)
    {
      if peers[id].open {
        peers := peers[id := peers[id].(sent := peers[id].sent + [o])];
      } else {
        assert peers[id := peers[id]] == peers;
      }
    }

    method CloseWs(id: Id, code: nat)
      requires id in peers
      modifies this`peers
      ensures peers == CloseOne(old(peers), id, code)
    {
      if peers[id].open {
        peers := peers[id := peers[id].(open := false, closeCode := code)];
      } else {
        assert peers[id := peers[id]] == peers;
      }
    }

    /** Closes every consumer with code 4404 and forgets all of them. */
    method EvictConsumers()
      requires forall s :: s in consumers ==> consumers[s] in peers
      modifies this`peers, this`consumers
      ensures peers == CloseEach(old(peers), old(consumers).Values, 4404) && consumers == map[]
    {
      var rest := consumers.Keys;
      ghost var done: set<Id> := {};
      assert peers == CloseEach(peers, {}, 4404);
      while rest != {}
        invariant rest <= consumers.Keys && consumers == old(consumers)
        invariant done == set k | k in consumers.Keys - rest :: consumers[k]
        invariant peers == CloseEach(old(peers), done, 4404)
        decreases rest
      {
        var sessionId :| sessionId in rest;
        var id := consumers[sessionId];
        assert id in consumers.Values;
        CloseWs(id, 4404);
        CloseOneMore(old(peers), done, id, 4404);
        done := done + {id};
        rest := rest - {sessionId};
      }
      assert done == consumers.Values;
      consumers := map[];
    }

    method AcceptAuthority(id: Id, allowlisted: bool, now: int, l: Limits)
      requires Valid()
      modifies this
      ensures Valid()
      ensures State() == RoomSpec.AcceptAuthority(old(State()), id, allowlisted, now, l)
    {
      var session := NewSession(AuthorityRole, None, now);
      if !allowlisted {
        peers := peers[id := Peer(session, false, false, [], 4403, false)];
        return;
      }
      if |pendingAuthorities| as real >= l.maxPending {
        peers := peers[id := Peer(session, false, false, [], 4429, false)];
        return;
      }
      pendingAuthorities := pendingAuthorities + {id};
      peers := peers[id := Peer(session, true, true, [], 0, true)];
      SendJson(id, Challenge);
      assert [] + [Challenge] == [Challenge];
      assert peers == old(peers)[id := Peer(session, true, true, [Challenge], 0, true)];
    }

    method AcceptConsumer(id: Id, sessionId: string, now: int, l: Limits)
      requires Valid()
      modifies this
      ensures Valid()
      ensures State() == RoomSpec.AcceptConsumer(old(State()), id, sessionId, now, l)
    {
      var decision := ConnectDecision(Online(State()), |consumers| + 1, l);
      peers := peers[id := Peer(NewSession(ConsumerRole, Some(sessionId), now), true, true, [], 0, false)];
      if decision != 0 {
        if decision == 4404 {
          SendJson(id, OfflineNotice);
        }
        CloseWs(id, decision);
        return;
      }
      consumers := consumers[sessionId := id];
      SendJson(authority.value, ClientConnected(sessionId));
    }

    method SetSession(id: Id, session: SocketState)
      requires id in peers
      modifies this`peers
      ensures State() == RoomSpec.SetSession(old(State()), id, session)
    {
      peers := peers[id := peers[id].(session := session)];
    }

    method Message(id: Id, frame: Frame, now: int, l: Limits)
      requires Valid() && id in peers
      modifies this
      ensures Valid()
      ensures State() == HandleMessage(old(State()), id, frame, now, l)
    {
      var (session, gate) := GateMessage(peers[id].session, frame.size, l, now);
      SetSession(id, session);
      if gate.Reject? {
        CloseWs(id, gate.code);
        return;
      }
      if frame.parsed.None? {
        CloseWs(id, 4400);
        return;
      }
      if session.role.ConsumerRole? {
        HandleConsumer(id, frame.parsed.value.payload, l);
        return;
      }
      HandleAuthority(id, frame.parsed.value.message, l);
    }

    method HandleConsumer(id: Id, payload: Payload, l: Limits)
      requires Valid() && id in peers
      modifies this
      ensures Valid()
      ensures State() == RoomSpec.HandleConsumer(old(State()), id, payload, l)
    {
      var (session, gate) := RelayPayloadGate(peers[id].session, payload, l);
      SetSession(id, session);
      if gate.Reject? {
        SendJson(id, RelayDisabled);
        CloseWs(id, gate.code);
        return;
      }
      if authority.Some? && session.sessionId.Some? {
        SendJson(authority.value, ClientMessage(session.sessionId.value, payload));
      }
    }

    method HandleAuthority(id: Id, message: Message, l: Limits)
      requires Valid() && id in peers
      modifies this
      ensures Valid()
      ensures State() == RoomSpec.HandleAuthority(old(State()), id, message, l)
    {
      var (session, action) := AuthorityMessageAction(peers[id].session, message);
      SetSession(id, session);
      match action {
        case Close(code) => CloseWs(id, code);
        case Ready => BecomeAuthority(id);
        case SendToConsumer(sessionId, payload) => Forward(id, sessionId, payload, l);
        case CloseConsumer(sessionId) =>
          if sessionId in consumers {
            CloseWs(consumers[sessionId], 4400);
          }
        case Nothing =>
      }
    }

    method Forward(id: Id, sessionId: string, payload: Payload, l: Limits)
      requires Valid() && id in peers
      modifies this
      ensures Valid()
      ensures State() == RoomSpec.Forward(old(State()), id, sessionId, payload, l)
    {
      var (counted, gate) := RelayPayloadGate(peers[id].session, payload, l);
      SetSession(id, counted);
      if gate.Reject? {
        SendJson(id, RelayDisabled);
        CloseWs(id, gate.code);
        return;
      }
      if sessionId in consumers {
        SendJson(consumers[sessionId], Forwarded(payload));
      }
    }

    /** A peer has proved that it is the authority: it replaces the one before and starts without consumers. */
    method BecomeAuthority(id: Id)
      requires Valid() && id in peers
      modifies this
      ensures Valid()
      ensures State() == RoomSpec.BecomeAuthority(old(State()), id)
    {
      peers := peers[id := peers[id].(timer := false)];
      pendingAuthorities := pendingAuthorities - {id};
      var stale := authority;
      authority := Some(id);
      if stale.Some? && stale.value != id {
        CloseWs(stale.value, 4409);
      }
      EvictConsumers();
      SendJson(id, ReadyNotice);
    }

    method Closed(id: Id)
      requires Valid() && id in peers
      modifies this
      ensures Valid()
      ensures State() == HandleClosed(old(State()), id)
    {
      var session := peers[id].session;
      peers := peers[id := peers[id].(timer := false, open := false)];
      pendingAuthorities := pendingAuthorities - {id};
      if authority == Some(id) {
        authority := None;
      }
      if session.sessionId.Some? {
        consumers := consumers - {session.sessionId.value};
      }
      assert consumers == Without(old(consumers), session.sessionId);
      match DisconnectAction(session) {
        case EvictConsumers => EvictConsumers();
        case NotifyAuthority(sessionId) =>
          if authority.Some? {
            SendJson(authority.value, ClientDisconnected(sessionId));
          }
        case NoAction =>
      }
    }

    method Terminate(id: Id, ghost before: map<Id, Peer>, ghost done: set<Id>)
      requires id in peers && peers == Terminated(before, done)
      modifies this`peers
      ensures peers == Terminated(before, done + {id})
    {
      TerminateOneMore(before, done, id);
      peers := peers[id := peers[id].(open := false, timer := false)];
    }

    method TerminatePending(ghost before: map<Id, Peer>, ghost done: set<Id>)
      requires pendingAuthorities <= peers.Keys && peers == Terminated(before, done)
      modifies this`peers
      ensures peers == Terminated(before, done + pendingAuthorities)
    {
      var rest := pendingAuthorities;
      assert done == done + (pendingAuthorities - rest);
      while rest != {}
        invariant rest <= pendingAuthorities
        invariant peers == Terminated(before, done + (pendingAuthorities - rest))
        decreases rest
      {
        var id :| id in rest;
        ghost var soFar := done + (pendingAuthorities - rest);
        Terminate(id, before, soFar);
        rest := rest - {id};
        assert soFar + {id} == done + (pendingAuthorities - rest);
      }
      assert done + (pendingAuthorities - rest) == done + pendingAuthorities;
    }

    method TerminateConsumers(ghost before: map<Id, Peer>, ghost done: set<Id>)
      requires (forall s :: s in consumers ==> consumers[s] in peers) && peers == Terminated(before, done)
      modifies this`peers
      ensures peers == Terminated(before, done + consumers.Values)
    {
      var rest := consumers.Keys;
      ghost var soFar: set<Id> := {};
      assert done + soFar == done;
      while rest != {}
        invariant rest <= consumers.Keys
        invariant soFar == set k | k in consumers.Keys - rest :: consumers[k]
        invariant peers == Terminated(before, done + soFar)
        decreases rest
      {
        var k :| k in rest;
        var id := consumers[k];
        assert id in consumers.Values;
        Terminate(id, before, done + soFar);
        assert done + soFar + {id} == done + (soFar + {id});
        soFar := soFar + {id};
        rest := rest - {k};
      }
      assert soFar == consumers.Values;
    }

    method CloseAll()
      requires Valid()
      modifies this
      ensures Valid()
      ensures State() == HandleShutdown(old(State()))
    {
      ghost var before := peers;
      ghost var done: set<Id> := {};
      assert peers == Terminated(before, {});
      if authority.Some? {
        Terminate(authority.value, before, {});
        done := {authority.value};
        assert {} + done == done;
      }
      TerminatePending(before, done);
      TerminateConsumers(before, done + pendingAuthorities);
      assert done + pendingAuthorities + consumers.Values == pendingAuthorities + consumers.Values + done;
      pendingAuthorities, consumers, authority := {}, map[], None;
    }
  }

  lemma {:induction false} TerminateOneMore(peers: map<Id, Peer>, done: set<Id>, id: Id)
    requires id in peers
    ensures Terminated(peers, done)[id := Terminated(peers, done)[id].(open := false, timer := false)]
         == Terminated(peers, done + {id})
  {
  }
}
