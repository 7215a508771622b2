/** What the owner's actions, Home Assistant's and the other messages do to grants, sessions and the log. */
module AuthorityEffects {
  import opened Options
  import opened Dict
  import opened Policy
  import opened Models
  import StoreSpec
  import SI = StoreInvariants
  import SR = StoreRuns
  import StoreEffects
  import ShareSecrets
  import Outbox
  import opened AuthoritySpec
  import opened AuthorityRuns
  import opened AuthoritySessions
  import opened AuthorityBindings
  import AStore = AuthorityStore
  import opened AuthorityAnswers
  import opened PolicyMeaning

  // ----- The owner's actions on a grant -----

  /** The queue with a notice at its end; of a hundred that wait, the oldest is gone. */
  function WithNotice(outbox: seq<Outbox.Event>, code: string): seq<Outbox.Event> {
    (if |outbox| >= 100 then outbox[1..] else outbox) + [Outbox.Error(code)]
  }

  /** The session of the grant's consumer is closed, or loses its subscriptions, and is told so; others stay as they are. */
  function Told(s: Option<Session>, consumer: string, closes: bool): Option<Session> {
    match s
    case None => None
    case Some(s) =>
      Some(if s.consumer != consumer then s
           else if closes then Session(consumer, true, s.subscriptions, WithNotice(s.outbox, "grant_revoked"))
           else Session(consumer, s.closed, [], WithNotice(s.outbox, "grant_restrictions_updated")))
  }

  /** Only the grant of one consumer changes, only its sessions are told, and the log gets one entry. */
  ghost predicate ActedOn(a: Authority, b: Authority, consumer: string, after: Option<Grant>, closes: bool, entry: Event) {
    && (forall k :: Get(b.store.grants, k) == if k == consumer then after else Get(a.store.grants, k))
    && b.store.requests == a.store.requests && b.store.shares == a.store.shares
    && (forall x :: Get(b.sessions, x) == Told(Get(a.sessions, x), consumer, closes))
    && Appended(a.store.audit, b.store.audit, [entry])
  }

  /** The log with more entries, cut to its last thousand. */
  predicate Appended(log: seq<Event>, after: seq<Event>, entries: seq<Event>) {
    var all := log + entries; after == all[if |all| > 1000 then |all| - 1000 else 0..]
  }

  ghost predicate Unchanged(a: Authority, b: Authority) {
    b.store == a.store && b.sessions == a.sessions
  }

  lemma {:induction false} AllTold(p: Dict<Session>, consumer: string, x: string)
    ensures Get(CloseAll(p, consumer), x) == Told(Get(p, x), consumer, true)
    ensures Get(ClearAll(p, consumer), x) == Told(Get(p, x), consumer, false)
  {
    var close := (s: Session) => if s.consumer == consumer then Closing(s) else s;
    var clear := (s: Session) => if s.consumer == consumer then Clearing(s) else s;
    assert CloseAll(p, consumer) == MapValues(close, p) && ClearAll(p, consumer) == MapValues(clear, p);
    MapValuesGet(close, p, x);
    MapValuesGet(clear, p, x);
  }

  lemma {:induction false} LogAppends(a: Authority, name: string, subject: string)
    ensures Appended(a.store.audit, Log(a, name, subject).store.audit, [Event(name, subject)])
    ensures SameButLog(a, Log(a, name, subject))
  {
    StoreEffects.AuditExactly(a.store, Event(name, subject));
  }

  lemma {:induction false} RevokeActs(a: Authority, id: string)
    requires SI.Consistent(a.store) && StoreSpec.GetGrant(a.store, id).0.Some?
    ensures var g := StoreSpec.GetGrant(a.store, id).0.value;
      && RevokeGrant(a, id).0 && ActedOn(a, RevokeGrant(a, id).1, g.consumer, Some(g.(revoked := true)), true, Event("grant_revoked", g.id))
  {
    hide StoreSpec.GetGrant, StoreSpec.RevokeGrant, Log, CloseAll, Told;
    StoreEffects.ByIdExactly(a.store, id, []);
    var (g, store) := StoreSpec.RevokeGrant(a.store, id);
    forall x
      ensures Get(CloseAll(a.sessions, g.value.consumer), x) == Told(Get(a.sessions, x), g.value.consumer, true)
    {
      AllTold(a.sessions, g.value.consumer, x);
    }
    LogAppends(a.(store := store, sessions := CloseAll(a.sessions, g.value.consumer)), "grant_revoked", g.value.id);
  }

  lemma {:induction false} DeleteActs(a: Authority, id: string)
    requires SI.Consistent(a.store) && StoreSpec.GetGrant(a.store, id).0.Some?
    ensures var g := StoreSpec.GetGrant(a.store, id).0.value;
      DeleteGrant(a, id).0 && ActedOn(a, DeleteGrant(a, id).1, g.consumer, None, true, Event("grant_deleted", g.id))
  {
    hide StoreSpec.GetGrant, StoreSpec.DeleteGrant, Log, CloseAll, Told;
    StoreEffects.ByIdExactly(a.store, id, []);
    var (g, store) := StoreSpec.DeleteGrant(a.store, id);
    forall x
      ensures Get(CloseAll(a.sessions, g.value.consumer), x) == Told(Get(a.sessions, x), g.value.consumer, true)
    {
      AllTold(a.sessions, g.value.consumer, x);
    }
    LogAppends(a.(store := store, sessions := CloseAll(a.sessions, g.value.consumer)), "grant_deleted", g.value.id);
  }

  lemma {:induction false} RestrictActs(a: Authority, id: string, rs: seq<Restriction>)
    requires SI.Consistent(a.store) && StoreSpec.GetGrant(a.store, id).0.Some?
    ensures var g := StoreSpec.GetGrant(a.store, id).0.value;
      && SetRestrictions(a, id, rs).0
      && ActedOn(a, SetRestrictions(a, id, rs).1, g.consumer, Some(g.(restrictions := rs)), false, Event("grant_restrictions_updated", g.id))
  {
    hide StoreSpec.GetGrant, StoreSpec.SetRestrictions, Log, ClearAll, Told;
    StoreEffects.ByIdExactly(a.store, id, rs);
    var (g, store) := StoreSpec.SetRestrictions(a.store, id, rs);
    forall x
      ensures Get(ClearAll(a.sessions, g.value.consumer), x) == Told(Get(a.sessions, x), g.value.consumer, false)
    {
      AllTold(a.sessions, g.value.consumer, x);
    }
    LogAppends(a.(store := store), "grant_restrictions_updated", g.value.id);
  }

  /** Revoking, deleting and restricting by grant id: without a grant of that id nothing happens; otherwise one stored grant of
      that id is revoked, removed or given the restrictions, and the sessions of its consumer are closed or lose their
      subscriptions. */
  lemma {:induction false} OwnerActsExactly(a: Authority, id: string, rs: seq<Restriction>) returns (found: Option<Grant>)
    requires SI.Consistent(a.store)
    ensures found.Some? <==> id != "" && exists k :: Get(a.store.grants, k).Some? && Get(a.store.grants, k).value.id == id
    ensures match found
      case None =>
        && !RevokeGrant(a, id).0 && Unchanged(a, RevokeGrant(a, id).1)
        && !DeleteGrant(a, id).0 && Unchanged(a, DeleteGrant(a, id).1)
        && !SetRestrictions(a, id, rs).0 && Unchanged(a, SetRestrictions(a, id, rs).1)
      case Some(g) =>
        && g.id == id && Get(a.store.grants, g.consumer) == found
        && RevokeGrant(a, id).0 && ActedOn(a, RevokeGrant(a, id).1, g.consumer, Some(g.(revoked := true)), true, Event("grant_revoked", id))
        && DeleteGrant(a, id).0 && ActedOn(a, DeleteGrant(a, id).1, g.consumer, None, true, Event("grant_deleted", id))
        && SetRestrictions(a, id, rs).0
        && ActedOn(a, SetRestrictions(a, id, rs).1, g.consumer, Some(g.(restrictions := rs)), false, Event("grant_restrictions_updated", id))
  {
    hide StoreSpec.GetGrant, RevokeGrant, DeleteGrant, SetRestrictions, ActedOn;
    StoreEffects.FoundExactly(a.store, id);
    found := StoreSpec.GetGrant(a.store, id).0;
    if found.Some? {
      RevokeActs(a, id);
      DeleteActs(a, id);
      RestrictActs(a, id, rs);
    } else {
      NotFound(a, id, rs);
    }
  }

  lemma {:induction false} NotFound(a: Authority, id: string, rs: seq<Restriction>)
    requires SI.Consistent(a.store) && StoreSpec.GetGrant(a.store, id).0.None?
    ensures !RevokeGrant(a, id).0 && Unchanged(a, RevokeGrant(a, id).1)
    ensures !DeleteGrant(a, id).0 && Unchanged(a, DeleteGrant(a, id).1)
    ensures !SetRestrictions(a, id, rs).0 && Unchanged(a, SetRestrictions(a, id, rs).1)
  {
    hide StoreSpec.GetGrant, StoreSpec.RevokeGrant, StoreSpec.DeleteGrant, StoreSpec.SetRestrictions, StoreSpec.AppendAudit, CloseAll, ClearAll;
    StoreEffects.ByIdExactly(a.store, id, rs);
  }

  // ----- Changed states -----

  /** Who is told of a changed state, under which subscription. */
  predicate IsTold(sessions: Dict<Session>, sid: string, subscription: string, entity: string) {
    var s := Get(sessions, sid);
    && s.Some? && !s.value.closed
    && Get(s.value.subscriptions, subscription).Some? && entity in Get(s.value.subscriptions, subscription).value
  }

  function Delta(sid: string, subscription: string, entity: string, state: Option<string>): (string, Outbox.Event) {
    (sid, Outbox.Delta(subscription, map[entity := state]))
  }

  /** The events are deltas of the one state, none twice. */
  predicate AreDeltas(es: seq<(string, Outbox.Event)>, entity: string, state: Option<string>) {
    && (forall k :: 0 <= k < |es| ==> es[k].1.Delta? && es[k] == Delta(es[k].0, es[k].1.subscription, entity, state))
    && (forall i, j :: 0 <= i < j < |es| ==> es[i] != es[j])
  }

  lemma {:induction false} DeltasAre(subscriptions: Dict<set<string>>, sid: string, entity: string, state: Option<string>)
    requires Unique(subscriptions)
    ensures var es := DeltasOf(subscriptions, sid, entity, state);
      && AreDeltas(es, entity, state) && (forall k :: 0 <= k < |es| ==> es[k].0 == sid)
      && (forall id :: Delta(sid, id, entity, state) in es <==> Get(subscriptions, id).Some? && entity in Get(subscriptions, id).value)
    decreases |subscriptions|
  {
    if subscriptions != [] {
      var init, last, entities := subscriptions[..|subscriptions| - 1], subscriptions[|subscriptions| - 1].0, subscriptions[|subscriptions| - 1].1;
      forall x
        ensures Unique(init) && Get(subscriptions, x) == (if x == last then Some(entities) else Get(init, x)) && Get(init, last).None?
      {
        SR.GetLast(subscriptions, x);
        GetHas(init, last);
      }
      DeltasAre(init, sid, entity, state);
    }
  }

  lemma {:induction false} ChangesAre(sessions: Dict<Session>, entity: string, state: Option<string>)
    requires Keyed(sessions)
    ensures var es := StateChanged(sessions, entity, state);
      && AreDeltas(es, entity, state)
      && (forall k :: 0 <= k < |es| ==> Get(sessions, es[k].0).Some?)
      && (forall sid, id :: Delta(sid, id, entity, state) in es <==> IsTold(sessions, sid, id, entity))
    decreases |sessions|
  {
    hide DeltasOf, Unique;
    if sessions != [] {
      var init, last, s := sessions[..|sessions| - 1], sessions[|sessions| - 1].0, sessions[|sessions| - 1].1;
      KeyedInit(sessions);
      forall x
        ensures Get(sessions, x) == (if x == last then Some(s) else Get(init, x)) && Get(init, last).None?
      {
        SR.GetLast(sessions, x);
        GetHas(init, last);
      }
      ChangesAre(init, entity, state);
      DeltasAre(s.subscriptions, last, entity, state);
      assert forall id :: Delta(last, id, entity, state).0 == last;
    }
  }

  /** In every run, a changed state is pushed to every open session, once for each of its subscriptions that list the entity,
      and to no other. */
  lemma {:induction false} PushedExactly(inputs: seq<Input>, n: nat)
    requires n < |inputs| && inputs[n].op.Push?
    ensures var entity, state := inputs[n].op.entity, inputs[n].op.state;
      var es := OutputAt(inputs, n).events;
      AreDeltas(es, entity, state)
      && forall sid, id :: Delta(sid, id, entity, state) in es <==> IsTold(Run(inputs[..n]).sessions, sid, id, entity)
  {
    hide AreDeltas, IsTold, Keyed;
    KeyedInEveryRun(inputs[..n]);
    ChangesAre(Run(inputs[..n]).sessions, inputs[n].op.entity, inputs[n].op.state);
  }

  // ----- Waiting events and discarded sessions -----

  /** Queueing reaches only a known session, flushing hands over what waits and empties the queue, discarding forgets. */
  lemma {:induction false} QueueExactly(a: Authority, sid: string, e: Outbox.Event)
    ensures var b := QueueEvent(a, sid, e);
      forall x :: Get(b.sessions, x)
        == (var s := Get(a.sessions, x); if x == sid && s.Some? then Some(s.value.(outbox := Outbox.Queue(s.value.outbox, e))) else s)
    ensures var (es, b) := PopOutbox(a, sid);
      && es == (match Get(a.sessions, sid) case Some(s) => s.outbox case None => [])
      && forall x :: Get(b.sessions, x) == (var s := Get(a.sessions, x); if x == sid && s.Some? then Some(s.value.(outbox := [])) else s)
    ensures forall x :: Get(Discard(a, sid).sessions, x) == if x == sid then None else Get(a.sessions, x)
  {
    hide Outbox.Queue;
    forall x
      ensures Get(Discard(a, sid).sessions, x) == if x == sid then None else Get(a.sessions, x)
    {
      PopGet(a.sessions, sid, x);
    }
    if Get(a.sessions, sid).Some? {
      var s := Get(a.sessions, sid).value;
      forall x
        ensures Get(Put(a.sessions, sid, s.(outbox := Outbox.Queue(s.outbox, e))), x)
          == if x == sid then Some(s.(outbox := Outbox.Queue(s.outbox, e))) else Get(a.sessions, x)
        ensures Get(Put(a.sessions, sid, s.(outbox := [])), x) == if x == sid then Some(s.(outbox := [])) else Get(a.sessions, x)
      {
        PutGet(a.sessions, sid, s.(outbox := Outbox.Queue(s.outbox, e)), x);
        PutGet(a.sessions, sid, s.(outbox := []), x);
      }
    }
  }

  // ----- Authentication -----

  /** The session bound to a consumer: what it was, or new. */
  function BoundSession(s: Option<Session>, consumer: string): Session {
    match s case Some(s) => s.(consumer := consumer) case None => Session(consumer, false, [], [])
  }

  lemma {:induction false} BindExactly(a: Authority, sid: string, consumer: string)
    ensures forall x ::
      Get(Bind(a, sid, consumer).sessions, x) == if x == sid then Some(BoundSession(Get(a.sessions, sid), consumer)) else Get(a.sessions, x)
  {
    forall x
      ensures Get(Bind(a, sid, consumer).sessions, x) == if x == sid then Some(BoundSession(Get(a.sessions, sid), consumer)) else Get(a.sessions, x)
    {
      PutGet(a.sessions, sid, SessionOf(a, sid).(consumer := consumer), x);
    }
  }

  /** An authentication needs a bound channel, a signature and a good grant; it then binds the session and marks the grant as
      used. */
  lemma {:induction false} AuthenticatedExactly(a: Authority, sid: string, m: Message, env: Env)
    requires m.Authenticate? && SI.Consistent(a.store)
    ensures var (r, b) := Handle(a, sid, m, env);
      var g := Get(a.store.grants, m.consumer);
      if !m.bound || !env.signed then
        r == Failed("bad_signature") && SameButLog(a, b) && Appended(a.store.audit, b.store.audit, [Event("session_error", "")])
      else if !IsGood(g, env.now) then r == Failed("not_authorized") && b == a
      else
        && r == Authenticated(g.value.id) && Appended(a.store.audit, b.store.audit, [Event("consumer_connected", g.value.id)])
        && (forall k :: Get(b.store.grants, k)
              == if k == m.consumer then Some(g.value.(lastUsedAt := Some(env.now.instant))) else Get(a.store.grants, k))
        && b.store.requests == a.store.requests && b.store.shares == a.store.shares
        && (forall x :: Get(b.sessions, x) == if x == sid then Some(BoundSession(Get(a.sessions, sid), m.consumer)) else Get(a.sessions, x))
  {
    hide StoreSpec.UpsertGrant, Log, SI.Consistent, Bind, BoundSession, Appended;
    LogAppends(a, "session_error", "");
    UsableIsGood(Get(a.store.grants, m.consumer), env.now);
    if IsGood(Get(a.store.grants, m.consumer), env.now) {
      var g := Get(a.store.grants, m.consumer).value;
      var store := StoreSpec.UpsertGrant(a.store, g.(lastUsedAt := Some(env.now.instant)));
      OwnConsumer(a.store, m.consumer);
      StoreEffects.UpsertGrantExactly(a.store, g.(lastUsedAt := Some(env.now.instant)));
      BindExactly(a.(store := store), sid, m.consumer);
      LogAppends(Bind(a.(store := store), sid, m.consumer), "consumer_connected", g.id);
      BindKeepsStore(a.(store := store), sid, m.consumer);
    }
  }

  lemma {:induction false} OwnConsumer(s: StoreSpec.Store, consumer: string)
    requires SI.Consistent(s) && Get(s.grants, consumer).Some?
    ensures Get(s.grants, consumer).value.consumer == consumer
  {
  }

  lemma {:induction false} BindKeepsStore(a: Authority, sid: string, consumer: string)
    ensures Bind(a, sid, consumer).store == a.store
  {
  }

  lemma {:induction false} UpsertKeepsLog(s: StoreSpec.Store, r: AccessRequest)
    ensures StoreSpec.UpsertRequest(s, r).audit == s.audit
  {
  }

  /** An access request that is signed, valid and not too soon is filed under the id of the consumer's pending request, or else
      under the new id, and binds the session; others change nothing but the log. */
  lemma {:induction false} RequestExactly(a: Authority, sid: string, m: Message, env: Env)
    requires m.AccessRequestMsg? && SI.Consistent(a.store) && SI.PendingBounded(a.store)
    ensures var (r, b) := Handle(a, sid, m, env);
      if r.RequestPending? then
        && env.signed && m.manifest.Some? && Appended(a.store.audit, b.store.audit, [Event("access_request_received", r.requestId)])
        && (if exists k :: SR.IsPending(a.store.requests, k) && Get(a.store.requests, k).value.consumer == m.consumer
            then SR.IsPending(a.store.requests, r.requestId) && Get(a.store.requests, r.requestId).value.consumer == m.consumer
            else r.requestId == env.freshId)
        && b.store.requests
           == StoreSpec.UpsertRequest(
                a.store, AccessRequest(r.requestId, m.consumer, m.manifest.value, m.nonce, Pending, env.now.instant, None)).requests
        && b.store.grants == a.store.grants && b.store.shares == a.store.shares
        && (forall x :: Get(b.sessions, x) == if x == sid then Some(BoundSession(Get(a.sessions, sid), m.consumer)) else Get(a.sessions, x))
      else SameButLog(a, b) && Appended(a.store.audit, b.store.audit, [Event("session_error", "")])
  {
    hide StoreSpec.FileRequest, StoreSpec.UpsertRequest, Log, SI.Consistent, SI.PendingBounded, Bind, BoundSession, RequestTimes, TooSoon, Appended;
    LogAppends(a, "session_error", "");
    if env.signed && m.manifest.Some? && !TooSoon(a, m.consumer, env.mono) {
      var (r, store) := StoreSpec.FileRequest(a.store, m.consumer, m.manifest.value, m.nonce, env.freshId, env.now.instant);
      var b := a.(store := store, requestTimes := RequestTimes(a.requestTimes, m.consumer, env.mono));
      StoreEffects.FileExactly(a.store, m.consumer, m.manifest.value, m.nonce, env.freshId, env.now.instant);
      SI.UpsertKeepsGrants(a.store, r);
      UpsertKeepsLog(a.store, r);
      BindExactly(b, sid, m.consumer);
      BindKeepsStore(b, sid, m.consumer);
      LogAppends(Bind(b, sid, m.consumer), "access_request_received", r.id);
    }
  }

  // ----- Data-plane messages -----

  /** The session with a subscription set or removed. */
  ghost predicate Resubscribed(s: Session, t: Session, id: string, entities: Option<set<string>>) {
    && t == s.(subscriptions := t.subscriptions)
    && forall x :: Get(t.subscriptions, x) == if x == id then entities else Get(s.subscriptions, x)
  }

  /** What a data-plane message does to sessions: an unknown one is created, one without a good grant is closed, a snapshot
      subscribes and an unsubscription unsubscribes; nothing else changes. */
  lemma {:induction false} SessionsExactly(a: Authority, sid: string, m: Message, env: Env)
    requires IsDataPlane(m)
    ensures var (r, b) := HandleDataPlane(a, sid, m, env);
      var s, t := Get(a.sessions, sid), Get(b.sessions, sid);
      && (forall x :: x != sid ==> Get(b.sessions, x) == Get(a.sessions, x))
      && t.Some?
      && (if s.None? then t.value == Session("", false, [], [])
          else if !IsBound(a, sid) then t == s
          else if !IsGood(BoundGrant(a, sid), env.now) then t.value == s.value.(closed := true)
          else if r.Snapshot? then Resubscribed(s.value, t.value, r.subscriptionId, Some(r.subscribed))
          else if r.Unsubscribed? then Resubscribed(s.value, t.value, r.subscriptionId, None)
          else t == s)
  {
    hide RequireGrant, CheckRate, Serve, AskOf, ServeData, Enforce, IsGood, Resubscribed, SessionEffect;
    var (gate, b) := RequireGrant(a, sid, env);
    GateSessions(a, sid, env);
    if gate.Granted? {
      RateEffect(b, gate.grant, m, env);
      var (ok, c) := CheckRate(b, gate.grant, m, env);
      if ok {
        ServeHasEffect(c, sid, gate.grant, m, env);
        var (r, z) := Serve(c, sid, gate.grant, m, env);
        ServeSessions(c, sid, m, r, z);
      }
    }
  }

  lemma {:induction false} GateSessions(a: Authority, sid: string, env: Env)
    ensures var (gate, b) := RequireGrant(a, sid, env);
      var s, t := Get(a.sessions, sid), Get(b.sessions, sid);
      && (forall x :: x != sid ==> Get(b.sessions, x) == Get(a.sessions, x))
      && t.Some?
      && (gate.Granted? <==> IsBound(a, sid) && IsGood(BoundGrant(a, sid), env.now))
      && (gate.Granted? ==> b == a)
      && (if s.None? then t.value == Session("", false, [], [])
          else if IsBound(a, sid) && !IsGood(BoundGrant(a, sid), env.now) then t.value == s.value.(closed := true)
          else t == s)
  {
    hide Put, Get;
    var s := SessionOf(a, sid);
    if Get(a.sessions, sid).Some? {
      UsableIsGood(Get(a.store.grants, s.consumer), env.now);
    }
    forall x
      ensures Get(Put(a.sessions, sid, NEW_SESSION), x) == if x == sid then Some(NEW_SESSION) else Get(a.sessions, x)
      ensures Get(Put(a.sessions, sid, s.(closed := true)), x) == if x == sid then Some(s.(closed := true)) else Get(a.sessions, x)
    {
      PutGet(a.sessions, sid, NEW_SESSION, x);
      PutGet(a.sessions, sid, s.(closed := true), x);
    }
  }

  lemma {:induction false} ServeSessions(a: Authority, sid: string, m: Message, r: Reply, b: Authority)
    requires SessionEffect(a, sid, m, r, b) && Get(a.sessions, sid).Some?
    ensures var s, t := Get(a.sessions, sid).value, Get(b.sessions, sid);
      && (forall x :: x != sid ==> Get(b.sessions, x) == Get(a.sessions, x))
      && t.Some?
      && (if r.Snapshot? then Resubscribed(s, t.value, r.subscriptionId, Some(r.subscribed))
          else if r.Unsubscribed? then Resubscribed(s, t.value, r.subscriptionId, None)
          else t.value == s)
  {
    hide Put, Pop, Get;
    var s := Get(a.sessions, sid).value;
    if r.Snapshot? {
      var subs := Put(s.subscriptions, r.subscriptionId, r.subscribed);
      forall x
        ensures Get(subs, x) == (if x == r.subscriptionId then Some(r.subscribed) else Get(s.subscriptions, x))
        ensures Get(b.sessions, x) == if x == sid then Some(s.(subscriptions := subs)) else Get(a.sessions, x)
      {
        PutGet(s.subscriptions, r.subscriptionId, r.subscribed, x);
        PutGet(a.sessions, sid, s.(subscriptions := subs), x);
      }
    } else if r.Unsubscribed? {
      var subs := Pop(s.subscriptions, r.subscriptionId);
      forall x
        ensures Get(subs, x) == (if x == r.subscriptionId then None else Get(s.subscriptions, x))
        ensures Get(b.sessions, x) == if x == sid then Some(s.(subscriptions := subs)) else Get(a.sessions, x)
      {
        PopGet(s.subscriptions, r.subscriptionId, x);
        PutGet(a.sessions, sid, s.(subscriptions := subs), x);
      }
    }
  }

  // ----- The log -----

  /** Everything the message asks for is in the grant's scopes. */
  ghost predicate ScopeGrants(manifest: Manifest, m: Message, env: Env) {
    match m
    case GetStates(es) => AllGranted(es, ListedUnder(manifest, "read_entities"), env.known)
    case Subscribe(es, _) => AllGranted(es, ListedUnder(manifest, "subscriptions") + ListedUnder(manifest, "read_entities"), env.known)
    case HistoryQuery(es) => forall e :: e in es ==> GrantsEntity(ListedUnder(manifest, "history"), e)
    case CameraSnapshot(e) => GrantsEntity(ListedUnder(manifest, "camera_snapshots"), e)
    case CallService(domain, service, targets, _, _) =>
      env.resolved.Some? && CallGranted(manifest, domain, service, Dedup(targets + env.resolved.value))
    case _ => true
  }

  /** What the log says of a data-plane message under a good grant. */
  ghost function EntriesOf(g: Grant, m: Message, env: Env, r: Reply): seq<Event> {
    match r
    case Failed("rate_limited") => [Event("rate_limited", g.id)]
    case Failed("history_limit_exceeded") => [Event("history_query_limited", g.id)]
    case Failed("permission_denied") => [Event(if ScopeGrants(g.manifest, m, env) then "restriction_denied" else "permission_error", g.id)]
    case ServiceCalled(_) => [Event("call_service", g.id)]
    case Answer => [Event("webrtc_answer", g.id)]
    case Fallback => [Event("webrtc_fallback", g.id)]
    case _ => []
  }

  lemma {:induction false} EnforceLogged(a: Authority, g: Grant, operation: string, c: Context, env: Env)
    ensures var (ok, b) := Enforce(a, g, operation, c, env);
      if ok then b.store == a.store else Appended(a.store.audit, b.store.audit, [Event("restriction_denied", g.id)])
  {
    hide FirstDenial, ActiveTemplates, TemplatesAllow, CheckLimits, Log, Appended;
    AStore.LimitsKeepStore(a, g, operation, c, env);
    LogAppends(a, "restriction_denied", g.id);
    LogAppends(CheckLimits(a, g, operation, c, env).1, "restriction_denied", g.id);
  }

  lemma {:induction false} NothingAppended(s: StoreSpec.Store)
    requires |s.audit| <= 1000
    ensures Appended(s.audit, s.audit, [])
  {
    assert s.audit + [] == s.audit;
  }

  lemma {:induction false} QueriesLogged(a: Authority, sid: string, g: Grant, m: Message, env: Env)
    requires (m.GetStates? || m.Subscribe? || m.HistoryQuery? || m.CameraSnapshot?) && |a.store.audit| <= 1000
    ensures var (r, b) := Serve(a, sid, g, m, env); Appended(a.store.audit, b.store.audit, EntriesOf(g, m, env, r))
  {
    hide Log, Enforce, Expand, AllAllowed, AllGranted, EntityAllowed, GrantsEntity, StatesOf, ReadEntities, SubscriptionEntities, HistoryEntities,
      CameraEntities, ListedUnder, Put, Get, Appended;
    NothingAppended(a.store);
    ScopesAreListed(g.manifest);
    LogAppends(a, "permission_error", g.id);
    LogAppends(a, "history_query_limited", g.id);
    match m
    case GetStates(es) =>
      AllAllowedIsAllGranted(es, ReadEntities(g.manifest), env.known);
      EnforceLogged(a, g, "read", EntityContext(Expand(es, ReadEntities(g.manifest), env.known)), env);
    case Subscribe(es, _) =>
      AllAllowedIsAllGranted(es, SubscriptionEntities(g.manifest), env.known);
      EnforceLogged(a, g, "subscribe", EntityContext(Expand(es, SubscriptionEntities(g.manifest), env.known)), env);
    case HistoryQuery(es) =>
      EachAllowedIsGranted(es, HistoryEntities(g.manifest));
      EnforceLogged(a, g, "history", EntityContext(es), env);
    case CameraSnapshot(e) =>
      EntityAllowedExactly(e, CameraEntities(g.manifest));
      EnforceLogged(a, g, "camera", EntityContext([e]), env);
  }

  lemma {:induction false} OthersLogged(a: Authority, sid: string, g: Grant, m: Message, env: Env)
    requires IsDataPlane(m) && !(m.GetStates? || m.Subscribe? || m.HistoryQuery? || m.CameraSnapshot?) && |a.store.audit| <= 1000
    ensures var (r, b) := Serve(a, sid, g, m, env); Appended(a.store.audit, b.store.audit, EntriesOf(g, m, env, r))
  {
    hide Log, Enforce, CallAllowed, CallGranted, Dedup, Put, Pop, Get, Appended;
    NothingAppended(a.store);
    LogAppends(a, "permission_error", g.id);
    LogAppends(a, "webrtc_fallback", g.id);
    LogAppends(a, "webrtc_answer", g.id);
    if m.CallService? && env.resolved.Some? {
      var es := Dedup(m.targets + env.resolved.value);
      var c := Context(m.domain, m.service, es, m.pin, m.pins);
      CallAllowedIsGranted(g.manifest, m.domain, m.service, es);
      EnforceLogged(a, g, "action", c, env);
      var b := Enforce(a, g, "action", c, env).1;
      LogAppends(b.(calls := b.calls + [ServiceCall(m.domain, m.service, es)]), "call_service", g.id);
    }
  }

  /** The log says of each data-plane message under a good grant what its reply tells, and nothing of others. */
  lemma {:induction false} LoggedExactly(a: Authority, sid: string, m: Message, env: Env)
    requires IsDataPlane(m) && SI.Consistent(a.store)
    ensures var (r, b) := HandleDataPlane(a, sid, m, env);
      Appended(a.store.audit, b.store.audit,
        if IsBound(a, sid) && IsGood(BoundGrant(a, sid), env.now) then EntriesOf(BoundGrant(a, sid).value, m, env, r) else [])
  {
    hide RequireGrant, CheckRate, Serve, IsGood, EntriesOf, Appended;
    AuditIsShort(a.store);
    NothingAppended(a.store);
    GateEffect(a, sid, env);
    GateSessions(a, sid, env);
    var (gate, b) := RequireGrant(a, sid, env);
    if gate.Granted? {
      var (ok, c) := CheckRate(b, gate.grant, m, env);
      AStore.RateLog(b, gate.grant, m, env);
      if ok {
        if m.GetStates? || m.Subscribe? || m.HistoryQuery? || m.CameraSnapshot? {
          QueriesLogged(c, sid, gate.grant, m, env);
        } else {
          OthersLogged(c, sid, gate.grant, m, env);
        }
      } else {
        LogAppends(b.(dataPlaneHits := c.dataPlaneHits), "rate_limited", gate.grant.id);
        RateEntry(gate.grant, m, env);
      }
    }
  }

  lemma {:induction false} RateEntry(g: Grant, m: Message, env: Env)
    ensures EntriesOf(g, m, env, Failed("rate_limited")) == [Event("rate_limited", g.id)]
  {
    hide ScopeGrants;
  }

  lemma {:induction false} AuditIsShort(s: StoreSpec.Store)
    requires SI.Consistent(s)
    ensures |s.audit| <= 1000
  {
  }

  /** The log says of a claim that its secret was wrong or that it minted, and nothing else. */
  lemma {:induction false} ClaimLoggedExactly(a: Authority, sid: string, m: Message, env: Env)
    requires m.ClaimShareMsg? && SI.Consistent(a.store)
    ensures var (r, b) := Handle(a, sid, m, env);
      Appended(a.store.audit, b.store.audit,
        if r == Failed("bad_share_secret") then [Event("session_error", m.shareId)]
        else if ShareSecrets.OpenTo(a.store, m.shareId, m.secretHash, m.consumer, env.now.instant) then [Event("share_claimed", m.shareId)]
        else [])
  {
    hide Appended, StoreSpec.ClaimShare, Log, Put;
    AuditIsShort(a.store);
    NothingAppended(a.store);
    LogAppends(a, "session_error", m.shareId);
    var store := StoreSpec.ClaimShare(a.store, m.shareId, m.consumer).1;
    ClaimKeepsLog(a.store, m.shareId, m.consumer);
    LogAppends(a.(store := store), "share_claimed", m.shareId);
  }

  lemma {:induction false} ClaimKeepsLog(s: StoreSpec.Store, id: string, consumer: string)
    ensures StoreSpec.ClaimShare(s, id, consumer).1.audit == s.audit
    ensures StoreSpec.ClaimShare(s, id, consumer).0.Some? <==> StoreSpec.Claimable(s, id)
  {
  }
}
