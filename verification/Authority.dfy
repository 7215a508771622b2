/** The authority: it answers the messages of sessions and carries out the owner's actions. */
module AuthorityEngine {
  import opened Lists
  import opened Options
  import opened Dict
  import opened Policy
  import opened Models
  import opened MemoryStore
  import Spec = AuthoritySpec
  import opened AuthoritySpec
  import StoreSpec
  import Outbox
  import SW = SlidingWindow
  import RL = RestrictionLimits
  import ShareClaims

  // ----- Loops over values -----

  method RecentWeights(hits: seq<SW.Hit>, cutoff: real) returns (recent: seq<SW.Hit>, used: nat)
    ensures recent == SW.Prune(hits, cutoff) && used == SW.Weight(recent)
  {
    recent, used := [], 0;
    for i := 0 to |hits|
      invariant recent == SW.Prune(hits[..i], cutoff) && used == SW.Weight(recent)
    {
      assert hits[..i + 1][..i] == hits[..i];
      if hits[i].at > cutoff {
        assert (recent + [hits[i]])[..|recent|] == recent;
        recent := recent + [hits[i]];
        used := used + hits[i].weight;
      }
    }
    assert hits[..|hits|] == hits;
  }

  method RecentHits(hits: seq<real>, now: real, window: real) returns (recent: seq<real>)
    ensures recent == RL.Recent(hits, now, window)
  {
    recent := [];
    for i := 0 to |hits|
      invariant recent == RL.Recent(hits[..i], now, window)
    {
      assert hits[..i + 1][..i] == hits[..i];
      if now - hits[i] < window {
        recent := recent + [hits[i]];
      }
    }
    assert hits[..|hits|] == hits;
  }

  method CoveredEntities(known: seq<string>, wildcard: string, allowed: set<string>) returns (covered: seq<string>)
    ensures covered == Covered(known, wildcard, allowed)
  {
    hide EntityAllowed;
    covered := [];
    for i := 0 to |known|
      invariant covered == Covered(known[..i], wildcard, allowed)
    {
      assert known[..i + 1][..i] == known[..i];
      if EntityAllowed(known[i], {wildcard}) && EntityAllowed(known[i], allowed) {
        covered := covered + [known[i]];
      } else {
        assert covered + [] == covered;
      }
    }
    assert known[..|known|] == known;
  }

  method ExpandEntityIds(requested: seq<string>, allowed: set<string>, known: seq<string>) returns (expanded: seq<string>)
    ensures expanded == Expand(requested, allowed, known)
  {
    hide Dedup, Covered, IsWildcard;
    expanded := [];
    for i := 0 to |requested|
      invariant expanded == Expanded(requested[..i], allowed, known)
    {
      assert requested[..i + 1][..i] == requested[..i];
      if IsWildcard(requested[i]) {
        var covered := CoveredEntities(known, requested[i], allowed);
        expanded := expanded + covered;
      } else {
        expanded := expanded + [requested[i]];
      }
    }
    assert requested[..|requested|] == requested;
    expanded := Dedup(expanded);
  }

  method AnyDenied(entities: seq<string>, allowed: set<string>) returns (denied: bool)
    ensures denied == !AllAllowed(entities, allowed)
  {
    hide EntityAllowed;
    for i := 0 to |entities|
      invariant forall j :: 0 <= j < i ==> EntityAllowed(entities[j], allowed)
    {
      if !EntityAllowed(entities[i], allowed) {
        return true;
      }
    }
    return false;
  }

  method AnyCallDenied(manifest: Manifest, domain: string, service: string, entities: seq<string>) returns (denied: bool)
    ensures denied == !CallAllowed(manifest, domain, service, entities)
  {
    hide ActionAllowed;
    if entities == [] {
      return !ActionAllowed(manifest, domain, service, "");
    }
    for i := 0 to |entities|
      invariant forall j :: 0 <= j < i ==> ActionAllowed(manifest, domain, service, entities[j])
    {
      if !ActionAllowed(manifest, domain, service, entities[i]) {
        return true;
      }
    }
    return false;
  }

  method CheckTemplates(rs: seq<Restriction>, env: Env) returns (ok: bool)
    ensures ok == TemplatesAllow(rs, env)
  {
    hide TemplateAllows;
    for i := 0 to |rs|
      invariant forall j :: 0 <= j < i ==> TemplateAllows(rs[j], env)
    {
      if !TemplateAllows(rs[i], env) {
        return false;
      }
    }
    return true;
  }

  class VarcoAuthority {
    const store: MemoryVarcoStore
    var sessions: Dict<Session>
    var rateHits: RL.Hits
    var dataPlaneHits: SW.Table
    var requestTimes: map<string, real>
    var calls: seq<ServiceCall>

    function State(): Authority
      reads this, store
    {
      Authority(store.State(), sessions, rateHits, dataPlaneHits, requestTimes, calls)
    }

    constructor (store: MemoryVarcoStore)
      ensures this.store == store && State() == START.(store := store.State())
    {
      this.store := store;
      sessions, rateHits, dataPlaneHits, requestTimes, calls := [], map[], map[], map[], [];
    }

    method Audit(name: string, subject: string)
      modifies store
      ensures State() == Log(old(State()), name, subject)
    {
      store.AppendAudit(Event(name, subject));
    }

    // ----- Messages -----

    method HandlePlaintext(sid: string, m: Message, env: Env) returns (reply: Reply)
      modifies this, store
      ensures (reply, State()) == Handle(old(State()), sid, m, env)
    {
      hide RequireGrant, CheckRate, Spec.Serve, HandleAccessRequest, HandleAuthenticate, HandleClaim;
      if m.AccessRequestMsg? {
        reply := AnswerAccessRequest(sid, m, env);
      } else if m.Authenticate? {
        reply := AnswerAuthenticate(sid, m, env);
      } else if m.ClaimShareMsg? {
        reply := AnswerClaim(sid, m, env);
      } else {
        var gate := GateSession(sid, env);
        if gate.Refused? {
          return Failed(gate.code);
        }
        var ok := CheckDataPlaneRate(gate.grant, m, env);
        if !ok {
          return Failed("rate_limited");
        }
        reply := AnswerDataPlane(sid, gate.grant, m, env);
      }
    }

    method GateSession(sid: string, env: Env) returns (gate: Gate)
      modifies this
      ensures (gate, State()) == RequireGrant(old(State()), sid, env)
    {
      var found := Get(sessions, sid);
      var session := NEW_SESSION;
      if found.Some? {
        session := found.value;
      } else {
        sessions := Put(sessions, sid, session);
      }
      if session.closed {
        return Refused("grant_revoked");
      }
      if session.consumer == "" {
        return Refused("not_authenticated");
      }
      var grant := Get(store.grants, session.consumer);
      if !Usable(grant, env.now) {
        PutTwice(old(sessions), sid, NEW_SESSION, session.(closed := true));
        sessions := Put(sessions, sid, session.(closed := true));
        return Refused("grant_revoked");
      }
      return Granted(grant.value);
    }

    method CheckDataPlaneRate(g: Grant, m: Message, env: Env) returns (ok: bool)
      modifies this, store
      ensures (ok, State()) == CheckRate(old(State()), g, m, env)
    {
      hide SW.Admit, Log, WeightOf;
      ok := AdmitHit(g.consumer, WeightOf(m), env.mono);
      if !ok {
        Audit("rate_limited", g.id);
      }
    }

    method AdmitHit(consumer: string, weight: nat, now: real) returns (ok: bool)
      modifies this`dataPlaneHits
      ensures (ok, dataPlaneHits) == SW.Admit(old(dataPlaneHits), SW.Request(consumer, now, weight), RATE_LIMIT, RATE_WINDOW)
    {
      hide SW.Prune, SW.Weight;
      var hits := SW.HitsOf(dataPlaneHits, consumer);
      var recent, used := RecentWeights(hits, now - RATE_WINDOW);
      dataPlaneHits := dataPlaneHits[consumer := recent];
      ok := used + weight <= RATE_LIMIT;
      if ok {
        PutTwiceInMap(old(dataPlaneHits), consumer, recent, recent + [SW.Hit(now, weight)]);
        dataPlaneHits := dataPlaneHits[consumer := recent + [SW.Hit(now, weight)]];
      }
    }

    method AnswerDataPlane(sid: string, g: Grant, m: Message, env: Env) returns (reply: Reply)
      requires IsDataPlane(m)
      modifies this, store
      ensures (reply, State()) == Serve(old(State()), sid, g, m, env)
    {
      hide HandleGetStates, HandleSubscribe, HandleUnsubscribe, HandleHistory, HandleCamera, HandleCallService, HandleWebrtc;
      match m
      case GetStates(_) => reply := AnswerGetStates(g, m, env);
      case Subscribe(_, _) => reply := AnswerSubscribe(sid, g, m, env);
      case Unsubscribe(_) => reply := AnswerUnsubscribe(sid, m);
      case HistoryQuery(_) => reply := AnswerHistoryQuery(g, m, env);
      case CameraSnapshot(_) => reply := AnswerCameraSnapshot(g, m, env);
      case GrantInfo => reply := Info(g.id);
      case CallService(_, _, _, _, _) => reply := AnswerCallService(g, m, env);
      case WebrtcOffer => reply := AnswerWebrtc(g, m, env);
      case WebrtcIce => reply := AnswerWebrtc(g, m, env);
      case Unknown => reply := Failed("unknown_message");
    }

    method AnswerGetStates(g: Grant, m: Message, env: Env) returns (reply: Reply)
      requires m.GetStates?
      modifies this, store
      ensures (reply, State()) == HandleGetStates(old(State()), g, m, env)
    {
      hide Expand, AllAllowed, Enforce, StatesOf, StoreSpec.AppendAudit;
      var entities := ExpandEntityIds(m.entities, ReadEntities(g.manifest), env.known);
      var denied := AnyDenied(entities, ReadEntities(g.manifest));
      if denied {
        Audit("permission_error", g.id);
        return Failed("permission_denied");
      }
      var ok := EnforceRestrictions(g, "read", EntityContext(entities), env);
      if !ok {
        return Failed("permission_denied");
      }
      return States(entities, StatesOf(entities, env.states));
    }

    method AnswerSubscribe(sid: string, g: Grant, m: Message, env: Env) returns (reply: Reply)
      requires m.Subscribe?
      modifies this, store
      ensures (reply, State()) == HandleSubscribe(old(State()), sid, g, m, env)
    {
      hide Expand, AllAllowed, Enforce, StatesOf, Elements, StoreSpec.AppendAudit;
      var entities := ExpandEntityIds(m.entities, SubscriptionEntities(g.manifest), env.known);
      var denied := AnyDenied(entities, SubscriptionEntities(g.manifest));
      if denied {
        Audit("permission_error", g.id);
        return Failed("permission_denied");
      }
      var ok := EnforceRestrictions(g, "subscribe", EntityContext(entities), env);
      if !ok {
        return Failed("permission_denied");
      }
      var id := if m.subscriptionId != "" then m.subscriptionId else env.freshId;
      var s := SessionOf(State(), sid);
      sessions := Put(sessions, sid, s.(subscriptions := Put(s.subscriptions, id, Elements(entities))));
      return Snapshot(id, Elements(entities), StatesOf(entities, env.states));
    }

    method AnswerUnsubscribe(sid: string, m: Message) returns (reply: Reply)
      requires m.Unsubscribe?
      modifies this
      ensures (reply, State()) == HandleUnsubscribe(old(State()), sid, m)
    {
      var s := SessionOf(State(), sid);
      sessions := Put(sessions, sid, s.(subscriptions := Pop(s.subscriptions, m.subscriptionId)));
      reply := Unsubscribed(m.subscriptionId);
    }

    method AnswerHistoryQuery(g: Grant, m: Message, env: Env) returns (reply: Reply)
      requires m.HistoryQuery?
      modifies this, store
      ensures (reply, State()) == HandleHistory(old(State()), g, m, env)
    {
      hide AllAllowed, Enforce, StoreSpec.AppendAudit;
      if |m.entities| > MAX_HISTORY_ENTITIES {
        Audit("history_query_limited", g.id);
        return Failed("history_limit_exceeded");
      }
      var denied := AnyDenied(m.entities, HistoryEntities(g.manifest));
      if denied {
        Audit("permission_error", g.id);
        return Failed("permission_denied");
      }
      var ok := EnforceRestrictions(g, "history", EntityContext(m.entities), env);
      if !ok {
        return Failed("permission_denied");
      }
      return Reply.History(m.entities);
    }

    method AnswerCameraSnapshot(g: Grant, m: Message, env: Env) returns (reply: Reply)
      requires m.CameraSnapshot?
      modifies this, store
      ensures (reply, State()) == HandleCamera(old(State()), g, m, env)
    {
      hide EntityAllowed, Enforce, StoreSpec.AppendAudit;
      if !EntityAllowed(m.entity, CameraEntities(g.manifest)) {
        Audit("permission_error", g.id);
        return Failed("permission_denied");
      }
      var ok := EnforceRestrictions(g, "camera", EntityContext([m.entity]), env);
      if !ok {
        return Failed("permission_denied");
      }
      return Camera(m.entity);
    }

    method AnswerCallService(g: Grant, m: Message, env: Env) returns (reply: Reply)
      requires m.CallService?
      modifies this, store
      ensures (reply, State()) == HandleCallService(old(State()), g, m, env)
    {
      hide CallAllowed, Dedup, Enforce, StoreSpec.AppendAudit;
      if env.resolved.None? {
        Audit("permission_error", g.id);
        return Failed("permission_denied");
      }
      var entities := Dedup(m.targets + env.resolved.value);
      var denied := AnyCallDenied(g.manifest, m.domain, m.service, entities);
      if denied {
        Audit("permission_error", g.id);
        return Failed("permission_denied");
      }
      var ok := EnforceRestrictions(g, "action", Context(m.domain, m.service, entities, m.pin, m.pins), env);
      if !ok {
        return Failed("permission_denied");
      }
      var call := ServiceCall(m.domain, m.service, entities);
      calls := calls + [call];
      Audit("call_service", g.id);
      return ServiceCalled(call);
    }

    method AnswerWebrtc(g: Grant, m: Message, env: Env) returns (reply: Reply)
      requires m.WebrtcOffer? || m.WebrtcIce?
      modifies this, store
      ensures (reply, State()) == HandleWebrtc(old(State()), g, m, env)
    {
      if !env.peerStack {
        Audit("webrtc_fallback", g.id);
        return Fallback;
      }
      if m.WebrtcIce? {
        return IceAck;
      }
      Audit("webrtc_answer", g.id);
      return Answer;
    }

    // ----- Restrictions -----

    method EnforceRestrictions(g: Grant, operation: string, c: Context, env: Env) returns (ok: bool)
      modifies this, store
      ensures (ok, State()) == Enforce(old(State()), g, operation, c, env)
    {
      hide FirstDenial, ActiveTemplates, TemplatesAllow, CheckLimits, StoreSpec.AppendAudit;
      var denial := EvaluateRestrictions(g.restrictions, operation, c, env.now);
      if denial.Some? {
        Audit("restriction_denied", g.id);
        return false;
      }
      var templates := TemplateRestrictions(g.restrictions, operation, c);
      ok := CheckTemplates(templates, env);
      if !ok {
        Audit("restriction_denied", g.id);
        return false;
      }
      var verdict := CheckAndRecordRateLimits(g, operation, c, env);
      if verdict != RL.Pass {
        Audit("restriction_denied", g.id);
        return false;
      }
      return true;
    }

    method CheckAndRecordRateLimits(g: Grant, operation: string, c: Context, env: Env) returns (verdict: RL.Verdict)
      modifies this
      ensures (verdict, State()) == CheckLimits(old(State()), g, operation, c, env)
    {
      hide ActiveLimiters, RL.Record, RL.CheckRules;
      var matched := RateLimitRestrictions(g.restrictions, operation, c);
      ghost var rules := RulesFor(matched);
      verdict := CheckRates(g.id, matched, env.mono);
      if verdict == RL.Pass {
        RecordHits(g.id, matched, env.mono);
      }
    }

    /** The first loop: check and prune, up to the first limiter that denies. */
    method CheckRates(grantId: string, matched: seq<Restriction>, now: real) returns (verdict: RL.Verdict)
      modifies this`rateHits
      ensures (verdict, rateHits) == RL.CheckRules(old(rateHits), grantId, RulesFor(matched), now)
    {
      hide RL.Recent;
      ghost var rules := RulesFor(matched);
      for i := 0 to |matched|
        invariant RL.CheckRules(old(rateHits), grantId, rules, now) == RL.CheckRules(rateHits, grantId, rules[i..], now)
      {
        var rule := RuleFor(matched[i]);
        var k := (grantId, rule.id);
        var hits := RL.HitsOf(rateHits, k);
        assert rules[i..][0] == rule && rules[i..][1..] == rules[i + 1..];
        ghost var before := rateHits;
        if rule.cooldown != 0.0 && hits != [] && now - hits[|hits| - 1] < rule.cooldown {
          rateHits := rateHits[k := hits];
          return RL.Deny(rule.id, RL.CooldownActive);
        }
        if rule.limit != 0 && rule.window != 0.0 {
          var recent := RecentHits(hits, now, rule.window);
          rateHits := rateHits[k := recent];
          if |recent| >= rule.limit {
            return RL.Deny(rule.id, RL.RateLimited);
          }
        } else {
          rateHits := rateHits[k := hits];
        }
        assert rateHits == before[k := RL.Checked(hits, rule, now)] && RL.Check(hits, rule, now) == RL.Pass;
      }
      return RL.Pass;
    }

    /** The second loop: one hit for each limiter. */
    method RecordHits(grantId: string, matched: seq<Restriction>, now: real)
      modifies this`rateHits
      ensures rateHits == RL.Record(old(rateHits), grantId, RulesFor(matched), now)
    {
      ghost var rules := RulesFor(matched);
      for i := 0 to |matched|
        invariant RL.Record(old(rateHits), grantId, rules, now) == RL.Record(rateHits, grantId, rules[i..], now)
      {
        var k := (grantId, RuleFor(matched[i]).id);
        assert rules[i..][0] == rules[i] && rules[i..][1..] == rules[i + 1..];
        rateHits := rateHits[k := RL.HitsOf(rateHits, k) + [now]];
      }
    }

    // ----- Access requests, authentication and claims -----

    method AnswerAccessRequest(sid: string, m: Message, env: Env) returns (reply: Reply)
      requires m.AccessRequestMsg?
      modifies this, store
      ensures (reply, State()) == HandleAccessRequest(old(State()), sid, m, env)
    {
      hide StoreSpec.PendingByConsumer, StoreSpec.UpsertRequest, StoreSpec.AppendAudit;
      if !env.signed {
        Audit("session_error", "");
        return Failed("bad_signature");
      }
      if m.manifest.None? {
        Audit("session_error", "");
        return Failed("invalid_manifest");
      }
      if TooSoon(State(), m.consumer, env.mono) {
        Audit("session_error", "");
        return Failed("rate_limited");
      }
      requestTimes := RequestTimes(requestTimes, m.consumer, env.mono);
      var existing := store.GetPendingRequestByConsumer(m.consumer);
      var id := if existing.Some? then existing.value.id else env.freshId;
      store.UpsertAccessRequest(AccessRequest(id, m.consumer, m.manifest.value, m.nonce, Pending, env.now.instant, None));
      sessions := Put(sessions, sid, SessionOf(State(), sid).(consumer := m.consumer));
      Audit("access_request_received", id);
      return RequestPending(id);
    }

    method AnswerAuthenticate(sid: string, m: Message, env: Env) returns (reply: Reply)
      requires m.Authenticate?
      modifies this, store
      ensures (reply, State()) == HandleAuthenticate(old(State()), sid, m, env)
    {
      hide StoreSpec.UpsertGrant, StoreSpec.AppendAudit;
      if !m.bound || !env.signed {
        Audit("session_error", "");
        return Failed("bad_signature");
      }
      var grant := Get(store.grants, m.consumer);
      if !Usable(grant, env.now) {
        return Failed("not_authorized");
      }
      store.UpsertGrant(grant.value.(lastUsedAt := Some(env.now.instant)));
      sessions := Put(sessions, sid, SessionOf(State(), sid).(consumer := m.consumer));
      Audit("consumer_connected", grant.value.id);
      return Authenticated(grant.value.id);
    }

    method AnswerClaim(sid: string, m: Message, env: Env) returns (reply: Reply)
      requires m.ClaimShareMsg?
      modifies this, store
      ensures (reply, State()) == HandleClaim(old(State()), sid, m, env)
    {
      hide CheckClaim, LockClaim;
      var early := CheckBeforeLock(sid, m, env);
      if early.Some? {
        return early.value;
      }
      reply := ClaimUnderLock(sid, m);
    }

    method CheckBeforeLock(sid: string, m: Message, env: Env) returns (early: Option<Reply>)
      requires m.ClaimShareMsg?
      modifies this, store
      ensures (early, State()) == CheckClaim(old(State()), sid, m, env)
    {
      hide StoreSpec.AppendAudit;
      var share := Get(store.shares, m.shareId);
      if share.None? || share.value.revoked || IsExpired(share.value.expiresAt, env.now.instant) {
        return Some(Failed("share_unavailable"));
      }
      if m.secretHash != share.value.secretHash {
        Audit("session_error", m.shareId);
        return Some(Failed("bad_share_secret"));
      }
      var existing := Get(store.grants, m.consumer);
      if existing.Some? && !existing.value.revoked {
        if existing.value.shareId == Some(m.shareId) {
          sessions := Put(sessions, sid, SessionOf(State(), sid).(consumer := m.consumer));
          return Some(Claimed(existing.value.id));
        }
        return Some(Failed("consumer_already_claimed"));
      }
      if share.value.claimsUsed >= share.value.maxClaims {
        return Some(Failed("share_claims_exhausted"));
      }
      return None;
    }

    method ClaimUnderLock(sid: string, m: Message) returns (reply: Reply)
      requires m.ClaimShareMsg?
      modifies this, store
      ensures (reply, State()) == LockClaim(old(State()), sid, m)
    {
      hide StoreSpec.ClaimShare, StoreSpec.AppendAudit;
      ClaimFailureChangesNothing(store.State(), m.shareId, m.consumer);
      var grant := store.ClaimShare(m.shareId, m.consumer);
      if grant.None? {
        return Failed("share_claims_exhausted");
      }
      Audit("share_claimed", m.shareId);
      sessions := Put(sessions, sid, SessionOf(State(), sid).(consumer := m.consumer));
      return Claimed(grant.value.id);
    }

    // ----- What the owner and Home Assistant do -----

    method RevokeGrant(id: string) returns (ok: bool)
      modifies this, store
      ensures (ok, State()) == Spec.RevokeGrant(old(State()), id)
    {
      hide StoreSpec.RevokeGrant, StoreSpec.AppendAudit, CloseAll;
      var grant := store.RevokeGrant(id);
      if grant.None? {
        return false;
      }
      CloseSessions(grant.value.consumer);
      Audit("grant_revoked", grant.value.id);
      return true;
    }

    method DeleteGrant(id: string) returns (ok: bool)
      modifies this, store
      ensures (ok, State()) == Spec.DeleteGrant(old(State()), id)
    {
      hide StoreSpec.DeleteGrant, StoreSpec.AppendAudit, CloseAll;
      var grant := store.DeleteGrant(id);
      if grant.None? {
        return false;
      }
      CloseSessions(grant.value.consumer);
      Audit("grant_deleted", grant.value.id);
      return true;
    }

    method CloseSessions(consumer: string)
      modifies this`sessions
      ensures sessions == CloseAll(old(sessions), consumer)
    {
      hide Outbox.Queue;
      for i := 0 to |sessions|
        invariant |sessions| == |old(sessions)|
        invariant forall j :: 0 <= j < i ==> sessions[j] == CloseAll(old(sessions), consumer)[j]
        invariant forall j :: i <= j < |sessions| ==> sessions[j] == old(sessions)[j]
      {
        var (sid, s) := sessions[i];
        if s.consumer == consumer {
          var outbox := Outbox.QueueEvent(s.outbox, Outbox.Error("grant_revoked"));
          sessions := sessions[i := (sid, s.(closed := true, outbox := outbox))];
        }
      }
    }

    method SetGrantRestrictions(id: string, rs: seq<Restriction>) returns (ok: bool)
      modifies this, store
      ensures (ok, State()) == SetRestrictions(old(State()), id, rs)
    {
      hide StoreSpec.GetGrant, StoreSpec.UpsertGrant, StoreSpec.AppendAudit, ClearAll;
      var grant := store.GetGrant(id);
      if grant.None? {
        return false;
      }
      store.UpsertGrant(grant.value.(restrictions := rs));
      Audit("grant_restrictions_updated", grant.value.id);
      ClearSubscriptions(grant.value.consumer);
      return true;
    }

    method ClearSubscriptions(consumer: string)
      modifies this`sessions
      ensures sessions == ClearAll(old(sessions), consumer)
    {
      hide Outbox.Queue;
      for i := 0 to |sessions|
        invariant |sessions| == |old(sessions)|
        invariant forall j :: 0 <= j < i ==> sessions[j] == ClearAll(old(sessions), consumer)[j]
        invariant forall j :: i <= j < |sessions| ==> sessions[j] == old(sessions)[j]
      {
        var (sid, s) := sessions[i];
        if s.consumer == consumer {
          var outbox := Outbox.QueueEvent(s.outbox, Outbox.Error("grant_restrictions_updated"));
          sessions := sessions[i := (sid, s.(subscriptions := [], outbox := outbox))];
        }
      }
    }

    method OnStateChanged(entity: string, state: Option<string>) returns (events: seq<(string, Outbox.Event)>)
      ensures events == StateChanged(sessions, entity, state)
    {
      events := [];
      for i := 0 to |sessions|
        invariant events == StateChanged(sessions[..i], entity, state)
      {
        assert sessions[..i + 1][..i] == sessions[..i];
        var (sid, s) := sessions[i];
        if s.closed {
          assert events + [] == events;
        } else {
          var deltas := Deltas(s.subscriptions, sid, entity, state);
          events := events + deltas;
        }
      }
      assert sessions[..|sessions|] == sessions;
    }

    method Deltas(subscriptions: Dict<set<string>>, sid: string, entity: string, state: Option<string>) returns (events: seq<(string, Outbox.Event)>)
      ensures events == DeltasOf(subscriptions, sid, entity, state)
    {
      events := [];
      for i := 0 to |subscriptions|
        invariant events == DeltasOf(subscriptions[..i], sid, entity, state)
      {
        assert subscriptions[..i + 1][..i] == subscriptions[..i];
        var (id, entities) := subscriptions[i];
        if entity in entities {
          events := events + [(sid, Outbox.Delta(id, map[entity := state]))];
        } else {
          assert events + [] == events;
        }
      }
      assert subscriptions[..|subscriptions|] == subscriptions;
    }

    method QueueEvent(sid: string, e: Outbox.Event)
      modifies this`sessions
      ensures State() == Spec.QueueEvent(old(State()), sid, e)
    {
      var found := Get(sessions, sid);
      if found.Some? {
        var outbox := Outbox.QueueEvent(found.value.outbox, e);
        sessions := Put(sessions, sid, found.value.(outbox := outbox));
      }
    }

    method PopOutbox(sid: string) returns (events: seq<Outbox.Event>)
      modifies this`sessions
      ensures (events, State()) == Spec.PopOutbox(old(State()), sid)
    {
      var found := Get(sessions, sid);
      if found.None? {
        return [];
      }
      events := found.value.outbox;
      sessions := Put(sessions, sid, found.value.(outbox := []));
    }

    method DiscardSession(sid: string)
      modifies this`sessions
      ensures State() == Discard(old(State()), sid)
    {
      sessions := Pop(sessions, sid);
    }
  }

  lemma {:induction false} PutTwiceInMap<V>(m: map<string, V>, k: string, u: V, v: V)
    ensures m[k := u][k := v] == m[k := v]
  {
  }

  lemma {:induction false} PutTwice<V>(d: Dict<V>, k: string, u: V, v: V)
    ensures Put(Put(d, k, u), k, v) == Put(d, k, v)
    decreases |d|
  {
    if d != [] && d[0].0 != k {
      PutTwice(d[1..], k, u, v);
      assert Put(d, k, u)[1..] == Put(d[1..], k, u);
    }
  }

  lemma {:induction false} ClaimFailureChangesNothing(s: StoreSpec.Store, id: string, consumer: string)
    ensures StoreSpec.ClaimShare(s, id, consumer).0.None? ==> StoreSpec.ClaimShare(s, id, consumer).1 == s
  {
  }
}
