/** What one message or one owner's action does to the authority, on values. */
module AuthoritySpec {
  import opened Lists
  import opened Options
  import opened Dict
  import opened Policy
  import opened Models
  import StoreSpec
  import Outbox
  import SW = SlidingWindow
  import RL = RestrictionLimits
  import opened ShareClaims

  const MAX_HISTORY_ENTITIES: nat := 10
  const RATE_LIMIT: nat := 240
  const RATE_WINDOW: real := 60.0
  const REQUEST_INTERVAL: real := 5.0
  const MAX_REQUEST_TIMES: nat := 1000

  datatype Session = Session(consumer: string, closed: bool, subscriptions: Dict<set<string>>, outbox: seq<Outbox.Event>)

  const NEW_SESSION := Session("", false, [], [])

  datatype ServiceCall = ServiceCall(domain: string, service: string, entities: seq<string>)

  /** `calls` lists the service calls that were passed on, oldest first. */
  datatype Authority = Authority(
    store: StoreSpec.Store, sessions: Dict<Session>, rateHits: RL.Hits, dataPlaneHits: SW.Table,
    requestTimes: map<string, real>, calls: seq<ServiceCall>)

  const START := Authority(StoreSpec.EMPTY, [], map[], map[], map[], [])

  /** What the outside contributes to a step: the clocks, the verdict on the signature, Home Assistant's entities and
      their states, rendered templates, resolved targets (none if one is unknown), a new id and the peer stack. */
  datatype Env = Env(
    now: Now, mono: real, signed: bool,
    known: seq<string>, states: Outbox.States, rendered: map<string, Rendered>, resolved: Option<seq<string>>,
    freshId: string, peerStack: bool)

  /** A manifest that fails validation is `None`; a secret stands for its hash. */
  datatype Message =
    | AccessRequestMsg(consumer: string, manifest: Option<Manifest>, nonce: string)
    | Authenticate(consumer: string, bound: bool)
    | ClaimShareMsg(shareId: string, secretHash: string, consumer: string)
    | GetStates(entities: seq<string>)
    | Subscribe(entities: seq<string>, subscriptionId: string)
    | Unsubscribe(subscriptionId: string)
    | HistoryQuery(entities: seq<string>)
    | CameraSnapshot(entity: string)
    | GrantInfo
    | CallService(domain: string, service: string, targets: seq<string>, pin: Option<string>, pins: map<string, string>)
    | WebrtcOffer
    | WebrtcIce
    | Unknown

  datatype Reply =
    | Done
    | Failed(code: string)
    | RequestPending(requestId: string)
    | Authenticated(grantId: string)
    | Claimed(grantId: string)
    | States(entities: seq<string>, states: Outbox.States)
    | Snapshot(subscriptionId: string, subscribed: set<string>, states: Outbox.States)
    | Unsubscribed(subscriptionId: string)
    | History(entities: seq<string>)
    | Camera(entity: string)
    | Info(grantId: string)
    | ServiceCalled(call: ServiceCall)
    | Answer
    | IceAck
    | Fallback

  // ----- Sessions -----

  function SessionOf(a: Authority, sid: string): Session {
    match Get(a.sessions, sid) case Some(s) => s case None => NEW_SESSION
  }

  function WithSession(a: Authority, sid: string, s: Session): Authority {
    a.(sessions := Put(a.sessions, sid, s))
  }

  /** The session as it is, or a new one. */
  function Touch(a: Authority, sid: string): Authority {
    if Get(a.sessions, sid).Some? then a else WithSession(a, sid, NEW_SESSION)
  }

  function Bind(a: Authority, sid: string, consumer: string): Authority {
    WithSession(a, sid, SessionOf(a, sid).(consumer := consumer))
  }

  function Log(a: Authority, name: string, subject: string): Authority {
    a.(store := StoreSpec.AppendAudit(a.store, Event(name, subject)))
  }

  // ----- The gates every data-plane message passes -----

  datatype Gate = Refused(code: string) | Granted(grant: Grant)

  predicate Usable(g: Option<Grant>, now: Now) {
    g.Some? && !g.value.revoked && !IsExpired(g.value.expiresAt, now.instant)
  }

  function RequireGrant(a: Authority, sid: string, env: Env): (Gate, Authority) {
    var s := SessionOf(a, sid);
    var t := Touch(a, sid);
    if s.closed then (Refused("grant_revoked"), t)
    else if s.consumer == "" then (Refused("not_authenticated"), t)
    else
      var g := Get(a.store.grants, s.consumer);
      if Usable(g, env.now) then (Granted(g.value), t)
      else (Refused("grant_revoked"), WithSession(a, sid, s.(closed := true)))
  }

  /** Every message but those that set up a session's consumer. */
  predicate IsDataPlane(m: Message) {
    !m.AccessRequestMsg? && !m.Authenticate? && !m.ClaimShareMsg?
  }

  function WeightOf(m: Message): nat {
    if m.HistoryQuery? || m.CameraSnapshot? then 5 else if m.CallService? then 2 else 1
  }

  function CheckRate(a: Authority, g: Grant, m: Message, env: Env): (bool, Authority) {
    var (ok, table) := SW.Admit(a.dataPlaneHits, SW.Request(g.consumer, env.mono, WeightOf(m)), RATE_LIMIT, RATE_WINDOW);
    var b := a.(dataPlaneHits := table);
    (ok, if ok then b else Log(b, "rate_limited", g.id))
  }

  // ----- Restrictions -----

  predicate TemplateAllows(r: Restriction, env: Env) {
    Strip(r.params.template) != "" && r.params.template in env.rendered && env.rendered[r.params.template].Truthy?
  }

  predicate TemplatesAllow(rs: seq<Restriction>, env: Env) {
    forall i :: 0 <= i < |rs| ==> TemplateAllows(rs[i], env)
  }

  function RuleFor(r: Restriction): RL.Rule {
    RL.Rule(IdOr(r, "rate_limit"), r.params.cooldown, r.params.limit, r.params.window)
  }

  function RulesFor(rs: seq<Restriction>): (rules: seq<RL.Rule>)
    ensures |rules| == |rs| && forall i :: 0 <= i < |rs| ==> rules[i] == RuleFor(rs[i])
  {
    if rs == [] then [] else [RuleFor(rs[0])] + RulesFor(rs[1..])
  }

  function CheckLimits(a: Authority, g: Grant, operation: string, c: Context, env: Env): (RL.Verdict, Authority) {
    var (v, hits) := RL.CheckAndRecord(a.rateHits, g.id, RulesFor(ActiveLimiters(g.restrictions, operation, c)), env.mono);
    (v, a.(rateHits := hits))
  }

  /** The stateless restrictions, then the templates, then the limiters. */
  function Enforce(a: Authority, g: Grant, operation: string, c: Context, env: Env): (bool, Authority) {
    if FirstDenial(g.restrictions, operation, c, env.now).Some? then (false, Log(a, "restriction_denied", g.id))
    else if !TemplatesAllow(ActiveTemplates(g.restrictions, operation, c), env) then (false, Log(a, "restriction_denied", g.id))
    else
      var (v, b) := CheckLimits(a, g, operation, c, env);
      if v == RL.Pass then (true, b) else (false, Log(b, "restriction_denied", g.id))
  }

  function EntityContext(entities: seq<string>): Context {
    Context("", "", entities, None, map[])
  }

  // ----- Entities -----

  predicate IsWildcard(e: string) {
    e == "*" || (|e| >= 2 && e[|e| - 2..] == ".*")
  }

  /** The known entities that a wildcard covers and the scope allows. */
  function Covered(known: seq<string>, wildcard: string, allowed: set<string>): (r: seq<string>)
    ensures forall i :: 0 <= i < |r| ==> EntityAllowed(r[i], {wildcard}) && EntityAllowed(r[i], allowed)
    decreases |known|
  {
    if known == [] then []
    else
      var last := known[|known| - 1];
      Covered(known[..|known| - 1], wildcard, allowed)
      + (if EntityAllowed(last, {wildcard}) && EntityAllowed(last, allowed) then [last] else [])
  }

  function Expanded(requested: seq<string>, allowed: set<string>, known: seq<string>): seq<string>
    decreases |requested|
  {
    if requested == [] then []
    else
      var last := requested[|requested| - 1];
      Expanded(requested[..|requested| - 1], allowed, known) + (if IsWildcard(last) then Covered(known, last, allowed) else [last])
  }

  function Expand(requested: seq<string>, allowed: set<string>, known: seq<string>): seq<string> {
    Dedup(Expanded(requested, allowed, known))
  }

  predicate AllAllowed(entities: seq<string>, allowed: set<string>) {
    forall i :: 0 <= i < |entities| ==> EntityAllowed(entities[i], allowed)
  }

  function StateOf(states: Outbox.States, e: string): Option<string> {
    if e in states then states[e] else None
  }

  function StatesOf(entities: seq<string>, states: Outbox.States): Outbox.States {
    map e | e in entities :: StateOf(states, e)
  }

  // ----- Handlers -----

  function HandleGetStates(a: Authority, g: Grant, m: Message, env: Env): (Reply, Authority)
    requires m.GetStates?
  {
    var entities := Expand(m.entities, ReadEntities(g.manifest), env.known);
    if !AllAllowed(entities, ReadEntities(g.manifest)) then (Failed("permission_denied"), Log(a, "permission_error", g.id))
    else
      var (ok, b) := Enforce(a, g, "read", EntityContext(entities), env);
      (if ok then States(entities, StatesOf(entities, env.states)) else Failed("permission_denied"), b)
  }

  function HandleSubscribe(a: Authority, sid: string, g: Grant, m: Message, env: Env): (Reply, Authority)
    requires m.Subscribe?
  {
    var entities := Expand(m.entities, SubscriptionEntities(g.manifest), env.known);
    if !AllAllowed(entities, SubscriptionEntities(g.manifest)) then (Failed("permission_denied"), Log(a, "permission_error", g.id))
    else
      var (ok, b) := Enforce(a, g, "subscribe", EntityContext(entities), env);
      if !ok then (Failed("permission_denied"), b)
      else
        var id := if m.subscriptionId != "" then m.subscriptionId else env.freshId;
        var s := SessionOf(b, sid);
        (Snapshot(id, Elements(entities), StatesOf(entities, env.states)),
         WithSession(b, sid, s.(subscriptions := Put(s.subscriptions, id, Elements(entities)))))
  }

  function HandleUnsubscribe(a: Authority, sid: string, m: Message): (Reply, Authority)
    requires m.Unsubscribe?
  {
    var s := SessionOf(a, sid);
    (Unsubscribed(m.subscriptionId), WithSession(a, sid, s.(subscriptions := Pop(s.subscriptions, m.subscriptionId))))
  }

  function HandleHistory(a: Authority, g: Grant, m: Message, env: Env): (Reply, Authority)
    requires m.HistoryQuery?
  {
    if |m.entities| > MAX_HISTORY_ENTITIES then (Failed("history_limit_exceeded"), Log(a, "history_query_limited", g.id))
    else if !AllAllowed(m.entities, HistoryEntities(g.manifest)) then (Failed("permission_denied"), Log(a, "permission_error", g.id))
    else
      var (ok, b) := Enforce(a, g, "history", EntityContext(m.entities), env);
      (if ok then Reply.History(m.entities) else Failed("permission_denied"), b)
  }

  function HandleCamera(a: Authority, g: Grant, m: Message, env: Env): (Reply, Authority)
    requires m.CameraSnapshot?
  {
    if !EntityAllowed(m.entity, CameraEntities(g.manifest)) then (Failed("permission_denied"), Log(a, "permission_error", g.id))
    else
      var (ok, b) := Enforce(a, g, "camera", EntityContext([m.entity]), env);
      (if ok then Camera(m.entity) else Failed("permission_denied"), b)
  }

  /** Each entity needs a scope; a call on no entity needs one for the domain. */
  predicate CallAllowed(manifest: Manifest, domain: string, service: string, entities: seq<string>) {
    if entities == [] then ActionAllowed(manifest, domain, service, "")
    else forall i :: 0 <= i < |entities| ==> ActionAllowed(manifest, domain, service, entities[i])
  }

  function HandleCallService(a: Authority, g: Grant, m: Message, env: Env): (Reply, Authority)
    requires m.CallService?
  {
    if env.resolved.None? then (Failed("permission_denied"), Log(a, "permission_error", g.id))
    else
      var entities := Dedup(m.targets + env.resolved.value);
      if !CallAllowed(g.manifest, m.domain, m.service, entities) then (Failed("permission_denied"), Log(a, "permission_error", g.id))
      else
        var (ok, b) := Enforce(a, g, "action", Context(m.domain, m.service, entities, m.pin, m.pins), env);
        if !ok then (Failed("permission_denied"), b)
        else
          var call := ServiceCall(m.domain, m.service, entities);
          (ServiceCalled(call), Log(b.(calls := b.calls + [call]), "call_service", g.id))
  }

  function HandleWebrtc(a: Authority, g: Grant, m: Message, env: Env): (Reply, Authority)
    requires m.WebrtcOffer? || m.WebrtcIce?
  {
    if !env.peerStack then (Fallback, Log(a, "webrtc_fallback", g.id))
    else if m.WebrtcIce? then (IceAck, a)
    else (Answer, Log(a, "webrtc_answer", g.id))
  }

  function Serve(a: Authority, sid: string, g: Grant, m: Message, env: Env): (Reply, Authority)
    requires IsDataPlane(m)
  {
    match m
    case GetStates(_) => HandleGetStates(a, g, m, env)
    case Subscribe(_, _) => HandleSubscribe(a, sid, g, m, env)
    case Unsubscribe(_) => HandleUnsubscribe(a, sid, m)
    case HistoryQuery(_) => HandleHistory(a, g, m, env)
    case CameraSnapshot(_) => HandleCamera(a, g, m, env)
    case GrantInfo => (Info(g.id), a)
    case CallService(_, _, _, _, _) => HandleCallService(a, g, m, env)
    case WebrtcOffer => HandleWebrtc(a, g, m, env)
    case WebrtcIce => HandleWebrtc(a, g, m, env)
    case Unknown => (Failed("unknown_message"), a)
  }

  function HandleDataPlane(a: Authority, sid: string, m: Message, env: Env): (Reply, Authority)
    requires IsDataPlane(m)
  {
    var (gate, b) := RequireGrant(a, sid, env);
    match gate
    case Refused(code) => (Failed(code), b)
    case Granted(g) =>
      var (ok, c) := CheckRate(b, g, m, env);
      if !ok then (Failed("rate_limited"), c) else Serve(c, sid, g, m, env)
  }

  // ----- Access requests, authentication and claims -----

  predicate TooSoon(a: Authority, consumer: string, now: real) {
    consumer in a.requestTimes && now - a.requestTimes[consumer] < REQUEST_INTERVAL
  }

  function RequestTimes(times: map<string, real>, consumer: string, now: real): map<string, real> {
    var kept := if |times| >= MAX_REQUEST_TIMES then map k | k in times && times[k] > now - REQUEST_INTERVAL :: times[k] else times;
    kept[consumer := now]
  }

  function HandleAccessRequest(a: Authority, sid: string, m: Message, env: Env): (Reply, Authority)
    requires m.AccessRequestMsg?
  {
    if !env.signed then (Failed("bad_signature"), Log(a, "session_error", ""))
    else if m.manifest.None? then (Failed("invalid_manifest"), Log(a, "session_error", ""))
    else if TooSoon(a, m.consumer, env.mono) then (Failed("rate_limited"), Log(a, "session_error", ""))
    else
      var (r, store) := StoreSpec.FileRequest(a.store, m.consumer, m.manifest.value, m.nonce, env.freshId, env.now.instant);
      var b := a.(store := store, requestTimes := RequestTimes(a.requestTimes, m.consumer, env.mono));
      (RequestPending(r.id), Log(Bind(b, sid, m.consumer), "access_request_received", r.id))
  }

  function HandleAuthenticate(a: Authority, sid: string, m: Message, env: Env): (Reply, Authority)
    requires m.Authenticate?
  {
    if !m.bound || !env.signed then (Failed("bad_signature"), Log(a, "session_error", ""))
    else
      var g := Get(a.store.grants, m.consumer);
      if !Usable(g, env.now) then (Failed("not_authorized"), a)
      else
        var b := a.(store := StoreSpec.UpsertGrant(a.store, g.value.(lastUsedAt := Some(env.now.instant))));
        (Authenticated(g.value.id), Log(Bind(b, sid, m.consumer), "consumer_connected", g.value.id))
  }

  /** The checks before the lock; no reply yet if the claim is to proceed. */
  function CheckClaim(a: Authority, sid: string, m: Message, env: Env): (Option<Reply>, Authority)
    requires m.ClaimShareMsg?
  {
    match Decide(a.store, m.shareId, m.secretHash, m.consumer, env.now.instant)
    case Unavailable => (Some(Failed("share_unavailable")), a)
    case BadSecret => (Some(Failed("bad_share_secret")), Log(a, "session_error", m.shareId))
    case Held(g) => (Some(Claimed(g.id)), Bind(a, sid, m.consumer))
    case HoldsAnother => (Some(Failed("consumer_already_claimed")), a)
    case Exhausted => (Some(Failed("share_claims_exhausted")), a)
    case Proceed => (None, a)
  }

  function LockClaim(a: Authority, sid: string, m: Message): (Reply, Authority)
    requires m.ClaimShareMsg?
  {
    match StoreSpec.ClaimShare(a.store, m.shareId, m.consumer)
    case (None, _) => (Failed("share_claims_exhausted"), a)
    case (Some(g), store) => (Claimed(g.id), Bind(Log(a.(store := store), "share_claimed", m.shareId), sid, m.consumer))
  }

  function HandleClaim(a: Authority, sid: string, m: Message, env: Env): (Reply, Authority)
    requires m.ClaimShareMsg?
  {
    match CheckClaim(a, sid, m, env)
    case (Some(r), b) => (r, b)
    case (None, b) => LockClaim(b, sid, m)
  }

  function Handle(a: Authority, sid: string, m: Message, env: Env): (Reply, Authority) {
    match m
    case AccessRequestMsg(_, _, _) => HandleAccessRequest(a, sid, m, env)
    case Authenticate(_, _) => HandleAuthenticate(a, sid, m, env)
    case ClaimShareMsg(_, _, _) => HandleClaim(a, sid, m, env)
    case _ => HandleDataPlane(a, sid, m, env)
  }

  // ----- What the owner and Home Assistant do -----

  function Closing(s: Session): Session {
    s.(closed := true, outbox := Outbox.Queue(s.outbox, Outbox.Error("grant_revoked")))
  }

  function Clearing(s: Session): Session {
    s.(subscriptions := [], outbox := Outbox.Queue(s.outbox, Outbox.Error("grant_restrictions_updated")))
  }

  function CloseAll(sessions: Dict<Session>, consumer: string): (r: Dict<Session>)
    ensures |r| == |sessions|
    ensures forall i :: 0 <= i < |r| ==>
      r[i] == (sessions[i].0, if sessions[i].1.consumer == consumer then Closing(sessions[i].1) else sessions[i].1)
  {
    MapValues((s: Session) => if s.consumer == consumer then Closing(s) else s, sessions)
  }

  function ClearAll(sessions: Dict<Session>, consumer: string): (r: Dict<Session>)
    ensures |r| == |sessions|
    ensures forall i :: 0 <= i < |r| ==>
      r[i] == (sessions[i].0, if sessions[i].1.consumer == consumer then Clearing(sessions[i].1) else sessions[i].1)
  {
    MapValues((s: Session) => if s.consumer == consumer then Clearing(s) else s, sessions)
  }

  function RevokeGrant(a: Authority, id: string): (bool, Authority) {
    match StoreSpec.RevokeGrant(a.store, id)
    case (None, store) => (false, a.(store := store))
    case (Some(g), store) => (true, Log(a.(store := store, sessions := CloseAll(a.sessions, g.consumer)), "grant_revoked", g.id))
  }

  function DeleteGrant(a: Authority, id: string): (bool, Authority) {
    match StoreSpec.DeleteGrant(a.store, id)
    case (None, store) => (false, a.(store := store))
    case (Some(g), store) => (true, Log(a.(store := store, sessions := CloseAll(a.sessions, g.consumer)), "grant_deleted", g.id))
  }

  function SetRestrictions(a: Authority, id: string, rs: seq<Restriction>): (bool, Authority) {
    match StoreSpec.SetRestrictions(a.store, id, rs)
    case (None, store) => (false, a.(store := store))
    case (Some(g), store) =>
      var b := Log(a.(store := store), "grant_restrictions_updated", g.id);
      (true, b.(sessions := ClearAll(b.sessions, g.consumer)))
  }

  /** One delta per subscription that lists the entity, for every session that is not closed. */
  function DeltasOf(subscriptions: Dict<set<string>>, sid: string, entity: string, state: Option<string>): seq<(string, Outbox.Event)>
    decreases |subscriptions|
  {
    if subscriptions == [] then []
    else
      var (id, entities) := subscriptions[|subscriptions| - 1];
      DeltasOf(subscriptions[..|subscriptions| - 1], sid, entity, state)
      + (if entity in entities then [(sid, Outbox.Delta(id, map[entity := state]))] else [])
  }

  function StateChanged(sessions: Dict<Session>, entity: string, state: Option<string>): seq<(string, Outbox.Event)>
    decreases |sessions|
  {
    if sessions == [] then []
    else
      var (sid, s) := sessions[|sessions| - 1];
      StateChanged(sessions[..|sessions| - 1], entity, state)
      + (if s.closed then [] else DeltasOf(s.subscriptions, sid, entity, state))
  }

  function QueueEvent(a: Authority, sid: string, e: Outbox.Event): Authority {
    match Get(a.sessions, sid)
    case None => a
    case Some(s) => WithSession(a, sid, s.(outbox := Outbox.Queue(s.outbox, e)))
  }

  function PopOutbox(a: Authority, sid: string): (seq<Outbox.Event>, Authority) {
    match Get(a.sessions, sid)
    case None => ([], a)
    case Some(s) => (s.outbox, WithSession(a, sid, s.(outbox := [])))
  }

  function Discard(a: Authority, sid: string): Authority {
    a.(sessions := Pop(a.sessions, sid))
  }
}
