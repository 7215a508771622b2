/** What holds over every run of the authority. */
module AuthorityRuns {
  import opened Lists
  import opened Options
  import opened Dict
  import opened Policy
  import opened Models
  import StoreSpec
  import SI = StoreInvariants
  import Outbox
  import SW = SlidingWindow
  import RL = RestrictionLimits
  import opened AuthoritySpec
  import opened PolicyMeaning
  import LM = LimiterMeaning
  import Trimming

  /** The locked part of a claim may come any time after its checks. */
  datatype Op =
    | Receive(sid: string, m: Message)
    | ClaimCheck(sid: string, m: Message)
    | ClaimLock(sid: string, m: Message)
    | Revoke(id: string)
    | Delete(id: string)
    | Restrict(id: string, rs: seq<Restriction>)
    | Owner(op: SI.Op)
    | Push(entity: string, state: Option<string>)
    | Enqueue(sid: string, event: Outbox.Event)
    | Flush(sid: string)
    | Drop(sid: string)

  datatype Input = Input(op: Op, env: Env)

  datatype Output = Replied(reply: Reply) | Pushed(events: seq<(string, Outbox.Event)>) | Flushed(pending: seq<Outbox.Event>) | Silent

  /** What the owner does to the store without touching sessions. */
  predicate IsOwnerOp(op: SI.Op) {
    || op.ApproveOp? || op.RejectOp? || op.Preapprove? || op.CreateShare? || op.RevokeShareOp? || op.DeleteShareOp?
    || op.PurgeSharesOp? || op.PurgeGrantsOp? || op.Audit?
  }

  function Step(a: Authority, i: Input): (Output, Authority) {
    match i.op
    case Receive(sid, m) => var (r, b) := Handle(a, sid, m, i.env); (Replied(r), b)
    case ClaimCheck(sid, m) =>
      if !m.ClaimShareMsg? then (Silent, a)
      else
        var (r, b) := CheckClaim(a, sid, m, i.env);
        (match r case Some(reply) => Replied(reply) case None => Silent, b)
    case ClaimLock(sid, m) => if !m.ClaimShareMsg? then (Silent, a) else var (r, b) := LockClaim(a, sid, m); (Replied(r), b)
    case Revoke(id) => (Silent, RevokeGrant(a, id).1)
    case Delete(id) => (Silent, DeleteGrant(a, id).1)
    case Restrict(id, rs) => (Silent, SetRestrictions(a, id, rs).1)
    case Owner(op) => (Silent, if IsOwnerOp(op) then a.(store := SI.Step(a.store, op)) else a)
    case Push(e, state) => (Pushed(StateChanged(a.sessions, e, state)), a)
    case Enqueue(sid, e) => (Silent, QueueEvent(a, sid, e))
    case Flush(sid) => var (es, b) := PopOutbox(a, sid); (Flushed(es), b)
    case Drop(sid) => (Silent, Discard(a, sid))
  }

  function Run(inputs: seq<Input>): Authority
    decreases |inputs|
  {
    if inputs == [] then START else Step(Run(inputs[..|inputs| - 1]), inputs[|inputs| - 1]).1
  }

  function OutputAt(inputs: seq<Input>, i: nat): Output
    requires i < |inputs|
  {
    Step(Run(inputs[..i]), inputs[i]).0
  }

  // ----- What a data reply needs -----

  predicate IsData(r: Reply) {
    r.States? || r.Snapshot? || r.History? || r.Camera? || r.ServiceCalled?
  }

  /** Every entity of the reply is in the scope for its kind; a call on no entity needs the scope for the domain. */
  predicate ScopeChecked(manifest: Manifest, r: Reply) {
    match r
    case States(es, states) => states.Keys == Elements(es) && forall e :: e in states ==> EntityAllowed(e, ReadEntities(manifest))
    case Snapshot(_, es, states) => states.Keys == es && forall e :: e in es ==> EntityAllowed(e, SubscriptionEntities(manifest))
    case History(es) => |es| <= MAX_HISTORY_ENTITIES && forall e :: e in es ==> EntityAllowed(e, HistoryEntities(manifest))
    case Camera(e) => EntityAllowed(e, CameraEntities(manifest))
    case ServiceCalled(call) =>
      && (call.entities == [] ==> call.domain + ".*" in ActionScopes(manifest))
      && (forall e :: e in call.entities ==> ActionAllowed(manifest, call.domain, call.service, e))
    case _ => true
  }

  function OperationOf(r: Reply): string {
    match r
    case States(_, _) => "read"
    case Snapshot(_, _, _) => "subscribe"
    case History(_) => "history"
    case Camera(_) => "camera"
    case _ => "action"
  }

  /** What the restrictions saw of the message: the entities that the reply is about. */
  ghost predicate ContextOf(m: Message, r: Reply, c: Context) {
    match r
    case States(es, _) => c == Context("", "", es, None, map[])
    case Snapshot(_, es, _) => c == Context("", "", c.entityIds, None, map[]) && (set e | e in c.entityIds) == es
    case History(es) => c == Context("", "", es, None, map[])
    case Camera(e) => c == Context("", "", [e], None, map[])
    case ServiceCalled(call) =>
      m.CallService? && call.domain == m.domain && call.service == m.service
      && c == Context(m.domain, m.service, call.entities, m.pin, m.pins)
    case _ => false
  }

  // ----- The same in the terms of manifests, messages and restrictions -----

  /** An entry of a request asks for the entity itself, or as a wildcard for the known entities that it covers and that are
      in scope. */
  ghost predicate AskedBy(w: string, listed: set<string>, known: seq<string>, e: string) {
    if w == "*" || (|w| >= 2 && w[|w| - 2] == '.' && w[|w| - 1] == '*')
    then e in known && GrantsEntity({w}, e) && GrantsEntity(listed, e)
    else e == w
  }

  ghost predicate Asked(requested: seq<string>, listed: set<string>, known: seq<string>, e: string) {
    exists w :: w in requested && AskedBy(w, listed, known, e)
  }

  /** Each entity with what the outside knows of it: its state, or none. */
  predicate StatesGiven(states: Outbox.States, env: Env) {
    forall e :: e in states ==> states[e] == if e in env.states then env.states[e] else None
  }

  /** Every entity of the reply is in the scope for its kind, and a call on no entity needs the whole domain; states are
      those of the entities and no others. */
  ghost predicate InScope(manifest: Manifest, env: Env, r: Reply) {
    var readable := ListedUnder(manifest, "read_entities");
    match r
    case States(es, states) =>
      states.Keys == (set e | e in es) && StatesGiven(states, env) && forall e :: e in states ==> GrantsEntity(readable, e)
    case Snapshot(_, es, states) =>
      states.Keys == es && StatesGiven(states, env) && forall e :: e in es ==> GrantsEntity(ListedUnder(manifest, "subscriptions") + readable, e)
    case History(es) => |es| <= 10 && forall e :: e in es ==> GrantsEntity(ListedUnder(manifest, "history"), e)
    case Camera(e) => GrantsEntity(ListedUnder(manifest, "camera_snapshots"), e)
    case ServiceCalled(call) =>
      && (call.entities == [] ==> GrantsCall(ListedUnder(manifest, "actions"), call.domain, call.service, ""))
      && (forall e :: e in call.entities ==> GrantsCall(ListedUnder(manifest, "actions"), call.domain, call.service, e))
    case _ => true
  }

  /** The reply is about what the message asks for: all of it, and nothing else. */
  ghost predicate Answers(manifest: Manifest, m: Message, env: Env, r: Reply) {
    var readable := ListedUnder(manifest, "read_entities");
    match r
    case States(es, _) => m.GetStates? && NoRepeats(es) && forall e :: e in es <==> Asked(m.entities, readable, env.known, e)
    case Snapshot(id, es, _) =>
      && m.Subscribe? && id == (if m.subscriptionId != "" then m.subscriptionId else env.freshId)
      && forall e :: e in es <==> Asked(m.entities, ListedUnder(manifest, "subscriptions") + readable, env.known, e)
    case History(es) => m.HistoryQuery? && es == m.entities
    case Camera(e) => m.CameraSnapshot? && e == m.entity
    case ServiceCalled(call) =>
      && m.CallService? && call.domain == m.domain && call.service == m.service && NoRepeats(call.entities)
      && env.resolved.Some? && forall e :: e in call.entities <==> e in m.targets || e in env.resolved.value
    case _ => true
  }

  /** Every restriction in force lets the operation pass by its own terms, a template by what it renders to. */
  ghost predicate TermsPermit(g: Grant, operation: string, c: Context, env: Env) {
    forall r :: r in g.restrictions && InForce(r, operation, c) ==>
      && LetsPass(r, c, env.now)
      && (Lower(r.typ) == "template" ==>
            Strip(r.params.template) != "" && r.params.template in env.rendered && env.rendered[r.params.template] == Truthy)
  }

  /** ... and so do the limiters, by the hits under their ids. */
  ghost predicate Permitted(a: Authority, g: Grant, operation: string, c: Context, env: Env) {
    TermsPermit(g, operation, c, env) && LM.AllMeetTerms(a.rateHits, g.id, LM.LimitersInForce(g.restrictions, operation, c), env.mono)
  }

  predicate IsGood(g: Option<Grant>, now: Now) {
    g.Some? && !g.value.revoked && (g.value.expiresAt.Some? ==> now.instant < g.value.expiresAt.value)
  }

  /** The session is open and bound to a consumer. */
  predicate IsBound(a: Authority, sid: string) {
    var s := Get(a.sessions, sid); s.Some? && !s.value.closed && s.value.consumer != ""
  }

  /** The grant of a bound session. */
  function BoundGrant(a: Authority, sid: string): Option<Grant>
    requires IsBound(a, sid)
  {
    Get(a.store.grants, Get(a.sessions, sid).value.consumer)
  }

  /** The session is open and its consumer's grant is good, covers the reply and permits it, and the reply answers the message. */
  ghost predicate Justified(a: Authority, sid: string, m: Message, env: Env, r: Reply) {
    var s := Get(a.sessions, sid);
    && s.Some? && !s.value.closed && s.value.consumer != ""
    && var g := Get(a.store.grants, s.value.consumer);
    && IsGood(g, env.now) && InScope(g.value.manifest, env, r) && Answers(g.value.manifest, m, env, r)
    && exists c :: ContextOf(m, r, c) && Permitted(a, g.value, OperationOf(r), c, env)
  }

  // ----- Restrictions -----

  lemma {:induction false} LimitersPassExactly(a: Authority, g: Grant, operation: string, c: Context, env: Env)
    ensures CheckLimits(a, g, operation, c, env).0 == RL.Pass
      <==> RL.AllPass(a.rateHits, g.id, RulesFor(ActiveLimiters(g.restrictions, operation, c)), env.mono)
  {
    hide RL.CheckRules, RL.Record, RL.AllPass, RulesFor, ActiveLimiters;
    RL.PassesExactly(a.rateHits, g.id, RulesFor(ActiveLimiters(g.restrictions, operation, c)), env.mono);
  }

  /** What is permitted meets the terms of the first limiter with each id, and so of every one whose id is its own, on all
      the hits kept under the id. */
  lemma {:induction false} OwnListPasses(a: Authority, g: Grant, operation: string, c: Context, env: Env, i: nat)
    requires Permitted(a, g, operation, c, env)
    requires var rules := LM.LimitersInForce(g.restrictions, operation, c);
      i < |rules| && forall j :: 0 <= j < i ==> rules[j].id != rules[i].id
    ensures var rule := LM.LimitersInForce(g.restrictions, operation, c)[i];
      LM.MeetsTerms(if (g.id, rule.id) in a.rateHits then a.rateHits[(g.id, rule.id)] else [], rule, env.mono)
  {
    hide LM.MeetsTerms, InForce, LetsPass, Lower, Strip, LM.LimitersInForce;
    var rules := LM.LimitersInForce(g.restrictions, operation, c);
    var hits := if (g.id, rules[i].id) in a.rateHits then a.rateHits[(g.id, rules[i].id)] else [];
    assert LM.MeetsTermsAt(a.rateHits, g.id, rules, i, env.mono);
    LM.AllSurvive(hits, rules[..i], rules[i].id, env.mono);
  }

  /** Whether the limiters are asked at all. */
  predicate Reached(g: Grant, operation: string, c: Context, env: Env) {
    FirstDenial(g.restrictions, operation, c, env.now).None? && TemplatesAllow(ActiveTemplates(g.restrictions, operation, c), env)
  }

  /** Nothing but the store's log changes. */
  predicate SameButLog(a: Authority, b: Authority) {
    && b.sessions == a.sessions && b.rateHits == a.rateHits && b.dataPlaneHits == a.dataPlaneHits
    && b.requestTimes == a.requestTimes && b.calls == a.calls
    && b.store.grants == a.store.grants && b.store.requests == a.store.requests && b.store.shares == a.store.shares
  }

  lemma {:induction false} LogOnly(a: Authority, name: string, subject: string)
    ensures SameButLog(a, Log(a, name, subject))
  {
  }

  lemma {:induction false} EnforceEffect(a: Authority, g: Grant, operation: string, c: Context, env: Env)
    ensures var (ok, b) := Enforce(a, g, operation, c, env);
      && b.sessions == a.sessions && b.dataPlaneHits == a.dataPlaneHits && b.requestTimes == a.requestTimes && b.calls == a.calls
      && b.store.grants == a.store.grants
      && b.rateHits == (if Reached(g, operation, c, env) then CheckLimits(a, g, operation, c, env).1.rateHits else a.rateHits)
      && (ok <==> Reached(g, operation, c, env) && CheckLimits(a, g, operation, c, env).0 == RL.Pass)
  {
    hide FirstDenial, ActiveTemplates, TemplatesAllow, ActiveLimiters, RL.CheckAndRecord, Log;
    LogOnly(a, "restriction_denied", g.id);
    LogOnly(CheckLimits(a, g, operation, c, env).1, "restriction_denied", g.id);
    SameAlready(CheckLimits(a, g, operation, c, env).1);
  }

  lemma {:induction false} SameAlready(a: Authority)
    ensures SameButLog(a, a)
  {
  }

  lemma {:induction false} TemplatesPassExactly(g: Grant, operation: string, c: Context, env: Env)
    ensures TemplatesAllow(ActiveTemplates(g.restrictions, operation, c), env)
      <==> forall r :: r in g.restrictions && Active(r, operation, c) && IsTemplate(r) ==> TemplateAllows(r, env)
  {
    hide ActiveTemplates, Active, TemplateAllows, IsTemplate;
    var templates := ActiveTemplates(g.restrictions, operation, c);
    forall r | r in g.restrictions && Active(r, operation, c) && IsTemplate(r)
      ensures exists i :: 0 <= i < |templates| && templates[i] == r
    {
      assert r in templates;
    }
  }

  lemma {:induction false} ReachedExactly(g: Grant, operation: string, c: Context, env: Env)
    requires operation in {"read", "subscribe", "history", "camera", "action"}
    ensures Reached(g, operation, c, env) <==> TermsPermit(g, operation, c, env)
  {
    hide FirstDenial, ActiveTemplates, TemplatesAllow, Active, InForce, StatelessAllows, LetsPass, Lower, Strip;
    TemplatesPassExactly(g, operation, c, env);
    forall r | r in g.restrictions
      ensures Active(r, operation, c) <==> InForce(r, operation, c)
      ensures StatelessAllows(r, c, env.now) <==> LetsPass(r, c, env.now)
    {
      ActiveExactly(r, operation, c);
      StatelessAllowsExactly(r, c, env.now);
    }
  }

  /** ... in the terms of the restrictions. */
  lemma {:induction false} EnforcedExactly(a: Authority, g: Grant, operation: string, c: Context, env: Env)
    requires operation in {"read", "subscribe", "history", "camera", "action"}
    ensures Enforce(a, g, operation, c, env).0 <==> Permitted(a, g, operation, c, env)
  {
    hide Enforce, Reached, TermsPermit, RL.AllPass, LM.AllMeetTerms, LM.LimitersInForce, RulesFor, ActiveLimiters;
    EnforceEffect(a, g, operation, c, env);
    LimitersPassExactly(a, g, operation, c, env);
    LM.LimitersAre(g.restrictions, operation, c);
    LM.PassesByTerms(a.rateHits, g.id, LM.LimitersInForce(g.restrictions, operation, c), env.mono);
    ReachedExactly(g, operation, c, env);
  }

  // ----- One data-plane message -----

  lemma {:induction false} GateEffect(a: Authority, sid: string, env: Env)
    ensures var (gate, b) := RequireGrant(a, sid, env);
      && b == a.(sessions := b.sessions)
      && (gate.Granted? ==>
            var s := Get(a.sessions, sid);
            && b == a && s.Some? && !s.value.closed && s.value.consumer != ""
            && Get(a.store.grants, s.value.consumer) == Some(gate.grant) && Usable(Some(gate.grant), env.now))
      && (gate.Granted? <==>
            (var s := SessionOf(a, sid); !s.closed && s.consumer != "" && Usable(Get(a.store.grants, s.consumer), env.now)))
  {
  }

  lemma {:induction false} RateEffect(a: Authority, g: Grant, m: Message, env: Env)
    ensures var (ok, b) := CheckRate(a, g, m, env);
      && SameButLog(a.(dataPlaneHits := b.dataPlaneHits), b)
      && (ok, b.dataPlaneHits) == SW.Admit(a.dataPlaneHits, SW.Request(g.consumer, env.mono, WeightOf(m)), RATE_LIMIT, RATE_WINDOW)
  {
    hide SW.Admit, StoreSpec.AppendAudit;
    LogOnly(a.(dataPlaneHits := CheckRate(a, g, m, env).1.dataPlaneHits), "rate_limited", g.id);
  }

  /** The message as the restrictions see it: operation, context, and whether they are asked at all. */
  function AskOf(g: Grant, m: Message, env: Env): Option<(string, Context)>
    requires IsDataPlane(m)
  {
    match m
    case GetStates(_) =>
      var es := Expand(m.entities, ReadEntities(g.manifest), env.known);
      if AllAllowed(es, ReadEntities(g.manifest)) then Some(("read", EntityContext(es))) else None
    case Subscribe(_, _) =>
      var es := Expand(m.entities, SubscriptionEntities(g.manifest), env.known);
      if AllAllowed(es, SubscriptionEntities(g.manifest)) then Some(("subscribe", EntityContext(es))) else None
    case HistoryQuery(_) =>
      if |m.entities| <= MAX_HISTORY_ENTITIES && AllAllowed(m.entities, HistoryEntities(g.manifest))
      then Some(("history", EntityContext(m.entities))) else None
    case CameraSnapshot(_) =>
      if EntityAllowed(m.entity, CameraEntities(g.manifest)) then Some(("camera", EntityContext([m.entity]))) else None
    case CallService(_, _, _, _, _) =>
      if env.resolved.Some? && CallAllowed(g.manifest, m.domain, m.service, Dedup(m.targets + env.resolved.value))
      then Some(("action", Context(m.domain, m.service, Dedup(m.targets + env.resolved.value), m.pin, m.pins))) else None
    case _ => None
  }

  /** A handler's effect: on the restriction lists as enforcement says, and on nothing else but its own session and the calls. */
  ghost predicate ServeEffect(a: Authority, sid: string, g: Grant, m: Message, env: Env, r: Reply, b: Authority)
    requires IsDataPlane(m)
  {
    ServeFrame(a, sid, g, m, env, r, b) && (IsData(r) ==> ServeData(a, g, m, env, r))
  }

  ghost predicate ServeFrame(a: Authority, sid: string, g: Grant, m: Message, env: Env, r: Reply, b: Authority)
    requires IsDataPlane(m)
  {
    var ask := AskOf(g, m, env);
    && b.dataPlaneHits == a.dataPlaneHits && b.requestTimes == a.requestTimes && b.store.grants == a.store.grants
    && b.rateHits == (if ask.Some? then Enforce(a, g, ask.value.0, ask.value.1, env).1.rateHits else a.rateHits)
    && b.calls == (if r.ServiceCalled? then a.calls + [r.call] else a.calls)
    && SessionEffect(a, sid, m, r, b)
  }

  ghost predicate ServeData(a: Authority, g: Grant, m: Message, env: Env, r: Reply)
    requires IsDataPlane(m)
  {
    var ask := AskOf(g, m, env);
    && ask.Some? && Enforce(a, g, ask.value.0, ask.value.1, env).0 && ask.value.0 == OperationOf(r)
    && ContextOf(m, r, ask.value.1) && ScopeChecked(g.manifest, r)
  }

  /** A session changes only in its subscriptions: by a snapshot or an unsubscription. */
  ghost predicate SessionEffect(a: Authority, sid: string, m: Message, r: Reply, b: Authority) {
    match r
    case Snapshot(id, es, _) =>
      b.sessions == Put(a.sessions, sid, SessionOf(a, sid).(subscriptions := Put(SessionOf(a, sid).subscriptions, id, es)))
    case Unsubscribed(id) =>
      b.sessions == Put(a.sessions, sid, SessionOf(a, sid).(subscriptions := Pop(SessionOf(a, sid).subscriptions, id)))
    case _ => b.sessions == a.sessions
  }

  lemma {:induction false} ElementsHave(es: seq<string>)
    ensures forall e :: e in Elements(es) <==> e in es
    ensures forall states :: StatesOf(es, states).Keys == Elements(es)
  {
  }

  lemma {:induction false} AllAllowedEach(es: seq<string>, allowed: set<string>)
    requires AllAllowed(es, allowed)
    ensures forall e :: e in es ==> EntityAllowed(e, allowed)
  {
  }

  lemma {:induction false} GetStatesFrame(a: Authority, sid: string, g: Grant, m: Message, env: Env)
    requires m.GetStates?
    ensures var (r, b) := HandleGetStates(a, g, m, env); ServeFrame(a, sid, g, m, env, r, b)
  {
    hide Log, Elements, StatesOf, Dedup, Expand, Expanded, AllAllowed, CallAllowed, Enforce, EntityAllowed,
      ActionAllowed, ReadEntities, SubscriptionEntities, HistoryEntities, CameraEntities, ActionScopes, Get, Put,
      Pop;
    var es := Expand(m.entities, ReadEntities(g.manifest), env.known);
    LogOnly(a, "permission_error", g.id);
    EnforceEffect(a, g, "read", EntityContext(es), env);
  }

  lemma {:induction false} GetStatesData(a: Authority, sid: string, g: Grant, m: Message, env: Env)
    requires m.GetStates?
    ensures var r := HandleGetStates(a, g, m, env).0; IsData(r) ==> ServeData(a, g, m, env, r)
  {
    hide Log, Elements, StatesOf, Dedup, Expand, Expanded, AllAllowed, CallAllowed, Enforce, EntityAllowed,
      ActionAllowed, ReadEntities, SubscriptionEntities, HistoryEntities, CameraEntities, ActionScopes, Get, Put,
      Pop;
    var es := Expand(m.entities, ReadEntities(g.manifest), env.known);
    ElementsHave(es);
    if AllAllowed(es, ReadEntities(g.manifest)) {
      AllAllowedEach(es, ReadEntities(g.manifest));
    }
  }

  lemma {:induction false} SubscribeFrame(a: Authority, sid: string, g: Grant, m: Message, env: Env)
    requires m.Subscribe?
    ensures var (r, b) := HandleSubscribe(a, sid, g, m, env); ServeFrame(a, sid, g, m, env, r, b)
  {
    hide Log, Elements, StatesOf, Dedup, Expand, Expanded, AllAllowed, CallAllowed, Enforce, EntityAllowed,
      ActionAllowed, ReadEntities, SubscriptionEntities, HistoryEntities, CameraEntities, ActionScopes, Get, Put,
      Pop;
    var es := Expand(m.entities, SubscriptionEntities(g.manifest), env.known);
    LogOnly(a, "permission_error", g.id);
    EnforceEffect(a, g, "subscribe", EntityContext(es), env);
  }

  lemma {:induction false} SubscribeData(a: Authority, sid: string, g: Grant, m: Message, env: Env)
    requires m.Subscribe?
    ensures var r := HandleSubscribe(a, sid, g, m, env).0; IsData(r) ==> ServeData(a, g, m, env, r)
  {
    hide Log, Elements, StatesOf, Dedup, Expand, Expanded, AllAllowed, CallAllowed, Enforce, EntityAllowed,
      ActionAllowed, ReadEntities, SubscriptionEntities, HistoryEntities, CameraEntities, ActionScopes, Get, Put,
      Pop;
    var es := Expand(m.entities, SubscriptionEntities(g.manifest), env.known);
    ElementsHave(es);
    if AllAllowed(es, SubscriptionEntities(g.manifest)) {
      AllAllowedEach(es, SubscriptionEntities(g.manifest));
    }
  }

  lemma {:induction false} HistoryFrame(a: Authority, sid: string, g: Grant, m: Message, env: Env)
    requires m.HistoryQuery?
    ensures var (r, b) := HandleHistory(a, g, m, env); ServeFrame(a, sid, g, m, env, r, b)
  {
    hide Log, Elements, StatesOf, Dedup, Expand, Expanded, AllAllowed, CallAllowed, Enforce, EntityAllowed,
      ActionAllowed, ReadEntities, SubscriptionEntities, HistoryEntities, CameraEntities, ActionScopes, Get, Put,
      Pop;
    LogOnly(a, "permission_error", g.id);
    LogOnly(a, "history_query_limited", g.id);
    EnforceEffect(a, g, "history", EntityContext(m.entities), env);
  }

  lemma {:induction false} HistoryData(a: Authority, sid: string, g: Grant, m: Message, env: Env)
    requires m.HistoryQuery?
    ensures var r := HandleHistory(a, g, m, env).0; IsData(r) ==> ServeData(a, g, m, env, r)
  {
    hide Log, Elements, StatesOf, Dedup, Expand, Expanded, AllAllowed, CallAllowed, Enforce, EntityAllowed,
      ActionAllowed, ReadEntities, SubscriptionEntities, HistoryEntities, CameraEntities, ActionScopes, Get, Put,
      Pop;
    if AllAllowed(m.entities, HistoryEntities(g.manifest)) {
      AllAllowedEach(m.entities, HistoryEntities(g.manifest));
    }
  }

  lemma {:induction false} CameraFrame(a: Authority, sid: string, g: Grant, m: Message, env: Env)
    requires m.CameraSnapshot?
    ensures var (r, b) := HandleCamera(a, g, m, env); ServeFrame(a, sid, g, m, env, r, b)
  {
    hide Log, Elements, StatesOf, Dedup, Expand, Expanded, AllAllowed, CallAllowed, Enforce, EntityAllowed,
      ActionAllowed, ReadEntities, SubscriptionEntities, HistoryEntities, CameraEntities, ActionScopes, Get, Put,
      Pop;
    LogOnly(a, "permission_error", g.id);
    EnforceEffect(a, g, "camera", EntityContext([m.entity]), env);
  }

  lemma {:induction false} CameraData(a: Authority, sid: string, g: Grant, m: Message, env: Env)
    requires m.CameraSnapshot?
    ensures var r := HandleCamera(a, g, m, env).0; IsData(r) ==> ServeData(a, g, m, env, r)
  {
    hide Log, Elements, StatesOf, Dedup, Expand, Expanded, AllAllowed, CallAllowed, Enforce, EntityAllowed,
      ActionAllowed, ReadEntities, SubscriptionEntities, HistoryEntities, CameraEntities, ActionScopes, Get, Put,
      Pop;
  }

  lemma {:induction false} CallScope(manifest: Manifest, domain: string, service: string, es: seq<string>)
    requires CallAllowed(manifest, domain, service, es)
    ensures ScopeChecked(manifest, ServiceCalled(ServiceCall(domain, service, es)))
  {
    hide ActionScopes;
    if es == [] {
      assert ActionCandidates(domain, service, "") == {domain + ".*"};
      var x :| x in ActionCandidates(domain, service, "") * ActionScopes(manifest);
    }
  }

  lemma {:induction false} CallServiceFrame(a: Authority, sid: string, g: Grant, m: Message, env: Env)
    requires m.CallService?
    ensures var (r, b) := HandleCallService(a, g, m, env); ServeFrame(a, sid, g, m, env, r, b)
  {
    hide Log, Elements, StatesOf, Dedup, Expand, Expanded, AllAllowed, CallAllowed, Enforce, EntityAllowed,
      ActionAllowed, ReadEntities, SubscriptionEntities, HistoryEntities, CameraEntities, ActionScopes, Get, Put,
      Pop;
    LogOnly(a, "permission_error", g.id);
    if env.resolved.Some? {
      var es := Dedup(m.targets + env.resolved.value);
      var c := Context(m.domain, m.service, es, m.pin, m.pins);
      EnforceEffect(a, g, "action", c, env);
      var b := Enforce(a, g, "action", c, env).1;
      LogOnly(b.(calls := b.calls + [ServiceCall(m.domain, m.service, es)]), "call_service", g.id);
    }
  }

  lemma {:induction false} CallServiceData(a: Authority, sid: string, g: Grant, m: Message, env: Env)
    requires m.CallService?
    ensures var r := HandleCallService(a, g, m, env).0; IsData(r) ==> ServeData(a, g, m, env, r)
  {
    hide Log, Elements, StatesOf, Dedup, Expand, Expanded, AllAllowed, CallAllowed, Enforce, EntityAllowed,
      ActionAllowed, ReadEntities, SubscriptionEntities, HistoryEntities, CameraEntities, ActionScopes, Get, Put,
      Pop;
    hide ScopeChecked;
    if env.resolved.Some? && CallAllowed(g.manifest, m.domain, m.service, Dedup(m.targets + env.resolved.value)) {
      CallScope(g.manifest, m.domain, m.service, Dedup(m.targets + env.resolved.value));
    }
  }

  lemma {:induction false} NoAskEffect(a: Authority, sid: string, g: Grant, m: Message, env: Env)
    requires m.Unsubscribe? || m.GrantInfo? || m.WebrtcOffer? || m.WebrtcIce? || m.Unknown?
    ensures var (r, b) := Serve(a, sid, g, m, env); ServeEffect(a, sid, g, m, env, r, b)
  {
    hide Log, Get, Put, Pop;
    LogOnly(a, "webrtc_fallback", g.id);
    LogOnly(a, "webrtc_answer", g.id);
  }

  lemma {:induction false} ServeHasEffect(a: Authority, sid: string, g: Grant, m: Message, env: Env)
    requires IsDataPlane(m)
    ensures var (r, b) := Serve(a, sid, g, m, env); ServeEffect(a, sid, g, m, env, r, b)
  {
    hide Log, ServeFrame, ServeData, HandleGetStates, HandleSubscribe, HandleHistory, HandleCamera, HandleCallService;
    match m
    case GetStates(_) =>
      GetStatesFrame(a, sid, g, m, env);
      GetStatesData(a, sid, g, m, env);
    case Subscribe(_, _) =>
      SubscribeFrame(a, sid, g, m, env);
      SubscribeData(a, sid, g, m, env);
    case HistoryQuery(_) =>
      HistoryFrame(a, sid, g, m, env);
      HistoryData(a, sid, g, m, env);
    case CameraSnapshot(_) =>
      CameraFrame(a, sid, g, m, env);
      CameraData(a, sid, g, m, env);
    case CallService(_, _, _, _, _) =>
      CallServiceFrame(a, sid, g, m, env);
      CallServiceData(a, sid, g, m, env);
    case _ => NoAskEffect(a, sid, g, m, env);
  }

  // ----- What a reply is about -----

  lemma {:induction false} CoveredIs(known: seq<string>, wildcard: string, allowed: set<string>, e: string)
    ensures e in Covered(known, wildcard, allowed) <==> e in known && EntityAllowed(e, {wildcard}) && EntityAllowed(e, allowed)
    decreases |known|
  {
    hide EntityAllowed;
    if known != [] {
      CoveredIs(known[..|known| - 1], wildcard, allowed, e);
      assert known == known[..|known| - 1] + [known[|known| - 1]];
    }
  }

  lemma {:induction false} OneExpanded(w: string, allowed: set<string>, known: seq<string>, e: string)
    ensures e in (if IsWildcard(w) then Covered(known, w, allowed) else [w]) <==> AskedBy(w, allowed, known, e)
  {
    hide EntityAllowed, GrantsEntity, Covered;
    CoveredIs(known, w, allowed, e);
    EntityAllowedExactly(e, {w});
    EntityAllowedExactly(e, allowed);
    if |w| >= 2 {
      assert w[|w| - 2..] == [w[|w| - 2], w[|w| - 1]];
    }
  }

  lemma {:induction false} ExpandedIs(requested: seq<string>, allowed: set<string>, known: seq<string>, e: string)
    ensures e in Expanded(requested, allowed, known) <==> exists w :: w in requested && AskedBy(w, allowed, known, e)
    decreases |requested|
  {
    hide AskedBy, Covered, IsWildcard;
    if requested != [] {
      var init, last := requested[..|requested| - 1], requested[|requested| - 1];
      ExpandedIs(init, allowed, known, e);
      OneExpanded(last, allowed, known, e);
      assert requested == init + [last];
    }
  }

  /** Expanding a request lists what is asked for, without repeats. */
  lemma {:induction false} ExpandIs(requested: seq<string>, allowed: set<string>, known: seq<string>)
    ensures NoRepeats(Expand(requested, allowed, known))
    ensures forall e :: e in Expand(requested, allowed, known) <==> Asked(requested, allowed, known, e)
  {
    hide Expanded, Dedup;
    var all := Expanded(requested, allowed, known);
    Trimming.DedupSame(all);
    Trimming.DedupHasNoRepeats(all);
    forall e
      ensures e in Dedup(all) <==> Asked(requested, allowed, known, e)
    {
      ExpandedIs(requested, allowed, known, e);
      assert e in Dedup(all) <==> e in Elements(Dedup(all));
      assert e in all <==> e in Elements(all);
    }
  }

  lemma {:induction false} StatesOfGiven(es: seq<string>, env: Env)
    ensures StatesGiven(StatesOf(es, env.states), env)
  {
  }

  lemma {:induction false} GetStatesAnswers(a: Authority, g: Grant, m: Message, env: Env)
    requires m.GetStates?
    ensures var r := HandleGetStates(a, g, m, env).0;
      r.States? ==> Answers(g.manifest, m, env, r) && StatesGiven(r.states, env)
  {
    hide Log, StatesOf, Expand, AllAllowed, Enforce, Asked, NoRepeats, ListedUnder, StatesGiven, ReadEntities;
    ScopesAreListed(g.manifest);
    ExpandIs(m.entities, ReadEntities(g.manifest), env.known);
    StatesOfGiven(Expand(m.entities, ReadEntities(g.manifest), env.known), env);
  }

  lemma {:induction false} SubscribeAnswers(a: Authority, sid: string, g: Grant, m: Message, env: Env)
    requires m.Subscribe?
    ensures var r := HandleSubscribe(a, sid, g, m, env).0;
      r.Snapshot? ==> Answers(g.manifest, m, env, r) && StatesGiven(r.states, env)
  {
    hide Log, StatesOf, Expand, AllAllowed, Enforce, Asked, NoRepeats, ListedUnder, StatesGiven, SubscriptionEntities, Put, SessionOf;
    ScopesAreListed(g.manifest);
    var es := Expand(m.entities, SubscriptionEntities(g.manifest), env.known);
    ExpandIs(m.entities, SubscriptionEntities(g.manifest), env.known);
    StatesOfGiven(es, env);
    ElementsHave(es);
  }

  lemma {:induction false} CallAnswers(a: Authority, g: Grant, m: Message, env: Env)
    requires m.CallService?
    ensures var r := HandleCallService(a, g, m, env).0; r.ServiceCalled? ==> Answers(g.manifest, m, env, r)
  {
    hide Log, CallAllowed, Enforce, NoRepeats, Dedup;
    if env.resolved.Some? {
      var all := m.targets + env.resolved.value;
      Trimming.DedupSame(all);
      Trimming.DedupHasNoRepeats(all);
      forall e
        ensures e in Dedup(all) <==> e in m.targets || e in env.resolved.value
      {
        assert e in Dedup(all) <==> e in Elements(Dedup(all));
        assert e in all <==> e in Elements(all);
      }
    }
  }

  lemma {:induction false} ServeAnswers(a: Authority, sid: string, g: Grant, m: Message, env: Env)
    requires IsDataPlane(m)
    ensures var r := Serve(a, sid, g, m, env).0;
      && (IsData(r) ==> Answers(g.manifest, m, env, r))
      && (r.States? || r.Snapshot? ==> StatesGiven(r.states, env))
  {
    hide Log, AllAllowed, Enforce, StatesGiven, HandleGetStates, HandleSubscribe, HandleCallService;
    match m
    case GetStates(_) =>
      GetStatesAnswers(a, g, m, env);
      RepliesAre(a, sid, g, m, env);
    case Subscribe(_, _) =>
      SubscribeAnswers(a, sid, g, m, env);
      RepliesAre(a, sid, g, m, env);
    case CallService(_, _, _, _, _) =>
      CallAnswers(a, g, m, env);
      RepliesAre(a, sid, g, m, env);
    case _ =>
  }

  lemma {:induction false} RepliesAre(a: Authority, sid: string, g: Grant, m: Message, env: Env)
    ensures m.GetStates? ==> HandleGetStates(a, g, m, env).0.States? || HandleGetStates(a, g, m, env).0.Failed?
    ensures m.Subscribe? ==> HandleSubscribe(a, sid, g, m, env).0.Snapshot? || HandleSubscribe(a, sid, g, m, env).0.Failed?
    ensures m.CallService? ==> HandleCallService(a, g, m, env).0.ServiceCalled? || HandleCallService(a, g, m, env).0.Failed?
  {
    hide Log, Expand, AllAllowed, Enforce, StatesOf, CallAllowed, Dedup;
  }

  /** What was checked is what the scopes grant. */
  lemma {:induction false} CheckedIsInScope(manifest: Manifest, env: Env, r: Reply)
    requires ScopeChecked(manifest, r) && (r.States? || r.Snapshot? ==> StatesGiven(r.states, env))
    ensures InScope(manifest, env, r)
  {
    hide EntityAllowed, ActionAllowed, GrantsEntity, GrantsCall, ListedUnder, ReadEntities, SubscriptionEntities, HistoryEntities,
      CameraEntities, ActionScopes, StatesGiven;
    ScopesAreListed(manifest);
    forall e, listed
      ensures EntityAllowed(e, listed) <==> GrantsEntity(listed, e)
    {
      EntityAllowedExactly(e, listed);
    }
    forall domain, service, e
      ensures ActionAllowed(manifest, domain, service, e) <==> GrantsCall(ListedUnder(manifest, "actions"), domain, service, e)
    {
      ActionAllowedExactly(manifest, domain, service, e);
    }
    if r.ServiceCalled? && r.call.entities == [] {
      DomainIsGranted(manifest, r.call.domain, r.call.service);
    }
  }

  lemma {:induction false} DomainIsGranted(manifest: Manifest, domain: string, service: string)
    requires domain + ".*" in ActionScopes(manifest)
    ensures GrantsCall(ListedUnder(manifest, "actions"), domain, service, "")
  {
    ScopesAreListed(manifest);
    DomainScopeIs(domain + ".*", domain);
  }

  // ----- Run safety -----

  lemma {:induction false} PermittedByLists(a: Authority, b: Authority, g: Grant, operation: string, c: Context, env: Env)
    requires a.rateHits == b.rateHits && Permitted(b, g, operation, c, env)
    ensures Permitted(a, g, operation, c, env)
  {
    hide LM.AllMeetTerms, LM.LimitersInForce, TermsPermit;
  }

  lemma {:induction false} UsableIsGood(g: Option<Grant>, now: Now)
    ensures Usable(g, now) <==> IsGood(g, now)
  {
  }

  /** A data reply comes from an open session under a good grant that covers and permits everything in it. */
  lemma {:induction false} DataIsJustified(a: Authority, sid: string, m: Message, env: Env)
    requires IsDataPlane(m) && IsData(HandleDataPlane(a, sid, m, env).0)
    ensures Justified(a, sid, m, env, HandleDataPlane(a, sid, m, env).0)
  {
    hide RequireGrant, CheckRate, Serve, AskOf, Permitted, ContextOf, ScopeChecked, InScope, Answers, Enforce, SessionEffect, StatesGiven, Usable;
    GateEffect(a, sid, env);
    var (gate, b) := RequireGrant(a, sid, env);
    if gate.Granted? {
      RateEffect(b, gate.grant, m, env);
      var (ok, c) := CheckRate(b, gate.grant, m, env);
      UsableIsGood(Some(gate.grant), env.now);
      if ok {
        ServeHasEffect(c, sid, gate.grant, m, env);
        ServeAnswers(c, sid, gate.grant, m, env);
        CheckedIsInScope(gate.grant.manifest, env, HandleDataPlane(a, sid, m, env).0);
        var ask := AskOf(gate.grant, m, env).value;
        EnforcedExactly(c, gate.grant, ask.0, ask.1, env);
        PermittedByLists(a, c, gate.grant, ask.0, ask.1, env);
      }
    }
  }

  /** The store, the sessions and the request times may have changed. */
  predicate SameLists(a: Authority, b: Authority) {
    b.calls == a.calls && b.dataPlaneHits == a.dataPlaneHits && b.rateHits == a.rateHits
  }

  lemma {:induction false} ClaimFrame(a: Authority, sid: string, m: Message, env: Env)
    requires m.ClaimShareMsg?
    ensures var (r, b) := CheckClaim(a, sid, m, env); (r.Some? ==> !IsData(r.value)) && SameLists(a, b) && b.requestTimes == a.requestTimes
    ensures var (r, b) := LockClaim(a, sid, m); !IsData(r) && SameLists(a, b) && b.requestTimes == a.requestTimes
  {
    hide StoreSpec.AppendAudit, StoreSpec.ClaimShare, Get, Put;
  }

  lemma {:induction false} SetupFrame(a: Authority, sid: string, m: Message, env: Env)
    requires !IsDataPlane(m)
    ensures var (r, b) := Handle(a, sid, m, env);
      !IsData(r) && SameLists(a, b) && (m.AccessRequestMsg? || b.requestTimes == a.requestTimes)
  {
    hide StoreSpec.AppendAudit, StoreSpec.FileRequest, StoreSpec.UpsertGrant, Get, Put, RequestTimes, CheckClaim, LockClaim;
    if m.ClaimShareMsg? {
      ClaimFrame(a, sid, m, env);
      ClaimFrame(CheckClaim(a, sid, m, env).1, sid, m, env);
    }
  }

  lemma {:induction false} DataPlaneFrame(a: Authority, sid: string, m: Message, env: Env)
    requires IsDataPlane(m)
    ensures var (r, b) := HandleDataPlane(a, sid, m, env);
      b.calls == (if r.ServiceCalled? then a.calls + [r.call] else a.calls) && b.requestTimes == a.requestTimes
  {
    hide RequireGrant, CheckRate, Serve, AskOf, ServeData, Enforce, SessionEffect;
    GateEffect(a, sid, env);
    var (gate, b) := RequireGrant(a, sid, env);
    if gate.Granted? {
      RateEffect(b, gate.grant, m, env);
      ServeHasEffect(CheckRate(b, gate.grant, m, env).1, sid, gate.grant, m, env);
    }
  }

  lemma {:induction false} ClaimStepFrame(a: Authority, i: Input)
    requires i.op.ClaimCheck? || i.op.ClaimLock?
    ensures var (o, b) := Step(a, i); (o.Replied? ==> !IsData(o.reply)) && SameLists(a, b) && b.requestTimes == a.requestTimes
  {
    hide CheckClaim, LockClaim;
    var (sid, m) := (i.op.sid, i.op.m);
    if m.ClaimShareMsg? {
      ClaimFrame(a, sid, m, i.env);
      if i.op.ClaimCheck? {
        var (r, b) := CheckClaim(a, sid, m, i.env);
        assert Step(a, i).1 == b;
        assert Step(a, i).0 == (if r.Some? then Replied(r.value) else Silent);
      } else {
        var (r, b) := LockClaim(a, sid, m);
        assert Step(a, i).1 == b;
        assert Step(a, i).0 == Replied(r);
      }
    }
  }

  lemma {:induction false} GrantOpsFrame(a: Authority, id: string, rs: seq<Restriction>)
    ensures SameLists(a, RevokeGrant(a, id).1) && SameLists(a, DeleteGrant(a, id).1) && SameLists(a, SetRestrictions(a, id, rs).1)
    ensures RevokeGrant(a, id).1.requestTimes == DeleteGrant(a, id).1.requestTimes == SetRestrictions(a, id, rs).1.requestTimes == a.requestTimes
  {
    hide StoreSpec.AppendAudit, StoreSpec.RevokeGrant, StoreSpec.DeleteGrant, StoreSpec.SetRestrictions, CloseAll, ClearAll;
  }

  /** Steps other than messages reply with no data and pass on no call. */
  lemma {:induction false} OtherFrame(a: Authority, i: Input)
    requires !i.op.Receive?
    ensures var (o, b) := Step(a, i); (o.Replied? ==> !IsData(o.reply)) && SameLists(a, b) && b.requestTimes == a.requestTimes
  {
    hide RevokeGrant, DeleteGrant, SetRestrictions, SI.Step, IsOwnerOp, Handle, Get, Put, Pop, CheckClaim, LockClaim,
      StateChanged, Outbox.Queue;
    if i.op.ClaimCheck? || i.op.ClaimLock? {
      ClaimStepFrame(a, i);
    } else if i.op.Revoke? || i.op.Delete? {
      GrantOpsFrame(a, i.op.id, []);
    } else if i.op.Restrict? {
      GrantOpsFrame(a, i.op.id, i.op.rs);
    }
  }

  /** In every run, each reply with states, a snapshot, history or a camera image and each service call came from an open
      session under its consumer's grant, unrevoked and unexpired at that step, with every entity in scope and every
      active restriction passed; and nothing else passes on a service call. */
  lemma {:induction false} RunSafety(inputs: seq<Input>, n: nat)
    requires n < |inputs|
    ensures var a, b, o := Run(inputs[..n]), Run(inputs[..n + 1]), OutputAt(inputs, n);
      if o.Replied? && IsData(o.reply)
      then
        && inputs[n].op.Receive?
        && Justified(a, inputs[n].op.sid, inputs[n].op.m, inputs[n].env, o.reply)
        && b.calls == (if o.reply.ServiceCalled? then a.calls + [o.reply.call] else a.calls)
      else b.calls == a.calls
  {
    hide Justified, HandleDataPlane, HandleAccessRequest, HandleAuthenticate, HandleClaim;
    assert inputs[..n + 1][..n] == inputs[..n];
    var a, i := Run(inputs[..n]), inputs[n];
    if i.op.Receive? {
      if IsDataPlane(i.op.m) {
        DataPlaneFrame(a, i.op.sid, i.op.m, i.env);
        if IsData(HandleDataPlane(a, i.op.sid, i.op.m, i.env).0) {
          DataIsJustified(a, i.op.sid, i.op.m, i.env);
        }
      } else {
        SetupFrame(a, i.op.sid, i.op.m, i.env);
      }
    } else {
      OtherFrame(a, i);
    }
  }
}
