/** What each data-plane message is answered, exactly. */
module AuthorityAnswers {
  import opened Lists
  import opened Options
  import opened Dict
  import opened Policy
  import opened PolicyMeaning
  import opened Models
  import StoreSpec
  import Outbox
  import opened AuthoritySpec
  import opened AuthorityRuns
  import Trimming

  /** A closed session is told that its grant is revoked, an unbound one that it is not authenticated, and one whose grant is
      missing, revoked or expired that it is revoked, which closes it. */
  lemma {:induction false} GateExactly(a: Authority, sid: string, m: Message, env: Env)
    requires IsDataPlane(m)
    ensures var s := Get(a.sessions, sid);
      var (r, b) := HandleDataPlane(a, sid, m, env);
      && (s.Some? && s.value.closed ==> r == Failed("grant_revoked"))
      && (s.None? || (!s.value.closed && s.value.consumer == "") ==> r == Failed("not_authenticated"))
      && (IsBound(a, sid) && !IsGood(BoundGrant(a, sid), env.now) ==>
            r == Failed("grant_revoked") && Get(b.sessions, sid).Some? && Get(b.sessions, sid).value.closed)
  {
    hide CheckRate, Serve, Put;
    var s := SessionOf(a, sid);
    PutGet(a.sessions, sid, s.(closed := true), sid);
  }

  lemma {:induction false} PastGate(a: Authority, sid: string, m: Message, env: Env)
    requires IsDataPlane(m) && IsBound(a, sid) && IsGood(BoundGrant(a, sid), env.now)
    ensures var g := BoundGrant(a, sid).value;
      var (ok, c) := CheckRate(a, g, m, env);
      && HandleDataPlane(a, sid, m, env) == (if ok then Serve(c, sid, g, m, env) else (Failed("rate_limited"), c))
      && SameButLog(a.(dataPlaneHits := c.dataPlaneHits), c)
  {
    hide CheckRate, Serve;
    RateEffect(a, BoundGrant(a, sid).value, m, env);
  }

  /** Everything that is asked for is in scope. */
  ghost predicate AllGranted(requested: seq<string>, listed: set<string>, known: seq<string>) {
    forall e :: Asked(requested, listed, known, e) ==> GrantsEntity(listed, e)
  }

  lemma {:induction false} AllAllowedIsAllGranted(requested: seq<string>, allowed: set<string>, known: seq<string>)
    ensures AllAllowed(Expand(requested, allowed, known), allowed) <==> AllGranted(requested, allowed, known)
  {
    hide EntityAllowed, GrantsEntity, Expand, Asked;
    ExpandIs(requested, allowed, known);
    forall e
      ensures EntityAllowed(e, allowed) <==> GrantsEntity(allowed, e)
    {
      EntityAllowedExactly(e, allowed);
    }
    var es := Expand(requested, allowed, known);
    if AllAllowed(es, allowed) {
      AllAllowedEach(es, allowed);
    }
  }

  lemma {:induction false} EachAllowedIsGranted(es: seq<string>, allowed: set<string>)
    ensures AllAllowed(es, allowed) <==> forall e :: e in es ==> GrantsEntity(allowed, e)
  {
    hide EntityAllowed, GrantsEntity;
    forall e
      ensures EntityAllowed(e, allowed) <==> GrantsEntity(allowed, e)
    {
      EntityAllowedExactly(e, allowed);
    }
    if AllAllowed(es, allowed) {
      AllAllowedEach(es, allowed);
    }
  }

  lemma {:induction false} StatesExactly(a: Authority, g: Grant, m: Message, env: Env)
    requires m.GetStates?
    ensures var readable := ListedUnder(g.manifest, "read_entities");
      var r := HandleGetStates(a, g, m, env).0;
      if AllGranted(m.entities, readable, env.known)
         && Permitted(a, g, "read", Context("", "", Expand(m.entities, readable, env.known), None, map[]), env)
      then r.States? else r == Failed("permission_denied")
  {
    hide Log, StatesOf, Expand, AllAllowed, AllGranted, Enforce, Permitted, ListedUnder, ReadEntities;
    ScopesAreListed(g.manifest);
    AllAllowedIsAllGranted(m.entities, ReadEntities(g.manifest), env.known);
    EnforcedExactly(a, g, "read", EntityContext(Expand(m.entities, ReadEntities(g.manifest), env.known)), env);
  }

  lemma {:induction false} SnapshotExactly(a: Authority, sid: string, g: Grant, m: Message, env: Env)
    requires m.Subscribe?
    ensures var readable := ListedUnder(g.manifest, "subscriptions") + ListedUnder(g.manifest, "read_entities");
      var r := HandleSubscribe(a, sid, g, m, env).0;
      if AllGranted(m.entities, readable, env.known)
         && Permitted(a, g, "subscribe", Context("", "", Expand(m.entities, readable, env.known), None, map[]), env)
      then r.Snapshot? else r == Failed("permission_denied")
  {
    hide Log, StatesOf, Expand, AllAllowed, AllGranted, Enforce, Permitted, ListedUnder, SubscriptionEntities, Put, SessionOf;
    ScopesAreListed(g.manifest);
    AllAllowedIsAllGranted(m.entities, SubscriptionEntities(g.manifest), env.known);
    EnforcedExactly(a, g, "subscribe", EntityContext(Expand(m.entities, SubscriptionEntities(g.manifest), env.known)), env);
  }

  lemma {:induction false} HistoryExactly(a: Authority, g: Grant, m: Message, env: Env)
    requires m.HistoryQuery?
    ensures var r := HandleHistory(a, g, m, env).0;
      if |m.entities| > 10 then r == Failed("history_limit_exceeded")
      else if (forall e :: e in m.entities ==> GrantsEntity(ListedUnder(g.manifest, "history"), e))
              && Permitted(a, g, "history", Context("", "", m.entities, None, map[]), env)
      then r == Reply.History(m.entities) else r == Failed("permission_denied")
  {
    hide Log, AllAllowed, Enforce, Permitted, ListedUnder, HistoryEntities, GrantsEntity;
    ScopesAreListed(g.manifest);
    EachAllowedIsGranted(m.entities, HistoryEntities(g.manifest));
    EnforcedExactly(a, g, "history", EntityContext(m.entities), env);
  }

  lemma {:induction false} CameraExactly(a: Authority, g: Grant, m: Message, env: Env)
    requires m.CameraSnapshot?
    ensures var r := HandleCamera(a, g, m, env).0;
      if GrantsEntity(ListedUnder(g.manifest, "camera_snapshots"), m.entity)
         && Permitted(a, g, "camera", Context("", "", [m.entity], None, map[]), env)
      then r == Camera(m.entity) else r == Failed("permission_denied")
  {
    hide Log, EntityAllowed, Enforce, Permitted, ListedUnder, CameraEntities, GrantsEntity;
    ScopesAreListed(g.manifest);
    EntityAllowedExactly(m.entity, CameraEntities(g.manifest));
    EnforcedExactly(a, g, "camera", EntityContext([m.entity]), env);
  }

  /** Each target of the call is granted; a call without targets needs the whole domain. */
  ghost predicate CallGranted(manifest: Manifest, domain: string, service: string, targets: seq<string>) {
    if targets == [] then GrantsCall(ListedUnder(manifest, "actions"), domain, service, "")
    else forall e :: e in targets ==> GrantsCall(ListedUnder(manifest, "actions"), domain, service, e)
  }

  lemma {:induction false} CallAllowedIsGranted(manifest: Manifest, domain: string, service: string, targets: seq<string>)
    ensures CallAllowed(manifest, domain, service, targets) <==> CallGranted(manifest, domain, service, targets)
  {
    hide ActionAllowed, GrantsCall, ListedUnder;
    ActionAllowedExactly(manifest, domain, service, "");
    forall i | 0 <= i < |targets|
      ensures ActionAllowed(manifest, domain, service, targets[i]) <==> GrantsCall(ListedUnder(manifest, "actions"), domain, service, targets[i])
    {
      ActionAllowedExactly(manifest, domain, service, targets[i]);
    }
  }

  /** `es` lists the given targets and the resolved ones, each once. */
  lemma {:induction false} CallExactly(a: Authority, g: Grant, m: Message, env: Env)
    requires m.CallService?
    ensures var (r, b) := HandleCallService(a, g, m, env);
      if env.resolved.None? then r == Failed("permission_denied") && b.calls == a.calls
      else
        var es := Dedup(m.targets + env.resolved.value);
        && NoRepeats(es) && (forall e :: e in es <==> e in m.targets || e in env.resolved.value)
        && (if CallGranted(g.manifest, m.domain, m.service, es)
               && Permitted(a, g, "action", Context(m.domain, m.service, es, m.pin, m.pins), env)
            then r == ServiceCalled(ServiceCall(m.domain, m.service, es)) && b.calls == a.calls + [ServiceCall(m.domain, m.service, es)]
            else r == Failed("permission_denied") && b.calls == a.calls)
  {
    hide Log, CallAllowed, CallGranted, Enforce, Permitted, Dedup, NoRepeats;
    LogOnly(a, "permission_error", g.id);
    if env.resolved.Some? {
      var es := Dedup(m.targets + env.resolved.value);
      var c := Context(m.domain, m.service, es, m.pin, m.pins);
      TargetsAre(m.targets, env.resolved.value);
      CallAllowedIsGranted(g.manifest, m.domain, m.service, es);
      EnforcedExactly(a, g, "action", c, env);
      EnforceEffect(a, g, "action", c, env);
      var b := Enforce(a, g, "action", c, env).1;
      LogOnly(b.(calls := b.calls + [ServiceCall(m.domain, m.service, es)]), "call_service", g.id);
    }
  }

  lemma {:induction false} TargetsAre(targets: seq<string>, resolved: seq<string>)
    ensures var es := Dedup(targets + resolved);
      NoRepeats(es) && forall e :: e in es <==> e in targets || e in resolved
  {
    hide Dedup, NoRepeats;
    var all := targets + resolved;
    Trimming.DedupSame(all);
    Trimming.DedupHasNoRepeats(all);
    forall e
      ensures e in Dedup(all) <==> e in targets || e in resolved
    {
      assert e in Dedup(all) <==> e in Elements(Dedup(all));
      assert e in all <==> e in Elements(all);
    }
  }

  /** A message of a bound session under a good grant that is not refused for its rate is answered exactly if everything it
      asks for is granted and every restriction in force permits it. */
  lemma {:induction false} AnsweredExactly(a: Authority, sid: string, m: Message, env: Env)
    requires IsDataPlane(m) && IsBound(a, sid) && IsGood(BoundGrant(a, sid), env.now)
    requires HandleDataPlane(a, sid, m, env).0 != Failed("rate_limited")
    ensures var g := BoundGrant(a, sid).value;
      var r := HandleDataPlane(a, sid, m, env).0;
      var readable := ListedUnder(g.manifest, "read_entities");
      match m
      case GetStates(es) =>
        if AllGranted(es, readable, env.known) && Permitted(a, g, "read", Context("", "", Expand(es, readable, env.known), None, map[]), env)
        then r.States? else r == Failed("permission_denied")
      case Subscribe(es, _) =>
        var listed := ListedUnder(g.manifest, "subscriptions") + readable;
        if AllGranted(es, listed, env.known) && Permitted(a, g, "subscribe", Context("", "", Expand(es, listed, env.known), None, map[]), env)
        then r.Snapshot? else r == Failed("permission_denied")
      case Unsubscribe(id) => r == Unsubscribed(id)
      case HistoryQuery(es) =>
        if |es| > 10 then r == Failed("history_limit_exceeded")
        else if (forall e :: e in es ==> GrantsEntity(ListedUnder(g.manifest, "history"), e))
                && Permitted(a, g, "history", Context("", "", es, None, map[]), env)
        then r == Reply.History(es) else r == Failed("permission_denied")
      case CameraSnapshot(e) =>
        if GrantsEntity(ListedUnder(g.manifest, "camera_snapshots"), e) && Permitted(a, g, "camera", Context("", "", [e], None, map[]), env)
        then r == Camera(e) else r == Failed("permission_denied")
      case GrantInfo => r == Info(g.id)
      case CallService(domain, service, targets, pin, pins) =>
        if env.resolved.None? then r == Failed("permission_denied")
        else
          var es := Dedup(targets + env.resolved.value);
          if CallGranted(g.manifest, domain, service, es) && Permitted(a, g, "action", Context(domain, service, es, pin, pins), env)
          then r == ServiceCalled(ServiceCall(domain, service, es)) else r == Failed("permission_denied")
      case WebrtcOffer => r == (if env.peerStack then Answer else Fallback)
      case WebrtcIce => r == (if env.peerStack then IceAck else Fallback)
      case _ => r == Failed("unknown_message")
  {
    hide CheckRate, Permitted, AllGranted, CallGranted, GrantsEntity, ListedUnder, Expand, Dedup, HandleGetStates, HandleSubscribe,
      HandleHistory, HandleCamera, HandleCallService, HandleDataPlane, Log, Pop, NoRepeats;
    var g := BoundGrant(a, sid).value;
    var c := CheckRate(a, g, m, env).1;
    PastGate(a, sid, m, env);
    SamePermitted(a, c, g, env);
    match m
    case GetStates(_) => StatesExactly(c, g, m, env);
    case Subscribe(_, _) => SnapshotExactly(c, sid, g, m, env);
    case HistoryQuery(_) => HistoryExactly(c, g, m, env);
    case CameraSnapshot(_) => CameraExactly(c, g, m, env);
    case CallService(_, _, _, _, _) => CallExactly(c, g, m, env);
    case _ =>
  }

  lemma {:induction false} SamePermitted(a: Authority, b: Authority, g: Grant, env: Env)
    requires a.rateHits == b.rateHits
    ensures forall operation, c :: Permitted(a, g, operation, c, env) <==> Permitted(b, g, operation, c, env)
  {
    hide Permitted;
    forall operation, c
      ensures Permitted(a, g, operation, c, env) <==> Permitted(b, g, operation, c, env)
    {
      if Permitted(a, g, operation, c, env) {
        PermittedByLists(b, a, g, operation, c, env);
      }
      if Permitted(b, g, operation, c, env) {
        PermittedByLists(a, b, g, operation, c, env);
      }
    }
  }
}
