/** Sessions over every run: closing is for good, and subscriptions come from snapshots. */
module AuthoritySessions {
  import opened Options
  import opened Dict
  import opened Policy
  import opened Models
  import StoreSpec
  import SI = StoreInvariants
  import Outbox
  import opened AuthoritySpec
  import opened AuthorityRuns

  function SubscriptionOf(s: Session, id: string): Option<set<string>> {
    Get(s.subscriptions, id)
  }

  /** A session stays closed, and it gains no subscription but by the snapshot of its reply. */
  ghost predicate Follows(s: Session, t: Session, r: Reply) {
    && (s.closed ==> t.closed)
    && (forall id :: SubscriptionOf(t, id).Some? ==>
          || SubscriptionOf(s, id) == SubscriptionOf(t, id)
          || (r.Snapshot? && r.subscriptionId == id && r.subscribed == SubscriptionOf(t, id).value))
    && (Sound(s) ==> Sound(t))
  }

  /** ... and its outbox is left alone. */
  ghost predicate Quietly(s: Session, t: Session, r: Reply) {
    Follows(s, t, r) && t.outbox == s.outbox
  }

  function OutboxIn(p: Dict<Session>, sid: string): seq<Outbox.Event> {
    match Get(p, sid) case Some(s) => s.outbox case None => []
  }

  /** Distinct subscriptions, and an outbox within its bounds. */
  predicate Sound(s: Session) {
    && Unique(s.subscriptions)
    && |s.outbox| <= Outbox.OUTBOX_MAX_EVENTS && Outbox.OneDeltaEach(s.outbox)
  }

  /** A message changes no session but its own, and no outbox. */
  ghost predicate Touched(p: Dict<Session>, q: Dict<Session>, sid: string, r: Reply) {
    || q == p
    || exists t :: q == Put(p, sid, t) && Quietly(match Get(p, sid) case Some(s) => s case None => NEW_SESSION, t, r)
  }

  lemma {:induction false} BindTouches(a: Authority, sid: string, consumer: string, r: Reply)
    ensures Touched(a.sessions, Bind(a, sid, consumer).sessions, sid, r)
  {
    var t := SessionOf(a, sid).(consumer := consumer);
    assert Quietly(SessionOf(a, sid), t, r);
  }

  lemma {:induction false} GateTouches(a: Authority, sid: string, env: Env, r: Reply)
    ensures Touched(a.sessions, RequireGrant(a, sid, env).1.sessions, sid, r)
  {
    var s := SessionOf(a, sid);
    assert Quietly(s, s, r) && Quietly(s, s.(closed := true), r);
  }

  lemma {:induction false} ServeTouches(a: Authority, sid: string, m: Message, r: Reply, b: Authority)
    requires SessionEffect(a, sid, m, r, b)
    ensures Touched(a.sessions, b.sessions, sid, r)
  {
    var s := SessionOf(a, sid);
    match r
    case Snapshot(id, es, _) =>
      var t := s.(subscriptions := Put(s.subscriptions, id, es));
      PutKeys(s.subscriptions, id, es);
      forall x
        ensures SubscriptionOf(t, x) == if x == id then Some(es) else SubscriptionOf(s, x)
      {
        PutGet(s.subscriptions, id, es, x);
      }
      assert Quietly(s, t, r);
    case Unsubscribed(id) =>
      var t := s.(subscriptions := Pop(s.subscriptions, id));
      PopKeys(s.subscriptions, id);
      forall x
        ensures SubscriptionOf(t, x) == if x == id then None else SubscriptionOf(s, x)
      {
        PopGet(s.subscriptions, id, x);
      }
      assert Quietly(s, t, r);
    case _ =>
  }

  lemma {:induction false} DataPlaneTouches(a: Authority, sid: string, m: Message, env: Env)
    requires IsDataPlane(m)
    ensures var (r, b) := HandleDataPlane(a, sid, m, env); Touched(a.sessions, b.sessions, sid, r)
  {
    hide RequireGrant, CheckRate, Serve, AskOf, ServeData, Enforce, SessionEffect, Touched;
    var (r, z) := HandleDataPlane(a, sid, m, env);
    GateEffect(a, sid, env);
    GateTouches(a, sid, env, r);
    var (gate, b) := RequireGrant(a, sid, env);
    if gate.Granted? {
      RateEffect(b, gate.grant, m, env);
      var (ok, c) := CheckRate(b, gate.grant, m, env);
      if ok {
        ServeHasEffect(c, sid, gate.grant, m, env);
        ServeTouches(c, sid, m, r, z);
      } else {
        SameTouched(a.sessions, sid, r);
      }
    }
  }

  lemma {:induction false} SameTouched(p: Dict<Session>, sid: string, r: Reply)
    ensures Touched(p, p, sid, r)
  {
  }

  lemma {:induction false} ClaimTouches(a: Authority, sid: string, m: Message, env: Env, r: Reply)
    requires m.ClaimShareMsg?
    ensures Touched(a.sessions, CheckClaim(a, sid, m, env).1.sessions, sid, r)
    ensures Touched(a.sessions, LockClaim(a, sid, m).1.sessions, sid, r)
    ensures Touched(a.sessions, HandleClaim(a, sid, m, env).1.sessions, sid, r)
  {
    hide Touched, Bind, StoreSpec.AppendAudit, StoreSpec.ClaimShare;
    SameTouched(a.sessions, sid, r);
    BindTouches(a, sid, m.consumer, r);
    var (g, store) := StoreSpec.ClaimShare(a.store, m.shareId, m.consumer);
    BindTouches(Log(a.(store := store), "share_claimed", m.shareId), sid, m.consumer, r);
  }

  lemma {:induction false} RequestTouches(a: Authority, sid: string, m: Message, env: Env)
    requires m.AccessRequestMsg? || m.Authenticate?
    ensures var (r, b) := Handle(a, sid, m, env); Touched(a.sessions, b.sessions, sid, r)
  {
    hide Touched, Bind, StoreSpec.AppendAudit, StoreSpec.FileRequest, StoreSpec.UpsertGrant, RequestTimes, TooSoon,
      HandleDataPlane, HandleClaim;
    var (r, b) := Handle(a, sid, m, env);
    SameTouched(a.sessions, sid, r);
    if m.Authenticate? {
      var g := Get(a.store.grants, m.consumer);
      if Usable(g, env.now) {
        BindTouches(a.(store := StoreSpec.UpsertGrant(a.store, g.value.(lastUsedAt := Some(env.now.instant)))), sid, m.consumer, r);
      }
    } else if m.manifest.Some? {
      var store := StoreSpec.FileRequest(a.store, m.consumer, m.manifest.value, m.nonce, env.freshId, env.now.instant).1;
      BindTouches(a.(store := store, requestTimes := RequestTimes(a.requestTimes, m.consumer, env.mono)), sid, m.consumer, r);
    }
  }

  lemma {:induction false} HandleTouches(a: Authority, sid: string, m: Message, env: Env)
    ensures var (r, b) := Handle(a, sid, m, env); Touched(a.sessions, b.sessions, sid, r)
  {
    hide Touched, HandleDataPlane, HandleClaim, HandleAccessRequest, HandleAuthenticate;
    if IsDataPlane(m) {
      DataPlaneTouches(a, sid, m, env);
    } else if m.ClaimShareMsg? {
      ClaimTouches(a, sid, m, env, Handle(a, sid, m, env).0);
    } else {
      RequestTouches(a, sid, m, env);
    }
  }

  // ----- One step -----

  /** Sessions stay closed unless dropped, and gain no subscription but by a snapshot of their own. */
  ghost predicate SessionsFollow(p: Dict<Session>, q: Dict<Session>, op: Op, o: Output) {
    (Keyed(p) ==> Keyed(q)) && ClosedStay(p, q, op) && SubscriptionsFrom(p, q, op, o)
  }

  ghost predicate ClosedStay(p: Dict<Session>, q: Dict<Session>, op: Op) {
    forall x :: Get(p, x).Some? && Get(p, x).value.closed && op != Drop(x) ==> Get(q, x).Some? && Get(q, x).value.closed
  }

  ghost predicate SubscriptionsFrom(p: Dict<Session>, q: Dict<Session>, op: Op, o: Output) {
    forall x, id :: Get(q, x).Some? && SubscriptionOf(Get(q, x).value, id).Some? ==>
      || (Get(p, x).Some? && SubscriptionOf(Get(p, x).value, id) == SubscriptionOf(Get(q, x).value, id))
      || FromSnapshot(op, o, x, id, SubscriptionOf(Get(q, x).value, id).value)
  }

  predicate FromSnapshot(op: Op, o: Output, sid: string, id: string, es: set<string>) {
    && op.Receive? && op.sid == sid
    && o.Replied? && o.reply.Snapshot? && o.reply.subscriptionId == id && o.reply.subscribed == es
  }

  predicate Keyed(p: Dict<Session>) {
    Unique(p) && forall i :: 0 <= i < |p| ==> Sound(p[i].1)
  }

  lemma {:induction false} PutKeyed(p: Dict<Session>, sid: string, t: Session)
    requires Keyed(p) && Sound(t)
    ensures Keyed(Put(p, sid, t))
  {
    PutKeys(p, sid, t);
    PutEntries(p, sid, t);
    var q := Put(p, sid, t);
    forall i | 0 <= i < |q|
      ensures Sound(q[i].1)
    {
      assert q[i] in q;
    }
  }

  lemma {:induction false} KeyedGet(p: Dict<Session>, sid: string)
    requires Keyed(p)
    ensures Get(p, sid).Some? ==> Sound(Get(p, sid).value)
  {
    GetHas(p, sid);
  }

  lemma {:induction false} KeptKeyed(p: Dict<Session>, sid: string, t: Session, r: Reply)
    requires Keyed(p) && Follows(match Get(p, sid) case Some(s) => s case None => NEW_SESSION, t, r)
    ensures Keyed(Put(p, sid, t))
  {
    KeyedGet(p, sid);
    PutKeyed(p, sid, t);
  }

  lemma {:induction false} TouchedOutboxes(p: Dict<Session>, q: Dict<Session>, sid: string, r: Reply, x: string)
    requires Touched(p, q, sid, r)
    ensures OutboxIn(q, x) == OutboxIn(p, x)
  {
    hide Put, Follows;
    if q != p {
      var t :| q == Put(p, sid, t) && Quietly(match Get(p, sid) case Some(s) => s case None => NEW_SESSION, t, r);
      PutGet(p, sid, t, x);
    }
  }

  lemma {:induction false} TouchedClosed(p: Dict<Session>, q: Dict<Session>, sid: string, t: Session, r: Reply, op: Op)
    requires q == Put(p, sid, t) && Follows(match Get(p, sid) case Some(s) => s case None => NEW_SESSION, t, r)
    ensures ClosedStay(p, q, op)
  {
    hide Put, Get, Sound, SubscriptionOf;
    forall x | Get(p, x).Some? && Get(p, x).value.closed
      ensures Get(q, x).Some? && Get(q, x).value.closed
    {
      PutGet(p, sid, t, x);
    }
  }

  lemma {:induction false} TouchedSubscriptions(p: Dict<Session>, q: Dict<Session>, sid: string, t: Session, r: Reply, op: Op, o: Output)
    requires q == Put(p, sid, t) && Follows(match Get(p, sid) case Some(s) => s case None => NEW_SESSION, t, r)
    requires r.Snapshot? ==> op.Receive? && op.sid == sid && o == Replied(r)
    ensures SubscriptionsFrom(p, q, op, o)
  {
    hide Put, Get, Sound, SubscriptionOf;
    forall x, id | Get(q, x).Some? && SubscriptionOf(Get(q, x).value, id).Some?
      ensures (Get(p, x).Some? && SubscriptionOf(Get(p, x).value, id) == SubscriptionOf(Get(q, x).value, id))
        || FromSnapshot(op, o, x, id, SubscriptionOf(Get(q, x).value, id).value)
    {
      PutGet(p, sid, t, x);
      NoSubscription(id);
    }
  }

  lemma {:induction false} PutFollows(p: Dict<Session>, sid: string, t: Session, r: Reply, op: Op, o: Output)
    requires Follows(match Get(p, sid) case Some(s) => s case None => NEW_SESSION, t, r)
    requires r.Snapshot? ==> op.Receive? && op.sid == sid && o == Replied(r)
    ensures SessionsFollow(p, Put(p, sid, t), op, o)
  {
    hide Keyed, Put, Get, Follows, ClosedStay, SubscriptionsFrom;
    var q := Put(p, sid, t);
    TouchedClosed(p, q, sid, t, r, op);
    TouchedSubscriptions(p, q, sid, t, r, op, o);
    if Keyed(p) {
      KeptKeyed(p, sid, t, r);
    }
  }

  lemma {:induction false} TouchedFollows(p: Dict<Session>, q: Dict<Session>, sid: string, r: Reply, op: Op, o: Output)
    requires Touched(p, q, sid, r)
    requires r.Snapshot? ==> op.Receive? && op.sid == sid && o == Replied(r)
    ensures SessionsFollow(p, q, op, o)
  {
    hide SessionsFollow, Put, Get, Follows;
    if q == p {
      SameFollows(p, op, o);
    } else {
      var t :| q == Put(p, sid, t) && Quietly(match Get(p, sid) case Some(s) => s case None => NEW_SESSION, t, r);
      PutFollows(p, sid, t, r, op, o);
    }
  }

  lemma {:induction false} NoSubscription(id: string)
    ensures SubscriptionOf(NEW_SESSION, id) == None
  {
  }

  /** A change of every session that keeps it closed and keeps or clears its subscriptions. */
  ghost predicate Mild(f: Session -> Session) {
    forall s: Session :: (s.closed ==> f(s).closed) && (f(s).subscriptions == s.subscriptions || f(s).subscriptions == [])
      && (Sound(s) ==> Sound(f(s)))
  }

  lemma {:induction false} QueueIsSound(s: Session, e: Outbox.Event)
    requires Sound(s)
    ensures Sound(s.(outbox := Outbox.Queue(s.outbox, e))) && Sound(s.(subscriptions := [], outbox := Outbox.Queue(s.outbox, e)))
  {
    Outbox.QueueIsBounded(s.outbox, e);
  }

  lemma {:induction false} MapKeyed(p: Dict<Session>, f: Session -> Session)
    requires Mild(f) && Keyed(p)
    ensures Keyed(MapValues(f, p))
  {
  }

  lemma {:induction false} MapFollows(p: Dict<Session>, f: Session -> Session, op: Op, o: Output)
    requires Mild(f)
    ensures SessionsFollow(p, MapValues(f, p), op, o)
  {
    hide Keyed, Unique;
    var q := MapValues(f, p);
    if Keyed(p) {
      MapKeyed(p, f);
    }
    forall x
      ensures Get(q, x) == match Get(p, x) case None => None case Some(s) => Some(f(s))
    {
      MapValuesGet(f, p, x);
    }
    forall x, id | Get(q, x).Some? && SubscriptionOf(Get(q, x).value, id).Some?
      ensures Get(p, x).Some? && SubscriptionOf(Get(p, x).value, id) == SubscriptionOf(Get(q, x).value, id)
    {
      assert Get(q, x).value == f(Get(p, x).value);
    }
  }

  /** The owner's actions touch every session of a consumer. */
  lemma {:induction false} AllFollow(p: Dict<Session>, consumer: string, op: Op, o: Output)
    ensures SessionsFollow(p, CloseAll(p, consumer), op, o) && SessionsFollow(p, ClearAll(p, consumer), op, o)
  {
    hide Outbox.Queue, SessionsFollow, Get;
    var close := (s: Session) => if s.consumer == consumer then Closing(s) else s;
    var clear := (s: Session) => if s.consumer == consumer then Clearing(s) else s;
    forall s: Session
      ensures Sound(s) ==> Sound(close(s)) && Sound(clear(s))
    {
      if Sound(s) {
        QueueIsSound(s, Outbox.Error("grant_revoked"));
        QueueIsSound(s, Outbox.Error("grant_restrictions_updated"));
      }
    }
    assert Mild(close) && Mild(clear);
    assert CloseAll(p, consumer) == MapValues(close, p) && ClearAll(p, consumer) == MapValues(clear, p);
    MapFollows(p, close, op, o);
    MapFollows(p, clear, op, o);
  }

  lemma {:induction false} SameFollows(p: Dict<Session>, op: Op, o: Output)
    ensures SessionsFollow(p, p, op, o)
  {
  }

  lemma {:induction false} OwnerFollows(a: Authority, i: Input)
    requires i.op.Revoke? || i.op.Delete? || i.op.Restrict?
    ensures var (o, b) := Step(a, i); SessionsFollow(a.sessions, b.sessions, i.op, o)
  {
    hide StoreSpec.RevokeGrant, StoreSpec.DeleteGrant, StoreSpec.SetRestrictions, StoreSpec.AppendAudit,
      SessionsFollow, CloseAll, ClearAll;
    SameFollows(a.sessions, i.op, Silent);
    forall consumer
      ensures SessionsFollow(a.sessions, CloseAll(a.sessions, consumer), i.op, Silent)
      ensures SessionsFollow(a.sessions, ClearAll(a.sessions, consumer), i.op, Silent)
    {
      AllFollow(a.sessions, consumer, i.op, Silent);
    }
  }

  lemma {:induction false} QueueFollows(a: Authority, i: Input)
    requires i.op.Enqueue? || i.op.Flush? || i.op.Drop?
    ensures var (o, b) := Step(a, i); SessionsFollow(a.sessions, b.sessions, i.op, o)
  {
    hide Outbox.Queue, SessionsFollow, Get, Put, Pop;
    var sid, p := i.op.sid, a.sessions;
    SameFollows(p, i.op, Step(a, i).0);
    if i.op.Drop? {
      DropFollows(p, sid, Step(a, i).0);
    } else if Get(p, sid).Some? {
      var s := Get(p, sid).value;
      var t := if i.op.Enqueue? then s.(outbox := Outbox.Queue(s.outbox, i.op.event)) else s.(outbox := []);
      if i.op.Enqueue? && Sound(s) {
        QueueIsSound(s, i.op.event);
      }
      PutFollows(p, sid, t, Done, i.op, Step(a, i).0);
    }
  }

  lemma {:induction false} DropFollows(p: Dict<Session>, sid: string, o: Output)
    ensures SessionsFollow(p, Pop(p, sid), Drop(sid), o)
  {
    PopKeys(p, sid);
    PopEntries(p, sid);
    forall x
      ensures Get(Pop(p, sid), x) == if x == sid then None else Get(p, x)
    {
      PopGet(p, sid, x);
    }
  }

  lemma {:induction false} PopEntries(p: Dict<Session>, sid: string)
    ensures forall e :: e in Pop(p, sid) ==> e in p
    ensures (forall i :: 0 <= i < |p| ==> Sound(p[i].1)) ==> forall i :: 0 <= i < |Pop(p, sid)| ==> Sound(Pop(p, sid)[i].1)
    decreases |p|
  {
    if p != [] {
      PopEntries(p[1..], sid);
    }
  }

  lemma {:induction false} StepFollows(a: Authority, i: Input)
    ensures var (o, b) := Step(a, i); SessionsFollow(a.sessions, b.sessions, i.op, o)
  {
    hide Handle, CheckClaim, LockClaim, SessionsFollow, RevokeGrant, DeleteGrant, SetRestrictions, SI.Step,
      StateChanged, QueueEvent, PopOutbox, Discard, Touched;
    var (o, b) := Step(a, i);
    SameFollows(a.sessions, i.op, o);
    match i.op
    case Receive(sid, m) =>
      HandleTouches(a, sid, m, i.env);
      TouchedFollows(a.sessions, b.sessions, sid, o.reply, i.op, o);
    case ClaimCheck(sid, m) =>
      if m.ClaimShareMsg? {
        ClaimTouches(a, sid, m, i.env, Done);
        TouchedFollows(a.sessions, b.sessions, sid, Done, i.op, o);
      }
    case ClaimLock(sid, m) =>
      if m.ClaimShareMsg? {
        ClaimTouches(a, sid, m, i.env, Done);
        TouchedFollows(a.sessions, b.sessions, sid, Done, i.op, o);
      }
    case Enqueue(_, _) => QueueFollows(a, i);
    case Flush(_) => QueueFollows(a, i);
    case Drop(_) => QueueFollows(a, i);
    case Owner(_) =>
    case Push(_, _) =>
    case _ => OwnerFollows(a, i);
  }

  // ----- Runs -----

  lemma {:induction false} NextFollows(inputs: seq<Input>, n: nat)
    requires n < |inputs|
    ensures Run(inputs[..n + 1]) == Step(Run(inputs[..n]), inputs[n]).1
    ensures SessionsFollow(Run(inputs[..n]).sessions, Run(inputs[..n + 1]).sessions, inputs[n].op, OutputAt(inputs, n))
  {
    hide Step, SessionsFollow;
    assert inputs[..n + 1][..n] == inputs[..n];
    StepFollows(Run(inputs[..n]), inputs[n]);
  }

  lemma {:induction false} KeyedInEveryRun(inputs: seq<Input>)
    ensures Keyed(Run(inputs).sessions)
    decreases |inputs|
  {
    hide Step, Keyed;
    if inputs == [] {
      NothingKeyed();
    } else {
      var n := |inputs| - 1;
      KeyedInEveryRun(inputs[..n]);
      NextFollows(inputs, n);
      assert inputs[..n + 1] == inputs;
    }
  }

  /** In every run, every session's outbox holds at most a hundred events and at most one delta per subscription. */
  lemma {:induction false} OutboxesBounded(inputs: seq<Input>, sid: string)
    requires Get(Run(inputs).sessions, sid).Some?
    ensures var outbox := Get(Run(inputs).sessions, sid).value.outbox;
      |outbox| <= 100 && Outbox.OneDeltaEach(outbox)
  {
    KeyedInEveryRun(inputs);
    KeyedGet(Run(inputs).sessions, sid);
  }

  lemma {:induction false} NothingKeyed()
    ensures Keyed([])
  {
  }

  predicate ClosedIn(a: Authority, sid: string) {
    Get(a.sessions, sid).Some? && Get(a.sessions, sid).value.closed
  }

  /** Closing is for good, until the session is dropped. */
  lemma {:induction false} ClosedForGood(inputs: seq<Input>, i: nat, j: nat, sid: string)
    requires i <= j <= |inputs| && ClosedIn(Run(inputs[..i]), sid)
    requires forall k :: i <= k < j ==> inputs[k].op != Drop(sid)
    ensures ClosedIn(Run(inputs[..j]), sid)
    decreases j
  {
    hide Step, Keyed, Run, SubscriptionOf, FromSnapshot;
    if i < j {
      ClosedForGood(inputs, i, j - 1, sid);
      NextFollows(inputs, j - 1);
    }
  }

  lemma {:induction false} ClosedIsRefused(a: Authority, sid: string, m: Message, env: Env)
    requires ClosedIn(a, sid) && IsDataPlane(m)
    ensures HandleDataPlane(a, sid, m, env).0 == Failed("grant_revoked")
  {
    hide CheckRate, Serve;
  }

  /** Once closed, a session never gets another successful data-plane reply, whatever else it sends. */
  lemma {:induction false} ClosedGetsNothing(inputs: seq<Input>, i: nat, j: nat, sid: string)
    requires i <= j < |inputs| && ClosedIn(Run(inputs[..i]), sid)
    requires forall k :: i <= k < j ==> inputs[k].op != Drop(sid)
    requires inputs[j].op.Receive? && inputs[j].op.sid == sid && IsDataPlane(inputs[j].op.m)
    ensures OutputAt(inputs, j) == Replied(Failed("grant_revoked"))
  {
    hide HandleDataPlane;
    ClosedForGood(inputs, i, j, sid);
    ClosedIsRefused(Run(inputs[..j]), sid, inputs[j].op.m, inputs[j].env);
  }

  lemma {:induction false} RevokeCloses(a: Authority, id: string, sid: string)
    ensures RevokeGrant(a, id).0 && Get(a.sessions, sid).Some?
      && Get(a.sessions, sid).value.consumer == StoreSpec.RevokeGrant(a.store, id).0.value.consumer
      ==> ClosedIn(RevokeGrant(a, id).1, sid)
    ensures DeleteGrant(a, id).0 && Get(a.sessions, sid).Some?
      && Get(a.sessions, sid).value.consumer == StoreSpec.DeleteGrant(a.store, id).0.value.consumer
      ==> ClosedIn(DeleteGrant(a, id).1, sid)
  {
    hide StoreSpec.RevokeGrant, StoreSpec.DeleteGrant, StoreSpec.AppendAudit, CloseAll, Outbox.Queue;
    if Get(a.sessions, sid).Some? {
      CloseAllGet(a.sessions, Get(a.sessions, sid).value.consumer, sid);
    }
  }

  lemma {:induction false} CloseAllGet(p: Dict<Session>, consumer: string, sid: string)
    requires Get(p, sid).Some? && Get(p, sid).value.consumer == consumer
    ensures Get(CloseAll(p, consumer), sid) == Some(Closing(Get(p, sid).value))
  {
    hide Outbox.Queue;
    var close := (s: Session) => if s.consumer == consumer then Closing(s) else s;
    assert CloseAll(p, consumer) == MapValues(close, p);
    MapValuesGet(close, p, sid);
  }

  /** After the owner revokes or deletes a grant, the sessions that were bound to its consumer get no data any more. */
  lemma {:induction false} RevokedGetNothing(inputs: seq<Input>, i: nat, j: nat, sid: string)
    requires i < j < |inputs|
    requires var a := Run(inputs[..i]);
      && Get(a.sessions, sid).Some?
      && match inputs[i].op
         case Revoke(id) => RevokeGrant(a, id).0 && StoreSpec.RevokeGrant(a.store, id).0.value.consumer == Get(a.sessions, sid).value.consumer
         case Delete(id) => DeleteGrant(a, id).0 && StoreSpec.DeleteGrant(a.store, id).0.value.consumer == Get(a.sessions, sid).value.consumer
         case _ => false
    requires forall k :: i < k < j ==> inputs[k].op != Drop(sid)
    requires inputs[j].op.Receive? && inputs[j].op.sid == sid && IsDataPlane(inputs[j].op.m)
    ensures OutputAt(inputs, j) == Replied(Failed("grant_revoked"))
  {
    hide RevokeGrant, DeleteGrant, OutputAt;
    RevokeCloses(Run(inputs[..i]), inputs[i].op.id, sid);
    assert inputs[..i + 1][..i] == inputs[..i];
    ClosedGetsNothing(inputs, i + 1, j, sid);
  }

  /** Every subscription that a session has was listed in a snapshot that an earlier message of the session was answered with. */
  lemma {:induction false} SubscriptionFromSnapshot(inputs: seq<Input>, sid: string, id: string) returns (j: nat)
    requires Get(Run(inputs).sessions, sid).Some? && SubscriptionOf(Get(Run(inputs).sessions, sid).value, id).Some?
    ensures j < |inputs| && FromSnapshot(inputs[j].op, OutputAt(inputs, j), sid, id, SubscriptionOf(Get(Run(inputs).sessions, sid).value, id).value)
    decreases |inputs|
  {
    hide Step, Keyed, SubscriptionOf, FromSnapshot, OutputAt;
    assert inputs != [];
    var n := |inputs| - 1;
    var es := SubscriptionOf(Get(Run(inputs).sessions, sid).value, id).value;
    assert inputs[..n + 1] == inputs;
    NextFollows(inputs, n);
    var before := Run(inputs[..n]).sessions;
    if Get(before, sid).Some? && SubscriptionOf(Get(before, sid).value, id) == Some(es) {
      j := SubscriptionFromSnapshot(inputs[..n], sid, id);
      OutputOfPrefix(inputs, n, j);
    } else {
      j := n;
    }
  }

  lemma {:induction false} OutputOfPrefix(inputs: seq<Input>, n: nat, j: nat)
    requires j < n <= |inputs|
    ensures OutputAt(inputs[..n], j) == OutputAt(inputs, j) && inputs[..n][j] == inputs[j]
  {
    hide Step;
    assert inputs[..n][..j] == inputs[..j];
  }

  // ----- Pushed deltas -----

  lemma {:induction false} DeltaIsSubscribed(subscriptions: Dict<set<string>>, sid: string, entity: string, state: Option<string>, k: nat)
    requires k < |DeltasOf(subscriptions, sid, entity, state)|
    ensures var (x, e) := DeltasOf(subscriptions, sid, entity, state)[k];
      x == sid && e.Delta? && e.states == map[entity := state]
      && exists i :: 0 <= i < |subscriptions| && subscriptions[i].0 == e.subscription && entity in subscriptions[i].1
    decreases |subscriptions|
  {
    var n := |subscriptions| - 1;
    if k < |DeltasOf(subscriptions[..n], sid, entity, state)| {
      DeltaIsSubscribed(subscriptions[..n], sid, entity, state, k);
    } else {
      assert subscriptions[n].0 == DeltasOf(subscriptions, sid, entity, state)[k].1.subscription;
    }
  }

  lemma {:induction false} PushIsSubscribed(sessions: Dict<Session>, entity: string, state: Option<string>, k: nat)
    requires Keyed(sessions) && k < |StateChanged(sessions, entity, state)|
    ensures var (sid, e) := StateChanged(sessions, entity, state)[k];
      && Get(sessions, sid).Some? && !Get(sessions, sid).value.closed
      && e.Delta? && e.states == map[entity := state]
      && SubscriptionOf(Get(sessions, sid).value, e.subscription).Some?
      && entity in SubscriptionOf(Get(sessions, sid).value, e.subscription).value
    decreases |sessions|
  {
    hide DeltasOf, Unique;
    var n := |sessions| - 1;
    KeyedInit(sessions);
    if k < |StateChanged(sessions[..n], entity, state)| {
      PushIsSubscribed(sessions[..n], entity, state, k);
      GetOfInit(sessions, StateChanged(sessions, entity, state)[k].0);
    } else {
      var (sid, s) := sessions[n];
      var l := k - |StateChanged(sessions[..n], entity, state)|;
      DeltaIsSubscribed(s.subscriptions, sid, entity, state, l);
      GetIn(sessions, n);
      var id := DeltasOf(s.subscriptions, sid, entity, state)[l].1.subscription;
      var i :| 0 <= i < |s.subscriptions| && s.subscriptions[i].0 == id && entity in s.subscriptions[i].1;
      GetIn(s.subscriptions, i);
    }
  }

  lemma {:induction false} KeyedInit(sessions: Dict<Session>)
    requires Keyed(sessions) && sessions != []
    ensures Keyed(sessions[..|sessions| - 1]) && Unique(sessions) && Sound(sessions[|sessions| - 1].1)
  {
  }

  lemma {:induction false} GetOfInit(sessions: Dict<Session>, sid: string)
    requires sessions != [] && Get(sessions[..|sessions| - 1], sid).Some?
    ensures Get(sessions, sid) == Get(sessions[..|sessions| - 1], sid)
    decreases |sessions|
  {
    if sessions[0].0 != sid {
      assert sessions[..|sessions| - 1][1..] == sessions[1..][..|sessions[1..]| - 1];
      GetOfInit(sessions[1..], sid);
    }
  }

  /** A state that is pushed to a session goes to an open one, under a subscription of it that was listed, with the entity
      in scope and all restrictions passed, in a snapshot of the session before. */
  lemma {:induction false} PushedWasGranted(inputs: seq<Input>, n: nat, k: nat) returns (j: nat)
    requires n < |inputs| && inputs[n].op.Push? && k < |OutputAt(inputs, n).events|
    ensures var (sid, e) := OutputAt(inputs, n).events[k];
      && !ClosedIn(Run(inputs[..n]), sid)
      && e.Delta? && e.states == map[inputs[n].op.entity := inputs[n].op.state]
      && j < n && inputs[j].op.Receive? && inputs[j].op.sid == sid && OutputAt(inputs, j).Replied?
      && var r := OutputAt(inputs, j).reply;
      && r.Snapshot? && r.subscriptionId == e.subscription && inputs[n].op.entity in r.subscribed
      && Justified(Run(inputs[..j]), sid, inputs[j].op.m, inputs[j].env, r)
  {
    var (sid, e) := OutputAt(inputs, n).events[k];
    KeyedInEveryRun(inputs[..n]);
    PushIsSubscribed(Run(inputs[..n]).sessions, inputs[n].op.entity, inputs[n].op.state, k);
    j := SubscriptionFromSnapshot(inputs[..n], sid, e.subscription);
    OutputOfPrefix(inputs, n, j);
    RunSafety(inputs, j);
  }

  // ----- Outboxes -----

  /** What a step does to the outbox of a session, in terms of the queue. */
  function QueueOps(a: Authority, i: Input, sid: string): seq<Outbox.Op> {
    var known := Get(a.sessions, sid);
    if i.op == Drop(sid) then [Outbox.Flush]
    else if known.None? then []
    else
      match i.op
      case Enqueue(x, e) => if x == sid then [Outbox.Put(e)] else []
      case Flush(x) => if x == sid then [Outbox.Flush] else []
      case Revoke(id) => NoticeTo(StoreSpec.RevokeGrant(a.store, id).0, known.value, "grant_revoked")
      case Delete(id) => NoticeTo(StoreSpec.DeleteGrant(a.store, id).0, known.value, "grant_revoked")
      case Restrict(id, rs) => NoticeTo(StoreSpec.SetRestrictions(a.store, id, rs).0, known.value, "grant_restrictions_updated")
      case _ => []
  }

  function NoticeTo(g: Option<Grant>, s: Session, code: string): seq<Outbox.Op> {
    if g.Some? && s.consumer == g.value.consumer then [Outbox.Put(Outbox.Error(code))] else []
  }

  function AllQueueOps(inputs: seq<Input>, sid: string): seq<Outbox.Op>
    decreases |inputs|
  {
    if inputs == [] then []
    else AllQueueOps(inputs[..|inputs| - 1], sid) + QueueOps(Run(inputs[..|inputs| - 1]), inputs[|inputs| - 1], sid)
  }

  /** The outbox after at most one operation. */
  function Queued(outbox: seq<Outbox.Event>, ops: seq<Outbox.Op>): seq<Outbox.Event> {
    if ops == [] then outbox else match ops[0] case Flush => [] case Put(e) => Outbox.Queue(outbox, e)
  }

  lemma {:induction false} ClosedOutbox(p: Dict<Session>, consumer: string, x: string)
    ensures OutboxIn(CloseAll(p, consumer), x)
      == (if Get(p, x).Some? && Get(p, x).value.consumer == consumer then Outbox.Queue(OutboxIn(p, x), Outbox.Error("grant_revoked"))
          else OutboxIn(p, x))
    ensures OutboxIn(ClearAll(p, consumer), x)
      == (if Get(p, x).Some? && Get(p, x).value.consumer == consumer then Outbox.Queue(OutboxIn(p, x), Outbox.Error("grant_restrictions_updated"))
          else OutboxIn(p, x))
  {
    hide Outbox.Queue;
    var close := (s: Session) => if s.consumer == consumer then Closing(s) else s;
    var clear := (s: Session) => if s.consumer == consumer then Clearing(s) else s;
    assert CloseAll(p, consumer) == MapValues(close, p) && ClearAll(p, consumer) == MapValues(clear, p);
    MapValuesGet(close, p, x);
    MapValuesGet(clear, p, x);
  }

  lemma {:induction false} RevokeOutbox(a: Authority, id: string, sid: string)
    ensures OutboxIn(RevokeGrant(a, id).1.sessions, sid)
      == (if Get(a.sessions, sid).None? then OutboxIn(a.sessions, sid)
          else Queued(OutboxIn(a.sessions, sid), NoticeTo(StoreSpec.RevokeGrant(a.store, id).0, Get(a.sessions, sid).value, "grant_revoked")))
  {
    hide StoreSpec.RevokeGrant, StoreSpec.AppendAudit, CloseAll, ClearAll, Outbox.Queue, Get;
    var g := StoreSpec.RevokeGrant(a.store, id).0;
    if g.Some? {
      ClosedOutbox(a.sessions, g.value.consumer, sid);
    }
  }

  lemma {:induction false} DeleteOutbox(a: Authority, id: string, sid: string)
    ensures OutboxIn(DeleteGrant(a, id).1.sessions, sid)
      == (if Get(a.sessions, sid).None? then OutboxIn(a.sessions, sid)
          else Queued(OutboxIn(a.sessions, sid), NoticeTo(StoreSpec.DeleteGrant(a.store, id).0, Get(a.sessions, sid).value, "grant_revoked")))
  {
    hide StoreSpec.DeleteGrant, StoreSpec.AppendAudit, CloseAll, ClearAll, Outbox.Queue, Get;
    var g := StoreSpec.DeleteGrant(a.store, id).0;
    if g.Some? {
      ClosedOutbox(a.sessions, g.value.consumer, sid);
    }
  }

  lemma {:induction false} RestrictOutbox(a: Authority, id: string, rs: seq<Restriction>, sid: string)
    ensures OutboxIn(SetRestrictions(a, id, rs).1.sessions, sid)
      == (if Get(a.sessions, sid).None? then OutboxIn(a.sessions, sid)
          else
            var found := StoreSpec.SetRestrictions(a.store, id, rs).0;
            Queued(OutboxIn(a.sessions, sid), NoticeTo(found, Get(a.sessions, sid).value, "grant_restrictions_updated")))
  {
    hide StoreSpec.SetRestrictions, StoreSpec.AppendAudit, CloseAll, ClearAll, Outbox.Queue, Get;
    var g := StoreSpec.SetRestrictions(a.store, id, rs).0;
    if g.Some? {
      ClosedOutbox(a.sessions, g.value.consumer, sid);
    }
  }

  lemma {:induction false} QueueOutbox(a: Authority, i: Input, sid: string)
    requires i.op.Enqueue? || i.op.Flush? || i.op.Drop?
    ensures OutboxIn(Step(a, i).1.sessions, sid) == Queued(OutboxIn(a.sessions, sid), QueueOps(a, i, sid))
  {
    hide Outbox.Queue, Put, Pop, Get, NoticeTo;
    var x, p := i.op.sid, a.sessions;
    if i.op.Drop? {
      PopGet(p, x, sid);
    } else if Get(p, x).Some? {
      var s := Get(p, x).value;
      var t := if i.op.Enqueue? then s.(outbox := Outbox.Queue(s.outbox, i.op.event)) else s.(outbox := []);
      PutGet(p, x, t, sid);
    }
  }

  lemma {:induction false} StepOutbox(a: Authority, i: Input, sid: string)
    ensures OutboxIn(Step(a, i).1.sessions, sid) == Queued(OutboxIn(a.sessions, sid), QueueOps(a, i, sid))
  {
    hide Handle, CheckClaim, LockClaim, RevokeGrant, DeleteGrant, SetRestrictions, SI.Step, StateChanged, QueueEvent,
      PopOutbox, Discard, Touched, OutboxIn, NoticeTo;
    var (o, b) := Step(a, i);
    match i.op
    case Receive(x, m) =>
      HandleTouches(a, x, m, i.env);
      TouchedOutboxes(a.sessions, b.sessions, x, o.reply, sid);
    case ClaimCheck(x, m) =>
      if m.ClaimShareMsg? {
        ClaimTouches(a, x, m, i.env, Done);
        TouchedOutboxes(a.sessions, b.sessions, x, Done, sid);
      }
    case ClaimLock(x, m) =>
      if m.ClaimShareMsg? {
        ClaimTouches(a, x, m, i.env, Done);
        TouchedOutboxes(a.sessions, b.sessions, x, Done, sid);
      }
    case Enqueue(_, _) => QueueOutbox(a, i, sid);
    case Flush(_) => QueueOutbox(a, i, sid);
    case Drop(_) => QueueOutbox(a, i, sid);
    case Owner(_) =>
    case Push(_, _) =>
    case Revoke(id) => RevokeOutbox(a, id, sid);
    case Delete(id) => DeleteOutbox(a, id, sid);
    case Restrict(id, rs) => RestrictOutbox(a, id, rs, sid);
  }

  /** The outbox of a session goes through exactly the queue operations that the steps of the run ask for. */
  lemma {:induction false} OutboxIsRun(inputs: seq<Input>, sid: string)
    ensures Outbox.Run(AllQueueOps(inputs, sid)).outbox == OutboxIn(Run(inputs).sessions, sid)
    decreases |inputs|
  {
    if inputs != [] {
      hide Step, Outbox.Queue, Outbox.Coalesces, QueueOps, OutboxIn;
      var before, i := inputs[..|inputs| - 1], inputs[|inputs| - 1];
      OutboxIsRun(before, sid);
      StepOutbox(Run(before), i, sid);
      var ops := QueueOps(Run(before), i, sid);
      AtMostOneOp(Run(before), i, sid);
      if ops == [] {
        assert AllQueueOps(inputs, sid) == AllQueueOps(before, sid) + [] == AllQueueOps(before, sid);
      } else {
        assert ops == [ops[0]];
        Outbox.OneMoreOp(AllQueueOps(before, sid), ops[0]);
      }
    }
  }

  lemma {:induction false} AtMostOneOp(a: Authority, i: Input, sid: string)
    ensures |QueueOps(a, i, sid)| <= 1
  {
    hide StoreSpec.RevokeGrant, StoreSpec.DeleteGrant, StoreSpec.SetRestrictions;
  }

  /** A delta that waits for a session is the fold, the latest state of each entity winning, of all deltas that were queued
      for its subscription since it was created. */
  lemma {:induction false} SessionDeltaIsFold(inputs: seq<Input>, sid: string, subscription: string) returns (j: nat)
    requires Outbox.HasDelta(OutboxIn(Run(inputs).sessions, sid), subscription)
    ensures var ops := AllQueueOps(inputs, sid);
      var q := OutboxIn(Run(inputs).sessions, sid);
      Outbox.CreatedAt(ops, j, subscription)
      && q[Outbox.DeltaIndex(q, subscription)].states == Outbox.View(Outbox.Queued(ops[j..]), subscription)
  {
    hide Run, AllQueueOps, Outbox.Run;
    OutboxIsRun(inputs, sid);
    j := Outbox.WaitingDeltaIsFold(AllQueueOps(inputs, sid), subscription);
  }
}
