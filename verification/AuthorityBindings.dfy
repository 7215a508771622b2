/** How a session comes by its consumer, and what a change of restrictions takes from it. */
module AuthorityBindings {
  import opened Options
  import opened Dict
  import opened Policy
  import opened Models
  import StoreSpec
  import SI = StoreInvariants
  import Outbox
  import opened AuthoritySpec
  import opened AuthorityRuns
  import opened AuthoritySessions

  // ----- What binds a session -----

  /** The consumer that a message binds its session to, as its reply tells. */
  function BoundTo(m: Message, r: Reply): Option<string> {
    match m
    case AccessRequestMsg(c, _, _) => if r.RequestPending? then Some(c) else None
    case Authenticate(c, _) => if r.Authenticated? then Some(c) else None
    case ClaimShareMsg(_, _, c) => if r.Claimed? then Some(c) else None
    case _ => None
  }

  /** The consumer that a step binds a session to. */
  function Binder(i: Input, o: Output, sid: string): Option<string> {
    if (i.op.Receive? || i.op.ClaimCheck? || i.op.ClaimLock?) && i.op.sid == sid && o.Replied? then BoundTo(i.op.m, o.reply) else None
  }

  function ConsumerIn(p: Dict<Session>, sid: string): string {
    match Get(p, sid) case Some(s) => s.consumer case None => ""
  }

  lemma {:induction false} PutConsumer(p: Dict<Session>, sid: string, t: Session, x: string)
    ensures ConsumerIn(Put(p, sid, t), x) == if x == sid then t.consumer else ConsumerIn(p, x)
  {
    PutGet(p, sid, t, x);
  }

  lemma {:induction false} BindConsumer(a: Authority, sid: string, consumer: string, x: string)
    ensures ConsumerIn(Bind(a, sid, consumer).sessions, x) == if x == sid then consumer else ConsumerIn(a.sessions, x)
  {
    PutConsumer(a.sessions, sid, SessionOf(a, sid).(consumer := consumer), x);
  }

  lemma {:induction false} GateKeepsConsumer(a: Authority, sid: string, env: Env, x: string)
    ensures ConsumerIn(RequireGrant(a, sid, env).1.sessions, x) == ConsumerIn(a.sessions, x)
  {
    hide Put;
    var s := SessionOf(a, sid);
    PutConsumer(a.sessions, sid, NEW_SESSION, x);
    PutConsumer(a.sessions, sid, s.(closed := true), x);
  }

  lemma {:induction false} ServeKeepsConsumer(a: Authority, sid: string, m: Message, r: Reply, b: Authority, x: string)
    requires SessionEffect(a, sid, m, r, b)
    ensures ConsumerIn(b.sessions, x) == ConsumerIn(a.sessions, x)
  {
    var s := SessionOf(a, sid);
    match r
    case Snapshot(id, es, _) => PutConsumer(a.sessions, sid, s.(subscriptions := Put(s.subscriptions, id, es)), x);
    case Unsubscribed(id) => PutConsumer(a.sessions, sid, s.(subscriptions := Pop(s.subscriptions, id)), x);
    case _ =>
  }

  lemma {:induction false} DataPlaneKeepsConsumer(a: Authority, sid: string, m: Message, env: Env, x: string)
    requires IsDataPlane(m)
    ensures ConsumerIn(HandleDataPlane(a, sid, m, env).1.sessions, x) == ConsumerIn(a.sessions, x)
  {
    hide RequireGrant, CheckRate, Serve, AskOf, ServeData, Enforce, SessionEffect, ConsumerIn;
    GateEffect(a, sid, env);
    GateKeepsConsumer(a, sid, env, x);
    var (gate, b) := RequireGrant(a, sid, env);
    if gate.Granted? {
      RateEffect(b, gate.grant, m, env);
      var (ok, c) := CheckRate(b, gate.grant, m, env);
      if ok {
        ServeHasEffect(c, sid, gate.grant, m, env);
        var (r, z) := Serve(c, sid, gate.grant, m, env);
        ServeKeepsConsumer(c, sid, m, r, z, x);
      }
    }
  }

  lemma {:induction false} ClaimBinds(a: Authority, sid: string, m: Message, env: Env, x: string)
    requires m.ClaimShareMsg?
    ensures var (r, b) := CheckClaim(a, sid, m, env);
      ConsumerIn(b.sessions, x) == if x == sid && r.Some? && r.value.Claimed? then m.consumer else ConsumerIn(a.sessions, x)
    ensures var (r, b) := LockClaim(a, sid, m);
      ConsumerIn(b.sessions, x) == if x == sid && r.Claimed? then m.consumer else ConsumerIn(a.sessions, x)
  {
    hide Bind, ConsumerIn, StoreSpec.AppendAudit, StoreSpec.ClaimShare;
    BindConsumer(a, sid, m.consumer, x);
    var store := StoreSpec.ClaimShare(a.store, m.shareId, m.consumer).1;
    BindConsumer(Log(a.(store := store), "share_claimed", m.shareId), sid, m.consumer, x);
  }

  lemma {:induction false} RequestBinds(a: Authority, sid: string, m: Message, env: Env, x: string)
    requires m.AccessRequestMsg? || m.Authenticate?
    ensures var (r, b) := Handle(a, sid, m, env);
      ConsumerIn(b.sessions, x) == if x == sid && BoundTo(m, r).Some? then m.consumer else ConsumerIn(a.sessions, x)
  {
    hide Bind, ConsumerIn, StoreSpec.AppendAudit, StoreSpec.FileRequest, StoreSpec.UpsertGrant, RequestTimes, TooSoon,
      HandleDataPlane, HandleClaim;
    if m.Authenticate? {
      var g := Get(a.store.grants, m.consumer);
      if Usable(g, env.now) {
        BindConsumer(a.(store := StoreSpec.UpsertGrant(a.store, g.value.(lastUsedAt := Some(env.now.instant)))), sid, m.consumer, x);
      }
    } else if m.manifest.Some? {
      var store := StoreSpec.FileRequest(a.store, m.consumer, m.manifest.value, m.nonce, env.freshId, env.now.instant).1;
      BindConsumer(a.(store := store, requestTimes := RequestTimes(a.requestTimes, m.consumer, env.mono)), sid, m.consumer, x);
    }
  }

  lemma {:induction false} HandleBinds(a: Authority, sid: string, m: Message, env: Env, x: string)
    ensures var (r, b) := Handle(a, sid, m, env);
      ConsumerIn(b.sessions, x) == if x == sid && BoundTo(m, r).Some? then BoundTo(m, r).value else ConsumerIn(a.sessions, x)
  {
    hide HandleDataPlane, CheckClaim, LockClaim, HandleAccessRequest, HandleAuthenticate, ConsumerIn;
    if IsDataPlane(m) {
      DataPlaneKeepsConsumer(a, sid, m, env, x);
    } else if m.ClaimShareMsg? {
      ClaimBinds(a, sid, m, env, x);
      ClaimBinds(CheckClaim(a, sid, m, env).1, sid, m, env, x);
    } else {
      RequestBinds(a, sid, m, env, x);
    }
  }

  lemma {:induction false} ConsumerOfAll(p: Dict<Session>, consumer: string, x: string)
    ensures ConsumerIn(CloseAll(p, consumer), x) == ConsumerIn(ClearAll(p, consumer), x) == ConsumerIn(p, x)
  {
    hide Outbox.Queue;
    var close := (s: Session) => if s.consumer == consumer then Closing(s) else s;
    var clear := (s: Session) => if s.consumer == consumer then Clearing(s) else s;
    assert CloseAll(p, consumer) == MapValues(close, p) && ClearAll(p, consumer) == MapValues(clear, p);
    MapValuesGet(close, p, x);
    MapValuesGet(clear, p, x);
  }

  lemma {:induction false} OwnerKeepsConsumer(a: Authority, id: string, rs: seq<Restriction>, x: string)
    ensures ConsumerIn(RevokeGrant(a, id).1.sessions, x) == ConsumerIn(a.sessions, x)
    ensures ConsumerIn(DeleteGrant(a, id).1.sessions, x) == ConsumerIn(a.sessions, x)
    ensures ConsumerIn(SetRestrictions(a, id, rs).1.sessions, x) == ConsumerIn(a.sessions, x)
  {
    hide StoreSpec.RevokeGrant, StoreSpec.DeleteGrant, StoreSpec.SetRestrictions, StoreSpec.AppendAudit, CloseAll, ClearAll, ConsumerIn;
    forall consumer
      ensures ConsumerIn(CloseAll(a.sessions, consumer), x) == ConsumerIn(ClearAll(a.sessions, consumer), x) == ConsumerIn(a.sessions, x)
    {
      ConsumerOfAll(a.sessions, consumer, x);
    }
  }

  lemma {:induction false} QueueKeepsConsumer(a: Authority, sid: string, e: Outbox.Event, x: string)
    ensures ConsumerIn(QueueEvent(a, sid, e).sessions, x) == ConsumerIn(PopOutbox(a, sid).1.sessions, x) == ConsumerIn(a.sessions, x)
    ensures ConsumerIn(Discard(a, sid).sessions, x) == if x == sid then "" else ConsumerIn(a.sessions, x)
  {
    hide Outbox.Queue, Put, Pop;
    PopGet(a.sessions, sid, x);
    if Get(a.sessions, sid).Some? {
      var s := Get(a.sessions, sid).value;
      PutConsumer(a.sessions, sid, s.(outbox := Outbox.Queue(s.outbox, e)), x);
      PutConsumer(a.sessions, sid, s.(outbox := []), x);
    }
  }

  /** A step binds a session to the consumer of a message that is answered with success, and to no other; only dropping
      the session unbinds it. */
  lemma {:induction false} StepBinds(a: Authority, i: Input, sid: string)
    ensures var (o, b) := Step(a, i);
      var bound := Binder(i, o, sid);
      ConsumerIn(b.sessions, sid) == if bound.Some? then bound.value else if i.op == Drop(sid) then "" else ConsumerIn(a.sessions, sid)
  {
    hide Handle, CheckClaim, LockClaim, ConsumerIn, RevokeGrant, DeleteGrant, SetRestrictions, SI.Step, StateChanged,
      QueueEvent, PopOutbox, Discard;
    match i.op
    case Receive(x, m) => HandleBinds(a, x, m, i.env, sid);
    case ClaimCheck(x, m) =>
      if m.ClaimShareMsg? {
        ClaimBinds(a, x, m, i.env, sid);
        var (r, b) := CheckClaim(a, x, m, i.env);
        assert Step(a, i) == (if r.Some? then Replied(r.value) else Silent, b);
      }
    case ClaimLock(x, m) =>
      if m.ClaimShareMsg? {
        ClaimBinds(a, x, m, i.env, sid);
      }
    case Revoke(id) => OwnerKeepsConsumer(a, id, [], sid);
    case Delete(id) => OwnerKeepsConsumer(a, id, [], sid);
    case Restrict(id, rs) => OwnerKeepsConsumer(a, id, rs, sid);
    case Enqueue(x, e) => QueueKeepsConsumer(a, x, e, sid);
    case Flush(x) => QueueKeepsConsumer(a, x, Outbox.Error(""), sid);
    case Drop(x) => QueueKeepsConsumer(a, x, Outbox.Error(""), sid);
    case Owner(_) =>
    case Push(_, _) =>
  }

  // ----- Runs -----

  /** Step `j` bound the session to the consumer, and nothing has bound or dropped it since. */
  ghost predicate BoundAt(inputs: seq<Input>, j: nat, sid: string, consumer: string) {
    && j < |inputs| && Binder(inputs[j], OutputAt(inputs, j), sid) == Some(consumer)
    && forall k :: j < k < |inputs| ==> inputs[k].op != Drop(sid) && Binder(inputs[k], OutputAt(inputs, k), sid).None?
  }

  /** A session with a consumer was bound to it by the last of its access requests, authentications and claims that succeeded. */
  lemma {:induction false} BoundByLast(inputs: seq<Input>, sid: string) returns (j: nat)
    requires ConsumerIn(Run(inputs).sessions, sid) != ""
    ensures BoundAt(inputs, j, sid, ConsumerIn(Run(inputs).sessions, sid))
    decreases |inputs|
  {
    hide Step, ConsumerIn, Binder, OutputAt;
    assert inputs != [] by { NobodyBound(sid); }
    var n := |inputs| - 1;
    NextBinds(inputs, n, sid);
    assert inputs[..n + 1] == inputs;
    if Binder(inputs[n], OutputAt(inputs, n), sid).Some? {
      j := n;
    } else {
      j := BoundByLast(inputs[..n], sid);
      forall k | 0 <= k < n
        ensures OutputAt(inputs[..n], k) == OutputAt(inputs, k) && inputs[..n][k] == inputs[k]
      {
        OutputOfPrefix(inputs, n, k);
      }
    }
  }

  lemma {:induction false} NobodyBound(sid: string)
    ensures ConsumerIn(START.sessions, sid) == ""
  {
  }

  lemma {:induction false} NextBinds(inputs: seq<Input>, n: nat, sid: string)
    requires n < |inputs|
    ensures var bound := Binder(inputs[n], OutputAt(inputs, n), sid);
      ConsumerIn(Run(inputs[..n + 1]).sessions, sid)
        == if bound.Some? then bound.value else if inputs[n].op == Drop(sid) then "" else ConsumerIn(Run(inputs[..n]).sessions, sid)
  {
    hide Step, ConsumerIn, Binder;
    assert inputs[..n + 1][..n] == inputs[..n];
    StepBinds(Run(inputs[..n]), inputs[n], sid);
  }

  /** Every reply with data goes to a session that an earlier successful access request, authentication or claim of the same
      session bound to the consumer whose grant justifies the reply, and nothing bound or dropped it in between. */
  lemma {:induction false} DataWasBound(inputs: seq<Input>, n: nat) returns (j: nat)
    requires n < |inputs| && OutputAt(inputs, n).Replied? && IsData(OutputAt(inputs, n).reply)
    ensures inputs[n].op.Receive? && BoundAt(inputs[..n], j, inputs[n].op.sid, ConsumerIn(Run(inputs[..n]).sessions, inputs[n].op.sid))
    ensures var g := Get(Run(inputs[..n]).store.grants, ConsumerIn(Run(inputs[..n]).sessions, inputs[n].op.sid));
      g.Some? && !g.value.revoked && InScope(g.value.manifest, inputs[n].env, OutputAt(inputs, n).reply)
  {
    hide Run, OutputAt, InScope, ContextOf, Permitted, BoundAt;
    RunSafety(inputs, n);
    j := BoundByLast(inputs[..n], inputs[n].op.sid);
  }

  /** What each binding needs: an access request a signature, an authentication a signature and a channel binding and a good
      grant; for a claim the signature makes no difference. */
  lemma {:induction false} SignaturesNeeded(a: Authority, sid: string, m: Message, env: Env, signed: bool)
    ensures m.AccessRequestMsg? ==>
      (BoundTo(m, Handle(a, sid, m, env).0).Some? <==> env.signed && m.manifest.Some? && !TooSoon(a, m.consumer, env.mono))
    ensures m.Authenticate? ==>
      (BoundTo(m, Handle(a, sid, m, env).0).Some? <==> m.bound && env.signed && Usable(Get(a.store.grants, m.consumer), env.now))
    ensures m.ClaimShareMsg? ==> Handle(a, sid, m, env) == Handle(a, sid, m, env.(signed := signed))
  {
    hide StoreSpec.FileRequest, StoreSpec.AppendAudit, StoreSpec.UpsertGrant, StoreSpec.ClaimShare, HandleDataPlane,
      Bind, Log, TooSoon, RequestTimes, Usable;
  }

  // ----- Changed restrictions -----

  predicate HasSubscription(a: Authority, sid: string, id: string) {
    Get(a.sessions, sid).Some? && SubscriptionOf(Get(a.sessions, sid).value, id).Some?
  }

  /** A subscription that a session did not have at one time and has later was listed in a snapshot of the session between. */
  lemma {:induction false} SubscribedBetween(inputs: seq<Input>, m: nat, n: nat, sid: string, id: string) returns (j: nat)
    requires m <= n <= |inputs|
    requires !HasSubscription(Run(inputs[..m]), sid, id) && HasSubscription(Run(inputs[..n]), sid, id)
    ensures m <= j < n
    ensures FromSnapshot(inputs[j].op, OutputAt(inputs, j), sid, id, SubscriptionOf(Get(Run(inputs[..n]).sessions, sid).value, id).value)
    decreases n
  {
    hide Step, Run, Keyed, SubscriptionOf, FromSnapshot, OutputAt;
    assert m < n;
    NextFollows(inputs, n - 1);
    var es := SubscriptionOf(Get(Run(inputs[..n]).sessions, sid).value, id);
    var before := Run(inputs[..n - 1]);
    if Get(before.sessions, sid).Some? && SubscriptionOf(Get(before.sessions, sid).value, id) == es {
      j := SubscribedBetween(inputs, m, n - 1, sid, id);
    } else {
      j := n - 1;
    }
  }

  lemma {:induction false} RestrictClears(a: Authority, id: string, rs: seq<Restriction>, sid: string, subscription: string)
    requires SetRestrictions(a, id, rs).0
    requires StoreSpec.SetRestrictions(a.store, id, rs).0.value.consumer == ConsumerIn(a.sessions, sid)
    ensures !HasSubscription(SetRestrictions(a, id, rs).1, sid, subscription)
  {
    hide StoreSpec.SetRestrictions, StoreSpec.AppendAudit, Outbox.Queue;
    var consumer := StoreSpec.SetRestrictions(a.store, id, rs).0.value.consumer;
    var clear := (s: Session) => if s.consumer == consumer then Clearing(s) else s;
    assert ClearAll(a.sessions, consumer) == MapValues(clear, a.sessions);
    MapValuesGet(clear, a.sessions, sid);
  }

  /** After the owner changed the restrictions of a grant, a session of its consumer is pushed a state only under a
      subscription that a snapshot since then listed, with the entity, and that the restrictions of that time permitted. */
  lemma {:induction false} PushedSinceRestriction(inputs: seq<Input>, i: nat, n: nat, k: nat) returns (j: nat)
    requires i < n < |inputs| && inputs[i].op.Restrict?
    requires inputs[n].op.Push? && k < |OutputAt(inputs, n).events|
    requires SetRestrictions(Run(inputs[..i]), inputs[i].op.id, inputs[i].op.rs).0
    requires StoreSpec.SetRestrictions(Run(inputs[..i]).store, inputs[i].op.id, inputs[i].op.rs).0.value.consumer
      == ConsumerIn(Run(inputs[..i]).sessions, OutputAt(inputs, n).events[k].0)
    ensures var (sid, e) := OutputAt(inputs, n).events[k];
      && i < j < n && inputs[j].op.Receive? && inputs[j].op.sid == sid && OutputAt(inputs, j).Replied?
      && var r := OutputAt(inputs, j).reply;
      && e.Delta? && r.Snapshot? && r.subscriptionId == e.subscription && inputs[n].op.entity in r.subscribed
      && Justified(Run(inputs[..j]), sid, inputs[j].op.m, inputs[j].env, r)
  {
    hide SetRestrictions, StoreSpec.SetRestrictions, Justified, ConsumerIn, Keyed, Handle, CheckClaim, LockClaim, Run;
    var (sid, e) := OutputAt(inputs, n).events[k];
    KeyedInEveryRun(inputs[..n]);
    PushIsSubscribed(Run(inputs[..n]).sessions, inputs[n].op.entity, inputs[n].op.state, k);
    RestrictClears(Run(inputs[..i]), inputs[i].op.id, inputs[i].op.rs, sid, e.subscription);
    NextFollows(inputs, i);
    j := SubscribedBetween(inputs, i + 1, n, sid, e.subscription);
    RunSafety(inputs, j);
  }
}
