/** The authority's store goes through runs of the store, so that all that is proved of those holds of it. */
module AuthorityStore {
  import opened Lists
  import opened Options
  import opened Dict
  import opened Policy
  import opened Models
  import StoreSpec
  import StoreRuns
  import SI = StoreInvariants
  import ShareClaims
  import SW = SlidingWindow
  import Outbox
  import opened AuthoritySpec
  import opened AuthorityRuns

  function Steps(s: StoreSpec.Store, ops: seq<SI.Op>): StoreSpec.Store
    decreases |ops|
  {
    if ops == [] then s else SI.Step(Steps(s, ops[..|ops| - 1]), ops[|ops| - 1])
  }

  lemma {:induction false} StepsRun(before: seq<SI.Op>, ops: seq<SI.Op>)
    ensures SI.Run(before + ops) == Steps(SI.Run(before), ops)
    decreases |ops|
  {
    hide SI.Step;
    if ops == [] {
      assert before + ops == before;
    } else {
      StepsRun(before, ops[..|ops| - 1]);
      assert (before + ops)[..|before + ops| - 1] == before + ops[..|ops| - 1];
    }
  }

  lemma {:induction false} OneStep(s: StoreSpec.Store, op: SI.Op)
    ensures Steps(s, [op]) == SI.Step(s, op)
  {
    hide SI.Step;
    assert [op][..0] == [];
  }

  lemma {:induction false} TwoSteps(s: StoreSpec.Store, op: SI.Op, last: SI.Op)
    ensures Steps(s, [op, last]) == SI.Step(SI.Step(s, op), last)
  {
    hide SI.Step;
    assert [op, last][..1] == [op];
    OneStep(s, op);
  }

  // ----- Data-plane messages only write the log -----

  /** Nothing, or one entry in the log. */
  ghost predicate Logged(s: StoreSpec.Store, t: StoreSpec.Store) {
    t == s || exists e :: t == StoreSpec.AppendAudit(s, e)
  }

  lemma {:induction false} LogLogs(a: Authority, name: string, subject: string)
    ensures Logged(a.store, Log(a, name, subject).store)
  {
    assert Log(a, name, subject).store == StoreSpec.AppendAudit(a.store, Event(name, subject));
  }

  lemma {:induction false} EnforceLogs(a: Authority, g: Grant, operation: string, c: Context, env: Env)
    ensures var (ok, b) := Enforce(a, g, operation, c, env); Logged(a.store, b.store) && (ok ==> b.store == a.store)
  {
    hide FirstDenial, ActiveTemplates, TemplatesAllow, CheckLimits, Log, Logged;
    LogLogs(a, "restriction_denied", g.id);
    var b := CheckLimits(a, g, operation, c, env).1;
    assert b.store == a.store by { LimitsKeepStore(a, g, operation, c, env); }
    LogLogs(b, "restriction_denied", g.id);
    SameLogged(a.store);
  }

  lemma {:induction false} LimitsKeepStore(a: Authority, g: Grant, operation: string, c: Context, env: Env)
    ensures CheckLimits(a, g, operation, c, env).1.store == a.store
  {
  }

  lemma {:induction false} SameLogged(s: StoreSpec.Store)
    ensures Logged(s, s)
  {
  }

  lemma {:induction false} QueryLogs(a: Authority, sid: string, g: Grant, m: Message, env: Env)
    requires m.GetStates? || m.Subscribe? || m.HistoryQuery? || m.CameraSnapshot?
    ensures Logged(a.store, Serve(a, sid, g, m, env).1.store)
  {
    hide Log, Logged, Enforce, Expand, AllAllowed, EntityAllowed, StatesOf, Elements, ReadEntities,
      SubscriptionEntities, HistoryEntities, CameraEntities, Get, Put;
    LogLogs(a, "permission_error", g.id);
    LogLogs(a, "history_query_limited", g.id);
    match m
    case GetStates(_) => EnforceLogs(a, g, "read", EntityContext(Expand(m.entities, ReadEntities(g.manifest), env.known)), env);
    case Subscribe(_, _) => EnforceLogs(a, g, "subscribe", EntityContext(Expand(m.entities, SubscriptionEntities(g.manifest), env.known)), env);
    case HistoryQuery(_) => EnforceLogs(a, g, "history", EntityContext(m.entities), env);
    case CameraSnapshot(_) => EnforceLogs(a, g, "camera", EntityContext([m.entity]), env);
  }

  lemma {:induction false} ServeLogs(a: Authority, sid: string, g: Grant, m: Message, env: Env)
    requires IsDataPlane(m)
    ensures Logged(a.store, Serve(a, sid, g, m, env).1.store)
  {
    hide Log, Logged, Enforce, CallAllowed, Dedup, HandleGetStates, HandleSubscribe, HandleHistory, HandleCamera, Get, Put, Pop;
    if m.GetStates? || m.Subscribe? || m.HistoryQuery? || m.CameraSnapshot? {
      QueryLogs(a, sid, g, m, env);
    } else if m.CallService? {
      LogLogs(a, "permission_error", g.id);
      if env.resolved.Some? {
        var es := Dedup(m.targets + env.resolved.value);
        var c := Context(m.domain, m.service, es, m.pin, m.pins);
        EnforceLogs(a, g, "action", c, env);
        var b := Enforce(a, g, "action", c, env).1;
        LogLogs(b.(calls := b.calls + [ServiceCall(m.domain, m.service, es)]), "call_service", g.id);
      }
    } else {
      SameLogged(a.store);
      LogLogs(a, "webrtc_fallback", g.id);
      LogLogs(a, "webrtc_answer", g.id);
    }
  }

  lemma {:induction false} DataPlaneLogs(a: Authority, sid: string, m: Message, env: Env)
    requires IsDataPlane(m)
    ensures Logged(a.store, HandleDataPlane(a, sid, m, env).1.store)
  {
    hide RequireGrant, Serve, Log, Logged, SW.Admit;
    GateEffect(a, sid, env);
    SameLogged(a.store);
    var (gate, b) := RequireGrant(a, sid, env);
    if gate.Granted? {
      var (ok, c) := CheckRate(b, gate.grant, m, env);
      if ok {
        ServeLogs(c, sid, gate.grant, m, env);
      } else {
        LogLogs(b.(dataPlaneHits := c.dataPlaneHits), "rate_limited", gate.grant.id);
        RateLog(b, gate.grant, m, env);
      }
    }
  }

  lemma {:induction false} RateLog(a: Authority, g: Grant, m: Message, env: Env)
    ensures var (ok, b) := CheckRate(a, g, m, env);
      if ok then b.store == a.store else b.store == Log(a.(dataPlaneHits := b.dataPlaneHits), "rate_limited", g.id).store
  {
    hide SW.Admit, StoreSpec.AppendAudit;
  }

  // ----- Every step -----

  /** The ids of the shares that the operations create, in order. */
  function Created(ops: seq<SI.Op>): seq<string>
    decreases |ops|
  {
    if ops == [] then []
    else Created(ops[..|ops| - 1]) + (if ops[|ops| - 1].CreateShare? then [ops[|ops| - 1].id] else [])
  }

  predicate CreatesNothing(ops: seq<SI.Op>) {
    forall i :: 0 <= i < |ops| ==> !ops[i].CreateShare?
  }

  lemma {:induction false} LoggedSteps(s: StoreSpec.Store, t: StoreSpec.Store) returns (ops: seq<SI.Op>)
    requires Logged(s, t)
    ensures Steps(s, ops) == t && CreatesNothing(ops)
  {
    if t == s {
      ops := [];
    } else {
      var e :| t == StoreSpec.AppendAudit(s, e);
      ops := [SI.Audit(e)];
      OneStep(s, SI.Audit(e));
    }
  }

  lemma {:induction false} CheckSteps(a: Authority, sid: string, m: Message, env: Env) returns (ops: seq<SI.Op>)
    requires m.ClaimShareMsg?
    ensures Steps(a.store, ops) == CheckClaim(a, sid, m, env).1.store && CreatesNothing(ops)
    ensures CheckClaim(a, sid, m, env).0.None? ==> CheckClaim(a, sid, m, env).1 == a
  {
    hide StoreSpec.AppendAudit, Get, Put;
    ops := [];
    if Decide(a, m, env).BadSecret? {
      ops := [SI.Audit(Event("session_error", m.shareId))];
      OneStep(a.store, ops[0]);
    }
  }

  lemma {:induction false} LockSteps(a: Authority, sid: string, m: Message) returns (ops: seq<SI.Op>)
    requires m.ClaimShareMsg?
    ensures Steps(a.store, ops) == LockClaim(a, sid, m).1.store && CreatesNothing(ops)
  {
    hide StoreSpec.ClaimShare, StoreSpec.AppendAudit, Get, Put;
    ops := [];
    if StoreSpec.ClaimShare(a.store, m.shareId, m.consumer).0.Some? {
      ops := [SI.Mint(m.shareId, m.consumer), SI.Audit(Event("share_claimed", m.shareId))];
      TwoSteps(a.store, ops[0], ops[1]);
    }
  }

  function Decide(a: Authority, m: Message, env: Env): ShareClaims.Decision
    requires m.ClaimShareMsg?
  {
    ShareClaims.Decide(a.store, m.shareId, m.secretHash, m.consumer, env.now.instant)
  }

  lemma {:induction false} SetupSteps(a: Authority, sid: string, m: Message, env: Env) returns (ops: seq<SI.Op>)
    requires m.AccessRequestMsg? || m.Authenticate?
    ensures Steps(a.store, ops) == Handle(a, sid, m, env).1.store && CreatesNothing(ops)
  {
    hide StoreSpec.AppendAudit, StoreSpec.FileRequest, StoreSpec.UpsertGrant, HandleDataPlane, HandleClaim, Put, RequestTimes;
    ops := [];
    if m.AccessRequestMsg? {
      if env.signed && m.manifest.Some? && !TooSoon(a, m.consumer, env.mono) {
        var file := SI.File(m.consumer, m.manifest.value, m.nonce, env.freshId, env.now.instant);
        var r := StoreSpec.FileRequest(a.store, m.consumer, m.manifest.value, m.nonce, env.freshId, env.now.instant).0;
        ops := [file, SI.Audit(Event("access_request_received", r.id))];
        TwoSteps(a.store, ops[0], ops[1]);
      } else {
        ops := [SI.Audit(Event("session_error", ""))];
        OneStep(a.store, ops[0]);
      }
    } else if !m.bound || !env.signed {
      ops := [SI.Audit(Event("session_error", ""))];
      OneStep(a.store, ops[0]);
    } else if Usable(Get(a.store.grants, m.consumer), env.now) {
      ops := [SI.Touch(m.consumer, env.now.instant), SI.Audit(Event("consumer_connected", Get(a.store.grants, m.consumer).value.id))];
      TwoSteps(a.store, ops[0], ops[1]);
    }
  }

  lemma {:induction false} RevokeSteps(a: Authority, id: string) returns (ops: seq<SI.Op>)
    ensures Steps(a.store, ops) == RevokeGrant(a, id).1.store && CreatesNothing(ops)
  {
    hide StoreSpec.AppendAudit, StoreSpec.RevokeGrant, CloseAll;
    var g := StoreSpec.RevokeGrant(a.store, id).0;
    ops := [SI.Revoke(id)];
    OneStep(a.store, ops[0]);
    if g.Some? {
      ops := [SI.Revoke(id), SI.Audit(Event("grant_revoked", g.value.id))];
      TwoSteps(a.store, ops[0], ops[1]);
    }
  }

  lemma {:induction false} DeleteSteps(a: Authority, id: string) returns (ops: seq<SI.Op>)
    ensures Steps(a.store, ops) == DeleteGrant(a, id).1.store && CreatesNothing(ops)
  {
    hide StoreSpec.AppendAudit, StoreSpec.DeleteGrant, CloseAll;
    var g := StoreSpec.DeleteGrant(a.store, id).0;
    ops := [SI.Delete(id)];
    OneStep(a.store, ops[0]);
    if g.Some? {
      ops := [SI.Delete(id), SI.Audit(Event("grant_deleted", g.value.id))];
      TwoSteps(a.store, ops[0], ops[1]);
    }
  }

  lemma {:induction false} RestrictSteps(a: Authority, id: string, rs: seq<Restriction>) returns (ops: seq<SI.Op>)
    ensures Steps(a.store, ops) == SetRestrictions(a, id, rs).1.store && CreatesNothing(ops)
  {
    hide StoreSpec.AppendAudit, StoreSpec.SetRestrictions, ClearAll;
    var g := StoreSpec.SetRestrictions(a.store, id, rs).0;
    ops := [SI.Restrict(id, rs)];
    OneStep(a.store, ops[0]);
    if g.Some? {
      ops := [SI.Restrict(id, rs), SI.Audit(Event("grant_restrictions_updated", g.value.id))];
      TwoSteps(a.store, ops[0], ops[1]);
    }
  }

  lemma {:induction false} ReceiveSteps(a: Authority, sid: string, m: Message, env: Env) returns (ops: seq<SI.Op>)
    ensures Steps(a.store, ops) == Handle(a, sid, m, env).1.store && CreatesNothing(ops)
  {
    hide HandleDataPlane, HandleAccessRequest, HandleAuthenticate, CheckClaim, LockClaim, Steps, SI.Step;
    if IsDataPlane(m) {
      DataPlaneLogs(a, sid, m, env);
      ops := LoggedSteps(a.store, HandleDataPlane(a, sid, m, env).1.store);
    } else if m.ClaimShareMsg? {
      ops := CheckSteps(a, sid, m, env);
      if CheckClaim(a, sid, m, env).0.None? {
        ops := LockSteps(a, sid, m);
      }
    } else {
      ops := SetupSteps(a, sid, m, env);
    }
  }

  /** The shares that the owner creates, in order. */
  function CreatedByOwner(inputs: seq<Input>): seq<string>
    decreases |inputs|
  {
    if inputs == [] then []
    else
      CreatedByOwner(inputs[..|inputs| - 1])
      + (if inputs[|inputs| - 1].op.Owner? && inputs[|inputs| - 1].op.op.CreateShare? then [inputs[|inputs| - 1].op.op.id] else [])
  }

  lemma {:induction false} StepSteps(a: Authority, i: Input) returns (ops: seq<SI.Op>)
    ensures Steps(a.store, ops) == Step(a, i).1.store
    ensures if i.op.Owner? && i.op.op.CreateShare? then ops == [i.op.op] else CreatesNothing(ops)
  {
    hide Handle, CheckClaim, LockClaim, RevokeGrant, DeleteGrant, SetRestrictions, SI.Step, StateChanged,
      Outbox.Queue, Get, Put, Pop;
    ops := [];
    match i.op
    case Receive(sid, m) => ops := ReceiveSteps(a, sid, m, i.env);
    case ClaimCheck(sid, m) => if m.ClaimShareMsg? { ops := CheckSteps(a, sid, m, i.env); }
    case ClaimLock(sid, m) => if m.ClaimShareMsg? { ops := LockSteps(a, sid, m); }
    case Revoke(id) => ops := RevokeSteps(a, id);
    case Delete(id) => ops := DeleteSteps(a, id);
    case Restrict(id, rs) => ops := RestrictSteps(a, id, rs);
    case Owner(op) =>
      if IsOwnerOp(op) {
        ops := [op];
        OneStep(a.store, op);
      }
    case _ =>
  }

  lemma {:induction false} CreatedMore(before: seq<SI.Op>, ops: seq<SI.Op>)
    requires CreatesNothing(ops)
    ensures Created(before + ops) == Created(before)
    decreases |ops|
  {
    if ops == [] {
      assert before + ops == before;
    } else {
      CreatedMore(before, ops[..|ops| - 1]);
      assert (before + ops)[..|before + ops| - 1] == before + ops[..|ops| - 1];
    }
  }

  /** The store of every run of the authority is the store of a run of store operations that creates the owner's shares. */
  lemma {:induction false} StoreIsRun(inputs: seq<Input>) returns (ops: seq<SI.Op>)
    ensures SI.Run(ops) == Run(inputs).store && Created(ops) == CreatedByOwner(inputs)
    decreases |inputs|
  {
    hide Step, SI.Step, IsOwnerOp;
    if inputs == [] {
      ops := [];
    } else {
      var before, i := inputs[..|inputs| - 1], inputs[|inputs| - 1];
      var first := StoreIsRun(before);
      var more := StepSteps(Run(before), i);
      StepsRun(first, more);
      ops := first + more;
      if i.op.Owner? && i.op.op.CreateShare? {
        assert ops[..|ops| - 1] == first;
      } else {
        CreatedMore(first, more);
        assert CreatedByOwner(before) + [] == CreatedByOwner(before);
      }
    }
  }

  lemma {:induction false} DistinctAreFresh(ops: seq<SI.Op>)
    requires NoRepeats(Created(ops))
    ensures ShareClaims.FreshShares(ops) && ShareClaims.Issued(ops) == Elements(Created(ops))
    decreases |ops|
  {
    if ops != [] {
      var before, op := ops[..|ops| - 1], ops[|ops| - 1];
      if op.CreateShare? {
        ElementsSnoc(Created(before), op.id);
      } else {
        assert Created(ops) == Created(before) + [] == Created(before);
      }
      DistinctAreFresh(before);
    }
  }

  /** The store's invariants in every run of the authority, with claims in two steps anywhere between the others: entries under
      their own ids and an index that agrees with a search, pending requests within their bounds, and shares conserved. */
  lemma {:induction false} StoreInvariantsHold(inputs: seq<Input>, id: string)
    ensures SI.Consistent(Run(inputs).store) && SI.PendingBounded(Run(inputs).store)
    ensures StoreSpec.GetGrant(Run(inputs).store, id).0 == (if id == "" then None else StoreRuns.SearchById(Run(inputs).store.grants, id))
    ensures NoRepeats(CreatedByOwner(inputs)) && Get(Run(inputs).store.shares, id).Some? ==>
      var share := Get(Run(inputs).store.shares, id).value;
      |ShareClaims.Holders(Run(inputs).store, id)| <= share.claimsUsed <= share.maxClaims
  {
    hide SI.Consistent, SI.PendingBounded, StoreSpec.GetGrant, NoRepeats, ShareClaims.Holders, Run, SI.Run;
    var ops := StoreIsRun(inputs);
    SI.RunIsConsistent(ops);
    SI.PendingBoundedInEveryRun(ops);
    SI.LookupInEveryRun(ops, id);
    if NoRepeats(CreatedByOwner(inputs)) && Get(Run(inputs).store.shares, id).Some? {
      DistinctAreFresh(ops);
      ShareClaims.ShareConservation(ops, id);
    }
  }
}
