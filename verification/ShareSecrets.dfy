/** Claims of share links: what each is answered, and that none goes through without the share's secret. */
module ShareSecrets {
  import opened Options
  import opened Dict
  import opened Policy
  import opened Models
  import opened StoreSpec
  import SI = StoreInvariants
  import opened ShareClaims
  import Spec = AuthoritySpec
  import Runs = AuthorityRuns
  import AuthorityStore

  /** Stored, not revoked and not past its expiry. */
  predicate IsOpen(share: Option<Share>, now: int) {
    share.Some? && !share.value.revoked && (share.value.expiresAt.Some? ==> now < share.value.expiresAt.value)
  }

  predicate HasClaimsLeft(share: Share) {
    share.claimsUsed < share.maxClaims
  }

  /** The share is open to a new holder that knows its secret. */
  predicate OpenTo(s: Store, id: string, secretHash: string, consumer: string, now: int) {
    var share := Get(s.shares, id);
    && IsOpen(share, now) && secretHash == share.value.secretHash && HasClaimsLeft(share.value)
    && (Get(s.grants, consumer).Some? ==> Get(s.grants, consumer).value.revoked)
  }

  /** What a claim is answered, case by case. */
  lemma {:induction false} ClaimAnsweredExactly(a: Spec.Authority, sid: string, m: Spec.Message, env: Spec.Env)
    requires m.ClaimShareMsg?
    ensures var share, held, r := Get(a.store.shares, m.shareId), Get(a.store.grants, m.consumer), Spec.Handle(a, sid, m, env).0;
      if !IsOpen(share, env.now.instant) then r == Spec.Failed("share_unavailable")
      else if m.secretHash != share.value.secretHash then r == Spec.Failed("bad_share_secret")
      else if held.Some? && !held.value.revoked then
        r == if held.value.shareId == Some(m.shareId) then Spec.Claimed(held.value.id) else Spec.Failed("consumer_already_claimed")
      else r == if HasClaimsLeft(share.value) then Spec.Claimed(m.consumer) else Spec.Failed("share_claims_exhausted")
  {
    hide AppendAudit, Save, Put;
  }

  /** A claim mints exactly if the share is open to its consumer; it then stores the grant and one more claim used, and
      otherwise changes neither. */
  lemma {:induction false} ClaimStoresExactly(a: Spec.Authority, sid: string, m: Spec.Message, env: Spec.Env)
    requires m.ClaimShareMsg? && SI.Consistent(a.store)
    ensures var s, t := a.store, Spec.Handle(a, sid, m, env).1.store;
      if OpenTo(s, m.shareId, m.secretHash, m.consumer, env.now.instant) then
        var share := Get(s.shares, m.shareId).value;
        && (forall k :: Get(t.grants, k) == if k != m.consumer then Get(s.grants, k)
              else Some(Grant(m.consumer, m.consumer, share.manifest, false, share.expiresAt, None, share.restrictions, Some(m.shareId))))
        && (forall k :: Get(t.shares, k) == if k != m.shareId then Get(s.shares, k) else Some(share.(claimsUsed := share.claimsUsed + 1)))
      else t.grants == s.grants && t.shares == s.shares
  {
    hide AppendAudit, SI.Consistent, ClaimShare, OpenTo, Spec.Handle, IsOpen, SI.Consistent;
    ClaimEitherWay(a, sid, m, env);
    if OpenTo(a.store, m.shareId, m.secretHash, m.consumer, env.now.instant) {
      OpenIsClaimable(a.store, m.shareId, m.secretHash, m.consumer, env.now.instant);
      SI.MintEffect(a.store, m.shareId, m.consumer);
      LogKeeps(ClaimShare(a.store, m.shareId, m.consumer).1, Event("share_claimed", m.shareId));
    } else {
      LogKeeps(a.store, Event("session_error", m.shareId));
    }
  }

  lemma {:induction false} OpenIsClaimable(s: Store, id: string, secretHash: string, consumer: string, now: int)
    requires OpenTo(s, id, secretHash, consumer, now)
    ensures Claimable(s, id)
  {
  }

  lemma {:induction false} ClaimEitherWay(a: Spec.Authority, sid: string, m: Spec.Message, env: Spec.Env)
    requires m.ClaimShareMsg?
    ensures var s, t := a.store, Spec.Handle(a, sid, m, env).1.store;
      if OpenTo(s, m.shareId, m.secretHash, m.consumer, env.now.instant)
      then t == AppendAudit(ClaimShare(s, m.shareId, m.consumer).1, Event("share_claimed", m.shareId))
      else t == s || t == AppendAudit(s, Event("session_error", m.shareId))
  {
    hide AppendAudit, ClaimShare, Put;
    if OpenTo(a.store, m.shareId, m.secretHash, m.consumer, env.now.instant) {
      OpenIsClaimable(a.store, m.shareId, m.secretHash, m.consumer, env.now.instant);
      ClaimFails(a.store, m.shareId, m.consumer);
    }
  }

  lemma {:induction false} LogKeeps(s: Store, e: Event)
    ensures AppendAudit(s, e).grants == s.grants && AppendAudit(s, e).shares == s.shares && AppendAudit(s, e).requests == s.requests
  {
  }

  /** No claim succeeds without the secret of an open share. */
  lemma {:induction false} ClaimNeedsSecret(a: Spec.Authority, sid: string, m: Spec.Message, env: Spec.Env)
    requires m.ClaimShareMsg? && Spec.Handle(a, sid, m, env).0.Claimed?
    ensures var share := Get(a.store.shares, m.shareId); IsOpen(share, env.now.instant) && share.value.secretHash == m.secretHash
  {
    hide Spec.Handle;
    ClaimAnsweredExactly(a, sid, m, env);
  }

  // ----- The terms of a share -----

  /** The share as its creation fixed it. */
  predicate CreatedAs(op: SI.Op, share: Share) {
    && op.CreateShare? && op.id == share.id && op.manifest == share.manifest && op.secretHash == share.secretHash
    && share.maxClaims == (if op.maxClaims < 1 then 1 else op.maxClaims)
    && op.expiresAt == share.expiresAt && op.restrictions == share.restrictions
  }

  lemma {:induction false} StepKeepsTerms(s: Store, op: SI.Op, id: string)
    requires SI.Consistent(s) && Get(SI.Step(s, op).shares, id).Some?
    ensures
      || (op.CreateShare? && op.id == id && CreatedAs(op, Get(SI.Step(s, op).shares, id).value))
      || (!(op.CreateShare? && op.id == id) && Get(s.shares, id).Some?
          && SameTerms(Get(s.shares, id).value, Get(SI.Step(s, op).shares, id).value))
  {
    hide SI.Consistent, UpsertShare, ClaimShare;
    if op.CreateShare? {
      SI.UpsertShareEffect(s, SI.NewShare(op));
    } else if op.Mint? && Claimable(s, op.id) {
      SI.MintEffect(s, op.id, op.consumer);
    } else {
      StepIsCalm(s, op);
    }
  }

  /** Every stored share has the terms, and so the secret, of the creation of its id. */
  lemma {:induction false} StoredAsCreated(ops: seq<SI.Op>, id: string) returns (k: nat)
    requires Get(SI.Run(ops).shares, id).Some?
    ensures k < |ops| && ops[k].CreateShare? && ops[k].id == id && CreatedAs(ops[k], Get(SI.Run(ops).shares, id).value)
    decreases |ops|
  {
    hide SI.Step, SI.Consistent;
    k := |ops| - 1;
    SI.RunIsConsistent(ops[..k]);
    StepKeepsTerms(SI.Run(ops[..k]), ops[k], id);
    if !(ops[k].CreateShare? && ops[k].id == id) {
      k := StoredAsCreated(ops[..k], id);
    }
  }

  /** The terms of a share stay while it is stored. */
  lemma {:induction false} TermsStay(ops: seq<SI.Op>, more: seq<SI.Op>, id: string)
    requires FreshShares(ops + more) && Get(SI.Run(ops).shares, id).Some? && Get(SI.Run(ops + more).shares, id).Some?
    ensures SameTerms(Get(SI.Run(ops).shares, id).value, Get(SI.Run(ops + more).shares, id).value)
    decreases |more|
  {
    hide SI.Step, SI.Consistent;
    if more == [] {
      assert ops + more == ops;
    } else {
      var less, op := more[..|more| - 1], more[|more| - 1];
      assert ops + more == (ops + less) + [op];
      OneMoreOp(ops + less, op, id);
      SI.RunIsConsistent(ops + less);
      StepKeepsTerms(SI.Run(ops + less), op, id);
      FreshPrefix(ops, less);
      ConservedInEveryRun(ops);
      IssuedStays(ops, less);
      TermsStay(ops, less, id);
    }
  }

  lemma {:induction false} FreshPrefix(ops: seq<SI.Op>, more: seq<SI.Op>)
    requires FreshShares(ops + more)
    ensures FreshShares(ops)
    decreases |more|
  {
    if more == [] {
      assert ops + more == ops;
    } else {
      assert (ops + more)[..|ops + more| - 1] == ops + more[..|more| - 1];
      FreshPrefix(ops, more[..|more| - 1]);
    }
  }

  // ----- Claims in two steps -----

  lemma {:induction false} ProceedsExactly(s: Store, id: string, secretHash: string, consumer: string, now: int)
    ensures Decide(s, id, secretHash, consumer, now).Proceed? <==> OpenTo(s, id, secretHash, consumer, now)
  {
  }

  /** A check that found the share open to the consumer. */
  predicate IsGoodCheck(w: World, e: Move, id: string, c: string) {
    e.Check? && e.id == id && e.consumer == c && OpenTo(w.store, id, e.secretHash, c, e.now)
  }

  function GoodChecks(es: seq<Move>, id: string, c: string): nat
    decreases |es|
  {
    if es == [] then 0
    else GoodChecks(es[..|es| - 1], id, c) + (if IsGoodCheck(WorldOf(es[..|es| - 1]), es[|es| - 1], id, c) then 1 else 0)
  }

  lemma {:induction false} PassedAreGood(es: seq<Move>, id: string, c: string)
    ensures Passed(es, id, c) == GoodChecks(es, id, c)
    decreases |es|
  {
    hide OpenTo, Decide;
    if es != [] {
      var e := es[|es| - 1];
      PassedAreGood(es[..|es| - 1], id, c);
      if e.Check? {
        ProceedsExactly(WorldOf(es[..|es| - 1]).store, e.id, e.secretHash, e.consumer, e.now);
      }
    }
  }

  /** The attempts of a consumer under the lock are no more than its checks with the right secret. */
  lemma {:induction false} LocksNeedGoodChecks(es: seq<Move>, id: string, c: string)
    requires AllEnabled(es)
    ensures Locked(es, id, c) <= GoodChecks(es, id, c)
  {
    LocksNeedChecks(es, id, c);
    PassedAreGood(es, id, c);
  }

  lemma {:induction false} InFlightWasChecked(es: seq<Move>, id: string, c: string) returns (k: nat)
    requires (id, c) in WorldOf(es).inFlight
    ensures k < |es| && IsGoodCheck(WorldOf(es[..k]), es[k], id, c)
    decreases |es|
  {
    hide SI.Step, Decide, OpenTo;
    k := |es| - 1;
    var w, e := WorldOf(es[..k]), es[k];
    if e.Check? {
      ProceedsExactly(w.store, e.id, e.secretHash, e.consumer, e.now);
    }
    if !IsGoodCheck(w, e, id, c) {
      k := InFlightWasChecked(es[..k], id, c);
      assert es[..|es| - 1][..k] == es[..k];
    }
  }

  lemma {:induction false} EnabledAt(es: seq<Move>, n: nat)
    requires AllEnabled(es) && n < |es|
    ensures Enabled(WorldOf(es[..n]), es[n])
    decreases |es|
  {
    hide Enabled;
    if n < |es| - 1 {
      EnabledAt(es[..|es| - 1], n);
      assert es[..|es| - 1][..n] == es[..n];
    }
  }

  /** The operations of a longer run. */
  lemma {:induction false} OpsExtend(es: seq<Move>, k: nat) returns (more: seq<SI.Op>)
    requires k <= |es|
    ensures Ops(es) == Ops(es[..k]) + more
    decreases |es|
  {
    if k == |es| {
      assert es[..k] == es;
      more := [];
      assert Ops(es) + [] == Ops(es);
    } else {
      more := OpsExtend(es[..|es| - 1], k);
      assert es[..|es| - 1][..k] == es[..k];
      match es[|es| - 1]
      case Other(op) => more := more + [op];
      case Check(_, _, _, _) =>
      case Lock(id, c) => more := more + [SI.Mint(id, c)];
    }
  }

  /** However claims interleave with everything else: an attempt under the lock follows a check of the same share and consumer
      that found the share open with the hash of its own secret, which the share still has if it is still there. */
  lemma {:induction false} LockFollowsCheck(es: seq<Move>, n: nat) returns (k: nat)
    requires AllEnabled(es) && n < |es| && es[n].Lock? && FreshShares(Ops(es[..n]))
    ensures k < n && IsGoodCheck(WorldOf(es[..k]), es[k], es[n].id, es[n].consumer)
    ensures var share := Get(WorldOf(es[..n]).store.shares, es[n].id); share.Some? ==> share.value.secretHash == es[k].secretHash
  {
    hide SI.Step, Next;
    EnabledAt(es, n);
    k := InFlightWasChecked(es[..n], es[n].id, es[n].consumer);
    assert es[..n][..k] == es[..k];
    StoreOfWorld(es[..n]);
    StoreOfWorld(es[..k]);
    var more := OpsExtend(es[..n], k);
    if Get(WorldOf(es[..n]).store.shares, es[n].id).Some? {
      TermsStay(Ops(es[..k]), more, es[n].id);
    }
  }

  // ----- Over runs of the authority -----

  /** A claim reaches the lock only after its own checks have let it proceed. */
  ghost predicate LocksFollowChecks(inputs: seq<Runs.Input>) {
    forall n :: 0 <= n < |inputs| && inputs[n].op.ClaimLock? ==> ProceededBefore(inputs, n)
  }

  ghost predicate ProceededBefore(inputs: seq<Runs.Input>, n: nat)
    requires n < |inputs| && inputs[n].op.ClaimLock?
  {
    exists k :: 0 <= k < n && inputs[k].op == Runs.ClaimCheck(inputs[n].op.sid, inputs[n].op.m) && Runs.OutputAt(inputs, k) == Runs.Silent
  }

  lemma {:induction false} CheckedExactly(a: Spec.Authority, sid: string, m: Spec.Message, env: Spec.Env)
    requires m.ClaimShareMsg?
    ensures var r := Spec.CheckClaim(a, sid, m, env).0;
      && (r.None? <==> OpenTo(a.store, m.shareId, m.secretHash, m.consumer, env.now.instant))
      && (r.Some? && r.value.Claimed? ==>
            var share := Get(a.store.shares, m.shareId); IsOpen(share, env.now.instant) && share.value.secretHash == m.secretHash)
  {
    hide AppendAudit, Put;
  }

  /** In every run, a claim that is answered with success came with the secret of its share while that was open. */
  lemma {:induction false} ClaimedHadSecret(inputs: seq<Runs.Input>, n: nat) returns (k: nat)
    requires LocksFollowChecks(inputs) && n < |inputs|
    requires Runs.OutputAt(inputs, n).Replied? && Runs.OutputAt(inputs, n).reply.Claimed?
    ensures (inputs[n].op.Receive? || inputs[n].op.ClaimCheck? || inputs[n].op.ClaimLock?) && inputs[n].op.m.ClaimShareMsg?
    ensures k <= n && (inputs[k].op.Receive? || inputs[k].op.ClaimCheck?)
      && inputs[k].op.m == inputs[n].op.m && inputs[k].op.sid == inputs[n].op.sid
    ensures var share := Get(Runs.Run(inputs[..k]).store.shares, inputs[k].op.m.shareId);
      IsOpen(share, inputs[k].env.now.instant) && share.value.secretHash == inputs[k].op.m.secretHash
  {
    hide Runs.Run, Spec.CheckClaim, Spec.LockClaim, Spec.Handle, IsOpen, ProceededBefore, Spec.RevokeGrant, Spec.DeleteGrant,
      Spec.SetRestrictions, SI.Step, Spec.StateChanged, Spec.QueueEvent, Spec.PopOutbox, Spec.Discard;
    k := n;
    var a, i := Runs.Run(inputs[..n]), inputs[n];
    match i.op
    case Receive(sid, m) =>
      OnlyClaimsClaim(a, sid, m, i.env);
      ClaimNeedsSecret(a, sid, m, i.env);
    case ClaimCheck(sid, m) => CheckedExactly(a, sid, m, i.env);
    case ClaimLock(sid, m) =>
      k := Proceeded(inputs, n);
      CheckedExactly(Runs.Run(inputs[..k]), sid, m, inputs[k].env);
  }

  lemma {:induction false} Proceeded(inputs: seq<Runs.Input>, n: nat) returns (k: nat)
    requires LocksFollowChecks(inputs) && n < |inputs| && inputs[n].op.ClaimLock?
    ensures k < n && inputs[k].op == Runs.ClaimCheck(inputs[n].op.sid, inputs[n].op.m) && Runs.OutputAt(inputs, k) == Runs.Silent
  {
    hide Runs.OutputAt;
    assert ProceededBefore(inputs, n);
    k :| 0 <= k < n && inputs[k].op == Runs.ClaimCheck(inputs[n].op.sid, inputs[n].op.m) && Runs.OutputAt(inputs, k) == Runs.Silent;
  }

  lemma {:induction false} OnlyClaimsClaim(a: Spec.Authority, sid: string, m: Spec.Message, env: Spec.Env)
    ensures Spec.Handle(a, sid, m, env).0.Claimed? ==> m.ClaimShareMsg?
  {
    hide Spec.RequireGrant, Spec.CheckRate, Spec.Log, Spec.Bind, FileRequest, UpsertGrant, Spec.Enforce, Spec.Expand, Spec.AllAllowed, Spec.StatesOf,
      Spec.CallAllowed, Dedup, Spec.HandleClaim;
  }

  lemma {:induction false} StepsKeepTerms(s: Store, ops: seq<SI.Op>, id: string)
    requires SI.Consistent(s) && AuthorityStore.CreatesNothing(ops) && Get(AuthorityStore.Steps(s, ops).shares, id).Some?
    ensures Get(s.shares, id).Some? && SameTerms(Get(s.shares, id).value, Get(AuthorityStore.Steps(s, ops).shares, id).value)
    decreases |ops|
  {
    hide SI.Step, SI.Consistent;
    if ops != [] {
      var before := ops[..|ops| - 1];
      StepsAreConsistent(s, before);
      StepKeepsTerms(AuthorityStore.Steps(s, before), ops[|ops| - 1], id);
      StepsKeepTerms(s, before, id);
    }
  }

  lemma {:induction false} StepsAreConsistent(s: Store, ops: seq<SI.Op>)
    requires SI.Consistent(s)
    ensures SI.Consistent(AuthorityStore.Steps(s, ops))
    decreases |ops|
  {
    hide SI.Step, SI.Consistent;
    if ops != [] {
      StepsAreConsistent(s, ops[..|ops| - 1]);
      SI.StepIsConsistent(AuthorityStore.Steps(s, ops[..|ops| - 1]), ops[|ops| - 1]);
    }
  }

  /** In every run of the authority, a stored share has the terms, and so the secret, that the owner gave it. */
  lemma {:induction false} SecretIsOwners(inputs: seq<Runs.Input>, id: string) returns (k: nat)
    requires Get(Runs.Run(inputs).store.shares, id).Some?
    ensures k < |inputs| && inputs[k].op.Owner? && CreatedAs(inputs[k].op.op, Get(Runs.Run(inputs).store.shares, id).value)
    ensures inputs[k].op.op.id == id
    decreases |inputs|
  {
    hide Runs.Step, SI.Step, SI.Consistent, AuthorityStore.Steps;
    if inputs == [] {
      NothingShared(id);
    }
    k := |inputs| - 1;
    var a, i := Runs.Run(inputs[..k]), inputs[k];
    AuthorityStore.StoreInvariantsHold(inputs[..k], id);
    var ops := AuthorityStore.StepSteps(a, i);
    if i.op.Owner? && i.op.op.CreateShare? {
      AuthorityStore.OneStep(a.store, i.op.op);
      StepKeepsTerms(a.store, i.op.op, id);
      if i.op.op.id != id {
        k := SecretIsOwners(inputs[..k], id);
      }
    } else {
      StepsKeepTerms(a.store, ops, id);
      k := SecretIsOwners(inputs[..k], id);
    }
  }

  lemma {:induction false} NothingShared(id: string)
    ensures Get(Spec.START.store.shares, id).None?
  {
  }
}
