/** Runs of the store. */
module StoreInvariants {
  import opened Options
  import opened Dict
  import opened Policy
  import opened Models
  import opened StoreSpec
  import opened StoreRuns

  datatype Op =
    | File(consumer: string, manifest: Manifest, nonce: string, freshId: string, now: int)
    | ApproveOp(id: string, expiresAt: Option<int>, approved: Option<Manifest>, now: int)
    | RejectOp(id: string, now: int)
    | Preapprove(consumer: string, manifest: Manifest, expiresAt: Option<int>, restrictions: seq<Restriction>)
    | Revoke(id: string)
    | Delete(id: string)
    | Restrict(id: string, restrictions: seq<Restriction>)
    | Touch(consumer: string, now: int)
    | PurgeGrantsOp(now: int)
    | CreateShare(id: string, manifest: Manifest, secretHash: string, maxClaims: int, expiresAt: Option<int>, restrictions: seq<Restriction>)
    | RevokeShareOp(id: string)
    | DeleteShareOp(id: string)
    | PurgeSharesOp(now: int)
    | Mint(id: string, consumer: string)
    | Audit(event: Event)
    | Lookup(id: string)

  /** A consumer that authenticates: its grant is stored again with the time of use. */
  function TouchGrant(s: Store, consumer: string, now: int): Store {
    match Get(s.grants, consumer)
    case None => s
    case Some(g) => UpsertGrant(s, g.(lastUsedAt := Some(now)))
  }

  function NewShare(op: Op): Share
    requires op.CreateShare?
  {
    Share(op.id, op.manifest, op.secretHash, if op.maxClaims < 1 then 1 else op.maxClaims, 0, false, op.expiresAt, op.restrictions)
  }

  function Step(s: Store, op: Op): Store {
    match op
    case File(c, m, n, id, now) => FileRequest(s, c, m, n, id, now).1
    case ApproveOp(id, e, m, now) => Approve(s, id, e, m, now).1
    case RejectOp(id, now) => Reject(s, id, now).1
    case Preapprove(c, m, e, rs) => CreatePreapproved(s, c, m, e, rs).1
    case Revoke(id) => RevokeGrant(s, id).1
    case Delete(id) => DeleteGrant(s, id).1
    case Restrict(id, rs) => SetRestrictions(s, id, rs).1
    case Touch(c, now) => TouchGrant(s, c, now)
    case PurgeGrantsOp(now) => PurgeGrants(s, now)
    case CreateShare(_, _, _, _, _, _) => UpsertShare(s, NewShare(op))
    case RevokeShareOp(id) => RevokeShare(s, id).1
    case DeleteShareOp(id) => DeleteShare(s, id).1
    case PurgeSharesOp(now) => PurgeShares(s, now)
    case Mint(id, c) => ClaimShare(s, id, c).1
    case Audit(e) => AppendAudit(s, e)
    case Lookup(id) => GetGrant(s, id).1
  }

  function Run(ops: seq<Op>): Store
    decreases |ops|
  {
    if ops == [] then EMPTY else Step(Run(ops[..|ops| - 1]), ops[|ops| - 1])
  }

  // ----- Keys and index -----

  /** Entries are kept under their own ids, and the index is up to date. */
  ghost predicate Consistent(s: Store) {
    && Unique(s.requests) && Unique(s.grants) && Unique(s.shares)
    && (forall k :: Get(s.requests, k).Some? ==> Get(s.requests, k).value.id == k)
    && (forall k :: Get(s.grants, k).Some? ==> Get(s.grants, k).value.consumer == k)
    && (forall k :: Get(s.shares, k).Some? ==> Get(s.shares, k).value.id == k)
    && s.index == RebuildIndex(s.grants)
    && |s.audit| <= 1000
  }

  lemma {:induction false} UpsertRequestEffect(s: Store, r: AccessRequest)
    requires Consistent(s)
    ensures Consistent(UpsertRequest(s, r))
    ensures forall k :: (var kept := Get(UpsertRequest(s, r).requests, k);
      kept.Some? ==> kept == if k == r.id then Some(r) else Get(s.requests, k))
  {
    hide Surplus, RebuildIndex;
    var put := Put(s.requests, r.id, r);
    PutKeys(s.requests, r.id, r);
    EvictionKeeps(put, "");
    forall k
      ensures Get(UpsertRequest(s, r).requests, k).Some?
        ==> Get(UpsertRequest(s, r).requests, k) == if k == r.id then Some(r) else Get(s.requests, k)
    {
      EvictionKeeps(put, k);
      PutGet(s.requests, r.id, r, k);
    }
  }

  lemma {:induction false} UpsertGrantEffect(s: Store, g: Grant)
    requires Consistent(s)
    ensures Consistent(UpsertGrant(s, g))
    ensures forall k :: Get(UpsertGrant(s, g).grants, k) == if k == g.consumer then Some(g) else Get(s.grants, k)
  {
    hide RebuildIndex;
    PutKeys(s.grants, g.consumer, g);
    forall k
      ensures Get(UpsertGrant(s, g).grants, k) == if k == g.consumer then Some(g) else Get(s.grants, k)
    {
      PutGet(s.grants, g.consumer, g, k);
    }
  }

  lemma {:induction false} UpsertShareEffect(s: Store, share: Share)
    requires Consistent(s)
    ensures Consistent(UpsertShare(s, share))
    ensures forall k :: Get(UpsertShare(s, share).shares, k) == if k == share.id then Some(share) else Get(s.shares, k)
  {
    hide RebuildIndex;
    PutKeys(s.shares, share.id, share);
    forall k
      ensures Get(UpsertShare(s, share).shares, k) == if k == share.id then Some(share) else Get(s.shares, k)
    {
      PutGet(s.shares, share.id, share, k);
    }
  }

  lemma {:induction false} UpsertKeepsGrants(s: Store, r: AccessRequest)
    ensures UpsertRequest(s, r).grants == s.grants && UpsertRequest(s, r).shares == s.shares
  {
  }

  lemma {:induction false} UpsertKeepsRequests(s: Store, g: Grant)
    ensures UpsertGrant(s, g).requests == s.requests && UpsertGrant(s, g).shares == s.shares
  {
  }

  lemma {:induction false} RemovalEffect(s: Store, grants: Dict<Grant>, shares: Dict<Share>)
    requires Consistent(s) && Unique(grants) && Unique(shares)
    requires forall k :: Get(grants, k).Some? ==> Get(grants, k) == Get(s.grants, k)
    requires forall k :: Get(shares, k).Some? ==> Get(shares, k) == Get(s.shares, k)
    ensures Consistent(Save(s.(grants := grants, shares := shares)))
  {
    hide RebuildIndex;
  }

  lemma {:induction false} PopAllEffect<V>(d: Dict<V>, ids: seq<string>)
    requires Unique(d)
    ensures Unique(PopAll(d, ids)) && forall k :: Get(PopAll(d, ids), k).Some? ==> Get(PopAll(d, ids), k) == Get(d, k)
  {
    forall k
      ensures Unique(PopAll(d, ids)) && (Get(PopAll(d, ids), k).Some? ==> Get(PopAll(d, ids), k) == Get(d, k))
    {
      PopAllGet(d, ids, k);
    }
    PopAllGet(d, ids, "");
  }

  lemma {:induction false} PopEffect<V>(d: Dict<V>, id: string)
    requires Unique(d)
    ensures Unique(Pop(d, id)) && forall k :: Get(Pop(d, id), k) == if k == id then None else Get(d, k)
  {
    PopKeys(d, id);
    forall k
      ensures Get(Pop(d, id), k) == if k == id then None else Get(d, k)
    {
      PopGet(d, id, k);
    }
  }

  /** A grant found by id is the one stored for its consumer. */
  lemma {:induction false} FoundGrant(s: Store, id: string)
    requires Consistent(s)
    ensures GetGrant(s, id).1 == s
    ensures var g := GetGrant(s, id).0; g.Some? ==> g.value.id == id && Get(s.grants, g.value.consumer) == g
  {
    LookupIsSearch(s, id);
  }

  lemma {:induction false} StepIsConsistent(s: Store, op: Op)
    requires Consistent(s)
    ensures Consistent(Step(s, op))
  {
    hide RebuildIndex, Surplus, Consistent, GetGrant, UpsertRequest, UpsertGrant, UpsertShare;
    match op
    case File(c, m, n, id, now) => UpsertRequestEffect(s, FileRequest(s, c, m, n, id, now).0);
    case ApproveOp(id, e, m, now) =>
      if Get(s.requests, id).Some? {
        var r := Get(s.requests, id).value.(status := Approved, decidedAt := Some(now));
        UpsertRequestEffect(s, r);
        UpsertGrantEffect(UpsertRequest(s, r), Approve(s, id, e, m, now).0.value);
      }
    case RejectOp(id, now) =>
      if Get(s.requests, id).Some? {
        UpsertRequestEffect(s, Get(s.requests, id).value.(status := Rejected, decidedAt := Some(now)));
      }
    case Preapprove(c, m, e, rs) => UpsertGrantEffect(s, CreatePreapproved(s, c, m, e, rs).0);
    case Touch(c, now) =>
      if Get(s.grants, c).Some? {
        UpsertGrantEffect(s, Get(s.grants, c).value.(lastUsedAt := Some(now)));
      }
    case CreateShare(_, _, _, _, _, _) => UpsertShareEffect(s, NewShare(op));
    case RevokeShareOp(id) =>
      if Get(s.shares, id).Some? {
        UpsertShareEffect(s, Get(s.shares, id).value.(revoked := true));
      }
    case Mint(id, c) => MintIsConsistent(s, id, c);
    case _ => StepByIdIsConsistent(s, op);
  }

  lemma {:induction false} StepByIdIsConsistent(s: Store, op: Op)
    requires Consistent(s)
    requires op.Revoke? || op.Delete? || op.Restrict? || op.PurgeGrantsOp? || op.DeleteShareOp? || op.PurgeSharesOp? || op.Audit? || op.Lookup?
    ensures Consistent(Step(s, op))
  {
    hide RebuildIndex, Surplus, GetGrant, UpsertGrant;
    match op
    case Revoke(id) =>
      FoundGrant(s, id);
      if GetGrant(s, id).0.Some? {
        UpsertGrantEffect(s, GetGrant(s, id).0.value.(revoked := true));
      }
    case Restrict(id, rs) =>
      FoundGrant(s, id);
      if GetGrant(s, id).0.Some? {
        UpsertGrantEffect(s, GetGrant(s, id).0.value.(restrictions := rs));
      }
    case Delete(id) =>
      FoundGrant(s, id);
      if GetGrant(s, id).0.Some? {
        PopEffect(s.grants, GetGrant(s, id).0.value.consumer);
        RemovalEffect(s, Pop(s.grants, GetGrant(s, id).0.value.consumer), s.shares);
      }
    case PurgeGrantsOp(now) =>
      PopAllEffect(s.grants, ExpiredGrants(s.grants, now));
      RemovalEffect(s, PopAll(s.grants, ExpiredGrants(s.grants, now)), s.shares);
    case DeleteShareOp(id) =>
      PopEffect(s.shares, id);
      RemovalEffect(s, s.grants, Pop(s.shares, id));
    case PurgeSharesOp(now) =>
      PopAllEffect(s.shares, ExpiredShares(s.shares, now));
      RemovalEffect(s, s.grants, PopAll(s.shares, ExpiredShares(s.shares, now)));
    case Lookup(id) => FoundGrant(s, id);
    case Audit(_) =>
  }

  /** A claim that goes through gives the consumer a grant on the share's terms, and uses up one claim of the share. */
  lemma {:induction false} MintEffect(s: Store, id: string, c: string)
    requires Consistent(s) && Claimable(s, id)
    ensures var (g, t) := ClaimShare(s, id, c);
      var share := Get(s.shares, id).value;
      && g == Some(Grant(c, c, share.manifest, false, share.expiresAt, None, share.restrictions, Some(id)))
      && t.requests == s.requests
      && (forall k :: Get(t.grants, k) == if k == c then g else Get(s.grants, k))
      && (forall k :: Get(t.shares, k) == if k == id then Some(share.(claimsUsed := share.claimsUsed + 1)) else Get(s.shares, k))
  {
    hide RebuildIndex;
    var (g, t) := ClaimShare(s, id, c);
    var share := Get(s.shares, id).value;
    var used := share.(claimsUsed := share.claimsUsed + 1);
    forall k
      ensures Get(t.grants, k) == (if k == c then g else Get(s.grants, k)) && Get(t.shares, k) == if k == id then Some(used) else Get(s.shares, k)
    {
      PutGet(s.grants, c, g.value, k);
      PutGet(s.shares, share.id, used, k);
    }
  }

  lemma {:induction false} MintIsConsistent(s: Store, id: string, c: string)
    requires Consistent(s)
    ensures Consistent(ClaimShare(s, id, c).1)
  {
    hide RebuildIndex;
    if Claimable(s, id) {
      MintEffect(s, id, c);
      PutKeys(s.grants, c, ClaimShare(s, id, c).0.value);
      var share := Get(s.shares, id).value;
      PutKeys(s.shares, share.id, share.(claimsUsed := share.claimsUsed + 1));
    }
  }

  lemma {:induction false} RunIsConsistent(ops: seq<Op>)
    ensures Consistent(Run(ops))
    decreases |ops|
  {
    hide Step, Consistent;
    if ops == [] {
      EmptyIsConsistent();
    } else {
      RunIsConsistent(ops[..|ops| - 1]);
      StepIsConsistent(Run(ops[..|ops| - 1]), ops[|ops| - 1]);
    }
  }

  lemma {:induction false} EmptyIsConsistent()
    ensures Consistent(EMPTY)
  {
  }

  /** In every run, lookup by grant id is a search over the grants. */
  lemma {:induction false} LookupInEveryRun(ops: seq<Op>, id: string)
    ensures GetGrant(Run(ops), id) == (if id == "" then None else SearchById(Run(ops).grants, id), Run(ops))
  {
    RunIsConsistent(ops);
    LookupIsSearch(Run(ops), id);
  }

  // ----- Pending requests -----

  /** No more pending requests than the limit, and one per consumer. */
  ghost predicate PendingBounded(s: Store) {
    && |PendingIds(s.requests)| <= 50
    && OnePerConsumer(s.requests)
  }

  ghost predicate OnePerConsumer(requests: Dict<AccessRequest>) {
    forall k, l :: IsPending(requests, k) && IsPending(requests, l) && Get(requests, k).value.consumer == Get(requests, l).value.consumer ==> k == l
  }

  lemma {:induction false} PendingByConsumerFinds(requests: Dict<AccessRequest>, consumer: string)
    requires Unique(requests)
    ensures var found := PendingByConsumer(requests, consumer);
      match found
      case None => forall k :: IsPending(requests, k) ==> Get(requests, k).value.consumer != consumer
      case Some(r) => r.consumer == consumer && r.status.Pending? && exists k :: Get(requests, k) == Some(r)
    decreases |requests|
  {
    if requests != [] {
      KeysCons(requests);
      var rest := requests[1..];
      PendingByConsumerFinds(rest, consumer);
      if requests[0].1.consumer == consumer && requests[0].1.status.Pending? {
        assert Get(requests, requests[0].0) == Some(requests[0].1);
      } else if PendingByConsumer(rest, consumer).Some? {
        var k :| Get(rest, k) == PendingByConsumer(rest, consumer);
        GetHas(rest, k);
        assert Get(requests, k) == Get(rest, k);
      }
    }
  }

  lemma {:induction false} UpsertIsBounded(s: Store, r: AccessRequest)
    requires Consistent(s) && PendingBounded(s)
    requires r.status.Pending? ==> forall k :: IsPending(s.requests, k) && Get(s.requests, k).value.consumer == r.consumer ==> k == r.id
    ensures PendingBounded(UpsertRequest(s, r))
  {
    hide PendingIds, Surplus, RebuildIndex;
    PutKeys(s.requests, r.id, r);
    PendingAfterEviction(Put(s.requests, r.id, r));
    UpsertRequestEffect(s, r);
  }

  lemma {:induction false} StepIsBounded(s: Store, op: Op)
    requires Consistent(s) && PendingBounded(s)
    ensures PendingBounded(Step(s, op))
  {
    hide PendingBounded, UpsertRequest, RebuildIndex;
    match op
    case File(c, m, n, id, now) => FileIsBounded(s, op);
    case ApproveOp(id, e, m, now) =>
      if Get(s.requests, id).Some? {
        var r := Get(s.requests, id).value.(status := Approved, decidedAt := Some(now));
        UpsertIsBounded(s, r);
        SameRequests(UpsertRequest(s, r), Step(s, op));
      } else {
        SameRequests(s, Step(s, op));
      }
    case RejectOp(id, now) =>
      if Get(s.requests, id).Some? {
        UpsertIsBounded(s, Get(s.requests, id).value.(status := Rejected, decidedAt := Some(now)));
      }
    case _ => SameRequests(s, Step(s, op));
  }

  lemma {:induction false} SameRequests(s: Store, t: Store)
    requires t.requests == s.requests
    ensures PendingBounded(s) <==> PendingBounded(t)
  {
  }

  lemma {:induction false} FileIsBounded(s: Store, op: Op)
    requires Consistent(s) && PendingBounded(s) && op.File?
    ensures PendingBounded(Step(s, op))
  {
    hide PendingIds, UpsertRequest, PendingByConsumer, RebuildIndex;
    PendingByConsumerFinds(s.requests, op.consumer);
    UpsertIsBounded(s, FileRequest(s, op.consumer, op.manifest, op.nonce, op.freshId, op.now).0);
  }

  /** In every run there are at most fifty pending requests, and at most one per consumer. */
  lemma {:induction false} PendingBoundedInEveryRun(ops: seq<Op>)
    ensures PendingBounded(Run(ops))
    decreases |ops|
  {
    hide Step, PendingBounded, Consistent;
    if ops == [] {
      NothingPending();
    } else {
      PendingBoundedInEveryRun(ops[..|ops| - 1]);
      RunIsConsistent(ops[..|ops| - 1]);
      StepIsBounded(Run(ops[..|ops| - 1]), ops[|ops| - 1]);
    }
  }

  lemma {:induction false} NothingPending()
    ensures PendingBounded(EMPTY)
  {
  }
}
