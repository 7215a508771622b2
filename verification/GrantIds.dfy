/** When lookup by grant id finds every grant: no two consumers' grants may share an id. */
module GrantIds {
  import opened Options
  import opened Dict
  import opened Policy
  import opened Models
  import opened StoreSpec
  import opened StoreRuns
  import opened StoreInvariants

  ghost predicate DistinctAcross(grants: Dict<Grant>) {
    forall c, d :: Get(grants, c).Some? && Get(grants, d).Some? && c != d && Get(grants, c).value.id != ""
      ==> (Get(grants, c).value.id != Get(grants, d).value.id)
  }

  lemma {:induction false} DistinctByConsumer(s: Store)
    requires Consistent(s)
    ensures DistinctIds(s.grants) <==> DistinctAcross(s.grants)
  {
    var gs := s.grants;
    if DistinctIds(gs) {
      forall c, d | Get(gs, c).Some? && Get(gs, d).Some? && c != d && Get(gs, c).value.id != ""
        ensures Get(gs, c).value.id != Get(gs, d).value.id
      {
        GetHas(gs, c);
        GetHas(gs, d);
        var i :| 0 <= i < |gs| && gs[i] == (c, Get(gs, c).value);
        var j :| 0 <= j < |gs| && gs[j] == (d, Get(gs, d).value);
      }
    } else {
      var i, j :| 0 <= i < j < |gs| && gs[i].1.id != "" && gs[i].1.id == gs[j].1.id;
      GetIn(gs, i);
      GetIn(gs, j);
    }
  }

  // ----- Which steps bring in a clash -----

  /** Another consumer's grant has this id. */
  ghost predicate Taken(s: Store, id: string, consumer: string) {
    id != "" && exists c :: Get(s.grants, c).Some? && c != consumer && Get(s.grants, c).value.id == id
  }

  /** The step stores no grant under an id that another consumer's grant has now. */
  ghost predicate ClashFree(s: Store, op: Op) {
    match op
    case ApproveOp(id, _, _, _) => Get(s.requests, id).Some? ==> !Taken(s, id, Get(s.requests, id).value.consumer)
    case Preapprove(c, _, _, _) => !Taken(s, c, c)
    case Mint(id, c) => Claimable(s, id) ==> !Taken(s, c, c)
    case _ => true
  }

  /** One consumer's grant is new, the others stay. */
  lemma {:induction false} DistinctAfterPutIff(s: Store, t: Store, g: Grant)
    requires Consistent(s) && Consistent(t) && DistinctIds(s.grants)
    requires forall c :: Get(t.grants, c) == if c == g.consumer then Some(g) else Get(s.grants, c)
    ensures DistinctIds(t.grants) <==> !Taken(s, g.id, g.consumer)
  {
    hide Consistent, DistinctIds;
    DistinctByConsumer(s);
    DistinctByConsumer(t);
    assert Get(t.grants, g.consumer) == Some(g);
    if Taken(s, g.id, g.consumer) {
      var c :| Get(s.grants, c).Some? && c != g.consumer && Get(s.grants, c).value.id == g.id;
      assert Get(t.grants, c) == Get(s.grants, c);
    } else {
      forall c, d | Get(t.grants, c).Some? && Get(t.grants, d).Some? && c != d && Get(t.grants, c).value.id != ""
        ensures Get(t.grants, c).value.id != Get(t.grants, d).value.id
      {
        assert c == g.consumer || Get(t.grants, c) == Get(s.grants, c);
        assert d == g.consumer || Get(t.grants, d) == Get(s.grants, d);
      }
    }
  }

  /** Grants that stay under their ids, or go. */
  lemma {:induction false} FewerStayDistinct(s: Store, t: Store)
    requires Consistent(s) && Consistent(t) && DistinctIds(s.grants)
    requires forall c :: Get(t.grants, c).Some? ==> Get(s.grants, c).Some? && Get(t.grants, c).value.id == Get(s.grants, c).value.id
    ensures DistinctIds(t.grants)
  {
    hide Consistent, DistinctIds;
    DistinctByConsumer(s);
    DistinctByConsumer(t);
  }

  /** A claim that goes through keeps the ids distinct exactly if no other consumer's grant has the claimant's name as id. */
  lemma {:induction false} DistinctAfterClaimIff(s: Store, id: string, c: string)
    requires Consistent(s) && DistinctIds(s.grants) && Claimable(s, id)
    ensures DistinctIds(ClaimShare(s, id, c).1.grants) <==> !Taken(s, c, c)
  {
    hide Consistent, DistinctIds, ClaimShare, Claimable, Taken;
    MintEffect(s, id, c);
    MintIsConsistent(s, id, c);
    DistinctAfterPutIff(s, ClaimShare(s, id, c).1, ClaimShare(s, id, c).0.value);
  }

  /** Every step keeps the ids distinct exactly if it is free of clashes. */
  lemma {:induction false} StepStaysDistinctIff(s: Store, op: Op)
    requires Consistent(s) && DistinctIds(s.grants)
    ensures DistinctIds(Step(s, op).grants) <==> ClashFree(s, op)
  {
    hide Consistent, DistinctIds, Taken, UpsertRequest, UpsertGrant, ClaimShare, Claimable;
    StepIsConsistent(s, op);
    match op
    case File(c, m, n, id, now) =>
      UpsertKeepsGrants(s, FileRequest(s, c, m, n, id, now).0);
    case ApproveOp(id, e, m, now) =>
      if Get(s.requests, id).Some? {
        var r := Get(s.requests, id).value.(status := Approved, decidedAt := Some(now));
        var g := Approve(s, id, e, m, now).0.value;
        RequestId(s, id);
        UpsertRequestEffect(s, r);
        UpsertKeepsGrants(s, r);
        UpsertGrantEffect(UpsertRequest(s, r), g);
        DistinctAfterPutIff(s, Step(s, op), g);
      }
    case RejectOp(id, now) =>
      if Get(s.requests, id).Some? {
        UpsertKeepsGrants(s, Get(s.requests, id).value.(status := Rejected, decidedAt := Some(now)));
      }
    case Preapprove(c, m, e, rs) =>
      UpsertGrantEffect(s, CreatePreapproved(s, c, m, e, rs).0);
      DistinctAfterPutIff(s, Step(s, op), CreatePreapproved(s, c, m, e, rs).0);
    case Mint(id, c) =>
      if Claimable(s, id) {
        DistinctAfterClaimIff(s, id, c);
      } else {
        RefusedClaim(s, id, c);
      }
    case _ =>
      OtherStepKeepsIds(s, op);
      FewerStayDistinct(s, Step(s, op));
  }

  lemma {:induction false} RequestId(s: Store, id: string)
    requires Consistent(s) && Get(s.requests, id).Some?
    ensures Get(s.requests, id).value.id == id
  {
  }

  lemma {:induction false} GrantConsumer(s: Store, c: string)
    requires Consistent(s) && Get(s.grants, c).Some?
    ensures Get(s.grants, c).value.consumer == c
  {
  }

  lemma {:induction false} RefusedClaim(s: Store, id: string, c: string)
    requires !Claimable(s, id)
    ensures ClaimShare(s, id, c).1 == s
  {
  }

  /** Steps on stored grants and on the rest leave every grant its id, or drop it. */
  lemma {:induction false} OtherStepKeepsIds(s: Store, op: Op)
    requires Consistent(s)
    requires !op.File? && !op.ApproveOp? && !op.RejectOp? && !op.Preapprove? && !op.Mint?
    ensures Step(s, op).requests == s.requests
    ensures forall c :: Get(Step(s, op).grants, c).Some? ==>
      && Get(s.grants, c).Some?
      && Get(Step(s, op).grants, c).value.id == Get(s.grants, c).value.id
      && Get(Step(s, op).grants, c).value.consumer == Get(s.grants, c).value.consumer
  {
    hide Consistent, GetGrant, UpsertGrant;
    match op
    case Touch(c, now) =>
      if Get(s.grants, c).Some? {
        GrantConsumer(s, c);
        RestoredGrant(s, Get(s.grants, c).value.(lastUsedAt := Some(now)));
      }
    case Revoke(id) =>
      FoundGrant(s, id);
      if GetGrant(s, id).0.Some? {
        RestoredGrant(s, GetGrant(s, id).0.value.(revoked := true));
      }
    case Restrict(id, rs) =>
      FoundGrant(s, id);
      if GetGrant(s, id).0.Some? {
        RestoredGrant(s, GetGrant(s, id).0.value.(restrictions := rs));
      }
    case Delete(id) =>
      FoundGrant(s, id);
      UniqueGrants(s);
      if GetGrant(s, id).0.Some? {
        PopEffect(s.grants, GetGrant(s, id).0.value.consumer);
      }
    case PurgeGrantsOp(now) =>
      UniqueGrants(s);
      PopAllEffect(s.grants, ExpiredGrants(s.grants, now));
    case Lookup(id) => FoundGrant(s, id);
    case _ =>
  }

  lemma {:induction false} UniqueGrants(s: Store)
    requires Consistent(s)
    ensures Unique(s.grants)
  {
  }

  lemma {:induction false} RestoredGrant(s: Store, g: Grant)
    requires Consistent(s) && Get(s.grants, g.consumer).Some? && Get(s.grants, g.consumer).value.id == g.id
    requires Get(s.grants, g.consumer).value.consumer == g.consumer
    ensures UpsertGrant(s, g).requests == s.requests
    ensures forall c :: Get(UpsertGrant(s, g).grants, c).Some? ==>
      && Get(s.grants, c).Some?
      && Get(UpsertGrant(s, g).grants, c).value.id == Get(s.grants, c).value.id
      && Get(UpsertGrant(s, g).grants, c).value.consumer == Get(s.grants, c).value.consumer
  {
    hide Consistent, UpsertGrant;
    UpsertGrantEffect(s, g);
    UpsertKeepsRequests(s, g);
  }

  /** The grant ids are distinct all through a run exactly if none of its steps stores a grant under an id that another
      consumer's grant has at that time. */
  lemma {:induction false} GrantIdsStayDistinct(ops: seq<Op>)
    ensures (forall n :: 0 <= n <= |ops| ==> DistinctIds(Run(ops[..n]).grants))
      <==> (forall i :: 0 <= i < |ops| ==> ClashFree(Run(ops[..i]), ops[i]))
  {
    hide DistinctIds, ClashFree, Step, Run, Consistent;
    if forall i :: 0 <= i < |ops| ==> ClashFree(Run(ops[..i]), ops[i]) {
      forall n | 0 <= n <= |ops|
        ensures DistinctIds(Run(ops[..n]).grants)
      {
        DistinctUpTo(ops, n);
      }
    }
    if forall n :: 0 <= n <= |ops| ==> DistinctIds(Run(ops[..n]).grants) {
      forall i | 0 <= i < |ops|
        ensures ClashFree(Run(ops[..i]), ops[i])
      {
        NextStep(ops, i);
        assert DistinctIds(Run(ops[..i]).grants) && DistinctIds(Run(ops[..i + 1]).grants);
      }
    }
  }

  lemma {:induction false} NextStep(ops: seq<Op>, i: nat)
    requires i < |ops|
    ensures DistinctIds(Run(ops[..i]).grants) ==> (DistinctIds(Run(ops[..i + 1]).grants) <==> ClashFree(Run(ops[..i]), ops[i]))
  {
    hide DistinctIds, ClashFree, Step, Consistent;
    assert ops[..i + 1][..i] == ops[..i];
    RunIsConsistent(ops[..i]);
    if DistinctIds(Run(ops[..i]).grants) {
      StepStaysDistinctIff(Run(ops[..i]), ops[i]);
    }
  }

  lemma {:induction false} DistinctUpTo(ops: seq<Op>, n: nat)
    requires n <= |ops| && forall i :: 0 <= i < |ops| ==> ClashFree(Run(ops[..i]), ops[i])
    ensures DistinctIds(Run(ops[..n]).grants)
    decreases n
  {
    hide ClashFree, Step;
    if n > 0 {
      DistinctUpTo(ops, n - 1);
      NextStep(ops, n - 1);
    }
  }

  // ----- A clash -----

  const FILED := AccessRequest("R", "A", map[], "n", Pending, 0, None)
  const APPROVED := Grant("R", "A", map[], false, None, None, [], None)
  const CLAIMED := Grant("R", "R", map[], false, None, None, [], Some("s"))
  const SHARED := Share("s", map[], "h", 1, 0, false, None, [])

  lemma {:induction false} FiledThenApproved()
    ensures var s := Step(Step(EMPTY, File("A", map[], "n", "R", 0)), ApproveOp("R", None, None, 0));
      s.grants == [("A", APPROVED)] && s.shares == []
  {
    hide RebuildIndex;
    var s := Step(EMPTY, File("A", map[], "n", "R", 0));
    assert s.requests == [("R", FILED)] by {
      assert Put([], "R", FILED) == [("R", FILED)];
      assert PendingIds([("R", FILED)]) == ["R"];
    }
    var r := FILED.(status := Approved, decidedAt := Some(0));
    UpsertKeepsGrants(s, r);
    UpsertKeepsRequests(UpsertRequest(s, r), APPROVED);
  }

  lemma {:induction false} ClaimedUnderIt(s: Store)
    requires s.grants == [("A", APPROVED)] && s.shares == []
    ensures Step(Step(s, CreateShare("s", map[], "h", 1, None, [])), Mint("s", "R")).grants == [("A", APPROVED), ("R", CLAIMED)]
  {
    hide RebuildIndex;
    var t := Step(s, CreateShare("s", map[], "h", 1, None, []));
    assert t.shares == [("s", SHARED)] && t.grants == s.grants;
    assert Put(s.grants[1..], "R", CLAIMED) == [("R", CLAIMED)];
  }

  lemma {:induction false} RevokesTheOther(s: Store)
    requires Consistent(s) && s.grants == [("A", APPROVED), ("R", CLAIMED)]
    ensures !DistinctIds(s.grants) && GetGrant(s, "R").0 == Some(CLAIMED)
    ensures RevokeGrant(s, "R").1.grants == [("A", APPROVED), ("R", CLAIMED.(revoked := true))]
  {
    hide RebuildIndex;
    assert s.grants[0].1.id == s.grants[1].1.id;
    LookupIsSearch(s, "R");
    assert SearchById(s.grants, "R") == Some(CLAIMED);
    FoundGrant(s, "R");
    assert Put(s.grants[1..], "R", CLAIMED.(revoked := true)) == [("R", CLAIMED.(revoked := true))];
  }

  lemma {:induction false} RunNext(ops: seq<Op>, op: Op)
    ensures Run([]) == EMPTY && Run(ops + [op]) == Step(Run(ops), op)
  {
    assert (ops + [op])[..|ops|] == ops;
  }

  /** A clash does happen: a consumer learns the id of its request, which becomes the id of its grant, and whoever claims a
      share under that id as consumer name takes the id over. Lookup then finds the second grant only, and revoking by the
      id revokes that one and not the first consumer's. */
  lemma {:induction false} ClaimUnderTakenName()
    ensures var s := Run([File("A", map[], "n", "R", 0), ApproveOp("R", None, None, 0),
        CreateShare("s", map[], "h", 1, None, []), Mint("s", "R")]);
      && s.grants == [("A", APPROVED), ("R", CLAIMED)] && !DistinctIds(s.grants)
      && GetGrant(s, "R").0 == Some(CLAIMED)
      && RevokeGrant(s, "R").1.grants == [("A", APPROVED), ("R", CLAIMED.(revoked := true))]
  {
    hide Run, Step, RevokeGrant, GetGrant, DistinctIds, Consistent;
    var a, b := File("A", map[], "n", "R", 0), ApproveOp("R", None, None, 0);
    var c, d := CreateShare("s", map[], "h", 1, None, []), Mint("s", "R");
    RunNext([], a);
    RunNext([a], b);
    RunNext([a, b], c);
    RunNext([a, b, c], d);
    assert [] + [a] == [a] && [a] + [b] == [a, b] && [a, b] + [c] == [a, b, c] && [a, b, c] + [d] == [a, b, c, d];
    FiledThenApproved();
    ClaimedUnderIt(Run([a, b]));
    RunIsConsistent([a, b, c, d]);
    RevokesTheOther(Run([a, b, c, d]));
  }

  // ----- Ids that are fresh when they are drawn -----

  /** Ids drawn for requests name no request and no consumer with a grant; consumers who get a grant in their own name
      have no request's id as their name. */
  predicate FreshIds(s: Store, op: Op) {
    match op
    case File(c, _, _, id, _) => PendingByConsumer(s.requests, c).None? ==> Get(s.requests, id).None? && Get(s.grants, id).None?
    case Preapprove(c, _, _, _) => Get(s.requests, c).None?
    case Mint(_, c) => Get(s.requests, c).None?
    case _ => true
  }

  /** A grant is named after its consumer, or after a decided request of that consumer. */
  predicate Named(s: Store, g: Grant) {
    match Get(s.requests, g.id)
    case None => g.id == g.consumer
    case Some(r) => r.consumer == g.consumer && !r.status.Pending?
  }

  ghost predicate AllNamed(s: Store) {
    forall c :: Get(s.grants, c).Some? ==> Named(s, Get(s.grants, c).value)
  }

  /** The requests that remain agree with those before, and decided ones all remain. */
  ghost predicate DecidedStay(s: Store, t: Store) {
    forall k :: Get(s.requests, k).Some? && !Get(s.requests, k).value.status.Pending?
      ==> (&& Get(t.requests, k).Some? && !Get(t.requests, k).value.status.Pending?
           && Get(t.requests, k).value.consumer == Get(s.requests, k).value.consumer)
  }

  lemma {:induction false} UpsertDecidedStay(s: Store, r: AccessRequest)
    requires Consistent(s)
    requires Get(s.requests, r.id).Some? && !Get(s.requests, r.id).value.status.Pending?
      ==> (!r.status.Pending? && r.consumer == Get(s.requests, r.id).value.consumer)
    ensures DecidedStay(s, UpsertRequest(s, r))
    ensures !r.status.Pending? ==> Get(UpsertRequest(s, r).requests, r.id) == Some(r)
  {
    hide UpsertRequest, RebuildIndex;
    PutGet(s.requests, r.id, r, r.id);
    forall k | Get(s.requests, k).Some? && !Get(s.requests, k).value.status.Pending?
      ensures Get(UpsertRequest(s, r).requests, k) == Get(Put(s.requests, r.id, r), k)
    {
      PutGet(s.requests, r.id, r, k);
      DecidedAreKept(s, r, k);
    }
    forall k
      ensures Get(Put(s.requests, r.id, r), k) == if k == r.id then Some(r) else Get(s.requests, k)
    {
      PutGet(s.requests, r.id, r, k);
    }
    if !r.status.Pending? {
      DecidedAreKept(s, r, r.id);
    }
  }

  /** Requests as before, grants as before or one of them with the same name. */
  lemma {:induction false} StillNamed(s: Store, t: Store)
    requires Consistent(s) && AllNamed(s) && DecidedStay(s, t)
    requires forall k :: Get(t.requests, k).Some? ==> Get(s.requests, k).Some? || Get(s.grants, k).None?
    requires forall c :: Get(t.grants, c).Some? ==>
      || (&& Get(s.grants, c).Some? && Get(t.grants, c).value.id == Get(s.grants, c).value.id
          && Get(t.grants, c).value.consumer == Get(s.grants, c).value.consumer)
      || Named(t, Get(t.grants, c).value)
    ensures AllNamed(t)
  {
  }

  lemma {:induction false} StepNames(s: Store, op: Op)
    requires Consistent(s) && PendingBounded(s) && AllNamed(s) && FreshIds(s, op)
    ensures AllNamed(Step(s, op))
  {
    hide PendingIds, UpsertRequest, UpsertGrant, RebuildIndex, PendingByConsumer, Surplus, GetGrant;
    match op
    case File(c, m, n, id, now) =>
      var r := FileRequest(s, c, m, n, id, now).0;
      PendingByConsumerFinds(s.requests, c);
      UpsertRequestEffect(s, r);
      UpsertDecidedStay(s, r);
      UpsertKeepsGrants(s, r);
      StillNamed(s, Step(s, op));
    case ApproveOp(id, e, m, now) =>
      if Get(s.requests, id).Some? {
        var r := Get(s.requests, id).value.(status := Approved, decidedAt := Some(now));
        var t := UpsertRequest(s, r);
        UpsertRequestEffect(s, r);
        UpsertDecidedStay(s, r);
        UpsertKeepsGrants(s, r);
        var g := Approve(s, id, e, m, now).0.value;
        UpsertGrantEffect(t, g);
        UpsertKeepsRequests(t, g);
        StillNamed(s, Step(s, op));
      }
    case RejectOp(id, now) =>
      if Get(s.requests, id).Some? {
        var r := Get(s.requests, id).value.(status := Rejected, decidedAt := Some(now));
        UpsertRequestEffect(s, r);
        UpsertDecidedStay(s, r);
        UpsertKeepsGrants(s, r);
        StillNamed(s, Step(s, op));
      }
    case Mint(id, c) =>
      if Claimable(s, id) {
        MintEffect(s, id, c);
        StillNamed(s, Step(s, op));
      }
    case _ => OtherStepNames(s, op);
  }

  lemma {:induction false} OtherStepNames(s: Store, op: Op)
    requires Consistent(s) && AllNamed(s) && FreshIds(s, op)
    requires !op.File? && !op.ApproveOp? && !op.RejectOp? && !op.Mint?
    ensures AllNamed(Step(s, op))
  {
    hide RebuildIndex, UpsertGrant, Consistent;
    if op.Preapprove? {
      var g := CreatePreapproved(s, op.consumer, op.manifest, op.expiresAt, op.restrictions).0;
      UpsertGrantEffect(s, g);
      UpsertKeepsRequests(s, g);
    } else {
      hide Step;
      OtherStepKeepsIds(s, op);
    }
    StillNamed(s, Step(s, op));
  }

  lemma {:induction false} NamedAreDistinct(s: Store)
    requires Consistent(s) && AllNamed(s)
    ensures DistinctIds(s.grants)
  {
    hide RebuildIndex;
    forall i, j | 0 <= i < j < |s.grants| && s.grants[i].1.id != ""
      ensures s.grants[i].1.id != s.grants[j].1.id
    {
      GetIn(s.grants, i);
      GetIn(s.grants, j);
    }
  }

  lemma {:induction false} NamedInEveryRun(ops: seq<Op>)
    requires forall i :: 0 <= i < |ops| ==> FreshIds(Run(ops[..i]), ops[i])
    ensures AllNamed(Run(ops))
    decreases |ops|
  {
    hide Step, AllNamed, Consistent, PendingBounded, FreshIds;
    if ops == [] {
      NothingNamed();
    } else {
      var before := ops[..|ops| - 1];
      assert forall i :: 0 <= i < |before| ==> before[..i] == ops[..i];
      NamedInEveryRun(before);
      RunIsConsistent(before);
      PendingBoundedInEveryRun(before);
      StepNames(Run(before), ops[|ops| - 1]);
    }
  }

  lemma {:induction false} NothingNamed()
    ensures AllNamed(EMPTY)
  {
  }

  /** If ids are fresh when they are drawn, no two consumers' grants ever share one, whatever is approved later. */
  lemma {:induction false} FreshIdsNeverClash(ops: seq<Op>)
    requires forall i :: 0 <= i < |ops| ==> FreshIds(Run(ops[..i]), ops[i])
    ensures DistinctIds(Run(ops).grants)
  {
    NamedInEveryRun(ops);
    RunIsConsistent(ops);
    NamedAreDistinct(Run(ops));
  }
}
