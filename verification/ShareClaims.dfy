/** Share links: how many consumers may hold the grant of one, under every interleaving of claims. */
module ShareClaims {
  import opened Lists
  import opened Options
  import opened Dict
  import opened Policy
  import opened Models
  import opened StoreSpec
  import opened StoreRuns
  import opened StoreInvariants

  /** The consumers that hold a grant of the share. */
  function Holders(s: Store, id: string): set<string> {
    set c | c in Keys(s.grants) && Get(s.grants, c).Some? && Get(s.grants, c).value.shareId == Some(id)
  }

  /** The ids of all shares ever created. */
  function Issued(ops: seq<Op>): set<string>
    decreases |ops|
  {
    if ops == [] then {}
    else Issued(ops[..|ops| - 1]) + (if ops[|ops| - 1].CreateShare? then {ops[|ops| - 1].id} else {})
  }

  /** Share ids are drawn at random: none is drawn twice. */
  predicate FreshShares(ops: seq<Op>)
    decreases |ops|
  {
    ops == [] || (
      var before, op := ops[..|ops| - 1], ops[|ops| - 1];
      FreshShares(before) && (op.CreateShare? ==> op.id !in Issued(before)))
  }

  /** How often a claim went through. */
  function Mints(ops: seq<Op>, id: string): nat
    decreases |ops|
  {
    if ops == [] then 0
    else
      var before, op := ops[..|ops| - 1], ops[|ops| - 1];
      Mints(before, id) + (if op.Mint? && op.id == id && Claimable(Run(before), id) then 1 else 0)
  }

  /** Grants of a share are only lost, shares only revoked or removed, and no claim is counted. */
  ghost predicate Calm(s: Store, t: Store) {
    && (forall c :: Get(t.grants, c).Some? && Get(t.grants, c).value.shareId.Some?
         ==> Get(s.grants, c).Some? && Get(s.grants, c).value.shareId == Get(t.grants, c).value.shareId)
    && (forall id :: Get(t.shares, id).Some? ==> Get(s.shares, id).Some? && SameClaims(Get(s.shares, id).value, Get(t.shares, id).value))
  }

  predicate SameClaims(a: Share, b: Share) {
    a.claimsUsed == b.claimsUsed && SameTerms(a, b) && (a.revoked ==> b.revoked)
  }

  /** What the owner fixed when creating the share. */
  predicate SameTerms(a: Share, b: Share) {
    && a.id == b.id && a.manifest == b.manifest && a.secretHash == b.secretHash
    && a.maxClaims == b.maxClaims && a.expiresAt == b.expiresAt && a.restrictions == b.restrictions
  }

  lemma {:induction false} UpsertGrantIsCalm(s: Store, g: Grant)
    requires Consistent(s)
    requires g.shareId.Some? ==> Get(s.grants, g.consumer).Some? && Get(s.grants, g.consumer).value.shareId == g.shareId
    ensures Calm(s, UpsertGrant(s, g))
  {
    hide UpsertGrant, RebuildIndex;
    UpsertGrantEffect(s, g);
    UpsertKeepsRequests(s, g);
  }

  lemma {:induction false} CalmTwice(s: Store, t: Store, u: Store)
    requires Calm(s, t) && Calm(t, u)
    ensures Calm(s, u)
  {
  }

  lemma {:induction false} UpsertRequestIsCalm(s: Store, r: AccessRequest)
    ensures Calm(s, UpsertRequest(s, r))
  {
    UpsertKeepsGrants(s, r);
  }

  lemma {:induction false} RequestStepIsCalm(s: Store, op: Op)
    requires Consistent(s) && (op.File? || op.ApproveOp? || op.RejectOp? || op.Preapprove? || op.Touch?)
    ensures Calm(s, Step(s, op))
  {
    hide Calm, UpsertGrant, UpsertRequest, PendingByConsumer, Consistent;
    match op
    case File(c, m, n, id, now) => UpsertRequestIsCalm(s, FileRequest(s, c, m, n, id, now).0);
    case ApproveOp(id, e, m, now) =>
      if Get(s.requests, id).Some? {
        var r := Get(s.requests, id).value.(status := Approved, decidedAt := Some(now));
        var t := UpsertRequest(s, r);
        UpsertRequestEffect(s, r);
        UpsertRequestIsCalm(s, r);
        UpsertGrantIsCalm(t, Approve(s, id, e, m, now).0.value);
        CalmTwice(s, t, Step(s, op));
      } else {
        SameIsCalm(s);
      }
    case RejectOp(id, now) =>
      if Get(s.requests, id).Some? {
        UpsertRequestIsCalm(s, Get(s.requests, id).value.(status := Rejected, decidedAt := Some(now)));
      } else {
        SameIsCalm(s);
      }
    case Preapprove(c, m, e, rs) => UpsertGrantIsCalm(s, CreatePreapproved(s, c, m, e, rs).0);
    case Touch(c, now) =>
      if Get(s.grants, c).Some? {
        ConsumerOf(s, c);
        UpsertGrantIsCalm(s, Get(s.grants, c).value.(lastUsedAt := Some(now)));
      } else {
        SameIsCalm(s);
      }
  }

  lemma {:induction false} SameIsCalm(s: Store)
    ensures Calm(s, s)
  {
  }

  lemma {:induction false} ConsumerOf(s: Store, c: string)
    requires Consistent(s) && Get(s.grants, c).Some?
    ensures Get(s.grants, c).value.consumer == c
  {
  }

  lemma {:induction false} GrantStepIsCalm(s: Store, op: Op)
    requires Consistent(s) && (op.Revoke? || op.Restrict? || op.Delete? || op.PurgeGrantsOp? || op.Lookup?)
    ensures Calm(s, Step(s, op))
  {
    hide UpsertGrant, GetGrant, RebuildIndex;
    match op
    case Revoke(id) =>
      FoundGrant(s, id);
      if GetGrant(s, id).0.Some? {
        UpsertGrantIsCalm(s, GetGrant(s, id).0.value.(revoked := true));
      }
    case Restrict(id, rs) =>
      FoundGrant(s, id);
      if GetGrant(s, id).0.Some? {
        UpsertGrantIsCalm(s, GetGrant(s, id).0.value.(restrictions := rs));
      }
    case Delete(id) =>
      FoundGrant(s, id);
      if GetGrant(s, id).0.Some? {
        PopEffect(s.grants, GetGrant(s, id).0.value.consumer);
      }
    case PurgeGrantsOp(now) => PopAllEffect(s.grants, ExpiredGrants(s.grants, now));
    case Lookup(id) => FoundGrant(s, id);
  }

  lemma {:induction false} ShareStepIsCalm(s: Store, op: Op)
    requires Consistent(s) && (op.RevokeShareOp? || op.DeleteShareOp? || op.PurgeSharesOp? || op.Audit?)
    ensures Calm(s, Step(s, op))
  {
    hide UpsertShare, RebuildIndex;
    match op
    case RevokeShareOp(id) =>
      if Get(s.shares, id).Some? {
        var share := Get(s.shares, id).value.(revoked := true);
        UpsertShareEffect(s, share);
        assert UpsertShare(s, share).grants == s.grants by { UpsertShareKeepsGrants(s, share); }
      }
    case DeleteShareOp(id) => PopEffect(s.shares, id);
    case PurgeSharesOp(now) => PopAllEffect(s.shares, ExpiredShares(s.shares, now));
    case Audit(_) =>
  }

  lemma {:induction false} UpsertShareKeepsGrants(s: Store, share: Share)
    ensures UpsertShare(s, share).grants == s.grants && UpsertShare(s, share).requests == s.requests
  {
  }

  predicate Quiet(s: Store, op: Op) {
    !op.CreateShare? && !(op.Mint? && Claimable(s, op.id))
  }

  lemma {:induction false} StepIsCalm(s: Store, op: Op)
    requires Consistent(s) && Quiet(s, op)
    ensures Calm(s, Step(s, op))
  {
    hide Consistent, Calm;
    if op.File? || op.ApproveOp? || op.RejectOp? || op.Preapprove? || op.Touch? {
      RequestStepIsCalm(s, op);
    } else if op.Revoke? || op.Restrict? || op.Delete? || op.PurgeGrantsOp? || op.Lookup? {
      GrantStepIsCalm(s, op);
    } else if op.Mint? {
      SameIsCalm(s);
    } else {
      ShareStepIsCalm(s, op);
    }
  }

  // ----- Conservation -----

  /** Each stored share: its holders, its count of claims and its limit. */
  ghost predicate Conserved(ops: seq<Op>, s: Store) {
    && AllIssued(Issued(ops), s)
    && (forall id :: Get(s.shares, id).Some? ==> Balanced(ops, s, id))
    && (forall id :: id !in Issued(ops) ==> Mints(ops, id) == 0)
  }

  ghost predicate AllIssued(issued: set<string>, s: Store) {
    && (forall id :: Get(s.shares, id).Some? ==> id in issued)
    && (forall c :: Get(s.grants, c).Some? && Get(s.grants, c).value.shareId.Some? ==> Get(s.grants, c).value.shareId.value in issued)
  }

  lemma {:induction false} CalmIssued(s: Store, t: Store, issued: set<string>)
    requires Calm(s, t) && AllIssued(issued, s)
    ensures AllIssued(issued, t)
  {
  }

  predicate Balanced(ops: seq<Op>, s: Store, id: string)
    requires Get(s.shares, id).Some?
  {
    var share := Get(s.shares, id).value;
    |Holders(s, id)| <= share.claimsUsed == Mints(ops, id) <= share.maxClaims
  }

  lemma {:induction false} FewerHolders(s: Store, t: Store, id: string)
    requires Calm(s, t)
    ensures Holders(t, id) <= Holders(s, id) && |Holders(t, id)| <= |Holders(s, id)|
  {
    forall c | c in Holders(t, id)
      ensures c in Holders(s, id)
    {
      GetHas(s.grants, c);
    }
    SubsetSize(Holders(t, id), Holders(s, id));
  }

  lemma {:induction false} OneMoreOp(before: seq<Op>, op: Op, id: string)
    ensures Run(before + [op]) == Step(Run(before), op)
    ensures Issued(before + [op]) == Issued(before) + (if op.CreateShare? then {op.id} else {})
    ensures FreshShares(before + [op]) <==> FreshShares(before) && (op.CreateShare? ==> op.id !in Issued(before))
    ensures Mints(before + [op], id) == Mints(before, id) + (if op.Mint? && op.id == id && Claimable(Run(before), id) then 1 else 0)
  {
    hide Step, Claimable;
    assert (before + [op])[..|before|] == before;
  }

  lemma {:induction false} CalmConserves(before: seq<Op>, op: Op)
    requires Consistent(Run(before)) && Conserved(before, Run(before)) && Quiet(Run(before), op)
    ensures Conserved(before + [op], Step(Run(before), op))
  {
    hide Consistent, Step, Run, Issued, Mints, Holders, AllIssued;
    var s, t := Run(before), Step(Run(before), op);
    StepIsCalm(s, op);
    CalmIssued(s, t, Issued(before));
    OneMoreOp(before, op, "");
    assert Issued(before) + {} == Issued(before);
    forall id
      ensures Mints(before + [op], id) == Mints(before, id)
    {
      OneMoreOp(before, op, id);
    }
    forall id | Get(t.shares, id).Some?
      ensures Balanced(before + [op], t, id)
    {
      assert Balanced(before, s, id);
      FewerHolders(s, t, id);
    }
    forall id | id !in Issued(before + [op])
      ensures Mints(before + [op], id) == 0
    {
      assert Mints(before, id) == 0;
    }
  }

  lemma {:induction false} NobodyHoldsNew(s: Store, ops: seq<Op>, id: string)
    requires Conserved(ops, s) && id !in Issued(ops)
    ensures Holders(s, id) == {}
  {
    hide Issued, Mints, Balanced;
    forall c
      ensures c !in Holders(s, id)
    {
      assert Get(s.grants, c).Some? && Get(s.grants, c).value.shareId.Some? ==> Get(s.grants, c).value.shareId.value in Issued(ops);
    }
    assert Holders(s, id) <= {};
  }

  lemma {:induction false} CreateConserves(before: seq<Op>, op: Op)
    requires Consistent(Run(before)) && Conserved(before, Run(before)) && op.CreateShare? && op.id !in Issued(before)
    ensures Conserved(before + [op], Step(Run(before), op))
  {
    hide Consistent, Run, Issued, Mints, UpsertShare;
    var s, t := Run(before), Step(Run(before), op);
    UpsertShareEffect(s, NewShare(op));
    UpsertShareKeepsGrants(s, NewShare(op));
    forall id
      ensures Issued(before + [op]) == Issued(before) + {op.id} && Mints(before + [op], id) == Mints(before, id)
    {
      OneMoreOp(before, op, id);
    }
    forall id | Get(t.shares, id).Some?
      ensures Balanced(before + [op], t, id)
    {
      assert Holders(t, id) == Holders(s, id);
      if id == op.id {
        NobodyHoldsNew(s, before, id);
      } else {
        assert Balanced(before, s, id);
      }
    }
  }

  lemma {:induction false} MintedHolders(s: Store, t: Store, id: string, c: string, other: string)
    requires forall k :: k != c ==> Get(t.grants, k) == Get(s.grants, k)
    requires Get(t.grants, c).Some? && Get(t.grants, c).value.shareId == Some(id)
    ensures other != id ==> |Holders(t, other)| <= |Holders(s, other)|
    ensures |Holders(t, id)| <= |Holders(s, id)| + 1 && c in Holders(t, id)
  {
    GetHas(t.grants, c);
    forall k | k in Holders(t, other) && (other != id || k != c)
      ensures k in Holders(s, other)
    {
      GetHas(s.grants, k);
    }
    forall k | k in Holders(t, id) && k != c
      ensures k in Holders(s, id)
    {
      GetHas(s.grants, k);
    }
    if other != id {
      SubsetSize(Holders(t, other), Holders(s, other));
    }
    SubsetSize(Holders(t, id), Holders(s, id) + {c});
  }

  lemma {:induction false} MintConserves(before: seq<Op>, op: Op)
    requires Consistent(Run(before)) && Conserved(before, Run(before)) && op.Mint? && Claimable(Run(before), op.id)
    ensures Conserved(before + [op], Step(Run(before), op))
  {
    hide Consistent, Run, Issued, Mints, ClaimShare, Holders;
    var s, t := Run(before), Step(Run(before), op);
    MintEffect(s, op.id, op.consumer);
    forall id
      ensures Issued(before + [op]) == Issued(before) && Mints(before + [op], id) == Mints(before, id) + (if id == op.id then 1 else 0)
    {
      OneMoreOp(before, op, id);
    }
    forall id | Get(t.shares, id).Some?
      ensures Balanced(before + [op], t, id)
    {
      assert Balanced(before, s, id);
      MintedHolders(s, t, op.id, op.consumer, id);
    }
  }

  lemma {:induction false} NothingIssued()
    ensures Conserved([], EMPTY)
  {
  }

  lemma {:induction false} ConservedInEveryRun(ops: seq<Op>)
    requires FreshShares(ops)
    ensures Conserved(ops, Run(ops))
    decreases |ops|
  {
    if ops == [] {
      NothingIssued();
    } else {
      hide Conserved, Consistent, Step, Claimable;
      var before, op := ops[..|ops| - 1], ops[|ops| - 1];
      assert ops == before + [op];
      ConservedInEveryRun(before);
      RunIsConsistent(before);
      if op.CreateShare? {
        CreateConserves(before, op);
      } else if op.Mint? && Claimable(Run(before), op.id) {
        MintConserves(before, op);
      } else {
        CalmConserves(before, op);
      }
    }
  }

  /** Over every run: the holders of a stored share are no more than the claims it counts, which are exactly the claims
      that went through, and no more than it allows. */
  lemma {:induction false} ShareConservation(ops: seq<Op>, id: string)
    requires FreshShares(ops) && Get(Run(ops).shares, id).Some?
    ensures var share := Get(Run(ops).shares, id).value;
      |Holders(Run(ops), id)| <= share.claimsUsed == Mints(ops, id) <= share.maxClaims
  {
    ConservedInEveryRun(ops);
    assert Balanced(ops, Run(ops), id);
  }

  // ----- Revocation -----

  /** Revoked or no longer stored. */
  predicate Gone(s: Store, id: string) {
    Get(s.shares, id).None? || Get(s.shares, id).value.revoked
  }

  lemma {:induction false} GoneStays(s: Store, op: Op, id: string)
    requires Consistent(s) && Gone(s, id) && (op.CreateShare? ==> op.id != id)
    ensures Gone(Step(s, op), id)
  {
    hide Consistent, UpsertShare, ClaimShare;
    if op.CreateShare? {
      UpsertShareEffect(s, NewShare(op));
    } else if op.Mint? && Claimable(s, op.id) {
      MintEffect(s, op.id, op.consumer);
    } else {
      StepIsCalm(s, op);
    }
  }

  lemma {:induction false} IssuedStays(ops: seq<Op>, more: seq<Op>)
    ensures Issued(ops) <= Issued(ops + more)
    decreases |more|
  {
    if more == [] {
      assert ops + more == ops;
    } else {
      IssuedStays(ops, more[..|more| - 1]);
      assert (ops + more)[..|ops + more| - 1] == ops + more[..|more| - 1];
    }
  }

  /** After a share has been revoked, deleted or purged, no claim of it goes through any more. */
  lemma {:induction false} NoMintAfterRevocation(ops: seq<Op>, more: seq<Op>, id: string)
    requires FreshShares(ops + more) && id in Issued(ops) && Gone(Run(ops), id)
    ensures Gone(Run(ops + more), id) && Mints(ops + more, id) == Mints(ops, id)
    decreases |more|
  {
    hide Consistent, Step;
    if more == [] {
      assert ops + more == ops;
    } else {
      var less, op := more[..|more| - 1], more[|more| - 1];
      assert ops + more == (ops + less) + [op];
      OneMoreOp(ops + less, op, id);
      IssuedStays(ops, less);
      NoMintAfterRevocation(ops, less, id);
      RunIsConsistent(ops + less);
      GoneStays(Run(ops + less), op, id);
    }
  }

  // ----- Claims in two steps -----

  /** What the checks before the lock decide. */
  datatype Decision = Unavailable | BadSecret | Held(grant: Grant) | HoldsAnother | Exhausted | Proceed

  function Decide(s: Store, id: string, secretHash: string, consumer: string, now: int): Decision {
    match Get(s.shares, id)
    case None => Unavailable
    case Some(share) =>
      if share.revoked || IsExpired(share.expiresAt, now) then Unavailable
      else if secretHash != share.secretHash then BadSecret
      else
        var held := Get(s.grants, consumer);
        if held.Some? && !held.value.revoked then
          if held.value.shareId == Some(id) then Held(held.value) else HoldsAnother
        else if share.claimsUsed >= share.maxClaims then Exhausted
        else Proceed
  }

  /** The store, and the claims that passed the checks and have not reached the lock. */
  datatype World = World(store: Store, inFlight: multiset<(string, string)>)

  datatype Move = Other(op: Op) | Check(id: string, secretHash: string, consumer: string, now: int) | Lock(id: string, consumer: string)

  predicate Enabled(w: World, e: Move) {
    match e
    case Other(op) => !op.Mint?
    case Check(_, _, _, _) => true
    case Lock(id, c) => (id, c) in w.inFlight
  }

  function Next(w: World, e: Move): World {
    match e
    case Other(op) => World(Step(w.store, op), w.inFlight)
    case Check(id, h, c, now) =>
      if Decide(w.store, id, h, c, now).Proceed? then World(w.store, w.inFlight + multiset{(id, c)}) else w
    case Lock(id, c) => World(Step(w.store, Mint(id, c)), w.inFlight - multiset{(id, c)})
  }

  function WorldOf(es: seq<Move>): World
    decreases |es|
  {
    if es == [] then World(EMPTY, multiset{}) else Next(WorldOf(es[..|es| - 1]), es[|es| - 1])
  }

  predicate AllEnabled(es: seq<Move>)
    decreases |es|
  {
    es == [] || (AllEnabled(es[..|es| - 1]) && Enabled(WorldOf(es[..|es| - 1]), es[|es| - 1]))
  }

  /** What the events do to the store. */
  function Ops(es: seq<Move>): seq<Op>
    decreases |es|
  {
    if es == [] then []
    else
      var before := Ops(es[..|es| - 1]);
      match es[|es| - 1]
      case Other(op) => before + [op]
      case Check(_, _, _, _) => before
      case Lock(id, c) => before + [Mint(id, c)]
  }

  /** The checks of a claim that let it proceed, and its attempts under the lock. */
  function Passed(es: seq<Move>, id: string, c: string): nat
    decreases |es|
  {
    if es == [] then 0
    else
      var before, e := es[..|es| - 1], es[|es| - 1];
      Passed(before, id, c)
      + (if e.Check? && e.id == id && e.consumer == c && Decide(WorldOf(before).store, id, e.secretHash, c, e.now).Proceed? then 1 else 0)
  }

  function Locked(es: seq<Move>, id: string, c: string): nat
    decreases |es|
  {
    if es == [] then 0 else Locked(es[..|es| - 1], id, c) + (if es[|es| - 1] == Lock(id, c) then 1 else 0)
  }

  lemma {:induction false} StoreOfWorld(es: seq<Move>)
    ensures WorldOf(es).store == Run(Ops(es))
    decreases |es|
  {
    hide Step;
    if es != [] {
      StoreOfWorld(es[..|es| - 1]);
      var before := Ops(es[..|es| - 1]);
      match es[|es| - 1]
      case Other(op) => assert (before + [op])[..|before|] == before;
      case Check(_, _, _, _) =>
      case Lock(id, c) => assert (before + [Mint(id, c)])[..|before|] == before;
    }
  }

  /** The balance that the moves keep by construction: a locked attempt is enabled only by a check in flight, and uses it up. */
  lemma {:induction false} LocksNeedChecks(es: seq<Move>, id: string, c: string)
    requires AllEnabled(es)
    ensures Locked(es, id, c) + WorldOf(es).inFlight[(id, c)] == Passed(es, id, c)
    decreases |es|
  {
    hide Step, Decide;
    if es != [] {
      LocksNeedChecks(es[..|es| - 1], id, c);
    }
  }

  /** Share conservation however the checks and the locked parts of claims interleave with everything else. */
  lemma {:induction false} ConservedUnderInterleaving(es: seq<Move>, id: string)
    requires FreshShares(Ops(es)) && Get(WorldOf(es).store.shares, id).Some?
    ensures var share := Get(WorldOf(es).store.shares, id).value;
      |Holders(WorldOf(es).store, id)| <= share.claimsUsed == Mints(Ops(es), id) <= share.maxClaims
  {
    StoreOfWorld(es);
    ShareConservation(Ops(es), id);
  }

  /** Without interleaving, a claim that passes the checks goes through; the locked part refuses only what has changed since. */
  lemma {:induction false} CheckedClaimSucceeds(s: Store, id: string, secretHash: string, consumer: string, now: int)
    requires Consistent(s) && Decide(s, id, secretHash, consumer, now).Proceed?
    ensures ClaimShare(s, id, consumer).0.Some?
    ensures Decide(ClaimShare(s, id, consumer).1, id, secretHash, consumer, now) == Held(ClaimShare(s, id, consumer).0.value)
  {
    hide Consistent, ClaimShare;
    MintEffect(s, id, consumer);
  }

  /** Two claims of one consumer that both passed the checks before either took the lock: the second is not told
      that the consumer holds the grant already, and uses up another claim if there is one. */
  lemma {:induction false} SecondClaimOfConsumer(s: Store, id: string, c: string)
    requires Consistent(s) && Claimable(s, id)
    ensures var t := ClaimShare(s, id, c).1;
      var share := Get(s.shares, id).value;
      && (ClaimShare(t, id, c).0.Some? <==> share.claimsUsed + 1 < share.maxClaims)
      && (share.claimsUsed + 1 < share.maxClaims
          ==> Get(ClaimShare(t, id, c).1.shares, id).Some? && Get(ClaimShare(t, id, c).1.shares, id).value.claimsUsed == share.claimsUsed + 2
              && Holders(ClaimShare(t, id, c).1, id) == Holders(t, id))
  {
    hide Consistent, ClaimShare;
    var t := ClaimShare(s, id, c).1;
    MintEffect(s, id, c);
    MintIsConsistent(s, id, c);
    ClaimFails(t, id, c);
    if Claimable(t, id) {
      var u := ClaimShare(t, id, c).1;
      MintEffect(t, id, c);
      forall k
        ensures k in Holders(u, id) <==> k in Holders(t, id)
      {
        GetHas(t.grants, k);
        GetHas(u.grants, k);
      }
    }
  }

  lemma {:induction false} ClaimFails(s: Store, id: string, c: string)
    ensures ClaimShare(s, id, c).0.Some? <==> Claimable(s, id)
  {
  }
}
