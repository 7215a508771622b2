/** Access requests, grants and shares. */
module Models {
  import opened Options
  import opened Policy

  datatype Status = Pending | Approved | Rejected

  datatype AccessRequest = AccessRequest(
    id: string, consumer: string, manifest: Manifest, nonce: string,
    status: Status, createdAt: int, decidedAt: Option<int>)

  datatype Grant = Grant(
    id: string, consumer: string, manifest: Manifest, revoked: bool,
    expiresAt: Option<int>, lastUsedAt: Option<int>, restrictions: seq<Restriction>, shareId: Option<string>)

  datatype Share = Share(
    id: string, manifest: Manifest, secretHash: string, maxClaims: int, claimsUsed: int,
    revoked: bool, expiresAt: Option<int>, restrictions: seq<Restriction>)

  datatype Event = Event(name: string, subject: string)

  predicate IsExpired(expiresAt: Option<int>, now: int) {
    expiresAt.Some? && now >= expiresAt.value
  }
}

/** What each operation of the store does, on values. */
module StoreSpec {
  import opened Options
  import opened Dict
  import opened Policy
  import opened Models

  const MAX_PENDING_ACCESS_REQUESTS: nat := 50
  const MAX_AUDIT_EVENTS: nat := 1000

  /** The persisted data, and the index from grant id to consumer that is kept in memory. */
  datatype Store = Store(
    requests: Dict<AccessRequest>, grants: Dict<Grant>, shares: Dict<Share>, audit: seq<Event>, index: map<string, string>)

  const EMPTY := Store([], [], [], [], map[])

  /** The index of the grants with an id; of two with the same id, the later one. */
  function RebuildIndex(grants: Dict<Grant>): map<string, string>
    decreases |grants|
  {
    if grants == [] then map[]
    else
      var before := RebuildIndex(grants[..|grants| - 1]);
      var (consumer, g) := grants[|grants| - 1];
      if g.id == "" then before else before[g.id := consumer]
  }

  function Save(s: Store): Store {
    s.(index := RebuildIndex(s.grants))
  }

  // ----- Access requests -----

  /** The ids of the pending requests, in insertion order. */
  function PendingIds(requests: Dict<AccessRequest>): seq<string>
    decreases |requests|
  {
    if requests == [] then []
    else
      var last := requests[|requests| - 1];
      PendingIds(requests[..|requests| - 1]) + (if last.1.status.Pending? then [last.0] else [])
  }

  function CreatedAt(requests: Dict<AccessRequest>, id: string): int {
    match Get(requests, id) case Some(r) => r.createdAt case None => 0
  }

  /** Puts an id after those that are not younger. */
  function InsertByAge(requests: Dict<AccessRequest>, sorted: seq<string>, id: string): (r: seq<string>)
    ensures |r| == |sorted| + 1
    decreases |sorted|
  {
    if sorted == [] then [id]
    else
      var last := sorted[|sorted| - 1];
      if CreatedAt(requests, last) <= CreatedAt(requests, id) then sorted + [id]
      else InsertByAge(requests, sorted[..|sorted| - 1], id) + [last]
  }

  /** The stable sort by creation time. */
  function SortByAge(requests: Dict<AccessRequest>, ids: seq<string>): (sorted: seq<string>)
    ensures |sorted| == |ids|
    decreases |ids|
  {
    if ids == [] then [] else InsertByAge(requests, SortByAge(requests, ids[..|ids| - 1]), ids[|ids| - 1])
  }

  function PopAll<V>(d: Dict<V>, ids: seq<string>): (r: Dict<V>)
    decreases |ids|
  {
    if ids == [] then d else Pop(PopAll(d, ids[..|ids| - 1]), ids[|ids| - 1])
  }

  /** The pending requests to drop: the oldest, as many as there are above the limit. */
  function Surplus(requests: Dict<AccessRequest>): seq<string> {
    var ids := PendingIds(requests);
    if MAX_PENDING_ACCESS_REQUESTS < |ids| then SortByAge(requests, ids)[..|ids| - MAX_PENDING_ACCESS_REQUESTS] else []
  }

  function UpsertRequest(s: Store, r: AccessRequest): Store {
    var requests := Put(s.requests, r.id, r);
    Save(s.(requests := PopAll(requests, Surplus(requests))))
  }

  /** The first pending request of a consumer. */
  function PendingByConsumer(requests: Dict<AccessRequest>, consumer: string): Option<AccessRequest>
    decreases |requests|
  {
    if requests == [] then None
    else if requests[0].1.consumer == consumer && requests[0].1.status.Pending? then Some(requests[0].1)
    else PendingByConsumer(requests[1..], consumer)
  }

  /** The storage part of an access request: a consumer's pending request keeps its id. */
  function FileRequest(s: Store, consumer: string, manifest: Manifest, nonce: string, freshId: string, now: int): (AccessRequest, Store) {
    var id := match PendingByConsumer(s.requests, consumer) case Some(r) => r.id case None => freshId;
    var r := AccessRequest(id, consumer, manifest, nonce, Pending, now, None);
    (r, UpsertRequest(s, r))
  }

  /** `None` stands for the missing key. */
  function Approve(s: Store, id: string, expiresAt: Option<int>, approved: Option<Manifest>, now: int): (Option<Grant>, Store) {
    match Get(s.requests, id)
    case None => (None, s)
    case Some(r) =>
      var manifest := if approved.None? then r.manifest else Trim(r.manifest, approved.value);
      var grant := Grant(r.id, r.consumer, manifest, false, expiresAt, None, [], None);
      (Some(grant), UpsertGrant(UpsertRequest(s, r.(status := Approved, decidedAt := Some(now))), grant))
  }

  function Reject(s: Store, id: string, now: int): (bool, Store) {
    match Get(s.requests, id)
    case None => (false, s)
    case Some(r) => (true, UpsertRequest(s, r.(status := Rejected, decidedAt := Some(now))))
  }

  // ----- Grants -----

  function UpsertGrant(s: Store, g: Grant): Store {
    Save(s.(grants := Put(s.grants, g.consumer, g)))
  }

  /** Lookup by grant id, through the index; an entry that no longer fits is dropped. */
  function GetGrant(s: Store, id: string): (Option<Grant>, Store) {
    if id !in s.index then (None, s)
    else
      match Get(s.grants, s.index[id])
      case Some(g) => if g.id == id then (Some(g), s) else (None, s.(index := s.index - {id}))
      case None => (None, s.(index := s.index - {id}))
  }

  function CreatePreapproved(s: Store, consumer: string, manifest: Manifest, expiresAt: Option<int>, restrictions: seq<Restriction>): (Grant, Store) {
    var g := Grant(consumer, consumer, manifest, false, expiresAt, None, restrictions, None);
    (g, UpsertGrant(s, g))
  }

  function RevokeGrant(s: Store, id: string): (Option<Grant>, Store) {
    match GetGrant(s, id)
    case (None, t) => (None, t)
    case (Some(g), t) => (Some(g.(revoked := true)), UpsertGrant(t, g.(revoked := true)))
  }

  function DeleteGrant(s: Store, id: string): (Option<Grant>, Store) {
    match GetGrant(s, id)
    case (None, t) => (None, t)
    case (Some(g), t) => (Some(g), Save(t.(grants := Pop(t.grants, g.consumer))))
  }

  function SetRestrictions(s: Store, id: string, restrictions: seq<Restriction>): (Option<Grant>, Store) {
    match GetGrant(s, id)
    case (None, t) => (None, t)
    case (Some(g), t) => (Some(g.(restrictions := restrictions)), UpsertGrant(t, g.(restrictions := restrictions)))
  }

  /** The keys of the expired grants, in order. */
  function ExpiredGrants(grants: Dict<Grant>, now: int): seq<string>
    decreases |grants|
  {
    if grants == [] then []
    else
      ExpiredGrants(grants[..|grants| - 1], now)
      + (if IsExpired(grants[|grants| - 1].1.expiresAt, now) then [grants[|grants| - 1].0] else [])
  }

  /** Their grant ids. */
  function ExpiredIds(grants: Dict<Grant>, now: int): seq<string>
    decreases |grants|
  {
    if grants == [] then []
    else
      ExpiredIds(grants[..|grants| - 1], now)
      + (if IsExpired(grants[|grants| - 1].1.expiresAt, now) then [grants[|grants| - 1].1.id] else [])
  }

  function PurgeGrants(s: Store, now: int): Store {
    var expired := ExpiredGrants(s.grants, now);
    if expired == [] then s else Save(s.(grants := PopAll(s.grants, expired)))
  }

  // ----- Shares -----

  function UpsertShare(s: Store, share: Share): Store {
    Save(s.(shares := Put(s.shares, share.id, share)))
  }

  function RevokeShare(s: Store, id: string): (bool, Store) {
    match Get(s.shares, id)
    case None => (false, s)
    case Some(share) => (true, UpsertShare(s, share.(revoked := true)))
  }

  function DeleteShare(s: Store, id: string): (bool, Store) {
    match Get(s.shares, id)
    case None => (false, s)
    case Some(_) => (true, Save(s.(shares := Pop(s.shares, id))))
  }

  function ExpiredShares(shares: Dict<Share>, now: int): seq<string>
    decreases |shares|
  {
    if shares == [] then []
    else
      ExpiredShares(shares[..|shares| - 1], now)
      + (if IsExpired(shares[|shares| - 1].1.expiresAt, now) then [shares[|shares| - 1].0] else [])
  }

  function PurgeShares(s: Store, now: int): Store {
    var expired := ExpiredShares(s.shares, now);
    if expired == [] then s else Save(s.(shares := PopAll(s.shares, expired)))
  }

  predicate Claimable(s: Store, id: string) {
    match Get(s.shares, id)
    case None => false
    case Some(share) => !share.revoked && share.claimsUsed < share.maxClaims
  }

  /** The part of a claim that runs under the lock: one more claim used, and a grant for the consumer. */
  function ClaimShare(s: Store, id: string, consumer: string): (Option<Grant>, Store) {
    if !Claimable(s, id) then (None, s)
    else
      var share := Get(s.shares, id).value;
      var used := share.(claimsUsed := share.claimsUsed + 1);
      var grant := Grant(consumer, consumer, share.manifest, false, share.expiresAt, None, share.restrictions, Some(share.id));
      (Some(grant), Save(s.(shares := Put(s.shares, share.id, used), grants := Put(s.grants, consumer, grant))))
  }

  // ----- Audit -----

  function AppendAudit(s: Store, e: Event): Store {
    var audit := s.audit + [e];
    Save(s.(audit := if |audit| > MAX_AUDIT_EVENTS then audit[|audit| - MAX_AUDIT_EVENTS..] else audit))
  }
}

/** The store itself. */
module MemoryStore {
  import opened Options
  import opened Dict
  import opened Policy
  import opened Trimming
  import opened Models
  import opened StoreSpec

  class MemoryVarcoStore {
    var requests: Dict<AccessRequest>
    var grants: Dict<Grant>
    var shares: Dict<Share>
    var audit: seq<Event>
    var grantIndex: map<string, string>

    function State(): Store
      reads this
    {
      Store(requests, grants, shares, audit, grantIndex)
    }

    constructor ()
      ensures State() == EMPTY
    {
      requests, grants, shares, audit, grantIndex := [], [], [], [], map[];
    }

    method RebuildGrantIndex()
      modifies this`grantIndex
      ensures grantIndex == RebuildIndex(grants)
    {
      grantIndex := map[];
      for i := 0 to |grants|
        invariant grantIndex == RebuildIndex(grants[..i])
      {
        var (consumer, g) := grants[i];
        assert grants[..i + 1][..i] == grants[..i];
        if g.id != "" {
          grantIndex := grantIndex[g.id := consumer];
        }
      }
      assert grants[..|grants|] == grants;
    }

    method UpsertAccessRequest(r: AccessRequest)
      modifies this
      ensures State() == UpsertRequest(old(State()), r)
    {
      requests := Put(requests, r.id, r);
      var before := requests;
      var pending := Pending();
      if |pending| > MAX_PENDING_ACCESS_REQUESTS {
        pending := SortedByAge(pending);
        var surplus := pending[..|pending| - MAX_PENDING_ACCESS_REQUESTS];
        for i := 0 to |surplus|
          invariant requests == PopAll(before, surplus[..i])
          invariant grants == old(grants) && shares == old(shares) && audit == old(audit)
        {
          assert surplus[..i + 1][..i] == surplus[..i];
          requests := Pop(requests, surplus[i]);
        }
        assert surplus[..|surplus|] == surplus;
      } else {
        assert PopAll(before, []) == before;
      }
      RebuildGrantIndex();
    }

    method Pending() returns (ids: seq<string>)
      ensures ids == PendingIds(requests)
    {
      ids := [];
      for i := 0 to |requests|
        invariant ids == PendingIds(requests[..i])
      {
        assert requests[..i + 1][..i] == requests[..i];
        if requests[i].1.status.Pending? {
          ids := ids + [requests[i].0];
        }
      }
      assert requests[..|requests|] == requests;
    }

    method SortedByAge(ids: seq<string>) returns (sorted: seq<string>)
      ensures sorted == SortByAge(requests, ids)
    {
      sorted := [];
      for i := 0 to |ids|
        invariant sorted == SortByAge(requests, ids[..i])
      {
        assert ids[..i + 1][..i] == ids[..i];
        sorted := InsertByAge(requests, sorted, ids[i]);
      }
      assert ids[..|ids|] == ids;
    }

    method GetPendingRequestByConsumer(consumer: string) returns (r: Option<AccessRequest>)
      ensures r == PendingByConsumer(requests, consumer)
    {
      var i := 0;
      while i < |requests|
        invariant 0 <= i <= |requests|
        invariant PendingByConsumer(requests, consumer) == PendingByConsumer(requests[i..], consumer)
      {
        if requests[i].1.consumer == consumer && requests[i].1.status.Pending? {
          return Some(requests[i].1);
        }
        assert requests[i..][1..] == requests[i + 1..];
        i := i + 1;
      }
      return None;
    }

    method ApproveRequest(id: string, expiresAt: Option<int>, approved: Option<Manifest>, now: int) returns (grant: Option<Grant>)
      modifies this
      ensures (grant, State()) == Approve(old(State()), id, expiresAt, approved, now)
    {
      var found := Get(requests, id);
      if found.None? {
        return None;
      }
      var request := found.value.(status := Approved, decidedAt := Some(now));
      var manifest := request.manifest;
      if approved.Some? {
        manifest := TrimManifest(request.manifest, approved.value);
      }
      var g := Grant(request.id, request.consumer, manifest, false, expiresAt, None, [], None);
      UpsertAccessRequest(request);
      UpsertGrant(g);
      grant := Some(g);
    }

    method RejectRequest(id: string, now: int) returns (ok: bool)
      modifies this
      ensures (ok, State()) == Reject(old(State()), id, now)
    {
      var found := Get(requests, id);
      ok := found.Some?;
      if ok {
        UpsertAccessRequest(found.value.(status := Rejected, decidedAt := Some(now)));
      }
    }

    method UpsertGrant(g: Grant)
      modifies this
      ensures State() == StoreSpec.UpsertGrant(old(State()), g)
    {
      var previous := Get(grants, g.consumer);
      if previous.Some? && previous.value.id != g.id {
        grantIndex := grantIndex - {previous.value.id};
      }
      grants := Put(grants, g.consumer, g);
      grantIndex := grantIndex[g.id := g.consumer];
      RebuildGrantIndex();
    }

    method GetGrant(id: string) returns (grant: Option<Grant>)
      modifies this`grantIndex
      ensures (grant, State()) == StoreSpec.GetGrant(old(State()), id)
    {
      if id !in grantIndex {
        return None;
      }
      grant := Get(grants, grantIndex[id]);
      if grant.None? || grant.value.id != id {
        grantIndex := grantIndex - {id};
        grant := None;
      }
    }

    method CreatePreapprovedGrant(consumer: string, manifest: Manifest, expiresAt: Option<int>, restrictions: seq<Restriction>) returns (g: Grant)
      modifies this
      ensures (g, State()) == CreatePreapproved(old(State()), consumer, manifest, expiresAt, restrictions)
    {
      g := Grant(consumer, consumer, manifest, false, expiresAt, None, restrictions, None);
      UpsertGrant(g);
    }

    method RevokeGrant(id: string) returns (grant: Option<Grant>)
      modifies this
      ensures (grant, State()) == StoreSpec.RevokeGrant(old(State()), id)
    {
      grant := GetGrant(id);
      if grant.Some? {
        grant := Some(grant.value.(revoked := true));
        UpsertGrant(grant.value);
      }
    }

    method DeleteGrant(id: string) returns (grant: Option<Grant>)
      modifies this
      ensures (grant, State()) == StoreSpec.DeleteGrant(old(State()), id)
    {
      grant := GetGrant(id);
      if grant.Some? {
        grants := Pop(grants, grant.value.consumer);
        grantIndex := grantIndex - {id};
        RebuildGrantIndex();
      }
    }

    method PurgeExpiredGrants(now: int) returns (deleted: seq<string>)
      modifies this
      ensures State() == PurgeGrants(old(State()), now)
      ensures deleted == ExpiredIds(old(grants), now)
    {
      var items := grants;
      var expired: seq<string> := [];
      deleted := [];
      for i := 0 to |items|
        invariant expired == ExpiredGrants(items[..i], now) && deleted == ExpiredIds(items[..i], now) && |deleted| == |expired|
        invariant grants == PopAll(items, expired)
        invariant requests == old(requests) && shares == old(shares) && audit == old(audit)
        invariant expired == [] ==> grantIndex == old(grantIndex)
      {
        assert items[..i + 1][..i] == items[..i];
        var (consumer, g) := items[i];
        if IsExpired(g.expiresAt, now) {
          deleted := deleted + [g.id];
          assert (expired + [consumer])[..|expired|] == expired;
          grants := Pop(grants, consumer);
          grantIndex := grantIndex - {g.id};
          expired := expired + [consumer];
        } else {
          assert expired + [] == expired && deleted + [] == deleted;
        }
      }
      assert items[..|items|] == items;
      if deleted != [] {
        RebuildGrantIndex();
      }
    }

    method UpsertShare(share: Share)
      modifies this
      ensures State() == StoreSpec.UpsertShare(old(State()), share)
    {
      shares := Put(shares, share.id, share);
      RebuildGrantIndex();
    }

    method RevokeShare(id: string) returns (ok: bool)
      modifies this
      ensures (ok, State()) == StoreSpec.RevokeShare(old(State()), id)
    {
      var found := Get(shares, id);
      ok := found.Some?;
      if ok {
        UpsertShare(found.value.(revoked := true));
      }
    }

    method DeleteShare(id: string) returns (ok: bool)
      modifies this
      ensures (ok, State()) == StoreSpec.DeleteShare(old(State()), id)
    {
      var found := Get(shares, id);
      ok := found.Some?;
      if ok {
        shares := Pop(shares, id);
        RebuildGrantIndex();
      }
    }

    method PurgeExpiredShares(now: int) returns (deleted: seq<string>)
      modifies this
      ensures State() == PurgeShares(old(State()), now)
      ensures deleted == ExpiredShares(old(shares), now)
    {
      var items := shares;
      deleted := [];
      for i := 0 to |items|
        invariant deleted == ExpiredShares(items[..i], now)
        invariant shares == PopAll(items, deleted)
        invariant requests == old(requests) && grants == old(grants) && audit == old(audit) && grantIndex == old(grantIndex)
      {
        assert items[..i + 1][..i] == items[..i];
        var (id, share) := items[i];
        if IsExpired(share.expiresAt, now) {
          assert (deleted + [id])[..|deleted|] == deleted;
          deleted := deleted + [id];
          shares := Pop(shares, id);
        } else {
          assert deleted + [] == deleted;
        }
      }
      assert items[..|items|] == items;
      if deleted != [] {
        RebuildGrantIndex();
      }
    }

    /** The part of a claim under the lock; no value stands for "share_claims_exhausted". */
    method ClaimShare(id: string, consumer: string) returns (grant: Option<Grant>)
      modifies this
      ensures (grant, State()) == StoreSpec.ClaimShare(old(State()), id, consumer)
    {
      var current := Get(shares, id);
      if current.None? || current.value.revoked || current.value.claimsUsed >= current.value.maxClaims {
        return None;
      }
      var share := current.value.(claimsUsed := current.value.claimsUsed + 1);
      var g := Grant(consumer, consumer, share.manifest, false, share.expiresAt, None, share.restrictions, Some(share.id));
      shares := Put(shares, share.id, share);
      grants := Put(grants, consumer, g);
      grantIndex := grantIndex[g.id := consumer];
      RebuildGrantIndex();
      grant := Some(g);
    }

    method AppendAudit(e: Event)
      modifies this
      ensures State() == StoreSpec.AppendAudit(old(State()), e)
    {
      audit := audit + [e];
      if |audit| > MAX_AUDIT_EVENTS {
        audit := audit[|audit| - MAX_AUDIT_EVENTS..];
      }
      RebuildGrantIndex();
    }
  }
}
