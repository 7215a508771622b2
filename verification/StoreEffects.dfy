/** What each operation of the store leaves stored, read back by id or consumer. */
module StoreEffects {
  import opened Lists
  import opened Options
  import opened Dict
  import opened Policy
  import opened PolicyMeaning
  import Trimming
  import opened Models
  import opened StoreSpec
  import opened StoreRuns
  import opened StoreInvariants

  // ----- Requests -----

  /** The requests with one put in. */
  function With(s: Store, r: AccessRequest, k: string): Option<AccessRequest> {
    if k == r.id then Some(r) else Get(s.requests, k)
  }

  predicate PendingWith(s: Store, r: AccessRequest, k: string) {
    var x := With(s, r, k); x.Some? && x.value.status.Pending?
  }

  function AllPendingWith(s: Store, r: AccessRequest): set<string> {
    set k | k in Keys(s.requests) + {r.id} && PendingWith(s, r, k)
  }

  /** A request is put in, and of the pending ones those above fifty go, none of them younger than one that stays. */
  lemma {:induction false} UpsertExactly(s: Store, r: AccessRequest) returns (gone: set<string>)
    requires Consistent(s)
    ensures var t, pending := UpsertRequest(s, r), AllPendingWith(s, r);
      && t.grants == s.grants && t.shares == s.shares && t.audit == s.audit
      && (forall k :: Get(t.requests, k) == if k in gone then None else With(s, r, k))
      && gone <= pending && |gone| == (if |pending| <= 50 then 0 else |pending| - 50)
      && (forall k, l :: k in gone && l in pending - gone ==> With(s, r, k).value.createdAt <= With(s, r, l).value.createdAt)
  {
    hide PendingIds, RebuildIndex, SortByAge, PopAll;
    var put := Put(s.requests, r.id, r);
    var ids, pending := PendingIds(put), AllPendingWith(s, r);
    gone := Elements(Surplus(put));
    PutKeys(s.requests, r.id, r);
    PendingAre(s, r);
    PendingIdsAre(put);
    SortIsStable(put, ids);
    NoRepeatsSize(ids);
    NoRepeatsSize(Surplus(put));
    forall k
      ensures Get(UpsertRequest(s, r).requests, k) == (if k in gone then None else With(s, r, k)) && (k in gone ==> k in pending)
    {
      EvictionKeeps(put, k);
      PutGet(s.requests, r.id, r, k);
      assert IsPending(put, k) <==> k in pending;
    }
    forall k, l | k in gone && l in pending - gone
      ensures With(s, r, k).value.createdAt <= With(s, r, l).value.createdAt
    {
      PutGet(s.requests, r.id, r, k);
      PutGet(s.requests, r.id, r, l);
      SurplusIsOlder(put, k, l);
    }
  }

  lemma {:induction false} PendingAre(s: Store, r: AccessRequest)
    ensures Unique(s.requests) ==> Elements(PendingIds(Put(s.requests, r.id, r))) == AllPendingWith(s, r)
    ensures forall k :: IsPending(Put(s.requests, r.id, r), k) <==> k in AllPendingWith(s, r)
  {
    hide PendingIds;
    var put := Put(s.requests, r.id, r);
    forall k
      ensures IsPending(put, k) <==> k in AllPendingWith(s, r)
    {
      PutGet(s.requests, r.id, r, k);
      GetHas(s.requests, k);
    }
    if Unique(s.requests) {
      PutKeys(s.requests, r.id, r);
      PendingIdsAre(put);
    }
  }

  lemma {:induction false} SurplusIsOlder(requests: Dict<AccessRequest>, gone: string, kept: string)
    requires Unique(requests) && gone in Elements(Surplus(requests)) && IsPending(requests, kept) && kept !in Elements(Surplus(requests))
    ensures IsPending(requests, gone) && Get(requests, gone).value.createdAt <= Get(requests, kept).value.createdAt
  {
    hide PendingIds, SortByAge, InsertByAge, Precedes;
    var ids := PendingIds(requests);
    var sorted := SortByAge(requests, ids);
    var cut := |ids| - MAX_PENDING_ACCESS_REQUESTS;
    PendingIdsAre(requests);
    SortIsStable(requests, ids);
    EvictionKeeps(requests, gone);
    assert forall k :: 0 <= k < cut ==> Surplus(requests)[k] == sorted[k];
    assert forall k :: 0 <= k < cut ==> sorted[k] in Elements(Surplus(requests));
    var i :| 0 <= i < cut && sorted[i] == gone;
    assert kept in Elements(sorted);
    var j :| 0 <= j < |sorted| && sorted[j] == kept;
    assert Older(requests, ids, sorted[i], sorted[j]);
  }

  /** Putting in a decided request drops none. */
  lemma {:induction false} DecidingDropsNone(s: Store, r: AccessRequest)
    requires Consistent(s) && PendingBounded(s) && !r.status.Pending?
    ensures forall k :: Get(UpsertRequest(s, r).requests, k) == With(s, r, k)
  {
    hide UpsertRequest, PendingIds, Consistent;
    var gone := UpsertExactly(s, r);
    PendingIdsAre(s.requests) by { ConsistentIsUnique(s); }
    NoRepeatsSize(PendingIds(s.requests));
    forall k | k in AllPendingWith(s, r)
      ensures k in Elements(PendingIds(s.requests))
    {
    }
    SubsetSize(AllPendingWith(s, r), Elements(PendingIds(s.requests)));
  }

  lemma {:induction false} ConsistentIsUnique(s: Store)
    requires Consistent(s)
    ensures Unique(s.requests)
  {
  }

  /** A consumer's request replaces its pending one under the same id, or gets the new id; it is pending from now on. */
  lemma {:induction false} FileExactly(s: Store, consumer: string, manifest: Manifest, nonce: string, freshId: string, now: int)
    ensures var (r, t) := FileRequest(s, consumer, manifest, nonce, freshId, now);
      r == AccessRequest(r.id, consumer, manifest, nonce, Pending, now, None) && t == UpsertRequest(s, r)
    ensures Consistent(s) && PendingBounded(s) ==>
      var id := FileRequest(s, consumer, manifest, nonce, freshId, now).0.id;
      if exists k :: IsPending(s.requests, k) && Get(s.requests, k).value.consumer == consumer
      then IsPending(s.requests, id) && Get(s.requests, id).value.consumer == consumer
      else id == freshId
  {
    hide UpsertRequest, PendingByConsumer, RebuildIndex, PendingIds;
    if Consistent(s) && PendingBounded(s) {
      PendingByConsumerFinds(s.requests, consumer);
    }
  }

  // ----- Approval -----

  /** The values of a scope in either spelling. */
  function Named(m: Manifest, key: string, alias: string): set<string> {
    ListedUnder(m, key) + ListedUnder(m, alias)
  }

  /** The scopes with their spellings. */
  const SPELLINGS := {("read_entities", "readEntities"), ("subscriptions", "subscriptions"), ("history", "history"),
    ("camera_snapshots", "cameraSnapshots"), ("actions", "actions")}

  predicate IsScopeKey(k: string) {
    k in {"read_entities", "readEntities", "subscriptions", "history", "camera_snapshots", "cameraSnapshots", "actions"}
  }

  /** The list under a key, or none. */
  function ItemsUnder(m: Manifest, key: string): seq<string> {
    if key in m && m[key].Listed? then m[key].items else []
  }

  /** `x` occurs before `y` does first. */
  predicate FirstBefore(list: seq<string>, x: string, y: string) {
    exists p :: 0 <= p < |list| && list[p] == x && y !in list[..p + 1]
  }

  /** The kept values stand in the order of their first occurrences. */
  predicate InOrderOf(kept: seq<string>, list: seq<string>) {
    forall i, j :: 0 <= i < j < |kept| ==> FirstBefore(list, kept[i], kept[j])
  }

  /** Each scope holds what stands in both, once and in the order requested, under its canonical key alone; the rest is as
      requested. */
  ghost predicate IsIntersection(requested: Manifest, approved: Manifest, m: Manifest) {
    && (forall p :: p in SPELLINGS ==>
          && p.0 in m && m[p.0].Listed? && NoRepeats(m[p.0].items)
          && InOrderOf(m[p.0].items, ItemsUnder(requested, p.0) + ItemsUnder(requested, p.1))
          && ListedUnder(m, p.0) == Named(requested, p.0, p.1) * Named(approved, p.0, p.1))
    && "readEntities" !in m && "cameraSnapshots" !in m
    && (forall k :: !IsScopeKey(k) ==> (k in m <==> k in requested) && (k in m ==> m[k] == requested[k]))
  }

  lemma {:induction false} TrimIs(requested: Manifest, approved: Manifest)
    ensures IsIntersection(requested, approved, Trim(requested, approved))
  {
    hide Trim, NoRepeats, KeyOf, AliasOf, Named, ListedUnder, ItemsUnder, InOrderOf;
    var m := Trim(requested, approved);
    forall p | p in SPELLINGS
      ensures p.0 in m && m[p.0].Listed? && NoRepeats(m[p.0].items)
      ensures InOrderOf(m[p.0].items, ItemsUnder(requested, p.0) + ItemsUnder(requested, p.1))
      ensures ListedUnder(m, p.0) == Named(requested, p.0, p.1) * Named(approved, p.0, p.1)
    {
      var s := SpellingOf(p);
      TrimmedScope(requested, approved, s);
    }
    Trimming.TrimIsCanonical(requested, approved);
    TrimKeepsOthers(requested, approved);
  }

  lemma {:induction false} SpellingOf(p: (string, string)) returns (s: Scope)
    requires p in SPELLINGS
    ensures p == (KeyOf(s), AliasOf(s))
  {
    s := if p.0 == "read_entities" then Reads else if p.0 == "subscriptions" then Subscriptions
      else if p.0 == "history" then History else if p.0 == "camera_snapshots" then Cameras else Actions;
  }

  lemma {:induction false} TrimmedScope(requested: Manifest, approved: Manifest, s: Scope)
    ensures var m := Trim(requested, approved);
      && KeyOf(s) in m && m[KeyOf(s)].Listed? && NoRepeats(m[KeyOf(s)].items)
      && InOrderOf(m[KeyOf(s)].items, ItemsUnder(requested, KeyOf(s)) + ItemsUnder(requested, AliasOf(s)))
      && ListedUnder(m, KeyOf(s)) == Named(requested, KeyOf(s), AliasOf(s)) * Named(approved, KeyOf(s), AliasOf(s))
  {
    hide KeyOf, AliasOf, Keep, Dedup, TrimScopes, NoRepeats, InOrderOf;
    var own, other := ItemsUnder(requested, KeyOf(s)), ItemsUnder(requested, AliasOf(s));
    var list := own + (if AliasOf(s) == KeyOf(s) then [] else other);
    var wanted := EitherSpelling(approved, s);
    Trimming.AllScopes(s);
    Trimming.TrimmedList(requested, approved, SCOPES, s);
    Trimming.TrimIsIntersection(requested, approved, s);
    Trimming.DedupHasNoRepeats(list);
    Trimming.KeepKeepsOrder(Dedup(list), wanted);
    DedupInOrder(list);
    KeepInOrder(Dedup(list), wanted, list);
    if AliasOf(s) == KeyOf(s) {
      assert own + [] == own;
      MoreAtTheEnd(Keep(Dedup(list), wanted), own, other);
    }
  }

  lemma {:induction false} MoreAtTheEnd(kept: seq<string>, list: seq<string>, more: seq<string>)
    requires InOrderOf(kept, list)
    ensures InOrderOf(kept, list + more)
  {
    forall i, j | 0 <= i < j < |kept|
      ensures FirstBefore(list + more, kept[i], kept[j])
    {
      assert FirstBefore(list, kept[i], kept[j]);
      var p :| 0 <= p < |list| && list[p] == kept[i] && kept[j] !in list[..p + 1];
      assert (list + more)[p] == kept[i] && (list + more)[..p + 1] == list[..p + 1];
    }
  }

  lemma {:induction false} DedupInOrder(items: seq<string>)
    ensures InOrderOf(Dedup(items), items)
    decreases |items|
  {
    if items != [] {
      var init, last := items[..|items| - 1], items[|items| - 1];
      var r := Dedup(init);
      DedupInOrder(init);
      MoreAtTheEnd(r, init, [last]);
      assert items == init + [last];
      Trimming.DedupSame(init);
      if last !in r {
        assert last !in Elements(init);
        forall i | 0 <= i < |r|
          ensures FirstBefore(items, r[i], last)
        {
          assert r[i] in Elements(init);
          var p :| 0 <= p < |init| && init[p] == r[i];
          assert items[p] == r[i] && items[..p + 1] == init[..p + 1];
        }
      }
    }
  }

  lemma {:induction false} KeepInOrder(items: seq<string>, wanted: set<string>, list: seq<string>)
    requires InOrderOf(items, list)
    ensures InOrderOf(Keep(items, wanted), list)
    decreases |items|
  {
    hide FirstBefore;
    if items != [] {
      var init, last := items[..|items| - 1], items[|items| - 1];
      KeepInOrder(init, wanted, list);
      var r := Keep(init, wanted);
      forall i | 0 <= i < |r|
        ensures FirstBefore(list, r[i], last)
      {
        Trimming.KeepFilters(init, wanted);
        assert r[i] in Elements(r);
        var p :| 0 <= p < |init| && init[p] == r[i];
        assert items[p] == r[i];
      }
    }
  }

  lemma {:induction false} TrimKeepsOthers(requested: Manifest, approved: Manifest)
    ensures forall k :: !IsScopeKey(k) ==>
      (k in Trim(requested, approved) <==> k in requested) && (k in requested ==> Trim(requested, approved)[k] == requested[k])
  {
    hide TrimScopes;
    forall k | !IsScopeKey(k)
      ensures (k in Trim(requested, approved) <==> k in requested) && (k in requested ==> Trim(requested, approved)[k] == requested[k])
    {
      OtherKeyStays(requested, approved, SCOPES, k);
    }
  }

  lemma {:induction false} OtherKeyStays(requested: Manifest, approved: Manifest, scopes: seq<Scope>, k: string)
    requires !IsScopeKey(k)
    ensures var m := TrimScopes(requested, requested, approved, scopes); (k in m <==> k in requested) && (k in m ==> m[k] == requested[k])
    decreases |scopes|
  {
    hide Keep, Requested, EitherSpelling;
    if scopes != [] {
      OtherKeyStays(requested, approved, scopes[..|scopes| - 1], k);
    }
  }

  /** An approval stores a grant for the request's consumer, on what was both requested and approved, and decides the request. */
  lemma {:induction false} ApproveExactly(s: Store, id: string, expiresAt: Option<int>, approved: Option<Manifest>, now: int)
    requires Consistent(s)
    ensures var (g, t) := Approve(s, id, expiresAt, approved, now);
      match Get(s.requests, id)
      case None => g == None && t == s
      case Some(r) =>
        && g.Some? && g.value == Grant(id, r.consumer, g.value.manifest, false, expiresAt, None, [], None)
        && (approved.None? ==> g.value.manifest == r.manifest)
        && (approved.Some? ==> IsIntersection(r.manifest, approved.value, g.value.manifest))
        && (forall k :: Get(t.grants, k) == if k == r.consumer then g else Get(s.grants, k))
        && t.shares == s.shares && t.audit == s.audit
        && Get(t.requests, id) == Some(r.(status := Approved, decidedAt := Some(now)))
        && (PendingBounded(s) ==> forall k :: k != id ==> Get(t.requests, k) == Get(s.requests, k))
  {
    hide UpsertRequest, UpsertGrant, Consistent, Trim, IsIntersection, PendingBounded;
    var found := Get(s.requests, id);
    if found.Some? {
      var r := found.value.(status := Approved, decidedAt := Some(now));
      KeptUnderId(s, id);
      DecidingKeeps(s, r);
      var g := Approve(s, id, expiresAt, approved, now).0.value;
      UpsertGrantExactly(UpsertRequest(s, r), g);
      if approved.Some? {
        TrimIs(found.value.manifest, approved.value);
      }
    }
  }

  lemma {:induction false} KeptUnderId(s: Store, id: string)
    requires Consistent(s) && Get(s.requests, id).Some?
    ensures Get(s.requests, id).value.id == id
  {
  }

  lemma {:induction false} DecidingKeeps(s: Store, r: AccessRequest)
    requires Consistent(s) && !r.status.Pending?
    ensures var t := UpsertRequest(s, r);
      && Consistent(t) && t.grants == s.grants && t.shares == s.shares && t.audit == s.audit
      && Get(t.requests, r.id) == Some(r)
      && (PendingBounded(s) ==> forall k :: k != r.id ==> Get(t.requests, k) == Get(s.requests, k))
  {
    hide UpsertRequest, Consistent, PendingBounded, AllPendingWith;
    UpsertRequestEffect(s, r);
    var gone := UpsertExactly(s, r);
    assert r.id !in gone by { NotPending(s, r); }
    if PendingBounded(s) {
      DecidingDropsNone(s, r);
    }
  }

  lemma {:induction false} NotPending(s: Store, r: AccessRequest)
    requires !r.status.Pending?
    ensures r.id !in AllPendingWith(s, r)
  {
  }

  lemma {:induction false} UpsertGrantExactly(s: Store, g: Grant)
    requires Consistent(s)
    ensures var t := UpsertGrant(s, g);
      && t.requests == s.requests && t.shares == s.shares && t.audit == s.audit
      && (forall k :: Get(t.grants, k) == if k == g.consumer then Some(g) else Get(s.grants, k))
  {
    hide RebuildIndex;
    UpsertGrantEffect(s, g);
  }

  /** What an approved grant allows was requested, and the approval covers it. */
  lemma {:induction false} GrantedWasRequested(requested: Manifest, approved: Manifest, m: Manifest)
    requires Trimming.Canonical(requested) && IsIntersection(requested, approved, m)
    ensures forall p, e :: p in SPELLINGS && GrantsEntity(ListedUnder(m, p.0), e) ==>
      GrantsEntity(ListedUnder(requested, p.0), e) && GrantsEntity(Named(approved, p.0, p.1), e)
    ensures forall e :: GrantsEntity(ListedUnder(m, "subscriptions") + ListedUnder(m, "read_entities"), e) ==>
      GrantsEntity(ListedUnder(requested, "subscriptions") + ListedUnder(requested, "read_entities"), e)
    ensures forall domain, service, e :: GrantsCall(ListedUnder(m, "actions"), domain, service, e) ==>
      GrantsCall(ListedUnder(requested, "actions"), domain, service, e) && GrantsCall(ListedUnder(approved, "actions"), domain, service, e)
  {
    hide GrantsEntity, GrantsCall, ListedUnder, Named, IsIntersection;
    ScopesNarrow(requested, approved, m);
    forall p, e | p in SPELLINGS && GrantsEntity(ListedUnder(m, p.0), e)
      ensures GrantsEntity(ListedUnder(requested, p.0), e) && GrantsEntity(Named(approved, p.0, p.1), e)
    {
      WiderGrants(ListedUnder(m, p.0), ListedUnder(requested, p.0), e);
      WiderGrants(ListedUnder(m, p.0), Named(approved, p.0, p.1), e);
    }
    var subs, readable := ListedUnder(requested, "subscriptions"), ListedUnder(requested, "read_entities");
    forall e | GrantsEntity(ListedUnder(m, "subscriptions") + ListedUnder(m, "read_entities"), e)
      ensures GrantsEntity(subs + readable, e)
    {
      assert ("subscriptions", "subscriptions") in SPELLINGS && ("read_entities", "readEntities") in SPELLINGS;
      WiderGrants(ListedUnder(m, "subscriptions") + ListedUnder(m, "read_entities"), subs + readable, e);
    }
    forall domain, service, e | GrantsCall(ListedUnder(m, "actions"), domain, service, e)
      ensures GrantsCall(ListedUnder(requested, "actions"), domain, service, e) && GrantsCall(ListedUnder(approved, "actions"), domain, service, e)
    {
      assert ("actions", "actions") in SPELLINGS;
      NamedOnce(approved, "actions");
      WiderGrantsCalls(ListedUnder(m, "actions"), ListedUnder(requested, "actions"), domain, service, e);
      WiderGrantsCalls(ListedUnder(m, "actions"), ListedUnder(approved, "actions"), domain, service, e);
    }
  }

  lemma {:induction false} NamedOnce(m: Manifest, key: string)
    ensures Named(m, key, key) == ListedUnder(m, key)
  {
  }

  lemma {:induction false} ScopesNarrow(requested: Manifest, approved: Manifest, m: Manifest)
    requires Trimming.Canonical(requested) && IsIntersection(requested, approved, m)
    ensures forall p :: p in SPELLINGS ==>
      ListedUnder(m, p.0) <= ListedUnder(requested, p.0) && ListedUnder(m, p.0) <= Named(approved, p.0, p.1)
  {
    hide NoRepeats, InOrderOf;
    forall p | p in SPELLINGS
      ensures ListedUnder(m, p.0) <= ListedUnder(requested, p.0) && ListedUnder(m, p.0) <= Named(approved, p.0, p.1)
    {
      Unspelled(requested, p);
      assert ListedUnder(m, p.0) == Named(requested, p.0, p.1) * Named(approved, p.0, p.1);
    }
  }

  lemma {:induction false} Unspelled(m: Manifest, p: (string, string))
    requires Trimming.Canonical(m) && p in SPELLINGS
    ensures Named(m, p.0, p.1) == ListedUnder(m, p.0)
  {
    assert p.1 == p.0 || p.1 == "readEntities" || p.1 == "cameraSnapshots";
  }

  lemma {:induction false} WiderGrants(a: set<string>, b: set<string>, e: string)
    requires a <= b && GrantsEntity(a, e)
    ensures GrantsEntity(b, e)
  {
  }

  lemma {:induction false} WiderGrantsCalls(a: set<string>, b: set<string>, domain: string, service: string, e: string)
    requires a <= b && GrantsCall(a, domain, service, e)
    ensures GrantsCall(b, domain, service, e)
  {
  }

  lemma {:induction false} RejectExactly(s: Store, id: string, now: int)
    requires Consistent(s)
    ensures var (ok, t) := Reject(s, id, now);
      match Get(s.requests, id)
      case None => !ok && t == s
      case Some(r) =>
        && ok && t.grants == s.grants && t.shares == s.shares && t.audit == s.audit
        && Get(t.requests, id) == Some(r.(status := Rejected, decidedAt := Some(now)))
        && (PendingBounded(s) ==> forall k :: k != id ==> Get(t.requests, k) == Get(s.requests, k))
  {
    hide UpsertRequest, Consistent, PendingBounded;
    if Get(s.requests, id).Some? {
      KeptUnderId(s, id);
      DecidingKeeps(s, Get(s.requests, id).value.(status := Rejected, decidedAt := Some(now)));
    }
  }

  // ----- Grants -----

  lemma {:induction false} PreapproveExactly(s: Store, consumer: string, manifest: Manifest, expiresAt: Option<int>, rs: seq<Restriction>)
    requires Consistent(s)
    ensures var (g, t) := CreatePreapproved(s, consumer, manifest, expiresAt, rs);
      && g == Grant(consumer, consumer, manifest, false, expiresAt, None, rs, None)
      && (forall k :: Get(t.grants, k) == if k == consumer then Some(g) else Get(s.grants, k))
      && t.requests == s.requests && t.shares == s.shares && t.audit == s.audit
  {
    hide UpsertGrant, Consistent;
    UpsertGrantExactly(s, CreatePreapproved(s, consumer, manifest, expiresAt, rs).0);
  }

  /** A grant with the id is stored for the consumer. */
  predicate IsStored(s: Store, id: string, g: Option<Grant>) {
    g.Some? && g.value.id == id && Get(s.grants, g.value.consumer) == g
  }

  /** Lookup by id finds a stored grant with it, and fails only if there is none. */
  lemma {:induction false} FoundExactly(s: Store, id: string)
    requires Consistent(s)
    ensures var (g, t) := GetGrant(s, id);
      t == s && (g.Some? <==> id != "" && exists k :: Get(s.grants, k).Some? && Get(s.grants, k).value.id == id) && (g.Some? ==> IsStored(s, id, g))
  {
    hide GetGrant, RebuildIndex, SearchById;
    FoundGrant(s, id);
    LookupIsSearch(s, id);
    SearchFinds(s.grants, id);
    if i :| 0 <= i < |s.grants| && s.grants[i].1.id == id {
      GetIn(s.grants, i);
    }
    if k :| Get(s.grants, k).Some? && Get(s.grants, k).value.id == id {
      GetHas(s.grants, k);
      var i :| 0 <= i < |s.grants| && s.grants[i] == (k, Get(s.grants, k).value);
    }
  }

  /** Nothing but the one grant changes. */
  ghost predicate OnlyGrant(s: Store, t: Store, consumer: string, g: Option<Grant>) {
    && (forall k :: Get(t.grants, k) == if k == consumer then g else Get(s.grants, k))
    && t.requests == s.requests && t.shares == s.shares && t.audit == s.audit
  }

  /** Revoking, restricting and deleting find their grant as lookup does; the grant is then revoked, restricted or gone. */
  lemma {:induction false} ByIdExactly(s: Store, id: string, rs: seq<Restriction>)
    requires Consistent(s)
    ensures var found := GetGrant(s, id).0;
      match found
      case None => RevokeGrant(s, id) == (None, s) && SetRestrictions(s, id, rs) == (None, s) && DeleteGrant(s, id) == (None, s)
      case Some(g) =>
        && IsStored(s, id, found)
        && RevokeGrant(s, id).0 == Some(g.(revoked := true))
        && OnlyGrant(s, RevokeGrant(s, id).1, g.consumer, Some(g.(revoked := true)))
        && SetRestrictions(s, id, rs).0 == Some(g.(restrictions := rs))
        && OnlyGrant(s, SetRestrictions(s, id, rs).1, g.consumer, Some(g.(restrictions := rs)))
        && DeleteGrant(s, id).0 == found && OnlyGrant(s, DeleteGrant(s, id).1, g.consumer, None)
  {
    hide GetGrant, UpsertGrant, RebuildIndex;
    FoundGrant(s, id);
    if GetGrant(s, id).0.Some? {
      var g := GetGrant(s, id).0.value;
      UpsertGrantExactly(s, g.(revoked := true));
      UpsertGrantExactly(s, g.(restrictions := rs));
      PopEffect(s.grants, g.consumer);
    }
  }

  lemma {:induction false} TouchExactly(s: Store, consumer: string, now: int)
    requires Consistent(s)
    ensures var g := Get(s.grants, consumer);
      OnlyGrant(s, TouchGrant(s, consumer, now), consumer, if g.Some? then Some(g.value.(lastUsedAt := Some(now))) else None)
  {
    hide UpsertGrant;
    if Get(s.grants, consumer).Some? {
      UpsertGrantExactly(s, Get(s.grants, consumer).value.(lastUsedAt := Some(now)));
    }
  }

  predicate IsPast(expiresAt: Option<int>, now: int) {
    expiresAt.Some? && expiresAt.value <= now
  }

  lemma {:induction false} ExpiredAre(grants: Dict<Grant>, now: int, k: string)
    requires Unique(grants)
    ensures k in ExpiredGrants(grants, now) <==> Get(grants, k).Some? && IsPast(Get(grants, k).value.expiresAt, now)
    decreases |grants|
  {
    if grants != [] {
      GetLast(grants, k);
      GetHas(grants[..|grants| - 1], k);
      ExpiredAre(grants[..|grants| - 1], now, k);
    }
  }

  lemma {:induction false} ExpiredSharesAre(shares: Dict<Share>, now: int, k: string)
    requires Unique(shares)
    ensures k in ExpiredShares(shares, now) <==> Get(shares, k).Some? && IsPast(Get(shares, k).value.expiresAt, now)
    decreases |shares|
  {
    if shares != [] {
      GetLast(shares, k);
      GetHas(shares[..|shares| - 1], k);
      ExpiredSharesAre(shares[..|shares| - 1], now, k);
    }
  }

  /** Purging drops exactly what has expired. */
  lemma {:induction false} PurgeExactly(s: Store, now: int)
    requires Consistent(s)
    ensures var t := PurgeGrants(s, now);
      && (forall k :: Get(t.grants, k) == (var g := Get(s.grants, k); if g.Some? && IsPast(g.value.expiresAt, now) then None else g))
      && t.requests == s.requests && t.shares == s.shares && t.audit == s.audit
    ensures var t := PurgeShares(s, now);
      && (forall k :: Get(t.shares, k) == (var g := Get(s.shares, k); if g.Some? && IsPast(g.value.expiresAt, now) then None else g))
      && t.requests == s.requests && t.grants == s.grants && t.audit == s.audit
  {
    hide RebuildIndex, ExpiredGrants, ExpiredShares, PopAll, IsPast;
    var grants, shares := ExpiredGrants(s.grants, now), ExpiredShares(s.shares, now);
    forall k
      ensures Get(PopAll(s.grants, grants), k) == (var g := Get(s.grants, k); if g.Some? && IsPast(g.value.expiresAt, now) then None else g)
      ensures Get(PopAll(s.shares, shares), k) == (var g := Get(s.shares, k); if g.Some? && IsPast(g.value.expiresAt, now) then None else g)
    {
      ExpiredAre(s.grants, now, k);
      ExpiredSharesAre(s.shares, now, k);
      PopAllGet(s.grants, grants, k);
      PopAllGet(s.shares, shares, k);
    }
    NothingPopped(s);
  }

  lemma {:induction false} NothingPopped(s: Store)
    ensures PopAll(s.grants, []) == s.grants && PopAll(s.shares, []) == s.shares
  {
  }

  predicate IsPastGrant(grants: Dict<Grant>, now: int, id: string, k: string) {
    Get(grants, k).Some? && IsPast(Get(grants, k).value.expiresAt, now) && Get(grants, k).value.id == id
  }

  /** The ids that purging reports are those of the grants it drops. */
  lemma {:induction false} PurgeReports(grants: Dict<Grant>, now: int, id: string)
    requires Unique(grants)
    ensures id in ExpiredIds(grants, now) <==> exists k :: IsPastGrant(grants, now, id, k)
    decreases |grants|
  {
    hide IsPast, IsExpired;
    if grants == [] {
      assert forall k :: Get(grants, k).None?;
    } else {
      var init, last, g := grants[..|grants| - 1], grants[|grants| - 1].0, grants[|grants| - 1].1;
      PastIsExpired(g.expiresAt, now);
      forall k
        ensures Unique(init) && (IsPastGrant(grants, now, id, k) <==>
          IsPastGrant(init, now, id, k) || (k == last && IsPast(g.expiresAt, now) && g.id == id))
      {
        GetLast(grants, k);
        GetHas(init, last);
      }
      PurgeReports(init, now, id);
      assert IsPastGrant(grants, now, id, last) <==> IsPast(g.expiresAt, now) && g.id == id by {
        GetLast(grants, last);
      }
    }
  }

  lemma {:induction false} PastIsExpired(expiresAt: Option<int>, now: int)
    ensures IsPast(expiresAt, now) <==> IsExpired(expiresAt, now)
  {
  }

  // ----- Shares and the log -----

  /** Nothing but the one share changes. */
  ghost predicate OnlyShare(s: Store, t: Store, id: string, share: Option<Share>) {
    && (forall k :: Get(t.shares, k) == if k == id then share else Get(s.shares, k))
    && t.requests == s.requests && t.grants == s.grants && t.audit == s.audit
  }

  /** A new share counts no claim and allows at least one; revoking and deleting change only the share. */
  lemma {:induction false} SharesExactly(s: Store, op: Op)
    requires Consistent(s) && (op.CreateShare? || op.RevokeShareOp? || op.DeleteShareOp?)
    ensures var was, t := Get(s.shares, op.id), Step(s, op);
      match op
      case CreateShare(id, manifest, secretHash, maxClaims, expiresAt, rs) =>
        OnlyShare(s, t, id, Some(Share(id, manifest, secretHash, if maxClaims < 1 then 1 else maxClaims, 0, false, expiresAt, rs)))
      case RevokeShareOp(id) => OnlyShare(s, t, id, if was.Some? then Some(was.value.(revoked := true)) else None)
      case DeleteShareOp(id) => OnlyShare(s, t, id, None)
      case _ => true
  {
    hide RebuildIndex;
    match op
    case CreateShare(_, _, _, _, _, _) => UpsertShareEffect(s, NewShare(op));
    case RevokeShareOp(id) =>
      if Get(s.shares, id).Some? {
        UpsertShareEffect(s, Get(s.shares, id).value.(revoked := true));
      }
    case DeleteShareOp(id) => PopEffect(s.shares, id);
    case _ =>
  }

  /** The log keeps its last thousand entries. */
  lemma {:induction false} AuditExactly(s: Store, e: Event)
    ensures var t, all := AppendAudit(s, e), s.audit + [e];
      && t.audit == all[if |all| > 1000 then |all| - 1000 else 0..]
      && t.requests == s.requests && t.grants == s.grants && t.shares == s.shares
  {
    hide RebuildIndex;
  }
}
