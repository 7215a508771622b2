/** What the store keeps over every sequence of operations. */
module StoreRuns {
  import opened Lists
  import opened Options
  import opened Dict
  import opened Policy
  import opened Models
  import opened StoreSpec

  // ----- Eviction -----

  predicate IsPending(requests: Dict<AccessRequest>, id: string) {
    Get(requests, id).Some? && Get(requests, id).value.status.Pending?
  }

  /** The last entry of a dictionary, apart from the others. */
  lemma {:induction false} GetLast<V>(d: Dict<V>, k: string)
    requires d != [] && Unique(d)
    ensures Unique(d[..|d| - 1])
    ensures d[|d| - 1].0 !in Keys(d[..|d| - 1])
    ensures Get(d, k) == if k == d[|d| - 1].0 then Some(d[|d| - 1].1) else Get(d[..|d| - 1], k)
    decreases |d|
  {
    var n := |d| - 1;
    GetIn(d, n);
    if n > 0 && k != d[n].0 && d[0].0 != k {
      KeysCons(d);
      GetLast(d[1..], k);
      assert d[1..][..|d[1..]| - 1] == d[..n][1..];
    }
  }

  lemma {:induction false} PendingIdsAre(requests: Dict<AccessRequest>)
    requires Unique(requests)
    ensures NoRepeats(PendingIds(requests))
    ensures forall id :: id in Elements(PendingIds(requests)) <==> IsPending(requests, id)
    decreases |requests|
  {
    if requests != [] {
      var init, id := requests[..|requests| - 1], requests[|requests| - 1].0;
      GetLast(requests, id);
      PendingIdsAre(init);
      GetHas(init, id);
      var ids := PendingIds(init);
      ElementsSnoc(ids, id);
      assert ids + [] == ids;
      forall x
        ensures x in Elements(PendingIds(requests)) <==> IsPending(requests, x)
      {
        GetLast(requests, x);
      }
    }
  }

  /** Created before, or at the same time and inserted before. */
  predicate Older(requests: Dict<AccessRequest>, ids: seq<string>, a: string, b: string) {
    || CreatedAt(requests, a) < CreatedAt(requests, b)
    || (CreatedAt(requests, a) == CreatedAt(requests, b) && Precedes(ids, a, b))
  }

  predicate Precedes(ids: seq<string>, a: string, b: string) {
    exists i, j :: 0 <= i < j < |ids| && ids[i] == a && ids[j] == b
  }

  predicate Ordered(requests: Dict<AccessRequest>, ids: seq<string>, sorted: seq<string>) {
    forall i, j :: 0 <= i < j < |sorted| ==> Older(requests, ids, sorted[i], sorted[j])
  }

  lemma {:induction false} InsertElements(requests: Dict<AccessRequest>, sorted: seq<string>, id: string)
    ensures Elements(InsertByAge(requests, sorted, id)) == Elements(sorted) + {id}
    ensures NoRepeats(sorted) && id !in Elements(sorted) ==> NoRepeats(InsertByAge(requests, sorted, id))
    decreases |sorted|
  {
    ElementsSnoc(sorted, id);
    if sorted != [] {
      var init, last := sorted[..|sorted| - 1], sorted[|sorted| - 1];
      assert sorted == init + [last];
      ElementsSnoc(init, last);
      InsertElements(requests, init, id);
      ElementsSnoc(InsertByAge(requests, init, id), last);
    } else {
      assert [] + [id] == [id];
    }
  }

  /** Inserting an id that follows all the others of equal age. */
  lemma {:induction false} InsertOrdered(requests: Dict<AccessRequest>, ids: seq<string>, sorted: seq<string>, id: string)
    requires Ordered(requests, ids, sorted)
    requires forall x :: x in Elements(sorted) ==> Precedes(ids, x, id)
    ensures Ordered(requests, ids, InsertByAge(requests, sorted, id))
    decreases |sorted|
  {
    if sorted != [] {
      var init, last := sorted[..|sorted| - 1], sorted[|sorted| - 1];
      assert sorted == init + [last];
      ElementsSnoc(init, last);
      if CreatedAt(requests, last) <= CreatedAt(requests, id) {
        var r := sorted + [id];
        forall i, j | 0 <= i < j < |r|
          ensures Older(requests, ids, r[i], r[j])
        {
          if j == |sorted| {
            assert sorted[i] in Elements(sorted);
            if i < |sorted| - 1 {
              assert Older(requests, ids, sorted[i], last);
            }
          }
        }
      } else {
        InsertOrdered(requests, ids, init, id);
        InsertElements(requests, init, id);
        var p := InsertByAge(requests, init, id);
        forall i, j | 0 <= i < j < |p + [last]|
          ensures Older(requests, ids, (p + [last])[i], (p + [last])[j])
        {
          if j == |p| {
            OlderThanLast(requests, ids, init, last, id, p[i], p);
          }
        }
      }
    }
  }

  lemma {:induction false} OlderThanLast(
      requests: Dict<AccessRequest>, ids: seq<string>, init: seq<string>, last: string, id: string, x: string, p: seq<string>)
    requires Ordered(requests, ids, init + [last])
    requires Elements(p) == Elements(init) + {id} && x in p
    requires CreatedAt(requests, id) < CreatedAt(requests, last)
    ensures Older(requests, ids, x, last)
  {
    assert x in Elements(p);
    if x != id {
      var i :| 0 <= i < |init| && init[i] == x;
      assert (init + [last])[i] == x && (init + [last])[|init|] == last;
    }
  }

  lemma {:induction false} OrderedMore(requests: Dict<AccessRequest>, ids: seq<string>, x: string, sorted: seq<string>)
    requires Ordered(requests, ids, sorted)
    ensures Ordered(requests, ids + [x], sorted)
  {
    forall i, j | 0 <= i < j < |sorted|
      ensures Older(requests, ids + [x], sorted[i], sorted[j])
    {
      assert Older(requests, ids, sorted[i], sorted[j]);
      if Precedes(ids, sorted[i], sorted[j]) {
        var a, b :| 0 <= a < b < |ids| && ids[a] == sorted[i] && ids[b] == sorted[j];
        assert (ids + [x])[a] == sorted[i] && (ids + [x])[b] == sorted[j];
      }
    }
  }

  /** The sort is a stable permutation: oldest first, insertion order among equals. */
  lemma {:induction false} SortIsStable(requests: Dict<AccessRequest>, ids: seq<string>)
    requires NoRepeats(ids)
    ensures var sorted := SortByAge(requests, ids);
      Elements(sorted) == Elements(ids) && NoRepeats(sorted) && Ordered(requests, ids, sorted)
    decreases |ids|
  {
    if ids != [] {
      var init, last := ids[..|ids| - 1], ids[|ids| - 1];
      assert ids == init + [last];
      ElementsSnoc(init, last);
      SortIsStable(requests, init);
      var sorted := SortByAge(requests, init);
      OrderedMore(requests, init, last, sorted);
      forall x | x in Elements(sorted)
        ensures Precedes(ids, x, last)
      {
        var i :| 0 <= i < |init| && init[i] == x;
        assert ids[i] == x && ids[|init|] == last;
      }
      InsertOrdered(requests, ids, sorted, last);
      InsertElements(requests, sorted, last);
    }
  }

  lemma {:induction false} PopAllGet<V>(d: Dict<V>, ids: seq<string>, x: string)
    ensures Get(PopAll(d, ids), x) == if x in Elements(ids) then None else Get(d, x)
    ensures Unique(d) ==> Unique(PopAll(d, ids))
    decreases |ids|
  {
    if ids != [] {
      var init, last := ids[..|ids| - 1], ids[|ids| - 1];
      assert ids == init + [last];
      ElementsSnoc(init, last);
      PopAllGet(d, init, x);
      PopGet(PopAll(d, init), last, x);
      PopKeys(PopAll(d, init), last);
    }
  }

  /** What happens to a request of the dictionary: it stays as it is, unless it is pending and surplus. */
  lemma {:induction false} EvictionKeeps(requests: Dict<AccessRequest>, id: string)
    requires Unique(requests)
    ensures var after := PopAll(requests, Surplus(requests));
      && Unique(after)
      && Get(after, id) == (if id in Elements(Surplus(requests)) then None else Get(requests, id))
      && (id in Elements(Surplus(requests)) ==> IsPending(requests, id))
  {
    var ids := PendingIds(requests);
    PopAllGet(requests, Surplus(requests), id);
    PendingIdsAre(requests);
    SortIsStable(requests, ids);
    if id in Elements(Surplus(requests)) {
      assert id in Elements(SortByAge(requests, ids));
    }
  }

  /** Eviction never removes a decided request. */
  lemma {:induction false} DecidedAreKept(s: Store, r: AccessRequest, id: string)
    requires Unique(s.requests)
    requires var put := Put(s.requests, r.id, r); Get(put, id).Some? && !Get(put, id).value.status.Pending?
    ensures Get(UpsertRequest(s, r).requests, id) == Get(Put(s.requests, r.id, r), id)
  {
    PutKeys(s.requests, r.id, r);
    EvictionKeeps(Put(s.requests, r.id, r), id);
  }

  /** A request that is evicted is older than every pending one that stays. */
  lemma {:induction false} OldestAreEvicted(s: Store, r: AccessRequest, evicted: string, kept: string)
    requires Unique(s.requests)
    requires Get(Put(s.requests, r.id, r), evicted).Some? && Get(UpsertRequest(s, r).requests, evicted).None?
    requires IsPending(UpsertRequest(s, r).requests, kept)
    ensures Older(Put(s.requests, r.id, r), PendingIds(Put(s.requests, r.id, r)), evicted, kept)
  {
    hide InsertByAge, SortByAge, Older;
    var put := Put(s.requests, r.id, r);
    var ids := PendingIds(put);
    var sorted := SortByAge(put, ids);
    PutKeys(s.requests, r.id, r);
    EvictionKeeps(put, evicted);
    PendingIdsAre(put);
    SortIsStable(put, ids);
    var cut := |ids| - MAX_PENDING_ACCESS_REQUESTS;
    assert forall k :: 0 <= k < cut ==> Surplus(put)[k] == sorted[k];
    assert forall k :: 0 <= k < cut ==> sorted[k] in Elements(Surplus(put));
    EvictionKeeps(put, kept);
    var i :| 0 <= i < cut && sorted[i] == evicted;
    assert kept in Elements(sorted);
    var j :| 0 <= j < |sorted| && sorted[j] == kept;
  }

  /** Eviction leaves as many pending requests as the limit allows. */
  lemma {:induction false} PendingAfterEviction(requests: Dict<AccessRequest>)
    requires Unique(requests)
    ensures |PendingIds(PopAll(requests, Surplus(requests)))|
         == if |PendingIds(requests)| <= MAX_PENDING_ACCESS_REQUESTS then |PendingIds(requests)| else MAX_PENDING_ACCESS_REQUESTS
  {
    hide InsertByAge, SortByAge, PendingIds, PopAll, NoRepeats, Unique;
    var ids := PendingIds(requests);
    var after := PopAll(requests, Surplus(requests));
    var surplus := Elements(Surplus(requests));
    PendingIdsAre(requests);
    SortIsStable(requests, ids);
    EvictionKeeps(requests, "");
    PendingIdsAre(after);
    forall id
      ensures IsPending(after, id) <==> IsPending(requests, id) && id !in surplus
    {
      EvictionKeeps(requests, id);
    }
    assert Elements(PendingIds(after)) == Elements(ids) - surplus;
    NoRepeatsSize(ids);
    NoRepeatsSize(PendingIds(after));
    NoRepeatsSize(Surplus(requests));
    forall id | id in surplus
      ensures id in Elements(ids)
    {
      EvictionKeeps(requests, id);
    }
  }

  // ----- Lookup by grant id -----

  /** The last grant with an id: a search over the grants as they are kept, by consumer. */
  function SearchById(grants: Dict<Grant>, id: string): Option<Grant>
    decreases |grants|
  {
    if grants == [] then None
    else if grants[|grants| - 1].1.id == id then Some(grants[|grants| - 1].1)
    else SearchById(grants[..|grants| - 1], id)
  }

  lemma {:induction false} IndexFinds(grants: Dict<Grant>, id: string)
    requires Unique(grants) && id != ""
    ensures var index := RebuildIndex(grants);
      if id in index then Get(grants, index[id]) == SearchById(grants, id) && SearchById(grants, id).Some? && SearchById(grants, id).value.id == id
      else SearchById(grants, id) == None
    decreases |grants|
  {
    if grants != [] {
      var init := grants[..|grants| - 1];
      var last := grants[|grants| - 1];
      GetLast(grants, last.0);
      IndexFinds(init, id);
      var index := RebuildIndex(init);
      if id in index {
        GetLast(grants, index[id]);
        GetHas(init, index[id]);
      }
    }
  }

  lemma {:induction false} NoEmptyId(grants: Dict<Grant>)
    ensures "" !in RebuildIndex(grants)
    decreases |grants|
  {
    if grants != [] {
      NoEmptyId(grants[..|grants| - 1]);
    }
  }

  /** With an index that is up to date, lookup is search, and leaves the index alone; the empty id is not found. */
  lemma {:induction false} LookupIsSearch(s: Store, id: string)
    requires Unique(s.grants) && s.index == RebuildIndex(s.grants)
    ensures GetGrant(s, id) == (if id == "" then None else SearchById(s.grants, id), s)
  {
    NoEmptyId(s.grants);
    if id != "" {
      IndexFinds(s.grants, id);
    }
  }

  predicate DistinctIds(grants: Dict<Grant>) {
    forall i, j :: 0 <= i < j < |grants| && grants[i].1.id != "" ==> grants[i].1.id != grants[j].1.id
  }

  lemma {:induction false} SearchFinds(grants: Dict<Grant>, id: string)
    ensures SearchById(grants, id).Some? <==> exists i :: 0 <= i < |grants| && grants[i].1.id == id
    ensures SearchById(grants, id).Some? ==> exists i :: 0 <= i < |grants| && grants[i].1 == SearchById(grants, id).value && grants[i].1.id == id
    decreases |grants|
  {
    if grants != [] {
      SearchFinds(grants[..|grants| - 1], id);
      assert forall i :: 0 <= i < |grants| - 1 ==> grants[..|grants| - 1][i] == grants[i];
    }
  }

  /** Lookup finds each grant by its id exactly when no two grants share an id. */
  lemma {:induction false} LookupFindsAllIffDistinct(s: Store)
    requires Unique(s.grants) && s.index == RebuildIndex(s.grants)
    requires forall i :: 0 <= i < |s.grants| ==> s.grants[i].1.consumer == s.grants[i].0
    ensures DistinctIds(s.grants)
      <==> forall i :: 0 <= i < |s.grants| && s.grants[i].1.id != "" ==> GetGrant(s, s.grants[i].1.id).0 == Some(s.grants[i].1)
  {
    hide SearchById, RebuildIndex, GetGrant;
    var gs := s.grants;
    if DistinctIds(gs) {
      forall i | 0 <= i < |gs| && gs[i].1.id != ""
        ensures GetGrant(s, gs[i].1.id).0 == Some(gs[i].1)
      {
        LookupIsSearch(s, gs[i].1.id);
        SearchFinds(gs, gs[i].1.id);
        var j :| 0 <= j < |gs| && gs[j].1 == SearchById(gs, gs[i].1.id).value && gs[j].1.id == gs[i].1.id;
        assert i == j;
      }
    } else {
      var i, j :| 0 <= i < j < |gs| && gs[i].1.id != "" && gs[i].1.id == gs[j].1.id;
      assert gs[i].1.consumer != gs[j].1.consumer;
    }
  }
}
