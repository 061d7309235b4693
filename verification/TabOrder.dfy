/** The order of tab identifiers: repairing it, and taking identifiers out of it
    (desktop/tabs.go:2802-2838). */
module TabOrder {
  import opened Common

  type TabId = string

  /** Each key is listed exactly once, and nothing else is. */
  ghost predicate IsListing(order: seq<TabId>, keys: set<TabId>) {
    Distinct(order) && forall id :: (id in order) <==> (id in keys)
  }

  // ------------------------------------------------------------------- sorting strings

  predicate NotGreater(a: string, b: string) {
    a == [] || (b != [] && (a[0] < b[0] || (a[0] == b[0] && NotGreater(a[1..], b[1..]))))
  }

  lemma {:induction false} Comparable(a: string, b: string)
    ensures NotGreater(a, b) || NotGreater(b, a)
    ensures NotGreater(a, b) && NotGreater(b, a) ==> a == b
  {
    if a != [] && b != [] && a[0] == b[0] {
      Comparable(a[1..], b[1..]);
      assert a == [a[0]] + a[1..] && b == [b[0]] + b[1..];
    }
  }

  lemma {:induction false} NotGreaterChains(a: string, b: string, c: string)
    requires NotGreater(a, b) && NotGreater(b, c)
    ensures NotGreater(a, c)
  {
    if a != [] && a[0] == b[0] == c[0] {
      NotGreaterChains(a[1..], b[1..], c[1..]);
    }
  }

  predicate Sorted(ids: seq<TabId>) {
    forall i, j :: 0 <= i < j < |ids| ==> NotGreater(ids[i], ids[j])
  }

  /** A set has only one sorted listing, so the repair does not depend on the order in
      which a map is walked. */
  lemma {:induction false} SortedListingIsUnique(a: seq<TabId>, b: seq<TabId>, ids: set<TabId>)
    requires Sorted(a) && IsListing(a, ids) && Sorted(b) && IsListing(b, ids)
    ensures a == b
    decreases |a|
  {
    HeadIsListed(b);
    if a == [] {
    } else {
      assert a[0] in b && b != [] && b[0] in a;
      var i :| 0 <= i < |a| && a[i] == b[0];
      var j :| 0 <= j < |b| && b[j] == a[0];
      Comparable(a[0], b[0]);
      assert a[0] == b[0];
      ListingTail(a, ids);
      ListingTail(b, ids);
      SortedListingIsUnique(a[1..], b[1..], ids - {a[0]});
      assert a == [a[0]] + a[1..] && b == [b[0]] + b[1..];
    }
  }

  lemma HeadIsListed(b: seq<TabId>)
    ensures b == [] || b[0] in b
  {}

  lemma ListingTail(a: seq<TabId>, ids: set<TabId>)
    requires IsListing(a, ids) && a != []
    ensures IsListing(a[1..], ids - {a[0]})
  {
    assert a == [a[0]] + a[1..];
  }

  /** Where `id` goes in a sorted list. */
  method InsertionPoint(ids: seq<TabId>, id: TabId) returns (k: nat)
    requires Sorted(ids)
    ensures k <= |ids|
    ensures forall i :: 0 <= i < k ==> NotGreater(ids[i], id)
    ensures forall i :: k <= i < |ids| ==> NotGreater(id, ids[i])
  {
    k := 0;
    while k < |ids| && NotGreater(ids[k], id)
      invariant k <= |ids|
      invariant forall i :: 0 <= i < k ==> NotGreater(ids[i], id)
    {
      k := k + 1;
    }
    if k < |ids| {
      Comparable(ids[k], id);
      forall i | k <= i < |ids| ensures NotGreater(id, ids[i]) {
        if i > k {
          NotGreaterChains(id, ids[k], ids[i]);
        }
      }
    }
  }

  lemma InsertSorted(ids: seq<TabId>, id: TabId, k: nat)
    requires Sorted(ids) && k <= |ids|
    requires forall i :: 0 <= i < k ==> NotGreater(ids[i], id)
    requires forall i :: k <= i < |ids| ==> NotGreater(id, ids[i])
    ensures Sorted(ids[..k] + [id] + ids[k..])
  {
    var r := ids[..k] + [id] + ids[k..];
    assert forall i :: 0 <= i < |r| ==> r[i] == if i < k then ids[i] else if i == k then id else ids[i - 1];
  }

  lemma InsertListing(ids: seq<TabId>, id: TabId, k: nat, keys: set<TabId>)
    requires IsListing(ids, keys) && id !in keys && k <= |ids|
    ensures IsListing(ids[..k] + [id] + ids[k..], keys + {id})
  {
    assert ids == ids[..k] + ids[k..];
    DistinctConcat(ids[..k], ids[k..]);
    DistinctConcat(ids[..k], [id]);
    DistinctConcat(ids[..k] + [id], ids[k..]);
  }

  /** Sorts the identifiers of a set, taken in any order. */
  method SortIds(ids: set<TabId>) returns (r: seq<TabId>)
    ensures Sorted(r) && IsListing(r, ids)
  {
    r := [];
    var rest := ids;
    while rest != {}
      invariant rest <= ids && Sorted(r) && IsListing(r, ids - rest)
      decreases |rest|
    {
      var id :| id in rest;
      var k := InsertionPoint(r, id);
      InsertSorted(r, id, k);
      InsertListing(r, id, k, ids - rest);
      r := r[..k] + [id] + r[k..];
      assert ids - (rest - {id}) == (ids - rest) + {id};
      rest := rest - {id};
    }
  }

  // -------------------------------------------------------------------- repairing an order

  /** The first listing of each open tab, in order. */
  function Kept(order: seq<TabId>, keys: set<TabId>): seq<TabId> {
    if order == [] then []
    else
      var n := |order| - 1;
      var kept := Kept(order[..n], keys);
      if order[n] in keys && order[n] !in kept then kept + [order[n]] else kept
  }

  /** What is kept lists the open tabs the order names, and is the order itself exactly
      when nothing had to go. */
  lemma {:induction false} KeptLists(order: seq<TabId>, keys: set<TabId>)
    ensures Distinct(Kept(order, keys))
    ensures forall id :: (id in Kept(order, keys)) <==> (id in order && id in keys)
    ensures |Kept(order, keys)| <= |order|
    ensures |Kept(order, keys)| == |order| ==> Kept(order, keys) == order
  {
    if order != [] {
      var n := |order| - 1;
      KeptLists(order[..n], keys);
      assert order == order[..n] + [order[n]];
    }
  }

  /** `r` is the repaired order: what is kept, then the tabs it misses, sorted. */
  ghost predicate IsRepair(order: seq<TabId>, keys: set<TabId>, r: seq<TabId>) {
    && Kept(order, keys) <= r
    && Sorted(r[|Kept(order, keys)|..])
    && IsListing(r[|Kept(order, keys)|..], keys - (set id | id in order))
  }

  /** A repair lists every open tab once. */
  lemma RepairIsListing(order: seq<TabId>, keys: set<TabId>, r: seq<TabId>)
    requires IsRepair(order, keys, r)
    ensures IsListing(r, keys)
  {
    KeptLists(order, keys);
    var kept := Kept(order, keys);
    var missing := r[|kept|..];
    assert r == kept + missing;
    DistinctConcat(kept, missing);
  }

  /** A repair changes nothing exactly when the order already listed the tabs; the source
      tells by the lengths and by whether anything was missing. */
  lemma RepairIsNeeded(order: seq<TabId>, keys: set<TabId>, r: seq<TabId>)
    requires IsRepair(order, keys, r)
    ensures r == order <==> |r| == |order| && |r| == |Kept(order, keys)|
    ensures r == order <==> IsListing(order, keys)
  {
    KeptLists(order, keys);
    RepairIsListing(order, keys, r);
    var kept := Kept(order, keys);
    if |r| > |kept| {
      assert r[|kept|] == r[|kept|..][0] && r[|kept|..][0] in r[|kept|..];
      assert r[|kept|] in r && r[|kept|] !in order && r[|kept|] in keys;
    } else {
      assert r == kept;
      if IsListing(order, keys) {
        KeptWhole(order, keys);
      }
    }
  }

  lemma {:induction false} KeptWhole(order: seq<TabId>, keys: set<TabId>)
    requires Distinct(order) && forall id :: id in order ==> id in keys
    ensures Kept(order, keys) == order
  {
    if order != [] {
      var n := |order| - 1;
      assert order == order[..n] + [order[n]];
      KeptWhole(order[..n], keys);
    }
  }

  lemma RepairIsUnique(order: seq<TabId>, keys: set<TabId>, r: seq<TabId>, r': seq<TabId>)
    requires IsRepair(order, keys, r) && IsRepair(order, keys, r')
    ensures r == r'
  {
    var kept := Kept(order, keys);
    SortedListingIsUnique(r[|kept|..], r'[|kept|..], keys - (set id | id in order));
    assert r == kept + r[|kept|..] && r' == kept + r'[|kept|..];
  }

  /** The loops of the repair: over the order with a set of those seen, then over the open
      tabs not seen. */
  method OrderedTabIds(order: seq<TabId>, keys: set<TabId>) returns (ordered: seq<TabId>, needsRepair: bool)
    ensures IsRepair(order, keys, ordered) && IsListing(ordered, keys)
    ensures needsRepair <==> ordered != order
  {
    var seen: set<TabId> := {};
    ordered := [];
    var i := 0;
    while i < |order|
      invariant 0 <= i <= |order|
      invariant ordered == Kept(order[..i], keys)
      invariant forall id :: (id in seen) <==> (id in ordered)
    {
      assert order[..i + 1][..i] == order[..i];
      if order[i] in keys && order[i] !in seen {
        ordered := ordered + [order[i]];
        seen := seen + {order[i]};
      }
      i := i + 1;
    }
    assert order[..i] == order;
    KeptLists(order, keys);
    var missing := SortIds(keys - seen);
    assert keys - seen == keys - (set id | id in order);
    ghost var kept := ordered;
    ordered := ordered + missing;
    assert ordered[|kept|..] == missing;
    RepairIsListing(order, keys, ordered);
    RepairIsNeeded(order, keys, ordered);
    needsRepair := |ordered| != |order| || |missing| > 0;
  }

  // -------------------------------------------------------------------- taking a tab out

  function Without(order: seq<TabId>, id: TabId): seq<TabId> {
    if order == [] then []
    else if order[0] == id then Without(order[1..], id) else [order[0]] + Without(order[1..], id)
  }

  lemma {:induction false} WithoutMembers(order: seq<TabId>, id: TabId)
    ensures forall x :: (x in Without(order, id)) <==> (x in order && x != id)
    ensures Distinct(order) ==> Distinct(Without(order, id))
  {
    if order != [] {
      assert order == [order[0]] + order[1..];
      WithoutMembers(order[1..], id);
      DistinctConcat([order[0]], order[1..]);
      DistinctConcat([order[0]], Without(order[1..], id));
    }
  }

  lemma WithoutListing(order: seq<TabId>, keys: set<TabId>, id: TabId)
    requires IsListing(order, keys)
    ensures IsListing(Without(order, id), keys - {id})
  {
    WithoutMembers(order, id);
  }

  lemma {:induction false} WithoutAbsent(order: seq<TabId>, id: TabId)
    requires id !in order
    ensures Without(order, id) == order
  {
    if order != [] {
      assert order == [order[0]] + order[1..];
      WithoutAbsent(order[1..], id);
    }
  }

  /** In a duplicate-free order, taking a tab out closes the gap it leaves. */
  lemma {:induction false} WithoutAt(order: seq<TabId>, k: nat)
    requires Distinct(order) && k < |order|
    ensures Without(order, order[k]) == order[..k] + order[k + 1..]
  {
    assert order == [order[0]] + order[1..];
    if k == 0 {
      WithoutAbsent(order[1..], order[0]);
    } else {
      WithoutAt(order[1..], k - 1);
      assert order[..k] + order[k + 1..] == [order[0]] + (order[1..][..k - 1] + order[1..][k..]);
    }
  }

  lemma WithoutStep(order: seq<TabId>, i: nat, id: TabId)
    requires i < |order|
    ensures Without(order[..i + 1], id) == Without(order[..i], id) + if order[i] == id then [] else [order[i]]
  {
    assert order[..i + 1] == order[..i] + [order[i]];
    WithoutAppend(order[..i], order[i], id);
  }

  lemma {:induction false} WithoutAppend(order: seq<TabId>, last: TabId, id: TabId)
    ensures Without(order + [last], id) == Without(order, id) + if last == id then [] else [last]
  {
    if order != [] {
      assert (order + [last])[1..] == order[1..] + [last];
      WithoutAppend(order[1..], last, id);
    }
  }

  method RemoveTabOrder(order: seq<TabId>, id: TabId) returns (next: seq<TabId>)
    ensures next == Without(order, id)
  {
    next := [];
    var i := 0;
    while i < |order|
      invariant 0 <= i <= |order|
      invariant next == Without(order[..i], id)
    {
      WithoutStep(order, i, id);
      if order[i] != id {
        next := next + [order[i]];
      }
      i := i + 1;
    }
    assert order[..i] == order;
  }

  method IndexOf(ids: seq<TabId>, id: TabId) returns (k: int)
    ensures if id in ids then 0 <= k < |ids| && ids[k] == id && id !in ids[..k] else k == -1
  {
    k := 0;
    while k < |ids|
      invariant 0 <= k <= |ids| && id !in ids[..k]
    {
      if ids[k] == id {
        return;
      }
      k := k + 1;
    }
    k := -1;
  }
}
