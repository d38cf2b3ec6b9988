/**
 * The home page's ranking composition: search rows (one per branch) are
 * collapsed into one entry per store, keeping the nearest branch; each store
 * gets a score (its best discount); the top-discount and nearby lists take six
 * stores each; and the link to the map page carries the given search fields.
 */
module HomeRanking {
  import opened Js
  import opened UrlParams
  import opened Search

  /** A promotion's `value`, which the ranking reads only when it is a number. */
  datatype PromoValue = Number(n: real) | NonNumeric

  datatype Promotion = Promotion(id: string, name: string, value: PromoValue)

  /** One row of the `search_stores` result: a branch of a store. */
  datatype BranchRow = BranchRow(
    storeId: string,
    branchId: string,
    storeName: string,
    branchName: string,
    logoUrl: Option<string>,
    promotions: seq<Promotion>,
    maxDiscountValue: Option<real>,
    distanceKm: Option<real>,
    latitude: Option<real>,
    longitude: Option<real>)

  /** One store card, built from the branch that represents the store. */
  datatype Store = Store(
    id: string,
    branchId: string,
    name: string,
    logoUrl: Option<string>,
    promotions: seq<Promotion>,
    distanceKm: Option<real>)

  // ----- best discount --------------------------------------------------------

  /** A promotion's value as the ranking counts it: non-numbers count as 0. */
  function NumericValue(p: Promotion): real {
    if p.value.Number? then p.value.n else 0.0
  }

  /** The `reduce` with initial accumulator 0 that keeps the larger value. */
  function ReduceMax(ps: seq<Promotion>): (r: real)
    ensures r >= 0.0
    ensures forall i :: 0 <= i < |ps| ==> NumericValue(ps[i]) <= r
    ensures r == 0.0 || exists i :: 0 <= i < |ps| && NumericValue(ps[i]) == r
    decreases |ps|
  {
    if ps == [] then 0.0
    else
      var init := ps[..|ps| - 1];
      var acc := ReduceMax(init);
      var value := NumericValue(ps[|ps| - 1]);
      assert forall i :: 0 <= i < |init| ==> init[i] == ps[i];
      if value > acc then value else acc
  }

  /**
   * `getMaxPromotionValue`: 0 for no promotions, otherwise the largest of 0 and
   * the numeric values.
   */
  function MaxPromotionValue(ps: seq<Promotion>): (r: real)
    ensures ps == [] ==> r == 0.0
    ensures r >= 0.0
    ensures forall i :: 0 <= i < |ps| ==> NumericValue(ps[i]) <= r
    ensures r == 0.0 || exists i :: 0 <= i < |ps| && NumericValue(ps[i]) == r
  {
    if |ps| == 0 then 0.0 else ReduceMax(ps)
  }

  // ----- one entry per store --------------------------------------------------

  /** The card literal built from a branch row. */
  function ToStore(b: BranchRow): Store {
    Store(b.storeId, b.branchId, b.storeName, b.logoUrl, b.promotions, b.distanceKm)
  }

  /**
   * Whether branch `b` replaces the entry kept so far for its store: nothing is
   * kept yet, or `b` has a distance and the kept one has none, or both have one
   * and `b` is strictly nearer.
   */
  predicate Replaces(existing: Option<Store>, b: BranchRow) {
    || existing.None?
    || (b.distanceKm.Some? && existing.value.distanceKm.None?)
    || (b.distanceKm.Some? && existing.value.distanceKm.Some?
        && b.distanceKm.value < existing.value.distanceKm.value)
  }

  /** The store ids that occur in the rows. */
  ghost function Ids(bs: seq<BranchRow>): set<string> {
    set i | 0 <= i < |bs| :: bs[i].storeId
  }

  /** `i` is the first row of store `k`. */
  ghost predicate IsFirstIndex(bs: seq<BranchRow>, k: string, i: int) {
    0 <= i < |bs| && bs[i].storeId == k && forall h :: 0 <= h < i ==> bs[h].storeId != k
  }

  /** Some row of store `k` has a distance. */
  ghost predicate HasDistanceFor(bs: seq<BranchRow>, k: string) {
    exists i :: 0 <= i < |bs| && bs[i].storeId == k && bs[i].distanceKm.Some?
  }

  /**
   * The reference for which branch represents store `k`: when some branch of
   * `k` has a distance, the first branch at the smallest distance; otherwise the
   * first branch of `k`.
   */
  ghost predicate IsKept(bs: seq<BranchRow>, k: string, j: int) {
    && 0 <= j < |bs| && bs[j].storeId == k
    && if HasDistanceFor(bs, k) then
         && bs[j].distanceKm.Some?
         && (forall i :: 0 <= i < |bs| && bs[i].storeId == k && bs[i].distanceKm.Some?
               ==> bs[j].distanceKm.value <= bs[i].distanceKm.value)
         && (forall i :: 0 <= i < j && bs[i].storeId == k && bs[i].distanceKm.Some?
               ==> bs[j].distanceKm.value < bs[i].distanceKm.value)
       else
         forall i :: 0 <= i < j ==> bs[i].storeId != k
  }

  /** The `Map<string, Store>` after some rows: its keys in insertion order and its entries. */
  datatype StoreIndex = StoreIndex(keys: seq<string>, entries: map<string, Store>)

  ghost predicate IndexValid(ix: StoreIndex) {
    && (forall i, j :: 0 <= i < j < |ix.keys| ==> ix.keys[i] != ix.keys[j])
    && (forall k :: k in ix.entries <==> k in ix.keys)
  }

  /** One iteration of the dedup loop. */
  function Step(ix: StoreIndex, b: BranchRow): StoreIndex {
    var existing := if b.storeId in ix.entries then Some(ix.entries[b.storeId]) else None;
    if Replaces(existing, b) then
      StoreIndex(if b.storeId in ix.entries then ix.keys else ix.keys + [b.storeId],
                 ix.entries[b.storeId := ToStore(b)])
    else ix
  }

  /** The map after the loop has seen every row of `bs`. */
  function Dedup(bs: seq<BranchRow>): (r: StoreIndex)
    ensures IndexValid(r)
    ensures r.entries.Keys == Ids(bs)
    decreases |bs|
  {
    if bs == [] then StoreIndex([], map[])
    else
      var init := bs[..|bs| - 1];
      var r := Step(Dedup(init), bs[|bs| - 1]);
      assert Ids(bs) == Ids(init) + {bs[|bs| - 1].storeId} by {
        assert forall i :: 0 <= i < |init| ==> init[i] == bs[i];
      }
      r
  }

  /** `Array.from(uniqueStoresMap.values())`: the entries in key order. */
  function UniqueStores(bs: seq<BranchRow>): (r: seq<Store>)
    ensures |r| == |Dedup(bs).keys|
  {
    var ix := Dedup(bs);
    seq(|ix.keys|, i requires 0 <= i < |ix.keys| => ix.entries[ix.keys[i]])
  }

  lemma IdsPrefix(bs: seq<BranchRow>)
    requires bs != []
    ensures Ids(bs) == Ids(bs[..|bs| - 1]) + {bs[|bs| - 1].storeId}
  {
    var init := bs[..|bs| - 1];
    assert forall i :: 0 <= i < |init| ==> init[i] == bs[i];
  }

  /** The entry kept for every store is built from the branch `j` the reference designates. */
  lemma {:induction false} DedupKeepsPreferred(bs: seq<BranchRow>, k: string) returns (j: int)
    requires k in Ids(bs)
    ensures IsKept(bs, k, j) && Dedup(bs).entries[k] == ToStore(bs[j])
    decreases |bs|
  {
    var n := |bs|;
    var init := bs[..n - 1];
    var b := bs[n - 1];
    IdsPrefix(bs);
    var prev := Dedup(init);
    assert Dedup(bs) == Step(prev, b);
    if b.storeId != k {
      j := DedupKeepsPreferred(init, k);
      KeptOther(bs, k, j);
      assert bs[j] == init[j];
    } else if k !in prev.entries {
      KeptNew(bs, k);
      j := n - 1;
    } else {
      var i := DedupKeepsPreferred(init, k);
      assert bs[i] == init[i];
      if Replaces(Some(prev.entries[k]), b) {
        KeptReplaced(bs, k, i);
        j := n - 1;
      } else {
        KeptStays(bs, k, i);
        j := i;
      }
    }
  }

  /** How a store's distance availability grows with one more row. */
  lemma HasDistancePrefix(bs: seq<BranchRow>, k: string)
    requires bs != []
    ensures HasDistanceFor(bs, k) <==>
      HasDistanceFor(bs[..|bs| - 1], k) || (bs[|bs| - 1].storeId == k && bs[|bs| - 1].distanceKm.Some?)
  {
    var init := bs[..|bs| - 1];
    assert forall i :: 0 <= i < |init| ==> init[i] == bs[i];
    if HasDistanceFor(bs, k) {
      var i :| 0 <= i < |bs| && bs[i].storeId == k && bs[i].distanceKm.Some?;
      if i < |init| {
        assert init[i].storeId == k && init[i].distanceKm.Some?;
      }
    }
  }

  /** A row of another store leaves the designated branch of `k` alone. */
  lemma KeptOther(bs: seq<BranchRow>, k: string, j: int)
    requires bs != [] && bs[|bs| - 1].storeId != k && IsKept(bs[..|bs| - 1], k, j)
    ensures IsKept(bs, k, j)
  {
    var init := bs[..|bs| - 1];
    assert forall i :: 0 <= i < |init| ==> init[i] == bs[i];
    HasDistancePrefix(bs, k);
  }

  /** The first row of a store is designated until a better one comes. */
  lemma KeptNew(bs: seq<BranchRow>, k: string)
    requires bs != [] && bs[|bs| - 1].storeId == k && k !in Ids(bs[..|bs| - 1])
    ensures IsKept(bs, k, |bs| - 1)
  {
    var init := bs[..|bs| - 1];
    assert forall i :: 0 <= i < |init| ==> init[i] == bs[i];
    assert forall i :: 0 <= i < |init| ==> init[i].storeId in Ids(init);
    HasDistancePrefix(bs, k);
    assert !HasDistanceFor(init, k);
  }

  /** A row that replaces the kept entry is the new designated branch. */
  lemma KeptReplaced(bs: seq<BranchRow>, k: string, j: int)
    requires bs != [] && bs[|bs| - 1].storeId == k && IsKept(bs[..|bs| - 1], k, j)
    requires Replaces(Some(ToStore(bs[j])), bs[|bs| - 1])
    ensures IsKept(bs, k, |bs| - 1)
  {
    var n := |bs|;
    var init := bs[..n - 1];
    assert forall i :: 0 <= i < |init| ==> init[i] == bs[i];
    HasDistancePrefix(bs, k);
    if bs[j].distanceKm.None? {
      assert !HasDistanceFor(init, k);
    }
  }

  /** A row that does not replace the kept entry leaves the designated branch alone. */
  lemma KeptStays(bs: seq<BranchRow>, k: string, j: int)
    requires bs != [] && bs[|bs| - 1].storeId == k && IsKept(bs[..|bs| - 1], k, j)
    requires !Replaces(Some(ToStore(bs[j])), bs[|bs| - 1])
    ensures IsKept(bs, k, j)
  {
    var n := |bs|;
    var init := bs[..n - 1];
    assert forall i :: 0 <= i < |init| ==> init[i] == bs[i];
    HasDistancePrefix(bs, k);
  }

  /** A new store id is appended to the keys; a known one leaves them as they are. */
  lemma DedupKeysStep(bs: seq<BranchRow>)
    requires bs != []
    ensures var last := bs[|bs| - 1].storeId;
      Dedup(bs).keys == if last in Ids(bs[..|bs| - 1]) then Dedup(bs[..|bs| - 1]).keys
                        else Dedup(bs[..|bs| - 1]).keys + [last]
  {
  }

  /** The first row of a store already seen in the prefix lies in the prefix. */
  lemma FirstIndexInPrefix(bs: seq<BranchRow>, k: string, i: int)
    requires bs != [] && k in Ids(bs[..|bs| - 1]) && IsFirstIndex(bs, k, i)
    ensures IsFirstIndex(bs[..|bs| - 1], k, i)
  {
    var init := bs[..|bs| - 1];
    var h :| 0 <= h < |init| && init[h].storeId == k;
    assert bs[h].storeId == k;
    assert forall g :: 0 <= g < |init| ==> init[g] == bs[g];
  }

  /** The first row of a store not seen in the prefix is the last row. */
  lemma FirstIndexOfNew(bs: seq<BranchRow>, i: int)
    requires bs != [] && bs[|bs| - 1].storeId !in Ids(bs[..|bs| - 1])
    requires IsFirstIndex(bs, bs[|bs| - 1].storeId, i)
    ensures i == |bs| - 1
  {
  }

  /** The ids `keys` are in the order of each store's first row in `bs`. */
  ghost predicate InFirstAppearanceOrder(bs: seq<BranchRow>, keys: seq<string>) {
    forall a, b, ia, ib ::
      (0 <= a < b < |keys| && IsFirstIndex(bs, keys[a], ia) && IsFirstIndex(bs, keys[b], ib)) ==> ia < ib
  }

  /** The keys are in the order of each store's first row. */
  lemma {:induction false} DedupFirstAppearanceOrder(bs: seq<BranchRow>)
    ensures InFirstAppearanceOrder(bs, Dedup(bs).keys)
    decreases |bs|
  {
    if bs != [] {
      var n := |bs|;
      var init := bs[..n - 1];
      DedupFirstAppearanceOrder(init);
      DedupKeysStep(bs);
      var prev := Dedup(init).keys;
      var keys := Dedup(bs).keys;
      forall a, b, ia, ib | 0 <= a < b < |keys| && IsFirstIndex(bs, keys[a], ia)
        && IsFirstIndex(bs, keys[b], ib)
        ensures ia < ib
      {
        assert keys[a] == prev[a] && prev[a] in Dedup(init).entries;
        FirstIndexInPrefix(bs, keys[a], ia);
        if b < |prev| {
          assert keys[b] == prev[b] && prev[b] in Dedup(init).entries;
          FirstIndexInPrefix(bs, keys[b], ib);
        } else {
          FirstIndexOfNew(bs, ib);
        }
      }
    }
  }

  /** Every store that occurs has a first row. */
  lemma FirstIndexIn(bs: seq<BranchRow>, k: string) returns (i: int)
    requires k in Ids(bs)
    ensures IsFirstIndex(bs, k, i)
  {
    i := 0;
    while bs[i].storeId != k
      invariant 0 <= i < |bs|
      invariant forall h :: 0 <= h < i ==> bs[h].storeId != k
      invariant exists h :: i <= h < |bs| && bs[h].storeId == k
      decreases |bs| - i
    {
      i := i + 1;
    }
  }

  /** The `i`-th store is the entry of the `i`-th key. */
  lemma UniqueStoresKeys(bs: seq<BranchRow>)
    ensures var us := UniqueStores(bs); var ix := Dedup(bs);
      forall a :: 0 <= a < |us| ==> ix.keys[a] in ix.entries && us[a] == ix.entries[ix.keys[a]] && us[a].id == ix.keys[a]
  {
    var ix := Dedup(bs);
    var us := UniqueStores(bs);
    forall a | 0 <= a < |us|
      ensures us[a].id == ix.keys[a]
    {
      var j := DedupKeepsPreferred(bs, ix.keys[a]);
    }
  }

  /** One store per distinct store id: no id occurs twice in the list. */
  lemma UniqueStoresDistinct(bs: seq<BranchRow>)
    ensures var us := UniqueStores(bs);
      forall a, b :: 0 <= a < b < |us| ==> us[a].id != us[b].id
  {
    UniqueStoresKeys(bs);
  }

  /** Every store id of the rows, and no other, has a store in the list. */
  lemma UniqueStoresCover(bs: seq<BranchRow>)
    ensures var us := UniqueStores(bs);
      forall k :: k in Ids(bs) <==> exists a :: 0 <= a < |us| && us[a].id == k
  {
    var ix := Dedup(bs);
    var us := UniqueStores(bs);
    UniqueStoresKeys(bs);
    forall k | k in Ids(bs)
      ensures exists a :: 0 <= a < |us| && us[a].id == k
    {
      var a :| 0 <= a < |ix.keys| && ix.keys[a] == k;
      assert us[a].id == k;
    }
  }

  /**
   * Each store is represented by the branch the reference designates: the
   * nearest, the first on ties, the first seen when no branch has a distance.
   */
  lemma UniqueStoresPreferred(bs: seq<BranchRow>)
    ensures var us := UniqueStores(bs);
      forall a :: 0 <= a < |us| ==> exists j :: IsKept(bs, us[a].id, j) && us[a] == ToStore(bs[j])
  {
    var ix := Dedup(bs);
    var us := UniqueStores(bs);
    UniqueStoresKeys(bs);
    forall a | 0 <= a < |us|
      ensures exists j :: IsKept(bs, us[a].id, j) && us[a] == ToStore(bs[j])
    {
      var j := DedupKeepsPreferred(bs, ix.keys[a]);
      assert IsKept(bs, us[a].id, j) && us[a] == ToStore(bs[j]);
    }
  }

  /** The stores are listed in the order of each store's first row. */
  lemma UniqueStoresOrder(bs: seq<BranchRow>)
    ensures var us := UniqueStores(bs);
      forall a, b, ia, ib ::
        (0 <= a < b < |us| && IsFirstIndex(bs, us[a].id, ia) && IsFirstIndex(bs, us[b].id, ib)) ==> ia < ib
  {
    var ix := Dedup(bs);
    var us := UniqueStores(bs);
    UniqueStoresKeys(bs);
    DedupFirstAppearanceOrder(bs);
    forall a, b, ia, ib | 0 <= a < b < |us| && IsFirstIndex(bs, us[a].id, ia) && IsFirstIndex(bs, us[b].id, ib)
      ensures ia < ib
    {
      assert us[a].id == ix.keys[a] && us[b].id == ix.keys[b];
    }
  }

  /** `Map.set` over an insertion-ordered map: the JavaScript `Map` the loop fills. */
  class StoreMap {
    var keys: seq<string>
    var entries: map<string, Store>

    ghost predicate Valid()
      reads this
    {
      IndexValid(StoreIndex(keys, entries))
    }

    constructor ()
      ensures Valid() && keys == [] && entries == map[]
    {
      keys := [];
      entries := map[];
    }

    function Get(id: string): Option<Store>
      reads this
    {
      if id in entries then Some(entries[id]) else None
    }

    /** A new key goes last; an existing key keeps its position. */
    method Set(id: string, s: Store)
      requires Valid()
      modifies this
      ensures Valid()
      ensures entries == old(entries)[id := s]
      ensures keys == if id in old(entries) then old(keys) else old(keys) + [id]
    {
      if id !in entries {
        keys := keys + [id];
      }
      entries := entries[id := s];
    }

    function Values(): (r: seq<Store>)
      requires Valid()
      reads this
      ensures |r| == |keys| && forall i :: 0 <= i < |keys| ==> r[i] == entries[keys[i]]
    {
      seq(|keys|, i requires 0 <= i < |keys| && keys[i] in entries reads this => entries[keys[i]])
    }
  }

  /** The dedup loop of the home page. */
  method DedupStores(branches: seq<BranchRow>) returns (stores: seq<Store>)
    ensures stores == UniqueStores(branches)
  {
    var m := new StoreMap();
    for i := 0 to |branches|
      invariant m.Valid()
      invariant StoreIndex(m.keys, m.entries) == Dedup(branches[..i])
    {
      var branch := branches[i];
      ghost var before := StoreIndex(m.keys, m.entries);
      var existing := m.Get(branch.storeId);
      if Replaces(existing, branch) {
        m.Set(branch.storeId, ToStore(branch));
      }
      assert StoreIndex(m.keys, m.entries) == Step(before, branch);
      DedupSnoc(branches, i);
    }
    assert branches[..|branches|] == branches;
    stores := m.Values();
  }

  /** The reference after one more row is one more step. */
  lemma DedupSnoc(bs: seq<BranchRow>, i: int)
    requires 0 <= i < |bs|
    ensures Dedup(bs[..i + 1]) == Step(Dedup(bs[..i]), bs[i])
  {
    assert bs[..i + 1][..i] == bs[..i];
  }

  // ----- the two six-store lists ----------------------------------------------

  ghost predicate SortedBy<T>(s: seq<T>, key: T -> real) {
    forall i, j :: 0 <= i < j < |s| ==> key(s[i]) <= key(s[j])
  }

  /** Inserts `x` before the first element with a larger key (stable). */
  function Insert<T>(x: T, s: seq<T>, key: T -> real): (r: seq<T>)
    requires SortedBy(s, key)
    ensures SortedBy(r, key)
    ensures multiset(r) == multiset(s) + multiset{x}
  {
    if s == [] then [x]
    else if key(x) <= key(s[0]) then
      SortedCons(x, s, key);
      [x] + s
    else
      var rest := Insert(x, s[1..], key);
      assert s == [s[0]] + s[1..];
      forall y | y in rest
        ensures key(s[0]) <= key(y)
      {
        assert y in multiset(rest);
        if y != x {
          assert y in multiset(s[1..]);
        }
      }
      SortedCons(s[0], rest, key);
      [s[0]] + rest
  }

  lemma SortedCons<T>(h: T, s: seq<T>, key: T -> real)
    requires SortedBy(s, key)
    requires forall y :: y in s ==> key(h) <= key(y)
    ensures SortedBy([h] + s, key)
  {
    var r := [h] + s;
    forall i, j | 0 <= i < j < |r|
      ensures key(r[i]) <= key(r[j])
    {
      assert r[j] == s[j - 1];
      if i > 0 {
        assert r[i] == s[i - 1];
      }
    }
  }

  /** `Array.prototype.sort` with a comparator by ascending key (a stable sort). */
  function SortBy<T>(s: seq<T>, key: T -> real): (r: seq<T>)
    ensures SortedBy(r, key)
    ensures multiset(r) == multiset(s)
  {
    if s == [] then []
    else
      assert s == [s[0]] + s[1..];
      Insert(s[0], SortBy(s[1..], key), key)
  }

  /** `Array.prototype.filter`. */
  function Filter<T(!new)>(s: seq<T>, keep: T -> bool): (r: seq<T>)
    ensures forall i :: 0 <= i < |r| ==> keep(r[i])
    ensures forall x :: multiset(r)[x] == if keep(x) then multiset(s)[x] else 0
    ensures multiset(r) <= multiset(s)
  {
    if s == [] then []
    else
      assert s == [s[0]] + s[1..];
      (if keep(s[0]) then [s[0]] else []) + Filter(s[1..], keep)
  }

  /** `slice(0, n)`. */
  function Take<T>(s: seq<T>, n: nat): (r: seq<T>)
    ensures |r| <= n && |r| <= |s| && r == s[..|r|]
    ensures |s| <= n ==> r == s
    ensures |s| > n ==> |r| == n
  {
    if |s| <= n then s else s[..n]
  }

  /** An element of a sorted list that the first `n` miss has a key no smaller than theirs. */
  lemma TakeOfSorted<T>(s: seq<T>, key: T -> real, n: nat, x: T)
    requires SortedBy(s, key) && x in s && x !in Take(s, n)
    ensures |Take(s, n)| == n
    ensures forall i :: 0 <= i < n ==> key(Take(s, n)[i]) <= key(x)
  {
    var k :| 0 <= k < |s| && s[k] == x;
    var r := Take(s, n);
    assert forall i :: 0 <= i < |r| ==> r[i] == s[i] && r[i] in r;
    assert k >= |r|;
  }

  /**
   * `filter(keep).sort(by key).slice(0, n)`: at most `n` kept elements drawn
   * from `s`, by non-decreasing key; a kept element left out has a key no
   * smaller than each of the `n` selected.
   */
  function SelectTop<T(!new)>(s: seq<T>, keep: T -> bool, key: T -> real, n: nat): (r: seq<T>)
    ensures |r| <= n
    ensures forall i :: 0 <= i < |r| ==> keep(r[i])
    ensures SortedBy(r, key)
    ensures multiset(r) <= multiset(s)
    ensures forall x :: x in s && keep(x) && x !in r ==>
              |r| == n && forall i :: 0 <= i < |r| ==> key(r[i]) <= key(x)
  {
    var candidates := Filter(s, keep);
    var sorted := SortBy(candidates, key);
    var r := Take(sorted, n);
    SelectTopFacts(s, keep, key, n, candidates, sorted, r);
    r
  }

  lemma SelectTopFacts<T(!new)>(s: seq<T>, keep: T -> bool, key: T -> real, n: nat,
                                candidates: seq<T>, sorted: seq<T>, r: seq<T>)
    requires candidates == Filter(s, keep) && sorted == SortBy(candidates, key) && r == Take(sorted, n)
    ensures forall i :: 0 <= i < |r| ==> keep(r[i])
    ensures SortedBy(r, key)
    ensures multiset(r) <= multiset(s)
    ensures forall x :: x in s && keep(x) && x !in r ==>
              |r| == n && forall i :: 0 <= i < |r| ==> key(r[i]) <= key(x)
  {
    TakeSubMultiset(sorted, n);
    TakeSorted(sorted, key, n);
    SelectedKept(keep, candidates, sorted, r);
    forall x | x in s && keep(x) && x !in r
      ensures |r| == n && forall i :: 0 <= i < |r| ==> key(r[i]) <= key(x)
    {
      FilterKeeps(s, keep, x);
      assert x in multiset(sorted);
      TakeOfSorted(sorted, key, n, x);
    }
  }

  /** An element of the list that passes the filter is in the filtered list. */
  lemma FilterKeeps<T(!new)>(s: seq<T>, keep: T -> bool, x: T)
    requires x in s && keep(x)
    ensures x in multiset(Filter(s, keep))
  {
    assert multiset(s)[x] > 0;
  }

  /** Every element taken from a sorted copy of the filtered list passes the filter. */
  lemma SelectedKept<T>(keep: T -> bool, candidates: seq<T>, sorted: seq<T>, r: seq<T>)
    requires forall i :: 0 <= i < |candidates| ==> keep(candidates[i])
    requires multiset(sorted) == multiset(candidates)
    requires multiset(r) <= multiset(sorted)
    ensures forall i :: 0 <= i < |r| ==> keep(r[i])
  {
    forall i | 0 <= i < |r|
      ensures keep(r[i])
    {
      assert r[i] in multiset(r);
      assert r[i] in multiset(candidates);
      var k :| 0 <= k < |candidates| && candidates[k] == r[i];
    }
  }

  lemma TakeSorted<T>(s: seq<T>, key: T -> real, n: nat)
    requires SortedBy(s, key)
    ensures SortedBy(Take(s, n), key)
  {
    var r := Take(s, n);
    forall i, j | 0 <= i < j < |r|
      ensures key(r[i]) <= key(r[j])
    {
      assert r[i] == s[i] && r[j] == s[j];
    }
  }

  lemma TakeSubMultiset<T>(s: seq<T>, n: nat)
    ensures multiset(Take(s, n)) <= multiset(s)
  {
    var r := Take(s, n);
    assert s == r + s[|r|..];
  }

  /** A store's ranking score, its best discount. */
  function Score(s: Store): real {
    MaxPromotionValue(s.promotions)
  }

  function NegatedScore(s: Store): real {
    -Score(s)
  }

  /** `score > 0`: the stores the discount list considers. */
  predicate HasPositiveScore(s: Store) {
    Score(s) > 0.0
  }

  /**
   * `topDiscountStores`: at most six stores with a positive score, by
   * non-increasing score, drawn from the input; any positive-scored store left
   * out scores no more than each of the six kept.
   */
  function TopDiscountStores(stores: seq<Store>): (r: seq<Store>)
    ensures |r| <= 6
    ensures forall i :: 0 <= i < |r| ==> Score(r[i]) > 0.0
    ensures forall i, j :: 0 <= i < j < |r| ==> Score(r[i]) >= Score(r[j])
    ensures multiset(r) <= multiset(stores)
    ensures forall s :: s in stores && Score(s) > 0.0 && s !in r ==>
              |r| == 6 && forall i :: 0 <= i < |r| ==> Score(r[i]) >= Score(s)
  {
    var r := SelectTop(stores, HasPositiveScore, NegatedScore, 6);
    TopDiscountFacts(stores, r);
    r
  }

  /** The selection's facts about the negated score, read back as facts about the score. */
  lemma TopDiscountFacts(stores: seq<Store>, r: seq<Store>)
    requires forall i :: 0 <= i < |r| ==> HasPositiveScore(r[i])
    requires SortedBy(r, NegatedScore)
    requires forall x :: x in stores && HasPositiveScore(x) && x !in r ==>
               |r| == 6 && forall i :: 0 <= i < |r| ==> NegatedScore(r[i]) <= NegatedScore(x)
    ensures forall i :: 0 <= i < |r| ==> Score(r[i]) > 0.0
    ensures forall i, j :: 0 <= i < j < |r| ==> Score(r[i]) >= Score(r[j])
    ensures forall s :: s in stores && Score(s) > 0.0 && s !in r ==>
              |r| == 6 && forall i :: 0 <= i < |r| ==> Score(r[i]) >= Score(s)
  {
    forall i | 0 <= i < |r|
      ensures Score(r[i]) > 0.0
    {
      assert HasPositiveScore(r[i]);
    }
    forall i, j | 0 <= i < j < |r|
      ensures Score(r[i]) >= Score(r[j])
    {
      assert NegatedScore(r[i]) <= NegatedScore(r[j]);
    }
    forall s | s in stores && Score(s) > 0.0 && s !in r
      ensures |r| == 6 && forall i :: 0 <= i < |r| ==> Score(r[i]) >= Score(s)
    {
      assert HasPositiveScore(s);
      assert forall i :: 0 <= i < |r| ==> NegatedScore(r[i]) <= NegatedScore(s);
    }
  }

  /** The distance key of a store; every store that reaches the sort has a distance. */
  function DistanceKey(s: Store): real {
    if s.distanceKm.Some? then s.distanceKm.value else 0.0
  }

  /**
   * `nearbyStores`: at most six stores that have a distance, by non-decreasing
   * distance, drawn from the input; any store with a distance left out is no
   * nearer than each of the six kept.
   */
  function NearbyStores(stores: seq<Store>): (r: seq<Store>)
    ensures |r| <= 6
    ensures forall i :: 0 <= i < |r| ==> r[i].distanceKm.Some?
    ensures forall i, j :: 0 <= i < j < |r| ==> r[i].distanceKm.value <= r[j].distanceKm.value
    ensures multiset(r) <= multiset(stores)
    ensures forall s :: s in stores && s.distanceKm.Some? && s !in r ==>
              |r| == 6 && forall i :: 0 <= i < |r| ==> r[i].distanceKm.value <= s.distanceKm.value
  {
    var r := SelectTop(stores, HasDistance, DistanceKey, 6);
    NearbyFacts(stores, r);
    r
  }

  /** `store.distance_km != null`: the stores the nearby list considers. */
  predicate HasDistance(s: Store) {
    s.distanceKm.Some?
  }

  /** The selection's facts about the distance key, read back as facts about the distance. */
  lemma NearbyFacts(stores: seq<Store>, r: seq<Store>)
    requires forall i :: 0 <= i < |r| ==> HasDistance(r[i])
    requires SortedBy(r, DistanceKey)
    requires forall x :: x in stores && HasDistance(x) && x !in r ==>
               |r| == 6 && forall i :: 0 <= i < |r| ==> DistanceKey(r[i]) <= DistanceKey(x)
    ensures forall i :: 0 <= i < |r| ==> r[i].distanceKm.Some?
    ensures forall i, j :: 0 <= i < j < |r| ==> r[i].distanceKm.value <= r[j].distanceKm.value
    ensures forall s :: s in stores && s.distanceKm.Some? && s !in r ==>
              |r| == 6 && forall i :: 0 <= i < |r| ==> r[i].distanceKm.value <= s.distanceKm.value
  {
    forall i | 0 <= i < |r|
      ensures r[i].distanceKm.Some?
    {
      assert HasDistance(r[i]);
    }
    forall i, j | 0 <= i < j < |r|
      ensures r[i].distanceKm.value <= r[j].distanceKm.value
    {
      assert DistanceKey(r[i]) <= DistanceKey(r[j]);
    }
    forall s | s in stores && s.distanceKm.Some? && s !in r
      ensures |r| == 6 && forall i :: 0 <= i < |r| ==> r[i].distanceKm.value <= s.distanceKm.value
    {
      assert HasDistance(s);
      assert forall i :: 0 <= i < |r| ==> DistanceKey(r[i]) <= DistanceKey(s);
    }
  }

  // ----- links -------------------------------------------------------------------

  /** `userLocation`: present when either coordinate parameter is truthy. */
  function UserLocation(lat: Option<string>, lon: Option<string>): (r: Option<(Option<string>, Option<string>)>)
    ensures r.Some? <==> TruthyText(lat) || TruthyText(lon)
    ensures r.Some? ==> r.value == (lat, lon)
  {
    if TruthyText(lat) || TruthyText(lon) then Some((lat, lon)) else None
  }

  /**
   * `mapParams`/`mapHref`: the map link carries exactly the truthy fields, in
   * the order query, sort, lat, lon, and is `/mapa` alone when none is given.
   */
  method BuildMapHref(query: Option<string>, sort: Option<string>, lat: Option<string>, lon: Option<string>,
                      encode: string -> string)
    returns (params: seq<Pair>, href: string)
    ensures params == TruthyPairs(SearchFields(query, sort, lat, lon))
    ensures href == if params == [] then "/mapa" else "/mapa?" + Serialize(params, encode)
  {
    params, href := SearchLink("/mapa?", "/mapa", query, sort, lat, lon, encode);
  }
}
