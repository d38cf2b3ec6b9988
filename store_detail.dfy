/**
 * The store page's branch list: each branch gets a distance from the user when
 * both the user's and the branch's coordinates are known, and the list is
 * sorted by distance (unknown distances last) or by rating (a missing rating
 * counts as 0, best first). `parseFloat` and `calculateDistance` are
 * parameters.
 */
module StoreDetail {
  import opened Js

  datatype BranchDetails = BranchDetails(
    rating: Option<real>,
    userRatingsTotal: Option<real>,
    phoneNumber: Option<string>)

  datatype Branch = Branch(
    id: string,
    name: string,
    address: string,
    latitude: Option<real>,
    longitude: Option<real>,
    details: Option<BranchDetails>,
    distance: Option<real>)

  // ----- distances ------------------------------------------------------------------

  /**
   * `{ ...branch, distance }`: the distance is computed only when the user's
   * `lat` and `lon` and the branch's latitude and longitude are all truthy (a
   * coordinate of 0 is not); otherwise it is absent. No other field changes.
   */
  function WithDistance(b: Branch, userLat: Option<string>, userLon: Option<string>,
                        parseFloat: string -> real, calculateDistance: (real, real, real, real) -> real): (r: Branch)
    ensures r.(distance := b.distance) == b
    ensures r.distance.Some? <==>
              TruthyText(userLat) && TruthyText(userLon) && TruthyNumber(b.latitude) && TruthyNumber(b.longitude)
    ensures r.distance.Some? ==>
              r.distance.value
              == calculateDistance(parseFloat(userLat.value), parseFloat(userLon.value), b.latitude.value, b.longitude.value)
  {
    if TruthyText(userLat) && TruthyText(userLon) && TruthyNumber(b.latitude) && TruthyNumber(b.longitude) then
      b.(distance := Some(calculateDistance(parseFloat(userLat.value), parseFloat(userLon.value),
                                            b.latitude.value, b.longitude.value)))
    else
      b.(distance := None)
  }

  /** `store.branches.map(...)`: a new list, one branch with its distance per original branch. */
  function WithDistances(bs: seq<Branch>, userLat: Option<string>, userLon: Option<string>,
                         parseFloat: string -> real, calculateDistance: (real, real, real, real) -> real)
    : (r: seq<Branch>)
    ensures |r| == |bs|
    ensures forall i :: 0 <= i < |bs| ==> r[i] == WithDistance(bs[i], userLat, userLon, parseFloat, calculateDistance)
  {
    seq(|bs|, i requires 0 <= i < |bs| => WithDistance(bs[i], userLat, userLon, parseFloat, calculateDistance))
  }

  // ----- the two orders -------------------------------------------------------------

  datatype SortOrder = ByDistance | ByRating

  /** `branch_details?.rating ?? 0`. */
  function Rating(b: Branch): real {
    if b.details.Some? && b.details.value.rating.Some? then b.details.value.rating.value else 0.0
  }

  /**
   * Whether `a` may come before `b`: in distance order an absent distance
   * counts as infinity (two absent ones compare equal); in rating order the
   * higher rating comes first.
   */
  predicate Leq(order: SortOrder, a: Branch, b: Branch) {
    match order
    case ByDistance => b.distance.None? || (a.distance.Some? && a.distance.value <= b.distance.value)
    case ByRating => Rating(a) >= Rating(b)
  }

  lemma LeqTotal(order: SortOrder, a: Branch, b: Branch)
    ensures Leq(order, a, b) || Leq(order, b, a)
  {
  }

  lemma LeqTransitive(order: SortOrder, a: Branch, b: Branch, c: Branch)
    requires Leq(order, a, b) && Leq(order, b, c)
    ensures Leq(order, a, c)
  {
  }

  ghost predicate Sorted(s: seq<Branch>, order: SortOrder) {
    forall i, j :: 0 <= i < j < |s| ==> Leq(order, s[i], s[j])
  }

  /** In distance order, distances do not decrease and every branch without one comes last. */
  lemma SortedByDistance(s: seq<Branch>)
    requires Sorted(s, ByDistance)
    ensures forall i, j :: 0 <= i < j < |s| && s[i].distance.None? ==> s[j].distance.None?
    ensures forall i, j :: 0 <= i < j < |s| && s[j].distance.Some? ==>
              s[i].distance.Some? && s[i].distance.value <= s[j].distance.value
  {
    forall i, j | 0 <= i < j < |s|
      ensures Leq(ByDistance, s[i], s[j])
    {
    }
  }

  /** In rating order, ratings (a missing one read as 0) do not increase. */
  lemma SortedByRating(s: seq<Branch>)
    requires Sorted(s, ByRating)
    ensures forall i, j :: 0 <= i < j < |s| ==> Rating(s[i]) >= Rating(s[j])
  {
    forall i, j | 0 <= i < j < |s|
      ensures Leq(ByRating, s[i], s[j])
    {
    }
  }

  // ----- the in-place sort ---------------------------------------------------------

  /** Exchanges two neighbouring elements. */
  method SwapAdjacent(a: array<Branch>, j: int)
    requires 0 < j < a.Length
    modifies a
    ensures a[..] == old(a[..])[j - 1 := old(a[j])][j := old(a[j - 1])]
    ensures multiset(a[..]) == multiset(old(a[..]))
  {
    a[j - 1], a[j] := a[j], a[j - 1];
  }

  /** `branchesWithDistance.sort(comparator)`: an insertion sort by adjacent exchanges. */
  method SortInPlace(a: array<Branch>, order: SortOrder)
    modifies a
    ensures Sorted(a[..], order)
    ensures multiset(a[..]) == multiset(old(a[..]))
  {
    var i := 0;
    while i < a.Length
      invariant 0 <= i <= a.Length
      invariant forall p, q :: 0 <= p < q < i ==> Leq(order, a[p], a[q])
      invariant multiset(a[..]) == multiset(old(a[..]))
    {
      var j := i;
      while j > 0 && !Leq(order, a[j - 1], a[j])
        invariant 0 <= j <= i
        invariant forall p, q :: 0 <= p < q <= i && q != j ==> Leq(order, a[p], a[q])
        invariant 0 < j < i ==> Leq(order, a[j - 1], a[j + 1])
        invariant multiset(a[..]) == multiset(old(a[..]))
      {
        LeqTotal(order, a[j - 1], a[j]);
        SwapAdjacent(a, j);
        j := j - 1;
        forall p, q | 0 <= p < q <= i && q != j
          ensures Leq(order, a[p], a[q])
        {
          if p == j && q > j + 1 {
            LeqTransitive(order, a[j], a[j + 1], a[q]);
          }
        }
      }
      i := i + 1;
    }
  }

  /**
   * `sortedBranches`: the branches with their distances, sorted in the chosen
   * order; the result is a permutation of the mapped list, and `store.branches`
   * itself is only read.
   */
  method SortedBranches(branches: array<Branch>, order: SortOrder, userLat: Option<string>, userLon: Option<string>,
                        parseFloat: string -> real, calculateDistance: (real, real, real, real) -> real)
    returns (sorted: seq<Branch>)
    ensures multiset(sorted) == multiset(WithDistances(branches[..], userLat, userLon, parseFloat, calculateDistance))
    ensures Sorted(sorted, order)
  {
    var mapped := WithDistances(branches[..], userLat, userLon, parseFloat, calculateDistance);
    var work := new Branch[|mapped|](i requires 0 <= i < |mapped| => mapped[i]);
    assert work[..] == mapped;
    SortInPlace(work, order);
    sorted := work[..];
  }
}
