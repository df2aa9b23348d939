/**
 * The landing page of deals/views.py (`DealListView.get_queryset`): the
 * most recently dated deals, latest first.
 */
module Listing {
  import opened Deals

  /** How many deals the landing page lists. */
  const RecentLimit: nat := 5

  /** Dates never increase along the sequence. */
  predicate SortedByDateDesc(s: seq<Deal>)
  {
    forall i, j :: 0 <= i < j < |s| ==> s[i].dealDate >= s[j].dealDate
  }

  /** No deal of the sequence is dated after `day`. */
  predicate NoneLaterThan(s: seq<Deal>, day: Day)
  {
    forall i :: 0 <= i < |s| ==> s[i].dealDate <= day
  }

  /** Whether no deal is dated after `day` depends only on which deals there are. */
  lemma NoneLaterThanPermutation(s: seq<Deal>, t: seq<Deal>, day: Day)
    requires multiset(s) == multiset(t)
    requires NoneLaterThan(t, day)
    ensures NoneLaterThan(s, day)
  {
    forall i | 0 <= i < |s| ensures s[i].dealDate <= day {
      assert s[i] in multiset(t);
      var j :| 0 <= j < |t| && t[j] == s[i];
    }
  }

  /** Insert a deal into a list sorted latest first. */
  function InsertByDate(d: Deal, s: seq<Deal>): (r: seq<Deal>)
    requires SortedByDateDesc(s)
    ensures SortedByDateDesc(r)
    ensures multiset(r) == multiset(s) + multiset{d}
  {
    if s == [] then [d]
    else if d.dealDate >= s[0].dealDate then [d] + s
    else
      var rest := InsertByDate(d, s[1..]);
      assert s == [s[0]] + s[1..];
      assert NoneLaterThan(s[1..] + [d], s[0].dealDate);
      NoneLaterThanPermutation(rest, s[1..] + [d], s[0].dealDate);
      [s[0]] + rest
  }

  /** `order_by('-deal_date')`: the deals rearranged latest first. */
  function OrderByDateDesc(s: seq<Deal>): (r: seq<Deal>)
    ensures SortedByDateDesc(r)
    ensures multiset(r) == multiset(s)
  {
    if s == [] then []
    else
      assert s == [s[0]] + s[1..];
      InsertByDate(s[0], OrderByDateDesc(s[1..]))
  }

  function Min(a: nat, b: nat): nat
  {
    if a <= b then a else b
  }

  /** Each deal cut off the end of a sorted list is dated no later than every deal kept. */
  lemma SortedSuffixNoLater(s: seq<Deal>, k: nat)
    requires SortedByDateDesc(s) && k <= |s|
    ensures forall d, i :: d in multiset(s[k..]) && 0 <= i < k ==> d.dealDate <= s[i].dealDate
  {
  }

  /** Cutting a sequence in two splits its multiset in two. */
  lemma SplitMultiset(s: seq<Deal>, k: nat)
    requires k <= |s|
    ensures multiset(s[..k]) <= multiset(s)
    ensures multiset(s) - multiset(s[..k]) == multiset(s[k..])
  {
    assert s == s[..k] + s[k..];
  }

  /**
   * The first `k` deals of a sorted rearrangement of the store are sorted,
   * come from the store, and are dated no earlier than any deal left out.
   */
  lemma SortedPrefixIsLatest(ordered: seq<Deal>, store: seq<Deal>, k: nat)
    requires SortedByDateDesc(ordered) && multiset(ordered) == multiset(store)
    requires k <= |ordered|
    ensures SortedByDateDesc(ordered[..k])
    ensures multiset(ordered[..k]) <= multiset(store)
    ensures forall d, i :: d in multiset(store) - multiset(ordered[..k]) && 0 <= i < k ==>
      d.dealDate <= ordered[..k][i].dealDate
  {
    SplitMultiset(ordered, k);
    SortedSuffixNoLater(ordered, k);
  }

  /**
   * `get_queryset`: the first five deals of the store ordered latest first.
   * Deals on the same date may come in any order.
   */
  function RecentDeals(store: seq<Deal>): (r: seq<Deal>)
    ensures |r| == Min(RecentLimit, |store|)
    ensures SortedByDateDesc(r)
    ensures multiset(r) <= multiset(store)
    ensures forall d, i :: d in multiset(store) - multiset(r) && 0 <= i < |r| ==> d.dealDate <= r[i].dealDate
  {
    var ordered := OrderByDateDesc(store);
    assert |ordered| == |multiset(ordered)| == |store|;
    var k := Min(RecentLimit, |store|);
    SortedPrefixIsLatest(ordered, store, k);
    ordered[..k]
  }
}
