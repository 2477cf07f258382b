/** Row selection shared by the list endpoints and the dispatch sweep:
    `where <filter> order by created_at desc|asc limit n`, over a table whose
    position order is its creation order. Results are row positions. */
module Listing {

  /** Positions below `hi` of rows that `keep` accepts, newest first, at most
      `limit` of them; a matching row is left out only when `limit` newer
      matching rows were taken. */
  function NewestMatching<T>(rows: seq<T>, keep: T -> bool, limit: nat, hi: nat): (r: seq<nat>)
    requires hi <= |rows|
    ensures |r| <= limit
    ensures forall i :: 0 <= i < |r| ==> r[i] < hi && keep(rows[r[i]])
    ensures forall i, j :: 0 <= i < j < |r| ==> r[i] > r[j]
    ensures forall k :: 0 <= k < hi && keep(rows[k]) && k !in r ==>
              |r| == limit && forall i :: 0 <= i < |r| ==> r[i] > k
    decreases hi
  {
    if hi == 0 || limit == 0 then []
    else if keep(rows[hi - 1]) then [hi - 1] + NewestMatching(rows, keep, limit - 1, hi - 1)
    else NewestMatching(rows, keep, limit, hi - 1)
  }

  /** Positions from `lo` on of rows that `keep` accepts, oldest first, at
      most `limit` of them; a matching row is left out only when `limit`
      older matching rows were taken. */
  function OldestMatching<T>(rows: seq<T>, keep: T -> bool, limit: nat, lo: nat): (r: seq<nat>)
    requires lo <= |rows|
    ensures |r| <= limit
    ensures forall i :: 0 <= i < |r| ==> lo <= r[i] < |rows| && keep(rows[r[i]])
    ensures forall i, j :: 0 <= i < j < |r| ==> r[i] < r[j]
    ensures forall k :: lo <= k < |rows| && keep(rows[k]) && k !in r ==>
              |r| == limit && forall i :: 0 <= i < |r| ==> r[i] < k
    decreases |rows| - lo
  {
    if lo == |rows| || limit == 0 then []
    else if keep(rows[lo]) then [lo] + OldestMatching(rows, keep, limit - 1, lo + 1)
    else OldestMatching(rows, keep, limit, lo + 1)
  }

  /** Positions of all rows that `keep` accepts, in table order (a filter
      with no ORDER BY and no LIMIT). */
  function Matching<T>(rows: seq<T>, keep: T -> bool): (r: seq<nat>)
    ensures forall k: nat :: k in r <==> k < |rows| && keep(rows[k])
    ensures forall i, j :: 0 <= i < j < |r| ==> r[i] < r[j]
  {
    if rows == [] then []
    else
      var n := |rows| - 1;
      var init := Matching(rows[..n], keep);
      assert forall k :: 0 <= k < n ==> rows[..n][k] == rows[k];
      assert forall i :: 0 <= i < |init| ==> init[i] in init && init[i] < n;
      if keep(rows[n]) then init + [n] else init
  }
}
