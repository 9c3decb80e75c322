/** Integer resource vectors and the element-wise operations the engine uses on
    them. Pairwise operations walk the two vectors together and stop at the
    end of the shorter one, as a pairwise zip does. */
module Vectors {

  function Min(x: nat, y: nat): nat {
    if x <= y then x else y
  }

  /** The components of `a` that are strictly greater than the matching
      component of `b`, in order (the list the comparator builds). */
  function Exceeding(a: seq<int>, b: seq<int>): (res: seq<int>)
    ensures |res| <= Min(|a|, |b|)
    ensures res != [] <==> exists i :: 0 <= i < |a| && i < |b| && a[i] > b[i]
  {
    if |a| == 0 || |b| == 0 then []
    else
      var rest := Exceeding(a[1..], b[1..]);
      assert rest != [] ==> exists i :: 0 <= i < |a| && i < |b| && a[i] > b[i] by {
        if rest != [] {
          var j :| 0 <= j < |a[1..]| && j < |b[1..]| && a[1..][j] > b[1..][j];
          assert a[j + 1] > b[j + 1];
        }
      }
      assert (exists i :: 0 <= i < |a| && i < |b| && a[i] > b[i]) ==> a[0] > b[0] || rest != [] by {
        if exists i :: 0 <= i < |a| && i < |b| && a[i] > b[i] {
          var i :| 0 <= i < |a| && i < |b| && a[i] > b[i];
          if i > 0 {
            assert a[1..][i - 1] > b[1..][i - 1];
          }
        }
      }
      (if a[0] > b[0] then [a[0]] else []) + rest
  }

  /** Element-wise "a <= b" over the common prefix: the comparison a
      resource-sufficiency test conventionally means. */
  predicate AllLe(a: seq<int>, b: seq<int>) {
    forall i :: 0 <= i < |a| && i < |b| ==> a[i] <= b[i]
  }

  /** The engine's vector gate. It holds when SOME component of `a` exceeds
      the matching component of `b`, i.e. it is the negation of `AllLe`. */
  function AnyGreater(a: seq<int>, b: seq<int>): (r: bool)
    ensures r <==> exists i :: 0 <= i < |a| && i < |b| && a[i] > b[i]
    ensures r <==> !AllLe(a, b)
  {
    Exceeding(a, b) != []
  }

  /** Component-wise sum. */
  function Add(a: seq<int>, b: seq<int>): (r: seq<int>)
    ensures |r| == Min(|a|, |b|)
    ensures forall i :: 0 <= i < |r| ==> r[i] == a[i] + b[i]
  {
    seq(Min(|a|, |b|), i requires 0 <= i < Min(|a|, |b|) => a[i] + b[i])
  }

  /** Component-wise difference. */
  function Sub(a: seq<int>, b: seq<int>): (r: seq<int>)
    ensures |r| == Min(|a|, |b|)
    ensures forall i :: 0 <= i < |r| ==> r[i] == a[i] - b[i]
  {
    seq(Min(|a|, |b|), i requires 0 <= i < Min(|a|, |b|) => a[i] - b[i])
  }

  /** Every row of `rows` has a component `k`. */
  predicate HasColumn(rows: seq<seq<int>>, k: nat) {
    forall i :: 0 <= i < |rows| ==> k < |rows[i]|
  }

  /** Sum of component `k` over all rows. */
  function ColumnSum(rows: seq<seq<int>>, k: nat): int
    requires HasColumn(rows, k)
  {
    if rows == [] then 0 else rows[0][k] + ColumnSum(rows[1..], k)
  }

  /** Replacing one row changes the column sum by exactly the difference of
      that row's component. */
  lemma {:induction false} ColumnSumUpdate(rows: seq<seq<int>>, p: nat, row: seq<int>, k: nat)
    requires HasColumn(rows, k) && p < |rows| && k < |row|
    ensures HasColumn(rows[p := row], k)
    ensures ColumnSum(rows[p := row], k) == ColumnSum(rows, k) - rows[p][k] + row[k]
  {
    if p > 0 {
      ColumnSumUpdate(rows[1..], p - 1, row, k);
      assert rows[p := row][1..] == rows[1..][p - 1 := row];
    } else {
      assert rows[p := row][1..] == rows[1..];
    }
  }
}
