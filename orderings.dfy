/** Orderings of process indices: the enumeration of every permutation of a
    list, proved to produce each permutation exactly once. */
module Orderings {

  predicate NoDuplicates<T(==)>(s: seq<T>) {
    forall i, j :: 0 <= i < j < |s| ==> s[i] != s[j]
  }

  /** `p` arranges the distinct elements of `xs` in some order. */
  ghost predicate IsPermutationOf(p: seq<int>, xs: seq<int>) {
    |p| == |xs| && NoDuplicates(p) && forall k :: 0 <= k < |p| ==> p[k] in xs
  }

  /** `o` lists each of the process indices 0 .. n-1 exactly once. */
  ghost predicate IsOrdering(o: seq<int>, n: nat) {
    |o| == n && NoDuplicates(o) && forall k :: 0 <= k < |o| ==> 0 <= o[k] < n
  }

  /** The indices 0 .. n-1 in increasing order. */
  function Range(n: nat): (r: seq<int>)
    ensures |r| == n && NoDuplicates(r)
    ensures forall x :: x in r <==> 0 <= x < n
  {
    var r := seq(n, i requires 0 <= i < n => i);
    forall x ensures x in r <==> 0 <= x < n {
      if 0 <= x < n { assert r[x] == x; }
      if x in r { var i :| 0 <= i < n && r[i] == x; }
    }
    r
  }

  /** `xs` with its element at position i taken out. */
  function Remove(xs: seq<int>, i: nat): (r: seq<int>)
    requires i < |xs|
    ensures |r| == |xs| - 1
  {
    xs[..i] + xs[i + 1..]
  }

  /** Taking out one element of a list without duplicates leaves exactly
      the other elements, still without duplicates. */
  lemma RemoveContents(xs: seq<int>, i: nat)
    requires i < |xs| && NoDuplicates(xs)
    ensures NoDuplicates(Remove(xs, i))
    ensures forall x :: x in Remove(xs, i) <==> x in xs && x != xs[i]
  {
    var r := Remove(xs, i);
    forall x | x in xs && x != xs[i] ensures x in r {
      var j :| 0 <= j < |xs| && xs[j] == x;
      if j < i { assert r[j] == x; } else { assert r[j - 1] == x; }
    }
    forall x | x in r ensures x in xs && x != xs[i] {
      var j :| 0 <= j < |r| && r[j] == x;
      if j < i { assert xs[j] == x; } else { assert xs[j + 1] == x; }
    }
    forall a, b | 0 <= a < b < |r| ensures r[a] != r[b] {
      var a' := if a < i then a else a + 1;
      var b' := if b < i then b else b + 1;
      assert r[a] == xs[a'] && r[b] == xs[b'];
    }
  }

  /** `x` put in front of every list of `ps`. */
  function Prepend(x: int, ps: seq<seq<int>>): (r: seq<seq<int>>)
    ensures |r| == |ps|
    ensures forall j :: 0 <= j < |ps| ==> r[j] == [x] + ps[j]
  {
    seq(|ps|, j requires 0 <= j < |ps| => [x] + ps[j])
  }

  /** All orderings of `xs`: for each position in turn, its element followed
      by every ordering of the others. */
  function Permutations(xs: seq<int>): seq<seq<int>>
    decreases |xs|, 1, 0
  {
    if |xs| == 0 then [[]] else PermutationsFrom(xs, 0)
  }

  function PermutationsFrom(xs: seq<int>, i: nat): seq<seq<int>>
    requires i <= |xs|
    decreases |xs|, 0, |xs| - i
  {
    if i == |xs| then []
    else Prepend(xs[i], Permutations(Remove(xs, i))) + PermutationsFrom(xs, i + 1)
  }

  /** A list in the block list built from position i onwards is some xs[j],
      j at i or later, followed by an ordering of the others. */
  lemma {:induction false} PermutationsFromShape(xs: seq<int>, i: nat, p: seq<int>) returns (j: nat)
    requires i <= |xs| && p in PermutationsFrom(xs, i)
    ensures i <= j < |xs| && |p| > 0 && p == [xs[j]] + p[1..] && p[1..] in Permutations(Remove(xs, j))
    decreases |xs| - i
  {
    assert i < |xs|;
    var ps := Permutations(Remove(xs, i));
    var block := Prepend(xs[i], ps);
    assert PermutationsFrom(xs, i) == block + PermutationsFrom(xs, i + 1);
    if p in block {
      var k :| 0 <= k < |block| && block[k] == p;
      assert p[1..] == ps[k];
      j := i;
    } else {
      j := PermutationsFromShape(xs, i + 1, p);
    }
  }

  /** Every enumerated list is a permutation of `xs`. */
  lemma {:induction false} PermutationsSound(xs: seq<int>, p: seq<int>)
    requires NoDuplicates(xs) && p in Permutations(xs)
    ensures IsPermutationOf(p, xs)
    decreases |xs|
  {
    if |xs| > 0 {
      var j := PermutationsFromShape(xs, 0, p);
      RemoveContents(xs, j);
      PermutationsSound(Remove(xs, j), p[1..]);
      forall a, b | 0 <= a < b < |p| ensures p[a] != p[b] {
        if a == 0 {
          assert p[b] == p[1..][b - 1];
          assert p[b] in Remove(xs, j);
        } else {
          assert p[a] == p[1..][a - 1] && p[b] == p[1..][b - 1];
        }
      }
      forall k | 0 <= k < |p| ensures p[k] in xs {
        if k > 0 { assert p[k] == p[1..][k - 1]; }
      }
    }
  }

  /** A permutation of a non-empty `xs` is one element of `xs` followed by a
      permutation of the others. */
  lemma PermutationTail(xs: seq<int>, p: seq<int>) returns (j: nat)
    requires NoDuplicates(xs) && IsPermutationOf(p, xs) && |xs| > 0
    ensures j < |xs| && xs[j] == p[0]
    ensures IsPermutationOf(p[1..], Remove(xs, j))
  {
    j :| 0 <= j < |xs| && xs[j] == p[0];
    RemoveContents(xs, j);
    var q := p[1..];
    forall k | 0 <= k < |q| ensures q[k] in Remove(xs, j) {
      assert q[k] == p[k + 1] && p[k + 1] != p[0];
    }
    assert NoDuplicates(q) by {
      forall a, b | 0 <= a < b < |q| ensures q[a] != q[b] {
        assert q[a] == p[a + 1] && q[b] == p[b + 1];
      }
    }
  }

  /** The block list from position i onwards contains xs[j] followed by each
      ordering of the others, for every j from i on. */
  lemma {:induction false} PermutationsFromIncludes(xs: seq<int>, i: nat, j: nat, q: seq<int>)
    requires i <= j < |xs| && q in Permutations(Remove(xs, j))
    ensures [xs[j]] + q in PermutationsFrom(xs, i)
    decreases j - i
  {
    if i == j {
      var ps := Permutations(Remove(xs, j));
      var k :| 0 <= k < |ps| && ps[k] == q;
      assert Prepend(xs[j], ps)[k] == [xs[j]] + q;
    } else {
      PermutationsFromIncludes(xs, i + 1, j, q);
    }
  }

  /** Every permutation of `xs` is enumerated. */
  lemma {:induction false} PermutationsComplete(xs: seq<int>, p: seq<int>)
    requires NoDuplicates(xs) && IsPermutationOf(p, xs)
    ensures p in Permutations(xs)
    decreases |xs|
  {
    if |xs| > 0 {
      var j := PermutationTail(xs, p);
      RemoveContents(xs, j);
      PermutationsComplete(Remove(xs, j), p[1..]);
      PermutationsFromIncludes(xs, 0, j, p[1..]);
      assert p == [xs[j]] + p[1..];
    } else {
      assert p == [];
    }
  }

  /** A permutation of `xs` contains every element of `xs`. */
  lemma {:induction false} PermutationCovers(xs: seq<int>, p: seq<int>)
    requires NoDuplicates(xs) && IsPermutationOf(p, xs)
    ensures forall x :: x in xs ==> x in p
    decreases |xs|
  {
    if |xs| > 0 {
      var j := PermutationTail(xs, p);
      RemoveContents(xs, j);
      PermutationCovers(Remove(xs, j), p[1..]);
      forall x | x in xs ensures x in p {
        if x != xs[j] { assert x in p[1..]; }
      }
    }
  }

  /** An ordering of n processes names every one of them. */
  lemma OrderingCovers(o: seq<int>, n: nat)
    requires IsOrdering(o, n)
    ensures forall x :: 0 <= x < n ==> x in o
  {
    PermutationCovers(Range(n), o);
  }

  /** The block list from position i onwards holds no list twice. */
  lemma {:induction false} PermutationsFromDistinct(xs: seq<int>, i: nat)
    requires NoDuplicates(xs) && 0 < |xs| && i <= |xs|
    ensures NoDuplicates(PermutationsFrom(xs, i))
    decreases |xs|, |xs| - i
  {
    if i < |xs| {
      PermutationsFromDistinct(xs, i + 1);
      RemoveContents(xs, i);
      PermutationsDistinct(Remove(xs, i));
      var ps := Permutations(Remove(xs, i));
      var block := Prepend(xs[i], ps);
      var rest := PermutationsFrom(xs, i + 1);
      assert NoDuplicates(block) by {
        forall a, b | 0 <= a < b < |block| ensures block[a] != block[b] {
          assert block[a][1..] == ps[a] && block[b][1..] == ps[b];
        }
      }
      forall a, b | 0 <= a < |block| && 0 <= b < |rest| ensures block[a] != rest[b] {
        var k := PermutationsFromShape(xs, i + 1, rest[b]);
        assert block[a][0] == xs[i] && rest[b][0] == xs[k];
      }
      var all := block + rest;
      assert all == PermutationsFrom(xs, i);
      forall a, b | 0 <= a < b < |all| ensures all[a] != all[b] {
        if b < |block| {
        } else if a >= |block| {
          assert all[a] == rest[a - |block|] && all[b] == rest[b - |block|];
        } else {
          assert all[b] == rest[b - |block|];
        }
      }
    }
  }

  /** The enumeration holds no permutation twice. */
  lemma {:induction false} PermutationsDistinct(xs: seq<int>)
    requires NoDuplicates(xs)
    ensures NoDuplicates(Permutations(xs))
    decreases |xs|, |xs| + 1
  {
    if |xs| > 0 {
      PermutationsFromDistinct(xs, 0);
    }
  }

  /** The enumeration of the process indices 0 .. n-1 lists every ordering of
      them, and nothing else, each exactly once. */
  lemma AllOrderings(n: nat)
    ensures forall o :: o in Permutations(Range(n)) <==> IsOrdering(o, n)
    ensures NoDuplicates(Permutations(Range(n)))
    ensures n == 0 ==> Permutations(Range(n)) == [[]]
  {
    forall o ensures o in Permutations(Range(n)) <==> IsOrdering(o, n) {
      if o in Permutations(Range(n)) { PermutationsSound(Range(n), o); }
      if IsOrdering(o, n) { PermutationsComplete(Range(n), o); }
    }
    PermutationsDistinct(Range(n));
  }
}
