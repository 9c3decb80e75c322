/** The allocation state as a value, and the pure part of the Banker's
    safety test on it: need derivation, the request gates, the grant, and
    the walk that decides whether one ordering of the processes can finish. */
module Banker {
  import opened Vectors
  import opened Orderings

  /** Allocation, maximum and need per process (one row each, indexed by the
      process id), and the vector of available resources. */
  datatype State = State(
    allocation: seq<seq<int>>,
    maximum: seq<seq<int>>,
    available: seq<int>,
    need: seq<seq<int>>)
  {
    /** Number of processes. */
    function Processes(): nat { |allocation| }

    /** Number of resource types. */
    function Resources(): nat { |available| }
  }

  /** Every matrix has one row per process and every vector the same length. */
  predicate Shaped(st: State) {
    && |st.maximum| == |st.allocation|
    && |st.need| == |st.allocation|
    && (forall i :: 0 <= i < |st.allocation| ==> |st.allocation[i]| == |st.available|)
    && (forall i :: 0 <= i < |st.maximum| ==> |st.maximum[i]| == |st.available|)
    && (forall i :: 0 <= i < |st.need| ==> |st.need[i]| == |st.available|)
  }

  /** The need invariant: need = maximum - allocation, component by component. */
  predicate NeedsConsistent(st: State)
    requires Shaped(st)
  {
    forall i, k :: 0 <= i < |st.need| && 0 <= k < |st.available| ==>
      st.need[i][k] == st.maximum[i][k] - st.allocation[i][k]
  }

  /** Need derivation: what each process may still request, its maximum
      minus what it holds. */
  function Needs(maximum: seq<seq<int>>, allocation: seq<seq<int>>): (need: seq<seq<int>>)
    requires |maximum| == |allocation|
    requires forall i :: 0 <= i < |allocation| ==> |maximum[i]| == |allocation[i]|
    ensures |need| == |allocation|
    ensures forall i :: 0 <= i < |need| ==> |need[i]| == |allocation[i]|
    ensures forall i, k :: 0 <= i < |need| && 0 <= k < |need[i]| ==>
      need[i][k] == maximum[i][k] - allocation[i][k]
  {
    seq(|allocation|, i requires 0 <= i < |allocation| => Sub(maximum[i], allocation[i]))
  }

  /** The state the engine builds from caller data: need derived from the
      maximum and allocation matrices. */
  function Initial(allocation: seq<seq<int>>, maximum: seq<seq<int>>, available: seq<int>): (st: State)
    requires |maximum| == |allocation|
    requires forall i :: 0 <= i < |allocation| ==> |allocation[i]| == |available| && |maximum[i]| == |available|
    ensures Shaped(st) && NeedsConsistent(st)
    ensures st.allocation == allocation && st.maximum == maximum && st.available == available
  {
    State(allocation, maximum, available, Needs(maximum, allocation))
  }

  /** The two request gates, exactly as the engine evaluates them: the vector
      gate of the request against the process's need and against what is
      available. */
  predicate GatesPass(st: State, p: nat, request: seq<int>)
    requires p < |st.need|
  {
    AnyGreater(request, st.need[p]) && AnyGreater(request, st.available)
  }

  /** The tentative grant: `request` moves from available to process p's
      allocation and out of its need. */
  function Grant(st: State, p: nat, request: seq<int>): (r: State)
    requires Shaped(st) && p < st.Processes() && |request| == st.Resources()
    ensures Shaped(r) && r.Processes() == st.Processes() && r.Resources() == st.Resources()
    ensures r.maximum == st.maximum
    ensures forall k :: 0 <= k < st.Resources() ==>
      && r.available[k] == st.available[k] - request[k]
      && r.allocation[p][k] == st.allocation[p][k] + request[k]
      && r.need[p][k] == st.need[p][k] - request[k]
    ensures forall i :: 0 <= i < st.Processes() && i != p ==>
      r.allocation[i] == st.allocation[i] && r.need[i] == st.need[i]
    ensures NeedsConsistent(st) ==> NeedsConsistent(r)
    ensures forall k :: 0 <= k < st.Resources() ==>
      HasColumn(st.allocation, k) && HasColumn(r.allocation, k) &&
      r.available[k] + ColumnSum(r.allocation, k) == st.available[k] + ColumnSum(st.allocation, k)
  {
    var r := State(
      st.allocation[p := Add(st.allocation[p], request)],
      st.maximum,
      Sub(st.available, request),
      st.need[p := Sub(st.need[p], request)]);
    assert forall k :: 0 <= k < st.Resources() ==>
      HasColumn(st.allocation, k) && HasColumn(r.allocation, k) &&
      r.available[k] + ColumnSum(r.allocation, k) == st.available[k] + ColumnSum(st.allocation, k) by {
      forall k | 0 <= k < st.Resources()
        ensures HasColumn(st.allocation, k) && HasColumn(r.allocation, k)
        ensures r.available[k] + ColumnSum(r.allocation, k) == st.available[k] + ColumnSum(st.allocation, k)
      {
        ColumnSumUpdate(st.allocation, p, Add(st.allocation[p], request), k);
      }
    }
    r
  }

  /** Each order entry names a process of `st`. */
  predicate InRange(st: State, order: seq<int>) {
    forall j :: 0 <= j < |order| ==> 0 <= order[j] < st.Processes()
  }

  /** The safety walk over `order` from the given finished flags and work
      vector: the next process is marked finished and releases its allocation
      into the work vector if it is not finished yet and passes the vector
      gate of its need against the work vector; the walk stops at the first
      process that does not. The result is the final flags. */
  function Walk(st: State, order: seq<int>, finished: seq<bool>, work: seq<int>): seq<bool>
    requires Shaped(st) && InRange(st, order) && |finished| == st.Processes()
  {
    if order == [] then finished
    else
      var m := order[0];
      if !finished[m] && AnyGreater(st.need[m], work) then
        Walk(st, order[1..], finished[m := true], Add(work, st.allocation[m]))
      else
        finished
  }

  /** The flags of a walk before any process has finished. */
  function NoneFinished(n: nat): (flags: seq<bool>)
    ensures |flags| == n && true !in flags
  {
    seq(n, _ => false)
  }

  /** An ordering is secure when the walk from the available vector leaves
      no process unfinished. */
  predicate Secure(st: State, order: seq<int>)
    requires Shaped(st) && InRange(st, order)
  {
    false !in Walk(st, order, NoneFinished(st.Processes()), st.available)
  }

  /** The state is safe when some ordering of all its processes is secure. */
  ghost predicate Safe(st: State)
    requires Shaped(st)
  {
    exists o :: IsOrdering(o, st.Processes()) && Secure(st, o)
  }

  /** Each listed ordering names processes of `st`. */
  predicate AllInRange(st: State, orderings: seq<seq<int>>) {
    forall k :: 0 <= k < |orderings| ==> InRange(st, orderings[k])
  }

  /** The orderings of `orderings` that are secure, in their original order. */
  function SecureAmong(st: State, orderings: seq<seq<int>>): seq<seq<int>>
    requires Shaped(st) && AllInRange(st, orderings)
  {
    if orderings == [] then []
    else
      var last := orderings[|orderings| - 1];
      SecureAmong(st, orderings[..|orderings| - 1]) + (if Secure(st, last) then [last] else [])
  }

  /** The filter keeps exactly the secure orderings and is no longer than its
      input. */
  lemma {:induction false} SecureAmongMembers(st: State, orderings: seq<seq<int>>)
    requires Shaped(st) && AllInRange(st, orderings)
    ensures forall o :: o in SecureAmong(st, orderings) <==> o in orderings && InRange(st, o) && Secure(st, o)
    ensures |SecureAmong(st, orderings)| <= |orderings|
  {
    if orderings != [] {
      var n := |orderings| - 1;
      SecureAmongMembers(st, orderings[..n]);
      assert orderings == orderings[..n] + [orderings[n]];
    }
  }

  /** The filter never repeats an ordering that its input does not repeat. */
  lemma {:induction false} SecureAmongDistinct(st: State, orderings: seq<seq<int>>)
    requires Shaped(st) && AllInRange(st, orderings) && NoDuplicates(orderings)
    ensures NoDuplicates(SecureAmong(st, orderings))
  {
    if orderings != [] {
      var n := |orderings| - 1;
      var front := orderings[..n];
      var last := orderings[n];
      assert NoDuplicates(front) by {
        forall a, b | 0 <= a < b < |front| ensures front[a] != front[b] {
          assert front[a] == orderings[a] && front[b] == orderings[b];
        }
      }
      SecureAmongDistinct(st, front);
      SecureAmongMembers(st, front);
      var kept := SecureAmong(st, front);
      assert last !in front;
      assert last !in kept;
      var all := SecureAmong(st, orderings);
      forall a, b | 0 <= a < b < |all| ensures all[a] != all[b] {
        if b < |kept| {
          assert all[a] == kept[a] && all[b] == kept[b];
        } else {
          assert all[b] == last && all[a] == kept[a];
          assert kept[a] in kept;
        }
      }
    }
  }

  /** The filter keeps exactly the secure orderings, never repeats one, and
      is no longer than its input. */
  lemma SecureAmongExact(st: State, orderings: seq<seq<int>>)
    requires Shaped(st) && AllInRange(st, orderings)
    ensures forall o :: o in SecureAmong(st, orderings) <==> o in orderings && InRange(st, o) && Secure(st, o)
    ensures NoDuplicates(orderings) ==> NoDuplicates(SecureAmong(st, orderings))
    ensures |SecureAmong(st, orderings)| <= |orderings|
  {
    SecureAmongMembers(st, orderings);
    if NoDuplicates(orderings) {
      SecureAmongDistinct(st, orderings);
    }
  }

  /** Filtering the enumeration of all orderings of the processes keeps
      exactly the secure orderings, each once; with no processes it keeps the
      empty ordering; and it keeps something exactly when the state is safe. */
  lemma SecureSequencesExact(st: State)
    requires Shaped(st)
    ensures AllInRange(st, Permutations(Range(st.Processes())))
    ensures var found := SecureAmong(st, Permutations(Range(st.Processes())));
      && (forall o :: o in found <==> IsOrdering(o, st.Processes()) && Secure(st, o))
      && NoDuplicates(found)
      && (st.Processes() == 0 ==> found == [[]])
      && (|found| > 0 <==> Safe(st))
  {
    var n := st.Processes();
    var orderings := Permutations(Range(n));
    AllOrderings(n);
    assert AllInRange(st, orderings) by {
      forall k | 0 <= k < |orderings| ensures InRange(st, orderings[k]) {
        assert IsOrdering(orderings[k], n);
      }
    }
    SecureAmongExact(st, orderings);
    var found := SecureAmong(st, orderings);
    if n == 0 {
      ShortOrderNotSecure(st, []);
      assert found == [[]];
    }
    if |found| > 0 {
      assert found[0] in found;
    }
  }

  // ---------------------------------------------------------------------
  // Short orderings are never secure

  function CountTrue(flags: seq<bool>): nat {
    if flags == [] then 0 else (if flags[0] then 1 else 0) + CountTrue(flags[1..])
  }

  lemma {:induction false} CountTrueMark(flags: seq<bool>, m: nat)
    requires m < |flags| && !flags[m]
    ensures CountTrue(flags[m := true]) == CountTrue(flags) + 1
  {
    if m > 0 {
      assert flags[m := true][1..] == flags[1..][m - 1 := true];
      CountTrueMark(flags[1..], m - 1);
    } else {
      assert flags[m := true][1..] == flags[1..];
    }
  }

  lemma {:induction false} CountTrueBounds(flags: seq<bool>)
    ensures CountTrue(flags) <= |flags|
    ensures false !in flags ==> CountTrue(flags) == |flags|
    ensures true !in flags ==> CountTrue(flags) == 0
  {
    if flags != [] {
      CountTrueBounds(flags[1..]);
    }
  }

  /** Each step of the walk finishes at most one process. */
  lemma {:induction false} WalkFinishesAtMostOnePerStep(st: State, order: seq<int>, finished: seq<bool>, work: seq<int>)
    requires Shaped(st) && InRange(st, order) && |finished| == st.Processes()
    ensures |Walk(st, order, finished, work)| == |finished|
    ensures CountTrue(Walk(st, order, finished, work)) <= CountTrue(finished) + |order|
  {
    if order != [] {
      var m := order[0];
      if !finished[m] && AnyGreater(st.need[m], work) {
        CountTrueMark(finished, m);
        WalkFinishesAtMostOnePerStep(st, order[1..], finished[m := true], Add(work, st.allocation[m]));
      }
    }
  }

  /** An order with fewer entries than there are processes is never secure;
      with no processes the empty order is secure. */
  lemma ShortOrderNotSecure(st: State, order: seq<int>)
    requires Shaped(st) && InRange(st, order)
    ensures |order| < st.Processes() ==> !Secure(st, order)
    ensures st.Processes() == 0 ==> Secure(st, [])
  {
    var flags := Walk(st, order, NoneFinished(st.Processes()), st.available);
    WalkFinishesAtMostOnePerStep(st, order, NoneFinished(st.Processes()), st.available);
    CountTrueBounds(NoneFinished(st.Processes()));
    CountTrueBounds(flags);
  }

  // ---------------------------------------------------------------------
  // Secure orderings, process by process

  /** The work vector after the processes of `done` have, in turn, released
      their allocation into `work`. */
  function Released(st: State, work: seq<int>, done: seq<int>): seq<int>
    requires Shaped(st) && InRange(st, done)
    decreases |done|
  {
    if done == [] then work else Released(st, Add(work, st.allocation[done[0]]), done[1..])
  }

  /** Position j of `order` passes the vector gate against the work vector
      left by the processes before it. */
  predicate PassesAt(st: State, order: seq<int>, work: seq<int>, j: nat)
    requires Shaped(st) && InRange(st, order) && j < |order|
  {
    AnyGreater(st.need[order[j]], Released(st, work, order[..j]))
  }

  /** Dropping the first process of the order moves its allocation into the
      work vector the later positions are tested against. */
  lemma PassesAtShift(st: State, order: seq<int>, work: seq<int>, j: nat)
    requires Shaped(st) && InRange(st, order) && j + 1 < |order|
    ensures PassesAt(st, order, work, j + 1) ==
      PassesAt(st, order[1..], Add(work, st.allocation[order[0]]), j)
  {
    assert order[..j + 1][1..] == order[1..][..j];
    assert order[j + 1] == order[1..][j];
  }

  /** Over distinct, unfinished processes, when every position passes its
      gate the walk finishes every process of the order. */
  lemma {:induction false} WalkAllPass(st: State, order: seq<int>, finished: seq<bool>, work: seq<int>)
    requires Shaped(st) && InRange(st, order) && |finished| == st.Processes()
    requires NoDuplicates(order)
    requires forall j :: 0 <= j < |order| ==> !finished[order[j]]
    requires forall j :: 0 <= j < |order| ==> PassesAt(st, order, work, j)
    ensures |Walk(st, order, finished, work)| == |finished|
    ensures forall j :: 0 <= j < |order| ==> Walk(st, order, finished, work)[order[j]]
  {
    if order != [] {
      var m := order[0];
      var rest := order[1..];
      assert order[..0] == [];
      assert PassesAt(st, order, work, 0);
      var finished' := finished[m := true];
      var work' := Add(work, st.allocation[m]);
      forall j | 0 <= j < |rest| ensures !finished'[rest[j]] && PassesAt(st, rest, work', j) {
        assert rest[j] == order[j + 1] != m;
        PassesAtShift(st, order, work, j);
      }
      WalkAllPass(st, rest, finished', work');
      var result := Walk(st, rest, finished', work');
      WalkKeepsFinished(st, rest, finished', work', m);
      forall j | 0 <= j < |order| ensures result[order[j]] {
        if j > 0 { assert order[j] == rest[j - 1]; }
      }
    }
  }

  /** The walk never clears a flag. */
  lemma {:induction false} WalkKeepsFinished(st: State, order: seq<int>, finished: seq<bool>, work: seq<int>, x: nat)
    requires Shaped(st) && InRange(st, order) && |finished| == st.Processes()
    requires x < |finished| && finished[x]
    ensures |Walk(st, order, finished, work)| == |finished| && Walk(st, order, finished, work)[x]
  {
    if order != [] {
      var m := order[0];
      if !finished[m] && AnyGreater(st.need[m], work) {
        WalkKeepsFinished(st, order[1..], finished[m := true], Add(work, st.allocation[m]), x);
      }
    }
  }

  /** Over distinct, unfinished processes, a position that fails its gate is
      never finished: the walk stops there or earlier. */
  lemma {:induction false} WalkStopsAtFailure(st: State, order: seq<int>, finished: seq<bool>, work: seq<int>, j0: nat)
    requires Shaped(st) && InRange(st, order) && |finished| == st.Processes()
    requires NoDuplicates(order)
    requires forall j :: 0 <= j < |order| ==> !finished[order[j]]
    requires j0 < |order| && !PassesAt(st, order, work, j0)
    ensures |Walk(st, order, finished, work)| == |finished|
    ensures !Walk(st, order, finished, work)[order[j0]]
  {
    var m := order[0];
    var rest := order[1..];
    assert order[..0] == [];
    if j0 > 0 && AnyGreater(st.need[m], work) {
      var finished' := finished[m := true];
      var work' := Add(work, st.allocation[m]);
      forall j | 0 <= j < |rest| ensures !finished'[rest[j]] {
        assert rest[j] == order[j + 1] != m;
      }
      PassesAtShift(st, order, work, j0 - 1);
      WalkStopsAtFailure(st, rest, finished', work', j0 - 1);
      assert order[j0] == rest[j0 - 1];
    }
  }

  /** The secure orderings, stated process by process: an ordering of all
      processes is secure exactly when each process in turn passes the
      vector gate of its need against the available vector plus the
      allocations released by the processes before it. */
  lemma SecureIffEachPasses(st: State, order: seq<int>)
    requires Shaped(st) && IsOrdering(order, st.Processes())
    ensures Secure(st, order) <==>
      forall j :: 0 <= j < |order| ==> PassesAt(st, order, st.available, j)
  {
    var n := st.Processes();
    var none := NoneFinished(n);
    var flags := Walk(st, order, none, st.available);
    WalkFinishesAtMostOnePerStep(st, order, none, st.available);
    if forall j :: 0 <= j < |order| ==> PassesAt(st, order, st.available, j) {
      WalkAllPass(st, order, none, st.available);
      OrderingCovers(order, n);
      forall i | 0 <= i < |flags| ensures flags[i] {
        assert i in order;
        var j :| 0 <= j < n && order[j] == i;
      }
    } else {
      var j0 :| 0 <= j0 < |order| && !PassesAt(st, order, st.available, j0);
      WalkStopsAtFailure(st, order, none, st.available, j0);
    }
  }

  // ---------------------------------------------------------------------
  // What the vector gate implies for the walk

  /** No process holds a negative amount of any resource. */
  predicate NonNegativeAllocations(st: State)
    requires Shaped(st)
  {
    forall i, k :: 0 <= i < st.Processes() && 0 <= k < st.Resources() ==> st.allocation[i][k] >= 0
  }

  /** Because the gate passes only when some need component exceeds the
      work vector, a process whose need is covered by the work vector is
      never finished: releases only make the work vector larger. */
  lemma {:induction false} CoveredNeedNeverFinishes(st: State, order: seq<int>, finished: seq<bool>, work: seq<int>, x: nat)
    requires Shaped(st) && InRange(st, order) && |finished| == st.Processes()
    requires NonNegativeAllocations(st) && |work| == st.Resources()
    requires x < st.Processes() && !finished[x] && AllLe(st.need[x], work)
    ensures |Walk(st, order, finished, work)| == |finished|
    ensures !Walk(st, order, finished, work)[x]
  {
    if order != [] {
      var m := order[0];
      if !finished[m] && AnyGreater(st.need[m], work) {
        var work' := Add(work, st.allocation[m]);
        assert AllLe(st.need[x], work') by {
          forall k | 0 <= k < |st.need[x]| && k < |work'| ensures st.need[x][k] <= work'[k] {
            assert st.allocation[m][k] >= 0;
          }
        }
        CoveredNeedNeverFinishes(st, order[1..], finished[m := true], work', x);
      }
    }
  }

  /** Hence a state in which some process's need is covered by what is
      available is never safe. */
  lemma CoveredNeedIsUnsafe(st: State, x: nat)
    requires Shaped(st) && NonNegativeAllocations(st)
    requires x < st.Processes() && AllLe(st.need[x], st.available)
    ensures !Safe(st)
  {
    forall o | IsOrdering(o, st.Processes()) ensures !Secure(st, o) {
      var none := NoneFinished(st.Processes());
      CoveredNeedNeverFinishes(st, o, none, st.available, x);
      assert Walk(st, o, none, st.available)[x] == false;
    }
  }
}
