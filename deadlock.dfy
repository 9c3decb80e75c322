/** The deadlock-avoidance engine: one object holding the allocation state of
    a fixed set of processes, the safety test of one ordering, the search over
    all orderings, and the speculative grant with its single-slot snapshot. */
module DeadLocks {
  import opened Vectors
  import opened Orderings
  import opened Banker

  datatype Option<T> = None | Some(value: T)

  class DeadLock {
    var allocation: seq<seq<int>>
    var maximum: seq<seq<int>>
    var available: seq<int>
    var need: seq<seq<int>>
    var procCount: nat
    /** The snapshot slot: the state saved before the last tentative grant. */
    var backup: Option<State>

    /** The engine's current state as a value; the read-only properties of
        the engine are its components and `procCount`. */
    function Current(): State
      reads this
    {
      State(allocation, maximum, available, need)
    }

    /** Object invariant: every vector has the same length, need equals
        maximum minus allocation, and a saved snapshot is a state of the same
        shape with the same maximum matrix. */
    ghost predicate Valid()
      reads this
    {
      && Shaped(Current())
      && NeedsConsistent(Current())
      && procCount == |allocation|
      && (backup.Some? ==>
            && Shaped(backup.value)
            && NeedsConsistent(backup.value)
            && backup.value.Processes() == procCount
            && backup.value.Resources() == |available|
            && backup.value.maximum == maximum)
    }

    /** Builds the engine from the callers' matrices and derives the needs. */
    constructor (allocation: seq<seq<int>>, maximum: seq<seq<int>>, available: seq<int>)
      requires |maximum| == |allocation|
      requires forall i :: 0 <= i < |allocation| ==>
        |allocation[i]| == |available| && |maximum[i]| == |available|
      ensures Valid()
      ensures Current() == Initial(allocation, maximum, available)
      ensures procCount == |allocation| && backup == None
    {
      this.allocation := allocation;
      this.maximum := maximum;
      this.available := available;
      this.procCount := |allocation|;
      this.backup := None;
      new;
      CalculateNeeds();
    }

    /** Need derivation: recomputes every need row from maximum and
        allocation. */
    method CalculateNeeds()
      requires |maximum| == |allocation|
      requires forall i :: 0 <= i < |allocation| ==> |maximum[i]| == |allocation[i]|
      modifies this`need
      ensures need == Needs(maximum, allocation)
      ensures |need| == |allocation|
      ensures forall i, k :: 0 <= i < |need| && 0 <= k < |need[i]| ==>
        need[i][k] == maximum[i][k] - allocation[i][k]
    {
      need := Needs(maximum, allocation);
    }

    /** The safety test of one ordering: walks the ordering with local
        finished flags and a local work vector, and stops at the first
        process that is already finished or fails the vector gate. Nothing
        of the engine changes. */
    method IsSecure(order: seq<int>) returns (secure: bool)
      requires Valid() && InRange(Current(), order)
      ensures secure == Secure(Current(), order)
    {
      var finished := NoneFinished(procCount);
      var work := available;
      ghost var outcome := Walk(Current(), order, finished, work);
      var i := 0;
      while i < |order|
        invariant 0 <= i <= |order|
        invariant |finished| == procCount
        invariant Walk(Current(), order[i..], finished, work) == outcome
        decreases |order| - i
      {
        var m := order[i];
        assert order[i..][1..] == order[i + 1..];
        if !finished[m] && AnyGreater(need[m], work) {
          finished := finished[m := true];
          work := Add(work, allocation[m]);
        } else {
          assert outcome == finished;
          break;
        }
        i := i + 1;
      }
      assert outcome == finished;
      secure := false !in finished;
    }

    /** The orderings among `orderings` that the safety test accepts, in
        their original order. Nothing of the engine changes. */
    method FilterSecure(orderings: seq<seq<int>>) returns (sequences: seq<seq<int>>)
      requires Valid() && AllInRange(Current(), orderings)
      ensures sequences == SecureAmong(Current(), orderings)
    {
      sequences := [];
      for j := 0 to |orderings|
        invariant AllInRange(Current(), orderings[..j])
        invariant sequences == SecureAmong(Current(), orderings[..j])
      {
        var candidate := orderings[j];
        var ok := IsSecure(candidate);
        if ok {
          sequences := sequences + [candidate];
        }
        assert orderings[..j + 1][..j] == orderings[..j];
      }
      assert orderings[..|orderings|] == orderings;
    }

    /** Every ordering of the processes that the safety test accepts, each
        exactly once; the state is safe exactly when there is one. */
    method GetSecureSequences() returns (sequences: seq<seq<int>>)
      requires Valid()
      ensures forall o :: o in sequences <==> IsOrdering(o, procCount) && Secure(Current(), o)
      ensures NoDuplicates(sequences)
      ensures procCount == 0 ==> sequences == [[]]
      ensures |sequences| > 0 <==> Safe(Current())
    {
      SecureSequencesExact(Current());
      var orderings := Permutations(Range(procCount));
      sequences := FilterSecure(orderings);
    }

    /** Fills the snapshot slot with the current state. */
    method SaveStatus()
      requires Valid()
      modifies this`backup
      ensures Valid() && backup == Some(Current())
    {
      backup := Some(Current());
    }

    /** Restores the state held in the snapshot slot; the slot keeps it. */
    method Rollback()
      requires Valid() && backup.Some?
      modifies this`allocation, this`available, this`maximum, this`need
      ensures Valid() && Current() == old(backup.value)
    {
      allocation := backup.value.allocation;
      available := backup.value.available;
      maximum := backup.value.maximum;
      need := backup.value.need;
    }

    /** Moves `request` from available into process p's allocation and out
        of its need, leaving the snapshot slot alone. */
    method ApplyGrant(p: nat, request: seq<int>)
      requires Valid() && p < procCount && |request| == |available|
      modifies this`allocation, this`available, this`need
      ensures Valid() && Current() == Grant(old(Current()), p, request)
    {
      ghost var before := Current();
      available := Sub(available, request);
      allocation := allocation[p := Add(allocation[p], request)];
      need := need[p := Sub(need[p], request)];
      assert Current() == Grant(before, p, request);
    }

    /** The request is granted when both gates pass: the state is saved, the
        request moves from available into the process's allocation and out of
        its need, and with `autoRollback` the saved state is put back. When a
        gate fails nothing changes. */
    method AssignResources(p: nat, request: seq<int>, autoRollback: bool) returns (granted: bool)
      requires Valid() && p < procCount && |request| == |available|
      modifies this
      ensures Valid() && procCount == old(procCount)
      ensures granted == GatesPass(old(Current()), p, request)
      ensures Current() ==
        if granted && !autoRollback then Grant(old(Current()), p, request) else old(Current())
      ensures backup == if granted then Some(old(Current())) else old(backup)
    {
      var needOk := AnyGreater(request, need[p]);
      var availableOk := AnyGreater(request, available);
      if needOk && availableOk {
        SaveStatus();
        ApplyGrant(p, request);
        if autoRollback {
          Rollback();
        }
        granted := true;
      } else {
        granted := false;
      }
    }

    /** Applies the request tentatively (regardless of `autoRollback`), then
        judges it grantable when the resulting state has a secure ordering.
        With `autoRollback` the tentative grant is undone; without it the
        grant stays applied whatever the verdict. */
    method AssignAndTest(p: nat, request: seq<int>, autoRollback: bool) returns (secure: bool)
      requires Valid() && p < procCount && |request| == |available|
      modifies this
      ensures Valid() && procCount == old(procCount)
      ensures secure ==
        (GatesPass(old(Current()), p, request) && Safe(Grant(old(Current()), p, request)))
      ensures Current() ==
        if GatesPass(old(Current()), p, request) && !autoRollback
        then Grant(old(Current()), p, request)
        else old(Current())
      ensures backup ==
        if GatesPass(old(Current()), p, request) then Some(old(Current())) else old(backup)
    {
      secure := false;
      var granted := AssignResources(p, request, false);
      if granted {
        var sequences := GetSecureSequences();
        if |sequences| > 0 {
          secure := true;
        }
        if autoRollback {
          Rollback();
        }
      }
    }
  }

  /** Two identical probes with rollback in a row give the same verdict and
      leave the state as it was. */
  method RepeatedProbe(engine: DeadLock, p: nat, request: seq<int>) returns (first: bool, second: bool)
    requires engine.Valid() && p < engine.procCount && |request| == |engine.available|
    modifies engine
    ensures first == second
    ensures engine.Valid() && engine.Current() == old(engine.Current())
  {
    first := engine.AssignAndTest(p, request, true);
    second := engine.AssignAndTest(p, request, true);
  }
}
