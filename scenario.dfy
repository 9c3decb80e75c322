/** The example system of five processes and four resource types that the
    repository's entry point builds, and the four requests it probes, each
    with rollback. */
module Scenario {
  import opened Vectors
  import opened Banker
  import opened DeadLocks

  function ExampleAllocation(): seq<seq<int>> {
    [[2, 1, 1, 1], [1, 0, 0, 1], [1, 0, 3, 1], [3, 0, 0, 1], [1, 2, 1, 3]]
  }

  function ExampleMaximum(): seq<seq<int>> {
    [[3, 2, 1, 1], [2, 1, 3, 3], [3, 1, 3, 3], [4, 2, 1, 2], [3, 3, 2, 5]]
  }

  function ExampleAvailable(): seq<int> {
    [1, 2, 3, 2]
  }

  /** The example's state after need derivation. */
  function ExampleState(): (st: State)
    ensures Shaped(st) && NeedsConsistent(st) && st.Processes() == 5 && st.Resources() == 4
  {
    Initial(ExampleAllocation(), ExampleMaximum(), ExampleAvailable())
  }

  lemma ExampleNeeds()
    ensures ExampleState().need[0] == [1, 1, 0, 0]
    ensures ExampleState().need[1] == [1, 1, 3, 2]
    ensures ExampleState().need[2] == [2, 1, 0, 2]
    ensures ExampleState().need[3] == [1, 2, 1, 1]
    ensures ExampleState().need[4] == [2, 1, 1, 2]
  {
  }

  /** With the gate as written, the first request of the example is covered
      by what is available, so the availability gate fails. */
  lemma ExampleFirstRejected()
    ensures !GatesPass(ExampleState(), 3, [1, 0, 0, 2])
  {
    assert AllLe([1, 0, 0, 2], ExampleState().available);
  }

  /** The second and third requests are each covered by the process's need,
      so the need gate fails. */
  lemma ExampleSecondRejected()
    ensures !GatesPass(ExampleState(), 2, [1, 1, 0, 1])
  {
    ExampleNeeds();
    assert AllLe([1, 1, 0, 1], ExampleState().need[2]);
  }

  lemma ExampleThirdRejected()
    ensures !GatesPass(ExampleState(), 1, [1, 1, 3, 1])
  {
    ExampleNeeds();
    assert AllLe([1, 1, 3, 1], ExampleState().need[1]);
  }

  /** The fourth request exceeds both the need and the availability, so it
      passes both gates. */
  lemma ExampleFourthPasses()
    ensures GatesPass(ExampleState(), 0, [3, 2, 0, 0])
  {
    ExampleNeeds();
    assert [3, 2, 0, 0][0] > ExampleState().need[0][0];
    assert [3, 2, 0, 0][0] > ExampleState().available[0];
  }

  /** After the fourth grant process 0 needs [-2, -1, 0, 0] ... */
  lemma ExampleFourthGrantedNeed()
    ensures Grant(ExampleState(), 0, [3, 2, 0, 0]).need[0] == [-2, -1, 0, 0]
  {
    ExampleNeeds();
  }

  /** ... while [-2, 0, 3, 2] is available. */
  lemma ExampleFourthGrantedAvailable()
    ensures Grant(ExampleState(), 0, [3, 2, 0, 0]).available == [-2, 0, 3, 2]
  {
  }

  /** Every allocation after the fourth grant is non-negative. */
  lemma ExampleFourthGrantedAllocations()
    ensures NonNegativeAllocations(Grant(ExampleState(), 0, [3, 2, 0, 0]))
  {
    var st := ExampleState();
    var granted := Grant(st, 0, [3, 2, 0, 0]);
    assert st.allocation == ExampleAllocation();
    forall i, k | 0 <= i < 5 && 0 <= k < 4 ensures granted.allocation[i][k] >= 0 {
      if i == 0 {
        assert granted.allocation[0][k] == st.allocation[0][k] + [3, 2, 0, 0][k];
      } else {
        assert granted.allocation[i] == st.allocation[i];
      }
    }
  }

  /** After the fourth grant process 0's need is covered by what is
      available, so the tentative state has no secure ordering. */
  lemma ExampleFourthUnsafe()
    ensures !Safe(Grant(ExampleState(), 0, [3, 2, 0, 0]))
  {
    ExampleFourthGrantedNeed();
    ExampleFourthGrantedAvailable();
    ExampleFourthGrantedAllocations();
    CoveredNeedIsUnsafe(Grant(ExampleState(), 0, [3, 2, 0, 0]), 0);
  }

  /** Runs the four probes of the example on one engine; every verdict is
      "not grantable" and the engine ends as it began. */
  method ExampleRun() returns (verdicts: seq<bool>)
    ensures verdicts == [false, false, false, false]
  {
    var engine := new DeadLock(ExampleAllocation(), ExampleMaximum(), ExampleAvailable());
    ExampleFirstRejected();
    ExampleSecondRejected();
    ExampleThirdRejected();
    ExampleFourthPasses();
    ExampleFourthUnsafe();
    var first := engine.AssignAndTest(3, [1, 0, 0, 2], true);
    var second := engine.AssignAndTest(2, [1, 1, 0, 1], true);
    var third := engine.AssignAndTest(1, [1, 1, 3, 1], true);
    var fourth := engine.AssignAndTest(0, [3, 2, 0, 0], true);
    verdicts := [first, second, third, fourth];
    assert engine.Current() == ExampleState();
  }
}
