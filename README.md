# Banker's-algorithm deadlock avoidance, modelled in Dafny

This project models the `DeadLock` engine of `deadlock.py`. The engine keeps the
allocation state of a fixed set of processes over a fixed set of resource types:

- the allocation matrix (`_asignados`);
- the maximum matrix (`_maximos`);
- the available vector (`_disponible`);
- the need matrix (`_necesidades`), derived once at construction as maximum minus allocation.

Over that state it offers four operations:

- `is_secure`: the Banker's safety walk over one ordering of the processes;
- `get_secure_sequences`: the search over every ordering;
- `assign_resources`: a speculative grant of a request, with a single-slot snapshot and rollback;
- `assign_and_test`: grants tentatively, then asks whether the resulting state has a secure ordering.

Layout:

- `vectors.dfy` (module `Vectors`): the vector gate, component-wise sum and difference, and column sums.
- `orderings.dfy` (module `Orderings`): the enumeration of all orderings of the process indices. It is proved to list every ordering exactly once.
- `banker.dfy` (module `Banker`): the state as a value and the pure semantics on it:
  - need derivation, the request gates and the grant;
  - the safety walk, `Secure`, `Safe`, and the lemmas about them.
- `deadlock.py`'s class becomes `DeadLocks.DeadLock` in `deadlock.dfy`:
  - a class whose fields are the engine's fields, plus the snapshot slot;
  - loop methods proved against the functions of `Banker`.
- `scenario.dfy` (module `Scenario`): the example system of the repository's entry point and its four probes.

## The vector gate as written

`_less_equal(a, b)` (deadlock.py:97-103) returns true when SOME component of `a` is
strictly greater than the matching component of `b`. Its name, and the way its three
call sites read, suggest element-wise `a <= b`. The model keeps the code's behaviour:

- it is named `Vectors.AnyGreater`;
- `Vectors.AllLe` is the conventional relation;
- `AnyGreater`'s contract proves that one is the negation of the other.

Every gate in the model uses `AnyGreater`, exactly as lines 29, 62 and 63 use
`_less_equal`. The consequences are proved rather than repaired:

- `Banker.CoveredNeedIsUnsafe`: a state in which some process's need is already covered by the available vector is never judged safe (allocations being non-negative);
- `Scenario.ExampleRun`: all four probes of the example system are judged not grantable.

The model follows the code as written, not the reading that the name suggests. It also
follows the code in three other places:

- Maximum is never checked against allocation. With the inverted gate, a grant can drive need and available below zero, so every quantity is an `int`.
- Construction does not reject matrices of unequal shape. The model states equal shapes as preconditions.
- `_save_status` copies only the outer lists. This still behaves as a full snapshot: `assign_resources` replaces whole rows (deadlock.py:70, deadlock.py:74) and never edits a row in place. The snapshot is therefore a `State` value.

## Model

| member | source | states |
|---|---|---|
| `Vectors.Exceeding` | deadlock.py:98 | the list of components of `a` exceeding `b` over the zipped prefix is non-empty exactly when some index has `a[i] > b[i]` |
| `Vectors.AnyGreater` | deadlock.py:97-103 | the gate is true iff some index of the common prefix has `a[i] > b[i]`, i.e. iff element-wise `a <= b` (`AllLe`) fails |
| `Vectors.Add` | deadlock.py:31 | `[x + y for x, y in zip(a, b)]`: as long as the shorter input, each component the sum of the matching components |
| `Vectors.Sub` | deadlock.py:67-69 | `[x - y for x, y in zip(a, b)]`: as long as the shorter input, each component the difference of the matching components |
| `Vectors.ColumnSumUpdate` | deadlock.py:70-73 | replacing one allocation row changes each column sum by exactly that row's change |
| `Banker.Needs` | deadlock.py:19-21 | need has one row per process and `need[i][k] == maximum[i][k] - allocation[i][k]` |
| `Banker.Initial` | deadlock.py:12-17 | the constructed state keeps the caller's matrices and satisfies the shape and need invariants |
| `Banker.GatesPass` | deadlock.py:62-65 | `cond1 and cond2`: the vector gate of the request against process p's need and against the available vector, both as written |
| `Banker.Grant` | deadlock.py:66-77 | `available -= request`, `allocation[p] += request`, `need[p] -= request`; other rows and maximum unchanged; the need invariant is preserved; `available[k] + Σ allocation[i][k]` is conserved |
| `Banker.Walk` | deadlock.py:27-33 | the loop over the order: an entry not yet finished whose need passes the gate against the work vector is marked finished and its allocation is added to the work vector; the walk stops at the first entry that is finished already or fails the gate, and yields the flags |
| `Banker.NoneFinished` | deadlock.py:24 | the initial flags: one per process, none of them set |
| `Banker.Secure` | deadlock.py:24-41 | an order is secure when the walk from the available vector, starting with no flag set, leaves no flag unset (`final.index(False)` finds nothing) |
| `Banker.WalkFinishesAtMostOnePerStep` | deadlock.py:27-33 | each step of the walk marks at most one process finished |
| `Banker.ShortOrderNotSecure` | deadlock.py:23-41 | an order shorter than the number of processes is never secure; with no processes the empty order is secure |
| `Banker.PassesAtShift` | deadlock.py:29-31 | after the first process releases its allocation, the later gates are tested against the enlarged work vector |
| `Banker.WalkKeepsFinished` | deadlock.py:27-33 | the walk never clears a finished flag |
| `Banker.WalkAllPass` | deadlock.py:27-33 | over distinct unfinished processes, if every position passes its gate then every process of the order ends finished |
| `Banker.WalkStopsAtFailure` | deadlock.py:27-33 | over distinct unfinished processes, a position that fails its gate is never finished (the walk breaks there or earlier) |
| `Banker.SecureIffEachPasses` | deadlock.py:23-41 | an ordering of all processes is secure iff each process in turn passes the gate against available plus the allocations of the processes before it |
| `Banker.SecureAmong` | deadlock.py:45 | the orderings of the input that are `Secure`, kept in their input order |
| `Banker.SecureAmongExact` | deadlock.py:45 | the filter keeps exactly the secure orderings, never twice, and is no longer than its input |
| `Banker.SecureSequencesExact` | deadlock.py:43-47 | filtering every permutation of `range(P)` by the safety test yields exactly the secure orderings, each once, `[[]]` for `P = 0`, and a non-empty list iff the state is `Safe` |
| `Banker.CoveredNeedNeverFinishes` | deadlock.py:27-33 | with non-negative allocations, a process whose need is covered by the work vector is never finished by the walk |
| `Banker.CoveredNeedIsUnsafe` | deadlock.py:43-47 | with non-negative allocations, a state where some process's need is covered by the available vector has no secure ordering |
| `Orderings.Range` | deadlock.py:44 | `range(P)` holds exactly the integers `0 .. P-1`, each once |
| `Orderings.Permutations` | deadlock.py:44 | the enumeration of the orderings of a list: for each position in turn, its element followed by every ordering of the remaining elements |
| `Orderings.PermutationsSound` | deadlock.py:44 | every enumerated list is a permutation of the input |
| `Orderings.PermutationsComplete` | deadlock.py:44 | every permutation of the input is enumerated |
| `Orderings.PermutationsDistinct` | deadlock.py:44 | no permutation is enumerated twice |
| `Orderings.PermutationCovers` | deadlock.py:44 | a permutation of a list contains every element of the list |
| `Orderings.AllOrderings` | deadlock.py:44 | the permutations of `range(P)` are exactly the orderings of the `P` processes, each once; for `P = 0` only the empty ordering |
| `DeadLocks.DeadLock.Current` | deadlock.py:105-119 | the read-only properties `necesidades`, `asignados`, `maximos` and `disponible`, gathered into one `State` value (`proc_count` is the field `procCount`) |
| `DeadLocks.DeadLock.constructor` | deadlock.py:12-17 | the engine holds the caller's matrices, `proc_count` is the number of allocation rows, need is derived, and the invariant holds |
| `DeadLocks.DeadLock.CalculateNeeds` | deadlock.py:19-21 | the need field becomes maximum minus allocation, row by row and component by component |
| `DeadLocks.DeadLock.IsSecure` | deadlock.py:23-41 | the loop with local flags and work vector returns exactly `Secure` of the current state, and changes no field |
| `DeadLocks.DeadLock.FilterSecure` | deadlock.py:45 | the loop that runs the safety test on each candidate keeps exactly `SecureAmong` of the candidates, in their order, and changes no field |
| `DeadLocks.DeadLock.GetSecureSequences` | deadlock.py:43-47 | returns exactly the orderings of `0 .. P-1` that the safety test accepts, each once; `[[]]` when `P = 0`; non-empty iff the state is `Safe` |
| `DeadLocks.DeadLock.SaveStatus` | deadlock.py:49-53 | the snapshot slot holds the current state; nothing else changes |
| `DeadLocks.DeadLock.Rollback` | deadlock.py:55-59 | the four state fields are restored from the snapshot; the slot keeps its content |
| `DeadLocks.DeadLock.ApplyGrant` | deadlock.py:66-77 | the three updates of a grant: the state becomes `Grant(old)`, the invariant is kept, and the snapshot slot is untouched |
| `DeadLocks.DeadLock.AssignResources` | deadlock.py:61-84 | grants iff both gates pass; then the snapshot holds the old state and the state is `Grant(old)`, or back to the old state with `auto_rollback`; otherwise nothing changes |
| `DeadLocks.DeadLock.AssignAndTest` | deadlock.py:86-95 | true iff both gates pass and the granted state is `Safe`; with `auto_rollback` the state is as before, without it the grant stays applied whatever the verdict |
| `DeadLocks.RepeatedProbe` | deadlock.py:86-95 | two identical probes with rollback return the same verdict and leave the state unchanged |
| `Scenario.ExampleNeeds` | deadlock.py:126-129 | the example's derived need matrix |
| `Scenario.ExampleFirstRejected` | deadlock.py:131 | the first example request is covered by what is available, so the availability gate fails |
| `Scenario.ExampleSecondRejected` | deadlock.py:132 | the second example request is covered by process 2's need, so the need gate fails |
| `Scenario.ExampleThirdRejected` | deadlock.py:133 | the third example request is covered by process 1's need, so the need gate fails |
| `Scenario.ExampleFourthPasses` | deadlock.py:134 | the fourth example request passes both gates |
| `Scenario.ExampleFourthUnsafe` | deadlock.py:134 | the state after the fourth request has no secure ordering |
| `Scenario.ExampleRun` | deadlock.py:125-134 | the four probes of the example, each with rollback, all return false |

## Left out

- Reference aliasing. The constructor stores the caller's lists, and line 70 writes into the caller's outer list. The properties (deadlock.py:105-123) return live references. The model has value semantics: the fields are read directly, or together through `DeadLock.Current()`.
- Truncation on mismatched lengths. Engine members require every vector to have the same length, including the request; the pure vector functions in `Vectors` do truncate to the shorter input, as `zip` does.
- Out-of-range indices. The process index and every order entry must lie in `0 .. P-1` (`Banker.InRange`, required by `Secure` and `DeadLock.IsSecure`). `IndexError` and Python's negative indexing are not modelled. The source does not always fail on such an order: `is_secure` reads an entry only when every earlier entry passed its gate, so with `P = 2` the order `[0, 7]` returns False without an error whenever process 0 fails its gate. The model excludes such orders rather than giving them that verdict.
- The default `auto_rollback=True` of `assign_resources` and `assign_and_test` (deadlock.py:61, deadlock.py:86). In the model `autoRollback` is a required parameter. Both values are modelled, and `Scenario.ExampleRun` passes `true` where the entry point relies on the default.
- `_rollback` before any `_save_status` (an `AttributeError` on the missing backup fields). `Rollback` requires a filled snapshot slot; the engine only rolls back after saving.
- `itertools.permutations`. The model's enumeration produces every ordering exactly once. That it yields them in the same order is not claimed. The factorial cost of the search is not modelled.
- The entry point's printing. Its data and calls are modelled in `Scenario`, not its console output.

