# Flatten-and-sort and the podracer records, in Dafny

This project models the two pieces of logic in `main.py`.

- `flatten_and_sort` concatenates a list of integer lists, removing exactly one
  level of nesting and keeping the sub-lists in order. It then returns the
  concatenation in ascending order. Module `Normalizer` in `normalizer.dfy`
  writes it as pure functions over `seq<seq<int>>`:
  - `Flatten` is a recursive concatenation.
  - `Sort` is a functional insertion sort, standing in for Python's `sorted`.
  - `FlattenAndSort` composes the two.
  Sequences are values in Dafny, so the call cannot modify its input, and the
  result is always a new sequence.
  `SortedUnique` proves that an ascending sequence is fixed by its multiset of
  elements. Because of that, the model's result equals what any correct sort
  returns, Python's `sorted` included.
- The `Podracer` class with its two subclasses, `AnakinsPod` and `SebulbasPod`,
  is modelled by module `Podracers` in `podracers.dfy`. The hierarchy never
  overrides a method, so one class stands for all three. It carries an
  immutable `variant` tag, and the three mutable fields `maxSpeed`,
  `condition` and `price`. `Boost` exists only on Anakin's pod and `FlameJet`
  only on Sebulba's. Each requires the matching tag, just as Python has the
  method only on that subclass. Each mutating method's `modifies` clause names
  the one field it writes, and its `ensures` says what the other fields keep.

## Model

| member | source | states |
|---|---|---|
| `Normalizer.Flatten` | main.py:6 | the concatenation's length is the sum of the sub-list lengths, and its multiset is the union of the sub-lists' multisets |
| `Normalizer.FlattenAppend` | main.py:6 | flattening distributes over appending outer lists, and so do the multiset union and the total length |
| `Normalizer.FlattenAt` | main.py:6 | element `j` of sub-list `i` is at position (total length of sub-lists `0..i-1`) + `j` of the concatenation, so sub-lists keep their order and their contents |
| `Normalizer.FlattenEmptyIff` | main.py:6 | the concatenation is empty exactly when every sub-list is empty |
| `Normalizer.FlattenSingleton` | main.py:6 | a single sub-list flattens to itself |
| `Normalizer.Insert` | main.py:7 | inserting into an ascending sequence gives an ascending sequence with that one element added to its multiset |
| `Normalizer.Sort` | main.py:7 | the result is ascending and is a permutation (same multiset) of the input |
| `Normalizer.SortedIffAdjacent` | main.py:7 | "every earlier element is at most every later one" holds exactly when each element is at most its successor |
| `Normalizer.TailBag` | main.py:7 | dropping the head of an ascending sequence leaves it ascending and removes one copy of the head from its multiset |
| `Normalizer.SortedUnique` | main.py:7 | two ascending sequences with the same multiset are equal, so the sorted result does not depend on which correct sort produced it |
| `Normalizer.SortOfSorted` | main.py:7 | sorting an already ascending sequence returns it unchanged |
| `Normalizer.FlattenAndSort` | main.py:5-8 | the result is ascending, its multiset is the union of the sub-lists' multisets, and its length is the sum of their lengths |
| `Normalizer.SortedPermutationIsResult` | main.py:5-8 | any ascending rearrangement of the concatenation is exactly the result |
| `Normalizer.SameResultIffSameBag` | main.py:5-8 | two inputs give the same result exactly when their sub-lists together hold the same elements with the same multiplicities |
| `Normalizer.SubListOrderIrrelevant` | main.py:5-8 | swapping two blocks of sub-lists does not change the result |
| `Normalizer.EmptySubListIgnored` | main.py:5-8 | an empty sub-list anywhere in the input contributes nothing |
| `Normalizer.EmptyResultIff` | main.py:5-8 | the result is empty exactly when every sub-list is empty (including an empty outer list) |
| `Normalizer.Idempotent` | main.py:5-8 | wrapping the result as the only sub-list and running again returns the same result |
| `Normalizer.DemoScenario` | main.py:10-11 | `[[3,2,1],[4,6,5],[],[9,7,8]]` gives `[1,2,3,4,5,6,7,8,9]` |
| `Normalizer.SmallScenarios` | main.py:5-8 | `[[2,2,1],[1]]` gives `[1,1,2,2]` (duplicates kept), `[[5]]` gives `[5]`, and `[[],[],[]]` gives `[]` |
| `Podracers.Podracer.constructor` | main.py:52-55 | a new podracer holds exactly the given speed, condition and price |
| `Podracers.Podracer.Repair` | main.py:57-58 | condition becomes `"repaired"`; speed and price are unchanged, and no other field or object is written |
| `Podracers.Podracer.Boost` | main.py:61-62 | on Anakin's pod, speed becomes twice its old value; condition and price are unchanged |
| `Podracers.Podracer.FlameJet` | main.py:65-66 | on Sebulba's pod, the other pod's condition becomes `"trashed"` while its speed and price stay; the caller's own fields are unchanged unless the other pod is the caller itself |
| `Podracers.Race` | main.py:68-72 | the script's run ends with Anakin's pod at speed 1400 and `"perfect"`, Sebulba's at 600 and `"perfect"`, and the generic pod at 500 and `"trashed"` |

## Left out

- The `print` calls (main.py:12, 74-76) are console output. The values they would print are the results of `Normalizer.DemoScenario` and `Podracers.Race`.
- Python's `TypeError` when `sorted` meets elements that cannot be compared is not modelled. Elements are `int`, so every pair is comparable.
- Timsort itself and its stability are not modelled. With integer elements, stability cannot be observed, and `SortedUnique` shows that every correct sort gives the same result.
- `flatten_and_sort` accepts any iterable of iterables (tuples, generators), and `chain.from_iterable` is lazy. The model takes a `seq<seq<int>>` and returns the concatenation already built, as `list(...)` on main.py:6 does.
- Non-integer attribute values are not modelled. Python would accept a float `max_speed` or any object as `price`; the model uses `int` for both and `string` for `condition`. Dafny's `int` is unbounded like Python's, so doubling never overflows.
- Podracers.Podracer.Boost, Podracers.Podracer.FlameJet: calling these on the wrong variant is an `AttributeError` in Python. The model rules it out with a precondition on the variant tag instead of modelling the error.
- Podracers.Podracer.FlameJet: `other` is a non-null `Podracer`. Python's `flame_jet` sets `condition` on any object that accepts a new attribute, and raises `AttributeError` on one that does not (`None`, an `int`, a string); the script only ever passes a podracer (main.py:72).
- The comments at main.py:14-24 promise that the input is not modified, that new lists are returned and that the function is pure. These hold in the model because sequences are values: `FlattenAndSort` cannot change its argument and always yields a new sequence.
- The prose comments at main.py:26-45 and 79-131 describe no behaviour.
