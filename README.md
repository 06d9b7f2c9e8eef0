# ContainerBench, modelled in Dafny

ContainerBench is a Google Benchmark suite. It measures insertion, removal and
traversal on `std::vector`, `std::list` and `std::deque`, with `int` elements and
with 4 KB `LargeThing` elements. Each benchmark body runs one fixed sequence
operation per measured iteration. At the end it calls `reportCounters`, which
derives the items-processed and bytes-processed counters from the iteration
count and `range(0)`.

This project models those bodies. All three containers behave as the same
abstract sequence, so one class stands for them:

- `container.dfy` (module `Container`): `SeqContainer<T>`, a class whose `elems: seq<T>`
  field its methods update in place (`PushBack`, `Insert`, `Erase`, `PopBack`).
  Iterators are positions. `FillBack` and `FillAt` model `std::fill_n` through a
  `back_inserter` and through an `inserter`. A negative count writes nothing
  (`FillCount`). An inserter puts every copy at the cursor and then steps past
  it, so the copies land next to each other.
- `runstate.dfy` (module `RunState`): the runtime's `State` reduced to what the
  bodies use. That is the iteration count, `range(0)`, `range(1)`, the error set by
  `SkipWithError`, and the attached counters. It also holds `reportCounters`.
- `insertion.dfy`, `removal.dfy`, `access.dfy`: one method per benchmark
  iteration. A mutating benchmark builds its own container in each iteration, so
  its method allocates one and returns the final contents. The access benchmarks
  populate a container once, before the measured loop (`Access.Populate`). Their
  iteration methods take that container and return what they read.
  `RemoveMiddleBenchmark` models `BM_RemoveMiddle`'s configuration check and its
  guarded call to `reportCounters`.
- `scenarios.dfy`: three runs, worked out from the contracts above.
  `BM_InsertMiddle` with range0 = 1 and range1 = 10 << 10. `BM_RemoveFront`
  with range0 = 10 << 10. `BM_RemoveMiddle` with range0 = 10 << 10 and
  range1 = 1, which takes the skip path. That last pair lies outside the
  default range table, whose range1 is always 10 << 10 and so never below
  range0; under the registrations the skip path never runs.

The random-access pattern follows the code. For `pos` from `size/2` down to 1,
it touches `pos` and `size - pos`. Every position in `[1, size-1]` is touched once,
except that for an even `size` the middle position is touched twice. Position 0
and position `size` (the last of the `size + 1` elements) are never touched. An
iteration makes `2*(size/2)` touches. That equals the `size` items reported per
iteration only when `size` is even, which is what the comment at
src/ContainerBench.cpp:166 assumes. A natural reading of that comment would
have every position touched twice except the middle one; the code does not do
that, and the model states what the code does (`Access.SpiralVisits`).

## Model

| member | source | states |
|---|---|---|
| Container.FillBack | src/ContainerBench.cpp:53 | `std::fill_n` through a `back_inserter` appends exactly `FillCount(count)` copies of the value after the existing elements |
| Container.FillAt | src/ContainerBench.cpp:68 | `std::fill_n` through an `inserter` at position `it` leaves the contents as `InsertedAt(old, it, count, v)`; the final cursor is `it + FillCount(count)` |
| Container.InsertedAt | src/ContainerBench.cpp:68 | after inserting `count` copies at `pos`: the size grows by `FillCount(count)`; positions before `pos` are unchanged; the copies fill `pos .. pos+count-1`; the old suffix follows them in order |
| Container.ErasedAt | src/ContainerBench.cpp:118-120 | after erasing `count` elements from `pos`: the size shrinks by `count`; the prefix is kept; every later element is the one `count` places further on in the old sequence |
| RunState.CountersFor | src/ContainerBench.cpp:20-24 | the `"size"` counter is `range0`; items equal `iterations * range0`; bytes equal items times `bytes_per_item`; with zero iterations both are 0; for a non-negative range0 both are non-negative |
| RunState.CountersFitInt64 | src/ContainerBench.cpp:21-22 | the int64 products do not overflow for any count in the default range table, either element size, and up to 2^36 iterations |
| RunState.ReportCounters | src/ContainerBench.cpp:20-24 | sets items processed, bytes processed and `counters["size"]` to `CountersFor`'s values; the other counters and the error flag are not changed |
| Insertion.InsertFrontIteration | src/ContainerBench.cpp:41-44 | starting from an empty container, it ends with exactly `range0` elements (none for a negative range0), every one equal to `value` |
| Insertion.InsertBackIteration | src/ContainerBench.cpp:51-54 | starting from an empty container, it ends with exactly `range0` elements (none for a negative range0), every one equal to `value` |
| Insertion.InsertMiddleIteration | src/ContainerBench.cpp:61-69 | the final contents are the `range1` originals with the `range0` copies inserted at `range1/2`; the size is `range1 + range0` |
| Removal.RemoveFrontIteration | src/ContainerBench.cpp:78-86 | the erase-at-begin loop ends with an empty container after exactly `range0` erasures |
| Removal.RemoveBackIteration | src/ContainerBench.cpp:93-101 | the `pop_back` loop ends with an empty container after exactly `range0` removals |
| Removal.WindowStart | src/ContainerBench.cpp:116 | the start offset `(range1-range0)/2` plus `range0` is at most `range1+1`, so the window fits; at least one and at most two more elements follow the window than precede it |
| Removal.RemoveMiddleIteration | src/ContainerBench.cpp:111-121 | every erase is in bounds; the remaining `range1 + 1 - range0` elements are the ones before and after the window, in order (`ErasedAt`) |
| Removal.RemoveMiddleBenchmark | src/ContainerBench.cpp:106-125 | if `range0 > range1`, the run gets the error and its counters are unchanged; otherwise the error flag is unchanged and the counters are reported; from a fresh state, error and counters are mutually exclusive, both ways |
| Access.Populate | src/ContainerBench.cpp:133 | the container built before the measured loop holds exactly the `range0` copies |
| Access.AccessForwardIteration | src/ContainerBench.cpp:135-141 | the walk reads exactly the container's elements, in container order |
| Access.AccessBackwardIteration | src/ContainerBench.cpp:152-154 | the walk reads the container's elements in exactly the reverse order; reversing the result gives the forward order back; it is the same multiset as the forward walk |
| Access.ReversedSameElements | src/ContainerBench.cpp:152-154 | a reverse walk reads every element exactly as often as a forward walk |
| Access.AccessRandomIteration | src/ContainerBench.cpp:164-175 | for a container of at least `size` elements, every read is in bounds; the positions read are exactly `Spiral(size)`; each value read is the element at its position |
| Access.SpiralLength | src/ContainerBench.cpp:166-167 | one iteration makes `2*(size/2)` touches; this equals `size` exactly when `size` is even |
| Access.SpiralFromVisits | src/ContainerBench.cpp:167-174 | counting down from `pos`, position `p` is touched once if `1 <= p <= pos` and once more if `size-pos <= p < size` |
| Access.SpiralVisits | src/ContainerBench.cpp:167-174 | position `p` is touched once for `p` in `[1, size-1]`, twice for the middle of an even `size`, and never otherwise |
| Access.SpiralInBounds | src/ContainerBench.cpp:167-174 | every touched position lies in `[1, size-1]` |

## Left out

- The benchmark runtime, a foreign library whose behaviour is not part of this model. This covers:
  - the `for (auto work_iteration : state)` loop that repeats the bodies;
  - `PauseTiming` and `ResumeTiming`;
  - `DoNotOptimize`;
  - `BENCHMARK_MAIN`.

  Each body is modelled as one iteration. The iteration count is a plain number given to `State`.
- The effect of `SkipWithError` on the iteration count. The model records only the error. `RemoveMiddleIteration` requires `range0 <= range1`, because the runtime runs no iteration of a skipped run.
- Timing and measurement. Elapsed time is not something the model can state.
- The `BENCHMARK_TEMPLATE(...)->Ranges(DEFAULT_RANGES)` registrations, and how `Ranges` expands into range pairs. This is declarative registration that the library handles. The largest range value (10 << 10) is kept as `RunState.MaxRange`.
- The differences between `std::vector`, `std::list` and `std::deque`, such as iterator invalidation and cost. One sequence models all three.
- The contents and layout of `LargeThing`. Only its size matters here: `RunState.LargeThingBytes`, with `sizeof(int)` taken as 4.
- The `if constexpr` XOR in `BM_AccessForward`. It only defeats the optimiser and has no observable effect. Reads are modelled as plain reads of the element.
- RunState.CountersFor: uses unbounded integers rather than int64 and the `size_t` conversion. `CountersFitInt64` shows the products stay in range for the default configurations. The `"size"` counter is a double in the runtime; this does not matter for integers below 2^53.
- Negative ranges, none of which the registrations pass (they always pass non-negative values):
  - `range(1) <= -2` for `BM_InsertMiddle` moves the iterator before `begin()`, which is undefined behaviour.
  - `range(1) = -1` for `BM_InsertMiddle` is defined: `fill_n` writes nothing, C++'s truncating `-1 / 2` is 0, and the run inserts range0 copies into an empty container. It is not modelled: `InsertMiddleIteration` takes `range1` as a `nat`.
  - A negative `range(0)` for `BM_RemoveMiddle` and `BM_AccessRandom` turns the loop bound or `size` into a huge `size_t`, which is undefined behaviour; the parameter types exclude it.
- The element value: in the source `value` is default-initialised, so it is indeterminate for both `int` and `LargeThing`. The model takes it as an arbitrary parameter, and the contracts hold for every value.
