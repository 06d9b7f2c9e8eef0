/**
 * One measured iteration of each removal benchmark (BM_RemoveFront,
 * BM_RemoveBack, BM_RemoveMiddle), and BM_RemoveMiddle's configuration check
 * with its guarded report.
 */
module Removal {
  import opened Container
  import opened RunState

  /**
   * BM_RemoveFront: untimed, a container of range0 copies; timed, erase
   * begin() while the container is not empty. The loop ends with an empty
   * container after exactly range0 erasures.
   */
  method RemoveFrontIteration<T>(range0: int, value: T) returns (final: seq<T>, removals: nat)
    ensures final == []
    ensures removals == FillCount(range0)
  {
    var container := new SeqContainer<T>();
    FillBack(container, range0, value);
    removals := 0;
    while !container.Empty()
      invariant removals + |container.elems| == FillCount(range0)
      decreases |container.elems|
    {
      var next := container.Erase(0);
      removals := removals + 1;
    }
    final := container.elems;
  }

  /**
   * BM_RemoveBack: untimed, a container of range0 copies; timed, pop_back()
   * while the container is not empty: exactly range0 removals.
   */
  method RemoveBackIteration<T>(range0: int, value: T) returns (final: seq<T>, removals: nat)
    ensures final == []
    ensures removals == FillCount(range0)
  {
    var container := new SeqContainer<T>();
    FillBack(container, range0, value);
    removals := 0;
    while !container.Empty()
      invariant removals + |container.elems| == FillCount(range0)
      decreases |container.elems|
    {
      container.PopBack();
      removals := removals + 1;
    }
    final := container.elems;
  }

  /**
   * Where BM_RemoveMiddle's erase cursor starts in its range1 + 1 elements:
   * (range1 - range0) / 2, which is the same under C++'s truncating division
   * since the operand is not negative. The window of range0 elements fits, and
   * it is centred: at most two more elements follow it than precede it.
   */
  function WindowStart(range0: nat, range1: nat): (start: nat)
    requires range0 <= range1
    ensures start + range0 <= range1 + 1
    ensures start + 1 <= (range1 + 1) - (start + range0) <= start + 2
  {
    (range1 - range0) / 2
  }

  /**
   * BM_RemoveMiddle's iteration: untimed, range1 + 1 copies and an iterator at
   * WindowStart; timed, range0 erasures, each at the position the previous
   * one returned (the element that slid into the erased slot). Every
   * erase is within bounds; range1 + 1 - range0 elements remain, the ones
   * before and after the window, in order. The runtime runs no iteration once
   * the run was skipped, so range0 <= range1 here; range0 is not negative,
   * since the loop bound is converted to size_t.
   */
  method RemoveMiddleIteration<T>(range0: nat, range1: nat, value: T) returns (final: seq<T>)
    requires range0 <= range1
    ensures final == ErasedAt(Copies(range1 + 1, value), WindowStart(range0, range1), range0)
    ensures |final| == range1 + 1 - range0
  {
    var container := new SeqContainer<T>();
    FillBack(container, range1 + 1, value);
    ghost var initial := container.elems;
    var iter := WindowStart(range0, range1);
    var pos := 0;
    while pos < range0
      invariant 0 <= pos <= range0
      invariant iter == WindowStart(range0, range1)
      invariant container.elems == initial[..iter] + initial[iter + pos..]
    {
      ghost var cur := container.elems;
      assert cur[..iter] == initial[..iter];
      assert cur[iter + 1..] == initial[iter + pos + 1..];
      iter := container.Erase(iter);
      pos := pos + 1;
    }
    final := container.elems;
  }

  /**
   * BM_RemoveMiddle's checks around its iterations: a run whose range0 exceeds
   * range1 is skipped with an error and gets no counters; any other run keeps
   * its error flag and gets reportCounters' counters.
   */
  method RemoveMiddleBenchmark(st: State, bytesPerItem: nat)
    modifies st
    ensures st.error == if st.range0 > st.range1 then Some(RangeError) else old(st.error)
    ensures st.range0 > st.range1 ==>
      st.itemsProcessed == old(st.itemsProcessed) && st.bytesProcessed == old(st.bytesProcessed) &&
      st.counters == old(st.counters)
    ensures st.range0 <= st.range1 ==>
      st.itemsProcessed == Some(CountersFor(st.iterations, st.range0, bytesPerItem).items) &&
      st.bytesProcessed == Some(CountersFor(st.iterations, st.range0, bytesPerItem).bytes) &&
      st.counters == old(st.counters)["size" := st.range0]
    ensures old(st.error) == None && !old(st.HasCounters()) ==>
      (st.error.Some? <==> st.range0 > st.range1) && (st.HasCounters() <==> st.range0 <= st.range1)
  {
    if st.range0 > st.range1 {
      st.SkipWithError(RangeError);
    }
    // The measured iterations run here, one RemoveMiddleIteration each.
    if st.range1 >= st.range0 {
      ReportCounters(st, bytesPerItem);
    }
  }
}
