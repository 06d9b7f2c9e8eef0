/**
 * Three runs worked through the contracts of the iterations and of
 * reportCounters: two with pairs from the default range table, and one
 * skipped run whose pair (range1 below range0) the table never produces.
 */
module Scenarios {
  import opened Container
  import opened RunState
  import Insertion
  import Removal

  /** BM_InsertMiddle with range0 = 1, range1 = 10 << 10 over int elements. */
  method InsertMiddleScenario(iterations: nat, value: int) {
    var final := Insertion.InsertMiddleIteration(1, 10 * 1024, value);
    assert |final| == 10241;
    assert final[5120] == value && final[5121] == value;
    var st := new State(iterations, 1, 10 * 1024);
    ReportCounters(st, IntBytes);
    assert st.itemsProcessed == Some(iterations);
    assert st.bytesProcessed == Some(iterations * IntBytes);
    assert st.counters["size"] == 1;
  }

  /** BM_RemoveFront with range0 = 10 << 10: empty after exactly 10240 erasures. */
  method RemoveFrontScenario(value: int) {
    var final, removals := Removal.RemoveFrontIteration(10 * 1024, value);
    assert final == [] && removals == 10240;
  }

  /** BM_RemoveMiddle with range0 > range1, outside the default range table: skipped, and nothing attached. */
  method RemoveMiddleSkippedScenario(iterations: nat) {
    var st := new State(iterations, 10 * 1024, 1);
    Removal.RemoveMiddleBenchmark(st, LargeThingBytes);
    assert st.error == Some(RangeError);
    assert !st.HasCounters();
  }
}
