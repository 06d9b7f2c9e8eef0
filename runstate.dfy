/**
 * What a benchmark body sees of the benchmark runtime's per-run state: the
 * iteration count, the two range parameters, an error flag set by
 * SkipWithError, and the counters the body attaches; and reportCounters,
 * which derives the throughput counters shared by all nine benchmarks.
 */
module RunState {

  datatype Option<T> = None | Some(value: T)

  /** sizeof(int) on the platforms the benchmarks are built for. */
  const IntBytes: nat := 4
  /** sizeof(LargeThing), an array of 1024 ints. */
  const LargeThingBytes: nat := 1024 * IntBytes
  /** The largest value in the default range table (10 << 10). */
  const MaxRange: nat := 10 * 1024
  const Int64Max: int := 0x7fff_ffff_ffff_ffff

  /** The three values reportCounters attaches to a run. */
  datatype Counters = Counters(items: int, bytes: int, size: int)

  /**
   * The counters for a run of `iterations` iterations that each process
   * range0 items of bytesPerItem bytes.
   */
  function CountersFor(iterations: nat, range0: int, bytesPerItem: nat): (r: Counters)
    ensures r.size == range0
    ensures r.items == iterations * r.size
    ensures r.bytes == r.items * bytesPerItem
    ensures iterations == 0 ==> r.items == 0 && r.bytes == 0
    ensures range0 >= 0 ==> 0 <= r.items && 0 <= r.bytes
  {
    var items := iterations * range0;
    Counters(items, items * bytesPerItem, range0)
  }

  /**
   * The products reportCounters forms in int64 cannot overflow for any count in
   * the default range table and either element profile, for up to 2^36
   * iterations, so unbounded integers compute the same counters.
   */
  lemma CountersFitInt64(iterations: nat, range0: int, bytesPerItem: nat)
    requires iterations <= 0x10_0000_0000
    requires 0 <= range0 <= MaxRange
    requires bytesPerItem <= LargeThingBytes
    ensures 0 <= CountersFor(iterations, range0, bytesPerItem).items <= Int64Max
    ensures 0 <= CountersFor(iterations, range0, bytesPerItem).bytes <= Int64Max
  {
    var r := CountersFor(iterations, range0, bytesPerItem);
    assert r.items <= 0x10_0000_0000 * MaxRange by {
      MulMonotone(iterations, 0x10_0000_0000, range0, MaxRange);
    }
    assert r.bytes <= 0x10_0000_0000 * MaxRange * LargeThingBytes by {
      MulMonotone(r.items, 0x10_0000_0000 * MaxRange, bytesPerItem, LargeThingBytes);
    }
  }

  lemma MulMonotone(a: nat, b: nat, c: nat, d: nat)
    requires a <= b && c <= d
    ensures a * c <= b * d
  {
  }

  /** The message BM_RemoveMiddle skips its run with. */
  const RangeError := "Range to remove is larger than range to initialize"

  class State {
    const iterations: nat
    const range0: int
    const range1: int
    var error: Option<string>
    var itemsProcessed: Option<int>
    var bytesProcessed: Option<int>
    var counters: map<string, int>

    /** The state a benchmark body starts with: no error and nothing attached. */
    constructor (iterations: nat, range0: int, range1: int)
      ensures this.iterations == iterations && this.range0 == range0 && this.range1 == range1
      ensures error == None && !HasCounters()
    {
      this.iterations, this.range0, this.range1 := iterations, range0, range1;
      error, itemsProcessed, bytesProcessed, counters := None, None, None, map[];
    }

    /** True once any counter has been attached to the run. */
    predicate HasCounters()
      reads this
    {
      itemsProcessed.Some? || bytesProcessed.Some? || counters != map[]
    }

    method SkipWithError(message: string)
      modifies this
      ensures error == Some(message)
      ensures itemsProcessed == old(itemsProcessed) && bytesProcessed == old(bytesProcessed)
      ensures counters == old(counters)
    {
      error := Some(message);
    }

    method SetItemsProcessed(n: int)
      modifies this
      ensures itemsProcessed == Some(n)
      ensures error == old(error) && bytesProcessed == old(bytesProcessed) && counters == old(counters)
    {
      itemsProcessed := Some(n);
    }

    method SetBytesProcessed(n: int)
      modifies this
      ensures bytesProcessed == Some(n)
      ensures error == old(error) && itemsProcessed == old(itemsProcessed) && counters == old(counters)
    {
      bytesProcessed := Some(n);
    }

    /** counters[name] = value. */
    method SetCounter(name: string, value: int)
      modifies this
      ensures counters == old(counters)[name := value]
      ensures error == old(error) && itemsProcessed == old(itemsProcessed)
      ensures bytesProcessed == old(bytesProcessed)
    {
      counters := counters[name := value];
    }
  }

  /**
   * reportCounters(state, bytes_per_item): items and bytes processed over the
   * whole run and the "size" counter, all derived from the iteration count and
   * range0; the error flag is left alone.
   */
  method ReportCounters(st: State, bytesPerItem: nat)
    modifies st
    ensures st.itemsProcessed == Some(CountersFor(st.iterations, st.range0, bytesPerItem).items)
    ensures st.bytesProcessed == Some(CountersFor(st.iterations, st.range0, bytesPerItem).bytes)
    ensures st.counters == old(st.counters)["size" := st.range0]
    ensures st.HasCounters()
    ensures st.error == old(st.error)
  {
    var r := CountersFor(st.iterations, st.range0, bytesPerItem);
    st.SetItemsProcessed(r.items);
    st.SetBytesProcessed(r.bytes);
    st.SetCounter("size", r.size);
  }
}
