/**
 * The access benchmarks (BM_AccessForward, BM_AccessBackward,
 * BM_AccessRandom): a container is populated once, before the measured
 * iterations, and every iteration reads elements of it without changing it.
 * Each iteration returns what it read, and the random pattern also the
 * positions it read them at.
 */
module Access {
  import opened Container

  /** s read from the last element to the first. */
  function Reversed<T>(s: seq<T>): (r: seq<T>)
    ensures |r| == |s|
    ensures forall k :: 0 <= k < |s| ==> r[k] == s[|s| - 1 - k]
  {
    seq(|s|, k requires 0 <= k < |s| => s[|s| - 1 - k])
  }

  /** Reading in reverse order reads every element as often as reading forward. */
  lemma {:induction false} ReversedSameElements<T>(s: seq<T>)
    ensures multiset(Reversed(s)) == multiset(s)
  {
    if s != [] {
      var init := s[..|s| - 1];
      ReversedSameElements(init);
      assert Reversed(s) == [s[|s| - 1]] + Reversed(init);
      assert s == init + [s[|s| - 1]];
    }
  }

  /** The setup outside the measured loop: range copies through a back_inserter. */
  method Populate<T>(range: int, value: T) returns (container: SeqContainer<T>)
    ensures fresh(container)
    ensures container.elems == Copies(range, value)
  {
    container := new SeqContainer<T>();
    FillBack(container, range, value);
  }

  /** One iteration of BM_AccessForward: every element once, begin() to end(). */
  method AccessForwardIteration<T>(container: SeqContainer<T>) returns (visited: seq<T>)
    ensures visited == container.elems
  {
    visited := [];
    var i := 0;
    while i < container.Size()
      invariant i <= |container.elems|
      invariant visited == container.elems[..i]
    {
      visited := visited + [container.At(i)];
      i := i + 1;
    }
  }

  /**
   * One iteration of BM_AccessBackward: every element once, rbegin() to
   * rend(). It reads the same elements as the forward walk, in exactly the
   * reverse order.
   */
  method AccessBackwardIteration<T>(container: SeqContainer<T>) returns (visited: seq<T>)
    ensures visited == Reversed(container.elems)
    ensures Reversed(visited) == container.elems
    ensures multiset(visited) == multiset(container.elems)
  {
    visited := [];
    var i: nat := container.Size();
    while i > 0
      invariant i <= |container.elems|
      invariant |visited| == |container.elems| - i
      invariant forall k :: 0 <= k < |visited| ==> visited[k] == container.elems[|container.elems| - 1 - k]
    {
      i := i - 1;
      visited := visited + [container.At(i)];
    }
    ReversedSameElements(container.elems);
  }

  /**
   * The positions BM_AccessRandom touches while its cursor counts down from
   * pos to 1: pos and size - pos at each step.
   */
  function SpiralFrom(size: nat, pos: nat): (touched: seq<int>)
    requires pos <= size / 2
    decreases pos
  {
    if pos == 0 then [] else [pos, size - pos] + SpiralFrom(size, pos - 1)
  }

  /** The "inward spiral" of one BM_AccessRandom iteration, from pos = size / 2 down. */
  function Spiral(size: nat): (touched: seq<int>)
  {
    SpiralFrom(size, size / 2)
  }

  lemma {:induction false} SpiralFromLength(size: nat, pos: nat)
    requires pos <= size / 2
    ensures |SpiralFrom(size, pos)| == 2 * pos
  {
    if pos > 0 {
      SpiralFromLength(size, pos - 1);
    }
  }

  /**
   * One iteration touches 2 * (size / 2) positions, which is the size that
   * reportCounters reports per iteration exactly when size is even.
   */
  lemma SpiralLength(size: nat)
    ensures |Spiral(size)| == 2 * (size / 2)
    ensures |Spiral(size)| == size <==> size % 2 == 0
  {
    SpiralFromLength(size, size / 2);
  }

  /**
   * How many times p occurs in s, counted one element at a time. It equals
   * multiset(s)[p] (OccurrencesIsMultiplicity); the induction over SpiralFrom
   * is stated with it because the solver handles this recursive count far
   * more cheaply than the multiset of a concatenation.
   */
  function Occurrences(s: seq<int>, p: int): (n: nat)
  {
    if s == [] then 0 else (if s[0] == p then 1 else 0) + Occurrences(s[1..], p)
  }

  lemma {:induction false} OccurrencesIsMultiplicity(s: seq<int>, p: int)
    ensures Occurrences(s, p) == multiset(s)[p]
  {
    if s != [] {
      OccurrencesIsMultiplicity(s[1..], p);
      assert s == [s[0]] + s[1..];
    }
  }

  /**
   * While counting down from pos, position p is touched once as a near
   * position (1 <= p <= pos) and once as a far one (size - pos <= p < size).
   */
  lemma {:induction false} SpiralFromVisits(size: nat, pos: nat, p: int)
    requires pos <= size / 2
    ensures Occurrences(SpiralFrom(size, pos), p) ==
      (if 1 <= p <= pos then 1 else 0) + (if size - pos <= p < size then 1 else 0)
  {
    if pos > 0 {
      var s := SpiralFrom(size, pos);
      SpiralFromVisits(size, pos - 1, p);
      assert s[1..][1..] == SpiralFrom(size, pos - 1);
    }
  }

  /**
   * How often one iteration touches position p: once for every position in
   * [1, size - 1], except that the middle position of an even size is touched
   * twice; positions 0 and size (the last element) are never touched.
   */
  lemma SpiralVisits(size: nat, p: int)
    ensures multiset(Spiral(size))[p] ==
      if 1 <= p < size then (if 2 * p == size then 2 else 1) else 0
  {
    SpiralFromVisits(size, size / 2, p);
    OccurrencesIsMultiplicity(Spiral(size), p);
  }

  /** Every position touched lies in [1, size - 1]. */
  lemma SpiralInBounds(size: nat, k: nat)
    requires k < |Spiral(size)|
    ensures 1 <= Spiral(size)[k] < size
  {
    var p := Spiral(size)[k];
    assert p in multiset(Spiral(size));
    SpiralVisits(size, p);
  }

  /**
   * One iteration of BM_AccessRandom over a container of at least size
   * elements (the benchmark builds size + 1): for pos from size / 2 down to 1,
   * read the element at pos and the one at size - pos. Both reads are inside
   * the container, and the positions are exactly Spiral(size). A size below 2
   * touches nothing, so then any container will do.
   */
  method AccessRandomIteration<T>(container: SeqContainer<T>, size: nat) returns (touched: seq<int>, visited: seq<T>)
    requires size < 2 || size <= |container.elems|
    ensures touched == Spiral(size)
    ensures |visited| == |touched|
    ensures forall k :: 0 <= k < |touched| ==>
      0 <= touched[k] < |container.elems| && visited[k] == container.elems[touched[k]]
  {
    touched, visited := [], [];
    var pos: nat := size / 2;
    while pos > 0
      invariant pos <= size / 2
      invariant touched + SpiralFrom(size, pos) == Spiral(size)
      invariant |visited| == |touched|
      invariant forall k :: 0 <= k < |touched| ==>
        0 <= touched[k] < |container.elems| && visited[k] == container.elems[touched[k]]
    {
      var near := container.At(pos);
      var far := container.At(size - pos);
      assert SpiralFrom(size, pos) == [pos, size - pos] + SpiralFrom(size, pos - 1);
      touched := touched + [pos, size - pos];
      visited := visited + [near, far];
      pos := pos - 1;
    }
  }
}
