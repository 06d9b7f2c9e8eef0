/**
 * One measured iteration of each insertion benchmark (BM_InsertFront,
 * BM_InsertBack, BM_InsertMiddle). Each builds its own container and returns
 * what the container holds when the iteration ends.
 */
module Insertion {
  import opened Container

  /** BM_InsertFront: range0 copies through an inserter at begin() of an empty container. */
  method InsertFrontIteration<T>(range0: int, value: T) returns (final: seq<T>)
    ensures |final| == FillCount(range0)
    ensures forall i :: 0 <= i < |final| ==> final[i] == value
  {
    var container := new SeqContainer<T>();
    var cursor := FillAt(container, 0, range0, value);
    final := container.elems;
  }

  /** BM_InsertBack: range0 copies through a back_inserter into an empty container. */
  method InsertBackIteration<T>(range0: int, value: T) returns (final: seq<T>)
    ensures |final| == FillCount(range0)
    ensures forall i :: 0 <= i < |final| ==> final[i] == value
  {
    var container := new SeqContainer<T>();
    FillBack(container, range0, value);
    final := container.elems;
  }

  /**
   * BM_InsertMiddle: untimed, a container of range1 copies and an iterator
   * advanced to range1 / 2; timed, range0 copies through an inserter at that
   * iterator. The copies occupy range1/2 .. range1/2 + range0 - 1 and the
   * original elements keep their order around them. range1 must not be
   * negative, since std::advance cannot move before begin().
   */
  method InsertMiddleIteration<T>(range0: int, range1: nat, value: T) returns (final: seq<T>)
    ensures final == InsertedAt(Copies(range1, value), range1 / 2, range0, value)
    ensures |final| == range1 + FillCount(range0)
  {
    var container := new SeqContainer<T>();
    FillBack(container, range1, value);
    var iter := range1 / 2;
    var cursor := FillAt(container, iter, range0, value);
    final := container.elems;
  }
}
