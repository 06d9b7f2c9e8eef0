/**
 * A sequence container (std::vector, std::list or std::deque: the benchmarks use
 * only what the three have in common) as one abstract sequence, with iterators
 * modelled as positions, and the two std::fill_n forms the benchmark bodies use
 * to populate containers.
 */
module Container {

  /** How many elements std::fill_n writes for a signed count: none unless count > 0. */
  function FillCount(count: int): (n: nat)
  {
    if count > 0 then count else 0
  }

  /** The elements std::fill_n writes: FillCount(count) copies of v. */
  function Copies<T>(count: int, v: T): (r: seq<T>)
    ensures |r| == FillCount(count)
    ensures forall i :: 0 <= i < |r| ==> r[i] == v
  {
    seq(FillCount(count), _ => v)
  }

  lemma CopiesSnoc<T>(n: nat, v: T)
    ensures Copies(n + 1, v) == Copies(n, v) + [v]
  {
  }

  /**
   * s after count copies of v are inserted one after another at position pos:
   * the prefix before pos is kept, the copies occupy pos .. pos+count-1, and the
   * old suffix follows them in order.
   */
  function InsertedAt<T>(s: seq<T>, pos: nat, count: int, v: T): (r: seq<T>)
    requires pos <= |s|
    ensures |r| == |s| + FillCount(count)
    ensures forall i :: 0 <= i < pos ==> r[i] == s[i]
    ensures forall i :: pos <= i < pos + FillCount(count) ==> r[i] == v
    ensures forall i :: pos + FillCount(count) <= i < |r| ==> r[i] == s[i - FillCount(count)]
  {
    s[..pos] + Copies(count, v) + s[pos..]
  }

  /**
   * s after the count elements starting at pos are erased: the prefix before pos
   * is kept and the elements after the window close up behind it, in order.
   */
  function ErasedAt<T>(s: seq<T>, pos: nat, count: nat): (r: seq<T>)
    requires pos + count <= |s|
    ensures |r| == |s| - count
    ensures forall i :: 0 <= i < pos ==> r[i] == s[i]
    ensures forall i :: pos <= i < |r| ==> r[i] == s[i + count]
  {
    s[..pos] + s[pos + count..]
  }

  class SeqContainer<T> {
    var elems: seq<T>

    /** A default-constructed, empty container. */
    constructor ()
      ensures elems == []
    {
      elems := [];
    }

    function Size(): nat
      reads this
    {
      |elems|
    }

    predicate Empty()
      reads this
    {
      |elems| == 0
    }

    /** *it for an iterator at position pos. */
    function At(pos: nat): T
      reads this
      requires pos < |elems|
    {
      elems[pos]
    }

    /** push_back(x), which std::back_inserter performs on every assignment. */
    method PushBack(x: T)
      modifies this
      ensures elems == old(elems) + [x]
    {
      elems := elems + [x];
    }

    /** insert(it, x): returns an iterator to the inserted element. */
    method Insert(pos: nat, x: T) returns (it: nat)
      requires pos <= |elems|
      modifies this
      ensures elems == old(elems)[..pos] + [x] + old(elems)[pos..]
      ensures it == pos
    {
      elems := elems[..pos] + [x] + elems[pos..];
      it := pos;
    }

    /** erase(it): returns an iterator to the element that followed the erased one. */
    method Erase(pos: nat) returns (it: nat)
      requires pos < |elems|
      modifies this
      ensures elems == old(elems)[..pos] + old(elems)[pos + 1..]
      ensures it == pos
    {
      elems := elems[..pos] + elems[pos + 1..];
      it := pos;
    }

    /** pop_back() on a non-empty container. */
    method PopBack()
      requires |elems| > 0
      modifies this
      ensures elems == old(elems)[..|old(elems)| - 1]
    {
      elems := elems[..|elems| - 1];
    }
  }

  /** std::fill_n(std::back_inserter(c), count, v): appends the copies at the back. */
  method FillBack<T>(c: SeqContainer<T>, count: int, v: T)
    modifies c
    ensures c.elems == old(c.elems) + Copies(count, v)
  {
    var i := 0;
    while i < count
      invariant 0 <= i <= FillCount(count)
      invariant c.elems == old(c.elems) + Copies(i, v)
    {
      CopiesSnoc(i, v);
      c.PushBack(v);
      i := i + 1;
    }
  }

  /**
   * std::fill_n(std::inserter(c, it), count, v): every copy is inserted at the
   * cursor, which then steps past the new element, so the copies land in
   * consecutive positions from it on. Returns the final cursor.
   */
  method FillAt<T>(c: SeqContainer<T>, it: nat, count: int, v: T) returns (cursor: nat)
    requires it <= |c.elems|
    modifies c
    ensures c.elems == InsertedAt(old(c.elems), it, count, v)
    ensures cursor == it + FillCount(count)
  {
    ghost var s := c.elems;
    cursor := it;
    var i := 0;
    while i < count
      invariant 0 <= i <= FillCount(count)
      invariant cursor == it + i
      invariant c.elems == s[..it] + Copies(i, v) + s[it..]
    {
      ghost var cur := c.elems;
      assert cur[..cursor] == s[..it] + Copies(i, v);
      assert cur[cursor..] == s[it..];
      CopiesSnoc(i, v);
      cursor := c.Insert(cursor, v);
      cursor := cursor + 1;
      i := i + 1;
    }
  }
}
