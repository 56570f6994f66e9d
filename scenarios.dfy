/**
 * Client programs that use the vector and its iterator only through their
 * contracts: what a caller can conclude about growth, forward, backward and
 * mixed draining, and the destructor. The allocator succeeds throughout, and
 * `elemSize` is small enough for every capacity reached.
 */
module Scenarios {

  import opened Wrappers
  import opened Growth
  import opened RustVec

  /** The capacities after each of five pushes onto an empty vector: 1, 2, 4, 4, 8. */
  method GrowthSequence<T(0)>(elemSize: nat, x: T) returns (caps: seq<nat>)
    requires 0 < elemSize && 8 * elemSize <= ISIZE_MAX
    ensures caps == [1, 2, 4, 4, 8]
  {
    var v := new Vec<T>.Empty(elemSize);
    caps := [];
    var r := v.Push(x, true);
    caps := caps + [v.cap];
    r := v.Push(x, true);
    caps := caps + [v.cap];
    r := v.Push(x, true);
    caps := caps + [v.cap];
    r := v.Push(x, true);
    caps := caps + [v.cap];
    r := v.Push(x, true);
    caps := caps + [v.cap];
  }

  /** Pushing a, b, c and then consuming from the front yields a, b, c and then nothing. */
  method ForwardDrain<T(0)>(elemSize: nat, a: T, b: T, c: T) returns (got: seq<Option<T>>)
    requires 0 < elemSize && 4 * elemSize <= ISIZE_MAX
    ensures got == [Some(a), Some(b), Some(c), None]
  {
    var v := new Vec<T>.Empty(elemSize);
    var r := v.Push(a, true);
    r := v.Push(b, true);
    r := v.Push(c, true);
    assert v.Contents == [a, b, c];
    var it := v.IntoIter();
    assert it.Orig == [a, b, c] && it.start == 0 && it.end == 3;
    var x1 := it.Next();
    assert x1 == Some(a) && it.start == 1;
    var x2 := it.Next();
    assert x2 == Some(b) && it.start == 2;
    var x3 := it.Next();
    assert x3 == Some(c) && it.start == 3;
    var x4 := it.Next();
    got := [x1, x2, x3, x4];
    it.Drop();
  }

  /** Pushing a, b, c and then consuming from the back yields c, b, a and then nothing. */
  method BackwardDrain<T(0)>(elemSize: nat, a: T, b: T, c: T) returns (got: seq<Option<T>>)
    requires 0 < elemSize && 4 * elemSize <= ISIZE_MAX
    ensures got == [Some(c), Some(b), Some(a), None]
  {
    var v := new Vec<T>.Empty(elemSize);
    var r := v.Push(a, true);
    r := v.Push(b, true);
    r := v.Push(c, true);
    assert v.Contents == [a, b, c];
    var it := v.IntoIter();
    assert it.Orig == [a, b, c] && it.end == 3;
    var x1 := it.NextBack();
    assert x1 == Some(c) && it.end == 2;
    var x2 := it.NextBack();
    assert x2 == Some(b) && it.end == 1;
    var x3 := it.NextBack();
    assert x3 == Some(a) && it.end == 0;
    var x4 := it.NextBack();
    got := [x1, x2, x3, x4];
    it.Drop();
  }

  /**
   * Pushing a, b, c, d, taking a from the front and d from the back leaves
   * exactly two values, reported by the size hint; they come out as b from the
   * front and c from the back, and then neither end yields anything.
   */
  method MixedDrain<T(0)>(elemSize: nat, a: T, b: T, c: T, d: T)
    returns (front: Option<T>, back: Option<T>, hint: (usize, Option<usize>), rest: seq<Option<T>>)
    requires 0 < elemSize && 4 * elemSize <= ISIZE_MAX
    ensures front == Some(a) && back == Some(d)
    ensures hint == (2, Some(2))
    ensures rest == [Some(b), Some(c), None, None]
  {
    var v := new Vec<T>.Empty(elemSize);
    var r := v.Push(a, true);
    r := v.Push(b, true);
    r := v.Push(c, true);
    r := v.Push(d, true);
    assert v.Contents == [a, b, c, d];
    var it := v.IntoIter();
    assert it.Orig == [a, b, c, d] && it.start == 0 && it.end == 4;
    front := it.Next();
    back := it.NextBack();
    assert it.start == 1 && it.end == 3;
    hint := it.SizeHint();
    var x1 := it.Next();
    assert x1 == Some(b) && it.start == 2;
    var x2 := it.NextBack();
    assert x2 == Some(c) && it.start == it.end;
    var x3 := it.Next();
    var x4 := it.NextBack();
    rest := [x1, x2, x3, x4];
    it.Drop();
  }

  /**
   * Dropping a partly consumed iterator drops the values not yet yielded, in
   * order, and frees the four-slot buffer once.
   */
  method DropAfterPartialDrain<T(0)>(elemSize: nat, a: T, b: T, c: T, d: T)
    returns (first: Option<T>, ghost dropped: seq<T>, ghost freed: seq<nat>)
    requires 0 < elemSize && 4 * elemSize <= ISIZE_MAX
    ensures first == Some(a)
    ensures dropped == [b, c, d] && freed == [4 * elemSize]
  {
    var v := new Vec<T>.Empty(elemSize);
    var r := v.Push(a, true);
    r := v.Push(b, true);
    r := v.Push(c, true);
    r := v.Push(d, true);
    assert v.Contents == [a, b, c, d] && v.cap == 4;
    var it := v.IntoIter();
    assert it.Orig == [a, b, c, d] && it.start == 0 && it.end == 4;
    first := it.Next();
    assert it.Remaining() == [b, c, d];
    it.Drop();
    dropped, freed := it.Dropped, it.Deallocated;
  }

  /** An empty vector's iterator yields nothing, and dropping it frees nothing. */
  method EmptyDrain<T(0)>(elemSize: nat) returns (got: Option<T>, hint: (usize, Option<usize>), ghost freed: seq<nat>)
    requires 0 < elemSize
    ensures got == None && hint == (0, Some(0)) && freed == []
  {
    var v := new Vec<T>.Empty(elemSize);
    var it := v.IntoIter();
    hint := it.SizeHint();
    got := it.Next();
    it.Drop();
    freed := it.Deallocated;
  }
}
