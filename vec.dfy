/**
 * A hand-written growable array (`Vec<T>`) and its consuming double-ended
 * iterator (`IntoIter<T>`).
 *
 * The raw pointer to the allocation is an `array<T>` whose length is the
 * capacity; the dangling pointer of an empty vector is an array of length 0.
 * The allocator is represented by its effect: `alloc`/`realloc` give a fresh
 * array holding the old slots, and whether the allocator succeeds is the
 * parameter `allocOk`. A call that would abort the program (the size assertion
 * in `grow`, `handle_alloc_error`) returns `Aborted` and changes nothing.
 * `size_of::<T>()` is the constant `elemSize`, never 0.
 */
module RustVec {

  import opened Wrappers
  import opened Growth

  /** Why growing the buffer stops the program. */
  datatype Abort =
    | CapacityOverflow        // the new layout would exceed isize::MAX bytes ("Allocation too large")
    | AllocError(size: nat)   // the allocator returned null for a request of `size` bytes

  /** The result of `grow` and `push`: they return normally, or the program aborts. */
  datatype Outcome = Done | Aborted(reason: Abort)

  /** What `grow` does for a buffer of capacity `cap`, given the allocator's answer. */
  function GrowOutcome(cap: nat, elemSize: nat, allocOk: bool): Outcome
  {
    var size := NewCap(cap) * elemSize;
    if size > ISIZE_MAX then Aborted(CapacityOverflow)
    else if !allocOk then Aborted(AllocError(size))
    else Done
  }

  class Vec<T(0)> {
    var buf: array<T>     // ptr: the allocation, buf.Length == cap
    var cap: usize
    var len: usize
    const elemSize: nat   // size_of::<T>()

    ghost var Contents: seq<T>   // the live elements, in order
    ghost var Consumed: bool     // moved into an IntoIter: the vector no longer owns the buffer

    ghost predicate Valid()
      reads this, buf
    {
      0 < elemSize &&
      buf.Length == cap &&
      cap * elemSize <= ISIZE_MAX &&
      len <= cap &&
      Contents == buf[..len] &&
      !Consumed
    }

    /** A new vector: capacity 0, no allocation. */
    constructor Empty(elemSize: nat)
      requires 0 < elemSize
      ensures Valid() && fresh(buf)
      ensures this.elemSize == elemSize && cap == 0 && len == 0 && Contents == []
    {
      this.elemSize := elemSize;
      buf := new T[0];
      cap, len := 0, 0;
      Contents := [];
      Consumed := false;
    }

    /**
     * Allocates room for one element when the capacity is 0 and doubles the
     * capacity otherwise, keeping every slot of the old buffer. A request above
     * isize::MAX bytes, or an allocator failure, aborts before anything changes.
     */
    method Grow(allocOk: bool) returns (r: Outcome)
      requires Valid()
      modifies this
      ensures Valid() && len == old(len) && Contents == old(Contents)
      ensures r == GrowOutcome(old(cap), elemSize, allocOk)
      ensures r.Aborted? ==> unchanged(this)
      ensures r == Done ==> fresh(buf) && cap == NewCap(old(cap)) && buf[..old(cap)] == old(buf[..])
    {
      CapWithinIsize(cap, elemSize);
      var newCap: usize := if cap == 0 then 1 else 2 * cap;
      var newSize := newCap * elemSize;
      if newSize > ISIZE_MAX {
        return Aborted(CapacityOverflow);
      }
      if !allocOk {
        return Aborted(AllocError(newSize));
      }
      var newBuf := new T[newCap];
      if cap != 0 {
        // realloc: the new block starts with the bytes of the old one
        forall i | 0 <= i < cap {
          newBuf[i] := buf[i];
        }
      }
      buf, cap := newBuf, newCap;
      r := Done;
    }

    /**
     * Appends `elem`, growing first exactly when the vector is full. The
     * element goes into slot `len`, the earlier elements stay where they are,
     * and the length goes up by one.
     */
    method Push(elem: T, allocOk: bool) returns (r: Outcome)
      requires Valid()
      modifies this, buf
      ensures Valid()
      ensures r == if old(len) == old(cap) then GrowOutcome(old(cap), elemSize, allocOk) else Done
      ensures old(len) < old(cap) ==> buf == old(buf) && cap == old(cap)
      ensures old(len) == old(cap) && r == Done ==> fresh(buf)
      ensures r == Done ==> len == old(len) + 1 && cap == CapAfterPush(old(len), old(cap))
      ensures r == Done ==> Contents == old(Contents) + [elem] && buf[old(len)] == elem
      ensures r.Aborted? ==> unchanged(this) && buf[..] == old(buf[..])
    {
      if len == cap {
        r := Grow(allocOk);
        if r.Aborted? {
          return;
        }
      } else {
        r := Done;
      }
      CapWithinIsize(cap, elemSize);
      buf[len] := elem;   // ptr::write: the slot held no live value
      len := len + 1;
      Contents := Contents + [elem];
    }

    /**
     * Consumes the vector: the buffer and its capacity move into a new
     * iterator whose remaining region is the vector's contents, and the
     * vector gives up the buffer so it is never freed twice.
     */
    method IntoIter() returns (it: IntoIter<T>)
      requires Valid()
      modifies this
      ensures Consumed && fresh(it)
      ensures it.Valid() && it.buf == old(buf) && it.cap == old(cap) && it.elemSize == elemSize
      ensures it.start == 0 && it.end == old(len)
      ensures it.Remaining() == it.Orig == old(Contents)
      ensures it.Moved == [] && it.Dropped == [] && it.Deallocated == []
    {
      it := new IntoIter.FromParts(buf, cap, len, elemSize);
      Consumed := true;
    }
  }

  class IntoIter<T(0)> {
    const buf: array<T>   // the allocation taken over from the vector
    const cap: usize      // its capacity, needed to free it
    const elemSize: nat
    var start: usize      // first slot not yet moved out from the front
    var end: usize        // one past the last slot not yet moved out from the back

    ghost const Orig: seq<T>       // the vector's contents when it was consumed
    ghost var Moved: seq<nat>      // every slot moved out so far, in order
    ghost var Dropped: seq<T>      // the values the destructor dropped, in order
    ghost var Deallocated: seq<nat>  // byte sizes handed to dealloc

    ghost predicate Valid()
      reads this, buf
    {
      0 < elemSize &&
      buf.Length == cap &&
      cap * elemSize <= ISIZE_MAX &&
      |Orig| <= cap &&
      Orig == buf[..|Orig|] &&
      start <= end <= |Orig| &&
      // each slot outside [start, end) was moved out exactly once, and no other slot was
      |Moved| == start + (|Orig| - end) &&
      (forall i, j :: 0 <= i < j < |Moved| ==> Moved[i] != Moved[j]) &&
      (forall k: nat :: k in Moved <==> k < start || end <= k < |Orig|) &&
      Deallocated == []
    }

    /** The values still to be yielded, front first. */
    ghost function Remaining(): seq<T>
      reads this, buf
      requires Valid()
    {
      buf[start..end]
    }

    /**
     * The iterator built from a vector's buffer, capacity and length. With
     * capacity 0 the end cursor is the start cursor, since a dangling pointer
     * may not be offset; the length is then 0 as well.
     */
    constructor FromParts(buf: array<T>, cap: usize, len: usize, elemSize: nat)
      requires 0 < elemSize && buf.Length == cap && cap * elemSize <= ISIZE_MAX && len <= cap
      ensures Valid()
      ensures this.buf == buf && this.cap == cap && this.elemSize == elemSize
      ensures start == 0 && end == len && Orig == buf[..len]
      ensures Moved == [] && Dropped == [] && Deallocated == []
    {
      this.buf, this.cap, this.elemSize := buf, cap, elemSize;
      start := 0;
      end := if cap == 0 then 0 else len;
      Orig := buf[..len];
      Moved, Dropped, Deallocated := [], [], [];
    }

    /** Moves out the front element, or yields nothing once the region is empty. */
    method Next() returns (r: Option<T>)
      requires Valid()
      modifies this
      ensures Valid()
      ensures r == None <==> old(start) == old(end)
      ensures end == old(end) && Dropped == old(Dropped)
      ensures r == None ==> start == old(start) && Moved == old(Moved)
      ensures r != None ==> r == Some(Orig[old(start)]) && start == old(start) + 1
      ensures r != None ==> Moved == old(Moved) + [old(start)]
      ensures Remaining() == if r == None then old(Remaining()) else old(Remaining())[1..]
    {
      if start == end {
        r := None;
      } else {
        r := Some(buf[start]);   // ptr::read: the slot is never read as live again
        assert start !in Moved;
        Moved := Moved + [start];
        start := start + 1;
      }
    }

    /** The number of values left: lower and upper bound are both exact. */
    function SizeHint(): (r: (usize, Option<usize>))
      reads this, buf
      requires Valid()
      ensures r.0 == |Remaining()| && r.1 == Some(r.0)
    {
      (end - start, Some(end - start))
    }

    /** Moves out the back element: `end` retreats first, then its slot is read. */
    method NextBack() returns (r: Option<T>)
      requires Valid()
      modifies this
      ensures Valid()
      ensures r == None <==> old(start) == old(end)
      ensures start == old(start) && Dropped == old(Dropped)
      ensures r == None ==> end == old(end) && Moved == old(Moved)
      ensures r != None ==> end == old(end) - 1 && r == Some(Orig[end])
      ensures r != None ==> Moved == old(Moved) + [end]
      ensures Remaining() == if r == None then old(Remaining()) else old(Remaining())[..old(end) - old(start) - 1]
    {
      if start == end {
        r := None;
      } else {
        end := end - 1;
        r := Some(buf[end]);
        assert end !in Moved;
        Moved := Moved + [end];
      }
    }

    /**
     * The destructor. With capacity 0 it does nothing. Otherwise it drains the
     * remaining values front first, dropping each, and then frees the buffer
     * once with the layout of the captured capacity. Afterwards every slot of
     * the original contents has been moved out exactly once.
     */
    method Drop()
      requires Valid()
      modifies this
      ensures cap == 0 ==> unchanged(this)
      ensures cap != 0 ==> start == end && Dropped == old(Dropped) + old(Remaining())
      ensures Deallocated == if cap == 0 then [] else [cap * elemSize]
      ensures |Moved| == |Orig|
      ensures forall i, j :: 0 <= i < j < |Moved| ==> Moved[i] != Moved[j]
      ensures forall k: nat :: k in Moved <==> k < |Orig|
    {
      if cap != 0 {
        while true
          invariant Valid() && end == old(end) && old(start) <= start
          invariant Dropped == old(Dropped) + old(Remaining())[..start - old(start)]
          decreases end - start
        {
          var x := Next();
          if x == None {
            break;
          }
          Dropped := Dropped + [x.value];
        }
        Deallocated := [cap * elemSize];
      }
    }
  }
}
