# A hand-written `Vec<T>` and its consuming iterator, in Dafny

This project models a growable array that manages its own allocation
(`Vec<T>`, with fields `ptr`, `cap`, `len`) and the double-ended iterator that
consumes it (`IntoIter<T>`, with the buffer, its capacity and two cursors
`start`/`end`). It proves:

- `grow` asks for capacity 1 from an empty buffer and for exactly twice the
  capacity otherwise, keeps every old slot, and aborts instead of requesting
  more than `isize::MAX` bytes or when the allocator fails;
- `push` grows only when full, writes the element at index `len`, leaves the
  earlier elements alone and keeps `len <= cap`; all counters stay within
  `usize`, so the "can't overflow" comments of the source are proved;
- from empty, `n` pushes give capacity equal to the smallest power of two that
  is at least `n`, and the pushes that reallocate are exactly the first one and
  those that find a power-of-two length;
- `into_iter` hands the buffer to the iterator with the remaining region equal
  to the vector's contents, and the vector can no longer be used;
- `next` and `next_back` yield `None` exactly when the region is empty and
  otherwise move out the front or back element; a ghost log of the slots moved
  out shows that every slot outside `[start, end)` was moved out exactly once
  and no slot twice, however the two ends are interleaved;
- `size_hint` gives equal lower and upper bounds, the number of values left;
- the iterator's destructor drops every value not yet yielded, front first,
  frees the buffer once with the captured capacity's layout, and does nothing
  for capacity 0.

Files: `wrappers.dfy` (`Option`), `growth.dfy` (module `Growth`: the 64-bit
`usize`/`isize` bounds, the growth rule and its lemmas), `vec.dfy` (module
`RustVec`: classes `Vec` and `IntoIter`), `scenarios.dfy` (module `Scenarios`:
client programs that reach the documented behaviour through the contracts only:
capacities 1, 2, 4, 4, 8; forward, backward and mixed draining; dropping a
partly drained iterator; an empty vector).

How the source's machinery is represented:

- The raw pointer is an `array<T>` whose length is the capacity; the dangling
  pointer of an empty vector is an array of length 0. `size_of::<T>()` is the
  constant `elemSize`, which is positive.
- `alloc::alloc` and `alloc::realloc` give a fresh array; `realloc` copies the
  old capacity's slots into it. Whether the allocator succeeds is the
  parameter `allocOk`.
- Aborting the program (the size assertion, or `handle_alloc_error`) is the
  result `Aborted(reason)`, and nothing changes on that path. The failing
  `Layout::array(..).unwrap()` panics and the size assertion are both
  `Aborted(CapacityOverflow)`.
- `alloc::dealloc` is recorded in the ghost log `Deallocated` (byte sizes).
  While the iterator is valid this log is empty, so nothing can use it after it
  is freed or free it twice.
- Pointer cursors are indices into the buffer; `ManuallyDrop` of the consumed
  vector is the ghost flag `Consumed`, which makes the vector unusable.
- The target is 64-bit: `isize::MAX` is 2^63 - 1 and `usize::MAX` is 2^64 - 1;
  `cap`, `len`, `start` and `end` have type `usize`, so every update of them
  carries a proof that it does not overflow.

The source file does not compile as written: `fn struct` at line 4, `NoNull`
at line 19, and `self.offset(-1)` at line 149. The model follows the evident
intent: the second struct declaration, `NonNull`, and `self.end.offset(-1)`.
The source has no constructor, so `Vec.Empty` builds the empty vector that the
struct's fields describe (capacity 0, dangling pointer, length 0).

## Model

| member | source | states |
|---|---|---|
| `RustVec.Vec.Empty` | src/main.rs:21-25 | an empty vector has capacity 0, length 0, no live elements, and satisfies the representation invariant (`len <= cap`, buffer sized `cap`, `cap * size_of::<T>() <= isize::MAX`) |
| `RustVec.Vec.Grow` | src/main.rs:35-66 | the new capacity is 1 from 0 and `2 * cap` otherwise; the old slots are kept in a fresh buffer; a request above `isize::MAX` bytes aborts with `CapacityOverflow` and an allocator failure aborts with the requested size, both before any change; length and contents are untouched |
| `RustVec.Vec.Push` | src/main.rs:70-79 | grows exactly when `len == cap` and propagates grow's abort unchanged; otherwise the element lands at index `len`, the contents become the old contents plus the element, `len` rises by exactly 1, the capacity follows `CapAfterPush`, and `len <= cap` still holds |
| `RustVec.Vec.IntoIter` | src/main.rs:92-115 | the iterator takes over the same buffer and capacity, starts at 0 and ends at `len`, its remaining values are exactly the vector's contents in order, and the vector is marked consumed so it cannot be used or free the buffer |
| `RustVec.IntoIter.FromParts` | src/main.rs:103-113 | with capacity 0 the end cursor stays at the start, otherwise it is `len`; in both cases `end == len`, nothing has been moved out, dropped or freed |
| `RustVec.IntoIter.Next` | src/main.rs:121-131 | yields `None` iff `start == end`, leaving everything as it was; otherwise yields the original element at `start`, advances `start` by one, logs that slot as moved, and keeps the invariant that every slot outside `[start, end)` was moved out exactly once |
| `RustVec.IntoIter.SizeHint` | src/main.rs:133-137 | the lower bound is the number of values still to be yielded and the upper bound is `Some` of the same number |
| `RustVec.IntoIter.NextBack` | src/main.rs:144-153 | yields `None` iff `start == end`; otherwise first retreats `end` by one, then yields the original element at the new `end` and logs that slot, keeping `start <= end` and the exactly-once invariant |
| `RustVec.IntoIter.Drop` | src/main.rs:158-170 | with capacity 0 nothing changes; otherwise the remaining values are dropped in order, the region becomes empty, and dealloc is called once with `cap * size_of::<T>()` bytes; afterwards the slots moved out are exactly `0 .. len`, each once |
| `Growth.CapWithinIsize` | src/main.rs:39-45 | the layout bound `cap * size_of::<T>() <= isize::MAX` gives `cap <= isize::MAX`, so the doubled capacity fits in a `usize` |
| `Growth.Pow2Gap` | src/main.rs:40 | two distinct powers of two differ at least by a factor of two, the fact behind doubling reaching the smallest power of two |
| `Growth.CapAfterPushesIsSmallestPow2` | src/main.rs:36-40 | after `n >= 1` pushes from empty the capacity is a power of two, at least `n`, below `2 * n`, and no larger than any power of two that is at least `n` |
| `Growth.LenWithinCap` | src/main.rs:71 | after `n` pushes from empty the length `n` is at most the capacity |
| `Growth.GrowsExactlyAtPowersOfTwo` | src/main.rs:71 | the `n`-th push finds the vector full, and so allocates or reallocates, iff `n == 1` or `n - 1` is a power of two |
| `Scenarios.GrowthSequence` | src/main.rs:36-79 | five pushes onto an empty vector give capacities 1, 2, 4, 4, 8 |
| `Scenarios.ForwardDrain` | src/main.rs:121-131 | pushing a, b, c and consuming from the front yields a, b, c and then `None` |
| `Scenarios.BackwardDrain` | src/main.rs:144-153 | pushing a, b, c and consuming from the back yields c, b, a and then `None` |
| `Scenarios.MixedDrain` | src/main.rs:119-154 | after pushing a, b, c, d and taking a from the front and d from the back, `size_hint` is `(2, Some(2))`, then b comes from the front, c from the back, and both ends are exhausted |
| `Scenarios.DropAfterPartialDrain` | src/main.rs:158-170 | dropping after one `next` drops b, c, d in order and frees the buffer of four slots exactly once |
| `Scenarios.EmptyDrain` | src/main.rs:107-109 | an empty vector's iterator reports size 0, yields `None`, and its destructor frees nothing |

## Left out

- The allocator itself (`alloc::alloc`, `alloc::realloc`, `alloc::dealloc`, `handle_alloc_error`) is a foreign call: it is represented by fresh arrays, the `allocOk` parameter, the `Aborted` result and the `Deallocated` log. Whether `realloc` moves the block or grows it in place is not observable in the model, which always gives a fresh array.
- The abort itself: termination of the process is a returned `Aborted` value with nothing changed, and callers stop there.
- Alignment of layouts: only their byte sizes are modelled, since `Layout::array` sizes are multiples of the alignment.
- Byte-level pointer arithmetic and the division by `mem::size_of::<T>()` in `size_hint` are index differences; zero-sized element types are excluded (`elemSize > 0`).
- `unsafe impl Send`/`Sync` (thread-safety markers) and the variance, `Unique` and `NonNull` commentary with the first struct sketch have no runtime behaviour.
- The vector has no destructor in the source, so none is modelled; neither is `pop`, which the source mentions only in a heading.
- Width: a 64-bit target is assumed for `isize::MAX` and `usize::MAX`; other widths are not modelled.
- The moved-out slots keep their old values in the buffer, as in the source (`ptr::read` does not clear them); the model does not distinguish initialized from uninitialized slots other than through `len`, `start`, `end` and the `Moved` log.
