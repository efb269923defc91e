/** Types shared by every part of the model. */
module Basics {
  type Byte = b: int | 0 <= b < 256
  type Bytes = seq<Byte>

  datatype Option<+T> = None | Some(value: T)

  function Min(a: int, b: int): int {
    if a <= b then a else b
  }

  function Max(a: int, b: int): int {
    if a >= b then a else b
  }
}

/**
 * Version words. A word is an epoch and a counter whose lowest bit is the row lock;
 * versions are ordered by epoch first, then by counter.
 */
module Versions {
  datatype Tid = Tid(epoch: nat, tid: nat)

  const EMPTY := Tid(0, 0)

  predicate Less(a: Tid, b: Tid) {
    a.epoch < b.epoch || (a.epoch == b.epoch && a.tid < b.tid)
  }

  predicate Locked(w: Tid) {
    w.tid % 2 == 1
  }

  /** The word with its lock bit cleared. */
  function Base(w: Tid): Tid {
    if Locked(w) then Tid(w.epoch, w.tid - 1) else w
  }

  /** The word with its lock bit set. */
  function WithLock(w: Tid): Tid {
    if Locked(w) then w else Tid(w.epoch, w.tid + 1)
  }

  /** The version a commit of the given epoch publishes over a locked word. */
  function Successor(locked: Tid, epoch: nat): Tid {
    if locked.epoch == epoch then Tid(epoch, locked.tid + 1) else Tid(epoch, 2)
  }
}
