/**
 The bounded, lockable queue of the repository's own pool.  Each method is one critical section; where
 the source waits on a condition variable, the section is the one in which the wait has ended, and its
 precondition is the predicate waited for.
 */
module ThreadSafeQueue {
  import opened Wrappers

  class ThreadSafeQueue<T> {
    const maxSize: nat        // 0 when there is no limit
    var queue: seq<T>
    var size: nat
    var isShutdown: bool

    ghost predicate Valid()
      reads this
    {
      size == |queue| && (maxSize > 0 ==> |queue| <= maxSize)
    }

    constructor (maxSize: nat)
      ensures Valid() && queue == [] && !isShutdown && this.maxSize == maxSize
    {
      this.maxSize, queue, size, isShutdown := maxSize, [], 0, false;
    }

    /** `push` waits for this. */
    predicate MayPush()
      reads this
    {
      isShutdown || maxSize == 0 || |queue| < maxSize
    }

    /** `waitPop` waits for this. */
    predicate MayPop()
      reads this
    {
      isShutdown || queue != []
    }

    /** After a shutdown the value is dropped. */
    method Push(value: T)
      requires Valid() && MayPush()
      modifies `queue, `size
      ensures Valid() && queue == if isShutdown then old(queue) else old(queue) + [value]
    {
      if isShutdown {
        return;
      }
      queue := queue + [value];
      size := size + 1;
    }

    /** `sawShutdown` is what was read before locking; a shutdown since then is not noticed. */
    method TryPush(value: T, sawShutdown: bool) returns (ok: bool)
      requires Valid()
      modifies `queue, `size
      ensures Valid()
      ensures ok == (!sawShutdown && (maxSize == 0 || old(|queue|) < maxSize))
      ensures queue == if ok then old(queue) + [value] else old(queue)
    {
      if sawShutdown {
        return false;
      }
      if maxSize > 0 && |queue| >= maxSize {
        return false;
      }
      queue := queue + [value];
      size := size + 1;
      ok := true;
    }

    method TryPop() returns (result: Option<T>)
      requires Valid()
      modifies `queue, `size
      ensures Valid()
      ensures if old(queue) == [] then result == None && queue == []
        else result.Some? && [result.value] + queue == old(queue)
    {
      if queue == [] {
        return None;
      }
      result := Some(queue[0]);
      queue := queue[1..];
      size := size - 1;
    }

    /** Fails only on an empty queue that has been shut down; otherwise takes the oldest item. */
    method WaitPop() returns (result: Option<T>)
      requires Valid() && MayPop()
      modifies `queue, `size
      ensures Valid()
      ensures if old(queue) == [] then result == None && queue == [] && isShutdown
        else result.Some? && [result.value] + queue == old(queue)
    {
      if isShutdown && queue == [] {
        return None;
      }
      result := Some(queue[0]);
      queue := queue[1..];
      size := size - 1;
    }

    method Shutdown()
      requires Valid()
      modifies `isShutdown
      ensures Valid() && isShutdown
    {
      isShutdown := true;
    }

    method Clear()
      requires Valid()
      modifies `queue, `size
      ensures Valid() && queue == []
    {
      queue := [];
      size := 0;
    }
  }
}
