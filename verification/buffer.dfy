/**
 The bounded FIFO buffer between callers and the delivery worker: a
 `Queue(maxsize=buffer_size)` used with a non-blocking `put` and a `get`
 that the worker only issues when an entry is there.
 */
module Buffer {

  /** The queue's entries, oldest first, and its configured `maxsize`. A
      `maxsize` of zero or less means the queue has no bound. */
  datatype BoundedQueue<T> = BoundedQueue(items: seq<T>, maxsize: int)

  /** The queue refuses a non-blocking put: it has a bound and has reached it. */
  predicate Full<T>(q: BoundedQueue<T>) {
    0 < q.maxsize <= |q.items|
  }

  /** The queue holds no more entries than its bound allows. */
  predicate WithinBound<T>(q: BoundedQueue<T>) {
    q.maxsize <= 0 || |q.items| <= q.maxsize
  }

  /** The outcome of a non-blocking put: the new queue, or the `Full`
      exception, which leaves the queue as it was. */
  datatype PutResult<T> = Stored(queue: BoundedQueue<T>) | Rejected

  /** `put(x, block=False)`: append at the back when there is room, otherwise
      refuse without touching any entry already queued. */
  function TryPut<T>(q: BoundedQueue<T>, x: T): (r: PutResult<T>)
    ensures r.Rejected? <==> Full(q)
    ensures r.Stored? ==> r.queue.maxsize == q.maxsize
    ensures r.Stored? ==> |r.queue.items| == |q.items| + 1
    ensures r.Stored? ==> r.queue.items[|q.items|] == x
    ensures r.Stored? ==> forall i | 0 <= i < |q.items| :: r.queue.items[i] == q.items[i]
    ensures WithinBound(q) && r.Stored? ==> WithinBound(r.queue)
  {
    if Full(q) then Rejected else Stored(BoundedQueue(q.items + [x], q.maxsize))
  }

  /** The result of `get`: the entry removed and the queue left behind. */
  datatype Taken<T> = Taken(item: T, rest: BoundedQueue<T>)

  /** `get()` on a non-empty queue: remove the oldest entry. */
  function Get<T>(q: BoundedQueue<T>): (t: Taken<T>)
    requires |q.items| > 0
    ensures [t.item] + t.rest.items == q.items
    ensures t.rest.maxsize == q.maxsize
    ensures WithinBound(q) ==> WithinBound(t.rest) && !Full(t.rest)
  {
    Taken(q.items[0], BoundedQueue(q.items[1..], q.maxsize))
  }

  /** Putting and then getting from an empty queue hands back what was put,
      and a queue with any bound has room for one entry. */
  lemma PutGetEmpty<T>(maxsize: int, x: T)
    ensures TryPut(BoundedQueue([], maxsize), x).Stored?
    ensures Get(TryPut(BoundedQueue([], maxsize), x).queue) == Taken(x, BoundedQueue([], maxsize))
  {
  }

  /** FIFO: a put at the back does not change which entry the next get
      removes, nor what remains ahead of the new entry. */
  lemma PutThenGet<T>(q: BoundedQueue<T>, x: T)
    requires |q.items| > 0 && !Full(q)
    ensures Get(TryPut(q, x).queue).item == Get(q).item
    ensures Get(TryPut(q, x).queue).rest.items == Get(q).rest.items + [x]
  {
    var q' := TryPut(q, x).queue;
    assert q'.items == q.items + [x];
    assert q'.items[1..] == q.items[1..] + [x];
  }
}
