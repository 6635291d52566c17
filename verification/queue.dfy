/** A buffered channel written with a non-blocking send and read in order, with its history. */
module BoundedQueues {

  /** What is buffered, what has been received from it, and what was ever accepted. */
  datatype Queue<T> = Queue(items: seq<T>, taken: seq<T>, log: seq<T>)

  function EmptyQueue<T>(): Queue<T> {
    Queue([], [], [])
  }

  predicate HasRoom<T>(q: Queue<T>, capacity: nat) {
    |q.items| < capacity
  }

  /** A send with a default branch: a full buffer drops the item. */
  function Offered<T>(q: Queue<T>, item: T, capacity: nat): (r: Queue<T>)
    ensures Conserved(q, capacity) ==> Conserved(r, capacity)
  {
    if HasRoom(q, capacity) then Queue(q.items + [item], q.taken, q.log + [item]) else q
  }

  /** A receive; an empty buffer leaves everything as it is. */
  function Took<T>(q: Queue<T>): (r: Queue<T>)
    ensures forall capacity: nat :: Conserved(q, capacity) ==> Conserved(r, capacity)
  {
    if q.items == [] then q
    else
      assert q.taken + q.items == q.taken + [q.items[0]] + q.items[1..];
      Queue(q.items[1..], q.taken + [q.items[0]], q.log)
  }

  /** Nothing accepted is lost, repeated or reordered, and the buffer keeps to its capacity. */
  predicate Conserved<T(==)>(q: Queue<T>, capacity: nat) {
    q.taken + q.items == q.log && |q.items| <= capacity
  }
}
