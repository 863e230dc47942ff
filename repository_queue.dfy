/**
 * `RepositoryQueue`, the queue of found repository paths that the walk fills
 * and each progress delivery empties. Its implementation is not part of this
 * model; it is modelled by its FIFO contents alone.
 */
module RepositoryQueues {
  class RepositoryQueue {
    var items: seq<string>

    constructor ()
      ensures items == []
    {
      items := [];
    }

    method Enqueue(path: string)
      modifies this
      ensures items == old(items) + [path]
    {
      items := items + [path];
    }

    method Dequeue() returns (path: string)
      requires items != []
      modifies this
      ensures path == old(items)[0] && items == old(items)[1..]
    {
      path := items[0];
      items := items[1..];
    }

    method Count() returns (n: nat)
      ensures n == |items|
    {
      n := |items|;
    }

    method Clear()
      modifies this
      ensures items == []
    {
      items := [];
    }
  }
}
