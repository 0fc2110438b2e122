/**
 `ObjectQueue` and `ObjectPool` as one thread sees them between two lock operations; `LockedQueue`
 shows that the accesses of many threads come down to a sequence of these.
 */
module ObjectPools {
  import opened Bytes

  class ObjectQueue {
    var container: seq<nat>

    constructor ()
      ensures container == []
    {
      container := [];
    }

    /** Takes the front; a caller that finds the queue empty is kept waiting before it gets here. */
    method GetObject() returns (x: nat)
      requires container != []
      modifies this
      ensures [x] + container == old(container)
    {
      x := container[0];
      container := container[1..];
    }

    method PutObject(x: nat)
      modifies this
      ensures container == old(container) + [x]
    {
      container := container + [x];
    }
  }

  /** The numbers of the objects of a pool of size `n`. */
  function Numbers(n: nat): (r: seq<nat>)
    ensures |r| == n && forall i | 0 <= i < n :: r[i] == i
  {
    seq(n, i => i)
  }

  /** A pool of numbered objects.  `lent` are the objects whose deleters have not run. */
  class ObjectPool {
    const queue: ObjectQueue
    const poolSize: nat
    ghost var lent: multiset<nat>

    /** Every object is either in the queue or lent, and only once. */
    ghost predicate Valid()
      reads this, queue
    {
      multiset(queue.container) + lent == multiset(Numbers(poolSize))
    }

    constructor (size: nat)
      ensures Valid() && poolSize == size && lent == multiset{} && queue.container == Numbers(size) && fresh(queue)
    {
      poolSize := size;
      queue := new ObjectQueue();
      lent := multiset{};
      new;
      var made := 0;
      while made < size
        invariant made <= size && queue.container == Numbers(size)[..made] && lent == multiset{}
      {
        TakeMore(Numbers(size), made);
        queue.PutObject(made);
        made := made + 1;
      }
      assert Numbers(size)[..size] == Numbers(size);
      assert multiset(queue.container) + multiset{} == multiset(Numbers(size));
    }

    method GetObject() returns (x: nat)
      requires Valid() && queue.container != []
      modifies this`lent, queue
      ensures Valid() && lent == old(lent) + multiset{x} && [x] + queue.container == old(queue.container)
    {
      x := queue.GetObject();
      lent := lent + multiset{x};
      assert multiset([x] + queue.container) == multiset{x} + multiset(queue.container);
    }

    /** What the deleter of a lent object does. */
    method ReleaseObject(x: nat)
      requires Valid() && x in lent
      modifies this`lent, queue
      ensures Valid() && lent == old(lent) - multiset{x} && queue.container == old(queue.container) + [x]
    {
      queue.PutObject(x);
      lent := lent - multiset{x};
    }

    /** A lent object is nowhere else: not in the queue and not lent twice. */
    lemma OwnedOnce(x: nat)
      requires Valid() && x in lent
      ensures lent[x] == 1 && x !in queue.container && x < poolSize
    {
      NumbersOnce(poolSize, x);
      assert multiset(queue.container)[x] + lent[x] == multiset(Numbers(poolSize))[x];
    }
  }

  lemma {:induction false} NumbersOnce(n: nat, x: nat)
    ensures multiset(Numbers(n))[x] == if x < n then 1 else 0
  {
    if n > 0 {
      NumbersOnce(n - 1, x);
      assert Numbers(n) == Numbers(n - 1) + [n - 1];
    }
  }
}
