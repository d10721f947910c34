/** lab2/1/queue.c: the queue as a linked structure changed in place, used by one thread.
    Its operations are proved against the atomic bounded FIFO. */
module LinkedQueue {
  import opened AtomicFifo

  // qnode_t. A node is live from malloc to free.
  class Node {
    var val: int
    var next: Node?
    ghost var live: bool

    // malloc, lines 76-83
    constructor (val: int)
      ensures live && this.val == val && next == null
    {
      this.val := val;
      this.next := null;
      this.live := true;
    }

    method Free()
      requires live
      modifies this`live
      ensures !live
    {
      live := false;
    }

    function GetNext(): Node?
      requires live
      reads this
    {
      next
    }

    function GetVal(): int
      requires live
      reads this
    {
      val
    }
  }

  class Queue {
    var first: Node?
    var last: Node?
    var count: int
    const maxCount: int
    var addAttempts: nat
    var getAttempts: nat
    var addCount: nat
    var getCount: nat

    ghost var nodes: seq<Node>  // from first to the last one

    // `last` counts only when there is a node: it is left dangling when the queue empties.
    ghost predicate Valid()
      reads this, nodes
    {
      && (forall i, j :: 0 <= i < j < |nodes| ==> nodes[i] != nodes[j])
      && (forall i :: 0 <= i < |nodes| ==> nodes[i].live)
      && (forall i {:trigger nodes[i].next} :: 0 <= i < |nodes| ==>
            nodes[i].next == if i + 1 < |nodes| then nodes[i + 1] else null)
      && first == (if nodes == [] then null else nodes[0])
      && (nodes != [] ==> last == nodes[|nodes| - 1])
      && count == |nodes|
      && addCount - getCount == count
    }

    ghost function Contents(): (c: seq<int>)
      reads this, nodes
      ensures |c| == |nodes|
    {
      seq(|nodes|, i requires 0 <= i < |nodes| reads this, nodes => nodes[i].val)
    }

    // queue_init, lines 20-44
    constructor (maxCount: int)
      ensures Valid() && Contents() == [] && this.maxCount == maxCount && nodes == []
      ensures addAttempts == getAttempts == addCount == getCount == 0
    {
      first := null;
      last := null;
      this.maxCount := maxCount;
      count := 0;
      addAttempts, getAttempts, addCount, getCount := 0, 0, 0, 0;
      nodes := [];
    }

    // queue_add, lines 68-96; line 71 demands that the capacity be kept
    method Add(val: int) returns (ok: int)
      requires Valid() && count <= maxCount
      modifies this, nodes
      ensures count <= maxCount
      ensures Valid() && forall n :: n in nodes && n !in old(nodes) ==> fresh(n)
      ensures var (c, r) := AtomicFifo.Add(maxCount, old(Contents()), val);
              Contents() == c && (ok == if r.ok then 1 else 0)
      ensures addAttempts == old(addAttempts) + 1 && getAttempts == old(getAttempts)
      ensures old(nodes) <= nodes && addCount == old(addCount) + ok && getCount == old(getCount)
    {
      addAttempts := addAttempts + 1;
      assert count <= maxCount;
      if count == maxCount {
        return 0;
      }
      var node := new Node(val);
      if first == null {
        last := node;
        first := last;
      } else {
        assert last.live;
        last.next := node;
        last := last.GetNext();
      }
      count := count + 1;
      addCount := addCount + 1;
      nodes := nodes + [node];
      assert Contents() == old(Contents()) + [val] by {
        assert forall i :: 0 <= i < |nodes| - 1 ==> nodes[i] == old(nodes)[i];
      }
      ok := 1;
    }

    // queue_get, lines 98-116; `given` is what *val held before
    method Get(given: int) returns (ok: int, val: int)
      requires Valid()
      modifies this, nodes
      ensures Valid()
      ensures var (c, r) := AtomicFifo.Get(old(Contents()));
              Contents() == c && (ok == if r.ok then 1 else 0) && (val == if r.ok then r.val else given)
      ensures nodes == if ok == 1 then old(nodes)[1..] else old(nodes)
      ensures ok == 1 ==> !old(nodes)[0].live
      ensures getAttempts == old(getAttempts) + 1 && addAttempts == old(addAttempts)
      ensures addCount == old(addCount) && getCount == old(getCount) + ok
    {
      getAttempts := getAttempts + 1;
      assert count >= 0;
      if count == 0 {
        return 0, given;
      }
      var tmp := first;
      assert tmp == nodes[0];
      val := tmp.GetVal();
      first := first.GetNext();
      tmp.Free();
      count := count - 1;
      getCount := getCount + 1;
      nodes := nodes[1..];
      assert Contents() == old(Contents())[1..] by {
        assert forall i :: 0 <= i < |nodes| ==> nodes[i] == old(nodes)[i + 1];
      }
      ok := 1;
    }

    /** queue_destroy, lines 56-61: every remaining node is freed, each of them once, and no
        node is read after it was freed. */
    method Destroy()
      requires Valid()
      modifies this, nodes
      ensures first == null
      ensures forall i :: 0 <= i < |old(nodes)| ==> !old(nodes)[i].live
    {
      ghost var i := 0;
      while first != null
        invariant 0 <= i <= |nodes| && nodes == old(nodes)
        invariant first == if i < |nodes| then nodes[i] else null
        invariant forall j, k :: 0 <= j < k < |nodes| ==> nodes[j] != nodes[k]
        invariant forall j {:trigger nodes[j].next} :: 0 <= j < |nodes| ==>
                    nodes[j].next == if j + 1 < |nodes| then nodes[j + 1] else null
        invariant forall j :: 0 <= j < |nodes| ==> (nodes[j].live <==> i <= j)
        decreases |nodes| - i
      {
        var temp := first;
        first := first.GetNext();
        temp.Free();
        i := i + 1;
      }
    }
  }
}
