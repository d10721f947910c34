/** lab2/3 without concurrency, over real heap nodes: building the list
    (lab2/3/mutex/queue.c) and one pass of each kind of thread while no other runs
    (lab2/3/mutex/main.c). */
module Storage {
  import opened SwapInvariant

  class Node {
    var value: string
    var next: Node?
    var locked: bool

    // malloc: the fields hold anything
    constructor ()
    {
    }

    method TryLock() returns (ok: bool)
      modifies this`locked
      ensures locked && ok == !old(locked)
    {
      ok := !locked;
      locked := true;
    }

    method Unlock()
      requires locked
      modifies this`locked
      ensures !locked
    {
      locked := false;
    }
  }

  // The nodes of q are linked in this order, from `first` to NULL.
  ghost predicate ListFrom(first: Node?, q: seq<Node>)
    reads q
  {
    && first == (if q == [] then null else q[0])
    && Distinct(q)
    && (forall i {:trigger q[i].next} :: 0 <= i < |q| ==> q[i].next == if i + 1 < |q| then q[i + 1] else null)
  }

  ghost predicate Unlocked(q: seq<Node>)
    reads q
  {
    forall i :: 0 <= i < |q| ==> !q[i].locked
  }

  // ---------- decimal strings ----------

  const DIGITS := "0123456789"

  // What sprintf("%d") writes for a natural number.
  function Decimal(n: nat): (s: string)
    ensures |s| > 0
  {
    if n < 10 then [DIGITS[n]] else Decimal(n / 10) + [DIGITS[n % 10]]
  }

  predicate IsNumeral(s: string) {
    |s| > 0 && forall i :: 0 <= i < |s| ==> s[i] in DIGITS
  }

  function DigitValue(c: char): nat
    requires c in DIGITS
  {
    var d: nat := c as int - '0' as int;
    d
  }

  // Reading a numeral back.
  function Parse(s: string): nat
    requires IsNumeral(s)
  {
    if |s| == 1 then DigitValue(s[0])
    else 10 * Parse(s[..|s| - 1]) + DigitValue(s[|s| - 1])
  }

  lemma {:induction false} ParseDecimal(n: nat)
    ensures IsNumeral(Decimal(n)) && Parse(Decimal(n)) == n
  {
    if n >= 10 {
      ParseDecimal(n / 10);
      var s := Decimal(n);
      assert s[..|s| - 1] == Decimal(n / 10);
    }
  }

  // Different numbers have different strings.
  lemma DecimalInjective(m: nat, n: nat)
    requires Decimal(m) == Decimal(n)
    ensures m == n
  {
    ParseDecimal(m);
    ParseDecimal(n);
  }

  function Power10(k: nat): nat {
    if k == 0 then 1 else 10 * Power10(k - 1)
  }

  /** A number's string has at most k characters exactly if the number is below 10^k: nine
      digits and the terminator fill `buff[10]`. */
  lemma {:induction false} DecimalLength(n: nat, k: nat)
    requires k > 0
    ensures |Decimal(n)| <= k <==> n < Power10(k)
  {
    if n >= 10 {
      if k == 1 {
      } else {
        DecimalLength(n / 10, k - 1);
      }
    } else if k > 1 {
      DecimalLength(n, k - 1);
    }
  }

  lemma BufferFits(i: nat, capacity: int, k: nat)
    requires i < capacity <= Power10(k) && k > 0
    ensures i % capacity == i && |Decimal(i)| <= k
  {
    DecimalLength(i, k);
    SmallModulus(i, capacity);
  }

  lemma SmallModulus(i: nat, m: int)
    requires i < m
    ensures i % m == i
  {
  }

  function Decimals(n: nat): (s: seq<string>)
    ensures |s| == n && forall i :: 0 <= i < n ==> s[i] == Decimal(i)
  {
    seq(n, (i: nat) => Decimal(i))
  }

  lemma DecimalsMore(v: seq<string>, i: nat)
    ensures v + Decimals(i) + [Decimal(i)] == v + Decimals(i + 1)
  {
  }

  // ---------- the order of a pass ----------

  // Round k of a pass exchanges the two elements after position k, if there are two.
  function AfterRound<T>(q: seq<T>, k: nat): (r: seq<T>)
    ensures |r| == |q|
  {
    if k + 2 < |q| then Exchange(q, k + 1) else q
  }

  // q after the first k rounds.
  function Bubble<T>(q: seq<T>, k: nat): (r: seq<T>)
    ensures |r| == |q|
  {
    if k == 0 then q else AfterRound(Bubble(q, k - 1), k - 1)
  }

  // The second element has moved k places towards the end.
  lemma {:induction false} BubbleShape<T>(q: seq<T>, k: nat)
    requires k + 2 <= |q|
    ensures Bubble(q, k) == [q[0]] + q[2..k + 2] + [q[1]] + q[k + 2..]
  {
    if k > 0 {
      BubbleShape(q, k - 1);
    }
  }

  // Everything but the head moves up one place, the second element goes last.
  function Rotated<T>(q: seq<T>): (r: seq<T>)
    ensures |r| == |q|
  {
    if |q| < 2 then q else [q[0]] + q[2..] + [q[1]]
  }

  lemma {:induction false} WholePass<T>(q: seq<T>)
    requires |q| >= 2
    ensures Bubble(q, |q|) == Rotated(q)
  {
    var n := |q|;
    BubbleShape(q, n - 2);
    assert q[2..n - 2 + 2] == q[2..] && q[n - 2 + 2..] == [];
    assert Bubble(q, n - 1) == Bubble(q, n - 2);
  }

  function RotatedTimes<T>(q: seq<T>, m: nat): (r: seq<T>)
    ensures |r| == |q|
  {
    if m == 0 then q else Rotated(RotatedTimes(q, m - 1))
  }

  lemma {:induction false} RotatedTimesShape<T>(q: seq<T>, m: nat)
    requires |q| >= 1 && m <= |q| - 1
    ensures RotatedTimes(q, m) == [q[0]] + q[1 + m..] + q[1..1 + m]
  {
    if m > 0 {
      RotatedTimesShape(q, m - 1);
    }
  }

  /** n - 1 uncontended passes over a list of n nodes bring back the original order. */
  lemma {:induction false} PassesRestore<T>(q: seq<T>)
    requires |q| >= 1
    ensures RotatedTimes(q, |q| - 1) == q
  {
    RotatedTimesShape(q, |q| - 1);
  }

  lemma {:induction false} RotatedTimesAdd<T>(q: seq<T>, a: nat, b: nat)
    ensures RotatedTimes(q, a + b) == RotatedTimes(RotatedTimes(q, b), a)
  {
    if a > 0 {
      RotatedTimesAdd(q, a - 1, b);
    }
  }

  lemma ModUnique(x: int, d: int, a: int, r: nat)
    requires x == a * d + r && r < d
    ensures x % d == r
  {
    var k := x / d - a;
    assert k * d == r - x % d;
    assert k >= 1 ==> k * d >= d;
    assert k <= -1 ==> k * d <= -d;
  }

  lemma ModMinus(m: nat, d: nat)
    requires 0 < d <= m
    ensures (m - d) % d == m % d
  {
    var a := m / d;
    assert (a - 1) * d == a * d - d;
    ModUnique(m - d, d, a - 1, m % d);
  }

  predicate Distinct<T(==)>(q: seq<T>) {
    forall i, j :: 0 <= i < j < |q| ==> q[i] != q[j]
  }

  /** And no number of passes does so unless it is a multiple of n - 1. */
  lemma {:induction false} PassesRestoreIff<T>(q: seq<T>, m: nat)
    requires |q| >= 2 && Distinct(q)
    ensures RotatedTimes(q, m) == q <==> m % (|q| - 1) == 0
    decreases m
  {
    var d := |q| - 1;
    if m < d {
      RotatedTimesShape(q, m);
      assert m > 0 ==> RotatedTimes(q, m)[1] == q[1 + m];
      ModUnique(m, d, 0, m);
    } else {
      PassesRestore(q);
      RotatedTimesAdd(q, m - d, d);
      ModMinus(m, d);
      PassesRestoreIff(q, m - d);
    }
  }

  // The first k pairs of neighbours.
  ghost function Neighbours(q: seq<Node>, k: nat): (p: seq<(Node, Node)>)
    requires k == 0 || k < |q|
    ensures |p| == k && forall i :: 0 <= i < k ==> p[i] == (q[i], q[i + 1])
  {
    seq(k, i requires 0 <= i < k => (q[i], q[i + 1]))
  }

  lemma NeighboursMore(q: seq<Node>, k: nat)
    requires k + 1 < |q|
    ensures Neighbours(q, k + 1) == Neighbours(q, k) + [(q[k], q[k + 1])]
  {
  }

  // ---------- the list ----------

  class List {
    var first: Node?
    ghost var nodes: seq<Node>  // from first to the last one
    ghost var repr: set<Node>   // the same, without their order

    ghost predicate Valid()
      reads this, nodes
    {
      Owned() && ListFrom(first, nodes) && Unlocked(nodes)
    }

    ghost predicate Owned()
      reads this
    {
      forall i :: 0 <= i < |nodes| ==> nodes[i] in repr
    }

    // The strings of the nodes, in order.
    ghost predicate Holds(v: seq<string>)
      reads this, nodes
    {
      |v| == |nodes| && forall i :: 0 <= i < |nodes| ==> nodes[i].value == v[i]
    }

    // initialize_storage, lines 5-16
    constructor ()
      ensures Valid() && nodes == [] && repr == {}
    {
      first := null;
      nodes, repr := [], {};
    }

    /** add_node, lines 18-43: walks to the tail, links the new node there, and only then
        fills it in. */
    method AddNode(value: string, ghost v: seq<string>)
      requires Valid() && Holds(v)
      modifies this, repr
      ensures Valid() && Holds(v + [value])
      ensures |nodes| == |old(nodes)| + 1 && old(nodes) <= nodes && fresh(nodes[|nodes| - 1])
      ensures fresh(repr - old(repr))
    {
      var newNode := new Node();
      if first != null {
        var node := first;
        ghost var i := 0;
        while node.next != null
          invariant i < |nodes| && node == nodes[i]
          decreases |nodes| - i
        {
          node := node.next;
          i := i + 1;
        }
        node.next := newNode;
      } else {
        first := newNode;
      }
      newNode.value := value;
      newNode.next := null;
      newNode.locked := false;
      nodes, repr := nodes + [newNode], repr + {newNode};
    }

    /** fill_storage, lines 45-53: appends the strings of 0, 1, ..., capacity - 1, in order.
        The buffer holds nine digits. */
    method Fill(capacity: int, ghost v: seq<string>)
      requires Valid() && Holds(v) && capacity <= Power10(9)
      modifies this, repr
      ensures Valid() && Holds(v + Decimals(if capacity > 0 then capacity else 0))
      ensures old(nodes) <= nodes && forall j :: |old(nodes)| <= j < |nodes| ==> fresh(nodes[j])
      ensures fresh(repr - old(repr))
    {
      var i := 0;
      assert v + Decimals(0) == v;
      while i < capacity
        invariant 0 <= i && (i <= capacity || i == 0)
        invariant Valid() && Holds(v + Decimals(i))
        invariant old(nodes) <= nodes && forall j :: |old(nodes)| <= j < |nodes| ==> fresh(nodes[j])
        invariant fresh(repr - old(repr))
      {
        FillNext(i, capacity, v);
        i := i + 1;
      }
    }

    // Lines 49-51, the body of the loop.
    method FillNext(i: nat, capacity: int, ghost v: seq<string>)
      requires Valid() && Holds(v + Decimals(i)) && i < capacity <= Power10(9)
      modifies this, repr
      ensures Valid() && Holds(v + Decimals(i + 1))
      ensures |nodes| == |old(nodes)| + 1 && old(nodes) <= nodes && fresh(nodes[|nodes| - 1])
      ensures fresh(repr - old(repr))
    {
      var buff := Decimal(i % capacity);
      BufferFits(i, capacity, 9);
      assert |buff| + 1 <= 10;
      AddNode(buff, v + Decimals(i));
      DecimalsMore(v, i);
    }

    /** One iteration of `swap_thread` with no other thread running, lines 90-150;
        `shouldSwap` is the coin. It stops on a list of fewer than three nodes; otherwise a
        swapping pass rotates everything behind the head by one place, counts n - 2 swaps
        and leaves every lock free. */
    method SwapPass(shouldSwap: bool) returns (stopped: bool, counter: nat)
      requires Valid()
      modifies repr`next, repr`locked, this`nodes
      ensures Valid() && first == old(first)
      ensures stopped <==> |old(nodes)| < 3
      ensures stopped || !shouldSwap ==> nodes == old(nodes) && counter == 0
      ensures !stopped && shouldSwap ==> nodes == Rotated(old(nodes)) && counter == |old(nodes)| - 2
    {
      stopped, counter := false, 0;
      var curr1 := first;
      if curr1 == null || curr1.next == null || curr1.next.next == null {
        return true, 0;
      }
      if !shouldSwap {
        Skip(curr1);
      } else {
        counter := SwapWalk(curr1);
      }
    }

    /** m swapping passes of `swap_thread` with no other thread running: each rotates the
        nodes once more, and they put every node back exactly if m is a multiple of n - 1. */
    method SwapPasses(m: nat) returns (counter: nat)
      requires Valid() && |nodes| >= 3
      modifies repr`next, repr`locked, this`nodes
      ensures Valid() && first == old(first)
      ensures nodes == RotatedTimes(old(nodes), m) && counter == m * (|old(nodes)| - 2)
      ensures nodes == old(nodes) <==> m % (|old(nodes)| - 1) == 0
    {
      counter := 0;
      ghost var was := nodes;
      for i := 0 to m
        invariant Valid() && first == old(first)
        invariant nodes == RotatedTimes(was, i) && counter == i * (|was| - 2)
      {
        var stopped, swaps := SwapPass(true);
        counter := counter + swaps;
        assert (i + 1) * (|was| - 2) == i * (|was| - 2) + swaps;
      }
      PassesRestoreIff(was, m);
    }

    // Lines 100-107.
    method Skip(start: Node)
      requires Valid() && start == first
    {
      var curr1 := start;
      ghost var k := 0;
      while curr1.next != null
        invariant k < |nodes| && curr1 == nodes[k]
        decreases |nodes| - k
      {
        curr1 := curr1.next;
        k := k + 1;
      }
    }

    // Lines 114-125: the three stores, the counter, the reloads and the unlocks.
    method SwapTriple(start: Node, counter: nat, ghost k: nat) returns (next: Node, counter': nat)
      requires Owned() && ListFrom(first, nodes) && k + 2 < |nodes| && start == nodes[k]
      requires forall i :: 0 <= i < |nodes| ==> (nodes[i].locked <==> k <= i < k + 3)
      modifies repr`next, repr`locked, this`nodes
      ensures Valid() && first == old(first)
      ensures nodes == Exchange(old(nodes), k + 1) && next == nodes[k + 1] && counter' == counter + 1
    {
      var curr1 := start;
      var curr2, curr3 := curr1.next, curr1.next.next;
      assert curr2 == nodes[k + 1] && curr3 == nodes[k + 2];
      curr2.next := curr3.next;
      curr3.next := curr2;
      curr1.next := curr3;
      counter' := counter + 1;
      nodes := Exchange(nodes, k + 1);
      assert ListFrom(first, nodes);
      next := ReleaseTriple(curr1, k);
    }

    // Lines 120-125.
    method ReleaseTriple(start: Node, ghost k: nat) returns (next: Node)
      requires Owned() && ListFrom(first, nodes) && k + 2 < |nodes| && start == nodes[k]
      requires forall i :: 0 <= i < |nodes| ==> (nodes[i].locked <==> k <= i < k + 3)
      modifies repr`locked
      ensures Valid() && next == nodes[k + 1]
    {
      var tmp := start;
      var curr1 := tmp.next;
      var curr2 := curr1.next;
      assert tmp == nodes[k] && curr1 == nodes[k + 1] && curr2 == nodes[k + 2];
      tmp.Unlock();
      curr1.Unlock();
      curr2.Unlock();
      next := curr1;
    }

    // Lines 108-149, the body of the loop, with a node under curr1.
    method Advance(start: Node, counter: nat, ghost k: nat)
      returns (next: Node?, counter': nat)
      requires Valid() && k < |nodes| && start == nodes[k]
      modifies repr`next, repr`locked, this`nodes
      ensures Valid() && first == old(first)
      ensures nodes == AfterRound(old(nodes), k)
      ensures counter' == counter + if k + 2 < |old(nodes)| then 1 else 0
      ensures next == if k + 1 < |nodes| then nodes[k + 1] else null
    {
      var curr1 := start;
      counter' := counter;
      var ok := curr1.TryLock();
      assert ok;  // the lock is free, so line 148 is not reached
      var ok2 := false;
      if curr1.next != null {
        assert curr1.next == nodes[k + 1];
        ok2 := curr1.next.TryLock();
      }
      if ok2 {
        var ok3 := false;
        if curr1.next.next != null {
          assert curr1.next.next == nodes[k + 2];
          ok3 := curr1.next.next.TryLock();
        }
        if ok3 {
          next, counter' := SwapTriple(curr1, counter, k);
        } else {
          var tmp := curr1;
          next := curr1.next;
          tmp.Unlock();
          next.Unlock();
        }
      } else {
        var tmp := curr1;
        next := curr1.next;
        tmp.Unlock();
      }
    }

    // Lines 98-150 of a swapping pass.
    method SwapWalk(start: Node) returns (counter: nat)
      requires Valid() && |nodes| >= 3 && start == first
      modifies repr`next, repr`locked, this`nodes
      ensures Valid() && first == old(first)
      ensures nodes == Rotated(old(nodes)) && counter == |old(nodes)| - 2
    {
      counter := 0;
      var curr1: Node? := start;
      ghost var was, n := nodes, |nodes|;
      ghost var k := 0;  // where curr1 stands
      while curr1 != null
        invariant Valid() && first == old(first)
        invariant 0 <= k <= n && counter == if k <= n - 2 then k else n - 2
        invariant nodes == Bubble(was, k)
        invariant curr1 == if k < n then nodes[k] else null
        decreases n - k
      {
        curr1, counter := Advance(curr1, counter, k);
        k := k + 1;
      }
      WholePass(was);
    }

    /** One pass of `process_thread` with no other thread running, lines 39-77: it inspects
        the n - 1 neighbouring pairs, one after the other and each with both nodes locked,
        changes nothing, and counts one pass. */
    method ReadPass(counter: nat)
      returns (stopped: bool, counter': nat, ghost inspected: seq<(Node, Node)>)
      requires Valid()
      modifies repr`locked
      ensures Valid() && (stopped <==> |nodes| < 2)
      ensures counter' == if stopped then counter else counter + 1
      ensures inspected == if stopped then [] else Neighbours(nodes, |nodes| - 1)
    {
      stopped, counter', inspected := false, counter, [];
      var curr := first;
      if curr == null || curr.next == null {
        return true, counter, [];
      }
      ghost var k := 0;
      while curr != null
        invariant Valid() && 0 <= k <= |nodes| && curr == if k < |nodes| then nodes[k] else null
        invariant inspected == Neighbours(nodes, if k < |nodes| then k else |nodes| - 1)
        decreases |nodes| - k
      {
        ghost var pair;
        curr, pair := Inspect(curr, k);
        if k + 1 < |nodes| {
          NeighboursMore(nodes, k);
        }
        inspected := inspected + pair;
        k := k + 1;
      }
      counter' := counter + 1;
    }

    // Lines 48-75, the body of the loop, with a node under curr.
    method Inspect(start: Node, ghost k: nat) returns (next: Node?, ghost pair: seq<(Node, Node)>)
      requires Valid() && k < |nodes| && start == nodes[k]
      modifies repr`locked
      ensures Valid() && next == if k + 1 < |nodes| then nodes[k + 1] else null
      ensures pair == if k + 1 < |nodes| then [(nodes[k], nodes[k + 1])] else []
    {
      var curr := start;
      var ok := curr.TryLock();
      assert ok;  // the lock is free, so line 74 is not reached
      var ok2 := false;
      if curr.next != null {
        assert curr.next == nodes[k + 1];
        ok2 := curr.next.TryLock();
      }
      var tmp := curr;
      if ok2 {
        var curr2 := curr.next;
        assert curr.locked && curr2.locked;
        pair := [(curr, curr2)];
        curr := curr.next;
        tmp.Unlock();
        curr.Unlock();
        next := curr;
      } else {
        pair := [];
        next := curr.next;
        tmp.Unlock();
      }
    }
  }
}
