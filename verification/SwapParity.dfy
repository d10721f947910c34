/** What the swap counters say about the order of the list. */
module SwapParity {
  import opened SwapProtocol
  import opened SwapInvariant
  import opened SwapSteps
  import opened SwapRuns

  // ---------- inversions ----------

  function CountLess(q: seq<int>, v: int): nat {
    if q == [] then 0 else (if q[0] < v then 1 else 0) + CountLess(q[1..], v)
  }

  // Pairs that stand in the wrong order.
  function Inversions(q: seq<int>): nat {
    if q == [] then 0 else CountLess(q[1..], q[0]) + Inversions(q[1..])
  }

  lemma {:induction false} ExchangeCount(q: seq<int>, i: nat, v: int)
    requires i + 1 < |q|
    ensures CountLess(Exchange(q, i), v) == CountLess(q, v)
  {
    var r := Exchange(q, i);
    if i == 0 {
      assert r[1..][1..] == q[1..][1..];
    } else {
      assert r[1..] == Exchange(q[1..], i - 1);
      ExchangeCount(q[1..], i - 1, v);
    }
  }

  /** Exchanging two neighbours that differ changes the number of inversions by one. */
  lemma {:induction false} ExchangeInversions(q: seq<int>, i: nat)
    requires i + 1 < |q| && q[i] != q[i + 1]
    ensures Inversions(Exchange(q, i)) == Inversions(q) + (if q[i] < q[i + 1] then 1 else -1)
  {
    var r := Exchange(q, i);
    if i == 0 {
      assert r[1..][1..] == q[1..][1..];
      assert r[1..][0] == q[0] && q[1..][0] == q[1];
    } else {
      assert r[1..] == Exchange(q[1..], i - 1);
      ExchangeInversions(q[1..], i - 1);
      ExchangeCount(q[1..], i - 1, q[0]);
    }
  }

  lemma {:induction false} NoneLess(q: seq<int>, v: int)
    requires forall i :: 0 <= i < |q| ==> q[i] >= v
    ensures CountLess(q, v) == 0
  {
    if q != [] {
      NoneLess(q[1..], v);
    }
  }

  lemma {:induction false} SortedNoInversions(q: seq<int>)
    requires forall i, j :: 0 <= i < j < |q| ==> q[i] < q[j]
    ensures Inversions(q) == 0
  {
    if q != [] {
      NoneLess(q[1..], q[0]);
      SortedNoInversions(q[1..]);
    }
  }

  lemma ExchangeMultiset(q: seq<int>, i: nat)
    requires i + 1 < |q|
    ensures multiset(Exchange(q, i)) == multiset(q)
  {
    assert q == q[..i] + [q[i], q[i + 1]] + q[i + 2..];
    assert Exchange(q, i) == q[..i] + [q[i + 1], q[i]] + q[i + 2..];
  }

  // ---------- the counters ----------

  /** The swaps performed: the swappers' counters, plus one for each thread that stands
      between line 118, where the swap takes effect, and line 119, which counts it. */
  function Swaps(pcs: seq<Pc>, counters: seq<nat>): nat
    requires |pcs| == |counters|
  {
    if pcs == [] then 0
    else SwapsOf(pcs[0], counters[0]) + Swaps(pcs[1..], counters[1..])
  }

  function SwapsOf(pc: Pc, counter: nat): nat {
    if pc.Read? then 0 else counter + (if pc.Swap? && pc.w.S119? then 1 else 0)
  }

  lemma {:induction false} SwapsUpdate(pcs: seq<Pc>, counters: seq<nat>, t: nat, pc: Pc, c: nat)
    requires |pcs| == |counters| && t < |pcs|
    ensures Swaps(pcs[t := pc], counters[t := c]) + SwapsOf(pcs[t], counters[t])
            == Swaps(pcs, counters) + SwapsOf(pc, c)
  {
    if t == 0 {
      assert pcs[t := pc][1..] == pcs[1..] && counters[t := c][1..] == counters[1..];
    } else {
      assert pcs[t := pc][1..] == pcs[1..][t - 1 := pc];
      assert counters[t := c][1..] == counters[1..][t - 1 := c];
      SwapsUpdate(pcs[1..], counters[1..], t - 1, pc, c);
    }
  }

  lemma {:induction false} NoSwapsYet(pcs: seq<Pc>, counters: seq<nat>)
    requires |pcs| == |counters|
    requires forall t :: 0 <= t < |pcs| ==> SwapsOf(pcs[t], counters[t]) == 0
    ensures Swaps(pcs, counters) == 0
  {
    if pcs != [] {
      assert SwapsOf(pcs[0], counters[0]) == 0;
      forall t | 0 <= t < |pcs| - 1 ensures SwapsOf(pcs[1..][t], counters[1..][t]) == 0 {
        assert SwapsOf(pcs[t + 1], counters[t + 1]) == 0;
      }
      NoSwapsYet(pcs[1..], counters[1..]);
    }
  }

  lemma ResumeSwapsOf(pc: Pc, r: int, c: nat)
    requires !ActionOf(pc).Try? && !ActionOf(pc).Release?
    ensures SwapsOf(Resume(pc, r), c) + (if ActionOf(pc).Count? && !pc.Read? then 1 else 0)
            == SwapsOf(pc, c) + (if AtCommit(pc) then 1 else 0)
  {
  }

  lemma LockSwapsOf(pc: Pc, r: int, c: nat)
    requires ActionOf(pc).Try? || ActionOf(pc).Release?
    ensures SwapsOf(Resume(pc, r), c) == SwapsOf(pc, c) && !AtCommit(pc)
  {
  }

  lemma FaultSwapsOf(pc: Pc, c: nat)
    requires ActionOf(pc).Load?
    ensures SwapsOf(FaultOf(pc), c) == SwapsOf(pc, c) && !AtCommit(pc)
  {
  }

  // A step changes the program point and the counter of its own thread only.
  lemma StepLocal(s: State, t: nat, coin: int)
    requires Sized(s) && t < |s.pcs|
    ensures var s' := StepOf(s, t, coin);
            s'.pcs == s.pcs[t := s'.pcs[t]] && s'.counters == s.counters[t := s'.counters[t]]
  {
  }

  // What the moving thread contributes: Load, Try and Release leave the counter alone.
  lemma LoadSwapsOf(s: State, t: nat, coin: int)
    requires Sized(s) && t < |s.pcs| && ActionOf(s.pcs[t]).Load?
    ensures var s' := StepOf(s, t, coin);
            SwapsOf(s'.pcs[t], s'.counters[t]) == SwapsOf(s.pcs[t], s.counters[t])
    ensures !AtCommit(s.pcs[t])
  {
    var pc := s.pcs[t];
    var x := ActionOf(pc).addr;
    FaultSwapsOf(pc, s.counters[t]);
    if IsNode(|s.next|, x) {
      ResumeSwapsOf(pc, s.next[x], s.counters[t]);
    }
  }

  lemma TryReleaseSwapsOf(s: State, q: seq<int>, t: nat, coin: int)
    requires Inv(s, q) && t < |s.pcs| && (ActionOf(s.pcs[t]).Try? || ActionOf(s.pcs[t]).Release?)
    ensures var s' := StepOf(s, t, coin);
            SwapsOf(s'.pcs[t], s'.counters[t]) == SwapsOf(s.pcs[t], s.counters[t])
    ensures !AtCommit(s.pcs[t])
  {
    AccessesNodes(s, q, t);
    LockSwapsOf(s.pcs[t], 0, s.counters[t]);
    LockSwapsOf(s.pcs[t], 1, s.counters[t]);
  }

  lemma PlainSwapsOf(s: State, q: seq<int>, t: nat, coin: int)
    requires Inv(s, q) && t < |s.pcs|
    requires !ActionOf(s.pcs[t]).Load? && !ActionOf(s.pcs[t]).Try? && !ActionOf(s.pcs[t]).Release?
    ensures var s' := StepOf(s, t, coin);
            SwapsOf(s'.pcs[t], s'.counters[t])
            == SwapsOf(s.pcs[t], s.counters[t]) + (if AtCommit(s.pcs[t]) then 1 else 0)
  {
    AccessesNodes(s, q, t);
    var c := s.counters[t];
    ResumeSwapsOf(s.pcs[t], 0, c);
    ResumeSwapsOf(s.pcs[t], coin, c);
    ResumeSwapsOf(s.pcs[t], s.first, c);
  }

  lemma OwnSwaps(s: State, q: seq<int>, t: nat, coin: int)
    requires Inv(s, q) && t < |s.pcs|
    ensures var s' := StepOf(s, t, coin);
            SwapsOf(s'.pcs[t], s'.counters[t])
            == SwapsOf(s.pcs[t], s.counters[t]) + (if AtCommit(s.pcs[t]) then 1 else 0)
  {
    match ActionOf(s.pcs[t]) {
      case Load(_) => LoadSwapsOf(s, t, coin);
      case Try(_) => TryReleaseSwapsOf(s, q, t, coin);
      case Release(_) => TryReleaseSwapsOf(s, q, t, coin);
      case _ => PlainSwapsOf(s, q, t, coin);
    }
  }

  // Line 118 performs one swap; nothing else does.
  lemma StepSwaps(s: State, q: seq<int>, t: nat, coin: int)
    requires Inv(s, q) && t < |s.pcs|
    ensures var s' := StepOf(s, t, coin);
            Swaps(s'.pcs, s'.counters)
            == Swaps(s.pcs, s.counters) + (if AtCommit(s.pcs[t]) then 1 else 0)
  {
    var s' := StepOf(s, t, coin);
    SwapsUpdate(s.pcs, s.counters, t, s'.pcs[t], s'.counters[t]);
    StepLocal(s, t, coin);
    OwnSwaps(s, q, t, coin);
  }

  // q rearranges 0..n and its inversions agree in parity with a number of swaps.
  ghost predicate Accounted(n: nat, q: seq<int>, swaps: nat) {
    && multiset(q) == multiset(Identity(n))
    && Inversions(q) <= swaps
    && Inversions(q) % 2 == swaps % 2
  }

  lemma ExchangeAccounted(n: nat, q: seq<int>, i: nat, swaps: nat)
    requires Accounted(n, q, swaps) && i + 1 < |q| && q[i] != q[i + 1]
    ensures Accounted(n, Exchange(q, i), swaps + 1)
  {
    ExchangeInversions(q, i);
    ExchangeMultiset(q, i);
  }

  lemma CommitIsExchange(s: State, q: seq<int>, t: nat) returns (k: nat)
    requires Inv(s, q) && t < |s.pcs| && AtCommit(s.pcs[t])
    ensures k + 2 < |q| && q[k + 1] != q[k + 2]
    ensures NextOrder(s, q, t) == Exchange(q, k + 1)
  {
    StoringTriple(s, q, t);
    var w := s.pcs[t].w;
    TriplePosition(s, q, w.a, w.b, w.c);
    k := IndexOf(q, w.a);
  }

  lemma InitialAccounted(s: State)
    requires Initial(s)
    ensures Accounted(|s.next|, Identity(|s.next|), Swaps(s.pcs, s.counters))
  {
    SortedNoInversions(Identity(|s.next|));
    NoSwapsYet(s.pcs, s.counters);
  }

  // A step that exchanges two elements counts one swap, any other step none.
  ghost predicate MoveCounted(q: seq<int>, q': seq<int>, swaps: nat, swaps': nat) {
    || (q' == q && swaps' == swaps)
    || (swaps' == swaps + 1
        && exists i :: 0 <= i < |q| - 1 && q[i] != q[i + 1] && q' == Exchange(q, i))
  }

  lemma StepMoveCounted(s: State, q: seq<int>, c: Choice)
    requires Inv(s, q)
    ensures var s' := StepOf(s, c.thread, c.coin);
            MoveCounted(q, NextOrder(s, q, c.thread), Swaps(s.pcs, s.counters), Swaps(s'.pcs, s'.counters))
  {
    if c.thread < |s.pcs| {
      StepSwaps(s, q, c.thread, c.coin);
      if AtCommit(s.pcs[c.thread]) {
        var k := CommitIsExchange(s, q, c.thread);
        assert q[k + 1] != q[k + 1 + 1];
      }
    }
  }

  lemma MoveAccounted(n: nat, q: seq<int>, q': seq<int>, swaps: nat, swaps': nat)
    requires Accounted(n, q, swaps) && MoveCounted(q, q', swaps, swaps')
    ensures Accounted(n, q', swaps')
  {
    if q' != q || swaps' != swaps {
      var i :| 0 <= i < |q| - 1 && q[i] != q[i + 1] && q' == Exchange(q, i);
      ExchangeAccounted(n, q, i, swaps);
    }
  }

  /** Parity and conservation in every run: the order is a rearrangement of the original;
      its inversions have the parity of the number of swaps performed and never exceed it. */
  lemma {:induction false} SwapAccounting(s: State, sched: seq<Choice>)
    requires Initial(s)
    ensures var r := Exec(s, sched);
            Accounted(|s.next|, Trace(s, sched), Swaps(r.pcs, r.counters))
    decreases |sched|
  {
    if sched == [] {
      InitialAccounted(s);
    } else {
      var k := |sched| - 1;
      SwapAccounting(s, sched[..k]);
      RunRefines(s, sched[..k]);
      var r, q := Exec(s, sched[..k]), Trace(s, sched[..k]);
      StepMoveCounted(r, q, sched[k]);
      var r' := Exec(s, sched);
      MoveAccounted(|s.next|, q, Trace(s, sched), Swaps(r.pcs, r.counters), Swaps(r'.pcs, r'.counters));
    }
  }

  // Sum of the swappers' counters.
  function Counted(pcs: seq<Pc>, counters: seq<nat>): nat
    requires |pcs| == |counters|
  {
    if pcs == [] then 0
    else (if pcs[0].Read? then 0 else counters[0]) + Counted(pcs[1..], counters[1..])
  }

  // With no thread between lines 118 and 119 the swaps performed are the ones counted.
  lemma {:induction false} SwapsAreCounted(pcs: seq<Pc>, counters: seq<nat>)
    requires |pcs| == |counters|
    requires forall t :: 0 <= t < |pcs| ==> !(pcs[t].Swap? && pcs[t].w.S119?)
    ensures Swaps(pcs, counters) == Counted(pcs, counters)
  {
    if pcs != [] {
      SwapsAreCounted(pcs[1..], counters[1..]);
    }
  }

  // No thread stands among the stores or before the counter update.
  predicate Settled(pcs: seq<Pc>) {
    forall t :: 0 <= t < |pcs| ==> !MidSwap(pcs[t]) && !(pcs[t].Swap? && pcs[t].w.S119?)
  }

  /** A settled list is the abstract order itself, link by link, and its inversions have
      the parity of the sum of the swap counters and never exceed that sum. */
  lemma SettledList(s: State, sched: seq<Choice>)
    requires Initial(s) && Settled(Exec(s, sched).pcs)
    ensures var r := Exec(s, sched);
            var q := Trace(s, sched);
            && IsOrder(|r.next|, q) && (|q| > 0 ==> q[0] == 0)
            && (forall i :: 0 <= i < |q| ==> r.next[q[i]] == Succ(q, i))
            && Inversions(q) <= Counted(r.pcs, r.counters)
            && Inversions(q) % 2 == Counted(r.pcs, r.counters) % 2
  {
    RunRefines(s, sched);
    SwapAccounting(s, sched);
    var r := Exec(s, sched);
    var q := Trace(s, sched);
    SwapsAreCounted(r.pcs, r.counters);
    forall i | 0 <= i < |q| ensures r.next[q[i]] == Succ(q, i) {
      assert !InFlight(r, q[i]);
      assert Undone(r, q[i]) == Succ(q, i);
    }
  }
}
