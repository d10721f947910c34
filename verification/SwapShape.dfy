/** The shape of the real list in every reachable state, mid-swap included, and what it
    means for a thread walking it while others rewire it. */
module SwapShape {
  import opened SwapProtocol
  import opened SwapInvariant
  import opened SwapSteps
  import opened SwapRuns

  // ---------- the nodes of a swap in flight ----------

  lemma FlightPosition(s: State, q: seq<int>, t: nat)
    requires Inv(s, q) && t < |s.pcs| && MidSwap(s.pcs[t])
    ensures var w := s.pcs[t].w;
            && Distinct3(|s.next|, w.a, w.b, w.c)
            && w.a in q && w.b in q && w.c in q
            && IndexOf(q, w.b) == IndexOf(q, w.a) + 1 && IndexOf(q, w.c) == IndexOf(q, w.a) + 2
            && MidB(s, w.b) && MidC(s, w.c) && !MidC(s, w.b)
            && s.next[w.b] == Succ(q, IndexOf(q, w.c))
            && s.next[w.c] == (if w.S118? then w.b else s.next[w.b])
  {
    StoringTriple(s, q, t);
    var w := s.pcs[t].w;
    TriplePosition(s, q, w.a, w.b, w.c);
    SuccessorInOrder(s, q, w.c);
    assert Facts(s.next, s.pcs[t]);
  }

  // In the order, the b of a swap in flight stands right before its c.
  lemma BeforeMidC(s: State, q: seq<int>, i: nat)
    requires Inv(s, q) && i < |q| && MidC(s, q[i])
    ensures i >= 2 && MidB(s, q[i - 1])
  {
    var t := s.locks[q[i]].owner;
    FlightPosition(s, q, t);
    assert IndexOf(q, s.pcs[t].w.c) == i;
  }

  // ---------- a rank that every link lowers ----------

  ghost function Rank(s: State, q: seq<int>, x: int): int
    requires Sized(s) && |q| == |s.next|
    requires x != NULL ==> IsNode(|s.next|, x) && x in q
  {
    if x == NULL then 0
    else
      var n := |q|;
      var i := IndexOf(q, x);
      if MidB(s, x) then n - i - 1
      else if MidC(s, x) && s.pcs[s.locks[x].owner].w.S118? then n - i + 1
      else n - i
  }

  lemma RankAt(s: State, q: seq<int>, i: nat)
    requires Inv(s, q) && i < |q|
    ensures MidB(s, q[i]) ==> Rank(s, q, q[i]) == |q| - i - 1
    ensures !MidB(s, q[i]) && !MidC(s, q[i]) ==> Rank(s, q, q[i]) == |q| - i
    ensures Rank(s, q, q[i]) <= |q| - i + 1
    ensures 1 <= Rank(s, q, q[i]) <= |q|
  {
    assert IndexOf(q, q[i]) == i;
    if MidB(s, q[i]) {
      FlightPosition(s, q, s.locks[q[i]].owner);
    }
    if MidC(s, q[i]) {
      BeforeMidC(s, q, i);
    }
  }

  // The element that follows position i in the order, unless a swap in flight owns both.
  lemma SuccRank(s: State, q: seq<int>, i: nat)
    requires Inv(s, q) && i < |q| && !MidB(s, q[i])
    ensures Succ(q, i) != NULL ==> IsNode(|s.next|, Succ(q, i)) && Succ(q, i) in q
    ensures Rank(s, q, Succ(q, i)) <= |q| - i - 1
  {
    if i + 1 < |q| {
      if MidC(s, q[i + 1]) {
        BeforeMidC(s, q, i + 1);
        assert false;
      }
      RankAt(s, q, i + 1);
    }
  }

  /** Every link leads to a lower rank, so the real list has no cycle, even between the
      three stores of any number of swaps. */
  lemma RankDrops(s: State, q: seq<int>, x: int)
    requires Inv(s, q) && IsNode(|s.next|, x)
    ensures x in q && (s.next[x] != NULL ==> s.next[x] in q)
    ensures Rank(s, q, s.next[x]) < Rank(s, q, x) <= |q| && 1 <= Rank(s, q, x)
  {
    SuccessorInOrder(s, q, x);
    assert IsPtr(|s.next|, s.next[x]);
    var i := IndexOf(q, x);
    RankAt(s, q, i);
    if MidB(s, x) {
      var t := s.locks[x].owner;
      FlightPosition(s, q, t);
      MidCIsNotMidB(s, q, s.pcs[t].w.c);
      SuccRank(s, q, i + 1);
    } else if MidC(s, x) {
      var t := s.locks[x].owner;
      FlightPosition(s, q, t);
      if s.pcs[t].w.S118? {
        RankAt(s, q, i - 1);
      } else {
        SuccRank(s, q, i);
      }
    } else {
      SuccRank(s, q, i);
    }
  }

  lemma MidCIsNotMidB(s: State, q: seq<int>, x: int)
    requires Inv(s, q) && IsNode(|s.next|, x) && MidC(s, x)
    ensures !MidB(s, x)
  {
    FlightPosition(s, q, s.locks[x].owner);
  }

  // ---------- following the links ----------

  predicate ValidLinks(next: seq<int>) {
    forall x :: 0 <= x < |next| ==> IsPtr(|next|, next[x])
  }

  // The pointer k links after x; NULL has no links.
  function Hop(next: seq<int>, x: int, k: nat): (y: int)
    requires ValidLinks(next) && IsPtr(|next|, x)
    ensures IsPtr(|next|, y)
    decreases k
  {
    if k == 0 || x == NULL then x else Hop(next, next[x], k - 1)
  }

  lemma {:induction false} HopOnce(next: seq<int>, x: int, k: nat)
    requires ValidLinks(next) && IsPtr(|next|, x)
    ensures Hop(next, x, k + 1) == Hop(next, Hop(next, x, k), 1)
    decreases k
  {
    if k > 0 && x != NULL {
      HopOnce(next, next[x], k - 1);
    }
  }

  // Links that lower a positive rank end within that many hops.
  lemma {:induction false} RankedHopsEnd(next: seq<int>, rank: seq<int>, x: int, k: nat)
    requires ValidLinks(next) && |rank| == |next| && IsPtr(|next|, x)
    requires forall y :: 0 <= y < |next| ==> rank[y] > 0
    requires forall y :: 0 <= y < |next| && next[y] != NULL ==> rank[next[y]] < rank[y]
    requires x != NULL ==> rank[x] <= k
    ensures Hop(next, x, k) == NULL
    decreases k
  {
    if x != NULL {
      RankedHopsEnd(next, rank, next[x], k - 1);
    }
  }

  lemma HopsEnd(s: State, q: seq<int>, x: int)
    requires Inv(s, q) && IsNode(|s.next|, x)
    ensures Hop(s.next, x, |s.next|) == NULL
  {
    forall y | 0 <= y < |s.next| ensures y in q {
    }
    var rank := seq(|s.next|, y requires 0 <= y < |s.next| => Rank(s, q, y));
    forall y | 0 <= y < |s.next|
      ensures 0 < rank[y] <= |s.next|
      ensures s.next[y] != NULL ==> rank[s.next[y]] < rank[y]
    {
      RankDrops(s, q, y);
    }
    RankedHopsEnd(s.next, rank, x, |s.next|);
  }

  predicate Reachable(next: seq<int>, first: int, x: int)
    requires ValidLinks(next) && IsPtr(|next|, first)
  {
    exists k: nat :: k <= |next| && Hop(next, first, k) == x
  }

  // No link leads to the c of a swap in flight.
  lemma NextNotMidC(s: State, q: seq<int>, y: int)
    requires Inv(s, q) && IsNode(|s.next|, y) && s.next[y] != NULL
    ensures IsNode(|s.next|, s.next[y]) && !MidC(s, s.next[y])
  {
    assert IsPtr(|s.next|, s.next[y]);
    SuccessorInOrder(s, q, y);
    var i := IndexOf(q, y);
    if MidC(s, s.next[y]) {
      var x := s.next[y];
      var j := IndexOf(q, x);
      BeforeMidC(s, q, j);
      if InFlight(s, y) {
        FlightPosition(s, q, s.locks[y].owner);
      }
    }
  }

  lemma {:induction false} HopsAvoidMidC(s: State, q: seq<int>, k: nat)
    requires Inv(s, q)
    ensures ValidLinks(s.next) && IsPtr(|s.next|, s.first)
    ensures Hop(s.next, s.first, k) != NULL ==> !MidC(s, Hop(s.next, s.first, k))
  {
    if k == 0 {
      if s.first != NULL && MidC(s, s.first) {
        BeforeMidC(s, q, 0);
      }
    } else {
      HopsAvoidMidC(s, q, k - 1);
      HopOnce(s.next, s.first, k - 1);
      var y := Hop(s.next, s.first, k - 1);
      if y != NULL && s.next[y] != NULL {
        NextNotMidC(s, q, y);
      }
    }
  }

  // The b of a swap in flight links past its c.
  lemma LinkPastMidC(s: State, q: seq<int>, i: nat)
    requires Inv(s, q) && 0 < i < |q| && MidC(s, q[i - 1])
    ensures i >= 2 && !MidC(s, q[i - 2]) && s.next[q[i - 2]] == q[i]
  {
    var t := s.locks[q[i - 1]].owner;
    FlightPosition(s, q, t);
    assert IndexOf(q, s.pcs[t].w.c) == i - 1;
    assert q[i - 2] == s.pcs[t].w.b;
  }

  // Every other node but the first has a link from a node before it in the order.
  lemma LinkFromBefore(s: State, q: seq<int>, i: nat) returns (j: nat)
    requires Inv(s, q) && 0 < i < |q| && !MidC(s, q[i])
    ensures j < i && !MidC(s, q[j]) && s.next[q[j]] == q[i]
  {
    var y := q[i - 1];
    assert Undone(s, y) == Succ(q, i - 1);
    if MidC(s, y) {
      LinkPastMidC(s, q, i);
      j := i - 2;
    } else {
      j := i - 1;
      if MidB(s, y) {
        FlightPosition(s, q, s.locks[y].owner);
        assert false;
      }
    }
  }

  // So it is reached within as many links as nodes stand before it.
  lemma {:induction false} ReachPosition(s: State, q: seq<int>, i: nat) returns (k: nat)
    requires Inv(s, q) && i < |q| && !MidC(s, q[i])
    ensures ValidLinks(s.next) && IsPtr(|s.next|, s.first)
    ensures k <= i && Hop(s.next, s.first, k) == q[i]
    decreases i
  {
    if i == 0 {
      k := 0;
    } else {
      var j := LinkFromBefore(s, q, i);
      k := ReachPosition(s, q, j);
      HopOnce(s.next, s.first, k);
      assert Hop(s.next, q[j], 1) == Hop(s.next, s.next[q[j]], 0);
      k := k + 1;
    }
  }

  /** The shape theorem: in every reachable state, links from any node reach NULL within n
      hops, and the nodes that cannot be reached from `first` are exactly the `curr3` of the
      swaps that have done line 116 but not yet line 118. */
  lemma ListShape(s: State, sched: seq<Choice>)
    requires Initial(s)
    ensures var r := Exec(s, sched);
            && r.first == s.first
            && ValidLinks(r.next) && IsPtr(|r.next|, r.first)
            && (forall x :: IsNode(|r.next|, x) ==> Hop(r.next, x, |r.next|) == NULL)
            && (forall x :: IsNode(|r.next|, x) ==> (Reachable(r.next, r.first, x) <==> !MidC(r, x)))
  {
    RunRefines(s, sched);
    var r := Exec(s, sched);
    var q := Trace(s, sched);
    forall x | IsNode(|r.next|, x)
      ensures Hop(r.next, x, |r.next|) == NULL
      ensures Reachable(r.next, r.first, x) <==> !MidC(r, x)
    {
      SuccessorInOrder(r, q, x);
      HopsEnd(r, q, x);
      if MidC(r, x) {
        forall k: nat ensures Hop(r.next, r.first, k) != x {
          HopsAvoidMidC(r, q, k);
        }
      } else {
        var k := ReachPosition(r, q, IndexOf(q, x));
      }
    }
  }
}
