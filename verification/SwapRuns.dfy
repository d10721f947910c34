/** What holds in every run of the swap-list protocol: for any list, any number of threads
    of either kind and any schedule. */
module SwapRuns {
  import opened SwapProtocol
  import opened SwapInvariant
  import opened SwapSteps

  // The order `fill_storage` leaves: 0, 1, 2, ...
  function Identity(n: nat): seq<int> {
    seq(n, i => i)
  }

  // The abstract order after a run: one atomic swap for each execution of line 118.
  ghost function Trace(s: State, sched: seq<Choice>): (q: seq<int>)
    requires Sized(s)
    ensures |q| == |s.next|
    decreases |sched|
  {
    if sched == [] then Identity(|s.next|)
    else
      var k := |sched| - 1;
      NextOrder(Exec(s, sched[..k]), Trace(s, sched[..k]), sched[k].thread)
  }

  lemma InitialInv(s: State)
    requires Initial(s)
    ensures Inv(s, Identity(|s.next|))
  {
    var q := Identity(|s.next|);
    forall x | 0 <= x < |s.next| ensures x in q {
      assert q[x] == x;
    }
    assert forall x :: 0 <= x < |s.next| ==> s.locks[x] == FREE;
  }

  /** The refinement theorem: in every run the list, its swaps in flight undone, is the
      order obtained by performing each swap atomically at line 118. */
  lemma {:induction false} RunRefines(s: State, sched: seq<Choice>)
    requires Initial(s)
    ensures Inv(Exec(s, sched), Trace(s, sched))
    decreases |sched|
  {
    if sched == [] {
      InitialInv(s);
    } else {
      var k := |sched| - 1;
      RunRefines(s, sched[..k]);
      StepKeepsInv(Exec(s, sched[..k]), Trace(s, sched[..k]), sched[k].thread, sched[k].coin);
    }
  }

  // q' is q with b and c, which follow a at position k, exchanged.
  predicate Spliced(q: seq<int>, q': seq<int>, k: nat, a: int, b: int, c: int) {
    && k + 2 < |q|
    && q[k] == a && q[k + 1] == b && q[k + 2] == c
    && q' == q[..k + 1] + [c, b] + q[k + 3..]
  }

  // What one step of t does to the order, in terms of positions.
  lemma OrderMoves(s: State, q: seq<int>, t: nat)
    requires Inv(s, q) && t < |s.pcs| && AtCommit(s.pcs[t])
    ensures exists k :: Spliced(q, NextOrder(s, q, t), k, s.pcs[t].w.a, s.pcs[t].w.b, s.pcs[t].w.c)
  {
    assert ActionOf(s.pcs[t]).Store?;
    StoringTriple(s, q, t);
    var w := s.pcs[t].w;
    TriplePosition(s, q, w.a, w.b, w.c);
    assert Spliced(q, NextOrder(s, q, t), IndexOf(q, w.a), w.a, w.b, w.c);
  }

  // ---------- null pointers ----------

  predicate Faulted(pc: Pc) { pc == Head(SFault) || pc == Read(WFault) }

  lemma ResumeNoFault(pc: Pc, x: int)
    requires !Faulted(pc)
    ensures !Faulted(Resume(pc, x))
  {
  }

  lemma AccessesNodes(s: State, q: seq<int>, t: nat)
    requires Inv(s, q) && t < |s.pcs|
    ensures var pc := s.pcs[t];
            match ActionOf(pc)
            case Load(x) => IsNode(|s.next|, x) || pc == Head(S102(NULL))
            case Try(x) => IsNode(|s.next|, x)
            case Release(x) => IsNode(|s.next|, x)
            case Store(x, _) => IsNode(|s.next|, x)
            case _ => true
  {
    var pc := s.pcs[t];
    assert Facts(s.next, pc);
    match ActionOf(pc) {
      case Load(_) => LoadsNodes(s.next, pc);
      case Try(_) => TriedNode(s, q, t);
      case Release(_) =>
        ReleaseResume(s.next, pc);
        HeldAreNodes(s.next, pc, ActionOf(pc).addr);
      case Store(_, _) => StoreToOwn(s, q, t);
      case _ =>
    }
  }

  lemma StepFaults(s: State, q: seq<int>, t: nat, coin: int)
    requires Inv(s, q) && t < |s.pcs| && !Faulted(s.pcs[t])
    ensures Faulted(StepOf(s, t, coin).pcs[t]) <==> s.pcs[t] == Head(S102(NULL))
  {
    AccessesNodes(s, q, t);
    forall x ensures !Faulted(Resume(s.pcs[t], x)) {
      ResumeNoFault(s.pcs[t], x);
    }
  }

  /** The only null pointer ever dereferenced is the pass pointer at line 102; in
      particular `process_thread` and the locking pass never fault. */
  lemma FaultExactlyAt102(s: State, sched: seq<Choice>, t: nat, coin: int)
    requires Initial(s) && t < |s.pcs|
    ensures var r := Exec(s, sched);
            !Faulted(r.pcs[t]) ==>
              (Faulted(StepOf(r, t, coin).pcs[t]) <==> r.pcs[t] == Head(S102(NULL)))
    ensures Exec(s, sched).pcs[t] != Read(WFault)
  {
    RunRefines(s, sched);
    var r := Exec(s, sched);
    assert Facts(r.next, r.pcs[t]);
    if !Faulted(r.pcs[t]) {
      StepFaults(r, Trace(s, sched), t, coin);
    }
  }

  // ---------- lock discipline ----------

  // H is a block of at most three consecutive elements of q.
  predicate Block(q: seq<int>, k: nat, m: nat, h: set<int>) {
    k + m <= |q| && m <= 3 && h == set i | k <= i < k + m :: q[i]
  }

  lemma PairBlock(s: State, q: seq<int>, a: int, b: int, h: set<int>)
    requires h == {a, b}
    requires Sized(s) && Represents(s, q) && IsNode(|s.next|, a) && IsNode(|s.next|, b)
    requires Undone(s, a) == b
    ensures a in q && IndexOf(q, a) + 1 < |q| && q[IndexOf(q, a) + 1] == b
    ensures Block(q, IndexOf(q, a), 2, h)
  {
    SuccessorInOrder(s, q, a);
    var k := IndexOf(q, a);
    assert (set i | k <= i < k + 2 :: q[i]) == {q[k], q[k + 1]};
  }

  lemma TripleBlock(s: State, q: seq<int>, a: int, b: int, c: int, h: set<int>)
    requires h == {a, b, c}
    requires Sized(s) && Represents(s, q) && Distinct3(|s.next|, a, b, c)
    requires Undone(s, a) == b && Undone(s, b) == c
    ensures a in q && Block(q, IndexOf(q, a), 3, h)
  {
    TriplePosition(s, q, a, b, c);
    var k := IndexOf(q, a);
    assert (set i | k <= i < k + 3 :: q[i]) == {q[k], q[k + 1], q[k + 2]};
  }

  lemma SingleBlock(s: State, q: seq<int>, a: int, h: set<int>)
    requires h == {a}
    requires Sized(s) && Represents(s, q) && IsNode(|s.next|, a)
    ensures a in q && Block(q, IndexOf(q, a), 1, h)
  {
    var k := IndexOf(q, a);
    assert (set i | k <= i < k + 1 :: q[i]) == {q[k]};
  }

  lemma EmptyBlock(q: seq<int>, h: set<int>)
    requires h == {}
    ensures Block(q, 0, 0, h)
  {
  }

  lemma ScanBlock(s: State, q: seq<int>, t: nat)
    requires Inv(s, q) && t < |s.pcs| && s.pcs[t].Scan?
    ensures exists k, m :: Block(q, k, m, Held(s.pcs[t]))
  {
    var pc := s.pcs[t];
    assert Facts(s.next, pc);
    match pc.s {
      case S132(b, _) => SingleBlock(s, q, b, Held(pc));
      case S112(a, b) => OwnedNotInFlight(s, q, t, a); PairBlock(s, q, a, b, Held(pc));
      case S112b(a, b, _) => OwnedNotInFlight(s, q, t, a); PairBlock(s, q, a, b, Held(pc));
      case S112c(a, b) => OwnedNotInFlight(s, q, t, a); PairBlock(s, q, a, b, Held(pc));
      case S112d(a, b, _) => OwnedNotInFlight(s, q, t, a); PairBlock(s, q, a, b, Held(pc));
      case S112e(a, b, _) => OwnedNotInFlight(s, q, t, a); PairBlock(s, q, a, b, Held(pc));
      case S130(a, b) => OwnedNotInFlight(s, q, t, a); PairBlock(s, q, a, b, Held(pc));
      case S131(a, b, _) => OwnedNotInFlight(s, q, t, a); PairBlock(s, q, a, b, Held(pc));
      case S110(a) => SingleBlock(s, q, a, Held(pc));
      case S110b(a) => SingleBlock(s, q, a, Held(pc));
      case S110c(a, _) => SingleBlock(s, q, a, Held(pc));
      case S138(a) => SingleBlock(s, q, a, Held(pc));
      case S139(a, _) => SingleBlock(s, q, a, Held(pc));
      case _ => EmptyBlock(q, Held(pc));
    }
  }

  // A thread with three locks holds a, b, c in this order, or a, c, b after the stores.
  lemma ThreeBlock(s: State, q: seq<int>, t: nat)
    requires Inv(s, q) && t < |s.pcs| && s.pcs[t].Swap? && !s.pcs[t].w.S124? && !s.pcs[t].w.S125?
    ensures exists k, m :: Block(q, k, m, Held(s.pcs[t]))
  {
    var pc := s.pcs[t];
    var w := pc.w;
    assert Facts(s.next, pc);
    assert Held(pc) == {w.a, w.b, w.c};
    if ActionOf(pc).Store? {
      StoringTriple(s, q, t);
      TripleBlock(s, q, w.a, w.b, w.c, Held(pc));
    } else {
      OwnedNotInFlight(s, q, t, w.a);
      OwnedNotInFlight(s, q, t, w.b);
      OwnedNotInFlight(s, q, t, w.c);
      if s.next[w.a] == w.b {
        TripleBlock(s, q, w.a, w.b, w.c, Held(pc));
      } else {
        TripleBlock(s, q, w.a, w.c, w.b, Held(pc));
      }
    }
  }

  lemma SwapBlock(s: State, q: seq<int>, t: nat)
    requires Inv(s, q) && t < |s.pcs| && s.pcs[t].Swap?
    ensures exists k, m :: Block(q, k, m, Held(s.pcs[t]))
  {
    var pc := s.pcs[t];
    assert Facts(s.next, pc);
    match pc.w
    case S125(b, _, _) => SingleBlock(s, q, b, Held(pc));
    case S124(b, c, _, _) =>
      OwnedNotInFlight(s, q, t, c);
      PairBlock(s, q, c, b, Held(pc));
    case _ => ThreeBlock(s, q, t);
  }

  lemma ReadBlock(s: State, q: seq<int>, t: nat)
    requires Inv(s, q) && t < |s.pcs| && s.pcs[t].Read?
    ensures exists k, m :: Block(q, k, m, Held(s.pcs[t]))
  {
    var pc := s.pcs[t];
    assert Facts(s.next, pc);
    match pc.r {
      case W59(b, _) => SingleBlock(s, q, b, Held(pc));
      case W53(a, b) => OwnedNotInFlight(s, q, t, a); PairBlock(s, q, a, b, Held(pc));
      case W54(a, b, _) => OwnedNotInFlight(s, q, t, a); PairBlock(s, q, a, b, Held(pc));
      case W57(a, b) => OwnedNotInFlight(s, q, t, a); PairBlock(s, q, a, b, Held(pc));
      case W58(a, b, _) => OwnedNotInFlight(s, q, t, a); PairBlock(s, q, a, b, Held(pc));
      case W50(a) => SingleBlock(s, q, a, Held(pc));
      case W50b(a) => SingleBlock(s, q, a, Held(pc));
      case W50c(a, _) => SingleBlock(s, q, a, Held(pc));
      case W64(a) => SingleBlock(s, q, a, Held(pc));
      case W65(a, _) => SingleBlock(s, q, a, Held(pc));
      case _ => EmptyBlock(q, Held(pc));
    }
  }

  lemma HeldBlock(s: State, q: seq<int>, t: nat)
    requires Inv(s, q) && t < |s.pcs|
    ensures exists k, m :: Block(q, k, m, Held(s.pcs[t]))
  {
    match s.pcs[t] {
      case Head(_) => EmptyBlock(q, Held(s.pcs[t]));
      case Scan(_) => ScanBlock(s, q, t);
      case Swap(_) => SwapBlock(s, q, t);
      case Read(_) => ReadBlock(s, q, t);
    }
  }

  /** What thread t may do with locks: it holds at most three consecutive nodes, the locks
      record it exactly there, it unlocks a node it holds, and it stores into a node it
      holds exclusively. */
  ghost predicate Disciplined(s: State, q: seq<int>, t: nat)
    requires Sized(s) && t < |s.pcs|
  {
    var pc := s.pcs[t];
    && (exists k, m :: Block(q, k, m, Held(pc)))
    && (forall x :: 0 <= x < |s.locks| ==>
          (x in Held(pc) <==> Owns(s.locks[x], t, Shares(s.rw, pc))))
    && (ActionOf(pc).Release? ==> ActionOf(pc).addr in Held(pc))
    && (ActionOf(pc).Store? ==>
          IsNode(|s.next|, ActionOf(pc).addr) && s.locks[ActionOf(pc).addr] == Writer(t))
  }

  lemma InvDisciplined(s: State, q: seq<int>, t: nat)
    requires Inv(s, q) && t < |s.pcs|
    ensures Disciplined(s, q, t)
  {
    assert Facts(s.next, s.pcs[t]);
    HeldBlock(s, q, t);
    if ActionOf(s.pcs[t]).Release? {
      ReleaseResume(s.next, s.pcs[t]);
    }
    if ActionOf(s.pcs[t]).Store? {
      StoreToOwn(s, q, t);
    }
  }

  // Lock discipline in every run; between passes a thread has nothing locked.
  lemma LockDiscipline(s: State, sched: seq<Choice>, t: nat)
    requires Initial(s) && t < |s.pcs|
    ensures Disciplined(Exec(s, sched), Trace(s, sched), t)
    ensures var pc := Exec(s, sched).pcs[t];
            pc == Head(S90) || pc == Read(W39) ==>
              forall x :: 0 <= x < |Exec(s, sched).locks| ==>
                !Owns(Exec(s, sched).locks[x], t, Shares(s.rw, pc))
  {
    RunRefines(s, sched);
    InvDisciplined(Exec(s, sched), Trace(s, sched), t);
  }

  // ---------- pairs under shared locks ----------

  predicate HoldsPair(pc: Pc) {
    pc.Read? && (pc.r.W53? || pc.r.W54? || pc.r.W57? || pc.r.W58?)
  }

  predicate Adjacent(q: seq<int>, a: int, b: int) {
    exists i :: 0 <= i < |q| - 1 && q[i] == a && q[i + 1] == b
  }

  lemma ReaderPairAdjacent(s: State, q: seq<int>, t: nat)
    requires Inv(s, q) && t < |s.pcs| && HoldsPair(s.pcs[t])
    ensures Adjacent(q, s.pcs[t].r.a, s.pcs[t].r.b)
  {
    assert Facts(s.next, s.pcs[t]);
    var a, b := s.pcs[t].r.a, s.pcs[t].r.b;
    OwnedNotInFlight(s, q, t, a);
    PairBlock(s, q, a, b, {a, b});
    var i := IndexOf(q, a);
    assert q[i] == a && q[i + 1] == b;
  }

  lemma {:induction false} OthersKeepPc(s: State, sched: seq<Choice>, t: nat)
    requires Sized(s) && t < |s.pcs|
    requires forall i :: 0 <= i < |sched| ==> sched[i].thread != t
    ensures Exec(s, sched).pcs[t] == s.pcs[t]
    decreases |sched|
  {
    if sched != [] {
      var k := |sched| - 1;
      OthersKeepPc(s, sched[..k], t);
    }
  }

  lemma {:induction false} ExecConcat(s: State, a: seq<Choice>, b: seq<Choice>)
    requires Sized(s)
    ensures Exec(s, a + b) == Exec(Exec(s, a), b)
    decreases |b|
  {
    if b == [] {
      assert a + b == a;
    } else {
      var k := |b| - 1;
      assert (a + b)[..|a + b| - 1] == a + b[..k];
      ExecConcat(s, a, b[..k]);
    }
  }

  // A swapper never holds a node of a pair that a reader holds.
  lemma PairExcludesSwappers(s: State, q: seq<int>, t: nat, u: nat)
    requires Inv(s, q) && t < |s.pcs| && u < |s.pcs| && HoldsPair(s.pcs[t]) && !s.pcs[u].Read?
    ensures s.pcs[t].r.a !in Held(s.pcs[u]) && s.pcs[t].r.b !in Held(s.pcs[u])
  {
    var a, b := s.pcs[t].r.a, s.pcs[t].r.b;
    if a in Held(s.pcs[u]) {
      ExclusiveOwner(s, q, u, t, a);
      assert false;
    }
    if b in Held(s.pcs[u]) {
      ExclusiveOwner(s, q, u, t, b);
      assert false;
    }
  }

  /** Two threads have locked the same node only if both are readers with shared locks: a
      swapper's lock shuts out every other thread, a reader with a single lock included. */
  lemma NodeExclusion(s: State, sched: seq<Choice>, t: nat, u: nat, x: int)
    requires Initial(s) && t < |s.pcs| && u < |s.pcs| && t != u
    ensures var r := Exec(s, sched);
            x in Held(r.pcs[t]) && x in Held(r.pcs[u]) ==>
              s.rw && r.pcs[t].Read? && r.pcs[u].Read?
  {
    RunRefines(s, sched);
    var r := Exec(s, sched);
    if x in Held(r.pcs[t]) && !Shares(r.rw, r.pcs[t]) {
      ExclusiveOwner(r, Trace(s, sched), t, u, x);
    } else if x in Held(r.pcs[u]) && !Shares(r.rw, r.pcs[u]) {
      ExclusiveOwner(r, Trace(s, sched), u, t, x);
    }
  }

  /** While `process_thread` holds a pair of locks, shared or exclusive, the two nodes are
      adjacent in the abstract order and stay so whatever the other threads do, and no
      swapper has locked either of them. */
  lemma StablePair(s: State, before: seq<Choice>, during: seq<Choice>, t: nat)
    requires Initial(s) && t < |s.pcs| && HoldsPair(Exec(s, before).pcs[t])
    requires forall i :: 0 <= i < |during| ==> during[i].thread != t
    ensures var pc := Exec(s, before).pcs[t];
            var r := Exec(s, before + during);
            && Adjacent(Trace(s, before + during), pc.r.a, pc.r.b)
            && IsNode(|r.next|, pc.r.a) && r.next[pc.r.a] == pc.r.b
            && (forall u :: 0 <= u < |r.pcs| && !r.pcs[u].Read? ==>
                  pc.r.a !in Held(r.pcs[u]) && pc.r.b !in Held(r.pcs[u]))
  {
    ExecConcat(s, before, during);
    OthersKeepPc(Exec(s, before), during, t);
    RunRefines(s, before + during);
    var r := Exec(s, before + during);
    var q := Trace(s, before + during);
    ReaderPairAdjacent(r, q, t);
    assert Facts(r.next, r.pcs[t]);
    forall u | 0 <= u < |r.pcs| && !r.pcs[u].Read?
      ensures r.pcs[t].r.a !in Held(r.pcs[u]) && r.pcs[t].r.b !in Held(r.pcs[u])
    {
      PairExcludesSwappers(r, q, t, u);
    }
  }
}
