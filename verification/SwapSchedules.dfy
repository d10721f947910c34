/** Schedules in which one swapper moves and every other thread stands still: one swap, the
    rest of a pass, a whole pass. */
module SwapSchedules {
  import opened SwapProtocol
  import opened SwapInvariant
  import opened SwapSteps
  import opened SwapRuns

  // ---------- building a schedule ----------

  predicate OnlyBy(sched: seq<Choice>, u: nat) {
    forall i :: 0 <= i < |sched| ==> sched[i].thread == u
  }

  // Some schedule of u alone takes s to s'.
  ghost predicate Solo(s: State, u: nat, s': State)
    requires Sized(s)
  {
    exists sched :: OnlyBy(sched, u) && Exec(s, sched) == s'
  }

  lemma Stay(s: State, u: nat)
    requires Sized(s)
    ensures Solo(s, u, s)
  {
    assert OnlyBy([], u) && Exec(s, []) == s;
  }

  lemma Go(s: State, u: nat, s1: State, coin: int, s2: State)
    requires Sized(s) && Sized(s1) && Solo(s, u, s1) && s2 == StepOf(s1, u, coin)
    ensures Solo(s, u, s2)
  {
    var sched :| OnlyBy(sched, u) && Exec(s, sched) == s1;
    var more := sched + [Choice(u, coin)];
    assert more[..|sched|] == sched;
    assert OnlyBy(more, u) && Exec(s, more) == s2;
  }

  lemma SoloOn(s: State, u: nat, s1: State, s2: State)
    requires Sized(s) && Sized(s1) && Solo(s, u, s1) && Solo(s1, u, s2)
    ensures Solo(s, u, s2)
  {
    var a :| OnlyBy(a, u) && Exec(s, a) == s1;
    var b :| OnlyBy(b, u) && Exec(s1, b) == s2;
    ExecConcat(s, a, b);
    assert OnlyBy(a + b, u) && Exec(s, a + b) == s2;
  }

  // s with thread u at pc.
  function At(s: State, u: nat, pc: Pc): (s': State)
    requires Sized(s) && u < |s.pcs|
    ensures Sized(s')
  {
    s.(pcs := s.pcs[u := pc])
  }

  // A load by thread u.
  lemma GoLoad(s: State, u: nat, s1: State, x: int)
    requires Sized(s) && Sized(s1) && Solo(s, u, s1) && u < |s1.pcs|
    requires ActionOf(s1.pcs[u]) == Load(x) && IsNode(|s1.next|, x)
    ensures Solo(s, u, At(s1, u, Resume(s1.pcs[u], s1.next[x])))
  {
    Go(s, u, s1, 0, At(s1, u, Resume(s1.pcs[u], s1.next[x])));
  }

  lemma StayAt(s: State, u: nat)
    requires Sized(s) && u < |s.pcs|
    ensures Solo(s, u, At(s, u, s.pcs[u]))
  {
    Stay(s, u);
    assert At(s, u, s.pcs[u]) == s;
  }

  // A load that takes u from pc to pc'.
  lemma ThenLoad(s: State, u: nat, s1: State, pc: Pc, x: int, pc': Pc)
    requires Sized(s) && Sized(s1) && u < |s1.pcs| && Solo(s, u, At(s1, u, pc))
    requires ActionOf(pc) == Load(x) && IsNode(|s1.next|, x) && pc' == Resume(pc, s1.next[x])
    ensures Solo(s, u, At(s1, u, pc'))
  {
    GoLoad(s, u, At(s1, u, pc), x);
    assert At(At(s1, u, pc), u, pc') == At(s1, u, pc');
  }

  // A granted try-lock by a swapper.
  lemma GoLock(s: State, u: nat, s1: State, x: int)
    requires Sized(s) && Sized(s1) && Solo(s, u, s1) && u < |s1.pcs| && !s1.pcs[u].Read?
    requires ActionOf(s1.pcs[u]) == Try(x) && IsNode(|s1.next|, x) && s1.locks[x] == FREE
    ensures Solo(s, u, At(s1, u, Resume(s1.pcs[u], 0)).(locks := s1.locks[x := Writer(u)]))
  {
    Go(s, u, s1, 0, At(s1, u, Resume(s1.pcs[u], 0)).(locks := s1.locks[x := Writer(u)]));
  }

  lemma GoUnlock(s: State, u: nat, s1: State, x: int)
    requires Sized(s) && Sized(s1) && Solo(s, u, s1) && u < |s1.pcs|
    requires ActionOf(s1.pcs[u]) == Release(x) && IsNode(|s1.next|, x) && s1.locks[x] == Writer(u)
    ensures Solo(s, u, At(s1, u, Resume(s1.pcs[u], 0)).(locks := s1.locks[x := FREE]))
  {
    Go(s, u, s1, 0, At(s1, u, Resume(s1.pcs[u], 0)).(locks := s1.locks[x := FREE]));
  }

  lemma GoStore(s: State, u: nat, s1: State, x: int, v: int)
    requires Sized(s) && Sized(s1) && Solo(s, u, s1) && u < |s1.pcs|
    requires ActionOf(s1.pcs[u]) == Store(x, v) && IsNode(|s1.next|, x)
    ensures Solo(s, u, At(s1, u, Resume(s1.pcs[u], 0)).(next := s1.next[x := v]))
  {
    Go(s, u, s1, 0, At(s1, u, Resume(s1.pcs[u], 0)).(next := s1.next[x := v]));
  }

  // ---------- one uncontended swap ----------

  // The parts of a state that others see: all but u's own program point and counter.
  ghost predicate Reached(s: State, u: nat, s': State, pc: Pc, next: seq<int>, locks: seq<Lock>)
    requires Sized(s)
  {
    && Solo(s, u, s') && Sized(s') && |s'.pcs| == |s.pcs| && u < |s.pcs|
    && s'.pcs == s.pcs[u := pc] && s'.next == next && s'.locks == locks
    && s'.rw == s.rw && s'.first == s.first
  }

  lemma LockPair(s: State, u: nat, a: int, b: int) returns (s': State)
    requires Sized(s) && u < |s.pcs| && s.pcs[u] == Scan(S108(a)) && Pair(s.next, a, b)
    requires s.locks[a] == FREE && s.locks[b] == FREE
    ensures Reached(s, u, s', Scan(S112(a, b)), s.next, s.locks[a := Writer(u)][b := Writer(u)])
  {
    Stay(s, u);
    GoLock(s, u, s, a);
    var s1 := At(s, u, Scan(S110(a))).(locks := s.locks[a := Writer(u)]);
    GoLoad(s, u, s1, a);
    var s2 := At(s1, u, Scan(S110b(a)));
    GoLoad(s, u, s2, a);
    var s3 := At(s2, u, Scan(S110c(a, b)));
    GoLock(s, u, s3, b);
    s' := At(s3, u, Scan(S112(a, b))).(locks := s3.locks[b := Writer(u)]);
  }

  lemma SeeThird(s: State, u: nat, a: int, b: int, c: int)
    requires Sized(s) && u < |s.pcs| && s.pcs[u] == Scan(S112(a, b)) && Triple(s.next, a, b, c)
    ensures Solo(s, u, At(s, u, Scan(S112e(a, b, c))))
  {
    StayAt(s, u);
    ThenLoad(s, u, s, Scan(S112(a, b)), a, Scan(S112b(a, b, b)));
    ThenLoad(s, u, s, Scan(S112b(a, b, b)), b, Scan(S112c(a, b)));
    ThenLoad(s, u, s, Scan(S112c(a, b)), a, Scan(S112d(a, b, b)));
    ThenLoad(s, u, s, Scan(S112d(a, b, b)), b, Scan(S112e(a, b, c)));
  }

  lemma LockThird(s: State, u: nat, a: int, b: int, c: int) returns (s': State)
    requires Sized(s) && u < |s.pcs| && s.pcs[u] == Scan(S112(a, b)) && Triple(s.next, a, b, c)
    requires s.locks[c] == FREE
    ensures Reached(s, u, s', Swap(S114(a, b, c)), s.next, s.locks[c := Writer(u)])
  {
    SeeThird(s, u, a, b, c);
    var s1 := At(s, u, Scan(S112e(a, b, c)));
    GoLock(s, u, s1, c);
    s' := At(s1, u, Swap(S114(a, b, c))).(locks := s1.locks[c := Writer(u)]);
  }

  lemma LoadTriple(s: State, u: nat, a: int, b: int, c: int) returns (s': State)
    requires Sized(s) && u < |s.pcs| && s.pcs[u] == Swap(S114(a, b, c)) && Triple(s.next, a, b, c)
    ensures Reached(s, u, s', Swap(S116b(a, b, c, b, c, s.next[c])), s.next, s.locks)
  {
    Stay(s, u);
    GoLoad(s, u, s, a);
    var s1 := At(s, u, Swap(S115(a, b, c, b)));
    GoLoad(s, u, s1, a);
    var s2 := At(s1, u, Swap(S115b(a, b, c, b, b)));
    GoLoad(s, u, s2, b);
    var s3 := At(s2, u, Swap(S116(a, b, c, b, c)));
    GoLoad(s, u, s3, c);
    s' := At(s3, u, Swap(S116b(a, b, c, b, c, s.next[c])));
  }

  function SwapLinks(next: seq<int>, a: int, b: int, c: int): (next': seq<int>)
    requires Distinct3(|next|, a, b, c)
    ensures |next'| == |next|
  {
    next[b := next[c]][c := b][a := c]
  }

  lemma StoreTriple(s: State, u: nat, a: int, b: int, c: int) returns (s': State)
    requires Sized(s) && u < |s.pcs| && Triple(s.next, a, b, c)
    requires s.pcs[u] == Swap(S116b(a, b, c, b, c, s.next[c]))
    ensures Reached(s, u, s', Swap(S119(a, b, c)), SwapLinks(s.next, a, b, c), s.locks)
  {
    Stay(s, u);
    GoStore(s, u, s, b, s.next[c]);
    var s1 := At(s, u, Swap(S117(a, b, c, b, c))).(next := s.next[b := s.next[c]]);
    GoStore(s, u, s1, c, b);
    var s2 := At(s1, u, Swap(S118(a, b, c, b, c))).(next := s1.next[c := b]);
    GoStore(s, u, s2, a, c);
    s' := At(s2, u, Swap(S119(a, b, c))).(next := s2.next[a := c]);
  }

  lemma ReloadTriple(s: State, u: nat, a: int, b: int, c: int) returns (s': State)
    requires Sized(s) && u < |s.pcs| && Swapped(s.next, a, b, c) && s.pcs[u] == Swap(S119(a, b, c))
    ensures Reached(s, u, s', Swap(S123(a, b, c, c, b)), s.next, s.locks)
  {
    Stay(s, u);
    var s1 := s.(counters := s.counters[u := s.counters[u] + 1]);
    Go(s, u, s, 0, At(s1, u, Swap(S121(a, b, c))));
    ThenLoad(s, u, s1, Swap(S121(a, b, c)), a, Swap(S122(a, b, c, c)));
    ThenLoad(s, u, s1, Swap(S122(a, b, c, c)), c, Swap(S123(a, b, c, c, b)));
    s' := At(s1, u, Swap(S123(a, b, c, c, b)));
  }

  lemma UnlockTriple(s: State, u: nat, a: int, b: int, c: int) returns (s': State)
    requires Sized(s) && u < |s.pcs| && Distinct3(|s.next|, a, b, c)
    requires s.pcs[u] == Swap(S123(a, b, c, c, b))
    requires s.locks[a] == Writer(u) && s.locks[b] == Writer(u) && s.locks[c] == Writer(u)
    ensures Reached(s, u, s', Scan(S108(c)), s.next, s.locks[a := FREE][c := FREE][b := FREE])
  {
    Stay(s, u);
    GoUnlock(s, u, s, a);
    var s1 := At(s, u, Swap(S124(b, c, c, b))).(locks := s.locks[a := FREE]);
    GoUnlock(s, u, s1, c);
    var s2 := At(s1, u, Swap(S125(b, c, b))).(locks := s1.locks[c := FREE]);
    GoUnlock(s, u, s2, b);
    s' := At(s2, u, Scan(S108(c))).(locks := s2.locks[b := FREE]);
  }

  lemma ReachedOn(s: State, u: nat, s1: State, pc1: Pc, next1: seq<int>, locks1: seq<Lock>,
                  s2: State, pc2: Pc, next2: seq<int>, locks2: seq<Lock>)
    requires Sized(s) && Sized(s1)
    requires Reached(s, u, s1, pc1, next1, locks1) && Reached(s1, u, s2, pc2, next2, locks2)
    ensures Reached(s, u, s2, pc2, next2, locks2)
  {
    SoloOn(s, u, s1, s2);
  }

  predicate AllFree(locks: seq<Lock>) {
    forall x :: 0 <= x < |locks| ==> locks[x] == FREE
  }

  function Taken(locks: seq<Lock>, u: nat, a: int, b: int, c: int): (locks': seq<Lock>)
    requires IsNode(|locks|, a) && IsNode(|locks|, b) && IsNode(|locks|, c)
    ensures |locks'| == |locks|
  {
    locks[a := Writer(u)][b := Writer(u)][c := Writer(u)]
  }

  // The first half of a swap: three locks and three stores.
  lemma BeginSwap(s: State, u: nat, a: int, b: int, c: int) returns (s': State)
    requires Sized(s) && u < |s.pcs| && s.pcs[u] == Scan(S108(a))
    requires Triple(s.next, a, b, c) && AllFree(s.locks)
    ensures Reached(s, u, s', Swap(S119(a, b, c)), SwapLinks(s.next, a, b, c), Taken(s.locks, u, a, b, c))
  {
    var l2 := s.locks[a := Writer(u)][b := Writer(u)];
    var l3 := l2[c := Writer(u)];
    var s1 := LockPair(s, u, a, b);
    var s2 := LockThird(s1, u, a, b, c);
    ReachedOn(s, u, s1, Scan(S112(a, b)), s.next, l2, s2, Swap(S114(a, b, c)), s.next, l3);
    var s3 := LoadTriple(s2, u, a, b, c);
    ReachedOn(s, u, s2, Swap(S114(a, b, c)), s.next, l3,
              s3, Swap(S116b(a, b, c, b, c, s.next[c])), s.next, l3);
    s' := StoreTriple(s3, u, a, b, c);
    ReachedOn(s, u, s3, Swap(S116b(a, b, c, b, c, s.next[c])), s.next, l3,
              s', Swap(S119(a, b, c)), SwapLinks(s.next, a, b, c), l3);
  }

  // The second half: the counter, the reloads and the unlocks.
  lemma EndSwap(s: State, u: nat, a: int, b: int, c: int, free: seq<Lock>) returns (s': State)
    requires Sized(s) && u < |s.pcs| && s.pcs[u] == Swap(S119(a, b, c)) && Swapped(s.next, a, b, c)
    requires |free| == |s.locks| && AllFree(free) && s.locks == Taken(free, u, a, b, c)
    ensures Reached(s, u, s', Scan(S108(c)), s.next, free)
  {
    var s1 := ReloadTriple(s, u, a, b, c);
    s' := UnlockTriple(s1, u, a, b, c);
    assert s.locks[a := FREE][c := FREE][b := FREE] == free;
    ReachedOn(s, u, s1, Swap(S123(a, b, c, c, b)), s.next, s.locks, s', Scan(S108(c)), s.next, free);
  }

  lemma SwapOnce(s: State, u: nat, a: int, b: int, c: int) returns (s': State)
    requires Sized(s) && u < |s.pcs| && s.pcs[u] == Scan(S108(a))
    requires Triple(s.next, a, b, c) && AllFree(s.locks)
    ensures Reached(s, u, s', Scan(S108(c)), SwapLinks(s.next, a, b, c), s.locks)
  {
    var next' := SwapLinks(s.next, a, b, c);
    var s1 := BeginSwap(s, u, a, b, c);
    s' := EndSwap(s1, u, a, b, c, s.locks);
    ReachedOn(s, u, s1, Swap(S119(a, b, c)), next', Taken(s.locks, u, a, b, c),
              s', Scan(S108(c)), next', s.locks);
  }

  // ---------- swaps and the order ----------

  // The links follow the order q.
  predicate Links(next: seq<int>, q: seq<int>) {
    && IsOrder(|next|, q)
    && (forall i {:trigger Succ(q, i)} :: 0 <= i < |q| ==> next[q[i]] == Succ(q, i))
  }

  // And nothing is locked.
  predicate Calmed(s: State, q: seq<int>)
    requires Sized(s)
  {
    Links(s.next, q) && AllFree(s.locks)
  }

  lemma LinksTriple(next: seq<int>, q: seq<int>, k: nat)
    requires Links(next, q) && k + 2 < |q|
    ensures Triple(next, q[k], q[k + 1], q[k + 2]) && next[q[k + 2]] == Succ(q, k + 2)
  {
    assert next[q[k]] == Succ(q, k) && next[q[k + 1]] == Succ(q, k + 1);
  }

  // The three stores turn the links of an order into those of the exchanged order.
  lemma SwapLinksOrder(next: seq<int>, q: seq<int>, k: nat)
    requires Links(next, q) && k + 2 < |q|
    ensures Triple(next, q[k], q[k + 1], q[k + 2])
    ensures Links(SwapLinks(next, q[k], q[k + 1], q[k + 2]), Exchange(q, k + 1))
  {
    LinksTriple(next, q, k);
    var next' := SwapLinks(next, q[k], q[k + 1], q[k + 2]);
    var r := Exchange(q, k + 1);
    ExchangeIsOrder(|next|, q, k + 1);
    forall i | 0 <= i < |r| ensures next'[r[i]] == Succ(r, i) {
      if !(k <= i <= k + 2) {
        assert r[i] == q[i] && next[q[i]] == Succ(q, i) && Succ(q, i) == Succ(r, i);
      }
    }
  }

  // Where a move by u alone has led: u's place, the order, and everyone else as before.
  ghost predicate Moved(s: State, u: nat, s': State, pc: Pc, q: seq<int>)
    requires Sized(s) && u < |s.pcs|
  {
    && Solo(s, u, s') && Sized(s') && s'.pcs == s.pcs[u := pc] && Calmed(s', q)
    && s'.first == s.first && s'.rw == s.rw && |s'.next| == |s.next|
  }

  lemma MovedOn(s: State, u: nat, s1: State, pc1: Pc, q1: seq<int>, s2: State, pc2: Pc, q2: seq<int>)
    requires Sized(s) && u < |s.pcs| && Sized(s1) && u < |s1.pcs|
    requires Moved(s, u, s1, pc1, q1) && Moved(s1, u, s2, pc2, q2)
    ensures Moved(s, u, s2, pc2, q2)
  {
    SoloOn(s, u, s1, s2);
  }

  lemma SwapOnceOrder(s: State, u: nat, q: seq<int>, k: nat) returns (s': State)
    requires Sized(s) && u < |s.pcs| && Calmed(s, q) && k + 2 < |q|
    requires s.pcs[u] == Scan(S108(q[k]))
    ensures Moved(s, u, s', Scan(S108(q[k + 2])), Exchange(q, k + 1))
  {
    SwapLinksOrder(s.next, q, k);
    s' := SwapOnce(s, u, q[k], q[k + 1], q[k + 2]);
  }

  // What carrying the element at k + 1 to j + 1 has done to the order.
  predicate Carried(q: seq<int>, q': seq<int>, k: nat, j: nat)
    requires k <= j && j + 1 < |q|
  {
    && |q'| == |q| && q'[0] == q[0] && q'[j + 1] == q[k + 1]
    && (forall i :: j + 1 < i < |q| ==> q'[i] == q[i])
  }

  // The element at k + 1 has moved to j + 1, those in between up by one.
  function CarriedTo(q: seq<int>, k: nat, j: nat): (r: seq<int>)
    requires k <= j && j + 1 < |q|
    ensures |r| == |q|
  {
    q[..k + 1] + q[k + 2..j + 2] + [q[k + 1]] + q[j + 2..]
  }

  lemma CarriedOne(q: seq<int>, k: nat)
    requires k + 1 < |q|
    ensures CarriedTo(q, k, k) == q
  {
  }

  lemma CarriedMore(q: seq<int>, k: nat, j: nat)
    requires k < j && j + 1 < |q|
    ensures CarriedTo(Exchange(q, k + 1), k + 1, j) == CarriedTo(q, k, j)
  {
    var r := Exchange(q, k + 1);
    assert r[..k + 2] == q[..k + 1] + [q[k + 2]];
    assert r[k + 3..j + 2] == q[k + 3..j + 2] && r[j + 2..] == q[j + 2..];
    assert q[k + 2..j + 2] == [q[k + 2]] + q[k + 3..j + 2];
  }

  /** A pass carries the node after its pointer along. */
  lemma {:induction false} Carry(s: State, u: nat, q: seq<int>, k: nat, j: nat)
    returns (s': State, q': seq<int>)
    requires Sized(s) && u < |s.pcs| && Calmed(s, q) && k <= j && j + 1 < |q|
    requires s.pcs[u] == Scan(S108(q[k]))
    ensures q' == CarriedTo(q, k, j) && Carried(q, q', k, j) && Moved(s, u, s', Scan(S108(q'[j])), q')
    decreases j - k
  {
    if k == j {
      Stay(s, u);
      s', q' := s, q;
      CarriedOne(q, k);
    } else {
      var s1 := SwapOnceOrder(s, u, q, k);
      var r := Exchange(q, k + 1);
      s', q' := Carry(s1, u, r, k + 1, j);
      CarriedMore(q, k, j);
      MovedOn(s, u, s1, Scan(S108(q[k + 2])), r, s', Scan(S108(q'[j])), q');
    }
  }

  // ---------- the end of a pass ----------

  // Two nodes are left: both get locked, but there is no third.
  lemma PassPair(s: State, u: nat, a: int, b: int) returns (s': State)
    requires Sized(s) && u < |s.pcs| && s.pcs[u] == Scan(S108(a)) && Pair(s.next, a, b)
    requires s.next[b] == NULL && AllFree(s.locks)
    ensures Reached(s, u, s', Scan(S108(b)), s.next, s.locks)
  {
    var l2 := s.locks[a := Writer(u)][b := Writer(u)];
    var s1 := LockPair(s, u, a, b);
    s' := SkipPair(s1, u, a, b);
    assert l2[a := FREE][b := FREE] == s.locks;
    ReachedOn(s, u, s1, Scan(S112(a, b)), s.next, l2, s', Scan(S108(b)), s.next, s.locks);
  }

  lemma SkipPair(s: State, u: nat, a: int, b: int) returns (s': State)
    requires Sized(s) && u < |s.pcs| && s.pcs[u] == Scan(S112(a, b)) && Pair(s.next, a, b)
    requires s.next[b] == NULL && s.locks[a] == Writer(u) && s.locks[b] == Writer(u)
    ensures Reached(s, u, s', Scan(S108(b)), s.next, s.locks[a := FREE][b := FREE])
  {
    StayAt(s, u);
    ThenLoad(s, u, s, Scan(S112(a, b)), a, Scan(S112b(a, b, b)));
    ThenLoad(s, u, s, Scan(S112b(a, b, b)), b, Scan(S130(a, b)));
    ThenLoad(s, u, s, Scan(S130(a, b)), a, Scan(S131(a, b, b)));
    var s1 := At(s, u, Scan(S131(a, b, b)));
    s' := UnlockPair(s1, u, a, b);
    SoloOn(s, u, s1, s');
  }

  lemma UnlockPair(s: State, u: nat, a: int, b: int) returns (s': State)
    requires Sized(s) && u < |s.pcs| && s.pcs[u] == Scan(S131(a, b, b)) && Pair(s.next, a, b)
    requires s.locks[a] == Writer(u) && s.locks[b] == Writer(u)
    ensures Reached(s, u, s', Scan(S108(b)), s.next, s.locks[a := FREE][b := FREE])
  {
    Stay(s, u);
    GoUnlock(s, u, s, a);
    var s1 := At(s, u, Scan(S132(b, b))).(locks := s.locks[a := FREE]);
    GoUnlock(s, u, s1, b);
    s' := At(s1, u, Scan(S108(b))).(locks := s1.locks[b := FREE]);
  }

  // One node is left.
  lemma PassLast(s: State, u: nat, b: int) returns (s': State)
    requires Sized(s) && u < |s.pcs| && s.pcs[u] == Scan(S108(b)) && IsNode(|s.next|, b)
    requires s.next[b] == NULL && AllFree(s.locks)
    ensures Reached(s, u, s', Head(S90), s.next, s.locks)
  {
    Stay(s, u);
    GoLock(s, u, s, b);
    var s1 := At(s, u, Scan(S110(b))).(locks := s.locks[b := Writer(u)]);
    var s2 := LeaveLast(s1, u, b);
    SoloOn(s, u, s1, s2);
    assert s1.locks[b := FREE] == s.locks;
    s' := At(s2, u, Head(S90));
    Go(s, u, s2, 0, s');
  }

  lemma LeaveLast(s: State, u: nat, b: int) returns (s': State)
    requires Sized(s) && u < |s.pcs| && s.pcs[u] == Scan(S110(b)) && IsNode(|s.next|, b)
    requires s.next[b] == NULL && s.locks[b] == Writer(u)
    ensures Reached(s, u, s', Scan(S108(NULL)), s.next, s.locks[b := FREE])
  {
    StayAt(s, u);
    ThenLoad(s, u, s, Scan(S110(b)), b, Scan(S138(b)));
    ThenLoad(s, u, s, Scan(S138(b)), b, Scan(S139(b, NULL)));
    var s1 := At(s, u, Scan(S139(b, NULL)));
    GoUnlock(s, u, s1, b);
    s' := At(s1, u, Scan(S108(NULL))).(locks := s1.locks[b := FREE]);
  }

  lemma PassLastTwo(s: State, u: nat, q: seq<int>) returns (s': State)
    requires Sized(s) && u < |s.pcs| && Calmed(s, q) && |q| >= 2
    requires s.pcs[u] == Scan(S108(q[|q| - 2]))
    ensures Moved(s, u, s', Head(S90), q)
  {
    var a, b := q[|q| - 2], q[|q| - 1];
    assert s.next[a] == Succ(q, |q| - 2) && s.next[b] == Succ(q, |q| - 1);
    var s1 := PassPair(s, u, a, b);
    s' := PassLast(s1, u, b);
    ReachedOn(s, u, s1, Scan(S108(b)), s.next, s.locks, s', Head(S90), s.next, s.locks);
  }

  /** The rest of a pass: the node after the pass pointer ends up last, and u is back at
      line 90. */
  lemma FinishPass(s: State, u: nat, q: seq<int>, k: nat) returns (s': State, q': seq<int>)
    requires Sized(s) && u < |s.pcs| && Calmed(s, q) && k + 1 < |q|
    requires s.pcs[u] == Scan(S108(q[k]))
    ensures |q'| == |q| && q'[0] == q[0] && q'[|q| - 1] == q[k + 1]
    ensures q' == CarriedTo(q, k, |q| - 2) && Moved(s, u, s', Head(S90), q')
  {
    var s1;
    s1, q' := Carry(s, u, q, k, |q| - 2);
    s' := PassLastTwo(s1, u, q');
    MovedOn(s, u, s1, Scan(S108(q'[|q| - 2])), q', s', Head(S90), q');
  }

  // ---------- the start of a pass ----------

  // At least three nodes as seen from `first`.
  predicate Enterable(s: State) {
    && s.first == 0 && IsNode(|s.next|, 0)
    && IsNode(|s.next|, s.next[0]) && s.next[s.next[0]] != NULL
  }

  lemma CalmedEnterable(s: State, q: seq<int>)
    requires Sized(s) && Calmed(s, q) && |q| >= 3 && q[0] == 0 && s.first == 0
    ensures Enterable(s) && s.next[0] == q[1] && s.next[q[1]] == q[2]
  {
    assert s.next[q[0]] == Succ(q, 0) && s.next[q[1]] == Succ(q, 1);
  }

  // Thread u reads lines 90 and 91.
  lemma Check(s: State, u: nat) returns (s': State)
    requires Sized(s) && Enterable(s) && u < |s.pcs| && s.pcs[u] == Head(S90)
    ensures Solo(s, u, s') && s' == At(s, u, Head(S91c(0, s.next[0])))
  {
    Stay(s, u);
    var s1 := At(s, u, Head(S91(0)));
    Go(s, u, s, 0, s1);
    GoLoad(s, u, s1, 0);
    var s2 := At(s1, u, Head(S91b(0)));
    GoLoad(s, u, s2, 0);
    s' := At(s2, u, Head(S91c(0, s.next[0])));
  }

  // And chooses what its coin says.
  lemma Enter(s: State, u: nat, coin: int) returns (s': State)
    requires Sized(s) && Enterable(s) && u < |s.pcs| && s.pcs[u] == Head(S90)
    ensures Solo(s, u, s') && s' == At(s, u, if coin == 0 then Head(S102(0)) else Scan(S108(0)))
  {
    var s1 := Check(s, u);
    GoLoad(s, u, s1, s.next[0]);
    var s2 := At(s1, u, Head(S97(0)));
    s' := At(s2, u, if coin == 0 then Head(S102(0)) else Scan(S108(0)));
    Go(s, u, s2, coin, s');
  }

  // A reader passes lines 31 and 40.
  lemma ReaderStarts(s: State, t: nat) returns (s': State)
    requires Sized(s) && s.first == 0 && IsNode(|s.next|, 0) && s.next[0] != NULL
    requires t < |s.pcs| && s.pcs[t] == Read(W31)
    ensures Solo(s, t, s') && s' == At(s, t, Read(W48(0)))
  {
    Stay(s, t);
    var s1 := At(s, t, Read(W31b(0)));
    Go(s, t, s, 0, s1);
    GoLoad(s, t, s1, 0);
    var s2 := At(s1, t, Read(W39));
    var s3 := At(s2, t, Read(W40(0)));
    Go(s, t, s2, 0, s3);
    GoLoad(s, t, s3, 0);
    s' := At(s3, t, Read(W48(0)));
  }
}
