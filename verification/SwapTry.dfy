/** When a try-lock succeeds, told by who holds the node: a shared one unless a swapper holds
    it, an exclusive one unless anybody does. And readers do share. */
module SwapTry {
  import opened SwapProtocol
  import opened SwapInvariant
  import opened SwapSteps
  import opened SwapRuns
  import opened SwapSchedules

  // The try-locks: lines 108, 110, 112 of `swap_thread` and 48, 50 of `process_thread`.
  predicate Tries(pc: Pc, x: int) {
    match pc
    case Scan(S108(cur)) => cur == x && x != NULL
    case Scan(S110c(_, p)) => p == x
    case Scan(S112e(_, _, p)) => p == x
    case Read(W48(cur)) => cur == x && x != NULL
    case Read(W50c(_, p)) => p == x
    case _ => false
  }

  // Does another thread hold x in a way that keeps t out?
  ghost predicate Excluded(s: State, t: nat, x: int)
    requires t < |s.pcs|
  {
    exists u :: 0 <= u < |s.pcs| && u != t && x in Held(s.pcs[u]) && (s.rw && s.pcs[t].Read? ==> !s.pcs[u].Read?)
  }

  lemma TryAddress(next: seq<int>, pc: Pc, x: int)
    requires Tries(pc, x) && Facts(next, pc)
    ensures ActionOf(pc) == Try(x) && IsNode(|next|, x)
    ensures x !in Held(pc) && x in Held(Resume(pc, 0)) && x !in Held(Resume(pc, 1))
  {
  }

  // What keeps the lock from being granted is a thread that holds it.
  lemma HolderExcludes(s: State, q: seq<int>, t: nat, x: int)
    requires Inv(s, q) && t < |s.pcs| && IsNode(|s.next|, x) && x !in Held(s.pcs[t])
    ensures Grants(s.locks[x], Shares(s.rw, s.pcs[t])) <==> !Excluded(s, t, x)
  {
    assert KnownOwner(s, s.locks[x]);
    forall u | 0 <= u < |s.pcs|
      ensures x in Held(s.pcs[u]) <==> Owns(s.locks[x], u, Shares(s.rw, s.pcs[u]))
    {
    }
    assert s.locks[x].Writer? ==> x in Held(s.pcs[s.locks[x].owner]);
    assert s.locks[x].Readers? ==> forall u :: u in s.locks[x].ts ==> x in Held(s.pcs[u]);
  }

  /** In every run a try-lock succeeds exactly unless it is excluded: a reader's shared lock by
      a swapper that holds the node, any other lock by anybody that does. */
  lemma TryExact(s: State, sched: seq<Choice>, t: nat, coin: int, x: int)
    requires Initial(s) && t < |s.pcs| && Tries(Exec(s, sched).pcs[t], x)
    ensures var r := Exec(s, sched);
            x in Held(StepOf(r, t, coin).pcs[t]) <==> !Excluded(r, t, x)
  {
    RunRefines(s, sched);
    TryOutcome(Exec(s, sched), Trace(s, sched), t, coin, x);
  }

  lemma TryOutcome(s: State, q: seq<int>, t: nat, coin: int, x: int)
    requires Inv(s, q) && t < |s.pcs| && Tries(s.pcs[t], x)
    ensures IsNode(|s.next|, x)
    ensures StepOf(s, t, coin).pcs[t] == Resume(s.pcs[t], if Excluded(s, t, x) then 1 else 0)
    ensures x in Held(StepOf(s, t, coin).pcs[t]) <==> !Excluded(s, t, x)
  {
    assert Facts(s.next, s.pcs[t]);
    TryAddress(s.next, s.pcs[t], x);
    HolderExcludes(s, q, t, x);
  }

  // ---------- readers that share ----------

  // The locks after t has shared x.
  function Shared(locks: seq<Lock>, t: nat, x: int): (locks': seq<Lock>)
    requires IsNode(|locks|, x) && locks[x].Readers?
    ensures |locks'| == |locks|
  {
    locks[x := Readers(locks[x].ts + {t})]
  }

  // A try-lock by a reader on a node that no swapper has locked.
  lemma GoShare(s: State, t: nat, s1: State, x: int)
    requires Sized(s) && Sized(s1) && Solo(s, t, s1) && t < |s1.pcs| && s1.rw && s1.pcs[t].Read?
    requires ActionOf(s1.pcs[t]) == Try(x) && IsNode(|s1.next|, x) && s1.locks[x].Readers?
    ensures Solo(s, t, At(s1, t, Resume(s1.pcs[t], 0)).(locks := Shared(s1.locks, t, x)))
  {
    Go(s, t, s1, 0, At(s1, t, Resume(s1.pcs[t], 0)).(locks := Shared(s1.locks, t, x)));
  }

  lemma ShareFirst(s: State, t: nat, b: int) returns (s': State)
    requires Sized(s) && s.rw && t < |s.pcs| && s.pcs[t] == Read(W48(0)) && Pair(s.next, 0, b)
    requires s.locks[0].Readers?
    ensures Solo(s, t, s') && s' == At(s, t, Read(W50c(0, b))).(locks := Shared(s.locks, t, 0))
  {
    Stay(s, t);
    GoShare(s, t, s, 0);
    var s1 := At(s, t, Read(W50(0))).(locks := Shared(s.locks, t, 0));
    GoLoad(s, t, s1, 0);
    var s2 := At(s1, t, Read(W50b(0)));
    GoLoad(s, t, s2, 0);
    s' := At(s2, t, Read(W50c(0, b)));
  }

  // A reader takes its first pair.
  lemma SharePair(s: State, t: nat, b: int) returns (s': State)
    requires Sized(s) && s.rw && t < |s.pcs| && s.pcs[t] == Read(W48(0)) && Pair(s.next, 0, b)
    requires s.locks[0].Readers? && s.locks[b].Readers?
    ensures Solo(s, t, s') && s' == At(s, t, Read(W53(0, b))).(locks := Shared(Shared(s.locks, t, 0), t, b))
  {
    var s1 := ShareFirst(s, t, b);
    GoShare(s, t, s1, b);
    s' := At(s1, t, Read(W53(0, b))).(locks := Shared(s1.locks, t, b));
    assert s' == At(s, t, Read(W53(0, b))).(locks := Shared(s1.locks, t, b));
  }

  ghost predicate SamePair(s: State, t: nat, u: nat)
    requires t < |s.pcs| && u < |s.pcs|
  {
    HoldsPair(s.pcs[t]) && HoldsPair(s.pcs[u])
    && s.pcs[t].r.a == s.pcs[u].r.a && s.pcs[t].r.b == s.pcs[u].r.b
  }

  lemma BothShare(s: State, t: nat, u: nat) returns (sched: seq<Choice>)
    requires Initial(s) && s.rw && |s.next| >= 2 && t < |s.pcs| && u < |s.pcs| && t != u
    requires s.pcs[t].Read? && s.pcs[u].Read?
    ensures SamePair(Exec(s, sched), t, u)
  {
    var b := s.next[0];
    var s1 := ReaderStarts(s, t);
    var s2 := SharePair(s1, t, b);
    SoloOn(s, t, s1, s2);
    var s3 := ReaderStarts(s2, u);
    var s4 := SharePair(s3, u, b);
    SoloOn(s2, u, s3, s4);
    var x :| OnlyBy(x, t) && Exec(s, x) == s2;
    var y :| OnlyBy(y, u) && Exec(s2, y) == s4;
    ExecConcat(s, x, y);
    sched := x + y;
  }

  lemma SharersNeed(s: State, sched: seq<Choice>, t: nat, u: nat)
    requires Initial(s) && t < |s.pcs| && u < |s.pcs| && t != u && SamePair(Exec(s, sched), t, u)
    ensures s.rw && |s.next| >= 2
  {
    RunRefines(s, sched);
    var r := Exec(s, sched);
    NodeExclusion(s, sched, t, u, r.pcs[t].r.a);
    assert r.pcs[t].r.a in Held(r.pcs[t]) && r.pcs[u].r.a in Held(r.pcs[u]);
    assert Facts(r.next, r.pcs[t]);
  }

  ghost predicate CanShare(s: State, t: nat, u: nat)
    requires Sized(s) && t < |s.pcs| && u < |s.pcs|
  {
    exists sched :: SamePair(Exec(s, sched), t, u)
  }

  /** Two readers can hold the same pair of nodes at once exactly with read-write locks and at
      least two nodes. */
  lemma SharedPairIff(s: State, t: nat, u: nat)
    requires Initial(s) && t < |s.pcs| && u < |s.pcs| && t != u && s.pcs[t].Read? && s.pcs[u].Read?
    ensures CanShare(s, t, u) <==> s.rw && |s.next| >= 2
  {
    if s.rw && |s.next| >= 2 {
      var sched := BothShare(s, t, u);
    }
    if CanShare(s, t, u) {
      var sched :| SamePair(Exec(s, sched), t, u);
      SharersNeed(s, sched, t, u);
    }
  }
}
