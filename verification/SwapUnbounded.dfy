/** How long one pass can last: with three nodes and another swapper there is no bound; without
    them a pass over n nodes ends after n advances. The walker rests on a node while the
    swapper brings that node one place forward, behind the walker's next advance, in every one
    of its own passes. */
module SwapUnbounded {
  import opened SwapProtocol
  import opened SwapInvariant
  import opened SwapSteps
  import opened SwapRuns
  import opened SwapSole
  import opened SwapWalk
  import opened SwapSchedules
  import opened SwapRace

  // ---------- one pass, so far ----------

  // In this run t has been on one pass since step lo, and has advanced at least m times.
  ghost predicate Walks(s: State, sched: seq<Choice>, lo: nat, t: nat, m: nat)
    requires Sized(s) && t < |s.pcs|
  {
    lo <= |sched| && StaysInPass(s, sched, lo, t) && m <= AdvanceCount(s, sched, lo, t)
  }

  ghost predicate Walked(s: State, s1: State, t: nat, m: nat)
    requires Sized(s) && t < |s.pcs|
  {
    exists sched, lo: nat :: Exec(s, sched) == s1 && Walks(s, sched, lo, t, m)
  }

  lemma WalkStart(s: State, s1: State, t: nat)
    requires Sized(s) && t < |s.pcs| && Leads(s, s1) && t < |s1.pcs| && InPass(s1.pcs[t])
    ensures Walked(s, s1, t, 0)
  {
    var sched :| Exec(s, sched) == s1;
    assert sched[..|sched|] == sched;
    assert Walks(s, sched, |sched|, t, 0);
  }

  lemma WalkStep(s: State, s1: State, t: nat, m: nat, c: Choice, s2: State, gain: nat)
    requires Sized(s) && t < |s.pcs| && Walked(s, s1, t, m) && Sized(s1) && t < |s1.pcs|
    requires s2 == StepOf(s1, c.thread, c.coin) && InPass(s2.pcs[t])
    requires gain == 0 || (gain == 1 && c.thread == t && Advances(s1.pcs[t]))
    ensures Walked(s, s2, t, m + gain)
  {
    var sched, lo: nat :| Exec(s, sched) == s1 && Walks(s, sched, lo, t, m);
    var more := sched + [c];
    assert more[..|sched|] == sched;
    forall i | lo <= i <= |more| ensures InPass(Exec(s, more[..i]).pcs[t]) {
      if i <= |sched| {
        assert more[..i] == sched[..i];
      } else {
        assert more[..i] == more;
      }
    }
    assert Walks(s, more, lo, t, m + gain);
  }

  // Moves of others leave the walk as it is.
  lemma {:induction false} WalkMore(s: State, s1: State, t: nat, m: nat, b: seq<Choice>)
    requires Sized(s) && t < |s.pcs| && Walked(s, s1, t, m) && Sized(s1) && t < |s1.pcs|
    requires InPass(s1.pcs[t]) && forall i :: 0 <= i < |b| ==> b[i].thread != t
    ensures Walked(s, Exec(s1, b), t, m) && Exec(s1, b).pcs[t] == s1.pcs[t]
    decreases |b|
  {
    if b != [] {
      var k := |b| - 1;
      WalkMore(s, s1, t, m, b[..k]);
      OthersStay(Exec(s1, b[..k]), b[k].thread, b[k].coin, t);
      WalkStep(s, Exec(s1, b[..k]), t, m, b[k], Exec(s1, b), 0);
    }
  }

  lemma WalkSolo(s: State, s1: State, t: nat, m: nat, u: nat, s2: State)
    requires Sized(s) && t < |s.pcs| && Walked(s, s1, t, m) && Sized(s1) && t < |s1.pcs|
    requires InPass(s1.pcs[t]) && u != t && Solo(s1, u, s2)
    ensures Walked(s, s2, t, m)
  {
    var b :| OnlyBy(b, u) && Exec(s1, b) == s2;
    WalkMore(s, s1, t, m, b);
  }

  // ---------- an advance over a locked node ----------

  // At the try-lock of the node x, nothing locked.
  function Rest(isReader: bool, x: int): Pc {
    if isReader then Read(W48(x)) else Scan(S108(x))
  }

  lemma HopSteps(s1: State, t: nat, isReader: bool, x: int, s2: State, s3: State)
    requires Sized(s1) && t < |s1.pcs|
    requires s1.pcs[t] == Rest(isReader, x) && IsNode(|s1.next|, x) && s1.locks[x].Writer?
    requires s2 == At(s1, t, if isReader then Read(W74(x)) else Scan(S148(x)))
    requires s3 == At(s1, t, Rest(isReader, s1.next[x]))
    ensures s2 == StepOf(s1, t, 0) && InPass(s2.pcs[t]) && Advances(s2.pcs[t])
    ensures s3 == StepOf(s2, t, 0) && InPass(s3.pcs[t])
  {
  }

  // The try-lock fails, and the walker steps on without a lock.
  lemma Hop(s: State, s1: State, t: nat, m: nat, isReader: bool, x: int) returns (s2: State)
    requires Sized(s) && t < |s.pcs| && Walked(s, s1, t, m) && Sized(s1) && t < |s1.pcs|
    requires s1.pcs[t] == Rest(isReader, x) && IsNode(|s1.next|, x) && s1.locks[x].Writer?
    ensures s2 == At(s1, t, Rest(isReader, s1.next[x])) && Walked(s, s2, t, m + 1)
  {
    var s' := At(s1, t, if isReader then Read(W74(x)) else Scan(S148(x)));
    s2 := At(s1, t, Rest(isReader, s1.next[x]));
    HopSteps(s1, t, isReader, x, s', s2);
    WalkStep(s, s1, t, m, Choice(t, 0), s', 0);
    WalkStep(s, s', t, m, Choice(t, 0), s2, 1);
  }

  // ---------- a swap under the walker's feet ----------

  // u about to swap after position k of the order, t resting on x.
  predicate Meeting(s: State, t: nat, u: nat, isReader: bool, q: seq<int>, k: nat, x: int)
    requires Sized(s)
  {
    && t < |s.pcs| && u < |s.pcs| && t != u && Calmed(s, q) && k + 1 < |q|
    && s.pcs[u] == Scan(S108(q[k])) && s.pcs[t] == Rest(isReader, x)
  }

  // While u has its three nodes locked, t hops from one of them to the node swapped behind.
  lemma HopsBehind(s: State, s1: State, t: nat, m: nat, isReader: bool, a: int, b: int, c: int, x: int)
    returns (s2: State)
    requires Sized(s) && t < |s.pcs| && Walked(s, s1, t, m) && Sized(s1) && t < |s1.pcs|
    requires Swapped(s1.next, a, b, c) && s1.pcs[t] == Rest(isReader, x) && (x == a || x == c)
    requires s1.locks[a].Writer? && s1.locks[c].Writer?
    ensures s2 == At(s1, t, Rest(isReader, b)) && Walked(s, s2, t, m + 1)
  {
    if x == a {
      var s' := Hop(s, s1, t, m, isReader, a);
      s2 := Hop(s, s', t, m + 1, isReader, c);
      WalkLess(s, s2, t, m + 2, m + 1);
      assert s2 == At(s1, t, Rest(isReader, b));
    } else {
      s2 := Hop(s, s1, t, m, isReader, c);
    }
  }

  lemma WalkLess(s: State, s1: State, t: nat, m: nat, m': nat)
    requires Sized(s) && t < |s.pcs| && Walked(s, s1, t, m) && m' <= m
    ensures Walked(s, s1, t, m')
  {
    var sched, lo: nat :| Exec(s, sched) == s1 && Walks(s, sched, lo, t, m);
    assert Walks(s, sched, lo, t, m');
  }

  lemma SwapUnderWalker(s: State, s1: State, t: nat, m: nat, u: nat, isReader: bool, q: seq<int>, k: nat, x: int)
    returns (s2: State)
    requires Sized(s) && t < |s.pcs| && Walked(s, s1, t, m) && Sized(s1)
    requires Meeting(s1, t, u, isReader, q, k, x) && k + 2 < |q| && (x == q[k] || x == q[k + 2])
    ensures Walked(s, s2, t, m + 1) && Sized(s2) && Meeting(s2, t, u, isReader, Exchange(q, k + 1), k + 1, q[k + 1])
    ensures s2.first == s1.first && s2.rw == s1.rw && |s2.next| == |s1.next| && |s2.pcs| == |s1.pcs|
  {
    var a, b, c := q[k], q[k + 1], q[k + 2];
    SwapLinksOrder(s1.next, q, k);
    var next' := SwapLinks(s1.next, a, b, c);
    var s' := BeginSwap(s1, u, a, b, c);
    WalkSolo(s, s1, t, m, u, s');
    var s'' := HopsBehind(s, s', t, m, isReader, a, b, c, x);
    s2 := EndSwap(s'', u, a, b, c, s1.locks);
    WalkSolo(s, s'', t, m + 1, u, s2);
  }

  // ---------- round after round ----------

  // u at line 90, t resting on the last node.
  predicate Waits(s: State, t: nat, u: nat, isReader: bool, q: seq<int>)
    requires Sized(s)
  {
    && t < |s.pcs| && u < |s.pcs| && t != u && Calmed(s, q) && |q| >= 3 && q[0] == 0 && s.first == 0
    && s.pcs[u] == Head(S90) && s.pcs[t] == Rest(isReader, q[|q| - 1])
  }

  // u finishes its pass; the node t rests on, next to u's pointer, ends up last.
  lemma CarryWalker(s: State, s1: State, t: nat, m: nat, u: nat, isReader: bool, q: seq<int>, k: nat)
    returns (s2: State, q2: seq<int>)
    requires Sized(s) && t < |s.pcs| && Walked(s, s1, t, m) && Sized(s1) && |q| >= 3 && k + 1 < |q|
    requires Meeting(s1, t, u, isReader, q, k, q[k + 1]) && q[0] == 0 && s1.first == 0
    ensures Walked(s, s2, t, m) && Sized(s2) && Waits(s2, t, u, isReader, q2) && |q2| == |q|
  {
    s2, q2 := FinishPass(s1, u, q, k);
    WalkSolo(s, s1, t, m, u, s2);
  }

  lemma FirstRound(s: State, s1: State, t: nat, u: nat, isReader: bool, q: seq<int>)
    returns (s2: State, q2: seq<int>)
    requires Sized(s) && t < |s.pcs| && Walked(s, s1, t, 0) && Sized(s1) && Calmed(s1, q) && |q| >= 3
    requires t < |s1.pcs| && u < |s1.pcs| && t != u && q[0] == 0 && s1.first == 0
    requires s1.pcs[u] == Head(S90) && s1.pcs[t] == Rest(isReader, 0)
    ensures Walked(s, s2, t, 1) && Sized(s2) && Waits(s2, t, u, isReader, q2)
  {
    CalmedEnterable(s1, q);
    var s' := Enter(s1, u, 1);
    WalkSolo(s, s1, t, 0, u, s');
    var s'' := SwapUnderWalker(s, s', t, 0, u, isReader, q, 0, 0);
    s2, q2 := CarryWalker(s, s'', t, 1, u, isReader, Exchange(q, 1), 1);
  }

  lemma NextRound(s: State, s1: State, t: nat, m: nat, u: nat, isReader: bool, q: seq<int>)
    returns (s2: State, q2: seq<int>)
    requires Sized(s) && t < |s.pcs| && Walked(s, s1, t, m) && Sized(s1) && Waits(s1, t, u, isReader, q)
    ensures Walked(s, s2, t, m + 1) && Sized(s2) && Waits(s2, t, u, isReader, q2)
  {
    var k := |q| - 3;
    CalmedEnterable(s1, q);
    var s' := Enter(s1, u, 1);
    WalkSolo(s, s1, t, m, u, s');
    var s'', q' := Carry(s', u, q, 0, k);
    WalkSolo(s, s', t, m, u, s'');
    var s3 := SwapUnderWalker(s, s'', t, m, u, isReader, q', k, q[|q| - 1]);
    s2, q2 := CarryWalker(s, s3, t, m + 1, u, isReader, Exchange(q', k + 1), k + 1);
  }

  lemma {:induction false} Rounds(s: State, s1: State, t: nat, m: nat, u: nat, isReader: bool, q: seq<int>, more: nat)
    returns (s2: State)
    requires Sized(s) && t < |s.pcs| && Walked(s, s1, t, m) && Sized(s1) && Waits(s1, t, u, isReader, q)
    ensures Walked(s, s2, t, m + more)
    decreases more
  {
    if more == 0 {
      s2 := s1;
    } else {
      var s', q' := NextRound(s, s1, t, m, u, isReader, q);
      s2 := Rounds(s, s', t, m + 1, u, isReader, q', more - 1);
    }
  }

  // ---------- the start of the walk ----------

  lemma WalkerEnters(s: State, t: nat) returns (s': State)
    requires Initial(s) && |s.next| >= 3 && t < |s.pcs|
    ensures Leads(s, s') && s' == At(s, t, Rest(s.pcs[t].Read?, 0))
  {
    InitialCalmed(s);
    if s.pcs[t].Read? {
      s' := ReaderStarts(s, t);
    } else {
      s' := Enter(s, t, 1);
    }
    assert Exec(s, []) == s;
    LeadsOn(s, s, t, s');
  }

  // Some run keeps t on one pass for more than m advances.
  ghost predicate PassExceeds(s: State, t: nat, m: nat)
    requires Sized(s) && t < |s.pcs|
  {
    exists sched, lo: nat ::
      lo <= |sched| && StaysInPass(s, sched, lo, t) && AdvanceCount(s, sched, lo, t) > m
  }

  lemma RivalPassExceeds(s: State, t: nat, m: nat)
    requires Initial(s) && t < |s.pcs| && HasRival(s, t)
    ensures PassExceeds(s, t, m)
  {
    var u :| 0 <= u < |s.pcs| && u != t && !s.pcs[u].Read?;
    var isReader := s.pcs[t].Read?;
    InitialCalmed(s);
    var s1 := WalkerEnters(s, t);
    WalkStart(s, s1, t);
    var s', q' := FirstRound(s, s1, t, u, isReader, Identity(|s.next|));
    var s2 := Rounds(s, s', t, 1, u, isReader, q', m);
    var sched, lo: nat :| Exec(s, sched) == s2 && Walks(s, sched, lo, t, m + 1);
  }

  // ---------- without a rival ----------

  lemma {:induction false} KindsStay(s: State, sched: seq<Choice>, u: nat)
    requires Sized(s) && u < |s.pcs|
    ensures Exec(s, sched).pcs[u].Read? == s.pcs[u].Read?
    decreases |sched|
  {
    if sched != [] {
      var k := |sched| - 1;
      KindsStay(s, sched[..k], u);
      StepKeepsKind(Exec(s, sched[..k]), sched[k].thread, sched[k].coin, u);
    }
  }

  lemma RaiseNeedsRival(s: State, sched: seq<Choice>, t: nat, u: nat, x: int)
    requires Initial(s) && t < |s.pcs| && u != t && Raising(Exec(s, sched), u, x)
    ensures HasRival(s, t)
  {
    RunRefines(s, sched);
    StoringTriple(Exec(s, sched), Trace(s, sched), u);
    KindsStay(s, sched, u);
  }

  lemma {:induction false} NoRivalNoRaise(s: State, sched: seq<Choice>, lo: nat, t: nat)
    requires Initial(s) && t < |s.pcs| && !HasRival(s, t)
    ensures RaiseCount(s, sched, lo, t) == 0
    decreases |sched|
  {
    if |sched| > lo {
      var k := |sched| - 1;
      NoRivalNoRaise(s, sched[..k], lo, t);
      var r := Exec(s, sched[..k]);
      if sched[k].thread != t && InPass(r.pcs[t]) && Raising(r, sched[k].thread, Cursor(r.pcs[t])) {
        RaiseNeedsRival(s, sched[..k], t, sched[k].thread, Cursor(r.pcs[t]));
      }
    }
  }

  lemma LonePassEnds(s: State, t: nat, m: nat)
    requires Initial(s) && t < |s.pcs| && !HasRival(s, t) && m >= |s.next|
    ensures !PassExceeds(s, t, m)
  {
    if PassExceeds(s, t, m) {
      var sched, lo: nat :| lo <= |sched| && StaysInPass(s, sched, lo, t) && AdvanceCount(s, sched, lo, t) > m;
      WalkBound(s, sched, lo, t);
      NoRivalNoRaise(s, sched, lo, t);
      assert false;
    }
  }

  /** n advances are enough for every pass of a thread, of either kind, exactly unless there
      are three nodes and another swapper; and then no number is. */
  lemma PassUnboundedIff(s: State, t: nat)
    requires Initial(s) && t < |s.pcs|
    ensures PassExceeds(s, t, |s.next|) <==> HasRival(s, t)
    ensures (forall m: nat :: PassExceeds(s, t, m)) <==> HasRival(s, t)
  {
    if HasRival(s, t) {
      forall m: nat ensures PassExceeds(s, t, m) {
        RivalPassExceeds(s, t, m);
      }
    } else {
      LonePassEnds(s, t, |s.next|);
    }
  }
}
