/** With three nodes and two swappers the unlocked loads of `swap_thread` can go wrong: while
    one swapper pauses on the second node, the other carries that node to the end of the
    list. */
module SwapRace {
  import opened SwapProtocol
  import opened SwapInvariant
  import opened SwapRuns
  import opened SwapSole
  import opened SwapSchedules

  // Some schedule takes s to s'.
  ghost predicate Leads(s: State, s': State)
    requires Sized(s)
  {
    exists sched :: Exec(s, sched) == s'
  }

  // First to s1 by any threads, then to s2 by u alone.
  lemma LeadsOn(s: State, s1: State, u: nat, s2: State)
    requires Sized(s) && Sized(s1) && Leads(s, s1) && Solo(s1, u, s2)
    ensures Leads(s, s2)
  {
    var a :| Exec(s, a) == s1;
    var b :| OnlyBy(b, u) && Exec(s1, b) == s2;
    ExecConcat(s, a, b);
    assert Exec(s, a + b) == s2;
  }

  // Two swappers about to start on a list of at least three nodes.
  predicate Racing(s: State, t: nat, u: nat) {
    && Initial(s) && |s.next| >= 3
    && t < |s.pcs| && u < |s.pcs| && t != u
    && s.pcs[t] == Head(S90) && s.pcs[u] == Head(S90)
  }

  lemma InitialCalmed(s: State)
    requires Initial(s) && |s.next| >= 3
    ensures Calmed(s, Identity(|s.next|)) && Enterable(s) && s.next[0] == 1 && s.next[1] == 2
  {
    InitialInv(s);
  }

  // A pass that swaps nothing, up to the second node, whose successor it has just seen.
  lemma SkipToSecond(s: State, t: nat) returns (s': State)
    requires Sized(s) && Enterable(s) && t < |s.pcs| && s.pcs[t] == Head(S90)
    ensures Solo(s, t, s') && s' == At(s, t, Head(S103(s.next[0])))
  {
    var x := s.next[0];
    var s1 := Enter(s, t, 0);
    GoLoad(s, t, s1, 0);
    var s2 := At(s1, t, Head(S103(0)));
    GoLoad(s, t, s2, 0);
    var s3 := At(s2, t, Head(S102(x)));
    GoLoad(s, t, s3, x);
    s' := At(s3, t, Head(S103(x)));
  }

  // While t stands still, u makes the second node the last one.
  lemma CarrySecond(s: State, u: nat, q: seq<int>) returns (s': State)
    requires Sized(s) && Calmed(s, q) && |q| >= 3 && q[0] == 0 && s.first == 0
    requires u < |s.pcs| && s.pcs[u] == Head(S90)
    ensures Solo(s, u, s') && Sized(s') && s'.pcs == s.pcs[u := s'.pcs[u]] && |s'.pcs| == |s.pcs|
    ensures |s'.next| == |s.next| && IsNode(|s.next|, q[1]) && s'.next[q[1]] == NULL
  {
    CalmedEnterable(s, q);
    var s1 := Enter(s, u, 1);
    var q';
    s', q' := FinishPass(s1, u, q, 0);
    SoloOn(s, u, s1, s');
    assert s'.next[q'[|q| - 1]] == Succ(q', |q| - 1);
  }

  lemma LastNodeRace(s: State, t: nat, u: nat, s1: State) returns (s': State)
    requires Racing(s, t, u) && Sized(s1) && Solo(s, t, s1) && s1 == At(s, t, s1.pcs[t])
    ensures Leads(s, s') && Sized(s') && |s'.pcs| == |s.pcs| && |s'.next| == |s.next|
    ensures s'.pcs[t] == s1.pcs[t] && s'.next[1] == NULL
  {
    InitialCalmed(s);
    assert Exec(s, []) == s;
    LeadsOn(s, s, t, s1);
    s' := CarrySecond(s1, u, Identity(|s.next|));
    LeadsOn(s, s1, u, s');
  }

  lemma RaceFaults(s: State, t: nat, u: nat) returns (sched: seq<Choice>)
    requires Racing(s, t, u)
    ensures Exec(s, sched).pcs[t] == Head(SFault)
  {
    InitialCalmed(s);
    var s1 := SkipToSecond(s, t);
    var s2 := LastNodeRace(s, t, u, s1);
    Stay(s2, t);
    GoLoad(s2, t, s2, 1);
    var s3 := At(s2, t, Head(S102(NULL)));
    var s4 := At(s3, t, Head(SFault));
    Go(s2, t, s3, 0, s4);
    LeadsOn(s, s2, t, s4);
    sched :| Exec(s, sched) == s4;
  }

  lemma RaceStops(s: State, t: nat, u: nat) returns (sched: seq<Choice>)
    requires Racing(s, t, u)
    ensures Exec(s, sched).pcs[t] == Head(SStopped)
  {
    InitialCalmed(s);
    var s1 := Check(s, t);
    var s2 := LastNodeRace(s, t, u, s1);
    Stay(s2, t);
    GoLoad(s2, t, s2, 1);
    var s3 := At(s2, t, Head(SStopped));
    LeadsOn(s, s2, t, s3);
    sched :| Exec(s, sched) == s3;
  }

  /** A swapper can dereference a null pointer at line 102 exactly if there are at least
      three nodes and another swapper. */
  lemma NullPointerIff(s: State, t: nat)
    requires Initial(s) && t < |s.pcs| && !s.pcs[t].Read?
    ensures (exists sched :: Exec(s, sched).pcs[t] == Head(SFault)) <==> HasRival(s, t)
  {
    if HasRival(s, t) {
      var u :| 0 <= u < |s.pcs| && u != t && !s.pcs[u].Read?;
      var sched := RaceFaults(s, t, u);
    } else {
      forall sched ensures Exec(s, sched).pcs[t] != Head(SFault) {
        AloneIsSafe(s, sched, t);
      }
    }
  }

  /** On a list of at least three nodes a swapper can give up at line 91, "Too few elements",
      exactly if there is another swapper. */
  lemma FalseStopIff(s: State, t: nat)
    requires Initial(s) && t < |s.pcs| && !s.pcs[t].Read? && |s.next| >= 3
    ensures (exists sched :: Exec(s, sched).pcs[t] == Head(SStopped)) <==> HasRival(s, t)
  {
    if HasRival(s, t) {
      var u :| 0 <= u < |s.pcs| && u != t && !s.pcs[u].Read?;
      var sched := RaceStops(s, t, u);
    } else {
      forall sched ensures Exec(s, sched).pcs[t] != Head(SStopped) {
        AloneIsSafe(s, sched, t);
      }
    }
  }

  lemma ReaderStops(s: State, t: nat) returns (sched: seq<Choice>)
    requires Initial(s) && t < |s.pcs| && s.pcs[t].Read? && |s.next| < 2
    ensures Exec(s, sched).pcs[t] == Read(WStopped)
  {
    Stay(s, t);
    var s1 := StepOf(s, t, 0);
    Go(s, t, s, 0, s1);
    if |s.next| == 0 {
      sched :| OnlyBy(sched, t) && Exec(s, sched) == s1;
    } else {
      var s2 := At(s1, t, Read(WStopped));
      assert s1 == At(s, t, Read(W31b(0)));
      GoLoad(s, t, s1, 0);
      sched :| OnlyBy(sched, t) && Exec(s, sched) == s2;
    }
  }

  /** The "Too few elements" exits of `process_thread`, lines 31 and 40, are exact, unlike
      those of `swap_thread`: a reader can take one exactly on a list of fewer than two
      nodes. */
  lemma ReaderStopIff(s: State, t: nat)
    requires Initial(s) && t < |s.pcs| && s.pcs[t].Read?
    ensures (exists sched :: Exec(s, sched).pcs[t] == Read(WStopped)) <==> |s.next| < 2
  {
    if |s.next| < 2 {
      var sched := ReaderStops(s, t);
    } else {
      forall sched ensures Exec(s, sched).pcs[t] != Read(WStopped) {
        if Exec(s, sched).pcs[t] == Read(WStopped) {
          ReaderStopsRight(s, sched, t);
        }
      }
    }
  }
}
