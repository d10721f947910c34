/** What each thread's counter says: a reader's, how many passes it has come to the end of; a
    swapper's, how often it has changed the order of the list. */
module SwapCounters {
  import opened SwapProtocol
  import opened SwapInvariant
  import opened SwapSteps
  import opened SwapRuns
  import opened SwapSole
  import opened SwapWalk
  import opened SwapEnds
  import opened SwapParity

  // ---------- readers ----------

  // How often t comes to the end of a pass in a run.
  ghost function PassCount(s: State, sched: seq<Choice>, t: nat): nat
    requires Sized(s) && t < |s.pcs|
    decreases |sched|
  {
    if sched == [] then 0
    else
      var k := |sched| - 1;
      PassCount(s, sched[..k], t)
      + if InPass(Exec(s, sched[..k]).pcs[t]) && !InPass(Exec(s, sched).pcs[t]) then 1 else 0
  }

  // The passes a reader has ended, by its counter and its place.
  function Ended(s: State, t: nat): nat
    requires Sized(s) && t < |s.pcs|
  {
    s.counters[t] + if s.pcs[t] == Read(W77) then 1 else 0
  }

  lemma OthersCounters(s: State, u: nat, coin: int, t: nat)
    requires Sized(s) && t < |s.pcs| && u != t
    ensures StepOf(s, u, coin).counters[t] == s.counters[t]
  {
  }

  // A reader counts at line 77, where it comes after a pass only.
  lemma ResumeCounts(pc: Pc, r: int)
    requires pc.Read?
    ensures ActionOf(pc).Count? <==> pc == Read(W77)
    ensures Resume(pc, r) == Read(W77) <==> InPass(pc) && !InPass(Resume(pc, r))
  {
  }

  lemma ReaderStepEnds(s: State, q: seq<int>, t: nat, coin: int)
    requires Inv(s, q) && t < |s.pcs| && s.pcs[t].Read?
    ensures var s' := StepOf(s, t, coin);
            Ended(s', t) == Ended(s, t) + if InPass(s.pcs[t]) && !InPass(s'.pcs[t]) then 1 else 0
  {
    var x := StepResumes(s, q, t, coin);
    ResumeCounts(s.pcs[t], x);
  }

  /** In every run a reader's counter is the number of passes it has come to the end of, but
      for the one it is about to count. */
  lemma {:induction false} ReaderCounter(s: State, sched: seq<Choice>, t: nat)
    requires Initial(s) && t < |s.pcs| && s.pcs[t].Read?
    ensures var r := Exec(s, sched);
            && r.pcs[t].Read?
            && r.counters[t] + (if r.pcs[t] == Read(W77) then 1 else 0) == PassCount(s, sched, t)
    decreases |sched|
  {
    if sched != [] {
      var k := |sched| - 1;
      ReaderCounter(s, sched[..k], t);
      RunRefines(s, sched[..k]);
      var r := Exec(s, sched[..k]);
      if sched[k].thread == t {
        ReaderStepEnds(r, Trace(s, sched[..k]), t, sched[k].coin);
        StepKeepsKind(r, t, sched[k].coin, t);
      } else {
        OthersStay(r, sched[k].thread, sched[k].coin, t);
        OthersCounters(r, sched[k].thread, sched[k].coin, t);
      }
    }
  }

  // ---------- swappers ----------

  // How many of t's own steps change the order of the list.
  ghost function OrderChanges(s: State, sched: seq<Choice>, t: nat): nat
    requires Sized(s)
    decreases |sched|
  {
    if sched == [] then 0
    else
      var k := |sched| - 1;
      OrderChanges(s, sched[..k], t)
      + if sched[k].thread == t && Trace(s, sched) != Trace(s, sched[..k]) then 1 else 0
  }

  lemma OrderChangesAtCommit(s: State, q: seq<int>, t: nat)
    requires Inv(s, q) && t < |s.pcs|
    ensures NextOrder(s, q, t) != q <==> AtCommit(s.pcs[t])
  {
    if AtCommit(s.pcs[t]) {
      var k := CommitIsExchange(s, q, t);
      assert Exchange(q, k + 1)[k + 1] != q[k + 1];
    }
  }

  /** In every run a swapper's counter is the number of times it has changed the order, but
      for the change it is about to count. */
  lemma {:induction false} SwapperCounter(s: State, sched: seq<Choice>, t: nat)
    requires Initial(s) && t < |s.pcs| && !s.pcs[t].Read?
    ensures var r := Exec(s, sched);
            && !r.pcs[t].Read?
            && r.counters[t] + (if r.pcs[t].Swap? && r.pcs[t].w.S119? then 1 else 0)
               == OrderChanges(s, sched, t)
    decreases |sched|
  {
    if sched != [] {
      var k := |sched| - 1;
      SwapperCounter(s, sched[..k], t);
      RunRefines(s, sched[..k]);
      var r := Exec(s, sched[..k]);
      if sched[k].thread == t {
        OwnSwaps(r, Trace(s, sched[..k]), t, sched[k].coin);
        OrderChangesAtCommit(r, Trace(s, sched[..k]), t);
        StepKeepsKind(r, t, sched[k].coin, t);
      } else {
        OthersStay(r, sched[k].thread, sched[k].coin, t);
        OthersCounters(r, sched[k].thread, sched[k].coin, t);
      }
    }
  }
}
