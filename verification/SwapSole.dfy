/** The unlocked loads of `swap_thread`. Line 91 gives up wrongly, and line 102 meets a null
    pointer, exactly if there are three nodes and two swappers: without both, never, whatever
    the readers do (here); with both, on some schedule (SwapRace). */
module SwapSole {
  import opened SwapProtocol
  import opened SwapInvariant
  import opened SwapSteps
  import opened SwapRuns

  // Another swapper than t, and a list long enough to swap in.
  predicate HasRival(s: State, t: nat) {
    |s.next| >= 3 && exists u :: 0 <= u < |s.pcs| && u != t && !s.pcs[u].Read?
  }

  predicate Alone(s: State, t: nat) {
    t < |s.pcs| && !s.pcs[t].Read? && !HasRival(s, t)
  }

  lemma ResumeKeepsKind(pc: Pc, r: int)
    ensures Resume(pc, r).Read? == pc.Read?
  {
  }

  lemma StepKeepsKind(s: State, u: nat, coin: int, t: nat)
    requires Sized(s) && t < |s.pcs|
    ensures StepOf(s, u, coin).pcs[t].Read? == s.pcs[t].Read?
  {
    forall r ensures Resume(s.pcs[t], r).Read? == s.pcs[t].Read? {
      ResumeKeepsKind(s.pcs[t], r);
    }
  }

  // What the unlocked loads have seen is still so.
  predicate Calm(next: seq<int>, pc: Pc) {
    pc.Head? ==>
      match pc.h
      case S102(cur) => cur != NULL
      case S103(cur) => IsNode(|next|, cur) && next[cur] != NULL
      case S91c(_, x) => |next| >= 3 ==> IsNode(|next|, x) && next[x] != NULL
      case S97(cur) => cur != NULL
      case SStopped => |next| < 3
      case SFault => false
      case _ => true
  }

  lemma OthersStoreNothing(s: State, q: seq<int>, t: nat, u: nat)
    requires Inv(s, q) && Alone(s, t) && u < |s.pcs| && u != t
    ensures !ActionOf(s.pcs[u]).Store?
  {
    if ActionOf(s.pcs[u]).Store? {
      StoringTriple(s, q, u);
    }
  }

  lemma QuietList(s: State, q: seq<int>, t: nat)
    requires Inv(s, q) && Alone(s, t) && s.pcs[t].Head?
    ensures forall i :: 0 <= i < |q| ==> s.next[q[i]] == Succ(q, i)
  {
    forall i | 0 <= i < |q| ensures s.next[q[i]] == Succ(q, i) {
      if InFlight(s, q[i]) {
        OthersStoreNothing(s, q, t, s.locks[q[i]].owner);
      }
      assert Undone(s, q[i]) == Succ(q, i);
    }
  }

  lemma OwnStepCalm(s: State, q: seq<int>, t: nat, coin: int)
    requires Inv(s, q) && Alone(s, t) && Calm(s.next, s.pcs[t])
    ensures var s' := StepOf(s, t, coin); Calm(s'.next, s'.pcs[t])
  {
    var pc := s.pcs[t];
    AccessesNodes(s, q, t);
    assert Facts(s.next, pc);
    if pc.Head? {
      QuietList(s, q, t);
      HeadCalm(s, q, t, coin);
    } else {
      forall r ensures Resume(pc, r).Head? ==> Resume(pc, r) == Head(S90) {
        LeavesToStart(pc, r);
      }
    }
  }

  lemma LeavesToStart(pc: Pc, r: int)
    requires !pc.Head?
    ensures Resume(pc, r).Head? ==> Resume(pc, r) == Head(S90)
  {
  }

  lemma HeadCalm(s: State, q: seq<int>, t: nat, coin: int)
    requires Inv(s, q) && Alone(s, t) && Calm(s.next, s.pcs[t]) && s.pcs[t].Head?
    requires forall i :: 0 <= i < |q| ==> s.next[q[i]] == Succ(q, i)
    ensures var s' := StepOf(s, t, coin); Calm(s'.next, s'.pcs[t])
  {
    var h := s.pcs[t].h;
    assert Facts(s.next, s.pcs[t]);
    if |q| > 0 {
      assert s.next[q[0]] == Succ(q, 0);
    }
    if h.S91b? && |q| > 1 {
      assert s.next[q[1]] == Succ(q, 1);
    }
  }

  lemma OtherStepCalm(s: State, q: seq<int>, t: nat, u: nat, coin: int)
    requires Inv(s, q) && Alone(s, t) && u != t && Calm(s.next, s.pcs[t])
    ensures var s' := StepOf(s, u, coin); Calm(s'.next, s'.pcs[t])
  {
    if u < |s.pcs| {
      OthersStoreNothing(s, q, t, u);
    }
  }

  lemma StepCalm(s: State, q: seq<int>, t: nat, u: nat, coin: int)
    requires Inv(s, q) && Alone(s, t) && Calm(s.next, s.pcs[t])
    ensures var s' := StepOf(s, u, coin); Alone(s', t) && Calm(s'.next, s'.pcs[t])
  {
    forall v | 0 <= v < |s.pcs| ensures StepOf(s, u, coin).pcs[v].Read? == s.pcs[v].Read? {
      StepKeepsKind(s, u, coin, v);
    }
    if u == t {
      OwnStepCalm(s, q, t, coin);
    } else {
      OtherStepCalm(s, q, t, u, coin);
    }
  }

  // In such company a swapper never faults, and stops only where it should.
  lemma {:induction false} AloneIsSafe(s: State, sched: seq<Choice>, t: nat)
    requires Initial(s) && Alone(s, t)
    ensures var r := Exec(s, sched); Alone(r, t) && Calm(r.next, r.pcs[t])
    ensures Exec(s, sched).pcs[t] != Head(SFault)
    ensures Exec(s, sched).pcs[t] == Head(SStopped) ==> |s.next| < 3
    decreases |sched|
  {
    if sched != [] {
      var k := |sched| - 1;
      AloneIsSafe(s, sched[..k], t);
      RunRefines(s, sched[..k]);
      StepCalm(Exec(s, sched[..k]), Trace(s, sched[..k]), t, sched[k].thread, sched[k].coin);
    }
  }

  // ---------- the exits of process_thread ----------

  lemma ReaderStep(s: State, q: seq<int>, t: nat, coin: int)
    requires Inv(s, q) && t < |s.pcs|
    requires s.pcs[t] != Read(WStopped) && StepOf(s, t, coin).pcs[t] == Read(WStopped)
    ensures |s.next| < 2
  {
    AccessesNodes(s, q, t);
    assert Facts(s.next, s.pcs[t]);
    if |s.next| >= 2 {
      HeadSuccessor(s, q);
    }
  }

  // A reader stops only on a list of fewer than two nodes, whatever the swappers do.
  lemma {:induction false} ReaderStopsRight(s: State, sched: seq<Choice>, t: nat)
    requires Initial(s) && t < |s.pcs| && Exec(s, sched).pcs[t] == Read(WStopped)
    ensures |s.next| < 2
    decreases |sched|
  {
    if sched != [] {
      var k := |sched| - 1;
      var r := Exec(s, sched[..k]);
      if r.pcs[t] == Read(WStopped) {
        ReaderStopsRight(s, sched[..k], t);
      } else {
        RunRefines(s, sched[..k]);
        ReaderStep(r, Trace(s, sched[..k]), t, sched[k].coin);
      }
    }
  }
}
