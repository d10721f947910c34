/** Every pass is a walk from `first` to the end of the list, and ends within a fixed number of
    steps of its thread if the others stand still, wherever they stand and whatever they have
    locked. */
module SwapEnds {
  import opened SwapProtocol
  import opened SwapInvariant
  import opened SwapSteps
  import opened SwapRuns
  import opened SwapShape
  import opened SwapWalk

  // ---------- a pass is a walk ----------

  // A step ends a pass for line 90 or line 77, or in a fault.
  lemma ResumeLeaves(pc: Pc, r: int)
    requires InPass(pc) && !InPass(Resume(pc, r))
    ensures pc == Head(S102(Cursor(pc))) || pc == Scan(S108(NULL)) || pc == Read(W48(NULL))
    ensures pc.Head? ==> r == NULL
    ensures Resume(pc, r) == if pc.Read? then Read(W77) else Head(S90)
  {
  }

  // And begins one at `cur`, with nothing in between.
  lemma ResumeEnters(next: seq<int>, pc: Pc, r: int)
    requires Facts(next, pc) && !InPass(pc) && InPass(Resume(pc, r))
    ensures |next| > 0 && Cursor(Resume(pc, r)) == 0
  {
  }

  /** A pass starts at `first`, follows one link of the list at a time, and ends only where
      the list ends: at NULL, or for a pass that swaps nothing on the node before it. */
  lemma PassIsWalk(s: State, sched: seq<Choice>, t: nat, coin: int)
    requires Initial(s) && t < |s.pcs|
    ensures var r := Exec(s, sched);
            var pc := r.pcs[t];
            var pc' := StepOf(r, t, coin).pcs[t];
            && (!InPass(pc) && InPass(pc') ==> Cursor(pc') == r.first)
            && (InPass(pc) && InPass(pc') ==>
                  Cursor(pc') == Cursor(pc)
                  || (IsNode(|r.next|, Cursor(pc)) && Cursor(pc') == r.next[Cursor(pc)]))
            && (InPass(pc) && !InPass(pc') ==>
                  Cursor(pc) == NULL
                  || (pc.Head? && IsNode(|r.next|, Cursor(pc)) && r.next[Cursor(pc)] == NULL))
  {
    RunRefines(s, sched);
    var r, q := Exec(s, sched), Trace(s, sched);
    var pc, pc' := r.pcs[t], StepOf(r, t, coin).pcs[t];
    assert Facts(r.next, pc);
    if InPass(pc) {
      CursorIsPtr(r.next, pc);
      if InPass(pc') {
        StepCursor(r, q, t, coin);
      } else {
        PassLeft(r, q, t, coin);
      }
    } else if InPass(pc') {
      PassEntered(r, q, t, coin);
    }
  }

  // What a step that is no fault does to the thread's own program point.
  lemma StepResumes(s: State, q: seq<int>, t: nat, coin: int) returns (x: int)
    requires Inv(s, q) && t < |s.pcs| && s.pcs[t] != Head(S102(NULL))
    ensures StepOf(s, t, coin).pcs[t] == Resume(s.pcs[t], x)
    ensures ActionOf(s.pcs[t]).Load? ==>
              IsNode(|s.next|, ActionOf(s.pcs[t]).addr) && x == s.next[ActionOf(s.pcs[t]).addr]
  {
    AccessesNodes(s, q, t);
    x :| StepOf(s, t, coin).pcs[t] == Resume(s.pcs[t], x)
         && (ActionOf(s.pcs[t]).Load? ==> x == s.next[ActionOf(s.pcs[t]).addr]);
  }

  lemma PassLeft(s: State, q: seq<int>, t: nat, coin: int)
    requires Inv(s, q) && t < |s.pcs| && InPass(s.pcs[t]) && !InPass(StepOf(s, t, coin).pcs[t])
    ensures var pc := s.pcs[t];
            Cursor(pc) == NULL || (pc.Head? && IsNode(|s.next|, Cursor(pc)) && s.next[Cursor(pc)] == NULL)
    ensures Resting(StepOf(s, t, coin).pcs[t]) || (s.pcs[t].Read? && StepOf(s, t, coin).pcs[t] == Read(W77))
  {
    if s.pcs[t] != Head(S102(NULL)) {
      var x := StepResumes(s, q, t, coin);
      ResumeLeaves(s.pcs[t], x);
    }
  }

  lemma PassEntered(s: State, q: seq<int>, t: nat, coin: int)
    requires Inv(s, q) && t < |s.pcs| && !InPass(s.pcs[t]) && InPass(StepOf(s, t, coin).pcs[t])
    ensures Cursor(StepOf(s, t, coin).pcs[t]) == s.first
  {
    assert Facts(s.next, s.pcs[t]);
    var x := StepResumes(s, q, t, coin);
    ResumeEnters(s.next, s.pcs[t], x);
  }

  // ---------- enough nodes for a pass ----------

  // On a pass, or past the check of line 91.
  predicate Entered(pc: Pc) {
    InPass(pc) || (pc.Head? && pc.h.S97?)
  }

  // No thread enters a pass without enough nodes; on two nodes line 91 has seen the second.
  predicate Warranted(n: nat, pc: Pc) {
    && (Entered(pc) ==> n >= if pc.Read? then 2 else 3)
    && (pc.Head? && pc.h.S91c? && n == 2 ==> pc.h.x == 1)
  }

  // Too few nodes for a swap: the links are the order.
  lemma FewNodes(s: State, q: seq<int>)
    requires Inv(s, q) && 0 < |s.next| < 3
    ensures s.next[0] == (if |s.next| == 2 then 1 else NULL)
    ensures |s.next| == 2 ==> s.next[1] == NULL
  {
    forall i | 0 <= i < |q| ensures s.next[q[i]] == Succ(q, i) {
      if InFlight(s, q[i]) {
        FlightNodes(s, q, q[i]);
      }
      assert Undone(s, q[i]) == Succ(q, i);
    }
    assert s.next[q[0]] == Succ(q, 0);
    assert |q| == 2 ==> q[1] == 1 && s.next[q[1]] == Succ(q, 1);
  }

  lemma OwnStepWarranted(s: State, q: seq<int>, t: nat, coin: int)
    requires Inv(s, q) && t < |s.pcs| && Warranted(|s.next|, s.pcs[t])
    ensures Warranted(|s.next|, StepOf(s, t, coin).pcs[t])
  {
    assert Facts(s.next, s.pcs[t]);
    if s.pcs[t] != Head(S102(NULL)) {
      var x := StepResumes(s, q, t, coin);
      if 0 < |s.next| < 3 {
        FewNodes(s, q);
      }
      ResumeWarranted(s.next, s.pcs[t], x);
    }
  }

  lemma ResumeWarranted(next: seq<int>, pc: Pc, r: int)
    requires Facts(next, pc) && Warranted(|next|, pc)
    requires ActionOf(pc).Load? ==> IsNode(|next|, ActionOf(pc).addr) && r == next[ActionOf(pc).addr]
    requires 0 < |next| < 3 ==> next[0] == if |next| == 2 then 1 else NULL
    requires |next| == 2 ==> next[1] == NULL
    ensures Warranted(|next|, Resume(pc, r))
  {
  }

  /** In every run a thread on a pass has enough nodes for it, two for a reader and three for
      a swapper: on a shorter list every thread gives up before its first pass. */
  lemma {:induction false} PassNeedsNodes(s: State, sched: seq<Choice>, t: nat)
    requires Initial(s) && t < |s.pcs|
    ensures var pc := Exec(s, sched).pcs[t];
            && Warranted(|s.next|, pc)
            && (InPass(pc) ==> |s.next| >= if pc.Read? then 2 else 3)
    decreases |sched|
  {
    if sched != [] {
      var k := |sched| - 1;
      PassNeedsNodes(s, sched[..k], t);
      RunRefines(s, sched[..k]);
      var r := Exec(s, sched[..k]);
      if sched[k].thread == t {
        OwnStepWarranted(r, Trace(s, sched[..k]), t, sched[k].coin);
      } else {
        OthersStay(r, sched[k].thread, sched[k].coin, t);
      }
    }
  }

  // ---------- a measure for a thread alone ----------

  // Between passes with nothing locked, or stopped.
  predicate Resting(pc: Pc) {
    pc == Head(S90) || pc == Read(W39) || pc == Head(SStopped) || pc == Read(WStopped) || Faulted(pc)
  }

  // Steps to the next advance or the end of the pass, at most.
  function ScanLeft(pc: ScanPc): nat {
    match pc
    case S148(_) => 1 case S138(_) => 1 case S130(_, _) => 1
    case S112e(_, _, _) => 10 case S112d(_, _, _) => 11 case S112c(_, _) => 12
    case S112b(_, _, _) => 13 case S112(_, _) => 14
    case S110c(_, _) => 15 case S110b(_) => 16 case S110(_) => 17
    case S108(_) => 18
    case S132(_, _) => 19 case S139(_, _) => 19 case S131(_, _, _) => 20
  }

  function SwapLeft(pc: SwapPc): nat {
    match pc
    case S121(_, _, _) => 1 case S119(_, _, _) => 2 case S118(_, _, _, _, _) => 3
    case S117(_, _, _, _, _) => 4 case S116b(_, _, _, _, _, _) => 5 case S116(_, _, _, _, _) => 6
    case S115b(_, _, _, _, _) => 7 case S115(_, _, _, _) => 8 case S114(_, _, _) => 9
    case S125(_, _, _) => 19 case S124(_, _, _, _) => 20
    case S123(_, _, _, _, _) => 21 case S122(_, _, _, _) => 22
  }

  function ReadLeft(pc: ReadPc): nat {
    match pc
    case W74(_) => 1 case W64(_) => 1 case W57(_, _) => 1
    case W54(_, _, _) => 2 case W53(_, _) => 3
    case W50c(_, _) => 4 case W50b(_) => 5 case W50(_) => 6
    case W48(_) => 7
    case W59(_, _) => 8 case W65(_, _) => 8 case W58(_, _, _) => 9
    case _ => 0
  }

  function Left(pc: Pc): (k: nat)
    ensures k <= 22
  {
    match pc
    case Head(h) => if h.S102? then 2 else 1
    case Scan(s) => ScanLeft(s)
    case Swap(w) => SwapLeft(w)
    case Read(r) => ReadLeft(r)
  }

  // The same outside a pass: steps to the start of one, at most.
  function Approach(pc: Pc): (k: nat)
    ensures k <= 4
  {
    match pc
    case Head(h) => if h.S91? then 4 else if h.S91b? then 3 else if h.S91c? then 2 else 1
    case Read(r) => if r.W31? then 2 else 1
    case _ => 0
  }

  const ROUND := 23

  ghost function Measure(s: State, q: seq<int>, t: nat): int
    requires Inv(s, q) && t < |s.pcs|
  {
    if InPass(s.pcs[t]) then ROUND * CursorRank(s, q, t) + Left(s.pcs[t])
    else if s.pcs[t] == Read(W77) then 1
    else ROUND * (|s.next| + 1) + Approach(s.pcs[t])
  }

  lemma MeasureBound(s: State, q: seq<int>, t: nat)
    requires Inv(s, q) && t < |s.pcs|
    ensures 0 <= Measure(s, q, t) <= ROUND * (|s.next| + 1) + 4
  {
    if InPass(s.pcs[t]) {
      CursorRankBound(s, q, t);
    }
  }

  lemma ResumeLeft(pc: Pc, r: int)
    requires InPass(pc) && InPass(Resume(pc, r)) && !Advances(pc)
    ensures Left(Resume(pc, r)) < Left(pc)
  {
    match pc {
      case Head(_) =>
      case Scan(_) =>
      case Swap(_) =>
      case Read(_) =>
    }
  }

  lemma ResumeApproach(pc: Pc, r: int)
    requires !InPass(pc) && !Resting(pc) && !InPass(Resume(pc, r)) && !Resting(Resume(pc, r))
    ensures pc != Read(W77) && Resume(pc, r) != Read(W77)
    ensures Approach(Resume(pc, r)) < Approach(pc)
  {
  }

  lemma OwnStepDrops(s: State, q: seq<int>, t: nat, coin: int)
    requires Inv(s, q) && t < |s.pcs| && !Resting(s.pcs[t])
    ensures var s' := StepOf(s, t, coin);
            && Inv(s', NextOrder(s, q, t))
            && (Resting(s'.pcs[t]) || Measure(s', NextOrder(s, q, t), t) < Measure(s, q, t))
  {
    StepKeepsInv(s, q, t, coin);
    var s', q' := StepOf(s, t, coin), NextOrder(s, q, t);
    if !Resting(s'.pcs[t]) {
      if InPass(s.pcs[t]) {
        CursorRankBound(s, q, t);
        if InPass(s'.pcs[t]) {
          PassStepDrops(s, q, t, coin, s', q');
        } else {
          PassLeft(s, q, t, coin);
        }
      } else {
        OutsideStepDrops(s, q, t, coin, s', q');
      }
    }
  }

  lemma PassStepDrops(s: State, q: seq<int>, t: nat, coin: int, s': State, q': seq<int>)
    requires Inv(s, q) && t < |s.pcs| && InPass(s.pcs[t])
    requires s' == StepOf(s, t, coin) && q' == NextOrder(s, q, t) && Inv(s', q') && InPass(s'.pcs[t])
    ensures Measure(s', q', t) < Measure(s, q, t)
  {
    OwnMeasure(s, q, t, coin, s', q');
    if !Advances(s.pcs[t]) {
      StepLeft(s, q, t, coin);
    }
  }

  lemma StepLeft(s: State, q: seq<int>, t: nat, coin: int)
    requires Inv(s, q) && t < |s.pcs| && InPass(s.pcs[t]) && InPass(StepOf(s, t, coin).pcs[t])
    requires !Advances(s.pcs[t])
    ensures Left(StepOf(s, t, coin).pcs[t]) < Left(s.pcs[t])
  {
    if s.pcs[t] != Head(S102(NULL)) {
      var x := StepResumes(s, q, t, coin);
      ResumeLeft(s.pcs[t], x);
    }
  }

  lemma OutsideStepDrops(s: State, q: seq<int>, t: nat, coin: int, s': State, q': seq<int>)
    requires Inv(s, q) && t < |s.pcs| && !InPass(s.pcs[t]) && !Resting(s.pcs[t])
    requires s' == StepOf(s, t, coin) && q' == NextOrder(s, q, t) && Inv(s', q') && !Resting(s'.pcs[t])
    ensures Measure(s', q', t) < Measure(s, q, t)
  {
    var x := StepResumes(s, q, t, coin);
    if InPass(s'.pcs[t]) {
      CursorRankBound(s', q', t);
      AtLine77(s.pcs[t], x);
    } else {
      ResumeApproach(s.pcs[t], x);
    }
  }

  lemma AtLine77(pc: Pc, r: int)
    requires InPass(Resume(pc, r)) && !InPass(pc)
    ensures pc != Read(W77)
  {
  }

  // ---------- the end of a pass ----------

  // Between passes, and no lock records t.
  predicate AtRest(s: State, t: nat)
    requires t < |s.pcs|
  {
    && Resting(s.pcs[t]) && Held(s.pcs[t]) == {}
    && forall x :: 0 <= x < |s.locks| ==> !Owns(s.locks[x], t, Shares(s.rw, s.pcs[t]))
  }

  lemma RestingAtRest(s: State, q: seq<int>, t: nat)
    requires Inv(s, q) && t < |s.pcs| && Resting(s.pcs[t])
    ensures AtRest(s, t)
  {
  }

  ghost predicate RestsIn(s: State, sched: seq<Choice>, lo: nat, t: nat)
    requires Sized(s) && t < |s.pcs|
  {
    exists i :: lo <= i <= |sched| && AtRest(Exec(s, sched[..i]), t)
  }

  lemma RestsLater(s: State, sched: seq<Choice>, lo: nat, t: nat)
    requires Sized(s) && t < |s.pcs| && sched != [] && RestsIn(s, sched[..|sched| - 1], lo, t)
    ensures RestsIn(s, sched, lo, t)
  {
    var k := |sched| - 1;
    var i :| lo <= i <= k && AtRest(Exec(s, sched[..k][..i]), t);
    assert sched[..k][..i] == sched[..i];
  }

  lemma RestsNow(s: State, sched: seq<Choice>, lo: nat, t: nat)
    requires Initial(s) && t < |s.pcs| && lo <= |sched| && Resting(Exec(s, sched).pcs[t])
    ensures RestsIn(s, sched, lo, t)
  {
    RunRefines(s, sched);
    RestingAtRest(Exec(s, sched), Trace(s, sched), t);
    assert sched[..|sched|] == sched;
  }

  // Until it comes to rest, each step of t alone lowers the measure.
  lemma {:induction false} SoloMeasure(s: State, sched: seq<Choice>, lo: nat, t: nat)
    requires Initial(s) && t < |s.pcs| && lo <= |sched|
    requires forall i :: lo <= i < |sched| ==> sched[i].thread == t
    ensures Inv(Exec(s, sched), Trace(s, sched))
    ensures RestsIn(s, sched, lo, t)
            || Measure(Exec(s, sched), Trace(s, sched), t) + |sched| - lo <= ROUND * (|s.next| + 1) + 4
    decreases |sched|
  {
    RunRefines(s, sched);
    if |sched| == lo {
      MeasureBound(Exec(s, sched), Trace(s, sched), t);
    } else {
      var k := |sched| - 1;
      SoloMeasure(s, sched[..k], lo, t);
      if RestsIn(s, sched[..k], lo, t) {
        RestsLater(s, sched, lo, t);
      } else if Resting(Exec(s, sched).pcs[t]) {
        RestsNow(s, sched, lo, t);
      } else {
        NotYetResting(s, sched[..k], lo, t);
        OwnStepDrops(Exec(s, sched[..k]), Trace(s, sched[..k]), t, sched[k].coin);
      }
    }
  }

  lemma NotYetResting(s: State, sched: seq<Choice>, lo: nat, t: nat)
    requires Initial(s) && t < |s.pcs| && lo <= |sched| && !RestsIn(s, sched, lo, t)
    ensures !Resting(Exec(s, sched).pcs[t])
  {
    if Resting(Exec(s, sched).pcs[t]) {
      RestsNow(s, sched, lo, t);
      assert false;
    }
  }

  /** Every pass ends: from any reachable state, a thread of either kind that runs alone, with
      any coins, is between passes with nothing locked, or has stopped, after at most
      23 (n + 1) + 5 steps. */
  lemma SoloPassEnds(s: State, sched: seq<Choice>, lo: nat, t: nat)
    requires Initial(s) && t < |s.pcs| && lo + 23 * (|s.next| + 1) + 5 <= |sched|
    requires forall i :: lo <= i < |sched| ==> sched[i].thread == t
    ensures exists i :: lo <= i <= |sched| && AtRest(Exec(s, sched[..i]), t)
  {
    SoloMeasure(s, sched, lo, t);
    MeasureBound(Exec(s, sched), Trace(s, sched), t);
  }
}
