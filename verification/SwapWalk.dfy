/** How long a thread's walk down the list can be while other threads rewire it. */
module SwapWalk {
  import opened SwapProtocol
  import opened SwapInvariant
  import opened SwapSteps
  import opened SwapRuns
  import opened SwapShape

  // ---------- how a step changes ranks ----------

  // A step that stores nothing starts, ends and moves no swap in flight.
  lemma FlightSame(s: State, q: seq<int>, t: nat, coin: int, x: int)
    requires Inv(s, q) && t < |s.pcs| && !ActionOf(s.pcs[t]).Store? && IsNode(|s.next|, x)
    ensures var s' := StepOf(s, t, coin);
            (InFlight(s', x) <==> InFlight(s, x))
            && (InFlight(s, x) ==> s'.locks[x] == s.locks[x]
                                   && s'.pcs[s.locks[x].owner] == s.pcs[s.locks[x].owner])
  {
    NoFlightWithoutStore(s, t, coin);
    LockChange(s, q, t, coin, x);
    assert KnownOwner(s, s.locks[x]);
    if s.locks[x].Writer? && s.locks[x].owner != t {
      OthersStay(s, t, coin, s.locks[x].owner);
    }
  }

  // A step takes or gives up a lock for its own thread.
  lemma LockChange(s: State, q: seq<int>, t: nat, coin: int, x: int)
    requires Inv(s, q) && t < |s.pcs| && IsNode(|s.next|, x)
    ensures var s' := StepOf(s, t, coin);
            s'.locks[x] == s.locks[x]
            || ((s.locks[x].Writer? ==> s.locks[x].owner == t)
                && (s'.locks[x].Writer? ==> s'.locks[x].owner == t))
  {
    var pc := s.pcs[t];
    if ActionOf(pc).Release? && ActionOf(pc).addr == x {
      assert Facts(s.next, pc);
      ReleaseResume(s.next, pc);
      assert Owns(s.locks[x], t, Shares(s.rw, pc));
    }
  }

  lemma OthersStay(s: State, u: nat, coin: int, t: nat)
    requires Sized(s) && t < |s.pcs| && u != t
    ensures StepOf(s, u, coin).pcs[t] == s.pcs[t]
  {
  }

  lemma NoFlightWithoutStore(s: State, t: nat, coin: int)
    requires Sized(s) && t < |s.pcs| && !ActionOf(s.pcs[t]).Store?
    ensures !MidSwap(s.pcs[t]) && !MidSwap(StepOf(s, t, coin).pcs[t])
  {
    forall r ensures !MidSwap(Resume(s.pcs[t], r)) {
      ResumeMidSwap(s.pcs[t], r);
    }
  }

  // Is thread u's next step line 117, raising node x?
  predicate Raising(s: State, u: nat, x: int) {
    u < |s.pcs| && s.pcs[u].Swap? && s.pcs[u].w.S117? && s.pcs[u].w.c == x
  }

  lemma QuietRank(s: State, q: seq<int>, t: nat, coin: int, x: int)
    requires Inv(s, q) && t < |s.pcs| && !ActionOf(s.pcs[t]).Store? && IsNode(|s.next|, x)
    ensures x in q && Rank(StepOf(s, t, coin), q, x) == Rank(s, q, x)
  {
    SuccessorInOrder(s, q, x);
    FlightSame(s, q, t, coin, x);
  }

  // Positions outside the exchanged two stay.
  lemma IndexAfterMove(s: State, q: seq<int>, t: nat, x: int)
    requires Inv(s, q) && t < |s.pcs| && ActionOf(s.pcs[t]).Store? && IsNode(|s.next|, x)
    requires x != s.pcs[t].w.b && x != s.pcs[t].w.c
    ensures var q' := NextOrder(s, q, t); IsOrder(|s.next|, q') && IndexOf(q', x) == IndexOf(q, x)
  {
    StoringTriple(s, q, t);
    var w := s.pcs[t].w;
    TriplePosition(s, q, w.a, w.b, w.c);
    if AtCommit(s.pcs[t]) {
      ExchangeIsOrder(|s.next|, q, IndexOf(q, w.a) + 1);
    }
    assert NextOrder(s, q, t)[IndexOf(q, x)] == x;
  }

  // A rank only depends on the position and on the owner's program point.
  lemma RankFramed(s: State, q: seq<int>, t: nat, s': State, q': seq<int>, x: int)
    requires Sized(s) && Sized(s') && |q| == |s.next| && |q'| == |q| && |s'.next| == |s.next|
    requires t < |s.pcs| && |s'.pcs| == |s.pcs| && s'.locks == s.locks && s'.pcs == s.pcs[t := s'.pcs[t]]
    requires IsNode(|s.next|, x) && s.locks[x] != Writer(t)
    requires x in q && x in q' && IndexOf(q', x) == IndexOf(q, x)
    ensures Rank(s', q', x) == Rank(s, q, x)
  {
    assert InFlight(s', x) <==> InFlight(s, x);
  }

  // Nodes outside the storing thread's triple.
  lemma StoreRankElsewhere(s: State, q: seq<int>, t: nat, s': State, x: int)
    requires Inv(s, q) && t < |s.pcs| && ActionOf(s.pcs[t]).Store? && IsNode(|s.next|, x)
    requires s' == StepOf(s, t, 0)
    requires x != s.pcs[t].w.a && x != s.pcs[t].w.b && x != s.pcs[t].w.c
    ensures x in q && x in NextOrder(s, q, t) && Rank(s', NextOrder(s, q, t), x) == Rank(s, q, x)
  {
    StoreEffect(s, q, t, s');
    IndexAfterMove(s, q, t, x);
    StoringHolds(s, q, t, x);
    RankFramed(s, q, t, s', NextOrder(s, q, t), x);
  }

  // The ranks of a storing thread's nodes, before each of the three stores.
  lemma TripleRanks(s: State, q: seq<int>, t: nat)
    requires Inv(s, q) && t < |s.pcs| && ActionOf(s.pcs[t]).Store?
    ensures var w := s.pcs[t].w;
            && w.a in q && w.b in q && w.c in q
            && Distinct3(|s.next|, w.a, w.b, w.c)
            && var m := |q| - IndexOf(q, w.a);
            && Rank(s, q, w.a) == m
            && Rank(s, q, w.b) == (if w.S116b? then m - 1 else m - 2)
            && Rank(s, q, w.c) == (if w.S118? then m - 1 else m - 2)
  {
    StoringTriple(s, q, t);
    var w := s.pcs[t].w;
    TriplePosition(s, q, w.a, w.b, w.c);
    var k := IndexOf(q, w.a);
    assert IndexOf(q, w.b) == k + 1 && IndexOf(q, w.c) == k + 2;
  }

  // And after the last store.
  lemma CommittedRanks(s: State, q: seq<int>, t: nat, s': State)
    requires Inv(s, q) && t < |s.pcs| && AtCommit(s.pcs[t]) && s' == StepOf(s, t, 0)
    ensures var w := s.pcs[t].w;
            var q' := NextOrder(s, q, t);
            && w.a in q && w.a in q' && w.b in q' && w.c in q'
            && Distinct3(|s.next|, w.a, w.b, w.c)
            && var m := |q| - IndexOf(q, w.a);
            && Rank(s', q', w.a) == m && Rank(s', q', w.c) == m - 1 && Rank(s', q', w.b) == m - 2
  {
    StoringTriple(s, q, t);
    StoreEffect(s, q, t, s');
    var w := s.pcs[t].w;
    TriplePosition(s, q, w.a, w.b, w.c);
    var k := IndexOf(q, w.a);
    var q' := NextOrder(s, q, t);
    ExchangeIsOrder(|s.next|, q, k + 1);
    assert q'[k] == w.a && q'[k + 1] == w.c && q'[k + 2] == w.b;
    assert IndexOf(q', w.a) == k && IndexOf(q', w.c) == k + 1 && IndexOf(q', w.b) == k + 2;
    assert !InFlight(s', w.a) && !InFlight(s', w.b) && !InFlight(s', w.c);
  }

  // The nodes of the triple: only line 117 raises a rank, that of `curr3`, and by one.
  lemma StoreRankTriple(s: State, q: seq<int>, t: nat, s': State)
    requires Inv(s, q) && t < |s.pcs| && ActionOf(s.pcs[t]).Store?
    requires s' == StepOf(s, t, 0)
    ensures var w := s.pcs[t].w;
            var q' := NextOrder(s, q, t);
            && w.a in q && w.b in q && w.c in q && w.a in q' && w.b in q' && w.c in q'
            && IsNode(|s.next|, w.a) && IsNode(|s.next|, w.b) && IsNode(|s.next|, w.c)
            && Rank(s', q', w.a) <= Rank(s, q, w.a)
            && Rank(s', q', w.b) <= Rank(s, q, w.b)
            && Rank(s', q', w.c) <= Rank(s, q, w.c) + (if w.S117? then 1 else 0)
  {
    TripleRanks(s, q, t);
    if AtCommit(s.pcs[t]) {
      CommittedRanks(s, q, t, s');
    } else {
      StoreStep(s, q, t, s');
      EarlyStoreMoves(s, q, t, s');
      TripleRanks(s', q, t);
    }
  }

  lemma EarlyStoreMoves(s: State, q: seq<int>, t: nat, s': State)
    requires Inv(s, q) && t < |s.pcs| && ActionOf(s.pcs[t]).Store? && !AtCommit(s.pcs[t])
    requires s' == StepOf(s, t, 0)
    ensures NextOrder(s, q, t) == q
    ensures ActionOf(s'.pcs[t]).Store? && s'.pcs[t].Swap? && !s'.pcs[t].w.S116b?
    ensures s'.pcs[t].w.S118? <==> s.pcs[t].w.S117?
    ensures s'.pcs[t].w.a == s.pcs[t].w.a && s'.pcs[t].w.b == s.pcs[t].w.b && s'.pcs[t].w.c == s.pcs[t].w.c
  {
    StoreEffect(s, q, t, s');
  }

  lemma StoreRank(s: State, q: seq<int>, t: nat, s': State, x: int)
    requires Inv(s, q) && t < |s.pcs| && ActionOf(s.pcs[t]).Store? && IsNode(|s.next|, x)
    requires s' == StepOf(s, t, 0)
    ensures x in q && x in NextOrder(s, q, t)
    ensures Rank(s', NextOrder(s, q, t), x) <= Rank(s, q, x) + (if Raising(s, t, x) then 1 else 0)
  {
    var w := s.pcs[t].w;
    if x == w.a || x == w.b || x == w.c {
      StoreRankTriple(s, q, t, s');
    } else {
      StoreRankElsewhere(s, q, t, s', x);
    }
  }

  /** A step raises the rank of a node only if it is line 117 and the node is its `curr3`,
      and then by at most one. */
  lemma StepRank(s: State, q: seq<int>, u: nat, coin: int, x: int)
    requires Inv(s, q) && IsNode(|s.next|, x)
    ensures x in q && x in NextOrder(s, q, u)
    ensures Rank(StepOf(s, u, coin), NextOrder(s, q, u), x)
            <= Rank(s, q, x) + (if Raising(s, u, x) then 1 else 0)
  {
    if u >= |s.pcs| {
      SuccessorInOrder(s, q, x);
    } else if ActionOf(s.pcs[u]).Store? {
      CoinUnused(s, u, coin);
      StoreRank(s, q, u, StepOf(s, u, 0), x);
    } else {
      OnlyStoresMoveOrder(s, q, u);
      QuietRank(s, q, u, coin, x);
    }
  }

  // ---------- passes ----------

  // On the way from `first` to the end of the list.
  predicate InPass(pc: Pc) {
    match pc
    case Head(h) => h.S102? || h.S103?
    case Scan(_) => true
    case Swap(_) => true
    case Read(r) => !r.W31? && !r.W31b? && !r.W39? && !r.W40? && !r.W77? && !r.WStopped? && !r.WFault?
  }

  // Where the pass stands.
  function Cursor(pc: Pc): int
    requires InPass(pc)
  {
    match pc
    case Head(h) => h.cur
    case Scan(s) =>
      if s.S108? || s.S148? || s.S131? || s.S132? || s.S139? then s.cur else s.a
    case Swap(w) =>
      if w.S122? || w.S123? || w.S124? || w.S125? then w.cur else w.a
    case Read(r) =>
      if r.W48? || r.W74? || r.W58? || r.W59? || r.W65? then r.cur else r.a
  }

  // The loads that move the cursor: lines 103, 121, 130, 138, 148 and 57, 64, 74.
  predicate Advances(pc: Pc) {
    match pc
    case Head(h) => h.S103?
    case Scan(s) => s.S148? || s.S130? || s.S138?
    case Swap(w) => w.S121?
    case Read(r) => r.W57? || r.W64? || r.W74?
  }

  lemma CursorIsPtr(next: seq<int>, pc: Pc)
    requires Facts(next, pc) && InPass(pc)
    ensures IsPtr(|next|, Cursor(pc))
  {
  }

  // Within a pass a step either follows one link from the cursor or leaves the cursor alone.
  lemma ResumeCursor(next: seq<int>, pc: Pc, r: int)
    requires Facts(next, pc) && InPass(pc) && InPass(Resume(pc, r))
    ensures Advances(pc) ==> ActionOf(pc) == Load(Cursor(pc)) && Cursor(Resume(pc, r)) == r
    ensures !Advances(pc) ==> Cursor(Resume(pc, r)) == Cursor(pc)
  {
  }

  lemma StepCursor(s: State, q: seq<int>, t: nat, coin: int)
    requires Inv(s, q) && t < |s.pcs|
    requires InPass(s.pcs[t]) && InPass(StepOf(s, t, coin).pcs[t])
    ensures var pc := s.pcs[t];
            var pc' := StepOf(s, t, coin).pcs[t];
            && IsPtr(|s.next|, Cursor(pc))
            && (Advances(pc) ==> Cursor(pc) != NULL && Cursor(pc') == s.next[Cursor(pc)])
            && (!Advances(pc) ==> Cursor(pc') == Cursor(pc))
  {
    var pc := s.pcs[t];
    assert Facts(s.next, pc);
    CursorIsPtr(s.next, pc);
    AccessesNodes(s, q, t);
    var pc' := StepOf(s, t, coin).pcs[t];
    var r :| pc' == Resume(pc, r) && (ActionOf(pc).Load? ==> r == s.next[ActionOf(pc).addr]);
    ResumeCursor(s.next, pc, r);
  }

  // ---------- counting along a run ----------

  // How often t moves its cursor in the part of the run from step lo on.
  ghost function AdvanceCount(s: State, sched: seq<Choice>, lo: nat, t: nat): nat
    requires Sized(s) && t < |s.pcs|
    decreases |sched|
  {
    if |sched| <= lo then 0
    else
      var k := |sched| - 1;
      AdvanceCount(s, sched[..k], lo, t)
      + (if sched[k].thread == t && Advances(Exec(s, sched[..k]).pcs[t]) then 1 else 0)
  }

  // How often other threads execute line 117 on the node under t's cursor.
  ghost function RaiseCount(s: State, sched: seq<Choice>, lo: nat, t: nat): nat
    requires Sized(s) && t < |s.pcs|
    decreases |sched|
  {
    if |sched| <= lo then 0
    else
      var k := |sched| - 1;
      var r := Exec(s, sched[..k]);
      RaiseCount(s, sched[..k], lo, t)
      + (if sched[k].thread != t && InPass(r.pcs[t]) && Raising(r, sched[k].thread, Cursor(r.pcs[t]))
         then 1 else 0)
  }

  ghost predicate StaysInPass(s: State, sched: seq<Choice>, lo: nat, t: nat)
    requires Sized(s) && t < |s.pcs|
  {
    forall i :: lo <= i <= |sched| ==> InPass(Exec(s, sched[..i]).pcs[t])
  }

  // The rank of where t's pass stands.
  ghost function CursorRank(s: State, q: seq<int>, t: nat): int
    requires Inv(s, q) && t < |s.pcs| && InPass(s.pcs[t])
  {
    assert Facts(s.next, s.pcs[t]);
    CursorIsPtr(s.next, s.pcs[t]);
    Rank(s, q, Cursor(s.pcs[t]))
  }

  lemma CursorRankBound(s: State, q: seq<int>, t: nat)
    requires Inv(s, q) && t < |s.pcs| && InPass(s.pcs[t])
    ensures 0 <= CursorRank(s, q, t) <= |s.next|
  {
    var c := Cursor(s.pcs[t]);
    assert Facts(s.next, s.pcs[t]);
    CursorIsPtr(s.next, s.pcs[t]);
    if c != NULL {
      RankDrops(s, q, c);
    }
  }

  lemma SameCursorRank(s: State, q: seq<int>, t: nat, s': State, q': seq<int>, bump: nat)
    requires Inv(s, q) && Inv(s', q') && t < |s.pcs| && |s'.pcs| == |s.pcs| && |s'.next| == |s.next|
    requires s'.pcs[t] == s.pcs[t] && InPass(s.pcs[t])
    requires forall x :: IsNode(|s.next|, x) && x == Cursor(s.pcs[t]) ==>
                           x in q && x in q' && Rank(s', q', x) <= Rank(s, q, x) + bump
    ensures CursorRank(s', q', t) <= CursorRank(s, q, t) + bump
  {
    assert Facts(s.next, s.pcs[t]);
    CursorIsPtr(s.next, s.pcs[t]);
  }

  // One step: cursor rank plus advances grows only by raises.
  lemma OtherMeasure(s: State, q: seq<int>, u: nat, coin: int, t: nat)
    requires Inv(s, q) && t < |s.pcs| && u != t && InPass(s.pcs[t])
    ensures var s' := StepOf(s, u, coin);
            var q' := NextOrder(s, q, u);
            && Inv(s', q') && InPass(s'.pcs[t])
            && CursorRank(s', q', t)
               <= CursorRank(s, q, t) + (if Raising(s, u, Cursor(s.pcs[t])) then 1 else 0)
  {
    StepKeepsInv(s, q, u, coin);
    OthersStay(s, u, coin, t);
    forall x | IsNode(|s.next|, x) && x == Cursor(s.pcs[t])
      ensures x in q && x in NextOrder(s, q, u)
      ensures Rank(StepOf(s, u, coin), NextOrder(s, q, u), x)
              <= Rank(s, q, x) + (if Raising(s, u, x) then 1 else 0)
    {
      StepRank(s, q, u, coin, x);
    }
    SameCursorRank(s, q, t, StepOf(s, u, coin), NextOrder(s, q, u),
                   if Raising(s, u, Cursor(s.pcs[t])) then 1 else 0);
  }

  lemma OwnMeasure(s: State, q: seq<int>, t: nat, coin: int, s': State, q': seq<int>)
    requires Inv(s, q) && t < |s.pcs| && InPass(s.pcs[t])
    requires s' == StepOf(s, t, coin) && q' == NextOrder(s, q, t) && Inv(s', q')
    requires InPass(s'.pcs[t])
    ensures CursorRank(s', q', t) + (if Advances(s.pcs[t]) then 1 else 0) <= CursorRank(s, q, t)
  {
    var c := Cursor(s.pcs[t]);
    assert Facts(s.next, s.pcs[t]);
    CursorIsPtr(s.next, s.pcs[t]);
    StepCursor(s, q, t, coin);
    NotRaisingOwnCursor(s, q, t);
    if c != NULL {
      if Advances(s.pcs[t]) {
        RankDrops(s, q, c);
        if s.next[c] != NULL {
          assert IsPtr(|s.next|, s.next[c]);
          StepRank(s, q, t, coin, s.next[c]);
        }
      } else {
        StepRank(s, q, t, coin, c);
      }
    }
  }

  lemma NotRaisingOwnCursor(s: State, q: seq<int>, t: nat)
    requires Inv(s, q) && t < |s.pcs| && InPass(s.pcs[t])
    ensures !Raising(s, t, Cursor(s.pcs[t]))
    ensures Advances(s.pcs[t]) ==> forall x :: !Raising(s, t, x)
  {
    assert Facts(s.next, s.pcs[t]);
  }

  lemma StaysPrefix(s: State, sched: seq<Choice>, lo: nat, t: nat)
    requires Sized(s) && t < |s.pcs| && lo <= |sched| && StaysInPass(s, sched, lo, t)
    ensures InPass(Exec(s, sched).pcs[t])
    ensures lo < |sched| ==> StaysInPass(s, sched[..|sched| - 1], lo, t)
  {
    assert sched[..|sched|] == sched;
    assert InPass(Exec(s, sched[..|sched|]).pcs[t]);
    if lo < |sched| {
      var k := |sched| - 1;
      forall i | lo <= i <= k ensures InPass(Exec(s, sched[..k][..i]).pcs[t]) {
        assert sched[..k][..i] == sched[..i];
        assert InPass(Exec(s, sched[..i]).pcs[t]);
      }
    }
  }

  lemma {:induction false} WalkMeasure(s: State, sched: seq<Choice>, lo: nat, t: nat)
    requires Initial(s) && t < |s.pcs| && lo <= |sched| && StaysInPass(s, sched, lo, t)
    ensures Inv(Exec(s, sched), Trace(s, sched)) && InPass(Exec(s, sched).pcs[t])
    ensures AdvanceCount(s, sched, lo, t) + CursorRank(Exec(s, sched), Trace(s, sched), t)
            <= |s.next| + RaiseCount(s, sched, lo, t)
    decreases |sched|
  {
    RunRefines(s, sched);
    StaysPrefix(s, sched, lo, t);
    if |sched| == lo {
      CursorRankBound(Exec(s, sched), Trace(s, sched), t);
    } else {
      var k := |sched| - 1;
      WalkMeasure(s, sched[..k], lo, t);
      var r, q := Exec(s, sched[..k]), Trace(s, sched[..k]);
      if sched[k].thread == t {
        OwnMeasure(r, q, t, sched[k].coin, Exec(s, sched), Trace(s, sched));
      } else {
        OtherMeasure(r, q, sched[k].thread, sched[k].coin, t);
      }
    }
  }

  /** The walk bound: one pass over a list of n nodes, of either kind of thread, moves its
      cursor at most n times, plus once for every execution of line 117 by another thread
      on the node the cursor then stands on. */
  lemma WalkBound(s: State, sched: seq<Choice>, lo: nat, t: nat)
    requires Initial(s) && t < |s.pcs| && lo <= |sched| && StaysInPass(s, sched, lo, t)
    ensures AdvanceCount(s, sched, lo, t) <= |s.next| + RaiseCount(s, sched, lo, t)
  {
    WalkMeasure(s, sched, lo, t);
    CursorRankBound(Exec(s, sched), Trace(s, sched), t);
  }
}
