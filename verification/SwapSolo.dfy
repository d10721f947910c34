/** What a pass does while the other threads stand still: a reading pass inspects exactly the
    neighbouring pairs it can lock, and a swapping pass over a free list rotates it. */
module SwapSolo {
  import opened SwapProtocol
  import opened SwapInvariant
  import opened SwapSteps
  import opened SwapRuns
  import opened SwapWalk
  import opened SwapTry
  import opened SwapSchedules
  import Storage

  // ---------- a reading pass ----------

  // The pairs t compares at line 54 in the part of the run from step lo on.
  ghost function Inspected(s: State, sched: seq<Choice>, lo: nat, t: nat): seq<(int, int)>
    requires Sized(s) && t < |s.pcs|
    decreases |sched|
  {
    if |sched| <= lo then []
    else
      var k := |sched| - 1;
      Inspected(s, sched[..k], lo, t)
      + if sched[k].thread == t then Compared(Exec(s, sched[..k]).pcs[t]) else []
  }

  function Compared(pc: Pc): seq<(int, int)> {
    if pc.Read? && pc.r.W54? then [(pc.r.a, pc.r.b)] else []
  }

  // Of the first k pairs of neighbours, those that t could lock.
  ghost function OpenPairs(s: State, t: nat, q: seq<int>, k: nat): seq<(int, int)>
    requires t < |s.pcs| && k <= |q|
  {
    if k == 0 then []
    else
      OpenPairs(s, t, q, k - 1)
      + if k < |q| && !Excluded(s, t, q[k - 1]) && !Excluded(s, t, q[k]) then [(q[k - 1], q[k])] else []
  }

  // Only t's program point and the locks have changed since s0, and no swap is in flight.
  ghost predicate OnlyReader(s0: State, s: State, q: seq<int>, t: nat) {
    && Inv(s, q) && t < |s.pcs| && |s0.pcs| == |s.pcs| && s0.rw == s.rw
    && s.pcs[t].Read? && s0.pcs[t].Read?
    && (forall u :: 0 <= u < |s.pcs| && u != t ==> s.pcs[u] == s0.pcs[u] && !MidSwap(s.pcs[u]))
  }

  lemma SteadyLinks(s0: State, s: State, q: seq<int>, t: nat, k: nat)
    requires OnlyReader(s0, s, q, t) && k < |q|
    ensures IsNode(|s.next|, q[k]) && s.next[q[k]] == Succ(q, k)
  {
    assert Undone(s, q[k]) == Succ(q, k);
  }

  lemma SameExcluded(s0: State, s: State, q: seq<int>, t: nat, x: int)
    requires OnlyReader(s0, s, q, t)
    ensures Excluded(s, t, x) <==> Excluded(s0, t, x)
  {
  }

  // Where t stands in its pass over q, at position k, and the pairs it has inspected.
  ghost predicate Spot(s0: State, t: nat, q: seq<int>, k: nat, pc: ReadPc, done: seq<(int, int)>)
    requires t < |s0.pcs|
  {
    var n := |q|;
    match pc
    case W48(cur) => k <= n && cur == (if k < n then q[k] else NULL) && done == OpenPairs(s0, t, q, k)
    case W74(cur) => k < n && cur == q[k] && Excluded(s0, t, q[k]) && done == OpenPairs(s0, t, q, k)
    case W50(a) => k < n && a == q[k] && !Excluded(s0, t, a) && done == OpenPairs(s0, t, q, k)
    case W50b(a) => k + 1 < n && a == q[k] && !Excluded(s0, t, a) && done == OpenPairs(s0, t, q, k)
    case W50c(a, p) =>
      k + 1 < n && a == q[k] && p == q[k + 1] && !Excluded(s0, t, a) && done == OpenPairs(s0, t, q, k)
    case W53(a, b) =>
      k + 1 < n && a == q[k] && b == q[k + 1] && !Excluded(s0, t, a) && !Excluded(s0, t, b)
      && done == OpenPairs(s0, t, q, k)
    case W54(a, b, _) =>
      k + 1 < n && a == q[k] && b == q[k + 1] && !Excluded(s0, t, a) && !Excluded(s0, t, b)
      && done == OpenPairs(s0, t, q, k)
    case W57(a, _) => k + 1 < n && a == q[k] && done == OpenPairs(s0, t, q, k + 1)
    case W58(_, _, cur) => k + 1 < n && cur == q[k + 1] && done == OpenPairs(s0, t, q, k + 1)
    case W59(_, cur) => k + 1 < n && cur == q[k + 1] && done == OpenPairs(s0, t, q, k + 1)
    case W64(a) => k < n && a == q[k] && done == OpenPairs(s0, t, q, k + 1)
    case W65(_, cur) =>
      k < n && cur == (if k + 1 < n then q[k + 1] else NULL) && done == OpenPairs(s0, t, q, k + 1)
    case _ => false
  }

  // The try-locks of a pass.
  lemma SpotTries(s0: State, s: State, q: seq<int>, t: nat, coin: int, k: nat, done: seq<(int, int)>)
    requires OnlyReader(s0, s, q, t) && Spot(s0, t, q, k, s.pcs[t].r, done)
    requires (s.pcs[t].r.W48? && k < |q|) || s.pcs[t].r.W50c?
    ensures var pc' := StepOf(s, t, coin).pcs[t]; pc'.Read? && Spot(s0, t, q, k, pc'.r, done)
  {
    var pc := s.pcs[t].r;
    SteadyLinks(s0, s, q, t, k);
    var x := if pc.W48? then pc.cur else pc.p;
    TryOutcome(s, q, t, coin, x);
    SameExcluded(s0, s, q, t, x);
  }

  // The other steps; k' is where t stands afterwards.
  lemma SpotMoves(s0: State, s: State, q: seq<int>, t: nat, coin: int, k: nat, done: seq<(int, int)>)
    returns (k': nat)
    requires OnlyReader(s0, s, q, t) && Spot(s0, t, q, k, s.pcs[t].r, done)
    requires !s.pcs[t].r.W48? && !s.pcs[t].r.W50c?
    ensures var pc' := StepOf(s, t, coin).pcs[t];
            pc'.Read? && Spot(s0, t, q, k', pc'.r, done + Compared(s.pcs[t]))
  {
    var pc := s.pcs[t].r;
    AccessesNodes(s, q, t);
    SteadyLinks(s0, s, q, t, k);
    assert Facts(s.next, s.pcs[t]);
    assert done + [] == done;
    k' := if pc.W74? || pc.W59? || pc.W65? then k + 1 else k;
  }

  lemma SpotStep(s0: State, s: State, q: seq<int>, t: nat, coin: int, k: nat, done: seq<(int, int)>)
    returns (k': nat)
    requires OnlyReader(s0, s, q, t) && Spot(s0, t, q, k, s.pcs[t].r, done)
    requires s.pcs[t] != Read(W48(NULL))
    ensures var pc' := StepOf(s, t, coin).pcs[t];
            pc'.Read? && Spot(s0, t, q, k', pc'.r, done + Compared(s.pcs[t]))
  {
    if s.pcs[t].r.W48? || s.pcs[t].r.W50c? {
      SpotTries(s0, s, q, t, coin, k, done);
      assert done + [] == done;
      k' := k;
    } else {
      k' := SpotMoves(s0, s, q, t, coin, k, done);
    }
  }

  // From step lo on only t moves, and no other thread is in the middle of its stores.
  ghost predicate ReadsAlone(s: State, sched: seq<Choice>, lo: nat, t: nat)
    requires Sized(s) && t < |s.pcs| && lo <= |sched|
  {
    var r := Exec(s, sched[..lo]);
    && r.pcs[t] == Read(W48(r.first)) && r.first != NULL
    && (forall i :: lo <= i < |sched| ==> sched[i].thread == t)
    && (forall u :: 0 <= u < |r.pcs| && u != t ==> !MidSwap(r.pcs[u]))
  }

  lemma OnlyReaderStays(s0: State, s: State, q: seq<int>, t: nat, coin: int)
    requires OnlyReader(s0, s, q, t) && StepOf(s, t, coin).pcs[t].Read?
    ensures NextOrder(s, q, t) == q && OnlyReader(s0, StepOf(s, t, coin), q, t)
  {
    StepKeepsInv(s, q, t, coin);
    forall u | 0 <= u < |s.pcs| && u != t ensures StepOf(s, t, coin).pcs[u] == s.pcs[u] {
      OthersStay(s, t, coin, u);
    }
  }

  // t is at some position of its pass, and has inspected what lies behind it.
  ghost predicate OnTrack(r0: State, r: State, q: seq<int>, t: nat, done: seq<(int, int)>) {
    exists k: nat :: OnlyReader(r0, r, q, t) && Spot(r0, t, q, k, r.pcs[t].r, done)
  }

  lemma TrackStart(r: State, q: seq<int>, t: nat)
    requires Inv(r, q) && t < |r.pcs| && r.pcs[t] == Read(W48(r.first)) && r.first != NULL
    requires forall u :: 0 <= u < |r.pcs| && u != t ==> !MidSwap(r.pcs[u])
    ensures OnTrack(r, r, q, t, [])
  {
    assert Spot(r, t, q, 0, r.pcs[t].r, []);
  }

  lemma TrackStep(r0: State, r: State, q: seq<int>, c: Choice, done: seq<(int, int)>)
    requires OnTrack(r0, r, q, c.thread, done) && r.pcs[c.thread] != Read(W48(NULL))
    ensures NextOrder(r, q, c.thread) == q
    ensures OnTrack(r0, StepOf(r, c.thread, c.coin), q, c.thread, done + Compared(r.pcs[c.thread]))
  {
    var k: nat :| OnlyReader(r0, r, q, c.thread) && Spot(r0, c.thread, q, k, r.pcs[c.thread].r, done);
    var k' := SpotStep(r0, r, q, c.thread, c.coin, k, done);
    OnlyReaderStays(r0, r, q, c.thread, c.coin);
  }

  lemma AlonePrefix(s: State, sched: seq<Choice>, lo: nat, t: nat)
    requires Sized(s) && t < |s.pcs| && lo < |sched|
    requires ReadsAlone(s, sched, lo, t) && StaysInPass(s, sched, lo, t)
    ensures var m := |sched| - 1;
            && sched[..m][..lo] == sched[..lo] && sched[m].thread == t
            && ReadsAlone(s, sched[..m], lo, t) && StaysInPass(s, sched[..m], lo, t)
            && Exec(s, sched[..m]).pcs[t] != Read(W48(NULL))
  {
    var m := |sched| - 1;
    assert sched[..m][..lo] == sched[..lo];
    StaysPrefix(s, sched, lo, t);
    PassNotOver(Exec(s, sched[..m]), t, sched[m].coin);
  }

  lemma {:induction false} SoloTrack(s: State, sched: seq<Choice>, lo: nat, t: nat)
    requires Initial(s) && t < |s.pcs| && lo <= |sched|
    requires ReadsAlone(s, sched, lo, t) && StaysInPass(s, sched, lo, t)
    ensures OnTrack(Exec(s, sched[..lo]), Exec(s, sched), Trace(s, sched), t, Inspected(s, sched, lo, t))
    decreases |sched|
  {
    if |sched| == lo {
      assert sched[..lo] == sched;
      RunRefines(s, sched);
      TrackStart(Exec(s, sched), Trace(s, sched), t);
    } else {
      var m := |sched| - 1;
      AlonePrefix(s, sched, lo, t);
      SoloTrack(s, sched[..m], lo, t);
      var r0, r, q := Exec(s, sched[..lo]), Exec(s, sched[..m]), Trace(s, sched[..m]);
      TrackStep(r0, r, q, sched[m], Inspected(s, sched[..m], lo, t));
    }
  }

  lemma PassNotOver(r: State, t: nat, coin: int)
    requires Sized(r) && t < |r.pcs| && InPass(StepOf(r, t, coin).pcs[t])
    ensures r.pcs[t] != Read(W48(NULL))
  {
  }

  lemma SpotAtEnd(s0: State, t: nat, q: seq<int>, k: nat, done: seq<(int, int)>)
    requires t < |s0.pcs| && Spot(s0, t, q, k, W48(NULL), done)
    requires forall i :: 0 <= i < |q| ==> q[i] != NULL
    ensures done == OpenPairs(s0, t, q, |q|)
  {
  }

  /** A reading pass while the other threads stand still, wherever they stand except among
      their stores: when it comes to the end of the list it has inspected, in order, exactly
      the pairs of neighbours of which no other thread keeps it out. */
  lemma SoloReadPass(s: State, sched: seq<Choice>, lo: nat, t: nat)
    requires Initial(s) && t < |s.pcs| && lo <= |sched|
    requires ReadsAlone(s, sched, lo, t) && StaysInPass(s, sched, lo, t)
    requires Exec(s, sched).pcs[t] == Read(W48(NULL))
    ensures var q := Trace(s, sched);
            Inspected(s, sched, lo, t) == OpenPairs(Exec(s, sched[..lo]), t, q, |q|)
  {
    SoloTrack(s, sched, lo, t);
    var r0, r, q := Exec(s, sched[..lo]), Exec(s, sched), Trace(s, sched);
    var k: nat :| OnlyReader(r0, r, q, t) && Spot(r0, t, q, k, r.pcs[t].r, Inspected(s, sched, lo, t));
    SpotAtEnd(Exec(s, sched[..lo]), t, Trace(s, sched), k, Inspected(s, sched, lo, t));
  }

  // ---------- a swapping pass ----------

  // A state represents one order only.
  lemma {:induction false} SameUpTo(s: State, q: seq<int>, r: seq<int>, k: nat)
    requires Sized(s) && Represents(s, q) && Represents(s, r) && k <= |q|
    ensures q[..k] == r[..k]
  {
    if k > 1 {
      SameUpTo(s, q, r, k - 1);
      assert q[k - 2] == q[..k - 1][k - 2] == r[..k - 1][k - 2] == r[k - 2];
      assert Undone(s, q[k - 2]) == Succ(q, k - 2) && Undone(s, r[k - 2]) == Succ(r, k - 2);
      assert q[..k] == q[..k - 1] + [q[k - 1]] && r[..k] == r[..k - 1] + [r[k - 1]];
    }
  }

  lemma OneOrder(s: State, q: seq<int>, r: seq<int>)
    requires Sized(s) && Represents(s, q) && Represents(s, r)
    ensures q == r
  {
    SameUpTo(s, q, r, |q|);
    assert q[..|q|] == q && r[..|r|] == r;
  }

  // Nothing is locked.
  predicate AllIdle(s: State) {
    forall t :: 0 <= t < |s.pcs| ==> Held(s.pcs[t]) == {}
  }

  lemma IdleCalmed(s: State, q: seq<int>)
    requires Inv(s, q) && AllIdle(s)
    ensures Calmed(s, q)
  {
    forall x | 0 <= x < |s.locks| ensures s.locks[x] == FREE {
      assert KnownOwner(s, s.locks[x]);
      forall t | 0 <= t < |s.pcs| ensures !Owns(s.locks[x], t, Shares(s.rw, s.pcs[t])) {
        assert x !in Held(s.pcs[t]);
      }
    }
    forall i | 0 <= i < |q| ensures s.next[q[i]] == Succ(q, i) {
      assert Undone(s, q[i]) == Succ(q, i);
    }
  }

  lemma CalmedRepresents(s: State, q: seq<int>)
    requires Sized(s) && Calmed(s, q) && |q| > 0 && q[0] == 0 && s.first == 0
    ensures Represents(s, q)
  {
    forall i | 0 <= i < |q| ensures Undone(s, q[i]) == Succ(q, i) {
      assert s.next[q[i]] == Succ(q, i);
    }
  }

  lemma PassRotates(s: State, u: nat, q: seq<int>) returns (s': State)
    requires Sized(s) && Calmed(s, q) && |q| >= 3 && q[0] == 0 && s.first == 0
    requires u < |s.pcs| && s.pcs[u] == Head(S90)
    ensures Moved(s, u, s', Head(S90), Storage.Rotated(q))
  {
    CalmedEnterable(s, q);
    var s1 := Enter(s, u, 1);
    var q';
    s', q' := FinishPass(s1, u, q, 0);
    SoloOn(s, u, s1, s');
    CarriedAll(q);
  }

  lemma CarriedAll(q: seq<int>)
    requires |q| >= 2
    ensures CarriedTo(q, 0, |q| - 2) == Storage.Rotated(q)
  {
    assert q[..1] == [q[0]] && q[2..|q|] == q[2..] && q[|q|..] == [];
  }

  /** One swapping pass by u alone, with nothing locked before it: the order rotates behind
      the head, as it does under the method `Storage.List.SwapPass`, nothing is locked after
      it, and u is back at line 90. */
  lemma SoloSwapPass(s: State, sched: seq<Choice>, u: nat) returns (more: seq<Choice>)
    requires Initial(s) && |s.next| >= 3 && u < |s.pcs|
    requires Exec(s, sched).pcs[u] == Head(S90) && AllIdle(Exec(s, sched))
    ensures OnlyBy(more, u)
    ensures Trace(s, sched + more) == Storage.Rotated(Trace(s, sched))
    ensures Exec(s, sched + more).pcs == Exec(s, sched).pcs
    ensures forall x :: 0 <= x < |s.next| ==> Exec(s, sched + more).locks[x] == FREE
  {
    RunRefines(s, sched);
    var r, q := Exec(s, sched), Trace(s, sched);
    IdleCalmed(r, q);
    var r' := PassRotates(r, u, q);
    more :| OnlyBy(more, u) && Exec(r, more) == r';
    ExecConcat(s, sched, more);
    RunRefines(s, sched + more);
    CalmedRepresents(r', Storage.Rotated(q));
    OneOrder(r', Trace(s, sched + more), Storage.Rotated(q));
  }
}
