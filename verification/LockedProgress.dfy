/** Under a hand-written lock no client is ever shut out: from every reachable state, without
    any spurious wake-up, each client can get call after call through. */
module LockedProgress {
  import A = AtomicFifo
  import B = QueueBody
  import opened QueueClients
  import opened LockedQueue
  import L = LockProtocol

  // ---------- who can move ----------

  // A step that is no spurious wake-up.
  ghost predicate CanStep(s: State, t: nat)
    requires Sized(s)
  {
    exists e: Event :: e.Run? && e.t == t && StepOf(s, e) != s
  }

  // Asleep in FUTEX_WAIT, or spinning while somebody holds the lock.
  ghost predicate Halted(s: L.Lock, t: nat)
    requires t < |s.pcs|
  {
    || s.pcs[t] == L.Asleep
    || (L.SomeHolder(s) && s.pcs[t] == L.Trying && s.cfg.wait == L.Retry)
    || (L.SomeHolder(s) && s.pcs[t] == L.Waiting && s.cfg.wait != L.Futex)
  }

  lemma HaltedStays(s: L.Lock, t: nat, wake: nat)
    requires L.Inv(s) && t < |s.pcs|
    ensures L.StepOf(s, L.Run(t, wake)) == s <==> Halted(s, t)
    ensures Halted(s, t) ==> s.pcs[t] != L.Inside && s.pcs[t] != L.Outside
  {
    assert s.word == s.cfg.held <==> L.SomeHolder(s);
    var s' := L.StepOf(s, L.Run(t, wake));
    if !Halted(s, t) {
      assert s'.pcs[t] != s.pcs[t];
    }
  }

  /** In every run a thread can move exactly unless it is halted. */
  lemma CanStepIff(s: State, max: nat, sched: seq<Event>, t: nat)
    requires Initial(s, max) && t < |s.roles|
    ensures CanStep(Exec(s, sched), t) <==> !Halted(Exec(s, sched).lock, t)
  {
    var ns := RunRefinesFifo(s, max, sched);
    var r := Exec(s, sched);
    if Halted(r.lock, t) {
      forall e: Event | e.Run? && e.t == t ensures StepOf(r, e) == r {
        HaltedStays(r.lock, t, e.wake);
      }
    } else {
      HaltedStays(r.lock, t, 0);
      var e := MoverMoves(r, A.Exec(InitialFifo(max, s.roles), Trace(s, sched)), ns, t);
    }
  }

  /** FUTEX_WAIT may return for no reason, which sends exactly a sleeper back to its exchange. */
  lemma SpuriousWakes(s: State, t: nat)
    requires Sized(s) && t < |s.roles|
    ensures var pcs := s.lock.pcs;
            StepOf(s, Spurious(t))
            == if pcs[t] == L.Asleep then s.(lock := s.lock.(pcs := pcs[t := L.Trying])) else s
  {
  }

  // ---------- runs without spurious wake-ups ----------

  predicate OnlyRuns(sched: seq<Event>) {
    forall i :: 0 <= i < |sched| ==> sched[i].Run?
  }

  // `sched` takes the initial state s to r, and some schedule without spurious wake-ups r to s1.
  ghost predicate Onward(s: State, max: nat, sched: seq<Event>, s1: State) {
    && Initial(s, max)
    && exists more :: OnlyRuns(more) && Exec(Exec(s, sched), more) == s1
  }

  lemma {:induction false} ExecConcat(s: State, a: seq<Event>, b: seq<Event>)
    requires Sized(s)
    ensures Exec(s, a + b) == Exec(Exec(s, a), b)
    ensures Trace(s, a + b) == Trace(s, a) + Trace(Exec(s, a), b)
    decreases |b|
  {
    if b == [] {
      assert a + b == a;
    } else {
      var k := |b| - 1;
      assert (a + b)[..|a + b| - 1] == a + b[..k];
      ExecConcat(s, a, b[..k]);
    }
  }

  lemma OnwardStart(s: State, max: nat, sched: seq<Event>)
    requires Initial(s, max)
    ensures Onward(s, max, sched, Exec(s, sched))
  {
    assert OnlyRuns([]) && Exec(Exec(s, sched), []) == Exec(s, sched);
  }

  lemma OnwardSim(s: State, max: nat, sched: seq<Event>, s1: State) returns (f: A.Fifo, ns: seq<int>)
    requires Onward(s, max, sched, s1)
    ensures Sim(s1, f, ns) && |s1.roles| == |s.roles|
  {
    var more :| OnlyRuns(more) && Exec(Exec(s, sched), more) == s1;
    ExecConcat(s, sched, more);
    ns := RunRefinesFifo(s, max, sched + more);
    f := A.Exec(InitialFifo(max, s.roles), Trace(s, sched + more));
  }

  lemma OnwardLock(s: State, max: nat, sched: seq<Event>, s1: State)
    requires Onward(s, max, sched, s1)
    ensures Sized(s1) && L.Inv(s1.lock)
  {
    var f, ns := OnwardSim(s, max, sched, s1);
  }

  lemma Go(s: State, max: nat, sched: seq<Event>, s1: State, e: Event) returns (s2: State)
    requires Onward(s, max, sched, s1) && Sized(s1) && e.Run?
    ensures s2 == StepOf(s1, e) && Onward(s, max, sched, s2)
  {
    s2 := StepOf(s1, e);
    var more :| OnlyRuns(more) && Exec(Exec(s, sched), more) == s1;
    var next := more + [e];
    assert next[..|more|] == more;
    assert OnlyRuns(next) && Exec(Exec(s, sched), next) == s2;
  }

  // A step of thread t, waking `wake` if it wakes anybody, that leaves the heap alone.
  function Move(t: nat, wake: nat): Event {
    Run(t, wake, B.Malloc(B.NULL, B.Cell(0, 0)))
  }

  // ---------- calls ----------

  // A call whose state has changed has taken effect, or has returned.
  lemma {:induction false} CallInTrace(s: State, sched: seq<Event>, t: nat)
    requires Sized(s) && t < |s.roles| && B.Outcome(Exec(s, sched).body[t]) != B.Outcome(s.body[t])
    ensures t in Trace(s, sched)
    decreases |sched|
  {
    if sched != [] {
      var k := |sched| - 1;
      var r := Exec(s, sched[..k]);
      if B.Outcome(r.body[t]) != B.Outcome(s.body[t]) {
        CallInTrace(s, sched[..k], t);
      } else {
        OwnBody(r, sched[k], t);
      }
    }
  }

  lemma OwnBody(s: State, e: Event, t: nat)
    requires Sized(s) && t < |s.roles|
    ensures e.t != t ==> StepOf(s, e).body[t] == s.body[t] && StepOf(s, e).roles[t] == s.roles[t]
  {
  }

  // The holder comes to the end of its critical section.
  lemma {:induction false} FinishBody(s: State, max: nat, sched: seq<Event>, s1: State, h: nat)
    returns (s2: State)
    requires Onward(s, max, sched, s1) && Sized(s1) && L.IsHolder(s1.lock, h)
    ensures Onward(s, max, sched, s2) && Sized(s2) && s2.body[h].Done?
    ensures s2.lock == s1.lock && s2.roles == s1.roles && s2.body == s1.body[h := s2.body[h]]
    decreases B.Remaining(s1.body[h])
  {
    s2 := s1;
    if !s1.body[h].Done? {
      var f, ns := OnwardSim(s, max, sched, s1);
      assert B.Suits(s1.roles[h], s1.body[h]);
      assert B.BodyRel(s1.q, ns, f.contents, s1.body[h], B.ValueOf(s1.roles[h]));
      var a := B.FreshAddress(s1.q.heap.Keys);
      var m := B.Malloc(a, B.Cell(0, 0));
      B.BodyShrinks(s1.q, s1.body[h], B.ValueOf(s1.roles[h]), m);
      s2 := Go(s, max, sched, s1, Run(h, 0, m));
      s2 := FinishBody(s, max, sched, s2, h);
    }
  }

  lemma Leave(s: State, max: nat, sched: seq<Event>, s1: State, h: nat, t: nat) returns (s2: State)
    requires Onward(s, max, sched, s1) && Sized(s1) && L.IsHolder(s1.lock, h) && t < |s1.roles|
    requires s1.body[h].Done?
    ensures Onward(s, max, sched, s2) && Sized(s2) && L.FreeFor(s2.lock, t)
    ensures s2.roles == s1.roles && s2.body == s1.body
  {
    OnwardLock(s, max, sched, s1);
    L.Release(s1.lock, h);
    assert t != h ==> !L.IsHolder(s1.lock, t);
    s2 := Go(s, max, sched, s1, Move(h, 0));
    if s2.lock.pcs[t] == L.Asleep {
      s2 := Go(s, max, sched, s2, Move(h, t));
    }
  }

  // And leaves the lock, waking t if t sleeps.
  lemma Quit(s: State, max: nat, sched: seq<Event>, s1: State, h: nat, t: nat) returns (s2: State)
    requires Onward(s, max, sched, s1) && Sized(s1) && L.IsHolder(s1.lock, h) && t < |s1.roles|
    ensures Onward(s, max, sched, s2) && Sized(s2) && L.FreeFor(s2.lock, t)
    ensures s2.roles == s1.roles && s2.body == s1.body[h := s2.body[h]] && s2.body[h].Done?
  {
    s2 := FinishBody(s, max, sched, s1, h);
    s2 := Leave(s, max, sched, s2, h, t);
  }

  // ---------- the lock, for t ----------

  // A step of v in the lock code.
  lemma GoLock(s: State, max: nat, sched: seq<Event>, s1: State, v: nat, wake: nat) returns (s2: State)
    requires Onward(s, max, sched, s1) && Sized(s1) && v < |s1.roles| && s1.lock.pcs[v] != L.Inside
    requires s1.lock.pcs[v] == L.Outside ==> !s1.body[v].Done?
    ensures Onward(s, max, sched, s2) && Sized(s2)
    ensures s2 == s1.(lock := L.StepOf(s1.lock, L.Run(v, wake)))
  {
    s2 := Go(s, max, sched, s1, Move(v, wake));
  }

  lemma ActorWakes(s: State, max: nat, sched: seq<Event>, s1: State, v: nat, t: nat) returns (s2: State)
    requires Onward(s, max, sched, s1) && Sized(s1) && t < |s1.roles| && s1.lock.pcs[t] == L.Asleep
    requires s1.lock.word == s1.lock.cfg.free && v < |s1.roles| && L.WillAct(s1.lock.pcs[v])
    ensures Onward(s, max, sched, s2) && Sized(s2) && L.FreeFor(s2.lock, t)
    ensures s2.roles[t] == s1.roles[t] && s2.body[t] == s1.body[t]
  {
    OnwardLock(s, max, sched, s1);
    if s1.lock.pcs[v] == L.Waking {
      s2 := GoLock(s, max, sched, s1, v, t);
    } else {
      s2 := s1;
      if s1.lock.pcs[v] == L.Waiting {
        s2 := GoLock(s, max, sched, s2, v, 0);
      }
      s2 := GoLock(s, max, sched, s2, v, 0);
      assert L.IsHolder(s2.lock, v);
      s2 := Quit(s, max, sched, s2, v, t);
    }
  }

  lemma MakeFree(s: State, max: nat, sched: seq<Event>, s1: State, t: nat) returns (s2: State)
    requires Onward(s, max, sched, s1) && Sized(s1) && t < |s1.roles| && s1.lock.pcs[t] != L.Inside
    ensures Onward(s, max, sched, s2) && Sized(s2) && L.FreeFor(s2.lock, t)
    ensures s2.roles[t] == s1.roles[t] && s2.body[t] == s1.body[t]
  {
    OnwardLock(s, max, sched, s1);
    if s1.lock.word == s1.lock.cfg.held {
      var h :| L.IsHolder(s1.lock, h);
      s2 := Quit(s, max, sched, s1, h, t);
    } else if s1.lock.pcs[t] == L.Asleep {
      var v: nat :| v < |s1.lock.pcs| && L.WillAct(s1.lock.pcs[v]);
      s2 := ActorWakes(s, max, sched, s1, v, t);
    } else {
      s2 := s1;
    }
  }

  // ---------- the next call of t ----------

  // Whatever a call of t has come to, it comes to something else.
  ghost predicate Moved(s1: State, s2: State, t: nat)
    requires Sized(s1) && t < |s1.roles|
  {
    Sized(s2) && t < |s2.roles| && B.Outcome(s2.body[t]) != B.Outcome(s1.body[t])
  }

  // A call that is over returns.
  lemma Returns(s: State, max: nat, sched: seq<Event>, s1: State, t: nat) returns (s2: State)
    requires Onward(s, max, sched, s1) && Sized(s1) && t < |s1.roles| && s1.body[t].Done?
    requires s1.lock.pcs[t] == L.Outside || s1.lock.pcs[t] == L.Waking
    ensures Onward(s, max, sched, s2) && Moved(s1, s2, t) && B.Outcome(s2.body[t]) == A.Pending
  {
    s2 := s1;
    if s1.lock.pcs[t] == L.Waking {
      s2 := GoLock(s, max, sched, s2, t, t);
    }
    s2 := Go(s, max, sched, s2, Move(t, t));
  }

  // A call that has begun in its critical section is brought to its end, or to its return.
  lemma HolderMoves(s: State, max: nat, sched: seq<Event>, s1: State, t: nat) returns (s2: State)
    requires Onward(s, max, sched, s1) && Sized(s1) && L.IsHolder(s1.lock, t)
    ensures Onward(s, max, sched, s2) && Moved(s1, s2, t)
  {
    if B.Outcome(s1.body[t]) == A.Pending {
      s2 := FinishBody(s, max, sched, s1, t);
    } else {
      s2 := Quit(s, max, sched, s1, t, t);
      var f, ns := OnwardSim(s, max, sched, s2);
      assert Placed(s2.lock.pcs[t], s2.roles[t], s2.body[t]);
      s2 := Returns(s, max, sched, s2, t);
    }
  }

  // A call waiting for the free lock gets it.
  lemma WaiterMoves(s: State, max: nat, sched: seq<Event>, s1: State, t: nat) returns (s2: State)
    requires Onward(s, max, sched, s1) && Sized(s1) && L.FreeFor(s1.lock, t) && !s1.body[t].Done?
    ensures Onward(s, max, sched, s2) && Moved(s1, s2, t)
  {
    var f, ns := OnwardSim(s, max, sched, s1);
    assert Placed(s1.lock.pcs[t], s1.roles[t], s1.body[t]);
    s2 := s1;
    if s2.lock.pcs[t] != L.Trying {
      s2 := GoLock(s, max, sched, s2, t, t);
    }
    s2 := GoLock(s, max, sched, s2, t, t);
    s2 := FinishBody(s, max, sched, s2, t);
  }

  lemma CallMoves(s: State, max: nat, sched: seq<Event>, t: nat) returns (s2: State)
    requires Initial(s, max) && t < |s.roles|
    ensures Onward(s, max, sched, s2) && Moved(Exec(s, sched), s2, t)
  {
    OnwardStart(s, max, sched);
    var r := Exec(s, sched);
    if r.lock.pcs[t] == L.Inside {
      s2 := HolderMoves(s, max, sched, r, t);
    } else {
      s2 := MakeFree(s, max, sched, r, t);
      var f, ns := OnwardSim(s, max, sched, s2);
      assert Placed(s2.lock.pcs[t], s2.roles[t], s2.body[t]);
      if s2.body[t].Done? {
        s2 := Returns(s, max, sched, s2, t);
      } else {
        s2 := WaiterMoves(s, max, sched, s2, t);
      }
    }
  }

  /** No client is shut out: from every reachable state some continuation, without spurious
      wake-ups, lets client t's call take effect or return. */
  lemma ClientServed(s: State, max: nat, sched: seq<Event>, t: nat) returns (more: seq<Event>)
    requires Initial(s, max) && t < |s.roles|
    ensures OnlyRuns(more) && Trace(s, sched + more) == Trace(s, sched) + Trace(Exec(s, sched), more)
    ensures t in Trace(s, sched + more)[|Trace(s, sched)|..]
  {
    var s2 := CallMoves(s, max, sched, t);
    more :| OnlyRuns(more) && Exec(Exec(s, sched), more) == s2;
    ExecConcat(s, sched, more);
    CallInTrace(Exec(s, sched), more, t);
  }

  // How often t occurs among atomic steps.
  function Steps(trace: seq<nat>, t: nat): nat {
    multiset(trace)[t]
  }

  lemma OnceMore(a: seq<nat>, b: seq<nat>, t: nat)
    requires t in (a + b)[|a|..]
    ensures Steps(a + b, t) >= Steps(a, t) + 1
  {
    assert (a + b)[|a|..] == b && t in multiset(b);
    assert multiset(a + b) == multiset(a) + multiset(b);
  }

  // next goes on where sched ends, without spurious wake-ups.
  predicate Extends(sched: seq<Event>, next: seq<Event>) {
    sched <= next && forall i :: |sched| <= i < |next| ==> next[i].Run?
  }

  lemma ExtendsOn(a: seq<Event>, b: seq<Event>, c: seq<Event>)
    requires Extends(a, b) && Extends(b, c)
    ensures Extends(a, c)
  {
    forall i | |a| <= i < |c| ensures c[i].Run? {
      if i < |b| {
        assert c[i] == b[i];
      }
    }
  }

  lemma ServedOnce(s: State, max: nat, sched: seq<Event>, t: nat) returns (next: seq<Event>)
    requires Initial(s, max) && t < |s.roles|
    ensures Extends(sched, next)
    ensures Steps(Trace(s, next), t) >= Steps(Trace(s, sched), t) + 1
  {
    var more := ClientServed(s, max, sched, t);
    OnceMore(Trace(s, sched), Trace(Exec(s, sched), more), t);
    next := sched + more;
  }

  /** And any number of times: from every reachable state client t can take m more atomic
      steps, so m / 2 calls can go through. */
  lemma {:induction false} ClientServedOften(s: State, max: nat, sched: seq<Event>, t: nat, m: nat)
    returns (next: seq<Event>)
    requires Initial(s, max) && t < |s.roles|
    ensures Extends(sched, next)
    ensures Steps(Trace(s, next), t) >= Steps(Trace(s, sched), t) + m
    decreases m
  {
    if m == 0 {
      next := sched;
    } else {
      var first := ServedOnce(s, max, sched, t);
      next := ClientServedOften(s, max, first, t, m - 1);
      ExtendsOn(sched, first, next);
    }
  }
}
