/** lab2/2/a-spinlock and lab2/2/e-mutex: the queue under a hand-written lock, with the
    lock's atomic instructions and futex calls and the critical section's statements all
    interleaved. It refines the atomic bounded FIFO. */
module LockedQueue {
  import opened AtomicFifo
  import opened QueueBody
  import opened QueueClients
  import L = LockProtocol

  datatype State = State(lock: L.Lock, q: Queue, roles: seq<Role>, body: seq<Pc>)

  // Which thread moves; whom FUTEX_WAKE prefers and what malloc answers, should it matter.
  datatype Event = Run(t: nat, wake: nat, m: Malloc) | Spurious(t: nat)

  predicate Sized(s: State) {
    |s.lock.pcs| == |s.roles| == |s.body|
  }

  /** A thread's next step: of the lock while it locks or unlocks, of the critical section
      while it holds the lock, of the client loop once the call is over. */
  function StepOf(s: State, e: Event): (s': State)
    requires Sized(s)
    ensures Sized(s') && |s'.roles| == |s.roles|
  {
    if e.t >= |s.roles| then s else
    var t := e.t;
    match e
    case Spurious(_) => s.(lock := L.StepOf(s.lock, L.Spurious(t)))
    case Run(_, wake, m) =>
      if s.lock.pcs[t] == L.Inside && !s.body[t].Done? then
        var (q', pc') := QueueBody.StepOf(s.q, s.body[t], ValueOf(s.roles[t]), m);
        s.(q := q', body := s.body[t := pc'])
      else if s.lock.pcs[t] == L.Outside && s.body[t].Done? then
        var role' := AfterReturn(s.roles[t], s.body[t].ok, s.body[t].val);
        s.(roles := s.roles[t := role'], body := s.body[t := Start(role')])
      else s.(lock := L.StepOf(s.lock, L.Run(t, wake)))
  }

  function Exec(s: State, sched: seq<Event>): (s': State)
    requires Sized(s)
    ensures Sized(s') && |s'.roles| == |s.roles|
    decreases |sched|
  {
    if sched == [] then s
    else
      var k := |sched| - 1;
      StepOf(Exec(s, sched[..k]), sched[k])
  }

  predicate Initial(s: State, max: nat) {
    && Sized(s) && L.Initial(s.lock) && s.q == Init(max)
    && FreshRoles(s.roles) && s.body == Starts(s.roles)
  }

  // Does the atomic FIFO move with this step?
  predicate StepVisible(s: State, e: Event)
    requires Sized(s)
  {
    e.t < |s.roles| && Visible(s.body[e.t], StepOf(s, e).body[e.t])
  }

  // The atomic steps of a run.
  function Trace(s: State, sched: seq<Event>): seq<nat>
    requires Sized(s)
    decreases |sched|
  {
    if sched == [] then []
    else
      var k := |sched| - 1;
      Trace(s, sched[..k]) + if StepVisible(Exec(s, sched[..k]), sched[k]) then [sched[k].t] else []
  }

  // ---------- simulation ----------

  // Outside the critical section a call has not begun its body or has finished it.
  predicate Placed(lock: L.Pc, role: Role, pc: Pc) {
    match lock
    case Inside => true
    case Waking => pc.Done?
    case Outside => pc == Start(role) || pc.Done?
    case _ => pc == Start(role)
  }

  ghost predicate QueueInOrder(s: State, f: Fifo, ns: seq<int>)
    requires Sized(s)
  {
    && (forall t: nat :: L.IsHolder(s.lock, t) ==> InBody(s.q, f, ns, s.body[t], ValueOf(s.roles[t])))
    && ((forall t: nat :: !L.IsHolder(s.lock, t)) ==> InQueue(s.q, f, ns))
  }

  ghost predicate Sim(s: State, f: Fifo, ns: seq<int>) {
    && Sized(s) && L.Inv(s.lock)
    && Views(f, s.roles, s.body) && AllSuit(s.roles, s.body) && f.max == s.q.max
    && (forall t :: 0 <= t < |s.roles| ==> Placed(s.lock.pcs[t], s.roles[t], s.body[t]))
    && QueueInOrder(s, f, ns)
  }

  lemma BodyStepSim(s: State, f: Fifo, ns: seq<int>, e: Event)
    requires Sim(s, f, ns) && e.Run? && L.IsHolder(s.lock, e.t) && !s.body[e.t].Done?
    ensures Sim(StepOf(s, e), Follow(f, e.t, StepVisible(s, e)), NextNodes(ns, s.body[e.t]))
  {
    var t := e.t;
    BodyMatched(f, s.q, ns, s.roles, s.body, t, e.m);
    var s' := StepOf(s, e);
    forall u: nat | L.IsHolder(s'.lock, u)
      ensures u == t
    {
      assert L.IsHolder(s.lock, u);
    }
  }

  lemma ReturnStepSim(s: State, f: Fifo, ns: seq<int>, e: Event)
    requires Sim(s, f, ns) && e.Run? && e.t < |s.roles|
    requires s.lock.pcs[e.t] == L.Outside && s.body[e.t].Done?
    ensures Sim(StepOf(s, e), Follow(f, e.t, StepVisible(s, e)), ns)
  {
    var t := e.t;
    ReturnMatched(f, s.roles, s.body, t);
    var s' := StepOf(s, e);
    forall u: nat | L.IsHolder(s.lock, u) ensures s'.body[u] == s.body[u] && s'.roles[u] == s.roles[u] {
      assert u != t;
    }
  }

  // What a lock step may do to the threads' places.
  lemma LockStepPlaces(s: State, e: L.Event, role: Role, pc: Pc, u: nat)
    requires L.Inv(s.lock) && u < |s.lock.pcs| && Placed(s.lock.pcs[u], role, pc)
    requires e.t < |s.lock.pcs| && (u == e.t ==> e.Run? ==> (s.lock.pcs[u] == L.Inside ==> pc.Done?))
    requires u == e.t && e.Run? && s.lock.pcs[u] == L.Outside ==> pc == Start(role)
    ensures Placed(L.StepOf(s.lock, e).pcs[u], role, pc)
  {
  }

  // A lock step hands the queue over in order: a thread enters at the start of its body
  // and leaves at the end of it.
  lemma LockStepSim(s: State, f: Fifo, ns: seq<int>, t: nat, le: L.Event)
    requires Sim(s, f, ns) && t < |s.roles| && le.t == t
    requires le.Run? ==> (s.lock.pcs[t] == L.Inside ==> s.body[t].Done?)
    requires le.Run? ==> (s.lock.pcs[t] == L.Outside ==> !s.body[t].Done?)
    ensures Sim(s.(lock := L.StepOf(s.lock, le)), f, ns)
  {
    var s' := s.(lock := L.StepOf(s.lock, le));
    L.StepKeepsInv(s.lock, le);
    forall u | 0 <= u < |s.roles| ensures Placed(s'.lock.pcs[u], s.roles[u], s.body[u]) {
      LockStepPlaces(s, le, s.roles[u], s.body[u], u);
    }
    HandOver(s, f, ns, t, le);
  }

  lemma HandOver(s: State, f: Fifo, ns: seq<int>, t: nat, le: L.Event)
    requires Sim(s, f, ns) && t < |s.roles| && le.t == t
    requires le.Run? ==> (s.lock.pcs[t] == L.Inside ==> s.body[t].Done?)
    ensures QueueInOrder(s.(lock := L.StepOf(s.lock, le)), f, ns)
  {
    var s' := s.(lock := L.StepOf(s.lock, le));
    assert Placed(s.lock.pcs[t], s.roles[t], s.body[t]);
    forall u: nat | u != t ensures L.IsHolder(s'.lock, u) <==> L.IsHolder(s.lock, u) {
    }
    if L.IsHolder(s.lock, t) {
      assert InBody(s.q, f, ns, s.body[t], ValueOf(s.roles[t]));
    } else if L.IsHolder(s'.lock, t) {
      assert s.lock.pcs[t] == L.Trying && s.lock.word == s.lock.cfg.free;
      assert forall u: nat :: !L.IsHolder(s.lock, u);
      BodyEdges(s.q, f, ns, s.body[t], s.roles[t], ValueOf(s.roles[t]));
    }
  }

  /** Forward simulation: every step of the queue under the lock is one atomic step of the
      FIFO by the same thread, or none. */
  lemma StepSim(s: State, f: Fifo, ns: seq<int>, e: Event) returns (ns': seq<int>)
    requires Sim(s, f, ns)
    ensures Sim(StepOf(s, e), Follow(f, e.t, StepVisible(s, e)), ns')
  {
    ns' := ns;
    if e.t < |s.roles| {
      assert Placed(s.lock.pcs[e.t], s.roles[e.t], s.body[e.t]);
      match e {
        case Spurious(t) => LockStepSim(s, f, ns, t, L.Spurious(t));
        case Run(t, wake, _) =>
          if s.lock.pcs[t] == L.Inside && !s.body[t].Done? {
            ns' := NextNodes(ns, s.body[t]);
            BodyStepSim(s, f, ns, e);
          } else if s.lock.pcs[t] == L.Outside && s.body[t].Done? {
            ReturnStepSim(s, f, ns, e);
          } else {
            LockStepSim(s, f, ns, t, L.Run(t, wake));
          }
      }
    }
  }

  /** Linearizability: for either lock, any number of clients and any schedule, the run of
      the queue is a run of the atomic bounded FIFO with the same calls and results, in
      which each call takes effect between its start and its return. */
  lemma {:induction false} RunRefinesFifo(s: State, max: nat, sched: seq<Event>) returns (ns: seq<int>)
    requires Initial(s, max)
    ensures Sim(Exec(s, sched), AtomicFifo.Exec(InitialFifo(max, s.roles), Trace(s, sched)), ns)
    decreases |sched|
  {
    if sched == [] {
      InitialMatched(max, s.roles);
      L.LockSafe(s.lock, []);
      ns := [];
      forall t: nat ensures !L.IsHolder(s.lock, t) {
      }
    } else {
      var k := |sched| - 1;
      ns := RunRefinesFifo(s, max, sched[..k]);
      var r := Exec(s, sched[..k]);
      var tr := Trace(s, sched[..k]);
      var f0 := InitialFifo(max, s.roles);
      ns := StepSim(r, AtomicFifo.Exec(f0, tr), ns, sched[k]);
      if StepVisible(r, sched[k]) {
        ExecSnoc(f0, tr, sched[k].t);
      } else {
        assert tr + [] == tr;
      }
    }
  }

  /** In every run: no assertion fails and no freed or unallocated node is touched; the
      counter never exceeds its bound; when the lock is free the heap holds exactly the
      values added and not yet got, in order. */
  lemma LockedQueueSafe(s: State, max: nat, sched: seq<Event>) returns (ns: seq<int>)
    requires Initial(s, max)
    ensures var r := Exec(s, sched);
            var f := AtomicFifo.Exec(InitialFifo(max, s.roles), Trace(s, sched));
            && (forall t :: 0 <= t < |r.body| ==> r.body[t] != Fault)
            && f.got + f.contents == f.added
            && (r.lock.word == r.lock.cfg.free ==> Represents(r.q, ns, f.contents))
  {
    ns := RunRefinesFifo(s, max, sched);
    InitialMatched(max, s.roles);
    FifoConservation(InitialFifo(max, s.roles), Trace(s, sched));
    var r := Exec(s, sched);
    assert r.lock.word == r.lock.cfg.free ==> forall t: nat :: !L.IsHolder(r.lock, t);
    forall t | 0 <= t < |r.body| ensures r.body[t] != Fault {
      assert Suits(r.roles[t], r.body[t]);
    }
  }

  /** With one writer and one reader the reader never reports a value out of order. */
  lemma LockedQueueInOrder(s: State, max: nat, sched: seq<Event>, w: nat, rd: nat)
    requires Initial(s, max) && |s.roles| == 2 && w < 2 && rd == 1 - w
    requires s.roles[w] == Writer(0) && s.roles[rd] == Reader(0, false)
    ensures var r := Exec(s, sched); r.roles[rd].Reader? && !r.roles[rd].bad
  {
    var ns := RunRefinesFifo(s, max, sched);
    InitialMatched(max, s.roles);
    OrderCheckNeverFires(InitialFifo(max, s.roles), w, rd, Trace(s, sched));
  }

  // The thread the lock lets move has a step of its call to make, if not of the lock.
  lemma MoverMoves(s: State, f: Fifo, ns: seq<int>, t: nat) returns (e: Event)
    requires Sim(s, f, ns) && t < |s.roles| && L.StepOf(s.lock, L.Run(t, 0)) != s.lock
    ensures e.Run? && e.t == t && StepOf(s, e) != s
  {
    var a := FreshAddress(s.q.heap.Keys);
    e := Run(t, 0, Malloc(a, Cell(0, 0)));
    if s.lock.pcs[t] == L.Inside && !s.body[t].Done? {
      assert L.IsHolder(s.lock, t);
      assert InBody(s.q, f, ns, s.body[t], ValueOf(s.roles[t]));
      BodyAdvances(s.q, s.body[t], ValueOf(s.roles[t]), e.m);
      assert StepOf(s, e).body[t] != s.body[t];
    } else if s.lock.pcs[t] == L.Outside && s.body[t].Done? {
      assert StepOf(s, e).body[t] != s.body[t];
    }
  }

  /** Deadlock freedom, for either lock and any clients: in every reachable state some thread
      can make a step that is not a spurious wake-up. */
  lemma NeverStuck(s: State, max: nat, sched: seq<Event>) returns (e: Event)
    requires Initial(s, max) && |s.roles| > 0
    ensures e.Run? && StepOf(Exec(s, sched), e) != Exec(s, sched)
  {
    var ns := RunRefinesFifo(s, max, sched);
    var r := Exec(s, sched);
    var t := L.Mover(r.lock);
    e := MoverMoves(r, AtomicFifo.Exec(InitialFifo(max, s.roles), Trace(s, sched)), ns, t);
  }

  // With the lock free the statistics are exact: attempts and successes of either operation.
  lemma StatisticsExact(s: State, max: nat, sched: seq<Event>)
    requires Initial(s, max) && Exec(s, sched).lock.word == Exec(s, sched).lock.cfg.free
    ensures var q := Exec(s, sched).q;
            var f := AtomicFifo.Exec(InitialFifo(max, s.roles), Trace(s, sched));
            && q.addAttempts == f.adds && q.getAttempts == f.gets
            && q.addCount == |f.added| && q.getCount == |f.got|
  {
    var ns := RunRefinesFifo(s, max, sched);
    assert forall t: nat :: !L.IsHolder(Exec(s, sched).lock, t);
  }
}
