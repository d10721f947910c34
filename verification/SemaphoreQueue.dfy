/** lab2/2/g-semaphore: the queue under a mutex and two counting semaphores, any number of
    adders and getters. */
module SemaphoreQueue {
  import opened AtomicFifo
  import opened QueueBody
  import opened QueueClients

  // Where a thread stands in `queue_add` (lines 91-126) or `queue_get` (lines 131-154).
  datatype Place =
    | AtWait    // sem_wait
    | AtLock    // pthread_mutex_lock
    | Critical  // holds the mutex
    | AtPost    // unlocked; sem_post
    | AtReturn

  datatype State = State(
    space: nat, items: nat, holder: Option<nat>, q: Queue,
    roles: seq<Role>, body: seq<Pc>, at: seq<Place>)

  datatype Event = Run(t: nat, m: Malloc)

  predicate Sized(s: State) {
    |s.roles| == |s.body| == |s.at|
  }

  // Is thread t waiting for a semaphore at zero or for the mutex?
  predicate Blocked(s: State, t: nat)
    requires Sized(s) && t < |s.roles|
  {
    match s.at[t]
    case AtWait => (if s.roles[t].Writer? then s.space else s.items) == 0
    case AtLock => s.holder.Some?
    case _ => false
  }

  function StepOf(s: State, e: Event): (s': State)
    requires Sized(s)
    ensures Sized(s') && |s'.roles| == |s.roles|
  {
    if e.t >= |s.roles| || Blocked(s, e.t) then s else
    var t := e.t;
    var adds := s.roles[t].Writer?;
    match s.at[t]
    case AtWait =>
      var s1 := s.(at := s.at[t := AtLock]);
      if adds then s1.(space := s.space - 1) else s1.(items := s.items - 1)
    case AtLock => s.(holder := Some(t), at := s.at[t := Critical])
    case Critical =>
      if s.body[t].Done? then s.(holder := None, at := s.at[t := AtPost])
      else
        var (q', pc') := QueueBody.StepOf(s.q, s.body[t], ValueOf(s.roles[t]), e.m);
        s.(q := q', body := s.body[t := pc'])
    case AtPost =>
      // an add posts an item and a get a space, even on the way out of a failed call
      var s1 := s.(at := s.at[t := AtReturn]);
      if adds then s1.(items := s.items + 1) else s1.(space := s.space + 1)
    case AtReturn =>
      var role' :=
        if s.body[t].Done? then AfterReturn(s.roles[t], s.body[t].ok, s.body[t].val) else s.roles[t];
      s.(roles := s.roles[t := role'], body := s.body[t := Start(role')], at := s.at[t := AtWait])
  }

  function Exec(s: State, sched: seq<Event>): (s': State)
    requires Sized(s)
    ensures Sized(s') && |s'.roles| == |s.roles|
    decreases |sched|
  {
    if sched == [] then s
    else
      var k := |sched| - 1;
      StepOf(Exec(s, sched[..k]), sched[k])
  }

  // queue_init: lines 30-47.
  predicate Initial(s: State, max: nat) {
    && Sized(s) && s.space == max && s.items == 0 && s.holder == None && s.q == Init(max)
    && FreshRoles(s.roles) && s.body == Starts(s.roles)
    && (forall t :: 0 <= t < |s.at| ==> s.at[t] == AtWait)
  }

  predicate StepVisible(s: State, e: Event)
    requires Sized(s)
  {
    e.t < |s.roles| && Visible(s.body[e.t], StepOf(s, e).body[e.t])
  }

  // The atomic steps of a run.
  function Trace(s: State, sched: seq<Event>): seq<nat>
    requires Sized(s)
    decreases |sched|
  {
    if sched == [] then []
    else
      var k := |sched| - 1;
      Trace(s, sched[..k]) + if StepVisible(Exec(s, sched[..k]), sched[k]) then [sched[k].t] else []
  }

  // ---------- tokens ----------

  function Count(b: seq<bool>): nat {
    if b == [] then 0 else (if b[0] then 1 else 0) + Count(b[1..])
  }

  lemma {:induction false} CountUpdate(b: seq<bool>, t: nat, v: bool)
    requires t < |b|
    ensures Count(b[t := v]) + (if b[t] then 1 else 0) == Count(b) + (if v then 1 else 0)
  {
    if t == 0 {
      assert b[t := v][1..] == b[1..];
    } else {
      assert b[t := v][1..] == b[1..][t - 1 := v];
      CountUpdate(b[1..], t - 1, v);
    }
  }

  lemma {:induction false} CountZero(b: seq<bool>)
    ensures Count(b) == 0 <==> forall t :: 0 <= t < |b| ==> !b[t]
  {
    if b != [] {
      CountZero(b[1..]);
      if forall t :: 0 <= t < |b| ==> !b[t] {
        forall t | 0 <= t < |b| - 1 ensures !b[1..][t] {
          assert !b[t + 1];
        }
      } else if !b[0] {
        var t :| 0 <= t < |b| && b[t];
        assert b[1..][t - 1];
      }
    }
  }

  // A thread past its sem_wait whose call has not taken effect: it holds an unused token.
  predicate HoldsToken(pc: Pc, at: Place) {
    (at.AtLock? || at.Critical?) && Outcome(pc) == Pending
  }

  // A thread whose call has taken effect but which has not posted yet: it owes a token.
  predicate OwesToken(pc: Pc, at: Place) {
    (at.Critical? || at.AtPost?) && Outcome(pc) != Pending
  }

  // Per thread: an adder with an unused space token; a getter that has dequeued and not
  // posted; a getter with an unused item token; an adder that has enqueued and not posted.
  function SpaceUnused(s: State): (b: seq<bool>)
    requires Sized(s)
    ensures |b| == |s.roles|
  {
    seq(|s.roles|, t requires 0 <= t < |s.roles| =>
      s.roles[t].Writer? && HoldsToken(s.body[t], s.at[t]))
  }

  function SpaceOwed(s: State): (b: seq<bool>)
    requires Sized(s)
    ensures |b| == |s.roles|
  {
    seq(|s.roles|, t requires 0 <= t < |s.roles| =>
      s.roles[t].Reader? && OwesToken(s.body[t], s.at[t]))
  }

  function ItemUnused(s: State): (b: seq<bool>)
    requires Sized(s)
    ensures |b| == |s.roles|
  {
    seq(|s.roles|, t requires 0 <= t < |s.roles| =>
      s.roles[t].Reader? && HoldsToken(s.body[t], s.at[t]))
  }

  function ItemOwed(s: State): (b: seq<bool>)
    requires Sized(s)
    ensures |b| == |s.roles|
  {
    seq(|s.roles|, t requires 0 <= t < |s.roles| =>
      s.roles[t].Writer? && OwesToken(s.body[t], s.at[t]))
  }

  predicate Tokens(s: State, c: seq<int>)
    requires Sized(s)
  {
    && s.space + Count(SpaceUnused(s)) + |c| + Count(SpaceOwed(s)) == s.q.max
    && s.items + Count(ItemUnused(s)) + Count(ItemOwed(s)) == |c|
  }

  // ---------- simulation ----------

  // Where the body of the call stands at each place, and that no call has failed.
  predicate Placed(at: Place, role: Role, pc: Pc) {
    && (match at
        case AtWait => pc == Start(role)
        case AtLock => pc == Start(role)
        case Critical => true
        case _ => pc.Done?)
    && (Outcome(pc).Returned? ==> Outcome(pc).ok)
  }

  ghost predicate QueueInOrder(s: State, f: Fifo, ns: seq<int>)
    requires Sized(s)
  {
    && (s.holder.Some? ==> s.holder.value < |s.roles|)
    && (forall t: nat :: t < |s.roles| ==> (s.at[t].Critical? <==> s.holder == Some(t)))
    && match s.holder
       case None => InQueue(s.q, f, ns)
       case Some(h) => InBody(s.q, f, ns, s.body[h], ValueOf(s.roles[h]))
  }

  ghost predicate Sim(s: State, f: Fifo, ns: seq<int>) {
    && Sized(s)
    && Views(f, s.roles, s.body) && AllSuit(s.roles, s.body) && f.max == s.q.max
    && (forall t :: 0 <= t < |s.roles| ==> Placed(s.at[t], s.roles[t], s.body[t]))
    && QueueInOrder(s, f, ns)
    && Tokens(s, f.contents)
  }

  // How a step of thread t changes the four counts.
  lemma CountsFollow(s: State, t: nat, s': State)
    requires Sized(s) && Sized(s') && |s'.roles| == |s.roles| && t < |s.roles|
    requires s'.roles == s.roles[t := s'.roles[t]] && s'.body == s.body[t := s'.body[t]]
    requires s'.at == s.at[t := s'.at[t]] && s'.roles[t].Writer? == s.roles[t].Writer?
    ensures var h := if HoldsToken(s.body[t], s.at[t]) then 1 else 0;
            var h' := if HoldsToken(s'.body[t], s'.at[t]) then 1 else 0;
            var o := if OwesToken(s.body[t], s.at[t]) then 1 else 0;
            var o' := if OwesToken(s'.body[t], s'.at[t]) then 1 else 0;
            if s.roles[t].Writer? then
              && Count(SpaceUnused(s')) + h == Count(SpaceUnused(s)) + h'
              && Count(ItemOwed(s')) + o == Count(ItemOwed(s)) + o'
              && Count(SpaceOwed(s')) == Count(SpaceOwed(s))
              && Count(ItemUnused(s')) == Count(ItemUnused(s))
            else
              && Count(ItemUnused(s')) + h == Count(ItemUnused(s)) + h'
              && Count(SpaceOwed(s')) + o == Count(SpaceOwed(s)) + o'
              && Count(SpaceUnused(s')) == Count(SpaceUnused(s))
              && Count(ItemOwed(s')) == Count(ItemOwed(s))
  {
    CountUpdate(SpaceUnused(s), t, SpaceUnused(s')[t]);
    CountUpdate(SpaceOwed(s), t, SpaceOwed(s')[t]);
    CountUpdate(ItemUnused(s), t, ItemUnused(s')[t]);
    CountUpdate(ItemOwed(s), t, ItemOwed(s')[t]);
    assert SpaceUnused(s') == SpaceUnused(s)[t := SpaceUnused(s')[t]];
    assert SpaceOwed(s') == SpaceOwed(s)[t := SpaceOwed(s')[t]];
    assert ItemUnused(s') == ItemUnused(s)[t := ItemUnused(s')[t]];
    assert ItemOwed(s') == ItemOwed(s)[t := ItemOwed(s')[t]];
  }

  /** The full and the empty branch are unreachable: inside the critical section a thread's
      own unused token proves that there is room, or an item. */
  lemma RoomInside(s: State, f: Fifo, ns: seq<int>, t: nat)
    requires Sim(s, f, ns) && s.holder == Some(t) && Outcome(s.body[t]) == Pending
    ensures s.roles[t].Writer? ==> |f.contents| < s.q.max
    ensures s.roles[t].Reader? ==> f.contents != []
  {
    assert t < |s.roles| && s.at[t].Critical?;
    if s.roles[t].Writer? {
      assert SpaceUnused(s)[t];
      CountZero(SpaceUnused(s));
    } else {
      assert ItemUnused(s)[t];
      CountZero(ItemUnused(s));
    }
  }

  lemma BodyStepSim(s: State, f: Fifo, ns: seq<int>, e: Event)
    requires Sim(s, f, ns) && s.holder == Some(e.t) && e.t < |s.roles| && !s.body[e.t].Done?
    ensures Sim(StepOf(s, e), Follow(f, e.t, StepVisible(s, e)), NextNodes(ns, s.body[e.t]))
  {
    var t := e.t;
    var s' := StepOf(s, e);
    BodyMatched(f, s.q, ns, s.roles, s.body, t, e.m);
    CountsFollow(s, t, s');
    if Outcome(s.body[t]) == Pending {
      RoomInside(s, f, ns, t);
    }
    EffectCounts(s, f, ns, e);
  }

  // A call takes effect by moving its token into, or out of, the contents.
  lemma EffectCounts(s: State, f: Fifo, ns: seq<int>, e: Event)
    requires Sim(s, f, ns) && s.holder == Some(e.t) && e.t < |s.roles| && !s.body[e.t].Done?
    requires Outcome(s.body[e.t]) == Pending ==>
               if s.roles[e.t].Writer? then |f.contents| < s.q.max else f.contents != []
    ensures var t := e.t;
            var r := Outcome(s.body[t]);
            var r' := Outcome(StepOf(s, e).body[t]);
            var c' := Follow(f, t, StepVisible(s, e)).contents;
            && (r == r' ==> c' == f.contents)
            && (r != r' ==> r == Pending && r'.Returned? && r'.ok
                            && |c'| == if s.roles[t].Writer? then |f.contents| + 1 else |f.contents| - 1)
  {
    var t := e.t;
    BodyStep(s.q, ns, f.contents, s.body[t], s.roles[t], e.m);
    assert f.clients[t] == Client(s.roles[t], Outcome(s.body[t]));
  }

  lemma WaitStepSim(s: State, f: Fifo, ns: seq<int>, e: Event)
    requires Sim(s, f, ns) && e.t < |s.roles| && !Blocked(s, e.t) && s.at[e.t].AtWait?
    ensures Sim(StepOf(s, e), f, ns) && !StepVisible(s, e)
  {
    assert Placed(s.at[e.t], s.roles[e.t], s.body[e.t]);
    CountsFollow(s, e.t, StepOf(s, e));
  }

  lemma PostStepSim(s: State, f: Fifo, ns: seq<int>, e: Event)
    requires Sim(s, f, ns) && e.t < |s.roles| && s.at[e.t].AtPost?
    ensures Sim(StepOf(s, e), f, ns) && !StepVisible(s, e)
  {
    assert Placed(s.at[e.t], s.roles[e.t], s.body[e.t]);
    CountsFollow(s, e.t, StepOf(s, e));
  }

  lemma MutexStepSim(s: State, f: Fifo, ns: seq<int>, e: Event)
    requires Sim(s, f, ns) && e.t < |s.roles| && !Blocked(s, e.t)
    requires s.at[e.t].AtLock? || (s.at[e.t].Critical? && s.body[e.t].Done?)
    ensures Sim(StepOf(s, e), f, ns) && !StepVisible(s, e)
  {
    assert Placed(s.at[e.t], s.roles[e.t], s.body[e.t]);
    CountsFollow(s, e.t, StepOf(s, e));
    BodyEdges(s.q, f, ns, s.body[e.t], s.roles[e.t], ValueOf(s.roles[e.t]));
  }

  lemma ReturnStepSim(s: State, f: Fifo, ns: seq<int>, e: Event)
    requires Sim(s, f, ns) && e.t < |s.roles| && s.at[e.t].AtReturn?
    ensures Sim(StepOf(s, e), Follow(f, e.t, StepVisible(s, e)), ns)
  {
    assert Placed(s.at[e.t], s.roles[e.t], s.body[e.t]);
    ReturnMatched(f, s.roles, s.body, e.t);
    CountsFollow(s, e.t, StepOf(s, e));
  }

  lemma StepSim(s: State, f: Fifo, ns: seq<int>, e: Event) returns (ns': seq<int>)
    requires Sim(s, f, ns)
    ensures Sim(StepOf(s, e), Follow(f, e.t, StepVisible(s, e)), ns')
  {
    ns' := ns;
    if e.t < |s.roles| && !Blocked(s, e.t) {
      match s.at[e.t]
      case AtWait => WaitStepSim(s, f, ns, e);
      case AtLock => MutexStepSim(s, f, ns, e);
      case Critical =>
        if s.body[e.t].Done? {
          MutexStepSim(s, f, ns, e);
        } else {
          ns' := NextNodes(ns, s.body[e.t]);
          BodyStepSim(s, f, ns, e);
        }
      case AtPost => PostStepSim(s, f, ns, e);
      case AtReturn => ReturnStepSim(s, f, ns, e);
    }
  }

  lemma InitialSim(s: State, max: nat)
    requires Initial(s, max)
    ensures Sim(s, InitialFifo(max, s.roles), [])
  {
    InitialMatched(max, s.roles);
    CountZero(SpaceUnused(s));
    CountZero(SpaceOwed(s));
    CountZero(ItemUnused(s));
    CountZero(ItemOwed(s));
  }

  // Every run of the semaphore queue is a run of the atomic bounded FIFO.
  lemma {:induction false} RunRefinesFifo(s: State, max: nat, sched: seq<Event>) returns (ns: seq<int>)
    requires Initial(s, max)
    ensures Sim(Exec(s, sched), AtomicFifo.Exec(InitialFifo(max, s.roles), Trace(s, sched)), ns)
    decreases |sched|
  {
    if sched == [] {
      InitialSim(s, max);
      ns := [];
    } else {
      var k := |sched| - 1;
      ns := RunRefinesFifo(s, max, sched[..k]);
      var r := Exec(s, sched[..k]);
      var tr := Trace(s, sched[..k]);
      var f0 := InitialFifo(max, s.roles);
      ns := StepSim(r, AtomicFifo.Exec(f0, tr), ns, sched[k]);
      if StepVisible(r, sched[k]) {
        ExecSnoc(f0, tr, sched[k].t);
      } else {
        assert tr + [] == tr;
      }
    }
  }

  // `count` is the length of the contents at every point of the critical section.
  lemma CountIsLength(s: State, f: Fifo, ns: seq<int>)
    requires Sim(s, f, ns)
    ensures s.q.count == |f.contents|
  {
  }

  /** Token conservation, in every reachable state: the space semaphore, the adders holding
      an unused space token, the queued values and the getters that still owe a space add up
      to the capacity; the item semaphore, the getters holding an unused item token and the
      adders that still owe an item add up to the queued values. */
  lemma TokenConservation(s: State, max: nat, sched: seq<Event>)
    requires Initial(s, max)
    ensures var r := Exec(s, sched);
            && r.space + Count(SpaceUnused(r)) + r.q.count + Count(SpaceOwed(r)) == max
            && r.items + Count(ItemUnused(r)) + Count(ItemOwed(r)) == r.q.count
  {
    var ns := RunRefinesFifo(s, max, sched);
    CountIsLength(Exec(s, sched), AtomicFifo.Exec(InitialFifo(max, s.roles), Trace(s, sched)), ns);
  }

  /** Every call succeeds: no call ever takes the full or the empty branch, no assertion
      fails and no freed node is touched. */
  lemma EveryCallSucceeds(s: State, max: nat, sched: seq<Event>, t: nat)
    requires Initial(s, max) && t < |s.roles|
    ensures var pc := Exec(s, sched).body[t];
            pc != Fault && (Outcome(pc).Returned? ==> Outcome(pc).ok)
  {
    var ns := RunRefinesFifo(s, max, sched);
    var r := Exec(s, sched);
    assert Placed(r.at[t], r.roles[t], r.body[t]) && Suits(r.roles[t], r.body[t]);
  }

  lemma {:induction false} RolesStay(s: State, sched: seq<Event>, t: nat)
    requires Sized(s) && t < |s.roles|
    ensures Exec(s, sched).roles[t].Writer? == s.roles[t].Writer?
    decreases |sched|
  {
    if sched != [] {
      RolesStay(s, sched[..|sched| - 1], t);
    }
  }

  lemma SomeoneUnblocked(s: State, f: Fifo, ns: seq<int>, w: nat, g: nat) returns (t: nat)
    requires Sim(s, f, ns) && s.q.max >= 1
    requires w < |s.roles| && g < |s.roles| && s.roles[w].Writer? && s.roles[g].Reader?
    ensures t < |s.roles| && !Blocked(s, t)
  {
    if s.holder.Some? {
      t := s.holder.value;
      assert s.at[t].Critical?;
    } else if u: nat :| u < |s.roles| && !s.at[u].AtWait? {
      t := u;
    } else {
      CountZero(SpaceUnused(s));
      CountZero(SpaceOwed(s));
      CountZero(ItemUnused(s));
      CountZero(ItemOwed(s));
      t := if s.space > 0 then w else g;
    }
  }

  // A thread that is not blocked can make a real step.
  lemma UnblockedMoves(s: State, f: Fifo, ns: seq<int>, t: nat) returns (e: Event)
    requires Sim(s, f, ns) && t < |s.roles| && !Blocked(s, t)
    ensures e.t == t && StepOf(s, e) != s
  {
    var a := FreshAddress(s.q.heap.Keys);
    e := Run(t, Malloc(a, Cell(0, 0)));
    if s.at[t].Critical? && !s.body[t].Done? {
      assert InBody(s.q, f, ns, s.body[t], ValueOf(s.roles[t]));
      BodyAdvances(s.q, s.body[t], ValueOf(s.roles[t]), e.m);
      assert StepOf(s, e).body[t] != s.body[t];
    } else {
      assert StepOf(s, e).at[t] != s.at[t];
    }
  }

  /** Deadlock freedom: with room for at least one value, one adder and one getter, in every
      reachable state some thread can make a step. */
  lemma NeverStuck(s: State, max: nat, sched: seq<Event>, w: nat, g: nat) returns (e: Event)
    requires Initial(s, max) && max >= 1
    requires w < |s.roles| && g < |s.roles| && s.roles[w].Writer? && s.roles[g].Reader?
    ensures StepOf(Exec(s, sched), e) != Exec(s, sched)
  {
    var ns := RunRefinesFifo(s, max, sched);
    var r := Exec(s, sched);
    var f := AtomicFifo.Exec(InitialFifo(max, s.roles), Trace(s, sched));
    RolesStay(s, sched, w);
    RolesStay(s, sched, g);
    var t := SomeoneUnblocked(r, f, ns, w, g);
    e := UnblockedMoves(r, f, ns, t);
  }

  // With one adder and one getter the getter never reports a value out of order.
  lemma SemaphoreQueueInOrder(s: State, max: nat, sched: seq<Event>, w: nat, rd: nat)
    requires Initial(s, max) && |s.roles| == 2 && w < 2 && rd == 1 - w
    requires s.roles[w] == Writer(0) && s.roles[rd] == Reader(0, false)
    ensures var r := Exec(s, sched); r.roles[rd].Reader? && !r.roles[rd].bad
  {
    var ns := RunRefinesFifo(s, max, sched);
    InitialMatched(max, s.roles);
    OrderCheckNeverFires(InitialFifo(max, s.roles), w, rd, Trace(s, sched));
  }

  // With the mutex free the statistics are exact: attempts and successes of either operation.
  lemma StatisticsExact(s: State, max: nat, sched: seq<Event>)
    requires Initial(s, max) && Exec(s, sched).holder.None?
    ensures var q := Exec(s, sched).q;
            var f := AtomicFifo.Exec(InitialFifo(max, s.roles), Trace(s, sched));
            && q.addAttempts == f.adds && q.getAttempts == f.gets
            && q.addCount == |f.added| && q.getCount == |f.got|
  {
    var ns := RunRefinesFifo(s, max, sched);
  }
}
