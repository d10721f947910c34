/** lab2/2/f-cond_var: the queue under a mutex, one condition variable and the turn flag
    `operation`, any number of readers and writers, spurious wake-ups included. */
module TurnQueue {
  import opened AtomicFifo
  import opened QueueBody
  import opened QueueClients
  import opened Wakeups

  datatype Turn = READ | WRITE

  // Where a thread stands in `queue_add` (lines 80-120) or `queue_get` (lines 124-152).
  datatype Place =
    | AtLock    // pthread_mutex_lock
    | AtTest    // holds the mutex, about to test `operation`
    | Asleep    // in pthread_cond_wait, mutex released
    | AtRelock  // woken, has to get the mutex back
    | Critical  // its turn: executing the body
    | AtTurn    // about to set `operation`
    | AtSignal  // about to call pthread_cond_signal
    | AtUnlock
    | AtReturn

  datatype State = State(
    op: Turn, holder: Option<nat>, q: Queue,
    roles: seq<Role>, body: seq<Pc>, at: seq<Place>)

  /** Which thread moves, whom the signal wakes (should it matter) and what malloc answers;
      or a wait that returns without a signal. */
  datatype Event = Run(t: nat, wake: nat, m: Malloc) | Spurious(t: nat)

  predicate Sized(s: State) {
    |s.roles| == |s.body| == |s.at|
  }

  function TurnOf(role: Role): Turn {
    if role.Writer? then WRITE else READ
  }

  function Other(turn: Turn): Turn {
    if turn == READ then WRITE else READ
  }

  predicate Blocked(s: State, t: nat)
    requires Sized(s) && t < |s.roles|
  {
    s.at[t].Asleep? || ((s.at[t].AtLock? || s.at[t].AtRelock?) && s.holder.Some?)
  }

  function StepOf(s: State, e: Event): (s': State)
    requires Sized(s)
    ensures Sized(s') && |s'.roles| == |s.roles|
  {
    if e.t >= |s.roles| then s else
    var t := e.t;
    match e
    case Spurious(_) => if s.at[t].Asleep? then s.(at := s.at[t := AtRelock]) else s
    case Run(_, wake, m) =>
      if Blocked(s, t) then s else
      var mine := TurnOf(s.roles[t]);
      match s.at[t]
      case AtLock => s.(holder := Some(t), at := s.at[t := AtTest])
      case AtRelock => s.(holder := Some(t), at := s.at[t := AtTest])
      case AtTest =>
        if s.op != mine then s.(holder := None, at := s.at[t := Asleep])
        else s.(at := s.at[t := Critical])
      case Critical =>
        if s.body[t].Done? then s.(at := s.at[t := AtTurn])
        else
          var (q', pc') := QueueBody.StepOf(s.q, s.body[t], ValueOf(s.roles[t]), m);
          s.(q := q', body := s.body[t := pc'])
      case AtTurn => s.(op := Other(mine), at := s.at[t := AtSignal])
      case AtSignal =>
        // one sleeper goes on to get the mutex back
        s.(at := WakeOne(s.at[t := AtUnlock], Asleep, AtRelock, wake))
      case AtUnlock => s.(holder := None, at := s.at[t := AtReturn])
      case AtReturn =>
        var role' :=
          if s.body[t].Done? then AfterReturn(s.roles[t], s.body[t].ok, s.body[t].val) else s.roles[t];
        s.(roles := s.roles[t := role'], body := s.body[t := Start(role')], at := s.at[t := AtLock])
      case Asleep => s
  }

  function Exec(s: State, sched: seq<Event>): (s': State)
    requires Sized(s)
    ensures Sized(s') && |s'.roles| == |s.roles|
    decreases |sched|
  {
    if sched == [] then s
    else
      var k := |sched| - 1;
      StepOf(Exec(s, sched[..k]), sched[k])
  }

  // Line 12 and queue_init, lines 30-45.
  predicate Initial(s: State, max: nat) {
    && Sized(s) && s.op == WRITE && s.holder == None && s.q == Init(max)
    && FreshRoles(s.roles) && s.body == Starts(s.roles)
    && (forall t :: 0 <= t < |s.at| ==> s.at[t] == AtLock)
  }

  predicate StepVisible(s: State, e: Event)
    requires Sized(s)
  {
    e.t < |s.roles| && Visible(s.body[e.t], StepOf(s, e).body[e.t])
  }

  // The atomic steps of a run.
  function Trace(s: State, sched: seq<Event>): seq<nat>
    requires Sized(s)
    decreases |sched|
  {
    if sched == [] then []
    else
      var k := |sched| - 1;
      Trace(s, sched[..k]) + if StepVisible(Exec(s, sched[..k]), sched[k]) then [sched[k].t] else []
  }

  // The order in which attempts, successful or not, take effect in a run.
  function Attempts(s: State, sched: seq<Event>): seq<Turn>
    requires Sized(s)
    decreases |sched|
  {
    if sched == [] then []
    else
      var k := |sched| - 1;
      var r := Exec(s, sched[..k]);
      Attempts(s, sched[..k])
      + if StepVisible(r, sched[k]) && Outcome(r.body[sched[k].t]) == Pending
        then [TurnOf(r.roles[sched[k].t])] else []
  }

  // ---------- simulation ----------

  predicate HoldsMutex(at: Place) {
    at.AtTest? || at.Critical? || at.AtTurn? || at.AtSignal? || at.AtUnlock?
  }

  predicate Placed(at: Place, role: Role, pc: Pc) {
    match at
    case Critical => true
    case AtTurn => pc.Done?
    case AtSignal => pc.Done?
    case AtUnlock => pc.Done?
    case AtReturn => pc.Done?
    case _ => pc == Start(role)
  }

  /** Whose turn it is by the work done: `operation` lags behind while a thread stands
      between the effect of its call and line 116. */
  function Due(s: State): Turn
    requires Sized(s)
  {
    if s.holder.Some? && s.holder.value < |s.roles|
       && (s.at[s.holder.value].Critical? || s.at[s.holder.value].AtTurn?)
       && Outcome(s.body[s.holder.value]) != Pending
    then Other(s.op) else s.op
  }

  // With room for one value, the queue holds one exactly when a read is due; without, none.
  predicate Filled(max: nat, due: Turn, c: seq<int>) {
    |c| == if max >= 1 && due == READ then 1 else 0
  }

  ghost predicate QueueInOrder(s: State, f: Fifo, ns: seq<int>)
    requires Sized(s)
  {
    && (s.holder.Some? ==> s.holder.value < |s.roles|)
    && (forall t: nat :: t < |s.roles| ==> (HoldsMutex(s.at[t]) <==> s.holder == Some(t)))
    && match s.holder
       case None => InQueue(s.q, f, ns)
       case Some(h) => InBody(s.q, f, ns, s.body[h], ValueOf(s.roles[h]))
  }

  // A thread executes its body only in its turn, and calls succeed exactly if there is room.
  predicate TurnKept(s: State, t: nat)
    requires Sized(s) && t < |s.roles|
  {
    && (s.at[t].Critical? || s.at[t].AtTurn? ==> s.op == TurnOf(s.roles[t]))
    && (Outcome(s.body[t]).Returned? ==> (Outcome(s.body[t]).ok <==> s.q.max >= 1))
  }

  ghost predicate Sim(s: State, f: Fifo, ns: seq<int>) {
    && Sized(s)
    && Views(f, s.roles, s.body) && AllSuit(s.roles, s.body) && f.max == s.q.max
    && (forall t :: 0 <= t < |s.roles| ==> Placed(s.at[t], s.roles[t], s.body[t]))
    && QueueInOrder(s, f, ns)
    && (forall t :: 0 <= t < |s.roles| ==> TurnKept(s, t))
    && Filled(s.q.max, Due(s), f.contents)
  }

  lemma BodyStepSim(s: State, f: Fifo, ns: seq<int>, e: Event)
    requires Sim(s, f, ns) && e.Run? && e.t < |s.roles| && s.at[e.t].Critical? && !s.body[e.t].Done?
    ensures Sim(StepOf(s, e), Follow(f, e.t, StepVisible(s, e)), NextNodes(ns, s.body[e.t]))
  {
    var t := e.t;
    assert s.holder == Some(t) && TurnKept(s, t);
    BodyMatched(f, s.q, ns, s.roles, s.body, t, e.m);
    BodyStep(s.q, ns, f.contents, s.body[t], s.roles[t], e.m);
    assert f.clients[t] == Client(s.roles[t], Outcome(s.body[t]));
    EffectFills(s, f, ns, e);
    var s' := StepOf(s, e);
    forall u | 0 <= u < |s.roles| ensures TurnKept(s', u) {
      assert TurnKept(s, u);
    }
  }

  // A call that takes effect fills or empties the queue, and makes the other turn due.
  lemma EffectFills(s: State, f: Fifo, ns: seq<int>, e: Event)
    requires Sim(s, f, ns) && e.Run? && e.t < |s.roles| && s.at[e.t].Critical? && !s.body[e.t].Done?
    ensures var s' := StepOf(s, e);
            var f' := Follow(f, e.t, StepVisible(s, e));
            && Filled(s.q.max, Due(s'), f'.contents)
            && (Outcome(s'.body[e.t]).Returned? ==> (Outcome(s'.body[e.t]).ok <==> s.q.max >= 1))
  {
    var t := e.t;
    assert s.holder == Some(t) && TurnKept(s, t);
    BodyStep(s.q, ns, f.contents, s.body[t], s.roles[t], e.m);
    assert f.clients[t] == Client(s.roles[t], Outcome(s.body[t]));
  }

  // Steps that touch neither the queue nor a call: getting and giving up the mutex,
  lemma MutexStepSim(s: State, f: Fifo, ns: seq<int>, e: Event)
    requires Sim(s, f, ns) && e.Run? && e.t < |s.roles| && !Blocked(s, e.t)
    requires s.at[e.t].AtLock? || s.at[e.t].AtRelock? || s.at[e.t].AtTest? || s.at[e.t].AtUnlock?
    ensures Sim(StepOf(s, e), f, ns) && !StepVisible(s, e)
  {
    var t := e.t;
    var s' := StepOf(s, e);
    assert Placed(s.at[t], s.roles[t], s.body[t]) && TurnKept(s, t);
    BodyEdges(s.q, f, ns, s.body[t], s.roles[t], ValueOf(s.roles[t]));
    forall u | 0 <= u < |s.roles| ensures TurnKept(s', u) {
      assert TurnKept(s, u);
    }
  }

  // passing the turn on,
  lemma TurnStepSim(s: State, f: Fifo, ns: seq<int>, e: Event)
    requires Sim(s, f, ns) && e.Run? && e.t < |s.roles|
    requires s.at[e.t].AtTurn? || (s.at[e.t].Critical? && s.body[e.t].Done?)
    ensures Sim(StepOf(s, e), f, ns) && !StepVisible(s, e)
  {
    var t := e.t;
    var s' := StepOf(s, e);
    assert Placed(s.at[t], s.roles[t], s.body[t]) && TurnKept(s, t);
    forall u | 0 <= u < |s.roles| ensures TurnKept(s', u) {
      assert TurnKept(s, u);
      assert u != t && HoldsMutex(s.at[u]) ==> s.holder == Some(u);
    }
  }

  // and waking up for no reason.
  lemma SpuriousStepSim(s: State, f: Fifo, ns: seq<int>, e: Event)
    requires Sim(s, f, ns) && e.Spurious? && e.t < |s.roles|
    ensures Sim(StepOf(s, e), f, ns) && !StepVisible(s, e)
  {
    var s' := StepOf(s, e);
    assert Placed(s.at[e.t], s.roles[e.t], s.body[e.t]);
    forall u | 0 <= u < |s.roles| ensures TurnKept(s', u) {
      assert TurnKept(s, u);
    }
  }

  lemma SignalStepSim(s: State, f: Fifo, ns: seq<int>, e: Event)
    requires Sim(s, f, ns) && e.Run? && e.t < |s.roles| && s.at[e.t].AtSignal?
    ensures Sim(StepOf(s, e), f, ns) && !StepVisible(s, e)
  {
    var s' := StepOf(s, e);
    forall u | 0 <= u < |s.roles|
      ensures TurnKept(s', u) && Placed(s'.at[u], s.roles[u], s.body[u])
      ensures HoldsMutex(s'.at[u]) <==> HoldsMutex(s.at[u])
    {
      assert TurnKept(s, u) && Placed(s.at[u], s.roles[u], s.body[u]);
    }
  }

  lemma ReturnStepSim(s: State, f: Fifo, ns: seq<int>, e: Event)
    requires Sim(s, f, ns) && e.Run? && e.t < |s.roles| && s.at[e.t].AtReturn?
    ensures Sim(StepOf(s, e), Follow(f, e.t, StepVisible(s, e)), ns)
  {
    var s' := StepOf(s, e);
    assert Placed(s.at[e.t], s.roles[e.t], s.body[e.t]);
    ReturnMatched(f, s.roles, s.body, e.t);
    forall u | 0 <= u < |s.roles| ensures TurnKept(s', u) {
      assert TurnKept(s, u);
    }
  }

  lemma StepSim(s: State, f: Fifo, ns: seq<int>, e: Event) returns (ns': seq<int>)
    requires Sim(s, f, ns)
    ensures Sim(StepOf(s, e), Follow(f, e.t, StepVisible(s, e)), ns')
  {
    ns' := ns;
    if e.t < |s.roles| {
      if e.Spurious? {
        SpuriousStepSim(s, f, ns, e);
      } else if !Blocked(s, e.t) {
        if s.at[e.t].AtReturn? {
          ReturnStepSim(s, f, ns, e);
        } else if s.at[e.t].AtSignal? {
          SignalStepSim(s, f, ns, e);
        } else if s.at[e.t].Critical? && !s.body[e.t].Done? {
          ns' := NextNodes(ns, s.body[e.t]);
          BodyStepSim(s, f, ns, e);
        } else if s.at[e.t].AtTurn? || s.at[e.t].Critical? {
          TurnStepSim(s, f, ns, e);
        } else {
          MutexStepSim(s, f, ns, e);
        }
      }
    }
  }

  // Every run of the turn queue is a run of the atomic bounded FIFO.
  lemma {:induction false} RunRefinesFifo(s: State, max: nat, sched: seq<Event>) returns (ns: seq<int>)
    requires Initial(s, max)
    ensures Sim(Exec(s, sched), AtomicFifo.Exec(InitialFifo(max, s.roles), Trace(s, sched)), ns)
    decreases |sched|
  {
    if sched == [] {
      InitialMatched(max, s.roles);
      ns := [];
    } else {
      var k := |sched| - 1;
      ns := RunRefinesFifo(s, max, sched[..k]);
      var r := Exec(s, sched[..k]);
      var tr := Trace(s, sched[..k]);
      var f0 := InitialFifo(max, s.roles);
      ns := StepSim(r, AtomicFifo.Exec(f0, tr), ns, sched[k]);
      if StepVisible(r, sched[k]) {
        ExecSnoc(f0, tr, sched[k].t);
      } else {
        assert tr + [] == tr;
      }
    }
  }

  // ---------- alternation ----------

  function TurnAt(i: nat): Turn {
    if i % 2 == 0 then WRITE else READ
  }

  // An attempt takes effect in its turn and passes the turn on; other steps keep the turn.
  lemma DueMoves(s: State, f: Fifo, ns: seq<int>, e: Event)
    requires Sim(s, f, ns)
    ensures var s' := StepOf(s, e);
            if StepVisible(s, e) && Outcome(s.body[e.t]) == Pending
            then Due(s) == TurnOf(s.roles[e.t]) && Due(s') == Other(Due(s))
            else Due(s') == Due(s)
  {
    if e.t < |s.roles| {
      var t := e.t;
      assert Placed(s.at[t], s.roles[t], s.body[t]) && TurnKept(s, t);
      assert HoldsMutex(s.at[t]) <==> s.holder == Some(t);
      if s.holder.Some? {
        assert HoldsMutex(s.at[s.holder.value]);
      }
    }
  }

  predicate Alternates(a: seq<Turn>) {
    forall i :: 0 <= i < |a| ==> a[i] == TurnAt(i)
  }

  lemma AlternatesMore(a: seq<Turn>, turn: Turn)
    requires Alternates(a) && turn == TurnAt(|a|)
    ensures Alternates(a + [turn]) && Other(turn) == TurnAt(|a + [turn]|)
  {
  }

  lemma {:induction false} AttemptsTurns(s: State, max: nat, sched: seq<Event>)
    requires Initial(s, max)
    ensures Alternates(Attempts(s, sched))
    ensures Due(Exec(s, sched)) == TurnAt(|Attempts(s, sched)|)
    decreases |sched|
  {
    if sched != [] {
      var k := |sched| - 1;
      AttemptsTurns(s, max, sched[..k]);
      var ns := RunRefinesFifo(s, max, sched[..k]);
      var r := Exec(s, sched[..k]);
      DueMoves(r, AtomicFifo.Exec(InitialFifo(max, s.roles), Trace(s, sched[..k])), ns, sched[k]);
      var a := Attempts(s, sched[..k]);
      if StepVisible(r, sched[k]) && Outcome(r.body[sched[k].t]) == Pending {
        AlternatesMore(a, Due(r));
      } else {
        assert a + [] == a;
      }
    }
  }

  /** Strict alternation, for any number of readers and writers: attempts take effect in the
      order add, get, add, get, ..., and with the mutex free `operation` says whose turn is
      next. */
  lemma StrictAlternation(s: State, max: nat, sched: seq<Event>)
    requires Initial(s, max)
    ensures var a := Attempts(s, sched);
            && Alternates(a)
            && (Exec(s, sched).holder.None? ==> Exec(s, sched).op == TurnAt(|a|))
  {
    AttemptsTurns(s, max, sched);
  }

  /** With the mutex free, `count` is 1 exactly if the capacity is positive and `operation`
      is READ, and 0 otherwise; and a call succeeds exactly if the capacity is positive. */
  lemma CountFollowsTurn(s: State, max: nat, sched: seq<Event>, t: nat)
    requires Initial(s, max) && t < |s.roles|
    ensures var r := Exec(s, sched);
            && (r.holder.None? ==> r.q.count == if max >= 1 && r.op == READ then 1 else 0)
            && r.body[t] != Fault
            && (Outcome(r.body[t]).Returned? ==> (Outcome(r.body[t]).ok <==> max >= 1))
  {
    var ns := RunRefinesFifo(s, max, sched);
    var r := Exec(s, sched);
    assert TurnKept(r, t) && Suits(r.roles[t], r.body[t]);
  }

  // With one writer and one reader the reader never reports a value out of order.
  lemma TurnQueueInOrder(s: State, max: nat, sched: seq<Event>, w: nat, rd: nat)
    requires Initial(s, max) && |s.roles| == 2 && w < 2 && rd == 1 - w
    requires s.roles[w] == Writer(0) && s.roles[rd] == Reader(0, false)
    ensures var r := Exec(s, sched); r.roles[rd].Reader? && !r.roles[rd].bad
  {
    var ns := RunRefinesFifo(s, max, sched);
    InitialMatched(max, s.roles);
    OrderCheckNeverFires(InitialFifo(max, s.roles), w, rd, Trace(s, sched));
  }

  // ---------- no lost wake-up ----------

  predicate OnePair(s: State, w: nat, g: nat)
    requires Sized(s)
  {
    |s.roles| == 2 && w < 2 && g == 1 - w && s.roles[w].Writer? && s.roles[g].Reader?
  }

  // A thread asleep in its own turn is about to be signalled by the other.
  predicate WakePending(s: State, t: nat, u: nat)
    requires Sized(s) && t < |s.roles| && u < |s.roles|
  {
    s.at[t].Asleep? && s.op == TurnOf(s.roles[t]) ==> s.at[u].AtSignal?
  }

  lemma WakePendingKept(s: State, f: Fifo, ns: seq<int>, e: Event, t: nat, u: nat)
    requires Sim(s, f, ns) && |s.roles| == 2 && t < 2 && u == 1 - t
    requires TurnOf(s.roles[t]) != TurnOf(s.roles[u]) && WakePending(s, t, u)
    ensures WakePending(StepOf(s, e), t, u)
    ensures TurnOf(StepOf(s, e).roles[t]) == TurnOf(s.roles[t])
    ensures TurnOf(StepOf(s, e).roles[u]) == TurnOf(s.roles[u])
  {
    assert TurnKept(s, t) && TurnKept(s, u);
    if e.Run? && e.t == u && s.at[u].AtSignal? && s.at[t].Asleep? {
      var at := s.at[u := AtUnlock];
      assert at[t].Asleep?;
      assert Sleeper(at, Asleep, e.wake) == t;
    }
  }

  lemma {:induction false} PairWakes(s: State, max: nat, sched: seq<Event>, w: nat, g: nat)
    requires Initial(s, max) && OnePair(s, w, g)
    ensures var r := Exec(s, sched);
            OnePair(r, w, g) && WakePending(r, w, g) && WakePending(r, g, w)
    decreases |sched|
  {
    if sched != [] {
      var k := |sched| - 1;
      PairWakes(s, max, sched[..k], w, g);
      var ns := RunRefinesFifo(s, max, sched[..k]);
      var r := Exec(s, sched[..k]);
      var f := AtomicFifo.Exec(InitialFifo(max, s.roles), Trace(s, sched[..k]));
      WakePendingKept(r, f, ns, sched[k], w, g);
      WakePendingKept(r, f, ns, sched[k], g, w);
    }
  }

  lemma SomeoneUnblocked(s: State, f: Fifo, ns: seq<int>, w: nat, g: nat) returns (t: nat)
    requires Sim(s, f, ns) && OnePair(s, w, g) && WakePending(s, w, g) && WakePending(s, g, w)
    ensures t < |s.roles| && !Blocked(s, t)
  {
    if s.holder.Some? {
      t := s.holder.value;
      assert HoldsMutex(s.at[t]);
    } else {
      t := if s.at[w].Asleep? then g else w;
    }
  }

  lemma UnblockedMoves(s: State, f: Fifo, ns: seq<int>, t: nat) returns (e: Event)
    requires Sim(s, f, ns) && t < |s.roles| && !Blocked(s, t)
    ensures e.Run? && e.t == t && StepOf(s, e) != s
  {
    var a := FreshAddress(s.q.heap.Keys);
    e := Run(t, t, Malloc(a, Cell(0, 0)));
    if s.at[t].Critical? && !s.body[t].Done? {
      assert HoldsMutex(s.at[t]);
      assert InBody(s.q, f, ns, s.body[t], ValueOf(s.roles[t]));
      BodyAdvances(s.q, s.body[t], ValueOf(s.roles[t]), e.m);
      assert StepOf(s, e).body[t] != s.body[t];
    } else {
      assert StepOf(s, e).at[t] != s.at[t];
    }
  }

  /** No lost wake-up: with exactly one reader and one writer the two are never both asleep,
      and in every reachable state one of them can make a step that is not a spurious
      wake-up. */
  lemma NeverStuck(s: State, max: nat, sched: seq<Event>, w: nat, g: nat) returns (e: Event)
    requires Initial(s, max) && OnePair(s, w, g)
    ensures var r := Exec(s, sched);
            && !(r.at[w].Asleep? && r.at[g].Asleep?)
            && e.Run? && StepOf(r, e) != r
  {
    PairWakes(s, max, sched, w, g);
    var ns := RunRefinesFifo(s, max, sched);
    var r := Exec(s, sched);
    var f := AtomicFifo.Exec(InitialFifo(max, s.roles), Trace(s, sched));
    var t := SomeoneUnblocked(r, f, ns, w, g);
    e := UnblockedMoves(r, f, ns, t);
  }

  // With the mutex free the statistics are exact: attempts and successes of either operation.
  lemma StatisticsExact(s: State, max: nat, sched: seq<Event>)
    requires Initial(s, max) && Exec(s, sched).holder.None?
    ensures var q := Exec(s, sched).q;
            var f := AtomicFifo.Exec(InitialFifo(max, s.roles), Trace(s, sched));
            && q.addAttempts == f.adds && q.getAttempts == f.gets
            && q.addCount == |f.added| && q.getCount == |f.got|
  {
    var ns := RunRefinesFifo(s, max, sched);
  }
}
