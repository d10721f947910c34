/** What the turn queue's mutex, condition variable and turn flag let happen: who can move,
    exactly, whom a signal wakes, and that a single reader and a single writer never shut each
    other out. */
module TurnProgress {
  import A = AtomicFifo
  import B = QueueBody
  import opened QueueClients
  import opened TurnQueue
  import opened Wakeups

  // ---------- who can move, who wakes ----------

  // A step that is no spurious wake-up.
  ghost predicate CanStep(s: State, t: nat)
    requires Sized(s)
  {
    exists e: Event :: e.Run? && e.t == t && StepOf(s, e) != s
  }

  /** In every run a thread that wants the mutex can move exactly if nobody holds it, a
      sleeper not at all, and any other thread always. */
  lemma CanStepIff(s: State, max: nat, sched: seq<Event>, t: nat)
    requires Initial(s, max) && t < |s.roles|
    ensures var r := Exec(s, sched);
            CanStep(r, t) <==>
              match r.at[t]
              case AtLock => r.holder == None
              case AtRelock => r.holder == None
              case Asleep => false
              case _ => true
  {
    var ns := RunRefinesFifo(s, max, sched);
    var r := Exec(s, sched);
    if !Blocked(r, t) {
      var e := UnblockedMoves(r, A.Exec(InitialFifo(max, s.roles), Trace(s, sched)), ns, t);
    }
  }

  /** A signal wakes exactly one sleeper if there is any; and a wait may end for no reason,
      which sends exactly a sleeper back for the mutex. */
  lemma SignalWakesOne(s: State, t: nat, wake: nat, m: B.Malloc)
    requires Sized(s) && t < |s.roles|
    ensures s.at[t].AtSignal? ==>
              WakesOne(s.at[t := AtUnlock], StepOf(s, Run(t, wake, m)).at, Asleep, AtRelock, wake)
    ensures StepOf(s, Spurious(t)) == if s.at[t].Asleep? then s.(at := s.at[t := AtRelock]) else s
  {
    WakeOneWakesOne(s.at[t := AtUnlock], Asleep, AtRelock, wake);
  }

  // ---------- runs without spurious wake-ups ----------

  predicate OnlyRuns(sched: seq<Event>) {
    forall i :: 0 <= i < |sched| ==> sched[i].Run?
  }

  // `sched` takes the initial state s to r, and some schedule without spurious wake-ups r to s1.
  ghost predicate Onward(s: State, max: nat, sched: seq<Event>, s1: State) {
    && Initial(s, max)
    && exists more :: OnlyRuns(more) && Exec(Exec(s, sched), more) == s1
  }

  lemma {:induction false} ExecConcat(s: State, a: seq<Event>, b: seq<Event>)
    requires Sized(s)
    ensures Exec(s, a + b) == Exec(Exec(s, a), b)
    ensures Trace(s, a + b) == Trace(s, a) + Trace(Exec(s, a), b)
    decreases |b|
  {
    if b == [] {
      assert a + b == a;
    } else {
      var k := |b| - 1;
      assert (a + b)[..|a + b| - 1] == a + b[..k];
      ExecConcat(s, a, b[..k]);
    }
  }

  lemma OnwardStart(s: State, max: nat, sched: seq<Event>)
    requires Initial(s, max)
    ensures Onward(s, max, sched, Exec(s, sched))
  {
    assert OnlyRuns([]) && Exec(Exec(s, sched), []) == Exec(s, sched);
  }

  lemma OnwardSim(s: State, max: nat, sched: seq<Event>, s1: State) returns (f: A.Fifo, ns: seq<int>)
    requires Onward(s, max, sched, s1)
    ensures Sim(s1, f, ns) && |s1.roles| == |s.roles|
  {
    var more :| OnlyRuns(more) && Exec(Exec(s, sched), more) == s1;
    ExecConcat(s, sched, more);
    ns := RunRefinesFifo(s, max, sched + more);
    f := A.Exec(InitialFifo(max, s.roles), Trace(s, sched + more));
  }

  lemma Go(s: State, max: nat, sched: seq<Event>, s1: State, e: Event) returns (s2: State)
    requires Onward(s, max, sched, s1) && Sized(s1) && e.Run?
    ensures s2 == StepOf(s1, e) && Onward(s, max, sched, s2)
  {
    s2 := StepOf(s1, e);
    var more :| OnlyRuns(more) && Exec(Exec(s, sched), more) == s1;
    var next := more + [e];
    assert next[..|more|] == more;
    assert OnlyRuns(next) && Exec(Exec(s, sched), next) == s2;
  }

  // A step of thread t, waking `wake` if it wakes anybody, that leaves the heap alone.
  function Move(t: nat, wake: nat): Event {
    Run(t, wake, B.Malloc(B.NULL, B.Cell(0, 0)))
  }

  // The critical section always comes to its end.
  lemma {:induction false} FinishBody(s: State, max: nat, sched: seq<Event>, s1: State, t: nat)
    returns (s2: State)
    requires Onward(s, max, sched, s1) && Sized(s1) && t < |s1.roles| && s1.at[t].Critical?
    ensures Onward(s, max, sched, s2) && Sized(s2) && s2.roles == s1.roles && s2.body[t].Done?
    ensures s2.op == s1.op && s2.holder == s1.holder && s2.at == s1.at
    ensures s2.body == s1.body[t := s2.body[t]]
    decreases B.Remaining(s1.body[t])
  {
    s2 := s1;
    if !s1.body[t].Done? {
      var f, ns := OnwardSim(s, max, sched, s1);
      assert B.Suits(s1.roles[t], s1.body[t]);
      var a := B.FreshAddress(s1.q.heap.Keys);
      var m := B.Malloc(a, B.Cell(0, 0));
      B.BodyShrinks(s1.q, s1.body[t], B.ValueOf(s1.roles[t]), m);
      s2 := Go(s, max, sched, s1, Run(t, t, m));
      s2 := FinishBody(s, max, sched, s2, t);
    }
  }

  // ---------- the mutex, freed ----------

  // A thread that has passed the turn on, or has yet to, signals and unlocks.
  lemma Unlock(s: State, max: nat, sched: seq<Event>, s1: State, h: nat) returns (s2: State)
    requires Onward(s, max, sched, s1) && Sized(s1) && h < |s1.roles|
    requires s1.at[h].AtSignal? || s1.at[h].AtUnlock?
    ensures Onward(s, max, sched, s2) && Sized(s2) && s2.roles == s1.roles && s2.holder.None?
    ensures s2.at[h].AtReturn? && s2.body == s1.body && s2.op == s1.op
  {
    s2 := s1;
    if s2.at[h].AtSignal? {
      s2 := Go(s, max, sched, s2, Move(h, h));
    }
    s2 := Go(s, max, sched, s2, Move(h, h));
  }

  lemma PassOn(s: State, max: nat, sched: seq<Event>, s1: State, h: nat) returns (s2: State)
    requires Onward(s, max, sched, s1) && Sized(s1) && h < |s1.roles| && s1.at[h].AtTurn?
    ensures Onward(s, max, sched, s2) && Sized(s2) && s2.roles == s1.roles && s2.holder.None?
    ensures s2.at[h].AtReturn? && s2.body == s1.body && s2.op == Other(TurnOf(s1.roles[h]))
  {
    s2 := Go(s, max, sched, s1, Move(h, h));
    s2 := Unlock(s, max, sched, s2, h);
  }

  // The thread with the mutex ends its call.
  lemma EndCall(s: State, max: nat, sched: seq<Event>, s1: State, h: nat) returns (s2: State)
    requires Onward(s, max, sched, s1) && Sized(s1) && h < |s1.roles|
    requires HoldsMutex(s1.at[h]) && !s1.at[h].AtTest?
    ensures Onward(s, max, sched, s2) && Sized(s2) && s2.roles == s1.roles && s2.holder.None?
    ensures s2.at[h].AtReturn? && s2.body == s1.body[h := s2.body[h]]
    ensures s1.at[h].Critical? ==> s2.body[h].Done? && s2.op == Other(TurnOf(s1.roles[h]))
  {
    if s1.at[h].Critical? {
      s2 := FinishBody(s, max, sched, s1, h);
      s2 := Go(s, max, sched, s2, Move(h, h));
      s2 := PassOn(s, max, sched, s2, h);
    } else if s1.at[h].AtTurn? {
      s2 := PassOn(s, max, sched, s1, h);
    } else {
      s2 := Unlock(s, max, sched, s1, h);
    }
  }

  lemma MakeFree(s: State, max: nat, sched: seq<Event>) returns (s2: State)
    requires Initial(s, max)
    ensures Onward(s, max, sched, s2) && Sized(s2) && s2.holder.None?
  {
    OnwardStart(s, max, sched);
    s2 := Exec(s, sched);
    var f, ns := OnwardSim(s, max, sched, s2);
    if s2.holder.Some? {
      var h := s2.holder.value;
      assert HoldsMutex(s2.at[h]);
      if s2.at[h].AtTest? {
        s2 := Go(s, max, sched, s2, Move(h, h));
      }
      if s2.holder.Some? {
        s2 := EndCall(s, max, sched, s2, h);
      }
    }
  }

  // ---------- nobody is shut out ----------

  lemma OnwardPair(s: State, max: nat, sched: seq<Event>, s1: State, w: nat, g: nat)
    requires Onward(s, max, sched, s1) && OnePair(s, w, g)
    ensures Sized(s1) && OnePair(s1, w, g) && WakePending(s1, w, g) && WakePending(s1, g, w)
  {
    var more :| OnlyRuns(more) && Exec(Exec(s, sched), more) == s1;
    ExecConcat(s, sched, more);
    PairWakes(s, max, sched + more, w, g);
  }

  // With one reader and one writer and the mutex free, the thread whose turn it is is awake.
  lemma TurnAwake(s: State, max: nat, sched: seq<Event>, s1: State, w: nat, g: nat, t: nat)
    requires Onward(s, max, sched, s1) && OnePair(s, w, g) && Sized(s1) && s1.holder.None?
    requires t < 2
    ensures OnePair(s1, w, g)
    ensures s1.op == TurnOf(s1.roles[t]) ==> s1.at[t].AtLock? || s1.at[t].AtRelock? || s1.at[t].AtReturn?
  {
    OnwardPair(s, max, sched, s1, w, g);
    var f, ns := OnwardSim(s, max, sched, s1);
    assert !HoldsMutex(s1.at[0]) && !HoldsMutex(s1.at[1]);
  }

  // In its turn a thread gets its next call through.
  lemma TakeTurn(s: State, max: nat, sched: seq<Event>, s1: State, t: nat) returns (s2: State)
    requires Onward(s, max, sched, s1) && Sized(s1) && s1.holder.None? && t < |s1.roles|
    requires s1.op == TurnOf(s1.roles[t]) && (s1.at[t].AtLock? || s1.at[t].AtRelock? || s1.at[t].AtReturn?)
    ensures Onward(s, max, sched, s2) && Sized(s2) && s2.holder.None? && s2.op == Other(s1.op)
    ensures s2.body[t].Done?
  {
    s2 := s1;
    if s1.at[t].AtReturn? {
      s2 := Go(s, max, sched, s2, Move(t, t));
    }
    s2 := Go(s, max, sched, s2, Move(t, t));
    s2 := Go(s, max, sched, s2, Move(t, t));
    s2 := EndCall(s, max, sched, s2, t);
  }

  // The mutex free, and t's turn: the other thread takes its own first if need be.
  lemma Provide(s: State, max: nat, sched: seq<Event>, w: nat, g: nat, t: nat) returns (s2: State)
    requires Initial(s, max) && OnePair(s, w, g) && t < 2
    ensures Onward(s, max, sched, s2) && Sized(s2) && s2.holder.None? && OnePair(s2, w, g)
    ensures s2.op == TurnOf(s2.roles[t])
  {
    s2 := MakeFree(s, max, sched);
    TurnAwake(s, max, sched, s2, w, g, 1 - t);
    if s2.op != TurnOf(s2.roles[t]) {
      s2 := TakeTurn(s, max, sched, s2, 1 - t);
      TurnAwake(s, max, sched, s2, w, g, 1 - t);
    }
  }

  // A call whose state has changed has taken effect, or has returned.
  lemma {:induction false} CallInTrace(s: State, sched: seq<Event>, t: nat)
    requires Sized(s) && t < |s.roles| && B.Outcome(Exec(s, sched).body[t]) != B.Outcome(s.body[t])
    ensures t in Trace(s, sched)
    decreases |sched|
  {
    if sched != [] {
      var k := |sched| - 1;
      var r := Exec(s, sched[..k]);
      if B.Outcome(r.body[t]) != B.Outcome(s.body[t]) {
        CallInTrace(s, sched[..k], t);
      } else {
        OwnBody(r, sched[k], t);
      }
    }
  }

  lemma OwnBody(s: State, e: Event, t: nat)
    requires Sized(s) && t < |s.roles|
    ensures e.t != t ==> StepOf(s, e).body[t] == s.body[t]
  {
  }

  lemma NextMoves(s: State, max: nat, sched: seq<Event>, w: nat, g: nat, t: nat) returns (more: seq<Event>)
    requires Initial(s, max) && OnePair(s, w, g) && t < 2
    requires var r := Exec(s, sched); r.holder.None? && r.op == TurnOf(r.roles[t])
    ensures OnlyRuns(more) && t in Trace(Exec(s, sched), more)
  {
    OnwardStart(s, max, sched);
    var r := Exec(s, sched);
    TurnAwake(s, max, sched, r, w, g, t);
    var f, ns := OnwardSim(s, max, sched, r);
    assert Placed(r.at[t], r.roles[t], r.body[t]);
    var s2;
    if r.at[t].AtReturn? {
      s2 := Go(s, max, sched, r, Move(t, t));
    } else {
      s2 := TakeTurn(s, max, sched, r, t);
    }
    more :| OnlyRuns(more) && Exec(r, more) == s2;
    CallInTrace(r, more, t);
  }

  /** With one reader and one writer, from every reachable state some continuation without
      spurious wake-ups lets the call of either take effect or return. */
  lemma ClientServed(s: State, max: nat, sched: seq<Event>, w: nat, g: nat, t: nat) returns (more: seq<Event>)
    requires Initial(s, max) && OnePair(s, w, g) && t < 2
    ensures OnlyRuns(more) && Trace(s, sched + more) == Trace(s, sched) + Trace(Exec(s, sched), more)
    ensures t in Trace(s, sched + more)[|Trace(s, sched)|..]
  {
    var s1 := Provide(s, max, sched, w, g, t);
    var first :| OnlyRuns(first) && Exec(Exec(s, sched), first) == s1;
    ExecConcat(s, sched, first);
    var second := NextMoves(s, max, sched + first, w, g, t);
    more := first + second;
    ExecConcat(s, sched, more);
    ExecConcat(Exec(s, sched), first, second);
  }
}
