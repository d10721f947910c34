/** What the two semaphores let happen: who can move, exactly; that from every reachable state
    the queue can be filled and emptied; and that no client is shut out. */
module SemaphoreProgress {
  import A = AtomicFifo
  import B = QueueBody
  import opened QueueClients
  import opened SemaphoreQueue

  // ---------- who can move ----------

  ghost predicate CanStep(s: State, t: nat)
    requires Sized(s)
  {
    exists e: Event :: e.t == t && StepOf(s, e) != s
  }

  /** In every run a thread at its sem_wait can move exactly if its semaphore is positive, one
      at the mutex exactly if nobody holds it, and any other thread always. */
  lemma CanStepIff(s: State, max: nat, sched: seq<Event>, t: nat)
    requires Initial(s, max) && t < |s.roles|
    ensures var r := Exec(s, sched);
            CanStep(r, t) <==>
              match r.at[t]
              case AtWait => if r.roles[t].Writer? then r.space > 0 else r.items > 0
              case AtLock => r.holder == None
              case _ => true
  {
    var ns := RunRefinesFifo(s, max, sched);
    var r := Exec(s, sched);
    if !Blocked(r, t) {
      var e := UnblockedMoves(r, A.Exec(InitialFifo(max, s.roles), Trace(s, sched)), ns, t);
    }
  }

  // ---------- continuing a run ----------

  // `sched` takes the initial state s to r, and some schedule r to s1.
  ghost predicate Onward(s: State, max: nat, sched: seq<Event>, s1: State) {
    Initial(s, max) && exists more :: Exec(Exec(s, sched), more) == s1
  }

  lemma {:induction false} ExecConcat(s: State, a: seq<Event>, b: seq<Event>)
    requires Sized(s)
    ensures Exec(s, a + b) == Exec(Exec(s, a), b)
    ensures Trace(s, a + b) == Trace(s, a) + Trace(Exec(s, a), b)
    decreases |b|
  {
    if b == [] {
      assert a + b == a;
    } else {
      var k := |b| - 1;
      assert (a + b)[..|a + b| - 1] == a + b[..k];
      ExecConcat(s, a, b[..k]);
    }
  }

  lemma OnwardStart(s: State, max: nat, sched: seq<Event>)
    requires Initial(s, max)
    ensures Onward(s, max, sched, Exec(s, sched))
  {
    assert Exec(Exec(s, sched), []) == Exec(s, sched);
  }

  lemma OnwardSim(s: State, max: nat, sched: seq<Event>, s1: State) returns (f: A.Fifo, ns: seq<int>)
    requires Onward(s, max, sched, s1)
    ensures Sim(s1, f, ns) && |s1.roles| == |s.roles| && s1.q.max == max
    ensures forall t :: 0 <= t < |s.roles| ==> s1.roles[t].Writer? == s.roles[t].Writer?
  {
    var more :| Exec(Exec(s, sched), more) == s1;
    ExecConcat(s, sched, more);
    ns := RunRefinesFifo(s, max, sched + more);
    f := A.Exec(InitialFifo(max, s.roles), Trace(s, sched + more));
    forall t | 0 <= t < |s.roles| ensures s1.roles[t].Writer? == s.roles[t].Writer? {
      RolesStay(s, sched + more, t);
    }
  }

  lemma Go(s: State, max: nat, sched: seq<Event>, s1: State, e: Event) returns (s2: State)
    requires Onward(s, max, sched, s1) && Sized(s1)
    ensures s2 == StepOf(s1, e) && Onward(s, max, sched, s2)
  {
    s2 := StepOf(s1, e);
    var more :| Exec(Exec(s, sched), more) == s1;
    var next := more + [e];
    assert next[..|more|] == more;
    assert Exec(Exec(s, sched), next) == s2;
  }

  // A step of thread t that leaves the heap alone.
  function Move(t: nat): Event {
    Run(t, B.Malloc(B.NULL, B.Cell(0, 0)))
  }

  // ---------- calls ----------

  // A call whose state has changed has taken effect, or has returned.
  lemma {:induction false} CallInTrace(s: State, sched: seq<Event>, t: nat)
    requires Sized(s) && t < |s.roles| && B.Outcome(Exec(s, sched).body[t]) != B.Outcome(s.body[t])
    ensures t in Trace(s, sched)
    decreases |sched|
  {
    if sched != [] {
      var k := |sched| - 1;
      var r := Exec(s, sched[..k]);
      if B.Outcome(r.body[t]) != B.Outcome(s.body[t]) {
        CallInTrace(s, sched[..k], t);
      } else {
        OwnBody(r, sched[k], t);
      }
    }
  }

  lemma OwnBody(s: State, e: Event, t: nat)
    requires Sized(s) && t < |s.roles|
    ensures e.t != t ==> StepOf(s, e).body[t] == s.body[t]
  {
  }

  // The holder of the mutex comes to the end of its critical section.
  lemma {:induction false} FinishBody(s: State, max: nat, sched: seq<Event>, s1: State, h: nat)
    returns (s2: State)
    requires Onward(s, max, sched, s1) && Sized(s1) && h < |s1.roles| && s1.at[h].Critical?
    ensures Onward(s, max, sched, s2) && Sized(s2) && s2.body[h].Done? && s2.roles == s1.roles
    ensures s2.at == s1.at && s2.holder == s1.holder && s2.space == s1.space && s2.items == s1.items
    ensures s2.body == s1.body[h := s2.body[h]]
    decreases B.Remaining(s1.body[h])
  {
    s2 := s1;
    if !s1.body[h].Done? {
      var f, ns := OnwardSim(s, max, sched, s1);
      assert B.Suits(s1.roles[h], s1.body[h]);
      assert B.BodyRel(s1.q, ns, f.contents, s1.body[h], B.ValueOf(s1.roles[h]));
      var a := B.FreshAddress(s1.q.heap.Keys);
      var m := B.Malloc(a, B.Cell(0, 0));
      B.BodyShrinks(s1.q, s1.body[h], B.ValueOf(s1.roles[h]), m);
      s2 := Go(s, max, sched, s1, Run(h, m));
      s2 := FinishBody(s, max, sched, s2, h);
    }
  }

  // What ending its call changes besides the queue: h's place and what h posts.
  predicate Posted(s1: State, s2: State, h: nat)
    requires Sized(s1) && h < |s1.roles|
  {
    && Sized(s2) && s2.roles == s1.roles && s2.at == s1.at[h := AtReturn] && s2.holder.None?
    && s2.body == s1.body[h := s2.body[h]] && s2.body[h].Done?
    && s2.space == s1.space + (if s1.roles[h].Writer? then 0 else 1)
    && s2.items == s1.items + (if s1.roles[h].Writer? then 1 else 0)
  }

  lemma EndCall(s: State, max: nat, sched: seq<Event>, s1: State, h: nat) returns (s2: State)
    requires Onward(s, max, sched, s1) && Sized(s1) && h < |s1.roles| && s1.at[h].Critical?
    ensures Onward(s, max, sched, s2) && Posted(s1, s2, h)
  {
    s2 := FinishBody(s, max, sched, s1, h);
    s2 := Go(s, max, sched, s2, Move(h));
    s2 := Go(s, max, sched, s2, Move(h));
  }

  lemma LockAndEnd(s: State, max: nat, sched: seq<Event>, s1: State, t: nat) returns (s2: State)
    requires Onward(s, max, sched, s1) && Sized(s1) && t < |s1.roles| && s1.at[t].AtLock? && s1.holder.None?
    ensures Onward(s, max, sched, s2) && Posted(s1, s2, t)
  {
    s2 := Go(s, max, sched, s1, Move(t));
    s2 := EndCall(s, max, sched, s2, t);
  }

  // ---------- nothing under way ----------

  predicate Idle(at: Place) { at.AtWait? || at.AtReturn? }

  predicate Settled(s: State) {
    Sized(s) && s.holder.None? && forall t :: 0 <= t < |s.at| ==> Idle(s.at[t])
  }

  // Every call under way is brought to its end.
  lemma {:induction false} SettleFirst(s: State, max: nat, sched: seq<Event>, s1: State, i: nat)
    returns (s2: State)
    requires Onward(s, max, sched, s1) && Sized(s1) && s1.holder.None? && i <= |s1.roles|
    ensures Onward(s, max, sched, s2) && Sized(s2) && s2.holder.None? && |s2.at| == |s1.at|
    ensures forall t :: 0 <= t < i ==> Idle(s2.at[t])
    ensures forall t :: i <= t < |s1.at| ==> s2.at[t] == s1.at[t]
    decreases i
  {
    s2 := s1;
    if i > 0 {
      s2 := SettleFirst(s, max, sched, s1, i - 1);
      var t := i - 1;
      var f, ns := OnwardSim(s, max, sched, s2);
      assert s2.at[t].Critical? ==> s2.holder == Some(t);
      if s2.at[t].AtLock? {
        s2 := LockAndEnd(s, max, sched, s2, t);
      } else if s2.at[t].AtPost? {
        s2 := Go(s, max, sched, s2, Move(t));
      }
    }
  }

  lemma Settle(s: State, max: nat, sched: seq<Event>) returns (s2: State)
    requires Initial(s, max)
    ensures Onward(s, max, sched, s2) && Settled(s2)
  {
    OnwardStart(s, max, sched);
    var f, ns := OnwardSim(s, max, sched, Exec(s, sched));
    s2 := Exec(s, sched);
    if s2.holder.Some? {
      var h := s2.holder.value;
      assert s2.at[h].Critical?;
      s2 := EndCall(s, max, sched, s2, h);
    }
    s2 := SettleFirst(s, max, sched, s2, |s2.roles|);
  }

  // Then every token is in a semaphore or stands for a value.
  lemma SettledTokens(s: State, f: A.Fifo, ns: seq<int>)
    requires Sim(s, f, ns) && Settled(s)
    ensures s.space + s.q.count == s.q.max && s.items == s.q.count
  {
    forall t | 0 <= t < |s.roles|
      ensures !SpaceUnused(s)[t] && !SpaceOwed(s)[t] && !ItemUnused(s)[t] && !ItemOwed(s)[t]
    {
      assert Idle(s.at[t]);
    }
    CountZero(SpaceUnused(s));
    CountZero(SpaceOwed(s));
    CountZero(ItemUnused(s));
    CountZero(ItemOwed(s));
    CountIsLength(s, f, ns);
  }

  // Has t a token to go on with?
  predicate HasToken(s: State, t: nat)
    requires Sized(s) && t < |s.roles|
  {
    if s.roles[t].Writer? then s.space > 0 else s.items > 0
  }

  // A call that is over returns to the client loop, which starts the next.
  lemma Return(s: State, max: nat, sched: seq<Event>, s1: State, t: nat) returns (s2: State)
    requires Onward(s, max, sched, s1) && Sized(s1) && t < |s1.roles| && s1.at[t].AtReturn?
    ensures Onward(s, max, sched, s2) && Sized(s2) && |s2.roles| == |s1.roles|
    ensures s2.at == s1.at[t := AtWait] && s2.holder == s1.holder
    ensures s2.space == s1.space && s2.items == s1.items
    ensures s2.roles[t].Writer? == s1.roles[t].Writer? && B.Outcome(s2.body[t]) == A.Pending
  {
    s2 := Go(s, max, sched, s1, Move(t));
  }

  // One whole call of t, from a settled state to a settled state.
  lemma Call(s: State, max: nat, sched: seq<Event>, s1: State, t: nat) returns (s2: State)
    requires Onward(s, max, sched, s1) && Settled(s1) && t < |s1.roles| && HasToken(s1, t)
    ensures Onward(s, max, sched, s2) && Settled(s2) && |s2.roles| == |s1.roles|
    ensures var d := if s1.roles[t].Writer? then 1 else -1;
            s2.space == s1.space - d && s2.items == s1.items + d
    ensures s2.body[t].Done?
  {
    s2 := s1;
    assert Idle(s1.at[t]);
    if s1.at[t].AtReturn? {
      s2 := Return(s, max, sched, s2, t);
    }
    s2 := Go(s, max, sched, s2, Move(t));
    s2 := LockAndEnd(s, max, sched, s2, t);
  }

  // ---------- full and empty ----------

  lemma {:induction false} FillUp(s: State, max: nat, sched: seq<Event>, s1: State, w: nat) returns (s2: State)
    requires Onward(s, max, sched, s1) && Settled(s1) && w < |s1.roles| && s1.roles[w].Writer?
    ensures Onward(s, max, sched, s2) && Settled(s2) && s2.space == 0
    decreases s1.space
  {
    s2 := s1;
    if s1.space > 0 {
      var f, ns := OnwardSim(s, max, sched, s1);
      s2 := Call(s, max, sched, s1, w);
      f, ns := OnwardSim(s, max, sched, s2);
      s2 := FillUp(s, max, sched, s2, w);
    }
  }

  lemma {:induction false} DrainDown(s: State, max: nat, sched: seq<Event>, s1: State, g: nat) returns (s2: State)
    requires Onward(s, max, sched, s1) && Settled(s1) && g < |s1.roles| && s1.roles[g].Reader?
    ensures Onward(s, max, sched, s2) && Settled(s2) && s2.items == 0
    decreases s1.items
  {
    s2 := s1;
    if s1.items > 0 {
      var f, ns := OnwardSim(s, max, sched, s1);
      s2 := Call(s, max, sched, s1, g);
      f, ns := OnwardSim(s, max, sched, s2);
      s2 := DrainDown(s, max, sched, s2, g);
    }
  }

  /** The whole capacity can be used: with an adder, every reachable state has a continuation
      in which the queue holds max values. */
  lemma CanFill(s: State, max: nat, sched: seq<Event>, w: nat) returns (more: seq<Event>)
    requires Initial(s, max) && w < |s.roles| && s.roles[w].Writer?
    ensures Exec(s, sched + more).q.count == max
  {
    var s2 := Settle(s, max, sched);
    var f, ns := OnwardSim(s, max, sched, s2);
    s2 := FillUp(s, max, sched, s2, w);
    f, ns := OnwardSim(s, max, sched, s2);
    SettledTokens(s2, f, ns);
    more :| Exec(Exec(s, sched), more) == s2;
    ExecConcat(s, sched, more);
  }

  /** And given up again: with a getter, one in which it holds none. */
  lemma CanDrain(s: State, max: nat, sched: seq<Event>, g: nat) returns (more: seq<Event>)
    requires Initial(s, max) && g < |s.roles| && s.roles[g].Reader?
    ensures Exec(s, sched + more).q.count == 0
  {
    var s2 := Settle(s, max, sched);
    var f, ns := OnwardSim(s, max, sched, s2);
    s2 := DrainDown(s, max, sched, s2, g);
    f, ns := OnwardSim(s, max, sched, s2);
    SettledTokens(s2, f, ns);
    more :| Exec(Exec(s, sched), more) == s2;
    ExecConcat(s, sched, more);
  }

  // ---------- nobody is shut out ----------

  // A settled state in which t has a token: a thread of the other kind makes one if need be.
  lemma Provide(s: State, max: nat, sched: seq<Event>, t: nat, w: nat, g: nat) returns (s2: State)
    requires Initial(s, max) && max >= 1 && t < |s.roles|
    requires w < |s.roles| && g < |s.roles| && s.roles[w].Writer? && s.roles[g].Reader?
    ensures Onward(s, max, sched, s2) && Settled(s2) && t < |s2.roles| && HasToken(s2, t)
  {
    s2 := Settle(s, max, sched);
    var f, ns := OnwardSim(s, max, sched, s2);
    SettledTokens(s2, f, ns);
    if !HasToken(s2, t) {
      s2 := Call(s, max, sched, s2, if s2.roles[t].Writer? then g else w);
      f, ns := OnwardSim(s, max, sched, s2);
    }
  }

  // From there its call moves on.
  lemma NextMoves(s: State, max: nat, sched: seq<Event>, t: nat) returns (more: seq<Event>)
    requires Initial(s, max) && t < |s.roles|
    requires Settled(Exec(s, sched)) && HasToken(Exec(s, sched), t)
    ensures t in Trace(Exec(s, sched), more)
  {
    OnwardStart(s, max, sched);
    var r := Exec(s, sched);
    var f, ns := OnwardSim(s, max, sched, r);
    assert Idle(r.at[t]) && Placed(r.at[t], r.roles[t], r.body[t]);
    var s2;
    if r.at[t].AtReturn? {
      s2 := Return(s, max, sched, r, t);
    } else {
      s2 := Call(s, max, sched, r, t);
    }
    more :| Exec(r, more) == s2;
    CallInTrace(r, more, t);
  }

  /** With room for a value, an adder and a getter, from every reachable state some
      continuation lets client t's call take effect or return. */
  lemma ClientServed(s: State, max: nat, sched: seq<Event>, t: nat, w: nat, g: nat) returns (more: seq<Event>)
    requires Initial(s, max) && max >= 1 && t < |s.roles|
    requires w < |s.roles| && g < |s.roles| && s.roles[w].Writer? && s.roles[g].Reader?
    ensures Trace(s, sched + more) == Trace(s, sched) + Trace(Exec(s, sched), more)
    ensures t in Trace(s, sched + more)[|Trace(s, sched)|..]
  {
    var s1 := Provide(s, max, sched, t, w, g);
    var first :| Exec(Exec(s, sched), first) == s1;
    ExecConcat(s, sched, first);
    var second := NextMoves(s, max, sched + first, t);
    more := first + second;
    ExecConcat(s, sched, more);
    ExecConcat(Exec(s, sched), first, second);
  }
}
