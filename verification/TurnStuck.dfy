/** When the single `pthread_cond_signal` of lab2/2/f-cond_var can wake the wrong side: the
    threads can all end up asleep exactly unless there is one reader and one writer. */
module TurnStuck {
  import A = AtomicFifo
  import B = QueueBody
  import opened QueueClients
  import opened TurnQueue
  import opened Wakeups
  import P = TurnProgress

  // One step more of a run from the initial state.
  lemma GoTo(s: State, max: nat, s1: State, e: Event, s2: State)
    requires P.Onward(s, max, [], s1) && Sized(s1) && e.Run? && s2 == StepOf(s1, e)
    ensures P.Onward(s, max, [], s2)
  {
    var s' := P.Go(s, max, [], s1, e);
  }

  // Nobody holds the mutex; everyone is asleep or about to get it.
  predicate Quiet(s: State) {
    && Sized(s) && s.holder.None?
    && forall t :: 0 <= t < |s.at| ==> s.at[t].AtLock? || s.at[t].AtRelock? || s.at[t].Asleep?
  }

  predicate SameKinds(s: State, s': State) {
    |s'.roles| == |s.roles| && forall t :: 0 <= t < |s.roles| ==> TurnOf(s'.roles[t]) == TurnOf(s.roles[t])
  }

  // Thread t, waiting for the mutex out of its turn, gets it and goes to sleep.
  lemma GoToSleep(s: State, max: nat, s1: State, t: nat) returns (s2: State)
    requires Sized(s) && P.Onward(s, max, [], s1) && Quiet(s1) && t < |s1.roles|
    requires !s1.at[t].Asleep? && s1.op != TurnOf(s1.roles[t])
    ensures P.Onward(s, max, [], s2) && s2 == s1.(at := s1.at[t := Asleep])
  {
    var e := Run(t, t, B.Malloc(0, B.Cell(0, 0)));
    var s' := s1.(holder := Some(t), at := s1.at[t := AtTest]);
    GoTo(s, max, s1, e, s');
    s2 := s1.(at := s1.at[t := Asleep]);
    GoTo(s, max, s', e, s2);
  }

  // Everybody out of turn goes to sleep.
  lemma {:induction false} SleepOthers(s: State, max: nat, s1: State, i: nat) returns (s2: State)
    requires Sized(s) && P.Onward(s, max, [], s1) && Quiet(s1) && i <= |s1.roles|
    ensures P.Onward(s, max, [], s2) && Quiet(s2) && s2.roles == s1.roles && s2.op == s1.op
    ensures forall u :: 0 <= u < |s1.roles| ==>
              s2.at[u] == if u < i && TurnOf(s1.roles[u]) != s1.op then Asleep else s1.at[u]
    decreases i
  {
    if i == 0 {
      s2 := s1;
    } else {
      var s' := SleepOthers(s, max, s1, i - 1);
      if s'.at[i - 1].Asleep? || s'.op == TurnOf(s'.roles[i - 1]) {
        s2 := s';
      } else {
        s2 := GoToSleep(s, max, s', i - 1);
      }
    }
  }

  // Thread t gets the mutex in its turn and executes its body.
  lemma EnterTurn(s: State, max: nat, s1: State, t: nat) returns (s2: State)
    requires Initial(s, max) && P.Onward(s, max, [], s1) && Quiet(s1) && t < |s1.roles|
    requires !s1.at[t].Asleep? && s1.op == TurnOf(s1.roles[t])
    ensures P.Onward(s, max, [], s2) && Sized(s2) && s2.roles == s1.roles && s2.body[t].Done?
    ensures s2.op == s1.op && s2.holder == Some(t) && s2.at == s1.at[t := AtTurn]
  {
    var e := Run(t, t, B.Malloc(0, B.Cell(0, 0)));
    var s' := s1.(holder := Some(t), at := s1.at[t := AtTest]);
    GoTo(s, max, s1, e, s');
    var s'' := s'.(at := s1.at[t := Critical]);
    GoTo(s, max, s', e, s'');
    var s3 := P.FinishBody(s, max, [], s'', t);
    s2 := s3.(at := s1.at[t := AtTurn]);
    GoTo(s, max, s3, e, s2);
  }

  // It passes the turn on and wakes `wake`.
  lemma PassOn(s: State, max: nat, s1: State, t: nat, wake: nat) returns (s2: State)
    requires Sized(s) && P.Onward(s, max, [], s1) && Sized(s1) && t < |s1.roles|
    requires s1.op == TurnOf(s1.roles[t]) && s1.holder == Some(t) && s1.at[t].AtTurn?
    requires (wake < |s1.roles| && s1.at[wake].Asleep?) || forall u :: 0 <= u < |s1.at| ==> !s1.at[u].Asleep?
    ensures P.Onward(s, max, [], s2) && Sized(s2) && s2.op == Other(s1.op) && s2.holder == s1.holder
    ensures s2.roles == s1.roles && s2.body == s1.body
    ensures forall u :: 0 <= u < |s1.at| ==>
              s2.at[u] == if u == t then AtUnlock
                          else if u == wake && s1.at[u].Asleep? then AtRelock else s1.at[u]
  {
    var e := Run(t, wake, B.Malloc(0, B.Cell(0, 0)));
    var sa := s1.(op := Other(s1.op), at := s1.at[t := AtSignal]);
    GoTo(s, max, s1, e, sa);
    var at := sa.at[t := AtUnlock];
    assert wake < |at| && s1.at[wake].Asleep? ==> at[wake].Asleep?;
    s2 := sa.(at := WakeOne(at, Asleep, AtRelock, wake));
    GoTo(s, max, sa, e, s2);
  }

  // Then it returns, comes back and goes to sleep.
  lemma ComeBack(s: State, max: nat, s1: State, t: nat) returns (s2: State)
    requires Sized(s) && P.Onward(s, max, [], s1) && Sized(s1) && t < |s1.roles| && s1.body[t].Done?
    requires s1.op != TurnOf(s1.roles[t]) && s1.holder == Some(t) && s1.at[t].AtUnlock?
    ensures P.Onward(s, max, [], s2) && Sized(s2) && s2.op == s1.op && s2.holder.None? && SameKinds(s1, s2)
    ensures s2.at == s1.at[t := Asleep]
  {
    var e := Run(t, t, B.Malloc(0, B.Cell(0, 0)));
    var sa := s1.(holder := None, at := s1.at[t := AtReturn]);
    GoTo(s, max, s1, e, sa);
    var sb := StepOf(sa, e);
    GoTo(s, max, sa, e, sb);
    assert sb.at == s1.at[t := AtLock] && sb.holder.None? && sb.op == s1.op && SameKinds(s1, sb);
    var sc := sb.(holder := Some(t), at := s1.at[t := AtTest]);
    GoTo(s, max, sb, e, sc);
    s2 := sc.(holder := None, at := s1.at[t := Asleep]);
    GoTo(s, max, sc, e, s2);
  }

  lemma TakeTurn(s: State, max: nat, s1: State, t: nat, wake: nat) returns (s2: State)
    requires Initial(s, max) && P.Onward(s, max, [], s1) && Quiet(s1) && t < |s1.roles| && wake != t
    requires !s1.at[t].Asleep? && s1.op == TurnOf(s1.roles[t])
    requires (wake < |s1.roles| && s1.at[wake].Asleep?) || forall u :: 0 <= u < |s1.at| ==> !s1.at[u].Asleep?
    ensures P.Onward(s, max, [], s2) && Quiet(s2) && s2.op == Other(s1.op) && SameKinds(s1, s2)
    ensures forall u :: 0 <= u < |s1.at| ==>
              s2.at[u] == if u == t then Asleep
                          else if u == wake && s1.at[u].Asleep? then AtRelock else s1.at[u]
  {
    var s' := EnterTurn(s, max, s1, t);
    var s'' := PassOn(s, max, s', t, wake);
    s2 := ComeBack(s, max, s'', t);
  }

  // ---------- everybody asleep ----------

  // No thread will move again unless a wait returns for no reason.
  predicate AllAsleep(s: State) {
    forall t :: 0 <= t < |s.at| ==> s.at[t].Asleep?
  }

  // After the first writer's turn everybody sleeps but the thread it woke, if any.
  lemma FirstTurn(s: State, max: nat, w: nat, wake: nat) returns (s2: State)
    requires Initial(s, max) && w < |s.roles| && s.roles[w].Writer? && wake != w
    requires (wake < |s.roles| && s.roles[wake].Reader?) || forall u :: 0 <= u < |s.roles| ==> s.roles[u].Writer?
    ensures P.Onward(s, max, [], s2) && Quiet(s2) && s2.op == READ && SameKinds(s, s2)
    ensures forall u :: 0 <= u < |s.roles| ==>
              s2.at[u] == if u == wake && s.roles[u].Reader? then AtRelock else Asleep
  {
    P.OnwardStart(s, max, []);
    var s1 := SleepOthers(s, max, s, |s.roles|);
    var s' := TakeTurn(s, max, s1, w, wake);
    s2 := SleepOthers(s, max, s', |s.roles|);
  }

  lemma ManyReadersStick(s: State, max: nat, w: nat, g: nat, g2: nat) returns (s2: State)
    requires Initial(s, max) && w < |s.roles| && g < |s.roles| && g2 < |s.roles| && g != g2
    requires s.roles[w].Writer? && s.roles[g].Reader? && s.roles[g2].Reader?
    ensures P.Onward(s, max, [], s2) && AllAsleep(s2)
  {
    var s1 := FirstTurn(s, max, w, g);
    assert TurnOf(s1.roles[g]) == TurnOf(s.roles[g]) && TurnOf(s1.roles[g2]) == TurnOf(s.roles[g2]);
    var s' := TakeTurn(s, max, s1, g, g2);
    s2 := SleepOthers(s, max, s', |s.roles|);
  }

  lemma ManyWritersStick(s: State, max: nat, w: nat, w2: nat, g: nat) returns (s2: State)
    requires Initial(s, max) && w < |s.roles| && w2 < |s.roles| && g < |s.roles| && w != w2
    requires s.roles[w].Writer? && s.roles[w2].Writer? && s.roles[g].Reader?
    ensures P.Onward(s, max, [], s2) && AllAsleep(s2)
  {
    var s1 := FirstTurn(s, max, w, g);
    assert TurnOf(s1.roles[g]) == TurnOf(s.roles[g]);
    var s' := TakeTurn(s, max, s1, g, w);
    assert TurnOf(s'.roles[w]) == TurnOf(s1.roles[w]) == TurnOf(s.roles[w]);
    assert TurnOf(s'.roles[w2]) == TurnOf(s1.roles[w2]) == TurnOf(s.roles[w2]);
    var s'' := TakeTurn(s, max, s', w, w2);
    s2 := SleepOthers(s, max, s'', |s.roles|);
  }

  lemma OneKindSticks(s: State, max: nat) returns (s2: State)
    requires Initial(s, max) && |s.roles| > 0
    requires (forall u :: 0 <= u < |s.roles| ==> s.roles[u].Writer?)
             || (forall u :: 0 <= u < |s.roles| ==> s.roles[u].Reader?)
    ensures P.Onward(s, max, [], s2) && AllAsleep(s2)
  {
    if s.roles[0].Writer? {
      s2 := FirstTurn(s, max, 0, |s.roles|);
    } else {
      P.OnwardStart(s, max, []);
      s2 := SleepOthers(s, max, s, |s.roles|);
    }
  }

  // A thread that is neither w nor g.
  function Third(w: nat, g: nat): (x: nat)
    ensures x < 3 && x != w && x != g
  {
    if w != 0 && g != 0 then 0 else if w != 1 && g != 1 then 1 else 2
  }

  lemma Stick(s: State, max: nat) returns (s2: State)
    requires Initial(s, max) && |s.roles| > 0 && forall w: nat, g: nat :: !OnePair(s, w, g)
    ensures P.Onward(s, max, [], s2) && AllAsleep(s2)
  {
    if w: nat, g: nat :| w < |s.roles| && g < |s.roles| && s.roles[w].Writer? && s.roles[g].Reader? {
      assert !OnePair(s, w, g);
      var x := Third(w, g);
      if s.roles[x].Writer? {
        s2 := ManyWritersStick(s, max, w, x, g);
      } else {
        s2 := ManyReadersStick(s, max, w, g, x);
      }
    } else {
      s2 := OneKindSticks(s, max);
    }
  }

  ghost predicate CanStick(s: State)
    requires Sized(s)
  {
    exists sched :: AllAsleep(Exec(s, sched))
  }

  ghost predicate IsPair(s: State)
    requires Sized(s)
  {
    exists w: nat, g: nat :: OnePair(s, w, g)
  }

  lemma PairNeverSticks(s: State, max: nat)
    requires Initial(s, max) && IsPair(s)
    ensures !CanStick(s)
  {
    var w: nat, g: nat :| OnePair(s, w, g);
    forall sched ensures !AllAsleep(Exec(s, sched)) {
      var e := NeverStuck(s, max, sched, w, g);
    }
  }

  lemma OthersStick(s: State, max: nat)
    requires Initial(s, max) && |s.roles| > 0 && !IsPair(s)
    ensures CanStick(s)
  {
    var s2 := Stick(s, max);
    var sched :| P.OnlyRuns(sched) && Exec(Exec(s, []), sched) == s2;
    assert AllAsleep(Exec(s, sched));
  }

  /** All threads can fall asleep for good exactly unless they are one reader and one
      writer. */
  lemma StuckIff(s: State, max: nat)
    requires Initial(s, max) && |s.roles| > 0
    ensures CanStick(s) <==> !IsPair(s)
  {
    if IsPair(s) {
      PairNeverSticks(s, max);
    } else {
      OthersStick(s, max);
    }
  }
}
