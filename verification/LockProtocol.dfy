/** The hand-written locks as one protocol over atomic instructions and futex calls:
    the CAS spinlock of lab2/2/a-spinlock/queue.c, the futex mutex of
    lab2/2/e-mutex/queue.c and the two locks of lab2/4/4.c, which use the opposite values
    for free and held. Any number of threads lock and unlock in a loop. */
module LockProtocol {
  import opened Wakeups

  // What a thread does when it finds the lock held.
  datatype Wait =
    | Retry      // try again at once (a-spinlock/queue.c:21-28)
    | TestFirst  // read until the word looks free, then try again (4.c:21-26)
    | Futex      // sleep in FUTEX_WAIT (e-mutex/queue.c:39, 4.c:43)

  /** The values of the lock word, the waiting policy, and whether unlocking is a
      compare-and-exchange that skips the rest when it fails, or a plain store. */
  datatype Config = Config(free: int, held: int, wait: Wait, casRelease: bool)

  const SPIN_QUEUE := Config(1, 0, Retry, true)     // a-spinlock/queue.c
  const FUTEX_QUEUE := Config(1, 0, Futex, true)    // e-mutex/queue.c
  const SPIN_TEST := Config(0, 1, TestFirst, false) // 4.c, spinlock_t
  const FUTEX_TEST := Config(0, 1, Futex, false)    // 4.c, futex_mutex_t

  datatype Pc =
    | Outside
    | Trying  // at the atomic exchange
    | Waiting // found the lock held: about to read the word again, or to call FUTEX_WAIT
    | Asleep  // inside FUTEX_WAIT
    | Inside  // holds the lock
    | Waking  // released the lock, about to call FUTEX_WAKE

  datatype Lock = Lock(cfg: Config, word: int, pcs: seq<Pc>)

  /** A scheduler's choice: a thread moves, and if the step is FUTEX_WAKE then `wake` is the
      sleeper the kernel prefers; or FUTEX_WAIT returns without being woken. */
  datatype Event = Run(t: nat, wake: nat) | Spurious(t: nat)

  function SetPc(s: Lock, t: nat, pc: Pc): Lock
    requires t < |s.pcs|
  {
    s.(pcs := s.pcs[t := pc])
  }

  function StepOf(s: Lock, e: Event): (s': Lock)
    ensures s'.cfg == s.cfg && |s'.pcs| == |s.pcs|
  {
    if e.t >= |s.pcs| then s else
    var t := e.t;
    match e
    case Spurious(_) => if s.pcs[t] == Asleep then SetPc(s, t, Trying) else s
    case Run(_, wake) =>
      match s.pcs[t]
      case Outside => SetPc(s, t, Trying)
      case Trying =>
        if s.word == s.cfg.free then SetPc(s, t, Inside).(word := s.cfg.held)
        else if s.cfg.wait == Retry then s
        else SetPc(s, t, Waiting)
      case Waiting =>
        // FUTEX_WAIT compares the word with the held value and sleeps only if it still has it
        if s.word != s.cfg.held then SetPc(s, t, Trying)
        else if s.cfg.wait == Futex then SetPc(s, t, Asleep)
        else s
      case Asleep => s
      case Inside =>
        if s.cfg.casRelease && s.word != s.cfg.held then SetPc(s, t, Outside)
        else SetPc(s, t, if s.cfg.wait == Futex then Waking else Outside).(word := s.cfg.free)
      case Waking =>
        // FUTEX_WAKE with count 1: the sleeper goes back to trying
        SetPc(s, t, Outside).(pcs := WakeOne(s.pcs[t := Outside], Asleep, Trying, wake))
  }

  function Exec(s: Lock, sched: seq<Event>): (s': Lock)
    ensures s'.cfg == s.cfg && |s'.pcs| == |s.pcs|
    decreases |sched|
  {
    if sched == [] then s
    else
      var k := |sched| - 1;
      StepOf(Exec(s, sched[..k]), sched[k])
  }

  predicate Initial(s: Lock) {
    && s.cfg.free != s.cfg.held
    && s.word == s.cfg.free
    && forall t :: 0 <= t < |s.pcs| ==> s.pcs[t] == Outside
  }

  // ---------- the invariant ----------

  predicate IsHolder(s: Lock, t: nat) { t < |s.pcs| && s.pcs[t] == Inside }

  // Awake in the lock loop, or between its releasing write and its FUTEX_WAKE.
  predicate WillAct(pc: Pc) { pc == Trying || pc == Waiting || pc == Waking }

  ghost predicate MutualExclusion(s: Lock) {
    forall t, u :: IsHolder(s, t) && IsHolder(s, u) ==> t == u
  }

  ghost predicate WordTellsHolder(s: Lock) {
    && (s.word == s.cfg.held || s.word == s.cfg.free)
    && (s.word == s.cfg.held <==> exists t :: IsHolder(s, t))
  }

  ghost predicate NoLostWake(s: Lock) {
    s.word == s.cfg.free && (exists u :: 0 <= u < |s.pcs| && s.pcs[u] == Asleep) ==>
      exists t :: 0 <= t < |s.pcs| && WillAct(s.pcs[t])
  }

  ghost predicate Inv(s: Lock) {
    && s.cfg.free != s.cfg.held
    && MutualExclusion(s)
    && WordTellsHolder(s)
    && NoLostWake(s)
    && (s.cfg.wait != Futex ==> forall t :: 0 <= t < |s.pcs| ==> s.pcs[t] != Asleep && s.pcs[t] != Waking)
  }

  // A step that leaves the word and every other thread alone keeps what holders there are.
  lemma MoveKeepsHolder(s: Lock, t: nat, pc: Pc, u: nat)
    requires t < |s.pcs| && (pc == Inside <==> s.pcs[t] == Inside)
    ensures IsHolder(SetPc(s, t, pc), u) <==> IsHolder(s, u)
  {
  }

  lemma MoveKeepsWord(s: Lock, t: nat, pc: Pc)
    requires Inv(s) && t < |s.pcs| && pc != Inside && s.pcs[t] != Inside
    ensures MutualExclusion(SetPc(s, t, pc)) && WordTellsHolder(SetPc(s, t, pc))
  {
    forall u ensures IsHolder(SetPc(s, t, pc), u) <==> IsHolder(s, u) {
      MoveKeepsHolder(s, t, pc, u);
    }
    if s.word == s.cfg.held {
      var h :| IsHolder(s, h);
      assert IsHolder(SetPc(s, t, pc), h);
    }
  }

  // A thread that becomes ready to act keeps the wake-up promise by itself.
  lemma MoveToAct(s: Lock, t: nat, pc: Pc)
    requires Inv(s) && t < |s.pcs| && (pc == Trying || pc == Waiting) && s.pcs[t] != Inside
    requires s.pcs[t] != Waking
    ensures Inv(SetPc(s, t, pc))
  {
    MoveKeepsWord(s, t, pc);
    assert WillAct(SetPc(s, t, pc).pcs[t]);
  }

  lemma FallAsleep(s: Lock, t: nat)
    requires Inv(s) && t < |s.pcs| && s.pcs[t] == Waiting && s.word == s.cfg.held && s.cfg.wait == Futex
    ensures Inv(SetPc(s, t, Asleep))
  {
    MoveKeepsWord(s, t, Asleep);
  }

  lemma Acquire(s: Lock, t: nat)
    requires Inv(s) && t < |s.pcs| && s.pcs[t] == Trying && s.word == s.cfg.free
    ensures Inv(SetPc(s, t, Inside).(word := s.cfg.held))
  {
    var s' := SetPc(s, t, Inside).(word := s.cfg.held);
    assert IsHolder(s', t);
    forall u | IsHolder(s', u) ensures u == t {
      assert u != t ==> IsHolder(s, u);
    }
  }

  lemma Release(s: Lock, t: nat)
    requires Inv(s) && t < |s.pcs| && s.pcs[t] == Inside
    ensures s.word == s.cfg.held
    ensures Inv(StepOf(s, Run(t, 0)))
  {
    assert IsHolder(s, t);
    var s' := StepOf(s, Run(t, 0));
    forall u ensures !IsHolder(s', u) {
      assert IsHolder(s', u) ==> IsHolder(s, u);
    }
    if s.cfg.wait == Futex {
      assert WillAct(s'.pcs[t]);
    }
  }

  lemma Wake(s: Lock, t: nat, wake: nat)
    requires Inv(s) && t < |s.pcs| && s.pcs[t] == Waking
    ensures Inv(StepOf(s, Run(t, wake)))
  {
    var s' := StepOf(s, Run(t, wake));
    var pcs := s.pcs[t := Outside];
    var u := Sleeper(pcs, Asleep, wake);
    forall v ensures IsHolder(s', v) <==> IsHolder(s, v) {
    }
    if s.word == s.cfg.held {
      var h :| IsHolder(s, h);
      assert IsHolder(s', h);
    }
    if u < |pcs| {
      assert WillAct(s'.pcs[u]);
    }
  }

  lemma StepKeepsInv(s: Lock, e: Event)
    requires Inv(s)
    ensures Inv(StepOf(s, e))
  {
    var t := e.t;
    if t < |s.pcs| {
      match e {
        case Spurious(_) =>
          if s.pcs[t] == Asleep {
            MoveToAct(s, t, Trying);
          }
        case Run(_, wake) =>
          match s.pcs[t] {
            case Outside => MoveToAct(s, t, Trying);
            case Trying =>
              if s.word == s.cfg.free {
                Acquire(s, t);
              } else if s.cfg.wait != Retry {
                MoveToAct(s, t, Waiting);
              }
            case Waiting =>
              if s.word != s.cfg.held {
                MoveToAct(s, t, Trying);
              } else if s.cfg.wait == Futex {
                FallAsleep(s, t);
              }
            case Asleep =>
            case Inside => Release(s, t);
            case Waking => Wake(s, t, wake);
          }
      }
    }
  }

  /** In every run of every lock, with either polarity: at most one holder, the word reads
      "held" exactly when there is one, and a free lock with a sleeper has someone awake who
      will act. */
  lemma {:induction false} LockSafe(s: Lock, sched: seq<Event>)
    requires Initial(s)
    ensures Inv(Exec(s, sched))
    decreases |sched|
  {
    if sched == [] {
      forall t ensures !IsHolder(s, t) {
      }
    } else {
      LockSafe(s, sched[..|sched| - 1]);
      StepKeepsInv(Exec(s, sched[..|sched| - 1]), sched[|sched| - 1]);
    }
  }

  /** The compare-and-exchange of `mutex_unlock` never fails for a holder, so the wake-up
      behind it is never skipped. */
  lemma ReleaseNeverSkipped(s: Lock, sched: seq<Event>, t: nat)
    requires Initial(s) && IsHolder(Exec(s, sched), t)
    ensures var r := Exec(s, sched);
            var r' := StepOf(r, Run(t, 0));
            r.word == r.cfg.held && r'.word == r.cfg.free && (r.cfg.wait == Futex ==> r'.pcs[t] == Waking)
  {
    LockSafe(s, sched);
    Release(Exec(s, sched), t);
  }

  /** No wake-up is lost: whenever the lock is free and a thread sleeps, at most two steps
      of threads already inside the lock or unlock code get the lock taken. */
  lemma FreeLockIsTaken(s: Lock, sched: seq<Event>, u: nat) returns (next: seq<Event>)
    requires Initial(s)
    requires var r := Exec(s, sched); u < |r.pcs| && r.word == r.cfg.free && r.pcs[u] == Asleep
    ensures 1 <= |next| <= 2
    ensures forall i :: 0 <= i < |next| ==> next[i].t < |s.pcs| && next[i].Run?
    ensures forall i :: 0 <= i < |next| ==>
              WillAct(Exec(Exec(s, sched), next[..i]).pcs[next[i].t])
    ensures Exec(Exec(s, sched), next).word == s.cfg.held
  {
    LockSafe(s, sched);
    var r := Exec(s, sched);
    var t :| 0 <= t < |r.pcs| && WillAct(r.pcs[t]);
    if r.pcs[t] == Trying {
      next := [Run(t, 0)];
      ExecOne(r, next, 0);
    } else if r.pcs[t] == Waiting {
      next := [Run(t, 0), Run(t, 0)];
      ExecOne(r, next, 0);
      ExecOne(r, next, 1);
    } else {
      next := [Run(t, u), Run(u, 0)];
      ExecOne(r, next, 0);
      ExecOne(r, next, 1);
    }
    assert next[..|next|] == next;
  }

  lemma ExecOne(r: Lock, next: seq<Event>, i: nat)
    requires i < |next|
    ensures Exec(r, next[..i + 1]) == StepOf(Exec(r, next[..i]), next[i])
  {
    assert next[..i + 1][..i] == next[..i];
  }

  /** Some thread can always make a step that is not a spurious return from FUTEX_WAIT,
      whatever the lock: its holder, somebody in the lock loop, or a thread outside. */
  lemma NeverStuck(s: Lock, sched: seq<Event>) returns (t: nat)
    requires Initial(s) && |s.pcs| > 0
    ensures t < |s.pcs| && StepOf(Exec(s, sched), Run(t, 0)) != Exec(s, sched)
  {
    LockSafe(s, sched);
    t := Mover(Exec(s, sched));
  }

  lemma Mover(s: Lock) returns (t: nat)
    requires Inv(s) && |s.pcs| > 0
    ensures t < |s.pcs| && StepOf(s, Run(t, 0)) != s
    ensures s.word == s.cfg.held <==> s.pcs[t] == Inside
  {
    if s.word == s.cfg.held {
      t :| IsHolder(s, t);
    } else {
      assert forall u :: !IsHolder(s, u);
      if u: nat :| u < |s.pcs| && WillAct(s.pcs[u]) {
        t := u;
        assert StepOf(s, Run(t, 0)).pcs[t] != s.pcs[t];
      } else {
        t := 0;
        assert !IsHolder(s, 0) && s.pcs[0] == Outside;
      }
    }
  }

  // ---------- what each step is for ----------

  ghost predicate SomeHolder(s: Lock) {
    exists h: nat :: IsHolder(s, h)
  }

  /** In every run: a thread enters exactly from its atomic exchange while nobody holds the
      lock, falls asleep exactly from FUTEX_WAIT while somebody does, and leaves whenever it
      moves. */
  lemma MovesExactly(s: Lock, sched: seq<Event>, t: nat, wake: nat)
    requires Initial(s) && t < |s.pcs|
    ensures var r := Exec(s, sched);
            var r' := StepOf(r, Run(t, wake));
            && (!IsHolder(r, t) && IsHolder(r', t) <==> r.pcs[t] == Trying && !SomeHolder(r))
            && (r.pcs[t] != Asleep && r'.pcs[t] == Asleep <==>
                r.pcs[t] == Waiting && r.cfg.wait == Futex && SomeHolder(r))
            && (IsHolder(r, t) ==> !SomeHolder(r'))
  {
    LockSafe(s, sched);
    var r := Exec(s, sched);
    StepKeepsInv(r, Run(t, wake));
    if IsHolder(r, t) {
      Release(r, t);
    }
  }

  /** FUTEX_WAKE after unlocking wakes exactly one sleeper if there is any; and FUTEX_WAIT may
      return for no reason, which sends exactly a sleeper back to its exchange. */
  lemma WakesExactlyOne(s: Lock, t: nat, wake: nat)
    requires t < |s.pcs|
    ensures s.pcs[t] == Waking ==>
              WakesOne(s.pcs[t := Outside], StepOf(s, Run(t, wake)).pcs, Asleep, Trying, wake)
    ensures StepOf(s, Spurious(t)) == if s.pcs[t] == Asleep then s.(pcs := s.pcs[t := Trying]) else s
  {
    WakeOneWakesOne(s.pcs[t := Outside], Asleep, Trying, wake);
  }

  // ---------- nobody is shut out ----------

  predicate OnlyRuns(sched: seq<Event>) {
    forall i :: 0 <= i < |sched| ==> sched[i].Run?
  }

  // Some schedule without spurious wake-ups takes s to s'.
  ghost predicate Leads(s: Lock, s': Lock) {
    exists next :: OnlyRuns(next) && Exec(s, next) == s'
  }

  lemma Stay(s: Lock)
    ensures Leads(s, s)
  {
    assert OnlyRuns([]) && Exec(s, []) == s;
  }

  // One step more, in which t may wake somebody.
  lemma Go(s: Lock, s1: Lock, t: nat, wake: nat) returns (s2: Lock)
    requires Leads(s, s1) && Inv(s1)
    ensures s2 == StepOf(s1, Run(t, wake)) && Leads(s, s2) && Inv(s2)
  {
    s2 := StepOf(s1, Run(t, wake));
    StepKeepsInv(s1, Run(t, wake));
    var next :| OnlyRuns(next) && Exec(s, next) == s1;
    var more := next + [Run(t, wake)];
    assert more[..|next|] == next;
    assert OnlyRuns(more) && Exec(s, more) == s2;
  }

  // The lock is free and t awake.
  predicate FreeFor(s: Lock, t: nat) {
    t < |s.pcs| && s.word == s.cfg.free && s.pcs[t] != Asleep && s.pcs[t] != Inside
  }

  // The holder leaves, and wakes t if t sleeps.
  lemma HolderLeaves(s: Lock, s1: Lock, h: nat, t: nat) returns (s2: Lock)
    requires Leads(s, s1) && Inv(s1) && IsHolder(s1, h) && t < |s1.pcs| && t != h
    ensures Leads(s, s2) && Inv(s2) && FreeFor(s2, t)
  {
    Release(s1, h);
    assert !IsHolder(s1, t);
    s2 := Go(s, s1, h, 0);
    if s1.pcs[t] == Asleep {
      s2 := Go(s, s2, h, t);
    }
  }

  // Somebody who will act sees to it that t gets woken.
  lemma ActorWakes(s: Lock, s1: Lock, v: nat, t: nat) returns (s2: Lock)
    requires Leads(s, s1) && Inv(s1) && t < |s1.pcs| && s1.pcs[t] == Asleep && s1.word == s1.cfg.free
    requires v < |s1.pcs| && WillAct(s1.pcs[v])
    ensures Leads(s, s2) && Inv(s2) && FreeFor(s2, t)
  {
    if s1.pcs[v] == Waking {
      s2 := Go(s, s1, v, t);
    } else {
      s2 := if s1.pcs[v] == Waiting then StepOf(s1, Run(v, 0)) else s1;
      if s1.pcs[v] == Waiting {
        s2 := Go(s, s1, v, 0);
      }
      s2 := Go(s, s2, v, 0);
      assert IsHolder(s2, v);
      s2 := HolderLeaves(s, s2, v, t);
    }
  }

  lemma MakeFree(s: Lock, s1: Lock, t: nat) returns (s2: Lock)
    requires Leads(s, s1) && Inv(s1) && t < |s1.pcs| && s1.pcs[t] != Inside
    ensures Leads(s, s2) && Inv(s2) && FreeFor(s2, t)
  {
    if s1.word == s1.cfg.held {
      var h :| IsHolder(s1, h);
      s2 := HolderLeaves(s, s1, h, t);
    } else if s1.pcs[t] == Asleep {
      var v: nat :| v < |s1.pcs| && WillAct(s1.pcs[v]);
      s2 := ActorWakes(s, s1, v, t);
    } else {
      s2 := s1;
    }
  }

  lemma Enters(s: Lock, s1: Lock, t: nat) returns (s2: Lock)
    requires Leads(s, s1) && Inv(s1) && FreeFor(s1, t)
    ensures Leads(s, s2) && IsHolder(s2, t)
  {
    s2 := s1;
    if s2.pcs[t] == Waking {
      s2 := Go(s, s2, t, t);
    }
    if s2.pcs[t] != Trying {
      s2 := Go(s, s2, t, t);
    }
    s2 := Go(s, s2, t, t);
  }

  /** From every reachable state every thread can get the lock, whoever holds it or sleeps,
      without any spurious wake-up. */
  lemma EveryoneCanEnter(s: Lock, sched: seq<Event>, t: nat) returns (more: seq<Event>)
    requires Initial(s) && t < |s.pcs|
    ensures OnlyRuns(more) && IsHolder(Exec(Exec(s, sched), more), t)
  {
    LockSafe(s, sched);
    var r := Exec(s, sched);
    Stay(r);
    if IsHolder(r, t) {
      more := [];
    } else {
      var r1 := MakeFree(r, r, t);
      var r2 := Enters(r, r1, t);
      more :| OnlyRuns(more) && Exec(r, more) == r2;
    }
  }

  // ---------- polarity ----------

  // The same threads at the same points, the word held in both or in neither.
  ghost predicate Alike(s: Lock, s': Lock) {
    && s.pcs == s'.pcs && s.cfg.wait == s'.cfg.wait
    && (s.word == s.cfg.held <==> s'.word == s'.cfg.held)
  }

  lemma StepAlike(s: Lock, s': Lock, e: Event)
    requires Inv(s) && Inv(s') && Alike(s, s')
    ensures Alike(StepOf(s, e), StepOf(s', e))
  {
    if e.t < |s.pcs| && s.pcs[e.t] == Inside {
      assert IsHolder(s, e.t) && IsHolder(s', e.t);
    }
  }

  /** The values that mean free and held do not matter, nor whether unlocking is a
      compare-and-exchange or a plain store: two locks with the same waiting policy behave
      alike in every run. */
  lemma {:induction false} RunsAlike(s: Lock, s': Lock, sched: seq<Event>)
    requires Initial(s) && Initial(s') && s.pcs == s'.pcs && s.cfg.wait == s'.cfg.wait
    ensures Alike(Exec(s, sched), Exec(s', sched))
    decreases |sched|
  {
    if sched != [] {
      var k := |sched| - 1;
      RunsAlike(s, s', sched[..k]);
      LockSafe(s, sched[..k]);
      LockSafe(s', sched[..k]);
      StepAlike(Exec(s, sched[..k]), Exec(s', sched[..k]), sched[k]);
    }
  }

  // A lock that n threads are about to use.
  function Fresh(cfg: Config, n: nat): (s: Lock)
    requires cfg.free != cfg.held
    ensures Initial(s) && |s.pcs| == n
  {
    Lock(cfg, cfg.free, seq(n, _ => Outside))
  }

  /** The four locks of the repository: all are safe in every run, and the two futex mutexes,
      of opposite polarity, take every schedule the same way. */
  lemma FourLocks(n: nat, sched: seq<Event>)
    ensures Inv(Exec(Fresh(SPIN_QUEUE, n), sched)) && Inv(Exec(Fresh(SPIN_TEST, n), sched))
    ensures Inv(Exec(Fresh(FUTEX_QUEUE, n), sched)) && Inv(Exec(Fresh(FUTEX_TEST, n), sched))
    ensures Alike(Exec(Fresh(FUTEX_QUEUE, n), sched), Exec(Fresh(FUTEX_TEST, n), sched))
  {
    LockSafe(Fresh(SPIN_QUEUE, n), sched);
    LockSafe(Fresh(SPIN_TEST, n), sched);
    LockSafe(Fresh(FUTEX_QUEUE, n), sched);
    LockSafe(Fresh(FUTEX_TEST, n), sched);
    RunsAlike(Fresh(FUTEX_QUEUE, n), Fresh(FUTEX_TEST, n), sched);
  }
}
