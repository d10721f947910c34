/** Every step of every thread keeps the invariant, and acts on the abstract order as
    `NextOrder` says. One lemma for each kind of shared access. */
module SwapSteps {
  import opened SwapProtocol
  import opened SwapInvariant

  // ---------- interference ----------

  // Facts only speak of the `next` fields of locked nodes.
  lemma FactsFramed(next: seq<int>, next': seq<int>, pc: Pc)
    requires |next| == |next'|
    requires Facts(next, pc)
    requires forall x :: x in Held(pc) && IsNode(|next|, x) ==> next[x] == next'[x]
    ensures Facts(next', pc)
  {
  }

  lemma HeldAreNodes(next: seq<int>, pc: Pc, x: int)
    requires Facts(next, pc) && x in Held(pc)
    ensures IsNode(|next|, x)
  {
  }

  // Exclusive owners are unique and exclude shared ones.
  lemma ExclusiveOwner(s: State, q: seq<int>, t: nat, u: nat, x: int)
    requires Inv(s, q) && t < |s.pcs| && u < |s.pcs| && t != u
    requires x in Held(s.pcs[t]) && !Shares(s.rw, s.pcs[t])
    ensures x !in Held(s.pcs[u])
  {
    HeldAreNodes(s.next, s.pcs[t], x);
    assert Owns(s.locks[x], t, false);
  }

  // A node locked by a thread that is not mid-swap is not mid-swap.
  lemma OwnedNotInFlight(s: State, q: seq<int>, t: nat, x: int)
    requires Inv(s, q) && t < |s.pcs| && x in Held(s.pcs[t]) && !MidSwap(s.pcs[t])
    ensures IsNode(|s.next|, x) && !InFlight(s, x) && Undone(s, x) == s.next[x]
  {
    HeldAreNodes(s.next, s.pcs[t], x);
    assert Owns(s.locks[x], t, Shares(s.rw, s.pcs[t]));
  }

  // ---------- steps that change neither the list nor a lock ----------

  ghost predicate QuietTo(s: State, t: nat, s': State, pc': Pc) {
    && Sized(s) && Sized(s')
    && t < |s.pcs|
    && s'.pcs == s.pcs[t := pc']
    && s'.next == s.next && s'.locks == s.locks && s'.rw == s.rw && s'.first == s.first
    && Held(pc') == Held(s.pcs[t]) && pc'.Read? == s.pcs[t].Read?
    && !MidSwap(s.pcs[t]) && !MidSwap(pc')
  }

  lemma QuietStep(s: State, q: seq<int>, t: nat, s': State, pc': Pc)
    requires Inv(s, q) && QuietTo(s, t, s', pc') && Facts(s.next, pc')
    ensures Inv(s', q)
  {
    forall x | 0 <= x < |s.next| ensures Undone(s', x) == Undone(s, x) {
    }
    forall u, x | 0 <= u < |s'.pcs| && 0 <= x < |s'.locks|
      ensures x in Held(s'.pcs[u]) <==> Owns(s'.locks[x], u, Shares(s'.rw, s'.pcs[u]))
    {
      assert x in Held(s.pcs[u]) <==> Owns(s.locks[x], u, Shares(s.rw, s.pcs[u]));
    }
    forall x | 0 <= x < |s'.locks| ensures KnownOwner(s', s'.locks[x]) {
      assert KnownOwner(s, s.locks[x]);
    }
  }

  // Away from try-locks and unlocks the locked nodes and the kind of thread stay.
  lemma ResumeKeepsHeld(pc: Pc, r: int)
    requires !ActionOf(pc).Try? && !ActionOf(pc).Release?
    ensures Held(Resume(pc, r)) == Held(pc)
    ensures Resume(pc, r).Read? == pc.Read?
  {
  }

  lemma ResumeMidSwap(pc: Pc, r: int)
    ensures MidSwap(Resume(pc, r)) <==> pc.Swap? && (pc.w.S116b? || pc.w.S117?)
  {
  }

  // ---------- loads ----------

  /** A load either goes through a node or is line 102 with a null pass pointer. */
  lemma LoadsNodes(next: seq<int>, pc: Pc)
    requires ActionOf(pc).Load? && Facts(next, pc)
    ensures IsNode(|next|, ActionOf(pc).addr) || pc == Head(S102(NULL))
  {
    match pc {
      case Head(_) =>
      case Scan(_) =>
      case Swap(_) =>
      case Read(_) =>
    }
  }

  lemma HeadLoad(s: State, q: seq<int>, t: nat)
    requires Inv(s, q) && t < |s.pcs| && s.pcs[t].Head?
    requires ActionOf(s.pcs[t]).Load? && IsNode(|s.next|, ActionOf(s.pcs[t]).addr)
    ensures Facts(s.next, Resume(s.pcs[t], s.next[ActionOf(s.pcs[t]).addr]))
  {
    assert Facts(s.next, s.pcs[t]);
    var x := ActionOf(s.pcs[t]).addr;
    assert IsPtr(|s.next|, s.next[x]);
    if s.pcs[t].h.S91? {
      NoSelfLoop(s, q, 0);
      if s.next[0] != NULL && |s.next| == 1 {
        assert q[0] == 0;
        SingleNodeNotInFlight(s, q);
      }
    }
    if s.pcs[t].h.S91b? {
      HeadSuccessor(s, q);
    }
  }

  lemma SingleNodeNotInFlight(s: State, q: seq<int>)
    requires Inv(s, q) && |s.next| == 1
    ensures Undone(s, 0) == s.next[0]
  {
    if InFlight(s, 0) {
      FlightNodes(s, q, 0);
    }
  }

  lemma FlightNodes(s: State, q: seq<int>, x: int)
    requires Inv(s, q) && IsNode(|s.next|, x) && InFlight(s, x)
    ensures var w := s.pcs[s.locks[x].owner].w; Distinct3(|s.next|, w.a, w.b, w.c)
  {
    assert Facts(s.next, s.pcs[s.locks[x].owner]);
  }

  lemma ScanLoad(s: State, q: seq<int>, t: nat)
    requires Inv(s, q) && t < |s.pcs| && s.pcs[t].Scan? && ActionOf(s.pcs[t]).Load?
    ensures IsNode(|s.next|, ActionOf(s.pcs[t]).addr)
    ensures Facts(s.next, Resume(s.pcs[t], s.next[ActionOf(s.pcs[t]).addr]))
  {
    assert Facts(s.next, s.pcs[t]);
    var pc := s.pcs[t].s;
    var x := ActionOf(s.pcs[t]).addr;
    assert IsPtr(|s.next|, s.next[x]);
    if pc.S110b? {
      OwnedNotInFlight(s, q, t, pc.a);
      NoSelfLoop(s, q, pc.a);
    } else if pc.S112d? {
      OwnedNotInFlight(s, q, t, pc.a);
      OwnedNotInFlight(s, q, t, pc.b);
      ThirdIsNew(s, q, pc.a, pc.b);
    }
  }

  // The node after a pair is neither of the two.
  lemma ThirdIsNew(s: State, q: seq<int>, a: int, b: int)
    requires Inv(s, q) && Pair(s.next, a, b) && s.next[b] != NULL
    requires Undone(s, a) == s.next[a] && Undone(s, b) == s.next[b]
    ensures s.next[b] != a && s.next[b] != b
  {
    SuccessorInOrder(s, q, a);
    SuccessorInOrder(s, q, b);
    assert IndexOf(q, b) == IndexOf(q, a) + 1;
  }

  lemma SwapLoad(s: State, q: seq<int>, t: nat)
    requires Inv(s, q) && t < |s.pcs| && s.pcs[t].Swap? && ActionOf(s.pcs[t]).Load?
    ensures IsNode(|s.next|, ActionOf(s.pcs[t]).addr)
    ensures Facts(s.next, Resume(s.pcs[t], s.next[ActionOf(s.pcs[t]).addr]))
  {
    assert Facts(s.next, s.pcs[t]);
  }

  // process_thread with at most one lock.
  lemma ReadLoadOne(s: State, q: seq<int>, t: nat)
    requires Inv(s, q) && t < |s.pcs| && s.pcs[t].Read? && ActionOf(s.pcs[t]).Load?
    requires !s.pcs[t].r.W53? && !s.pcs[t].r.W54? && !s.pcs[t].r.W57?
    ensures IsNode(|s.next|, ActionOf(s.pcs[t]).addr)
    ensures Facts(s.next, Resume(s.pcs[t], s.next[ActionOf(s.pcs[t]).addr]))
  {
    assert Facts(s.next, s.pcs[t]);
    var pc := s.pcs[t].r;
    var x := ActionOf(s.pcs[t]).addr;
    assert IsPtr(|s.next|, s.next[x]);
    if pc.W50b? {
      OwnedNotInFlight(s, q, t, pc.a);
      NoSelfLoop(s, q, pc.a);
    }
  }

  lemma ReadLoad(s: State, q: seq<int>, t: nat)
    requires Inv(s, q) && t < |s.pcs| && s.pcs[t].Read? && ActionOf(s.pcs[t]).Load?
    ensures IsNode(|s.next|, ActionOf(s.pcs[t]).addr)
    ensures Facts(s.next, Resume(s.pcs[t], s.next[ActionOf(s.pcs[t]).addr]))
  {
    if s.pcs[t].r.W53? || s.pcs[t].r.W54? || s.pcs[t].r.W57? {
      assert Facts(s.next, s.pcs[t]);
    } else {
      ReadLoadOne(s, q, t);
    }
  }

  lemma LoadStep(s: State, q: seq<int>, t: nat, coin: int)
    requires Inv(s, q) && t < |s.pcs| && ActionOf(s.pcs[t]).Load?
    ensures Inv(StepOf(s, t, coin), q)
  {
    var pc := s.pcs[t];
    var x := ActionOf(pc).addr;
    assert Facts(s.next, pc);
    LoadsNodes(s.next, pc);
    var s' := StepOf(s, t, coin);
    if IsNode(|s.next|, x) {
      match pc {
        case Head(_) => HeadLoad(s, q, t);
        case Scan(_) => ScanLoad(s, q, t);
        case Swap(_) => SwapLoad(s, q, t);
        case Read(_) => ReadLoad(s, q, t);
      }
      ResumeKeepsHeld(pc, s.next[x]);
      ResumeMidSwap(pc, s.next[x]);
      QuietStep(s, q, t, s', Resume(pc, s.next[x]));
    } else {
      QuietStep(s, q, t, s', Head(SFault));
    }
  }

  // ---------- steps on thread-local data ----------

  lemma HeadPure(s: State, q: seq<int>, t: nat, r: int)
    requires Inv(s, q) && t < |s.pcs| && s.pcs[t].Head?
    requires ActionOf(s.pcs[t]).ReadFirst? ==> r == s.first
    requires ActionOf(s.pcs[t]) in {ReadFirst, Flip, Idle, Count}
    ensures Facts(s.next, Resume(s.pcs[t], r))
  {
    assert Facts(s.next, s.pcs[t]);
  }

  lemma ReadPure(s: State, q: seq<int>, t: nat, r: int)
    requires Inv(s, q) && t < |s.pcs| && s.pcs[t].Read?
    requires ActionOf(s.pcs[t]).ReadFirst? ==> r == s.first
    requires ActionOf(s.pcs[t]) in {ReadFirst, Flip, Idle, Count}
    ensures Facts(s.next, Resume(s.pcs[t], r))
  {
    assert Facts(s.next, s.pcs[t]);
  }

  lemma PureResume(s: State, q: seq<int>, t: nat, r: int)
    requires Inv(s, q) && t < |s.pcs|
    requires ActionOf(s.pcs[t]).ReadFirst? ==> r == s.first
    requires ActionOf(s.pcs[t]) in {ReadFirst, Flip, Idle, Count}
    ensures Facts(s.next, Resume(s.pcs[t], r))
  {
    if s.pcs[t].Head? {
      HeadPure(s, q, t, r);
    } else if s.pcs[t].Read? {
      ReadPure(s, q, t, r);
    } else {
      assert Facts(s.next, s.pcs[t]);
    }
  }

  lemma PureStep(s: State, q: seq<int>, t: nat, coin: int)
    requires Inv(s, q) && t < |s.pcs| && ActionOf(s.pcs[t]) in {ReadFirst, Flip, Idle, Count}
    ensures Inv(StepOf(s, t, coin), q)
  {
    var pc := s.pcs[t];
    var r := if ActionOf(pc).ReadFirst? then s.first else if ActionOf(pc).Flip? then coin else 0;
    PureResume(s, q, t, r);
    ResumeKeepsHeld(pc, r);
    ResumeMidSwap(pc, r);
    QuietStep(s, q, t, StepOf(s, t, coin), Resume(pc, r));
  }

  // ---------- try-locks ----------

  lemma TriedNode(s: State, q: seq<int>, t: nat)
    requires Inv(s, q) && t < |s.pcs| && ActionOf(s.pcs[t]).Try?
    ensures IsNode(|s.next|, ActionOf(s.pcs[t]).addr)
  {
    assert Facts(s.next, s.pcs[t]);
  }

  ghost predicate TriesWell(next: seq<int>, pc: Pc) {
    && ActionOf(pc).Try?
    && (var pc' := Resume(pc, 1);
        Held(pc') == Held(pc) && pc'.Read? == pc.Read? && Facts(next, pc'))
    && (var pc' := Resume(pc, 0);
        Held(pc') == Held(pc) + {ActionOf(pc).addr} && pc'.Read? == pc.Read? && Facts(next, pc'))
  }

  lemma ScanTryResume(next: seq<int>, pc: Pc)
    requires pc.Scan? && ActionOf(pc).Try? && Facts(next, pc)
    ensures TriesWell(next, pc)
  {
  }

  lemma ReadTryResume(next: seq<int>, pc: Pc)
    requires pc.Read? && ActionOf(pc).Try? && Facts(next, pc)
    ensures TriesWell(next, pc)
  {
  }

  // A refused try-lock changes nothing; a granted one adds the node to the locked ones.
  lemma TryResume(next: seq<int>, pc: Pc)
    requires ActionOf(pc).Try? && Facts(next, pc)
    ensures TriesWell(next, pc)
  {
    if pc.Scan? {
      ScanTryResume(next, pc);
    } else {
      ReadTryResume(next, pc);
    }
  }

  lemma GrantKeepsOwnership(s: State, q: seq<int>, t: nat, x: int, s': State)
    requires Inv(s, q) && Sized(s') && t < |s.pcs| && IsNode(|s.next|, x)
    requires s'.rw == s.rw && |s'.pcs| == |s.pcs| && |s'.next| == |s.next|
    requires s'.pcs == s.pcs[t := s'.pcs[t]] && s'.pcs[t].Read? == s.pcs[t].Read?
    requires Held(s'.pcs[t]) == Held(s.pcs[t]) + {x}
    requires Grants(s.locks[x], Shares(s.rw, s.pcs[t]))
    requires s'.locks == s.locks[x := Granted(s.locks[x], t, Shares(s.rw, s.pcs[t]))]
    ensures Ownership(s') && KnownOwners(s')
  {
    forall u, y | 0 <= u < |s'.pcs| && 0 <= y < |s'.locks|
      ensures y in Held(s'.pcs[u]) <==> Owns(s'.locks[y], u, Shares(s'.rw, s'.pcs[u]))
    {
      assert y in Held(s.pcs[u]) <==> Owns(s.locks[y], u, Shares(s.rw, s.pcs[u]));
      assert KnownOwner(s, s.locks[y]);
    }
    forall y | 0 <= y < |s'.locks| ensures KnownOwner(s', s'.locks[y]) {
      assert KnownOwner(s, s.locks[y]);
    }
  }

  // Acquiring or releasing a lock outside the stores does not touch the abstraction.
  lemma LockKeepsOrder(s: State, q: seq<int>, t: nat, x: int, s': State)
    requires Inv(s, q) && Sized(s') && t < |s.pcs| && IsNode(|s.next|, x)
    requires s'.next == s.next && s'.first == s.first && |s'.pcs| == |s.pcs|
    requires s'.pcs == s.pcs[t := s'.pcs[t]] && !MidSwap(s.pcs[t]) && !MidSwap(s'.pcs[t])
    requires s'.locks == s.locks[x := s'.locks[x]]
    requires s.locks[x].Readers? || s.locks[x] == Writer(t)
    requires s'.locks[x].Readers? || s'.locks[x] == Writer(t)
    ensures Represents(s', q)
  {
    forall y | 0 <= y < |s.next| ensures Undone(s', y) == Undone(s, y) {
    }
  }

  lemma TryStep(s: State, q: seq<int>, t: nat, coin: int)
    requires Inv(s, q) && t < |s.pcs| && ActionOf(s.pcs[t]).Try?
    ensures Inv(StepOf(s, t, coin), q)
  {
    var pc := s.pcs[t];
    var x := ActionOf(pc).addr;
    var s' := StepOf(s, t, coin);
    assert Facts(s.next, pc);
    TriedNode(s, q, t);
    TryResume(s.next, pc);
    ResumeMidSwap(pc, 0);
    ResumeMidSwap(pc, 1);
    if Grants(s.locks[x], Shares(s.rw, pc)) {
      GrantKeepsOwnership(s, q, t, x, s');
      LockKeepsOrder(s, q, t, x, s');
    } else {
      QuietStep(s, q, t, s', Resume(pc, 1));
    }
  }

  // ---------- unlocks ----------

  /** An unlock names a node its caller has locked, and gives up exactly that one: the
      pointers reloaded at lines 121, 122, 130 and 138 are the nodes locked before. */
  lemma ReleaseResume(next: seq<int>, pc: Pc)
    requires ActionOf(pc).Release? && Facts(next, pc)
    ensures ActionOf(pc).addr in Held(pc)
    ensures var pc' := Resume(pc, 0);
            Held(pc') == Held(pc) - {ActionOf(pc).addr} && pc'.Read? == pc.Read? && Facts(next, pc')
  {
    match pc {
      case Head(_) =>
      case Scan(_) =>
      case Swap(_) =>
      case Read(_) =>
    }
  }

  lemma ReleaseKeepsOwnership(s: State, q: seq<int>, t: nat, x: int, s': State)
    requires Inv(s, q) && Sized(s') && t < |s.pcs| && IsNode(|s.next|, x)
    requires s'.rw == s.rw && |s'.pcs| == |s.pcs| && |s'.next| == |s.next|
    requires s'.pcs == s.pcs[t := s'.pcs[t]] && s'.pcs[t].Read? == s.pcs[t].Read?
    requires x in Held(s.pcs[t]) && Held(s'.pcs[t]) == Held(s.pcs[t]) - {x}
    requires s'.locks == s.locks[x := Released(s.locks[x], t)]
    ensures Ownership(s') && KnownOwners(s')
  {
    assert Owns(s.locks[x], t, Shares(s.rw, s.pcs[t]));
    forall u, y | 0 <= u < |s'.pcs| && 0 <= y < |s'.locks|
      ensures y in Held(s'.pcs[u]) <==> Owns(s'.locks[y], u, Shares(s'.rw, s'.pcs[u]))
    {
      assert y in Held(s.pcs[u]) <==> Owns(s.locks[y], u, Shares(s.rw, s.pcs[u]));
    }
    forall y | 0 <= y < |s'.locks| ensures KnownOwner(s', s'.locks[y]) {
      assert KnownOwner(s, s.locks[y]);
    }
  }

  lemma ReleaseStep(s: State, q: seq<int>, t: nat, coin: int)
    requires Inv(s, q) && t < |s.pcs| && ActionOf(s.pcs[t]).Release?
    ensures Inv(StepOf(s, t, coin), q)
  {
    var pc := s.pcs[t];
    var x := ActionOf(pc).addr;
    var s' := StepOf(s, t, coin);
    assert Facts(s.next, pc);
    ReleaseResume(s.next, pc);
    HeldAreNodes(s.next, pc, x);
    assert Owns(s.locks[x], t, Shares(s.rw, pc));
    ResumeMidSwap(pc, 0);
    ReleaseKeepsOwnership(s, q, t, x, s');
    LockKeepsOrder(s, q, t, x, s');
  }

  // ---------- the three stores ----------

  // A store goes to a node its thread has locked exclusively.
  lemma StoreToOwn(s: State, q: seq<int>, t: nat)
    requires Inv(s, q) && t < |s.pcs| && ActionOf(s.pcs[t]).Store?
    ensures s.pcs[t].Swap?
    ensures ActionOf(s.pcs[t]).addr in Held(s.pcs[t])
    ensures IsNode(|s.next|, ActionOf(s.pcs[t]).addr)
    ensures s.locks[ActionOf(s.pcs[t]).addr] == Writer(t)
  {
    var pc := s.pcs[t];
    var x := ActionOf(pc).addr;
    assert Facts(s.next, pc);
    assert x in Held(pc);
    assert Owns(s.locks[x], t, Shares(s.rw, pc));
  }

  // Whatever t stores, the other threads keep their facts and everyone their locks.
  lemma StoreFrame(s: State, q: seq<int>, t: nat, s': State)
    requires Inv(s, q) && t < |s.pcs| && ActionOf(s.pcs[t]).Store?
    requires s' == StepOf(s, t, 0)
    ensures Ownership(s') && KnownOwners(s')
    ensures forall u :: 0 <= u < |s.pcs| && u != t ==> Facts(s'.next, s'.pcs[u])
  {
    StoreToOwn(s, q, t);
    var pc := s.pcs[t];
    ResumeKeepsHeld(pc, 0);
    forall u | 0 <= u < |s.pcs| && u != t ensures Facts(s'.next, s'.pcs[u]) {
      assert Facts(s.next, s.pcs[u]);
      ExclusiveOwner(s, q, t, u, ActionOf(pc).addr);
      FactsFramed(s.next, s'.next, s.pcs[u]);
    }
    forall u, x | 0 <= u < |s'.pcs| && 0 <= x < |s'.locks|
      ensures x in Held(s'.pcs[u]) <==> Owns(s'.locks[x], u, Shares(s'.rw, s'.pcs[u]))
    {
      assert x in Held(s.pcs[u]) <==> Owns(s.locks[x], u, Shares(s.rw, s.pcs[u]));
    }
    forall x | 0 <= x < |s'.locks| ensures KnownOwner(s', s'.locks[x]) {
      assert KnownOwner(s, s.locks[x]);
    }
  }

  // The three nodes of a thread that is storing.
  lemma StoringTriple(s: State, q: seq<int>, t: nat)
    requires Inv(s, q) && t < |s.pcs| && ActionOf(s.pcs[t]).Store?
    ensures var w := s.pcs[t].w;
            && Distinct3(|s.next|, w.a, w.b, w.c) && w.c2 == w.b && w.c3 == w.c
            && s.locks[w.a] == Writer(t) && s.locks[w.b] == Writer(t) && s.locks[w.c] == Writer(t)
            && Undone(s, w.a) == w.b && Undone(s, w.b) == w.c
            && s.next[w.a] == w.b
  {
    StoreToOwn(s, q, t);
    var pc := s.pcs[t];
    var w := pc.w;
    assert Facts(s.next, pc);
    assert w.a in Held(pc) && w.b in Held(pc) && w.c in Held(pc);
    assert Owns(s.locks[w.a], t, false) && Owns(s.locks[w.b], t, false) && Owns(s.locks[w.c], t, false);
  }

  // A storing thread holds nothing exclusively but its three nodes.
  lemma StoringHolds(s: State, q: seq<int>, t: nat, x: int)
    requires Inv(s, q) && t < |s.pcs| && ActionOf(s.pcs[t]).Store? && IsNode(|s.next|, x)
    requires x != s.pcs[t].w.a && x != s.pcs[t].w.b && x != s.pcs[t].w.c
    ensures s.locks[x] != Writer(t)
  {
    assert x !in Held(s.pcs[t]);
    assert !Owns(s.locks[x], t, Shares(s.rw, s.pcs[t]));
  }

  // Nodes outside the storing thread's triple keep their undone successor.
  lemma UndoneElsewhere(s: State, q: seq<int>, t: nat, s': State, y: int)
    requires Inv(s, q) && t < |s.pcs| && ActionOf(s.pcs[t]).Store?
    requires s' == StepOf(s, t, 0)
    requires IsNode(|s.next|, y)
    requires y != s.pcs[t].w.a && y != s.pcs[t].w.b && y != s.pcs[t].w.c
    ensures Undone(s', y) == Undone(s, y)
  {
    StoringTriple(s, q, t);
    var x := ActionOf(s.pcs[t]).addr;
    assert s'.next[y] == s.next[y];
    StoringHolds(s, q, t, y);
    if MidC(s, y) {
      var u := s.locks[y].owner;
      var b := s.pcs[u].w.b;
      assert Facts(s.next, s.pcs[u]);
      assert b in Held(s.pcs[u]);
      assert Owns(s.locks[b], u, false);
      assert b != x;
    }
  }

  // What the three stores do, spelled out.
  lemma StoreEffect(s: State, q: seq<int>, t: nat, s': State)
    requires Inv(s, q) && t < |s.pcs| && ActionOf(s.pcs[t]).Store?
    requires s' == StepOf(s, t, 0)
    ensures s'.locks == s.locks && s'.first == s.first && |s'.pcs| == |s.pcs|
    ensures s'.pcs == s.pcs[t := s'.pcs[t]]
    ensures Distinct3(|s.next|, s.pcs[t].w.a, s.pcs[t].w.b, s.pcs[t].w.c)
    ensures var w := s.pcs[t].w;
            match w
            case S116b(a, b, c, _, _, _) =>
              s'.next == s.next[b := s.next[c]] && s'.pcs[t] == Swap(S117(a, b, c, b, c))
            case S117(a, b, c, _, _) =>
              s'.next == s.next[c := b] && s'.pcs[t] == Swap(S118(a, b, c, b, c))
            case S118(a, b, c, _, _) =>
              s'.next == s.next[a := c] && s'.pcs[t] == Swap(S119(a, b, c))
            case _ => false
  {
    StoringTriple(s, q, t);
    assert Facts(s.next, s.pcs[t]);
  }

  // Lines 116 and 117 leave the abstract order alone.
  lemma EarlyStoreUndone(s: State, q: seq<int>, t: nat, s': State)
    requires Inv(s, q) && t < |s.pcs| && ActionOf(s.pcs[t]).Store? && !AtCommit(s.pcs[t])
    requires s' == StepOf(s, t, 0)
    ensures var w := s.pcs[t].w;
            IsNode(|s.next|, w.a) && IsNode(|s.next|, w.b) && IsNode(|s.next|, w.c)
            && Undone(s', w.a) == Undone(s, w.a)
            && Undone(s', w.b) == Undone(s, w.b)
            && Undone(s', w.c) == Undone(s, w.c)
    ensures Facts(s'.next, s'.pcs[t])
  {
    StoringTriple(s, q, t);
    StoreEffect(s, q, t, s');
    assert Facts(s.next, s.pcs[t]);
  }

  lemma EarlyStoreKeepsOrder(s: State, q: seq<int>, t: nat, s': State)
    requires Inv(s, q) && t < |s.pcs| && ActionOf(s.pcs[t]).Store? && !AtCommit(s.pcs[t])
    requires s' == StepOf(s, t, 0)
    ensures Represents(s', q)
  {
    EarlyStoreUndone(s, q, t, s');
    StoreEffect(s, q, t, s');
    forall y | 0 <= y < |s.next| ensures Undone(s', y) == Undone(s, y) {
      var w := s.pcs[t].w;
      if y != w.a && y != w.b && y != w.c {
        UndoneElsewhere(s, q, t, s', y);
      }
    }
  }

  lemma ExchangeIsOrder(n: nat, q: seq<int>, i: nat)
    requires IsOrder(n, q) && i + 1 < n
    ensures IsOrder(n, Exchange(q, i))
  {
    var r := Exchange(q, i);
    forall x | 0 <= x < n ensures x in r {
      var j := IndexOf(q, x);
      if j == i {
        assert r[i + 1] == x;
      } else if j == i + 1 {
        assert r[i] == x;
      } else {
        assert r[j] == x;
      }
    }
  }

  lemma CommitUndone(s: State, q: seq<int>, t: nat, s': State)
    requires Inv(s, q) && t < |s.pcs| && AtCommit(s.pcs[t])
    requires s' == StepOf(s, t, 0)
    ensures var w := s.pcs[t].w;
            Distinct3(|s.next|, w.a, w.b, w.c)
            && Undone(s', w.a) == w.c && Undone(s', w.c) == w.b && Undone(s', w.b) == Undone(s, w.c)
    ensures Facts(s'.next, s'.pcs[t])
  {
    StoringTriple(s, q, t);
    StoreEffect(s, q, t, s');
    assert Facts(s.next, s.pcs[t]);
  }

  // Links a to c to b and on, where q has a, b, c, are the links of the exchanged order.
  lemma TripleInOrder(s: State, q: seq<int>, k: nat, i: int)
    requires Sized(s) && k + 2 < |q| && k <= i <= k + 2
    requires IsNode(|s.next|, q[k]) && IsNode(|s.next|, q[k + 1]) && IsNode(|s.next|, q[k + 2])
    requires Undone(s, q[k]) == q[k + 2] && Undone(s, q[k + 2]) == q[k + 1]
    requires Undone(s, q[k + 1]) == Succ(q, k + 2)
    ensures var r := Exchange(q, k + 1);
            IsNode(|s.next|, r[i]) && Undone(s, r[i]) == Succ(r, i)
  {
  }

  // With the other links as in q, that makes the whole list the exchanged order.
  lemma ListInOrder(s: State, q: seq<int>, k: nat)
    requires Sized(s) && IsOrder(|s.next|, q) && k + 2 < |q| && q[0] == 0 && s.first == 0
    requires forall i :: 0 <= i < |q| && !(k <= i <= k + 2) ==> Undone(s, q[i]) == Succ(q, i)
    requires Undone(s, q[k]) == q[k + 2] && Undone(s, q[k + 2]) == q[k + 1]
    requires Undone(s, q[k + 1]) == Succ(q, k + 2)
    ensures Represents(s, Exchange(q, k + 1))
  {
    var r := Exchange(q, k + 1);
    ExchangeIsOrder(|s.next|, q, k + 1);
    forall i | 0 <= i < |r| ensures Undone(s, r[i]) == Succ(r, i) {
      if k <= i <= k + 2 {
        TripleInOrder(s, q, k, i);
      } else {
        assert r[i] == q[i] && Succ(r, i) == Succ(q, i);
      }
    }
  }

  /** Line 118 is where the swap takes effect: the two elements after `curr1` change
      places in the abstract order, and nothing else moves. */
  lemma CommitSwapsOrder(s: State, q: seq<int>, t: nat, s': State)
    requires Inv(s, q) && t < |s.pcs| && AtCommit(s.pcs[t])
    requires s' == StepOf(s, t, 0)
    ensures s.pcs[t].w.a in q && IndexOf(q, s.pcs[t].w.a) + 2 < |q|
    ensures Represents(s', Exchange(q, IndexOf(q, s.pcs[t].w.a) + 1))
  {
    StoringTriple(s, q, t);
    CommitUndone(s, q, t, s');
    StoreEffect(s, q, t, s');
    var w := s.pcs[t].w;
    TriplePosition(s, q, w.a, w.b, w.c);
    var k := IndexOf(q, w.a);
    forall i | 0 <= i < |q| && !(k <= i <= k + 2) ensures Undone(s', q[i]) == Succ(q, i) {
      UndoneElsewhere(s, q, t, s', q[i]);
    }
    ListInOrder(s', q, k);
  }

  lemma PointersStayValid(s: State, q: seq<int>, t: nat, s': State)
    requires Inv(s, q) && t < |s.pcs| && ActionOf(s.pcs[t]).Store?
    requires s' == StepOf(s, t, 0)
    ensures forall x :: 0 <= x < |s'.next| ==> IsPtr(|s'.next|, s'.next[x])
  {
    StoringTriple(s, q, t);
    StoreEffect(s, q, t, s');
  }

  lemma StoreStep(s: State, q: seq<int>, t: nat, s': State)
    requires Inv(s, q) && t < |s.pcs| && ActionOf(s.pcs[t]).Store?
    requires s' == StepOf(s, t, 0)
    ensures Inv(s', NextOrder(s, q, t))
  {
    StoreFrame(s, q, t, s');
    PointersStayValid(s, q, t, s');
    StoringTriple(s, q, t);
    if AtCommit(s.pcs[t]) {
      CommitUndone(s, q, t, s');
      CommitSwapsOrder(s, q, t, s');
    } else {
      EarlyStoreUndone(s, q, t, s');
      EarlyStoreKeepsOrder(s, q, t, s');
    }
  }

  // ---------- every step, every run ----------

  lemma OnlyStoresMoveOrder(s: State, q: seq<int>, t: nat)
    requires t < |s.pcs|
    ensures !ActionOf(s.pcs[t]).Store? ==> NextOrder(s, q, t) == q
  {
  }

  lemma CoinUnused(s: State, t: nat, coin: int)
    requires Sized(s) && t < |s.pcs| && !ActionOf(s.pcs[t]).Flip?
    ensures StepOf(s, t, coin) == StepOf(s, t, 0)
  {
  }

  /** Forward simulation: each step of each thread keeps the invariant, and the abstract
      order moves exactly as `NextOrder` says. */
  lemma StepKeepsInv(s: State, q: seq<int>, t: nat, coin: int)
    requires Inv(s, q)
    ensures Inv(StepOf(s, t, coin), NextOrder(s, q, t))
  {
    if t < |s.pcs| {
      OnlyStoresMoveOrder(s, q, t);
      match ActionOf(s.pcs[t])
      case Load(_) => LoadStep(s, q, t, coin);
      case Try(_) => TryStep(s, q, t, coin);
      case Release(_) => ReleaseStep(s, q, t, coin);
      case Store(_, _) =>
        CoinUnused(s, t, coin);
        StoreStep(s, q, t, StepOf(s, t, 0));
      case _ => PureStep(s, q, t, coin);
    }
  }
}
