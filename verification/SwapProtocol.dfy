/** The threads of lab2/3 as a transition system: several swappers (`swap_thread`) and
    readers (`process_thread`) over one singly linked list with a lock in every node.

    Nodes are the numbers 0..|next|; node k is the k-th one `fill_storage` appended.
    One step of one thread performs one shared access: a load, a store, a try-lock,
    an unlock or a counter update. Program points are named after the lines of
    lab2/3/mutex/main.c; a letter follows when one line makes several accesses. */
module SwapProtocol {
  const NULL: int := -1

  // A node's lock. A free lock has no reader. Mutexes and spinlocks only use `Writer`.
  datatype Lock = Writer(owner: nat) | Readers(ts: set<nat>)

  const FREE: Lock := Readers({})

  /** Program points, by phase. `cur` is the pass pointer while the thread holds no lock
      through it; `a`, `b`, `c` are the nodes the thread has locked, in locking order (`a`
      is also the pass pointer while it is locked); `c2`, `c3`, `cur` are the program's own
      variables and `x`, `p` the values of sub-expressions already loaded. */
  datatype Pc =
    | Head(h: HeadPc)  // swap_thread before a pass, and the pass that swaps nothing
    | Scan(s: ScanPc)  // swap_thread, up to three locks, no store
    | Swap(w: SwapPc)  // swap_thread with three locks
    | Read(r: ReadPc)  // process_thread

  datatype HeadPc =
    | S90
    | S91(cur: int) | S91b(cur: int) | S91c(cur: int, x: int)
    | S97(cur: int)
    | S102(cur: int) | S103(cur: int)
    | SStopped
    | SFault  // a null pointer was dereferenced

  datatype ScanPc =
    | S108(cur: int) | S148(cur: int)
    | S110(a: int) | S110b(a: int) | S110c(a: int, p: int)
    | S112(a: int, b: int) | S112b(a: int, b: int, x: int)
    | S112c(a: int, b: int) | S112d(a: int, b: int, x: int) | S112e(a: int, b: int, p: int)
    | S130(a: int, b: int) | S131(a: int, b: int, cur: int) | S132(b: int, cur: int)
    | S138(a: int) | S139(a: int, cur: int)

  datatype SwapPc =
    | S114(a: int, b: int, c: int)
    | S115(a: int, b: int, c: int, c2: int) | S115b(a: int, b: int, c: int, c2: int, x: int)
    | S116(a: int, b: int, c: int, c2: int, c3: int)
    | S116b(a: int, b: int, c: int, c2: int, c3: int, x: int)
    | S117(a: int, b: int, c: int, c2: int, c3: int)
    | S118(a: int, b: int, c: int, c2: int, c3: int)
    | S119(a: int, b: int, c: int)
    | S121(a: int, b: int, c: int) | S122(a: int, b: int, c: int, cur: int)
    | S123(a: int, b: int, c: int, cur: int, c2: int)
    | S124(b: int, c: int, cur: int, c2: int) | S125(b: int, cur: int, c2: int)

  datatype ReadPc =
    | W31 | W31b(cur: int) | W39 | W40(cur: int)
    | W48(cur: int) | W74(cur: int)
    | W50(a: int) | W50b(a: int) | W50c(a: int, p: int)
    | W53(a: int, b: int) | W54(a: int, b: int, c2: int) | W57(a: int, b: int)
    | W58(a: int, b: int, cur: int) | W59(b: int, cur: int)
    | W64(a: int) | W65(a: int, cur: int)
    | W77
    | WStopped
    | WFault

  // The shared access a program point makes.
  datatype Action =
    | ReadFirst
    | Load(addr: int)
    | Try(addr: int)
    | Release(addr: int)
    | Store(addr: int, val: int)
    | Count
    | Flip
    | Idle

  function HeadAction(pc: HeadPc): Action {
    match pc
    case S90 => ReadFirst
    case S91(cur) => Load(cur)
    case S91b(cur) => Load(cur)
    case S91c(_, x) => Load(x)
    case S97(_) => Flip
    case S102(cur) => Load(cur)
    case S103(cur) => Load(cur)
    case _ => Idle
  }

  function ScanAction(pc: ScanPc): Action {
    match pc
    case S108(cur) => if cur == NULL then Idle else Try(cur)
    case S148(cur) => Load(cur)
    case S110(a) => Load(a)
    case S110b(a) => Load(a)
    case S110c(_, p) => Try(p)
    case S112(a, _) => Load(a)
    case S112b(_, _, x) => Load(x)
    case S112c(a, _) => Load(a)
    case S112d(_, _, x) => Load(x)
    case S112e(_, _, p) => Try(p)
    case S130(a, _) => Load(a)
    case S131(a, _, _) => Release(a)
    case S132(_, cur) => Release(cur)
    case S138(a) => Load(a)
    case S139(a, _) => Release(a)
  }

  function SwapAction(pc: SwapPc): Action {
    match pc
    case S114(a, _, _) => Load(a)
    case S115(a, _, _, _) => Load(a)
    case S115b(_, _, _, _, x) => Load(x)
    case S116(_, _, _, _, c3) => Load(c3)
    case S116b(_, _, _, c2, _, x) => Store(c2, x)
    case S117(_, _, _, c2, c3) => Store(c3, c2)
    case S118(a, _, _, _, c3) => Store(a, c3)
    case S119(_, _, _) => Count
    case S121(a, _, _) => Load(a)
    case S122(_, _, _, cur) => Load(cur)
    case S123(a, _, _, _, _) => Release(a)
    case S124(_, _, cur, _) => Release(cur)
    case S125(_, _, c2) => Release(c2)
  }

  function ReadAction(pc: ReadPc): Action {
    match pc
    case W31 => ReadFirst
    case W31b(cur) => Load(cur)
    case W39 => ReadFirst
    case W40(cur) => Load(cur)
    case W48(cur) => if cur == NULL then Idle else Try(cur)
    case W74(cur) => Load(cur)
    case W50(a) => Load(a)
    case W50b(a) => Load(a)
    case W50c(_, p) => Try(p)
    case W53(a, _) => Load(a)
    case W54(_, _, c2) => Load(c2)  // compares the two values; the result is discarded
    case W57(a, _) => Load(a)
    case W58(a, _, _) => Release(a)
    case W59(_, cur) => Release(cur)
    case W64(a) => Load(a)
    case W65(a, _) => Release(a)
    case W77 => Count
    case _ => Idle
  }

  function ActionOf(pc: Pc): Action {
    match pc
    case Head(h) => HeadAction(h)
    case Scan(s) => ScanAction(s)
    case Swap(w) => SwapAction(w)
    case Read(r) => ReadAction(r)
  }

  // The next program point, given what the access returned: the pointer loaded, 0 or EBUSY
  // from a try-lock, the coin of line 97.

  function HeadResume(pc: HeadPc, r: int): Pc {
    match pc
    case S90 => if r == NULL then Head(SStopped) else Head(S91(r))
    case S91(cur) => if r == NULL then Head(SStopped) else Head(S91b(cur))
    case S91b(cur) => Head(S91c(cur, r))
    case S91c(cur, _) => if r == NULL then Head(SStopped) else Head(S97(cur))
    case S97(cur) => if r == 0 then Head(S102(cur)) else Scan(S108(cur))
    case S102(cur) => if r != NULL then Head(S103(cur)) else Head(S90)
    case S103(_) => Head(S102(r))
    case _ => Head(pc)
  }

  function ScanResume(pc: ScanPc, r: int): Pc {
    match pc
    case S108(cur) => if cur == NULL then Head(S90) else if r == 0 then Scan(S110(cur)) else Scan(S148(cur))
    case S148(_) => Scan(S108(r))
    case S110(a) => if r != NULL then Scan(S110b(a)) else Scan(S138(a))
    case S110b(a) => Scan(S110c(a, r))
    case S110c(a, p) => if r == 0 then Scan(S112(a, p)) else Scan(S138(a))
    case S112(a, b) => Scan(S112b(a, b, r))
    case S112b(a, b, _) => if r != NULL then Scan(S112c(a, b)) else Scan(S130(a, b))
    case S112c(a, b) => Scan(S112d(a, b, r))
    case S112d(a, b, _) => Scan(S112e(a, b, r))
    case S112e(a, b, p) => if r == 0 then Swap(S114(a, b, p)) else Scan(S130(a, b))
    case S130(a, b) => Scan(S131(a, b, r))
    case S131(_, b, cur) => Scan(S132(b, cur))
    case S132(_, cur) => Scan(S108(cur))
    case S138(a) => Scan(S139(a, r))
    case S139(_, cur) => Scan(S108(cur))
  }

  function SwapResume(pc: SwapPc, r: int): Pc {
    match pc
    case S114(a, b, c) => Swap(S115(a, b, c, r))
    case S115(a, b, c, c2) => Swap(S115b(a, b, c, c2, r))
    case S115b(a, b, c, c2, _) => Swap(S116(a, b, c, c2, r))
    case S116(a, b, c, c2, c3) => Swap(S116b(a, b, c, c2, c3, r))
    case S116b(a, b, c, c2, c3, _) => Swap(S117(a, b, c, c2, c3))
    case S117(a, b, c, c2, c3) => Swap(S118(a, b, c, c2, c3))
    case S118(a, b, c, _, _) => Swap(S119(a, b, c))
    case S119(a, b, c) => Swap(S121(a, b, c))
    case S121(a, b, c) => Swap(S122(a, b, c, r))
    case S122(a, b, c, cur) => Swap(S123(a, b, c, cur, r))
    case S123(_, b, c, cur, c2) => Swap(S124(b, c, cur, c2))
    case S124(b, _, cur, c2) => Swap(S125(b, cur, c2))
    case S125(_, cur, _) => Scan(S108(cur))
  }

  function ReadResume(pc: ReadPc, r: int): Pc {
    match pc
    case W31 => if r == NULL then Read(WStopped) else Read(W31b(r))
    case W31b(_) => if r == NULL then Read(WStopped) else Read(W39)
    case W39 => if r == NULL then Read(WStopped) else Read(W40(r))
    case W40(cur) => if r == NULL then Read(WStopped) else Read(W48(cur))
    case W48(cur) => if cur == NULL then Read(W77) else if r == 0 then Read(W50(cur)) else Read(W74(cur))
    case W74(_) => Read(W48(r))
    case W50(a) => if r != NULL then Read(W50b(a)) else Read(W64(a))
    case W50b(a) => Read(W50c(a, r))
    case W50c(a, p) => if r == 0 then Read(W53(a, p)) else Read(W64(a))
    case W53(a, b) => Read(W54(a, b, r))
    case W54(a, b, _) => Read(W57(a, b))
    case W57(a, b) => Read(W58(a, b, r))
    case W58(_, b, cur) => Read(W59(b, cur))
    case W59(_, cur) => Read(W48(cur))
    case W64(a) => Read(W65(a, r))
    case W65(_, cur) => Read(W48(cur))
    case W77 => Read(W39)
    case _ => Read(pc)
  }

  function Resume(pc: Pc, r: int): Pc {
    match pc
    case Head(h) => HeadResume(h, r)
    case Scan(s) => ScanResume(s, r)
    case Swap(w) => SwapResume(w, r)
    case Read(w) => ReadResume(w, r)
  }

  function FaultOf(pc: Pc): Pc {
    if pc.Read? then Read(WFault) else Head(SFault)
  }

  /** `rw` selects lab2/3/rwlock, where `process_thread` takes shared locks; without it
      every lock is exclusive (lab2/3/mutex and lab2/3/spinlock). */
  datatype State = State(
    rw: bool,
    first: int,
    next: seq<int>,
    locks: seq<Lock>,
    pcs: seq<Pc>,
    counters: seq<nat>
  )

  predicate IsNode(n: nat, x: int) { 0 <= x < n }

  predicate IsPtr(n: nat, x: int) { x == NULL || IsNode(n, x) }

  predicate Shares(rw: bool, pc: Pc) { rw && pc.Read? }

  // Does a try-lock by a thread at `pc` succeed? It fails only when it would block.
  predicate Grants(l: Lock, shared: bool) {
    l.Readers? && (shared || l.ts == {})
  }

  function Granted(l: Lock, t: nat, shared: bool): Lock
    requires Grants(l, shared)
  {
    if shared then Readers(l.ts + {t}) else Writer(t)
  }

  // A lock after thread t releases it; `Owns` says whether the release was legal.
  function Released(l: Lock, t: nat): Lock {
    match l
    case Writer(_) => FREE
    case Readers(ts) => Readers(ts - {t})
  }

  predicate Owns(l: Lock, t: nat, shared: bool) {
    if shared then l.Readers? && t in l.ts else l == Writer(t)
  }

  predicate Sized(s: State) {
    |s.locks| == |s.next| && |s.counters| == |s.pcs|
  }

  function Goto(s: State, t: nat, pc: Pc): (s': State)
    requires t < |s.pcs|
  {
    s.(pcs := s.pcs[t := pc])
  }

  /** One step of thread `t`; `coin` is what `rand() % 2` returns if the step is line 97.
      A dereference of a pointer that is no node ends in a fault. */
  function StepOf(s: State, t: nat, coin: int): (s': State)
    requires Sized(s)
    ensures Sized(s')
    ensures |s'.pcs| == |s.pcs| && |s'.next| == |s.next| && s'.rw == s.rw && s'.first == s.first
  {
    if t >= |s.pcs| then s else
    var pc := s.pcs[t];
    match ActionOf(pc)
    case ReadFirst => Goto(s, t, Resume(pc, s.first))
    case Flip => Goto(s, t, Resume(pc, coin))
    case Idle => Goto(s, t, Resume(pc, 0))
    case Count => Goto(s, t, Resume(pc, 0)).(counters := s.counters[t := s.counters[t] + 1])
    case Load(x) =>
      if !IsNode(|s.next|, x) then Goto(s, t, FaultOf(pc)) else Goto(s, t, Resume(pc, s.next[x]))
    case Try(x) =>
      if !IsNode(|s.next|, x) then Goto(s, t, FaultOf(pc))
      else if Grants(s.locks[x], Shares(s.rw, pc)) then
        Goto(s, t, Resume(pc, 0)).(locks := s.locks[x := Granted(s.locks[x], t, Shares(s.rw, pc))])
      else Goto(s, t, Resume(pc, 1))
    case Release(x) =>
      if !IsNode(|s.next|, x) then Goto(s, t, FaultOf(pc))
      else Goto(s, t, Resume(pc, 0)).(locks := s.locks[x := Released(s.locks[x], t)])
    case Store(x, v) =>
      if !IsNode(|s.next|, x) then Goto(s, t, FaultOf(pc))
      else Goto(s, t, Resume(pc, 0)).(next := s.next[x := v])
  }

  // A scheduler's choice: which thread moves, and what the coin shows if it flips one.
  datatype Choice = Choice(thread: nat, coin: int)

  // The state after the choices of `sched`, oldest first. Every schedule is a run.
  function Exec(s: State, sched: seq<Choice>): (s': State)
    requires Sized(s)
    ensures Sized(s')
    ensures |s'.pcs| == |s.pcs| && |s'.next| == |s.next| && s'.rw == s.rw && s'.first == s.first
    decreases |sched|
  {
    if sched == [] then s
    else
      var k := |sched| - 1;
      StepOf(Exec(s, sched[..k]), sched[k].thread, sched[k].coin)
  }

  /** The state `main` starts the threads in: node k points to node k + 1, every lock is
      free, every counter zero, every thread at its first line. */
  predicate Initial(s: State) {
    && Sized(s)
    && s.first == (if |s.next| == 0 then NULL else 0)
    && (forall x :: 0 <= x < |s.next| ==> s.next[x] == if x + 1 < |s.next| then x + 1 else NULL)
    && (forall x :: 0 <= x < |s.locks| ==> s.locks[x] == FREE)
    && (forall t :: 0 <= t < |s.pcs| ==> s.pcs[t] == Head(S90) || s.pcs[t] == Read(W31))
    && (forall t :: 0 <= t < |s.counters| ==> s.counters[t] == 0)
  }
}
