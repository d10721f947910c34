/** The critical sections of `queue_add` and `queue_get`, statement by statement, over a
    heap with malloc and free. The four queues of lab2/2 share them and differ in what
    surrounds them; program points are named after lab2/2/a-spinlock/queue.c. */
module QueueBody {
  import opened AtomicFifo

  const NULL: int := -1

  datatype Cell = Cell(val: int, next: int)

  // queue_t; `heap` holds the nodes that are allocated and not yet freed.
  datatype Queue = Queue(
    max: nat, first: int, last: int, count: int,
    addAttempts: nat, getAttempts: nat, addCount: nat, getCount: nat,
    heap: map<int, Cell>)

  datatype Pc =
    | Add(a: AddPc)             // queue_add
    | Get(g: GetPc)             // queue_get
    | Done(ok: bool, val: int)  // about to leave the critical section
    | Fault                     // an assertion failed or a node not allocated was touched

  datatype AddPc =
    | A105 | A107 | A109 | A114
    | A121(p: int) | A122(p: int) | A125(p: int)
    | A126(p: int) | A126b(p: int)  // last = new, then first = new
    | A128(p: int) | A129(p: int)
    | A131(p: int) | A132

  datatype GetPc =
    | G140 | G142 | G144 | G149
    | G150(tmp: int) | G151(tmp: int, val: int) | G153(tmp: int, val: int)
    | G154(val: int) | G155(val: int)

  // malloc returns the address `at`, with whatever it contains.
  datatype Malloc = Malloc(at: int, junk: Cell)

  predicate Live(q: Queue, a: int) { a in q.heap }

  // One statement of queue_add; `v` is the value to add.
  function AddStep(q: Queue, pc: AddPc, v: int, m: Malloc): (Queue, Pc) {
    match pc
    case A105 => (q.(addAttempts := q.addAttempts + 1), Add(A107))
    case A107 => (q, if q.count <= q.max then Add(A109) else Fault)
    case A109 => (q, if q.count == q.max then Done(false, 0) else Add(A114))
    case A114 =>
      // an address that is in use is no answer of malloc
      if m.at == NULL || Live(q, m.at) then (q, Add(pc))
      else (q.(heap := q.heap[m.at := m.junk]), Add(A121(m.at)))
    case A121(p) =>
      if !Live(q, p) then (q, Fault)
      else (q.(heap := q.heap[p := q.heap[p].(val := v)]), Add(A122(p)))
    case A122(p) =>
      if !Live(q, p) then (q, Fault)
      else (q.(heap := q.heap[p := q.heap[p].(next := NULL)]), Add(A125(p)))
    case A125(p) => (q, if q.first == NULL then Add(A126(p)) else Add(A128(p)))
    case A126(p) => (q.(last := p), Add(A126b(p)))
    case A126b(p) => (q.(first := p), Add(A131(p)))
    case A128(p) =>
      if !Live(q, q.last) then (q, Fault)
      else (q.(heap := q.heap[q.last := q.heap[q.last].(next := p)]), Add(A129(p)))
    case A129(p) =>
      if !Live(q, q.last) then (q, Fault) else (q.(last := q.heap[q.last].next), Add(A131(p)))
    case A131(_) => (q.(count := q.count + 1), Add(A132))
    case A132 => (q.(addCount := q.addCount + 1), Done(true, 0))
  }

  // One statement of queue_get.
  function GetStep(q: Queue, pc: GetPc): (Queue, Pc) {
    match pc
    case G140 => (q.(getAttempts := q.getAttempts + 1), Get(G142))
    case G142 => (q, if q.count >= 0 then Get(G144) else Fault)
    case G144 => (q, if q.count == 0 then Done(false, -1) else Get(G149))
    case G149 => (q, Get(G150(q.first)))
    case G150(tmp) => if !Live(q, tmp) then (q, Fault) else (q, Get(G151(tmp, q.heap[tmp].val)))
    case G151(tmp, val) =>
      if !Live(q, q.first) then (q, Fault)
      else (q.(first := q.heap[q.first].next), Get(G153(tmp, val)))
    case G153(tmp, val) =>
      if !Live(q, tmp) then (q, Fault) else (q.(heap := q.heap - {tmp}), Get(G154(val)))
    case G154(val) => (q.(count := q.count - 1), Get(G155(val)))
    case G155(val) => (q.(getCount := q.getCount + 1), Done(true, val))
  }

  function StepOf(q: Queue, pc: Pc, v: int, m: Malloc): (Queue, Pc) {
    match pc
    case Add(a) => AddStep(q, a, v, m)
    case Get(g) => GetStep(q, g)
    case _ => (q, pc)
  }

  // Where a call starts.
  function Start(role: Role): Pc {
    if role.Writer? then Add(A105) else Get(G140)
  }

  // Is pc a point of the operation this role calls?
  predicate Suits(role: Role, pc: Pc) {
    pc.Done? || (if role.Writer? then pc.Add? else pc.Get?)
  }

  // The atomic object's view of a call: it takes effect when `count` changes, or when the
  // full or empty test fails it.
  function Outcome(pc: Pc): Call {
    match pc
    case Add(a) => if a.A132? then ADDED else Pending
    case Get(g) => if g.G155? then Returned(true, g.val) else Pending
    case Done(ok, val) => Returned(ok, val)
    case Fault => Pending
  }

  // ---------- what the heap represents ----------

  function After(ns: seq<int>, i: nat): int {
    if i + 1 < |ns| then ns[i + 1] else NULL
  }

  // The nodes ns are linked in this order and end in NULL.
  predicate Linked(heap: map<int, Cell>, ns: seq<int>) {
    && (forall i :: 0 <= i < |ns| ==> ns[i] != NULL && ns[i] in heap)
    && (forall i, j :: 0 <= i < j < |ns| ==> ns[i] != ns[j])
    && (forall i {:trigger After(ns, i)} :: 0 <= i < |ns| ==> heap[ns[i]].next == After(ns, i))
  }

  predicate Holds(heap: map<int, Cell>, ns: seq<int>, c: seq<int>) {
    && |c| == |ns|
    && (forall i :: 0 <= i < |ns| ==> ns[i] in heap && heap[ns[i]].val == c[i])
  }

  function Head(ns: seq<int>): int {
    if ns == [] then NULL else ns[0]
  }

  // Exactly the nodes of ns and `extra` are allocated: no node leaks.
  predicate Owned(heap: map<int, Cell>, ns: seq<int>, extra: set<int>) {
    heap.Keys == Elems(ns) + extra
  }

  function Elems(ns: seq<int>): set<int> {
    set a | a in ns
  }

  predicate Chain(heap: map<int, Cell>, ns: seq<int>, c: seq<int>, extra: set<int>) {
    Linked(heap, ns) && Holds(heap, ns, c) && Owned(heap, ns, extra)
  }

  // `last` matters only when there is a node.
  predicate Ends(q: Queue, ns: seq<int>) {
    q.first == Head(ns) && (ns != [] ==> q.last == ns[|ns| - 1])
  }

  // `slack` is by how much addCount is ahead of the count, getCount behind it.
  predicate Counts(q: Queue, c: seq<int>, slack: int) {
    q.count == |c| <= q.max && q.addCount - q.getCount + slack == q.count
  }

  // Between critical sections the queue holds c in the nodes ns.
  predicate Represents(q: Queue, ns: seq<int>, c: seq<int>) {
    Chain(q.heap, ns, c, {}) && Ends(q, ns) && Counts(q, c, 0)
  }

  // A new node p is allocated but not linked.
  predicate Extended(q: Queue, ns: seq<int>, c: seq<int>, p: int) {
    && p != NULL && p !in ns && p in q.heap
    && Chain(q.heap, ns, c, {p}) && Counts(q, c, 0) && |c| < q.max
  }

  // The new node p is the last of the chain.
  predicate Appended(q: Queue, ns: seq<int>, c: seq<int>, p: int, v: int) {
    Chain(q.heap, ns + [p], c + [v], {}) && Counts(q, c, 0) && |c| < q.max
  }

  // What holds at each point of the critical section.
  predicate AddRel(q: Queue, ns: seq<int>, c: seq<int>, pc: AddPc, v: int) {
    match pc
    case A114 => Represents(q, ns, c) && |c| < q.max
    case A121(p) => Extended(q, ns, c, p) && Ends(q, ns)
    case A122(p) => Extended(q, ns, c, p) && Ends(q, ns) && q.heap[p].val == v
    case A125(p) => Extended(q, ns, c, p) && Ends(q, ns) && q.heap[p] == Cell(v, NULL)
    case A126(p) => Extended(q, ns, c, p) && q.first == NULL && q.heap[p] == Cell(v, NULL) && ns == []
    case A126b(p) => Extended(q, ns, c, p) && q.last == p && q.heap[p] == Cell(v, NULL) && ns == []
    case A128(p) => Extended(q, ns, c, p) && Ends(q, ns) && q.heap[p] == Cell(v, NULL) && ns != []
    case A129(p) => Appended(q, ns, c, p, v) && Ends(q, ns) && ns != []
    case A131(p) => Appended(q, ns, c, p, v) && Ends(q, ns + [p])
    case A132 => Chain(q.heap, ns, c, {}) && Ends(q, ns) && Counts(q, c, 1)
    case _ => Represents(q, ns, c)
  }

  predicate GetRel(q: Queue, ns: seq<int>, c: seq<int>, pc: GetPc) {
    match pc
    case G149 => Represents(q, ns, c) && c != []
    case G150(tmp) => Represents(q, ns, c) && c != [] && tmp == ns[0]
    case G151(tmp, val) => Represents(q, ns, c) && c != [] && tmp == ns[0] && val == c[0]
    case G153(tmp, val) =>
      && Chain(q.heap, ns, c, {}) && Counts(q, c, 0) && c != [] && tmp == ns[0] && val == c[0]
      && Ends(q, ns[1..])
    case G154(val) =>
      && c != [] && |ns| == |c| && val == c[0]
      && Chain(q.heap, ns[1..], c[1..], {}) && Ends(q, ns[1..]) && Counts(q, c, 0)
    case G155(_) => Chain(q.heap, ns, c, {}) && Ends(q, ns) && Counts(q, c, -1)
    case _ => Represents(q, ns, c)
  }

  predicate BodyRel(q: Queue, ns: seq<int>, c: seq<int>, pc: Pc, v: int) {
    match pc
    case Add(a) => AddRel(q, ns, c, a, v)
    case Get(g) => GetRel(q, ns, c, g)
    case Done(_, _) => Represents(q, ns, c)
    case Fault => false
  }

  // The nodes and the contents after a step: an add gains one, a get loses the first, at
  // the moment `count` changes.
  function NextNodes(ns: seq<int>, pc: Pc): seq<int> {
    match pc
    case Add(A131(p)) => ns + [p]
    case Get(G154(_)) => if ns == [] then ns else ns[1..]
    case _ => ns
  }

  function NextContents(c: seq<int>, pc: Pc, v: int): seq<int> {
    match pc
    case Add(A131(_)) => c + [v]
    case Get(G154(_)) => if c == [] then c else c[1..]
    case _ => c
  }

  // ---------- heap lemmas ----------

  // Changing or adding a node outside the chain.
  lemma ChainFramed(heap: map<int, Cell>, ns: seq<int>, c: seq<int>, extra: set<int>, p: int, cell: Cell)
    requires Chain(heap, ns, c, extra) && p !in ns
    ensures Chain(heap[p := cell], ns, c, extra + {p})
  {
    assert heap[p := cell].Keys == heap.Keys + {p};
  }

  lemma ElemsAppend(ns: seq<int>, p: int)
    ensures Elems(ns + [p]) == Elems(ns) + {p}
  {
  }

  lemma ElemsTail(ns: seq<int>)
    requires ns != [] && forall i, j :: 0 <= i < j < |ns| ==> ns[i] != ns[j]
    ensures Elems(ns[1..]) == Elems(ns) - {ns[0]}
  {
    assert ns == [ns[0]] + ns[1..];
  }

  // Linking p after the last node.
  lemma LinkedAppend(heap: map<int, Cell>, ns: seq<int>, p: int, h: map<int, Cell>, z: int)
    requires Linked(heap, ns) && ns != [] && z == ns[|ns| - 1]
    requires p != NULL && p in heap && heap[p].next == NULL
    requires forall i :: 0 <= i < |ns| ==> ns[i] != p
    requires h == heap[z := heap[z].(next := p)]
    ensures Linked(h, ns + [p])
  {
    var ms := ns + [p];
    forall i | 0 <= i < |ms| ensures ms[i] in h && h[ms[i]].next == After(ms, i) {
      if i < |ns| - 1 {
        assert ms[i] == ns[i] != z && After(ms, i) == After(ns, i);
      }
    }
  }

  lemma ChainAppend(heap: map<int, Cell>, ns: seq<int>, c: seq<int>, p: int, v: int)
    requires Chain(heap, ns, c, {p}) && p !in ns && p != NULL && p in heap && ns != []
    requires heap[p] == Cell(v, NULL)
    ensures var z := ns[|ns| - 1]; Chain(heap[z := heap[z].(next := p)], ns + [p], c + [v], {})
  {
    var z := ns[|ns| - 1];
    var h := heap[z := heap[z].(next := p)];
    LinkedAppend(heap, ns, p, h, z);
    ElemsAppend(ns, p);
    assert h.Keys == heap.Keys;
    assert Holds(h, ns, c);
    assert Holds(h, ns + [p], c + [v]);
  }

  // The chain of a single new node.
  lemma ChainSingle(heap: map<int, Cell>, p: int, v: int)
    requires Chain(heap, [], [], {p}) && p != NULL && p in heap && heap[p] == Cell(v, NULL)
    ensures Chain(heap, [p], [v], {})
  {
    assert Elems([p]) == {p} && Elems([]) == {};
  }

  // Freeing the first node leaves the rest of the chain.
  lemma LinkedTail(heap: map<int, Cell>, ns: seq<int>, h: map<int, Cell>)
    requires Linked(heap, ns) && ns != [] && h == heap - {ns[0]}
    ensures Linked(h, ns[1..])
  {
    var ms := ns[1..];
    forall i | 0 <= i < |ms| ensures ms[i] in h && h[ms[i]].next == After(ms, i) {
      assert ms[i] == ns[i + 1] && After(ms, i) == After(ns, i + 1);
    }
  }

  lemma ChainTail(heap: map<int, Cell>, ns: seq<int>, c: seq<int>)
    requires Chain(heap, ns, c, {}) && ns != []
    ensures Chain(heap - {ns[0]}, ns[1..], c[1..], {})
  {
    var h := heap - {ns[0]};
    LinkedTail(heap, ns, h);
    ElemsTail(ns);
    assert h.Keys == heap.Keys - {ns[0]};
    forall i | 0 <= i < |ns| - 1 ensures ns[1..][i] in h && h[ns[1..][i]].val == c[1..][i] {
      assert ns[1..][i] == ns[i + 1];
    }
  }

  lemma FirstAndLastLive(q: Queue, ns: seq<int>, c: seq<int>, extra: set<int>)
    requires Chain(q.heap, ns, c, extra) && Ends(q, ns) && ns != []
    ensures Live(q, q.first) && Live(q, q.last)
    ensures q.heap[q.first] == Cell(c[0], Head(ns[1..]))
  {
    assert q.heap[ns[0]].next == After(ns, 0);
  }

  // ---------- the proof ----------

  ghost predicate AddKept(q: Queue, ns: seq<int>, c: seq<int>, pc: AddPc, v: int, m: Malloc) {
    var (q', pc') := AddStep(q, pc, v, m);
    && q'.max == q.max && (pc'.Add? || pc'.Done?)
    && BodyRel(q', NextNodes(ns, Add(pc)), NextContents(c, Add(pc), v), pc', v)
  }

  lemma EnterAdd(q: Queue, ns: seq<int>, c: seq<int>, pc: AddPc, v: int, m: Malloc)
    requires AddRel(q, ns, c, pc, v) && (pc.A105? || pc.A107? || pc.A109? || pc.A114?)
    ensures AddKept(q, ns, c, pc, v, m)
  {
    if pc.A114? && m.at != NULL && !Live(q, m.at) {
      ChainFramed(q.heap, ns, c, {}, m.at, m.junk);
      assert {} + {m.at} == {m.at};
    }
  }

  lemma FillNode(q: Queue, ns: seq<int>, c: seq<int>, pc: AddPc, v: int, m: Malloc)
    requires AddRel(q, ns, c, pc, v) && (pc.A121? || pc.A122? || pc.A125?)
    ensures AddKept(q, ns, c, pc, v, m)
  {
    ChainFramed(q.heap, ns, c, {pc.p}, pc.p, q.heap[pc.p].(val := v));
    ChainFramed(q.heap, ns, c, {pc.p}, pc.p, q.heap[pc.p].(next := NULL));
    assert {pc.p} + {pc.p} == {pc.p};
  }

  lemma LinkNode(q: Queue, ns: seq<int>, c: seq<int>, pc: AddPc, v: int, m: Malloc)
    requires AddRel(q, ns, c, pc, v) && (pc.A126? || pc.A126b? || pc.A128?)
    ensures AddKept(q, ns, c, pc, v, m)
  {
    if pc.A126b? {
      ChainSingle(q.heap, pc.p, v);
      assert ns + [pc.p] == [pc.p] && c + [v] == [v];
    }
    if pc.A128? {
      FirstAndLastLive(q, ns, c, {pc.p});
      ChainAppend(q.heap, ns, c, pc.p, v);
    }
  }

  lemma LinkBeforeLast(heap: map<int, Cell>, ns: seq<int>, p: int)
    requires Linked(heap, ns + [p]) && ns != []
    ensures p != NULL && p in heap
    ensures var z := ns[|ns| - 1]; z != NULL && z in heap && heap[z].next == p
  {
    var ms := ns + [p];
    assert ms[|ns|] == p && ms[|ns| - 1] == ns[|ns| - 1];
    assert heap[ms[|ns| - 1]].next == After(ms, |ns| - 1);
  }

  lemma MoveLast(q: Queue, ns: seq<int>, c: seq<int>, pc: AddPc, v: int, m: Malloc)
    requires AddRel(q, ns, c, pc, v) && pc.A129?
    ensures AddKept(q, ns, c, pc, v, m)
  {
    LinkBeforeLast(q.heap, ns, pc.p);
  }

  lemma LeaveAdd(q: Queue, ns: seq<int>, c: seq<int>, pc: AddPc, v: int, m: Malloc)
    requires AddRel(q, ns, c, pc, v) && (pc.A131? || pc.A132?)
    ensures AddKept(q, ns, c, pc, v, m)
  {
  }

  lemma AddKeeps(q: Queue, ns: seq<int>, c: seq<int>, pc: AddPc, v: int, m: Malloc)
    requires AddRel(q, ns, c, pc, v)
    ensures AddKept(q, ns, c, pc, v, m)
  {
    if pc.A105? || pc.A107? || pc.A109? || pc.A114? {
      EnterAdd(q, ns, c, pc, v, m);
    } else if pc.A121? || pc.A122? || pc.A125? {
      FillNode(q, ns, c, pc, v, m);
    } else if pc.A126? || pc.A126b? || pc.A128? {
      LinkNode(q, ns, c, pc, v, m);
    } else if pc.A129? {
      MoveLast(q, ns, c, pc, v, m);
    } else {
      LeaveAdd(q, ns, c, pc, v, m);
    }
  }

  ghost predicate GetKept(q: Queue, ns: seq<int>, c: seq<int>, pc: GetPc, v: int) {
    var (q', pc') := GetStep(q, pc);
    && q'.max == q.max && (pc'.Get? || pc'.Done?)
    && BodyRel(q', NextNodes(ns, Get(pc)), NextContents(c, Get(pc), v), pc', v)
  }

  lemma EnterGet(q: Queue, ns: seq<int>, c: seq<int>, pc: GetPc, v: int)
    requires GetRel(q, ns, c, pc) && (pc.G140? || pc.G142? || pc.G144? || pc.G149? || pc.G150?)
    ensures GetKept(q, ns, c, pc, v)
  {
    if c != [] {
      FirstAndLastLive(q, ns, c, {});
    }
  }

  lemma Unlink(q: Queue, ns: seq<int>, c: seq<int>, pc: GetPc, v: int)
    requires GetRel(q, ns, c, pc) && (pc.G151? || pc.G153?)
    ensures GetKept(q, ns, c, pc, v)
  {
    if pc.G151? {
      FirstAndLastLive(q, ns, c, {});
    } else {
      ChainTail(q.heap, ns, c);
    }
  }

  lemma LeaveGet(q: Queue, ns: seq<int>, c: seq<int>, pc: GetPc, v: int)
    requires GetRel(q, ns, c, pc) && (pc.G154? || pc.G155?)
    ensures GetKept(q, ns, c, pc, v)
  {
  }

  lemma GetKeeps(q: Queue, ns: seq<int>, c: seq<int>, pc: GetPc, v: int)
    requires GetRel(q, ns, c, pc)
    ensures GetKept(q, ns, c, pc, v)
  {
    if pc.G151? || pc.G153? {
      Unlink(q, ns, c, pc, v);
    } else if pc.G154? || pc.G155? {
      LeaveGet(q, ns, c, pc, v);
    } else {
      EnterGet(q, ns, c, pc, v);
    }
  }

  // When and how a call takes effect.
  lemma AddEffect(q: Queue, ns: seq<int>, c: seq<int>, pc: AddPc, v: int, m: Malloc)
    requires AddRel(q, ns, c, pc, v)
    ensures var (q', pc') := AddStep(q, pc, v, m);
            var c' := NextContents(c, Add(pc), v);
            || (Outcome(pc') == Outcome(Add(pc)) && c' == c)
            || (Outcome(Add(pc)) == Pending && (c', Outcome(pc')) == AtomicFifo.Add(q.max, c, v))
            || pc' == Fault
  {
  }

  lemma GetEffect(q: Queue, ns: seq<int>, c: seq<int>, pc: GetPc, v: int)
    requires GetRel(q, ns, c, pc)
    ensures var (q', pc') := GetStep(q, pc);
            var c' := NextContents(c, Get(pc), v);
            || (Outcome(pc') == Outcome(Get(pc)) && c' == c)
            || (Outcome(Get(pc)) == Pending && (c', Outcome(pc')) == AtomicFifo.Get(c))
            || pc' == Fault
  {
  }

  // What the atomic object does for a role.
  function Atomic(role: Role, max: nat, c: seq<int>): (seq<int>, Call) {
    match role
    case Writer(i) => AtomicFifo.Add(max, c, i)
    case Reader(_, _) => AtomicFifo.Get(c)
  }

  function ValueOf(role: Role): int {
    if role.Writer? then role.i else 0
  }

  /** A statement of the critical section either leaves the contents and the outcome of the
      call alone, or makes the call take effect exactly as the atomic operation does. It
      never touches a node that is not allocated, and no assertion fails. */
  lemma BodyStep(q: Queue, ns: seq<int>, c: seq<int>, pc: Pc, role: Role, m: Malloc)
    requires BodyRel(q, ns, c, pc, ValueOf(role)) && Suits(role, pc)
    ensures var v := ValueOf(role);
            var (q', pc') := StepOf(q, pc, v, m);
            var c' := NextContents(c, pc, v);
            && q'.max == q.max
            && BodyRel(q', NextNodes(ns, pc), c', pc', v)
            && Suits(role, pc') && pc' != Fault
            && ((Outcome(pc') == Outcome(pc) && c' == c)
                || (Outcome(pc) == Pending && (c', Outcome(pc')) == Atomic(role, q.max, c)))
  {
    var v := ValueOf(role);
    match pc {
      case Add(a) =>
        AddKeeps(q, ns, c, a, v, m);
        AddEffect(q, ns, c, a, v, m);
      case Get(g) =>
        GetKeeps(q, ns, c, g, v);
        GetEffect(q, ns, c, g, v);
      case _ =>
    }
  }

  // The critical section starts and ends with a queue in order.
  lemma BodyEnds(q: Queue, ns: seq<int>, c: seq<int>, pc: Pc, role: Role, v: int)
    requires pc == Start(role) || pc.Done?
    ensures BodyRel(q, ns, c, pc, v) <==> Represents(q, ns, c)
  {
  }

  // Every statement moves on, malloc if it is answered with a free address.
  lemma BodyAdvances(q: Queue, pc: Pc, v: int, m: Malloc)
    requires (pc.Add? || pc.Get?) && m.at != NULL && !Live(q, m.at)
    ensures StepOf(q, pc, v, m).1 != pc
  {
  }

  // Statements left until the critical section is over, at most.
  function Remaining(pc: Pc): nat {
    match pc
    case Add(a) => (
      match a
      case A105 => 12 case A107 => 11 case A109 => 10 case A114 => 9
      case A121(_) => 8 case A122(_) => 7 case A125(_) => 6
      case A126(_) => 5 case A126b(_) => 4 case A128(_) => 5 case A129(_) => 4
      case A131(_) => 3 case A132 => 2)
    case Get(g) => (
      match g
      case G140 => 10 case G142 => 9 case G144 => 8 case G149 => 7
      case G150(_) => 6 case G151(_, _) => 5 case G153(_, _) => 4
      case G154(_) => 3 case G155(_) => 2)
    case _ => 0
  }

  lemma BodyShrinks(q: Queue, pc: Pc, v: int, m: Malloc)
    requires (pc.Add? || pc.Get?) && m.at != NULL && !Live(q, m.at)
    ensures Remaining(StepOf(q, pc, v, m).1) < Remaining(pc)
  {
  }

  // There always is a free address.
  lemma {:induction false} FreshAddress(used: set<int>) returns (a: int)
    ensures a !in used && a != NULL
    ensures a >= 0 && forall b :: b in used ==> b < a
    decreases |used|
  {
    a := 0;
    if x: int :| x in used {
      var rest := used - {x};
      var y := FreshAddress(rest);
      a := if x < y then y else x + 1;
      assert forall b :: b in used ==> b == x || b in rest;
    }
  }

  // queue_init: lines 60-66 of lab2/2/a-spinlock/queue.c.
  function Init(max: nat): (q: Queue)
    ensures Represents(q, [], [])
  {
    Queue(max, NULL, NULL, 0, 0, 0, 0, 0, map[])
  }
}
