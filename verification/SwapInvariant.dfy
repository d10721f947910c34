/** The inductive invariant of the swap-list protocol, and the abstract order it keeps. */
module SwapInvariant {
  import opened SwapProtocol

  // ---------- what a thread has locked, and what it knows ----------

  function HeldScan(pc: ScanPc): set<int> {
    match pc
    case S110(a) => {a}
    case S110b(a) => {a}
    case S110c(a, _) => {a}
    case S112(a, b) => {a, b}
    case S112b(a, b, _) => {a, b}
    case S112c(a, b) => {a, b}
    case S112d(a, b, _) => {a, b}
    case S112e(a, b, _) => {a, b}
    case S130(a, b) => {a, b}
    case S131(a, b, _) => {a, b}
    case S132(b, _) => {b}
    case S138(a) => {a}
    case S139(a, _) => {a}
    case _ => {}
  }

  function HeldSwap(pc: SwapPc): set<int> {
    match pc
    case S114(a, b, c) => {a, b, c}
    case S115(a, b, c, _) => {a, b, c}
    case S115b(a, b, c, _, _) => {a, b, c}
    case S116(a, b, c, _, _) => {a, b, c}
    case S116b(a, b, c, _, _, _) => {a, b, c}
    case S117(a, b, c, _, _) => {a, b, c}
    case S118(a, b, c, _, _) => {a, b, c}
    case S119(a, b, c) => {a, b, c}
    case S121(a, b, c) => {a, b, c}
    case S122(a, b, c, _) => {a, b, c}
    case S123(a, b, c, _, _) => {a, b, c}
    case S124(b, c, _, _) => {b, c}
    case S125(b, _, _) => {b}
  }

  function HeldRead(pc: ReadPc): set<int> {
    match pc
    case W50(a) => {a}
    case W50b(a) => {a}
    case W50c(a, _) => {a}
    case W53(a, b) => {a, b}
    case W54(a, b, _) => {a, b}
    case W57(a, b) => {a, b}
    case W58(a, b, _) => {a, b}
    case W59(b, _) => {b}
    case W64(a) => {a}
    case W65(a, _) => {a}
    case _ => {}
  }

  function Held(pc: Pc): set<int> {
    match pc
    case Head(_) => {}
    case Scan(s) => HeldScan(s)
    case Swap(w) => HeldSwap(w)
    case Read(r) => HeldRead(r)
  }

  // b follows a, both locked.
  predicate Pair(next: seq<int>, a: int, b: int) {
    IsNode(|next|, a) && IsNode(|next|, b) && a != b && next[a] == b
  }

  predicate Distinct3(n: nat, a: int, b: int, c: int) {
    IsNode(n, a) && IsNode(n, b) && IsNode(n, c) && a != b && b != c && a != c
  }

  // c follows b follows a, all locked: the state before the stores.
  predicate Triple(next: seq<int>, a: int, b: int, c: int) {
    Distinct3(|next|, a, b, c) && next[a] == b && next[b] == c
  }

  // The state after the stores.
  predicate Swapped(next: seq<int>, a: int, b: int, c: int) {
    Distinct3(|next|, a, b, c) && next[a] == c && next[c] == b
  }

  // What holds of the list and of a thread's own variables whenever it is at `pc`. Only the
  // `next` fields of nodes the thread has locked occur.

  predicate HeadFacts(next: seq<int>, pc: HeadPc) {
    var n := |next|;
    match pc
    case S91(cur) => cur == 0 && n > 0
    case S91b(cur) => cur == 0 && n > 1
    case S91c(cur, x) => cur == 0 && n > 1 && IsNode(n, x)
    case S97(cur) => cur == 0 && n > 0
    case S102(cur) => IsPtr(n, cur)
    case S103(cur) => IsNode(n, cur)
    case _ => true
  }

  predicate ScanFacts(next: seq<int>, pc: ScanPc) {
    var n := |next|;
    match pc
    case S108(cur) => IsPtr(n, cur)
    case S148(cur) => IsNode(n, cur)
    case S110(a) => IsNode(n, a)
    case S110b(a) => IsNode(n, a) && next[a] != NULL
    case S110c(a, p) => Pair(next, a, p)
    case S112(a, b) => Pair(next, a, b)
    case S112b(a, b, x) => Pair(next, a, b) && x == b
    case S112c(a, b) => Pair(next, a, b) && next[b] != NULL
    case S112d(a, b, x) => Pair(next, a, b) && x == b && next[b] != NULL
    case S112e(a, b, p) => Triple(next, a, b, p)
    case S130(a, b) => Pair(next, a, b)
    case S131(a, b, cur) => Pair(next, a, b) && cur == b
    case S132(b, cur) => IsNode(n, b) && cur == b
    case S138(a) => IsNode(n, a)
    case S139(a, cur) => IsNode(n, a) && IsPtr(n, cur)
  }

  predicate SwapFacts(next: seq<int>, pc: SwapPc) {
    var n := |next|;
    match pc
    case S114(a, b, c) => Triple(next, a, b, c)
    case S115(a, b, c, c2) => Triple(next, a, b, c) && c2 == b
    case S115b(a, b, c, c2, x) => Triple(next, a, b, c) && c2 == b && x == b
    case S116(a, b, c, c2, c3) => Triple(next, a, b, c) && c2 == b && c3 == c
    case S116b(a, b, c, c2, c3, x) => Triple(next, a, b, c) && c2 == b && c3 == c && x == next[c]
    case S117(a, b, c, c2, c3) =>
      Distinct3(n, a, b, c) && next[a] == b && next[b] == next[c] && c2 == b && c3 == c
    case S118(a, b, c, c2, c3) =>
      Distinct3(n, a, b, c) && next[a] == b && next[c] == b && c2 == b && c3 == c
    case S119(a, b, c) => Swapped(next, a, b, c)
    case S121(a, b, c) => Swapped(next, a, b, c)
    case S122(a, b, c, cur) => Swapped(next, a, b, c) && cur == c
    case S123(a, b, c, cur, c2) => Swapped(next, a, b, c) && cur == c && c2 == b
    case S124(b, c, cur, c2) => Pair(next, c, b) && cur == c && c2 == b
    case S125(b, cur, c2) => IsNode(n, b) && c2 == b && IsNode(n, cur)
  }

  predicate ReadFacts(next: seq<int>, pc: ReadPc) {
    var n := |next|;
    match pc
    case W31b(cur) => cur == 0 && n > 0
    case W40(cur) => cur == 0 && n > 0
    case W48(cur) => IsPtr(n, cur)
    case W74(cur) => IsNode(n, cur)
    case W50(a) => IsNode(n, a)
    case W50b(a) => IsNode(n, a) && next[a] != NULL
    case W50c(a, p) => Pair(next, a, p)
    case W53(a, b) => Pair(next, a, b)
    case W54(a, b, c2) => Pair(next, a, b) && c2 == b
    case W57(a, b) => Pair(next, a, b)
    case W58(a, b, cur) => Pair(next, a, b) && cur == b
    case W59(b, cur) => IsNode(n, b) && cur == b
    case W64(a) => IsNode(n, a)
    case W65(a, cur) => IsNode(n, a) && IsPtr(n, cur)
    case WFault => false
    case _ => true
  }

  predicate Facts(next: seq<int>, pc: Pc) {
    match pc
    case Head(h) => HeadFacts(next, h)
    case Scan(s) => ScanFacts(next, s)
    case Swap(w) => SwapFacts(next, w)
    case Read(r) => ReadFacts(next, r)
  }

  // ---------- the abstract order ----------

  // Between lines 116 and 118 a swap is in flight.
  predicate MidSwap(pc: Pc) { pc.Swap? && (pc.w.S117? || pc.w.S118?) }

  // The program point of the thread holding x exclusively, if that thread is mid-swap.
  predicate InFlight(s: State, x: int)
    requires Sized(s) && IsNode(|s.next|, x)
  {
    s.locks[x].Writer? && s.locks[x].owner < |s.pcs| && MidSwap(s.pcs[s.locks[x].owner])
  }

  predicate MidB(s: State, x: int)
    requires Sized(s) && IsNode(|s.next|, x)
  {
    InFlight(s, x) && s.pcs[s.locks[x].owner].w.b == x
  }

  predicate MidC(s: State, x: int)
    requires Sized(s) && IsNode(|s.next|, x)
  {
    InFlight(s, x) && s.pcs[s.locks[x].owner].w.c == x
  }

  // The successor of x once the stores of every swap in flight are undone.
  function Undone(s: State, x: int): int
    requires Sized(s) && IsNode(|s.next|, x)
  {
    if MidB(s, x) then s.pcs[s.locks[x].owner].w.c
    else if MidC(s, x) then
      var b := s.pcs[s.locks[x].owner].w.b;
      if IsNode(|s.next|, b) then s.next[b] else NULL
    else s.next[x]
  }

  function Succ(q: seq<int>, i: nat): int
    requires i < |q|
  {
    if i + 1 < |q| then q[i + 1] else NULL
  }

  predicate IsOrder(n: nat, q: seq<int>) {
    && |q| == n
    && (forall i :: 0 <= i < n ==> IsNode(n, q[i]))
    && (forall i, j :: 0 <= i < j < n ==> q[i] != q[j])
    && (forall x :: 0 <= x < n ==> x in q)
  }

  /** The abstraction: the list, with every swap in flight undone, is q, and `first` heads
      it. */
  predicate Represents(s: State, q: seq<int>)
    requires Sized(s)
  {
    && IsOrder(|s.next|, q)
    && s.first == (if |q| == 0 then NULL else 0)
    && (|q| > 0 ==> q[0] == 0)
    && (forall i {:trigger Succ(q, i)} :: 0 <= i < |q| ==> Undone(s, q[i]) == Succ(q, i))
  }

  // ---------- lock ownership ----------

  predicate Ownership(s: State)
    requires Sized(s)
  {
    forall t, x {:trigger x in Held(s.pcs[t])} {:trigger Owns(s.locks[x], t, Shares(s.rw, s.pcs[t]))} ::
      0 <= t < |s.pcs| && 0 <= x < |s.locks| ==>
      (x in Held(s.pcs[t]) <==> Owns(s.locks[x], t, Shares(s.rw, s.pcs[t])))
  }

  // Only threads of the right kind are recorded in a lock.
  predicate KnownOwners(s: State)
    requires Sized(s)
  {
    forall x {:trigger KnownOwner(s, s.locks[x])} :: 0 <= x < |s.locks| ==> KnownOwner(s, s.locks[x])
  }

  predicate KnownOwner(s: State, l: Lock) {
    match l
    case Writer(t) => t < |s.pcs| && !Shares(s.rw, s.pcs[t])
    case Readers(ts) => forall t :: t in ts ==> t < |s.pcs| && Shares(s.rw, s.pcs[t])
  }

  predicate Inv(s: State, q: seq<int>) {
    && Sized(s)
    && (forall x :: 0 <= x < |s.next| ==> IsPtr(|s.next|, s.next[x]))
    && (forall t {:trigger Facts(s.next, s.pcs[t])} :: 0 <= t < |s.pcs| ==> Facts(s.next, s.pcs[t]))
    && Ownership(s)
    && KnownOwners(s)
    && Represents(s, q)
  }

  // ---------- the abstract step ----------

  // About to execute line 118, the store that makes a swap take effect.
  predicate AtCommit(pc: Pc) { pc.Swap? && pc.w.S118? }

  // q with the elements at i and i + 1 exchanged.
  function Exchange<T>(q: seq<T>, i: nat): (r: seq<T>)
    requires i + 1 < |q|
    ensures |r| == |q|
  {
    q[i := q[i + 1]][i + 1 := q[i]]
  }

  ghost function IndexOf(q: seq<int>, x: int): (i: nat)
    requires x in q
    ensures i < |q| && q[i] == x
  {
    var i: nat :| i < |q| && q[i] == x;
    i
  }

  /** The order after thread t's next step: line 118 swaps the two elements after `curr1`,
      every other step leaves the order alone. */
  ghost function NextOrder(s: State, q: seq<int>, t: nat): (q': seq<int>)
    ensures |q'| == |q|
  {
    if t < |s.pcs| && AtCommit(s.pcs[t]) && s.pcs[t].w.a in q && IndexOf(q, s.pcs[t].w.a) + 2 < |q|
    then Exchange(q, IndexOf(q, s.pcs[t].w.a) + 1)
    else q
  }

  // ---------- consequences of the abstraction ----------

  lemma SuccessorInOrder(s: State, q: seq<int>, x: int)
    requires Sized(s) && Represents(s, q) && IsNode(|s.next|, x)
    ensures x in q && Undone(s, x) == Succ(q, IndexOf(q, x))
  {
  }

  // Undoing in-flight swaps leaves no node pointing to itself.
  lemma NoSelfLoop(s: State, q: seq<int>, x: int)
    requires Sized(s) && Represents(s, q) && IsNode(|s.next|, x)
    ensures Undone(s, x) != x
  {
    SuccessorInOrder(s, q, x);
  }

  // The order position of a locked triple.
  lemma TriplePosition(s: State, q: seq<int>, a: int, b: int, c: int)
    requires Sized(s) && Represents(s, q) && Distinct3(|s.next|, a, b, c)
    requires Undone(s, a) == b && Undone(s, b) == c
    ensures a in q && IndexOf(q, a) + 2 < |q|
    ensures q[IndexOf(q, a) + 1] == b && q[IndexOf(q, a) + 2] == c
    ensures Undone(s, c) == Succ(q, IndexOf(q, a) + 2)
  {
    SuccessorInOrder(s, q, a);
    SuccessorInOrder(s, q, b);
    var i := IndexOf(q, a);
    assert q[i + 1] == b;
    assert IndexOf(q, b) == i + 1;
  }

  lemma HeadSuccessor(s: State, q: seq<int>)
    requires Inv(s, q) && |s.next| > 1
    ensures s.next[0] != NULL
  {
    assert q[0] == 0 && Undone(s, q[0]) == Succ(q, 0);
    if MidB(s, 0) || MidC(s, 0) {
      var t := s.locks[0].owner;
      var pc := s.pcs[t];
      assert Facts(s.next, pc);
      assert pc.w.a in Held(pc) && pc.w.b in Held(pc);
      assert Owns(s.locks[pc.w.a], t, false) && Owns(s.locks[pc.w.b], t, false);
      SuccessorInOrder(s, q, pc.w.a);
      SuccessorInOrder(s, q, pc.w.b);
    }
  }
}
