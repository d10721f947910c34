/** The bounded FIFO the four queues of lab2/2 implement, as an atomic object, together
    with the client loops of lab2/2/g-semaphore/queue-threads.c: each thread calls its
    operation, the operation takes effect at one instant, the call returns, and so on for
    ever. The concrete queues are shown to refine this system. */
module AtomicFifo {
  // A client thread's own variables: `i` of a writer, `expected` of a reader and whether
  // the reader has ever printed the order error.
  datatype Role = Writer(i: int) | Reader(expected: int, bad: bool)

  // A call is pending until it takes effect; then its result is fixed.
  datatype Call = Pending | Returned(ok: bool, val: int)

  datatype Client = Client(role: Role, call: Call)

  // `added` and `got` record the values in the order the operations took effect, `adds` and
  // `gets` how many operations did, successful or not.
  datatype Fifo = Fifo(
    max: nat, contents: seq<int>, added: seq<int>, got: seq<int>, adds: nat, gets: nat,
    clients: seq<Client>)

  const FULL: Call := Returned(false, 0)
  const ADDED: Call := Returned(true, 0)
  const EMPTY: Call := Returned(false, -1)  // `val` keeps the -1 the reader gave it

  // The atomic operations: new contents and result.
  function Add(max: nat, c: seq<int>, v: int): (seq<int>, Call) {
    if |c| >= max then (c, FULL) else (c + [v], ADDED)
  }

  function Get(c: seq<int>): (seq<int>, Call) {
    if c == [] then (c, EMPTY) else (c[1..], Returned(true, c[0]))
  }

  // What the client loop does with a result: lines 42-49 of `reader`, 63-66 of `writer`.
  function AfterReturn(role: Role, ok: bool, val: int): Role {
    match role
    case Writer(i) => if ok then Writer(i + 1) else Writer(i)
    case Reader(expected, bad) =>
      if ok then Reader(val + 1, bad || expected != val) else Reader(expected, bad)
  }

  function TakeEffect(f: Fifo, t: nat): (f': Fifo)
    requires t < |f.clients|
  {
    match f.clients[t].role
    case Writer(i) =>
      var (c, r) := Add(f.max, f.contents, i);
      f.(contents := c, added := if r.ok then f.added + [i] else f.added, adds := f.adds + 1,
         clients := f.clients[t := f.clients[t].(call := r)])
    case Reader(_, _) =>
      var (c, r) := Get(f.contents);
      f.(contents := c, got := if r.ok then f.got + [r.val] else f.got, gets := f.gets + 1,
         clients := f.clients[t := f.clients[t].(call := r)])
  }

  // The next atomic step of thread t: its call takes effect, or returns.
  function StepOf(f: Fifo, t: nat): (f': Fifo)
    ensures f'.max == f.max && |f'.clients| == |f.clients|
  {
    if t >= |f.clients| then f
    else
      match f.clients[t].call
      case Pending => TakeEffect(f, t)
      case Returned(ok, val) =>
        f.(clients := f.clients[t := Client(AfterReturn(f.clients[t].role, ok, val), Pending)])
  }

  function Exec(f: Fifo, sched: seq<nat>): (f': Fifo)
    ensures f'.max == f.max && |f'.clients| == |f.clients|
    decreases |sched|
  {
    if sched == [] then f
    else
      var k := |sched| - 1;
      StepOf(Exec(f, sched[..k]), sched[k])
  }

  lemma ExecSnoc(f: Fifo, sched: seq<nat>, t: nat)
    ensures Exec(f, sched + [t]) == StepOf(Exec(f, sched), t)
  {
    assert (sched + [t])[..|sched|] == sched;
  }

  predicate FreshRole(r: Role) { r == Writer(0) || r == Reader(0, false) }

  predicate Initial(f: Fifo) {
    && f.contents == [] && f.added == [] && f.got == [] && f.adds == 0 && f.gets == 0
    && forall t :: 0 <= t < |f.clients| ==> f.clients[t].call == Pending && FreshRole(f.clients[t].role)
  }

  /** Nothing is lost, duplicated or reordered: in every run, with any clients, the values
      got, followed by those still queued, are the values added. */
  lemma {:induction false} FifoConservation(f: Fifo, sched: seq<nat>)
    requires Initial(f)
    ensures var r := Exec(f, sched);
            r.got + r.contents == r.added && |r.contents| <= r.max
    decreases |sched|
  {
    if sched != [] {
      var k := |sched| - 1;
      FifoConservation(f, sched[..k]);
      var r := Exec(f, sched[..k]);
      var t := sched[k];
      if t < |r.clients| && r.clients[t].call == Pending {
        match r.clients[t].role
        case Writer(i) =>
          assert r.got + (r.contents + [i]) == (r.got + r.contents) + [i];
        case Reader(_, _) =>
          if r.contents != [] {
            assert r.got + r.contents == (r.got + [r.contents[0]]) + r.contents[1..];
          }
      }
    }
  }

  // ---------- the client loops ----------

  function UpTo(n: nat): (s: seq<int>)
    ensures |s| == n && forall i :: 0 <= i < n ==> s[i] == i
  {
    seq(n, i => i)
  }

  // The values client t's successful calls have returned, for a writer the 0 of each.
  function Results(f: Fifo, sched: seq<nat>, t: nat): seq<int>
    requires t < |f.clients|
    decreases |sched|
  {
    if sched == [] then []
    else
      var k := |sched| - 1;
      var call := Exec(f, sched[..k]).clients[t].call;
      Results(f, sched[..k], t)
      + if sched[k] == t && call.Returned? && call.ok then [call.val] else []
  }

  lemma UpToMore(s: seq<int>, v: int)
    ensures s + [v] == UpTo(|s| + 1) <==> s == UpTo(|s|) && v == |s|
  {
    if s + [v] == UpTo(|s| + 1) {
      assert s == (s + [v])[..|s|] && v == (s + [v])[|s|];
    }
  }

  /** The order check is exact, for any clients: a reader reports an error exactly if the
      values its calls have returned are not 0, 1, 2, ...; and expects the one after the last. */
  lemma {:induction false} ReaderChecks(f: Fifo, sched: seq<nat>, t: nat)
    requires Initial(f) && t < |f.clients| && f.clients[t].role.Reader?
    ensures var role := Exec(f, sched).clients[t].role;
            var vals := Results(f, sched, t);
            && role.Reader?
            && (role.bad <==> vals != UpTo(|vals|))
            && role.expected == if vals == [] then 0 else vals[|vals| - 1] + 1
    decreases |sched|
  {
    if sched != [] {
      var k := |sched| - 1;
      ReaderChecks(f, sched[..k], t);
      var call := Exec(f, sched[..k]).clients[t].call;
      if sched[k] == t && call.Returned? && call.ok {
        UpToMore(Results(f, sched[..k], t), call.val);
      }
    }
  }

  /** A writer sends 0, 1, 2, ...: the value of its next call is the number of its calls that
      have succeeded. */
  lemma {:induction false} WriterSends(f: Fifo, sched: seq<nat>, t: nat)
    requires Initial(f) && t < |f.clients| && f.clients[t].role.Writer?
    ensures Exec(f, sched).clients[t].role == Writer(|Results(f, sched, t)|)
    decreases |sched|
  {
    if sched != [] {
      WriterSends(f, sched[..|sched| - 1], t);
    }
  }

  // ---------- one writer and one reader ----------

  predicate OnePair(clients: seq<Client>, w: nat, r: nat) {
    && |clients| == 2 && w < 2 && r == 1 - w
    && clients[w].role.Writer? && clients[r].role.Reader?
  }

  // Everything the pair has done so far is determined by two counters.
  predicate InOrder(f: Fifo, w: nat, r: nat)
    requires OnePair(f.clients, w, r)
  {
    var wc := f.clients[w];
    var rc := f.clients[r];
    && f.added == UpTo(|f.added|)
    && |f.added| == wc.role.i + (if wc.call == ADDED then 1 else 0)
    && (wc.call == Pending || wc.call == ADDED || wc.call == FULL)
    && !rc.role.bad
    && (match rc.call
        case Pending => |f.got| == rc.role.expected
        case Returned(true, val) => val == rc.role.expected && |f.got| == val + 1
        case Returned(false, _) => |f.got| == rc.role.expected)
  }

  lemma PairStep(f: Fifo, w: nat, r: nat, t: nat)
    requires OnePair(f.clients, w, r) && InOrder(f, w, r)
    requires f.got + f.contents == f.added
    ensures var f' := StepOf(f, t); OnePair(f'.clients, w, r) && InOrder(f', w, r)
  {
    if t == r && f.clients[r].call == Pending && f.contents != [] {
      assert (f.got + f.contents)[|f.got|] == f.contents[0];
    }
    if t == w && f.clients[w].call == Pending {
      var i := f.clients[w].role.i;
      assert f.added + [i] == UpTo(|f.added| + 1);
    }
  }

  lemma {:induction false} PairInOrder(f: Fifo, w: nat, r: nat, sched: seq<nat>)
    requires Initial(f) && OnePair(f.clients, w, r)
    ensures OnePair(Exec(f, sched).clients, w, r) && InOrder(Exec(f, sched), w, r)
    decreases |sched|
  {
    if sched != [] {
      var k := |sched| - 1;
      PairInOrder(f, w, r, sched[..k]);
      FifoConservation(f, sched[..k]);
      PairStep(Exec(f, sched[..k]), w, r, sched[k]);
    }
  }

  /** The order check of queue-threads.c never fires: with one writer and one reader the
      values got are 0, 1, 2, ... in every run, and the error branch is never taken. */
  lemma OrderCheckNeverFires(f: Fifo, w: nat, r: nat, sched: seq<nat>)
    requires Initial(f) && OnePair(f.clients, w, r)
    ensures var f' := Exec(f, sched);
            && f'.clients[r].role.Reader? && !f'.clients[r].role.bad
            && f'.got == UpTo(|f'.got|)
  {
    PairInOrder(f, w, r, sched);
    FifoConservation(f, sched);
    var f' := Exec(f, sched);
    assert f'.got == (f'.got + f'.contents)[..|f'.got|];
  }
}
