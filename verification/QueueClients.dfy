/** What the queue variants have in common around the critical section: client threads,
    each with its role and its place in the current call, seen as clients of the atomic
    FIFO. */
module QueueClients {
  import opened AtomicFifo
  import opened QueueBody

  datatype Option<T> = None | Some(value: T)

  // The atomic FIFO's picture of the threads.
  predicate Views(f: Fifo, roles: seq<Role>, body: seq<Pc>) {
    && |roles| == |body| == |f.clients|
    && (forall t :: 0 <= t < |roles| ==> f.clients[t] == Client(roles[t], Outcome(body[t])))
  }

  predicate AllSuit(roles: seq<Role>, body: seq<Pc>) {
    |roles| == |body| && forall t :: 0 <= t < |roles| ==> Suits(roles[t], body[t])
  }

  // Is the atomic FIFO to move when thread t goes from pc to pc'?
  predicate Visible(pc: Pc, pc': Pc) {
    Outcome(pc) != Outcome(pc')
  }

  function Follow(f: Fifo, t: nat, visible: bool): Fifo {
    if visible then AtomicFifo.StepOf(f, t) else f
  }

  /** What the statistics say while a thread stands at pc in the critical section: the
      attempts and successes so far, but for what is counted ahead of or behind the effect. */
  predicate Tallied(q: Queue, f: Fifo, pc: Pc) {
    && q.addAttempts == f.adds + (if pc.Add? && !pc.a.A105? && !pc.a.A132? then 1 else 0)
    && q.getAttempts == f.gets + (if pc.Get? && !pc.g.G140? && !pc.g.G155? then 1 else 0)
    && q.addCount + (if pc.Add? && pc.a.A132? then 1 else 0) == |f.added|
    && q.getCount + (if pc.Get? && pc.g.G155? then 1 else 0) == |f.got|
  }

  // The queue as a thread at pc in the critical section leaves it.
  predicate InBody(q: Queue, f: Fifo, ns: seq<int>, pc: Pc, v: int) {
    BodyRel(q, ns, f.contents, pc, v) && Tallied(q, f, pc)
  }

  // And with nobody in it.
  predicate InQueue(q: Queue, f: Fifo, ns: seq<int>) {
    Represents(q, ns, f.contents) && Tallied(q, f, Done(true, 0))
  }

  lemma BodyEdges(q: Queue, f: Fifo, ns: seq<int>, pc: Pc, role: Role, v: int)
    requires pc == Start(role) || pc.Done?
    ensures InBody(q, f, ns, pc, v) <==> InQueue(q, f, ns)
  {
    BodyEnds(q, ns, f.contents, pc, role, v);
  }

  // A statement of the critical section counts what it does.
  lemma BodyTallied(f: Fifo, q: Queue, ns: seq<int>, roles: seq<Role>, body: seq<Pc>, t: nat, m: Malloc)
    requires Views(f, roles, body) && AllSuit(roles, body) && t < |roles| && f.max == q.max
    requires InBody(q, f, ns, body[t], ValueOf(roles[t]))
    ensures var (q', pc') := QueueBody.StepOf(q, body[t], ValueOf(roles[t]), m);
            Tallied(q', Follow(f, t, Visible(body[t], pc')), pc')
  {
    assert f.clients[t] == Client(roles[t], Outcome(body[t])) && Suits(roles[t], body[t]);
    match body[t] {
      case Add(a) => AddTallied(f, q, ns, t, a, m);
      case Get(g) => GetTallied(f, q, ns, t, g);
      case _ =>
    }
  }

  lemma AddTallied(f: Fifo, q: Queue, ns: seq<int>, t: nat, a: AddPc, m: Malloc)
    requires t < |f.clients| && f.clients[t].role.Writer? && f.clients[t].call == Outcome(Add(a))
    requires f.max == q.max && InBody(q, f, ns, Add(a), f.clients[t].role.i)
    ensures var (q', pc') := AddStep(q, a, f.clients[t].role.i, m);
            Tallied(q', Follow(f, t, Visible(Add(a), pc')), pc')
  {
    AddKeeps(q, ns, f.contents, a, f.clients[t].role.i, m);
    assert a.A132? ==> f.clients[t].call == ADDED;
  }

  lemma GetTallied(f: Fifo, q: Queue, ns: seq<int>, t: nat, g: GetPc)
    requires t < |f.clients| && f.clients[t].role.Reader? && f.clients[t].call == Outcome(Get(g))
    requires f.max == q.max && InBody(q, f, ns, Get(g), 0)
    ensures var (q', pc') := GetStep(q, g);
            Tallied(q', Follow(f, t, Visible(Get(g), pc')), pc')
  {
    GetKeeps(q, ns, f.contents, g, 0);
  }

  // A statement of the critical section is matched by one atomic step or by none.
  lemma BodyMatched(f: Fifo, q: Queue, ns: seq<int>, roles: seq<Role>, body: seq<Pc>, t: nat, m: Malloc)
    requires Views(f, roles, body) && AllSuit(roles, body) && t < |roles| && f.max == q.max
    requires InBody(q, f, ns, body[t], ValueOf(roles[t]))
    ensures var (q', pc') := QueueBody.StepOf(q, body[t], ValueOf(roles[t]), m);
            var body' := body[t := pc'];
            var f' := Follow(f, t, Visible(body[t], pc'));
            && Views(f', roles, body') && AllSuit(roles, body') && f'.max == q'.max
            && InBody(q', f', NextNodes(ns, body[t]), pc', ValueOf(roles[t]))
  {
    var role := roles[t];
    BodyTallied(f, q, ns, roles, body, t, m);
    BodyStep(q, ns, f.contents, body[t], role, m);
    assert f.clients[t] == Client(role, Outcome(body[t]));
    var c' := NextContents(f.contents, body[t], ValueOf(role));
    if Outcome(QueueBody.StepOf(q, body[t], ValueOf(role), m).1) != Outcome(body[t]) {
      EffectMatched(f, t, role, c', Outcome(QueueBody.StepOf(q, body[t], ValueOf(role), m).1));
    }
  }

  lemma EffectMatched(f: Fifo, t: nat, role: Role, c: seq<int>, r: Call)
    requires t < |f.clients| && f.clients[t] == Client(role, Pending)
    requires (c, r) == Atomic(role, f.max, f.contents)
    ensures var f' := AtomicFifo.StepOf(f, t);
            f'.contents == c && f'.max == f.max && f'.clients == f.clients[t := Client(role, r)]
  {
  }

  // Returning to the client loop and starting over.
  lemma ReturnMatched(f: Fifo, roles: seq<Role>, body: seq<Pc>, t: nat)
    requires Views(f, roles, body) && AllSuit(roles, body) && t < |roles| && body[t].Done?
    ensures var role' := AfterReturn(roles[t], body[t].ok, body[t].val);
            var roles' := roles[t := role'];
            var body' := body[t := Start(role')];
            var f' := Follow(f, t, Visible(body[t], Start(role')));
            && Views(f', roles', body') && AllSuit(roles', body')
            && f'.max == f.max && f'.contents == f.contents
            && f'.adds == f.adds && f'.gets == f.gets && f'.added == f.added && f'.got == f.got
  {
    assert f.clients[t] == Client(roles[t], Outcome(body[t]));
  }

  // The atomic FIFO every variant starts as.
  function InitialFifo(max: nat, roles: seq<Role>): (f: Fifo)
    ensures |f.clients| == |roles|
  {
    Fifo(max, [], [], [], 0, 0, seq(|roles|, t requires 0 <= t < |roles| => Client(roles[t], Pending)))
  }

  predicate FreshRoles(roles: seq<Role>) {
    forall t :: 0 <= t < |roles| ==> FreshRole(roles[t])
  }

  function Starts(roles: seq<Role>): (body: seq<Pc>)
    ensures |body| == |roles|
  {
    seq(|roles|, t requires 0 <= t < |roles| => Start(roles[t]))
  }

  lemma InitialMatched(max: nat, roles: seq<Role>)
    requires FreshRoles(roles)
    ensures var f := InitialFifo(max, roles);
            AtomicFifo.Initial(f) && Views(f, roles, Starts(roles)) && AllSuit(roles, Starts(roles))
  {
  }
}
