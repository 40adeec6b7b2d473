/** The three queues of daemon.c as a step system: send_queue, receive_queue and broadcast_queue, and the threads
    send_code, receive_parse_code and broadcast that empty them, before the shutdown of the daemon. */
module Daemon {
  import opened Basics

  type Addr = nat
  type Value = nat

  datatype Q = Send | Recv | Bcast

  /** The consumer of a queue, or any other thread. */
  datatype Thread = Consumer(q: Q) | Producer(n: nat)

  /** The order in which a thread takes the locks. */
  function Rank(q: Q): int {
    match q
    case Send => 0
    case Recv => 1
    case Bcast => 2
  }

  const LIMIT := 1024

  /** A node of a queue; `next` is whatever the memory held until the next node is appended. */
  datatype Node = Node(value: Value, next: Addr)

  /** The variables of a queue (sendqueue, sendqueue_head and sendqueue_number for the first), its recursive lock, and
      its history: the nodes that it holds, and the values that were accepted, processed and dropped. */
  datatype Queue = Queue(
    first: Addr, last: Addr, number: int, owner: Option<Thread>, depth: nat,
    nodes: seq<Addr>, accepted: seq<Value>, processed: seq<Value>, dropped: nat)

  /** Where a consumer stands: before its first lock, at the head of its loop with the lock, processing the first node
      with the lock taken twice, in pthread_cond_wait, or signalled there. */
  datatype ConsumerPc = Start | AtHead | Busy | Waiting | Woken

  /** Where a thread stands in its calls of the three functions that enqueue: before the lock, inside, or before the
      signal. A call may be made from inside another one, `under` which it is: send_queue holds its lock while the
      protocol creates the code, and createCode of a protocol may enqueue. */
  datatype Call =
    | NoCall
    | Want(q: Q, v: Value, under: Call)
    | Inside(q: Q, v: Value, under: Call)
    | Signalling(q: Q, under: Call)

  datatype State = State(
    queues: map<Q, Queue>, mem: map<Addr, Node>, consumers: map<Q, ConsumerPc>, calls: map<Thread, Call>)

  datatype Step =
    | CallEnqueue(t: Thread, q: Q, v: Value)
    | Acquire(t: Thread)
    | Insert(t: Thread, a: Addr, garbage: Addr)
    | Release(t: Thread)
    | Signal(t: Thread)
    | Enter(q: Q)
    | Take(q: Q)
    | Wait(q: Q)
    | Spurious(q: Q)
    | Done(q: Q)

  ghost predicate Total(s: State) {
    && (forall q: Q :: q in s.queues && q in s.consumers) && (forall q: Q :: Consumer(q) in s.calls)
  }

  ghost predicate CanLock(s: State, t: Thread, q: Q)
    requires Total(s)
  {
    s.queues[q].owner == None || s.queues[q].owner == Some(t)
  }

  /** A thread may enqueue to `q`: it holds no lock, or it is a consumer that processes a node of this queue or an
      earlier one, or it is inside a call for this queue or an earlier one. */
  ghost predicate MayCall(s: State, t: Thread, q: Q)
    requires Total(s) && t in s.calls
  {
    match s.calls[t]
    case NoCall => t.Consumer? ==> s.consumers[t.q].Busy? && Rank(t.q) <= Rank(q)
    case Inside(p, _, _) => Rank(p) <= Rank(q)
    case _ => false
  }

  /** When a thread may take a step. */
  ghost predicate Guard(s: State, step: Step)
    requires Total(s)
  {
    match step
    case CallEnqueue(t, q, _) => t in s.calls && MayCall(s, t, q)
    case Acquire(t) => t in s.calls && s.calls[t].Want? && CanLock(s, t, s.calls[t].q)
    case Insert(t, a, _) => t in s.calls && s.calls[t].Inside? && a !in s.mem
    case Release(t) => t in s.calls && s.calls[t].Inside? && s.calls[t].q.Send?
    case Signal(t) => t in s.calls && s.calls[t].Signalling?
    case Enter(q) => (s.consumers[q].Start? || s.consumers[q].Woken?) && s.queues[q].owner == None
    case Take(q) => s.consumers[q].AtHead? && s.queues[q].number > 0
    case Wait(q) => s.consumers[q].AtHead? && s.queues[q].number <= 0
    case Spurious(q) => s.consumers[q].Waiting?
    case Done(q) => s.consumers[q].Busy? && s.calls[Consumer(q)].NoCall?
  }

  /** The pointers that the step follows are valid, and a lock is released by its owner. */
  ghost predicate Safe(s: State, step: Step)
    requires Total(s) && Guard(s, step)
  {
    match step
    case Insert(t, _, _) =>
      var x := s.queues[s.calls[t].q];
      x.owner == Some(t) && x.depth > 0 && (x.number != 0 && x.number <= LIMIT ==> x.last in s.mem)
    case Release(t) => s.queues[Send].owner == Some(t) && s.queues[Send].depth > 0
    case Wait(q) => s.queues[q].owner == Some(Consumer(q)) && s.queues[q].depth == 1
    case Take(q) => s.queues[q].owner == Some(Consumer(q)) && s.queues[q].first in s.mem
    case Done(q) => s.queues[q].owner == Some(Consumer(q)) && s.queues[q].depth > 0 && s.queues[q].first in s.mem
    case _ => true
  }

  function Locked(x: Queue, t: Thread): Queue {
    x.(owner := Some(t), depth := x.depth + 1)
  }

  function Unlocked(x: Queue): Queue
    requires x.depth > 0
  {
    x.(owner := if x.depth == 1 then None else x.owner, depth := x.depth - 1)
  }

  ghost function Apply(s: State, step: Step): State
    requires Total(s) && Guard(s, step) && Safe(s, step)
  {
    match step
    case CallEnqueue(t, q, v) => s.(calls := s.calls[t := Want(q, v, s.calls[t])])
    case Acquire(t) =>
      var c := s.calls[t];
      s.(queues := s.queues[c.q := Locked(s.queues[c.q], t)], calls := s.calls[t := Inside(c.q, c.v, c.under)])
    case Insert(t, a, garbage) => Inserted(s, t, a, garbage)
    case Release(t) =>
      s.(queues := s.queues[Send := Unlocked(s.queues[Send])], calls := s.calls[t := s.calls[t].under])
    case Signal(t) =>
      var q := s.calls[t].q;
      s.(calls := s.calls[t := s.calls[t].under],
         consumers := if s.consumers[q].Waiting? then s.consumers[q := Woken] else s.consumers)
    case Enter(q) =>
      s.(queues := s.queues[q := Locked(s.queues[q], Consumer(q))], consumers := s.consumers[q := AtHead])
    case Take(q) =>
      s.(queues := s.queues[q := Locked(s.queues[q], Consumer(q))], consumers := s.consumers[q := Busy])
    case Wait(q) => s.(queues := s.queues[q := Unlocked(s.queues[q])], consumers := s.consumers[q := Waiting])
    case Spurious(q) => s.(consumers := s.consumers[q := Woken])
    case Done(q) => Processed(s, q)
  }

  /** The critical section of the functions that enqueue. A full queue drops the value; send_queue then returns -1
      without a signal. */
  ghost function Inserted(s: State, t: Thread, a: Addr, garbage: Addr): State
    requires Total(s) && Guard(s, Insert(t, a, garbage)) && Safe(s, Insert(t, a, garbage))
  {
    var q, v, under := s.calls[t].q, s.calls[t].v, s.calls[t].under;
    var x := s.queues[q];
    if x.number <= LIMIT then
      var y := x.(first := if x.number == 0 then a else x.first, last := a, number := x.number + 1,
                  nodes := x.nodes + [a], accepted := x.accepted + [v]);
      var mem := if x.number == 0 then s.mem else s.mem[x.last := s.mem[x.last].(next := a)];
      s.(calls := s.calls[t := Signalling(q, under)], mem := mem[a := Node(v, garbage)],
         queues := s.queues[q := Unlocked(y)])
    else
      s.(calls := s.calls[t := if q.Send? then under else Signalling(q, under)],
         queues := s.queues[q := Unlocked(x.(dropped := x.dropped + 1))])
  }

  /** The end of the processing of a node. */
  ghost function Processed(s: State, q: Q): State
    requires q in s.queues && s.queues[q].first in s.mem && s.queues[q].depth > 0
  {
    var x := s.queues[q];
    var node := s.mem[x.first];
    var y := x.(first := node.next, number := x.number - 1, nodes := if x.nodes == [] then [] else x.nodes[1..],
                processed := x.processed + [node.value]);
    s.(mem := s.mem - {x.first}, queues := s.queues[q := Unlocked(y)], consumers := s.consumers[q := AtHead])
  }

  // ---------- Invariant ----------

  ghost function Values(mem: map<Addr, Node>, nodes: seq<Addr>): seq<Value>
    requires forall a :: a in nodes ==> a in mem
  {
    seq(|nodes|, i requires 0 <= i < |nodes| => mem[nodes[i]].value)
  }

  ghost predicate Distinct(l: seq<Addr>) {
    forall i, j :: 0 <= i < j < |l| ==> l[i] != l[j]
  }

  ghost predicate LinkedAt(mem: map<Addr, Node>, nodes: seq<Addr>, i: int) {
    0 <= i && i + 1 < |nodes| && nodes[i] in mem && mem[nodes[i]].next == nodes[i + 1]
  }

  /** The pointers mean something while the number says so: it counts the nodes, linked from the first to the last. The
      values accepted are the ones processed, followed by those in the queue. */
  ghost predicate QueueOk(mem: map<Addr, Node>, x: Queue) {
    && x.number == |x.nodes| <= LIMIT + 1 && Distinct(x.nodes) && (forall a :: a in x.nodes ==> a in mem)
    && (x.nodes != [] ==> x.first == x.nodes[0] && x.last == x.nodes[|x.nodes| - 1])
    && (forall i :: 0 <= i < |x.nodes| - 1 ==> LinkedAt(mem, x.nodes, i))
    && x.accepted == x.processed + Values(mem, x.nodes)
  }

  ghost predicate Disjoint(s: State)
    requires Total(s)
  {
    forall p, q, a :: p != q && a in s.queues[p].nodes ==> a !in s.queues[q].nodes
  }

  /** How often the calls of a thread hold a lock. */
  ghost function Insides(c: Call, q: Q): nat {
    match c
    case NoCall => 0
    case Want(_, _, under) => Insides(under, q)
    case Inside(p, _, under) => Insides(under, q) + if p == q then 1 else 0
    case Signalling(_, under) => Insides(under, q)
  }

  /** How often a thread holds a lock. */
  ghost function Held(s: State, t: Thread, q: Q): nat
    requires Total(s)
  {
    (if t == Consumer(q) then (if s.consumers[q].AtHead? then 1 else if s.consumers[q].Busy? then 2 else 0) else 0)
    + (if t in s.calls then Insides(s.calls[t], q) else 0)
  }

  ghost predicate LockOk(s: State, q: Q)
    requires Total(s)
  {
    && (s.queues[q].owner == None ==> s.queues[q].depth == 0)
    && (forall t {:trigger Held(s, t, q)} :: Held(s, t, q) > 0 ==> s.queues[q].owner == Some(t))
    && (forall t {:trigger Held(s, t, q)} :: s.queues[q].owner == Some(t) ==> s.queues[q].depth == Held(s, t, q) > 0)
  }

  /** Calls are made from inside calls for the same queue or an earlier one, and the first of them for a queue of rank
      `low` or more. */
  ghost predicate Climbs(c: Call, low: int) {
    c.NoCall? ||
    (&& low <= Rank(c.q) && Climbs(c.under, low)
     && (c.under.NoCall? || (c.under.Inside? && Rank(c.under.q) <= Rank(c.q))))
  }

  /** A consumer enqueues while it processes a node. */
  ghost predicate StackOk(s: State, t: Thread)
    requires Total(s) && t in s.calls
  {
    && Climbs(s.calls[t], if t.Consumer? then Rank(t.q) else 0)
    && (t.Consumer? && !s.calls[t].NoCall? ==> s.consumers[t.q].Busy?)
  }

  ghost predicate StacksOk(s: State)
    requires Total(s)
  {
    forall t {:trigger StackOk(s, t)} :: t in s.calls ==> StackOk(s, t)
  }

  ghost predicate Announced(s: State, t: Thread, q: Q) {
    t in s.calls && s.calls[t].Signalling? && s.calls[t].q == q
  }

  /** A consumer that sleeps on nodes will be woken. */
  ghost predicate WakeOk(s: State, q: Q)
    requires Total(s)
  {
    s.consumers[q].Waiting? && s.queues[q].number > 0 ==> exists t :: Announced(s, t, q)
  }

  ghost predicate BusyOk(s: State, q: Q)
    requires Total(s)
  {
    s.consumers[q].Busy? ==> s.queues[q].number > 0
  }

  ghost predicate Each(s: State, q: Q)
    requires Total(s)
  {
    QueueOk(s.mem, s.queues[q]) && LockOk(s, q) && WakeOk(s, q) && BusyOk(s, q)
  }

  ghost predicate Inv(s: State) {
    Total(s) && Disjoint(s) && StacksOk(s) && forall q {:trigger Each(s, q)} :: Each(s, q)
  }

  // ---------- The lists ----------

  lemma ValuesFrame(mem: map<Addr, Node>, mem': map<Addr, Node>, nodes: seq<Addr>)
    requires forall a :: a in nodes ==> a in mem && a in mem' && mem'[a].value == mem[a].value
    ensures Values(mem', nodes) == Values(mem, nodes)
  {
  }

  /** A queue does not notice what happens to other memory, or to its lock. */
  lemma QueueFrame(mem: map<Addr, Node>, mem': map<Addr, Node>, x: Queue, y: Queue)
    requires QueueOk(mem, x) && y == x.(owner := y.owner, depth := y.depth, dropped := y.dropped)
    requires forall a :: a in x.nodes && a in mem ==> a in mem' && mem'[a] == mem[a]
    ensures QueueOk(mem', y)
  {
    ValuesFrame(mem, mem', x.nodes);
    forall i | 0 <= i < |x.nodes| - 1 ensures LinkedAt(mem', x.nodes, i) {
      assert LinkedAt(mem, x.nodes, i);
    }
  }

  lemma Appended(mem: map<Addr, Node>, x: Queue, a: Addr, v: Value, garbage: Addr)
    requires QueueOk(mem, x) && a !in mem && x.number <= LIMIT
    ensures x.number != 0 ==> x.last in mem
    ensures var m1 := if x.number == 0 then mem else mem[x.last := mem[x.last].(next := a)];
            QueueOk(m1[a := Node(v, garbage)],
                    x.(first := if x.number == 0 then a else x.first, last := a, number := x.number + 1,
                       nodes := x.nodes + [a], accepted := x.accepted + [v]))
  {
    var n := |x.nodes|;
    if n > 0 {
      assert x.nodes[n - 1] in x.nodes;
    }
    var m1 := if x.number == 0 then mem else mem[x.last := mem[x.last].(next := a)];
    var m2, nodes := m1[a := Node(v, garbage)], x.nodes + [a];
    forall i | 0 <= i < |nodes| - 1 ensures LinkedAt(m2, nodes, i) {
      assert i < n - 1 ==> LinkedAt(mem, x.nodes, i);
      assert x.nodes[i] in x.nodes;
    }
    ValuesFrame(mem, m2, x.nodes);
    assert Values(m2, nodes) == Values(m2, x.nodes) + [v];
  }

  lemma Popped(mem: map<Addr, Node>, x: Queue)
    requires QueueOk(mem, x) && x.number > 0
    ensures x.first in mem && x.first == x.nodes[0]
    ensures QueueOk(mem - {x.first},
                    x.(first := mem[x.first].next, number := x.number - 1, nodes := x.nodes[1..],
                       processed := x.processed + [mem[x.first].value]))
  {
    var n := |x.nodes|;
    assert x.nodes[0] in x.nodes;
    var m, rest := mem - {x.first}, x.nodes[1..];
    assert forall i :: 0 <= i < |rest| ==> rest[i] == x.nodes[i + 1];
    forall i | 0 <= i < |rest| - 1 ensures LinkedAt(m, rest, i) {
      assert LinkedAt(mem, x.nodes, i + 1);
    }
    if n > 1 {
      assert LinkedAt(mem, x.nodes, 0);
    }
    ValuesFrame(mem, m, rest);
    assert Values(mem, x.nodes) == [mem[x.first].value] + Values(mem, rest);
  }

  // ---------- Steps ----------

  /** What a step leaves alone of queue `q`. */
  ghost predicate SameQueue(s: State, t: State, q: Q)
    requires Total(s) && Total(t)
  {
    && t.queues[q] == s.queues[q] && t.consumers[q] == s.consumers[q]
    && (forall a :: a in s.queues[q].nodes && a in s.mem ==> a in t.mem && t.mem[a] == s.mem[a])
    && (forall u :: Held(t, u, q) == Held(s, u, q))
    && (forall u :: Announced(s, u, q) ==> Announced(t, u, q))
  }

  lemma OtherQueue(s: State, t: State, q: Q)
    requires Total(s) && Total(t) && Each(s, q) && SameQueue(s, t, q)
    ensures Each(t, q)
  {
    QueueFrame(s.mem, t.mem, s.queues[q], t.queues[q]);
    hide QueueOk;
    assert forall u :: Held(t, u, q) == Held(s, u, q);
  }

  /** A step that concerns queue `q` and changes no call. */
  lemma Elsewhere(s: State, u: State, q: Q, p: Q)
    requires Total(s) && Total(u) && p != q && Each(s, p)
    requires u.calls == s.calls && u.queues[p] == s.queues[p] && u.consumers[p] == s.consumers[p]
    requires forall a :: a in s.queues[p].nodes && a in s.mem ==> a in u.mem && u.mem[a] == s.mem[a]
    ensures Each(u, p)
  {
    hide QueueOk, LockOk;
    OtherQueue(s, u, p);
  }

  /** A step of thread `t` that replaces its calls by `c`, which neither hold nor announce anything else of `p`. */
  ghost predicate Aside(s: State, t: Thread, c: Call, p: Q) {
    && t in s.calls && Insides(c, p) == Insides(s.calls[t], p)
    && (s.calls[t].Signalling? && s.calls[t].q == p ==> c.Signalling? && c.q == p)
  }

  lemma ElsewhereCall(s: State, u: State, t: Thread, c: Call, p: Q)
    requires Total(s) && Total(u) && Each(s, p) && Aside(s, t, c, p) && u.calls == s.calls[t := c]
    requires u.queues[p] == s.queues[p] && u.consumers[p] == s.consumers[p]
    requires forall a :: a in s.queues[p].nodes && a in s.mem ==> a in u.mem && u.mem[a] == s.mem[a]
    ensures Each(u, p)
  {
    hide QueueOk, LockOk, Held, WakeOk;
    CallsSame(s, u, t, c, p);
    OtherQueue(s, u, p);
  }

  lemma CallsSame(s: State, u: State, t: Thread, c: Call, p: Q)
    requires Total(s) && Total(u) && Aside(s, t, c, p) && u.calls == s.calls[t := c] && u.consumers[p] == s.consumers[p]
    ensures forall w :: Held(u, w, p) == Held(s, w, p)
    ensures forall w :: Announced(s, w, p) ==> Announced(u, w, p)
  {
  }

  /** The stack of one thread changes. */
  lemma StackChanged(s: State, u: State, t: Thread, c: Call)
    requires Total(s) && Total(u) && StacksOk(s) && t in s.calls && u.calls == s.calls[t := c] && StackOk(u, t)
    requires forall q :: s.consumers[q].Busy? ==> u.consumers[q].Busy?
    ensures StacksOk(u)
  {
    forall w | w in u.calls && w != t ensures StackOk(u, w) {
      assert StackOk(s, w);
    }
  }

  /** No stack changes, and no consumer that enqueues stops to process its node. */
  lemma StacksSame(s: State, u: State)
    requires Total(s) && Total(u) && StacksOk(s) && u.calls == s.calls
    requires forall q :: s.consumers[q].Busy? && !s.calls[Consumer(q)].NoCall? ==> u.consumers[q].Busy?
    ensures StacksOk(u)
  {
    forall w | w in u.calls ensures StackOk(u, w) {
      assert StackOk(s, w);
    }
  }

  lemma CallKeeps(s: State, t: Thread, q: Q, v: Value)
    requires Inv(s) && Guard(s, CallEnqueue(t, q, v))
    ensures Inv(Apply(s, CallEnqueue(t, q, v)))
  {
    hide Each, Disjoint;
    var u := Apply(s, CallEnqueue(t, q, v));
    assert StackOk(s, t);
    StackChanged(s, u, t, u.calls[t]);
    SameDisjoint(s, u);
    forall p ensures Each(u, p) {
      assert Each(s, p);
      ElsewhereCall(s, u, t, u.calls[t], p);
    }
  }

  lemma SameDisjoint(s: State, u: State)
    requires Total(s) && Total(u) && Disjoint(s) && forall q :: u.queues[q].nodes == s.queues[q].nodes
    ensures Disjoint(u)
  {
  }

  /** Thread `t` takes the lock of `q` once more. */
  lemma LockGained(s: State, u: State, t: Thread, q: Q)
    requires Total(s) && Total(u) && LockOk(s, q) && CanLock(s, t, q)
    requires u.queues[q].owner == Some(t) && u.queues[q].depth == s.queues[q].depth + 1
    requires forall w :: Held(u, w, q) == Held(s, w, q) + if w == t then 1 else 0
    ensures LockOk(u, q)
  {
    assert Held(s, t, q) > 0 ==> s.queues[q].owner == Some(t);
    assert s.queues[q].depth == Held(s, t, q);
    forall w ensures Held(u, w, q) > 0 ==> w == t {
      assert Held(u, w, q) == Held(s, w, q) + if w == t then 1 else 0;
    }
  }

  /** Thread `t` releases the lock of `q` once. */
  lemma LockLost(s: State, u: State, t: Thread, q: Q)
    requires Total(s) && Total(u) && LockOk(s, q) && Held(s, t, q) > 0
    requires s.queues[q].depth > 0 && u.queues[q].owner == Unlocked(s.queues[q]).owner
             && u.queues[q].depth == s.queues[q].depth - 1
    requires forall w :: Held(u, w, q) == Held(s, w, q) - if w == t then 1 else 0
    ensures LockOk(u, q)
  {
    assert s.queues[q].owner == Some(t) && s.queues[q].depth == Held(s, t, q);
    forall w ensures Held(u, w, q) > 0 ==> w == t && s.queues[q].depth > 1 {
      assert Held(u, w, q) == Held(s, w, q) - if w == t then 1 else 0;
      assert Held(s, w, q) > 0 ==> w == t;
    }
  }

  lemma AcquireThere(s: State, t: Thread)
    requires Inv(s) && Guard(s, Acquire(t))
    ensures Each(Apply(s, Acquire(t)), s.calls[t].q)
  {
    hide QueueOk, LockOk, Disjoint, StacksOk;
    var u, q := Apply(s, Acquire(t)), s.calls[t].q;
    assert Each(s, q);
    QueueFrame(s.mem, u.mem, s.queues[q], u.queues[q]);
    LockGained(s, u, t, q);
    assert forall w :: Announced(s, w, q) ==> Announced(u, w, q);
  }

  lemma AcquireKeeps(s: State, t: Thread)
    requires Inv(s) && Guard(s, Acquire(t))
    ensures Inv(Apply(s, Acquire(t)))
  {
    hide Each, Disjoint;
    var u, q := Apply(s, Acquire(t)), s.calls[t].q;
    AcquireThere(s, t);
    assert StackOk(s, t);
    StackChanged(s, u, t, u.calls[t]);
    SameDisjoint(s, u);
    forall p | p != q ensures Each(u, p) {
      assert Each(s, p);
      ElsewhereCall(s, u, t, u.calls[t], p);
    }
  }

  lemma HolderOf(s: State, t: Thread, q: Q)
    requires Total(s) && LockOk(s, q) && Held(s, t, q) > 0
    ensures s.queues[q].owner == Some(t) && s.queues[q].depth == Held(s, t, q)
  {
  }

  lemma InsertSafe(s: State, t: Thread, a: Addr, garbage: Addr)
    requires Inv(s) && Guard(s, Insert(t, a, garbage))
    ensures Safe(s, Insert(t, a, garbage))
  {
    hide LockOk;
    var q := s.calls[t].q;
    assert Each(s, q);
    HolderOf(s, t, q);
  }

  /** The queue that is enqueued to. */
  lemma InsertThere(s: State, t: Thread, a: Addr, garbage: Addr)
    requires Inv(s) && Guard(s, Insert(t, a, garbage))
    ensures Safe(s, Insert(t, a, garbage)) && Each(Inserted(s, t, a, garbage), s.calls[t].q)
  {
    hide QueueOk, LockOk;
    InsertSafe(s, t, a, garbage);
    var u, q := Inserted(s, t, a, garbage), s.calls[t].q;
    var x := s.queues[q];
    assert Each(s, q);
    if x.number <= LIMIT {
      Appended(s.mem, x, a, s.calls[t].v, garbage);
      QueueFrame(u.mem, u.mem, u.queues[q].(owner := x.owner, depth := x.depth), u.queues[q]);
      assert Announced(u, t, q);
    } else {
      QueueFrame(s.mem, u.mem, x, u.queues[q]);
      assert forall w :: Announced(s, w, q) ==> Announced(u, w, q);
    }
    LockLost(s, u, t, q);
  }

  lemma InsertKeeps(s: State, t: Thread, a: Addr, garbage: Addr)
    requires Inv(s) && Guard(s, Insert(t, a, garbage))
    ensures Safe(s, Insert(t, a, garbage)) && Inv(Inserted(s, t, a, garbage))
  {
    hide Each, Disjoint, Inserted;
    InsertThere(s, t, a, garbage);
    var u, q := Inserted(s, t, a, garbage), s.calls[t].q;
    InsertFrame(s, t, a, garbage);
    assert StackOk(s, t);
    StackChanged(s, u, t, u.calls[t]);
    forall p | p != q ensures Each(u, p) {
      assert Each(s, p);
      ElsewhereCall(s, u, t, u.calls[t], p);
    }
  }

  lemma InsertFrame(s: State, t: Thread, a: Addr, garbage: Addr)
    requires Inv(s) && Guard(s, Insert(t, a, garbage)) && Safe(s, Insert(t, a, garbage))
    ensures var u, q := Inserted(s, t, a, garbage), s.calls[t].q;
            && Total(u) && Disjoint(u) && u.consumers == s.consumers && u.calls == s.calls[t := u.calls[t]]
            && u.calls[t] in {Signalling(q, s.calls[t].under), s.calls[t].under}
            && (forall p :: p != q ==> u.queues[p] == s.queues[p])
            && (forall p, b :: p != q && b in s.queues[p].nodes && b in s.mem ==> b in u.mem && u.mem[b] == s.mem[b])
  {
    hide Each, Disjoint;
    LastIn(s, s.calls[t].q);
    NodesIn(s);
    OtherNodes(s, s.calls[t].q, s.queues[s.calls[t].q].last);
    InsertDisjoint(s, t, a, garbage);
  }

  lemma OtherNodes(s: State, q: Q, b: Addr)
    requires Total(s) && Disjoint(s)
    ensures b in s.queues[q].nodes ==> forall p :: p != q ==> b !in s.queues[p].nodes
  {
  }

  lemma InsertDisjoint(s: State, t: Thread, a: Addr, garbage: Addr)
    requires Inv(s) && Guard(s, Insert(t, a, garbage)) && Safe(s, Insert(t, a, garbage))
    ensures Total(Inserted(s, t, a, garbage)) && Disjoint(Inserted(s, t, a, garbage))
  {
    hide Each, StacksOk;
    NodesIn(s);
  }

  lemma NodesIn(s: State)
    requires Inv(s)
    ensures forall p, b :: b in s.queues[p].nodes ==> b in s.mem
  {
    forall p, b | b in s.queues[p].nodes ensures b in s.mem {
      assert Each(s, p);
    }
  }

  lemma LastIn(s: State, q: Q)
    requires Inv(s)
    ensures s.queues[q].number != 0 ==> s.queues[q].last in s.queues[q].nodes
  {
    assert Each(s, q);
  }

  lemma ReleaseThere(s: State, t: Thread)
    requires Inv(s) && Guard(s, Release(t))
    ensures Safe(s, Release(t)) && Each(Apply(s, Release(t)), Send)
  {
    hide QueueOk, LockOk, Disjoint, StacksOk;
    assert Each(s, Send);
    HolderOf(s, t, Send);
    var u := Apply(s, Release(t));
    QueueFrame(s.mem, u.mem, s.queues[Send], u.queues[Send]);
    LockLost(s, u, t, Send);
    assert forall w :: Announced(s, w, Send) ==> Announced(u, w, Send);
  }

  lemma ReleaseKeeps(s: State, t: Thread)
    requires Inv(s) && Guard(s, Release(t))
    ensures Safe(s, Release(t)) && Inv(Apply(s, Release(t)))
  {
    hide Each, Disjoint;
    ReleaseThere(s, t);
    var u := Apply(s, Release(t));
    assert StackOk(s, t);
    StackChanged(s, u, t, u.calls[t]);
    SameDisjoint(s, u);
    forall p | p != Send ensures Each(u, p) {
      assert Each(s, p);
      ElsewhereCall(s, u, t, u.calls[t], p);
    }
  }

  lemma SignalThere(s: State, t: Thread)
    requires Inv(s) && Guard(s, Signal(t))
    ensures Each(Apply(s, Signal(t)), s.calls[t].q)
  {
    hide QueueOk, Disjoint, StacksOk;
    var u, q := Apply(s, Signal(t)), s.calls[t].q;
    assert Each(s, q);
    assert forall w :: Held(u, w, q) == Held(s, w, q);
  }

  lemma SignalKeeps(s: State, t: Thread)
    requires Inv(s) && Guard(s, Signal(t))
    ensures Inv(Apply(s, Signal(t)))
  {
    hide Each, Disjoint;
    var u, q := Apply(s, Signal(t)), s.calls[t].q;
    SignalThere(s, t);
    assert StackOk(s, t);
    StackChanged(s, u, t, u.calls[t]);
    SameDisjoint(s, u);
    forall p | p != q ensures Each(u, p) {
      assert Each(s, p);
      ElsewhereCall(s, u, t, u.calls[t], p);
    }
  }

  lemma EnterThere(s: State, step: Step)
    requires Inv(s) && (step.Enter? || step.Take?) && Guard(s, step)
    ensures Safe(s, step) && Each(Apply(s, step), step.q)
  {
    hide QueueOk, LockOk;
    var q := step.q;
    assert Each(s, q);
    if step.Take? {
      HolderOf(s, Consumer(q), q);
      FirstIn(s, q);
    }
    var u := Apply(s, step);
    QueueFrame(s.mem, u.mem, s.queues[q], u.queues[q]);
    LockGained(s, u, Consumer(q), q);
  }

  lemma FirstIn(s: State, q: Q)
    requires Inv(s)
    ensures s.queues[q].number > 0 ==> s.queues[q].first in s.mem
  {
    assert Each(s, q);
    assert s.queues[q].nodes != [] ==> s.queues[q].nodes[0] in s.queues[q].nodes;
  }

  lemma EnterKeeps(s: State, step: Step)
    requires Inv(s) && (step.Enter? || step.Take?) && Guard(s, step)
    ensures Safe(s, step) && Inv(Apply(s, step))
  {
    hide Each;
    EnterThere(s, step);
    var u, q := Apply(s, step), step.q;
    StacksSame(s, u);
    forall p | p != q ensures Each(u, p) {
      assert Each(s, p);
      Elsewhere(s, u, q, p);
    }
  }

  lemma WaitThere(s: State, q: Q)
    requires Inv(s) && Guard(s, Wait(q))
    ensures Safe(s, Wait(q)) && Each(Apply(s, Wait(q)), q)
  {
    hide QueueOk, LockOk;
    assert Each(s, q);
    assert StackOk(s, Consumer(q));
    HolderOf(s, Consumer(q), q);
    var u := Apply(s, Wait(q));
    QueueFrame(s.mem, u.mem, s.queues[q], u.queues[q]);
    LockLost(s, u, Consumer(q), q);
  }

  lemma WaitKeeps(s: State, q: Q)
    requires Inv(s) && Guard(s, Wait(q))
    ensures Safe(s, Wait(q)) && Inv(Apply(s, Wait(q)))
  {
    hide Each;
    WaitThere(s, q);
    var u := Apply(s, Wait(q));
    StacksSame(s, u);
    forall p | p != q ensures Each(u, p) {
      assert Each(s, p);
      Elsewhere(s, u, q, p);
    }
  }

  lemma SpuriousKeeps(s: State, q: Q)
    requires Inv(s) && Guard(s, Spurious(q))
    ensures Inv(Apply(s, Spurious(q)))
  {
    hide QueueOk;
    var u := Apply(s, Spurious(q));
    StacksSame(s, u);
    forall p ensures Each(u, p) {
      assert Each(s, p);
      assert forall w :: Held(u, w, p) == Held(s, w, p);
      assert forall w :: Announced(s, w, p) ==> Announced(u, w, p);
    }
  }

  lemma DoneThere(s: State, q: Q)
    requires Inv(s) && Guard(s, Done(q))
    ensures Safe(s, Done(q)) && Each(Processed(s, q), q)
    ensures s.queues[q].first in s.queues[q].nodes && Processed(s, q).queues[q].nodes == s.queues[q].nodes[1..]
  {
    hide LockOk;
    assert Each(s, q);
    HolderOf(s, Consumer(q), q);
    var x := s.queues[q];
    Popped(s.mem, x);
    var u := Processed(s, q);
    hide QueueOk;
    QueueFrame(u.mem, u.mem, u.queues[q].(owner := x.owner, depth := x.depth), u.queues[q]);
    LockLost(s, u, Consumer(q), q);
  }

  lemma DoneKeeps(s: State, q: Q)
    requires Inv(s) && Guard(s, Done(q))
    ensures Safe(s, Done(q)) && Inv(Processed(s, q))
  {
    hide Each;
    DoneThere(s, q);
    var u := Processed(s, q);
    StacksSame(s, u);
    forall p | p != q ensures Each(u, p) {
      assert Each(s, p);
      Elsewhere(s, u, q, p);
    }
  }

  lemma StepKeeps(s: State, step: Step)
    requires Inv(s) && Guard(s, step)
    ensures Safe(s, step) && Inv(Apply(s, step))
  {
    hide Each, Disjoint, StacksOk;
    match step
    case CallEnqueue(t, q, v) => CallKeeps(s, t, q, v);
    case Acquire(t) => AcquireKeeps(s, t);
    case Insert(t, a, garbage) => InsertKeeps(s, t, a, garbage);
    case Release(t) => ReleaseKeeps(s, t);
    case Signal(t) => SignalKeeps(s, t);
    case Enter(q) => EnterKeeps(s, step);
    case Take(q) => EnterKeeps(s, step);
    case Wait(q) => WaitKeeps(s, q);
    case Spurious(q) => SpuriousKeeps(s, q);
    case Done(q) => DoneKeeps(s, q);
  }

  // ---------- Runs ----------

  /** The daemon after its start: empty queues, and consumers before their first lock. */
  ghost predicate Initial(s: State) {
    && Total(s) && (forall q :: s.consumers[q].Start?) && (forall t :: t in s.calls ==> s.calls[t].NoCall?)
    && forall q :: s.queues[q] == Queue(s.queues[q].first, s.queues[q].last, 0, None, 0, [], [], [], 0)
  }

  ghost predicate RunOf(ss: seq<State>, steps: seq<Step>) {
    && |ss| == |steps| + 1 && Initial(ss[0])
    && forall i :: 0 <= i < |steps| ==>
         Total(ss[i]) && Guard(ss[i], steps[i]) && (Safe(ss[i], steps[i]) ==> ss[i + 1] == Apply(ss[i], steps[i]))
  }

  lemma InitialInv(s: State)
    requires Initial(s)
    ensures Inv(s)
  {
    forall q ensures Each(s, q) {
      assert QueueOk(s.mem, s.queues[q]);
      assert forall t :: Held(s, t, q) == 0;
    }
  }

  lemma {:induction false} RunInv(ss: seq<State>, steps: seq<Step>, i: nat)
    requires RunOf(ss, steps) && i < |ss|
    ensures Inv(ss[i]) && (i < |steps| ==> Safe(ss[i], steps[i]))
  {
    hide Each, Disjoint, Guard, Safe, Apply;
    if i == 0 {
      InitialInv(ss[0]);
    } else {
      RunInv(ss, steps, i - 1);
      StepKeeps(ss[i - 1], steps[i - 1]);
    }
    if i < |steps| {
      StepKeeps(ss[i], steps[i]);
    }
  }

  /** In every run, each queue processes the accepted values once and in order, holds at most 1025 of them, and counts
      exactly those that are accepted and not yet processed. */
  lemma Fifo(ss: seq<State>, steps: seq<Step>, i: nat, q: Q)
    requires RunOf(ss, steps) && i < |ss|
    ensures Total(ss[i])
    ensures var x := ss[i].queues[q];
            && x.processed <= x.accepted && x.number == |x.accepted| - |x.processed| && 0 <= x.number <= LIMIT + 1
  {
    RunInv(ss, steps, i);
    assert Each(ss[i], q);
  }

  /** In every run, a value is dropped exactly if the queue holds 1025 already. */
  lemma DropsWhenFull(ss: seq<State>, steps: seq<Step>, i: nat, t: Thread, a: Addr, garbage: Addr)
    requires RunOf(ss, steps) && i < |steps| && steps[i] == Insert(t, a, garbage)
    ensures Total(ss[i]) && Total(ss[i + 1]) && t in ss[i].calls && ss[i].calls[t].Inside?
    ensures var q := ss[i].calls[t].q;
            var x, y := ss[i].queues[q], ss[i + 1].queues[q];
            if x.number == LIMIT + 1 then y.accepted == x.accepted && y.dropped == x.dropped + 1
            else y.accepted == x.accepted + [ss[i].calls[t].v] && y.dropped == x.dropped
  {
    RunInv(ss, steps, i);
    RunInv(ss, steps, i + 1);
    assert Each(ss[i], ss[i].calls[t].q);
  }

  /** Every allocated node is in a queue. */
  ghost predicate Owned(s: State)
    requires Total(s)
  {
    forall a :: a in s.mem ==> exists q :: a in s.queues[q].nodes
  }

  lemma DoneOwned(s: State, q: Q)
    requires Inv(s) && Guard(s, Done(q)) && Owned(s)
    ensures Safe(s, Done(q)) && Total(Processed(s, q)) && Owned(Processed(s, q))
  {
    hide Each, Disjoint;
    DoneThere(s, q);
    FirstIs(s, q);
    var u := Processed(s, q);
    forall a | a in u.mem ensures exists p :: a in u.queues[p].nodes {
      var p :| a in s.queues[p].nodes;
      RestKept(s.queues[p].nodes, a, s.queues[q].first);
      assert a in u.queues[p].nodes;
    }
  }

  lemma FirstIs(s: State, q: Q)
    requires Inv(s) && s.queues[q].first in s.queues[q].nodes
    ensures s.queues[q].nodes[0] == s.queues[q].first
  {
    assert Each(s, q);
  }

  lemma InsertOwned(s: State, t: Thread, a: Addr, garbage: Addr)
    requires Inv(s) && Guard(s, Insert(t, a, garbage)) && Safe(s, Insert(t, a, garbage)) && Owned(s)
    ensures Total(Inserted(s, t, a, garbage)) && Owned(Inserted(s, t, a, garbage))
  {
    hide Each, Disjoint;
    var u, q := Inserted(s, t, a, garbage), s.calls[t].q;
    forall b | b in u.mem ensures exists p :: b in u.queues[p].nodes {
      if b == a {
        assert a in u.queues[q].nodes;
      } else {
        var p :| b in s.queues[p].nodes;
        assert b in u.queues[p].nodes;
      }
    }
  }

  lemma OtherOwned(s: State, step: Step)
    requires Total(s) && Guard(s, step) && Safe(s, step) && Owned(s) && !step.Done? && !step.Insert?
    ensures Total(Apply(s, step)) && Owned(Apply(s, step))
  {
    var u := Apply(s, step);
    assert u.mem == s.mem && forall q :: u.queues[q].nodes == s.queues[q].nodes;
  }

  lemma StepOwned(s: State, step: Step)
    requires Inv(s) && Guard(s, step) && Owned(s)
    ensures Safe(s, step) && Inv(Apply(s, step)) && Owned(Apply(s, step))
  {
    hide Each, Disjoint, Owned, Inserted, Processed;
    StepKeeps(s, step);
    if step.Done? {
      DoneOwned(s, step.q);
    } else if step.Insert? {
      InsertOwned(s, step.t, step.a, step.garbage);
    } else {
      OtherOwned(s, step);
    }
  }

  lemma RestKept(l: seq<Addr>, a: Addr, first: Addr)
    requires a in l && a != first
    ensures l[0] == first ==> a in l[1..]
  {
  }

  /** In every run that starts with no node allocated, the nodes allocated are those in the queues: a processed node
      is freed, and a dropped value leaves none behind. */
  lemma {:induction false} NoLeak(ss: seq<State>, steps: seq<Step>, i: nat)
    requires RunOf(ss, steps) && ss[0].mem == map[] && i < |ss|
    ensures Total(ss[i]) && Owned(ss[i]) && forall q, a :: a in ss[i].queues[q].nodes ==> a in ss[i].mem
  {
    hide Each, Disjoint, Guard, Safe, Apply;
    RunInv(ss, steps, i);
    NodesIn(ss[i]);
    if i > 0 {
      RunInv(ss, steps, i - 1);
      NoLeak(ss, steps, i - 1);
      StepOwned(ss[i - 1], steps[i - 1]);
    }
  }

  /** In every run, values in a queue do not wait for a consumer that sleeps with no signal on its way. */
  lemma NoSleepOnWork(ss: seq<State>, steps: seq<Step>, i: nat, q: Q)
    requires RunOf(ss, steps) && i < |ss| && Total(ss[i]) && ss[i].consumers[q].Waiting? && ss[i].queues[q].number > 0
    ensures exists t :: Announced(ss[i], t, q)
  {
    RunInv(ss, steps, i);
    assert Each(ss[i], q);
  }

  // ---------- Locks ----------

  /** Thread `t` waits for the lock of `q`, which `u` holds. */
  ghost predicate WaitsFor(s: State, t: Thread, q: Q, u: Thread)
    requires Total(s)
  {
    && s.queues[q].owner == Some(u) && u != t
    && ((t in s.calls && s.calls[t].Want? && s.calls[t].q == q)
        || (t == Consumer(q) && (s.consumers[q].Start? || s.consumers[q].Woken?)))
  }

  lemma {:induction false} InsideRank(c: Call, low: int, p: Q)
    requires Climbs(c, low) && Insides(c, p) > 0
    ensures Rank(p) <= Rank(c.q)
  {
    if Insides(c.under, p) > 0 {
      InsideRank(c.under, low, p);
    }
  }

  /** The holder of a lock waits for later locks only. */
  lemma LockOrder(s: State, t: Thread, p: Q, u: Thread, q: Q, w: Thread)
    requires Inv(s) && WaitsFor(s, t, p, u) && WaitsFor(s, u, q, w)
    ensures Rank(p) < Rank(q)
  {
    hide QueueOk, WakeOk, Climbs, Disjoint;
    assert Each(s, p) && Each(s, q);
    assert s.queues[p].owner == Some(u) ==> s.queues[p].depth == Held(s, u, p) > 0;
    if u in s.calls {
      assert StackOk(s, u);
      var low := if u.Consumer? then Rank(u.q) else 0;
      if Insides(s.calls[u], p) > 0 {
        InsideRank(s.calls[u], low, p);
      }
      FirstRank(s.calls[u], low);
    }
  }

  /** A thread that is no consumer can hold the lock of the send queue and want that of the broadcast queue. */
  lemma NestedCall(s: State, t: Thread, v: Value, w: Value)
    requires Initial(s) && t.Producer? && t in s.calls
    ensures exists ss: seq<State> ::
              && RunOf(ss, [CallEnqueue(t, Send, v), Acquire(t), CallEnqueue(t, Bcast, w)]) && ss[0] == s
              && Total(ss[3]) && ss[3].queues[Send].owner == Some(t)
              && t in ss[3].calls && ss[3].calls[t] == Want(Bcast, w, Inside(Send, v, NoCall))
  {
    var s1 := Apply(s, CallEnqueue(t, Send, v));
    var s2 := Apply(s1, Acquire(t));
    var s3 := Apply(s2, CallEnqueue(t, Bcast, w));
    assert RunOf([s, s1, s2, s3], [CallEnqueue(t, Send, v), Acquire(t), CallEnqueue(t, Bcast, w)]);
  }

  lemma FirstRank(c: Call, low: int)
    requires Climbs(c, low)
    ensures !c.NoCall? ==> low <= Rank(c.q)
  {
  }

  /** Threads that wait for one another in a circle. */
  ghost predicate Circle(s: State, ts: seq<Thread>, qs: seq<Q>)
    requires Total(s)
  {
    && |ts| == |qs| > 0
    && forall i :: 0 <= i < |ts| ==> WaitsFor(s, ts[i], qs[i], ts[if i + 1 < |ts| then i + 1 else 0])
  }

  lemma {:induction false} RanksClimb(s: State, ts: seq<Thread>, qs: seq<Q>, i: nat)
    requires Inv(s) && Circle(s, ts, qs) && i < |ts|
    ensures Rank(qs[0]) + i <= Rank(qs[i])
  {
    hide Inv, WaitsFor;
    if i > 0 {
      RanksClimb(s, ts, qs, i - 1);
      var j := if i + 1 < |ts| then i + 1 else 0;
      LockOrder(s, ts[i - 1], qs[i - 1], ts[i], qs[i], ts[j]);
    }
  }

  /** In every run, no threads wait for one another in a circle. */
  lemma NoDeadlock(ss: seq<State>, steps: seq<Step>, i: nat, ts: seq<Thread>, qs: seq<Q>)
    requires RunOf(ss, steps) && i < |ss|
    ensures Total(ss[i]) && !Circle(ss[i], ts, qs)
  {
    RunInv(ss, steps, i);
    hide Each, Disjoint, WaitsFor;
    if Circle(ss[i], ts, qs) {
      var n := |ts| - 1;
      RanksClimb(ss[i], ts, qs, n);
      LockOrder(ss[i], ts[n], qs[n], ts[0], qs[0], ts[if 1 < |ts| then 1 else 0]);
      assert false;
    }
  }

  // ---------- Calls against the order ----------

  ghost predicate Follows(s: State, step: Step, t: State) {
    Total(s) && Guard(s, step) && Safe(s, step) && t == Apply(s, step)
  }

  /** The state after a thread has called and taken the lock. */
  ghost function Entered(s: State, t: Thread, q: Q, v: Value): State
    requires q in s.queues
  {
    s.(queues := s.queues[q := Locked(s.queues[q], t)], calls := s.calls[t := Inside(q, v, NoCall)])
  }

  ghost function Called(s: State, t: Thread, q: Q, v: Value): State
    requires t in s.calls
  {
    s.(calls := s.calls[t := Want(q, v, s.calls[t])])
  }

  lemma EnterFree(s: State, t: Thread, q: Q, v: Value)
    requires Total(s) && t.Producer? && t in s.calls && s.calls[t] == NoCall && s.queues[q].owner == None
    ensures Follows(s, CallEnqueue(t, q, v), Called(s, t, q, v))
    ensures Follows(Called(s, t, q, v), Acquire(t), Entered(s, t, q, v))
    ensures Total(Entered(s, t, q, v))
  {
    assert Called(s, t, q, v).calls[t := Inside(q, v, NoCall)] == s.calls[t := Inside(q, v, NoCall)];
  }

  lemma FiveSteps(ss: seq<State>, steps: seq<Step>)
    requires |ss| == 6 && |steps| == 5 && Initial(ss[0])
    requires Follows(ss[0], steps[0], ss[1]) && Follows(ss[1], steps[1], ss[2]) && Follows(ss[2], steps[2], ss[3])
    requires Follows(ss[3], steps[3], ss[4]) && Follows(ss[4], steps[4], ss[5])
    ensures RunOf(ss, steps)
  {
    hide Guard, Safe, Apply, Total;
    forall i | 0 <= i < 5 ensures Follows(ss[i], steps[i], ss[i + 1]) {
    }
  }

  /** The order of the calls is needed: for any two queues, one call from inside the later one to the earlier one can
      close a circle. */
  lemma CallAgainstOrder(s: State, t: Thread, u: Thread, q: Q, p: Q, v: Value)
    returns (ss: seq<State>, steps: seq<Step>)
    requires Initial(s) && t.Producer? && u.Producer? && t != u && t in s.calls && u in s.calls && Rank(q) < Rank(p)
    ensures RunOf(ss, steps) && |ss| == 6 && ss[0] == s && u in ss[5].calls && ss[5].calls[u] == Inside(p, v, NoCall)
    ensures Total(Called(ss[5], u, q, v)) && Circle(Called(ss[5], u, q, v), [t, u], [p, q])
  {
    hide Guard, Safe, Apply, Follows, RunOf, Circle, Total, Initial;
    InitialCalls(s, t, q);
    InitialCalls(s, u, p);
    EnterFree(s, t, q, v);
    var s2 := Entered(s, t, q, v);
    EnteredFacts(s, t, q, v, p);
    assert s2.calls[u] == NoCall;
    EnterFree(s2, u, p, v);
    var s4 := Entered(s2, u, p, v);
    EnteredFacts(s2, u, p, v, q);
    CallInside(s4, t, p, v);
    var s5 := Called(s4, t, p, v);
    ss := [s, Called(s, t, q, v), s2, Called(s2, u, p, v), s4, s5];
    steps := [CallEnqueue(t, q, v), Acquire(t), CallEnqueue(u, p, v), Acquire(u), CallEnqueue(t, p, v)];
    FiveSteps(ss, steps);
    CalledTotal(s4, t, p, v);
    CalledTotal(s5, u, q, v);
    CircleOfTwo(Called(s5, u, q, v), t, u, p, q);
  }

  lemma CalledTotal(s: State, t: Thread, q: Q, v: Value)
    requires Total(s) && t in s.calls
    ensures Total(Called(s, t, q, v))
  {
  }

  lemma EnteredFacts(s: State, t: Thread, q: Q, v: Value, p: Q)
    requires Total(s) && p != q
    ensures var e := Entered(s, t, q, v);
            Total(e) && e.queues[q].owner == Some(t) && e.queues[p] == s.queues[p]
  {
  }

  lemma InitialCalls(s: State, t: Thread, q: Q)
    requires Initial(s) && t in s.calls
    ensures Total(s) && s.calls[t] == NoCall && s.queues[q].owner == None
  {
  }

  lemma CircleOfTwo(s: State, t: Thread, u: Thread, p: Q, q: Q)
    requires Total(s) && t != u && s.queues[p].owner == Some(u) && s.queues[q].owner == Some(t)
    requires t in s.calls && s.calls[t].Want? && s.calls[t].q == p && u in s.calls && s.calls[u].Want?
             && s.calls[u].q == q
    ensures Circle(s, [t, u], [p, q])
  {
    assert WaitsFor(s, t, p, u) && WaitsFor(s, u, q, t);
  }

  lemma CallInside(s: State, t: Thread, q: Q, v: Value)
    requires Total(s) && t in s.calls && s.calls[t].Inside? && Rank(s.calls[t].q) <= Rank(q)
    ensures Follows(s, CallEnqueue(t, q, v), Called(s, t, q, v))
  {
  }
}
