/** What every step of the daemon's queues does, in terms of the values that wait in each of them. */
module DaemonSteps {
  import opened Basics
  import opened Daemon

  /** A queue without its nodes and pointers: the values that wait in it, its lock, and its history. */
  datatype Box = Box(
    waiting: seq<Value>, owner: Option<Thread>, depth: nat, accepted: seq<Value>, processed: seq<Value>, dropped: nat)

  ghost function BoxOf(s: State, q: Q): Box
    requires q in s.queues
  {
    var x := s.queues[q];
    Box(if forall a :: a in x.nodes ==> a in s.mem then Values(s.mem, x.nodes) else [],
        x.owner, x.depth, x.accepted, x.processed, x.dropped)
  }

  function Taken(b: Box, t: Thread): Box {
    b.(owner := Some(t), depth := b.depth + 1)
  }

  function GivenBack(b: Box): Box {
    if b.depth <= 1 then b.(owner := None, depth := 0) else b.(depth := b.depth - 1)
  }

  /** Only the queue `q` changes, and becomes `b`. */
  ghost predicate Becomes(s: State, t: State, q: Q, b: Box)
    requires Total(s) && Total(t)
  {
    BoxOf(t, q) == b && forall p :: p != q ==> BoxOf(t, p) == BoxOf(s, p)
  }

  ghost predicate Stay(s: State, t: State)
    requires Total(s) && Total(t)
  {
    forall p :: BoxOf(t, p) == BoxOf(s, p)
  }

  /** The call that a thread is in ends with `c`. */
  ghost predicate CallBecomes(s: State, t: State, k: Thread, c: Call) {
    t.calls == s.calls[k := c]
  }

  /** A node is allocated for an accepted value and freed when it is processed. */
  ghost predicate MemoryDoes(s: State, step: Step, t: State)
    requires Total(s)
  {
    match step
    case Insert(k, a, _) =>
      && k in s.calls && s.calls[k].Inside?
      && t.mem.Keys == if |BoxOf(s, s.calls[k].q).waiting| < 1025 then s.mem.Keys + {a} else s.mem.Keys
    case Done(q) => exists a :: a in s.queues[q].nodes && t.mem.Keys == s.mem.Keys - {a}
    case _ => t.mem.Keys == s.mem.Keys
  }

  ghost predicate Does(s: State, step: Step, t: State) {
    && Total(s) && Total(t) && MemoryDoes(s, step, t)
    && match step
       case CallEnqueue(k, q, v) =>
         k in s.calls && CallBecomes(s, t, k, Want(q, v, s.calls[k])) && Stay(s, t) && t.consumers == s.consumers
       case Acquire(k) =>
         && k in s.calls && s.calls[k].Want?
         && var c := s.calls[k];
            && CallBecomes(s, t, k, Inside(c.q, c.v, c.under)) && t.consumers == s.consumers
            && Becomes(s, t, c.q, Taken(BoxOf(s, c.q), k))
       case Insert(k, _, _) =>
         && k in s.calls && s.calls[k].Inside? && t.consumers == s.consumers
         && var c := s.calls[k];
            var b := BoxOf(s, c.q);
            if |b.waiting| < 1025 then
              && CallBecomes(s, t, k, Signalling(c.q, c.under))
              && Becomes(s, t, c.q, GivenBack(b).(waiting := b.waiting + [c.v], accepted := b.accepted + [c.v]))
            else
              && CallBecomes(s, t, k, if c.q == Send then c.under else Signalling(c.q, c.under))
              && Becomes(s, t, c.q, GivenBack(b).(dropped := b.dropped + 1))
       case Release(k) =>
         && k in s.calls && s.calls[k].Inside? && CallBecomes(s, t, k, s.calls[k].under) && t.consumers == s.consumers
         && Becomes(s, t, Send, GivenBack(BoxOf(s, Send)))
       case Signal(k) =>
         && k in s.calls && s.calls[k].Signalling? && CallBecomes(s, t, k, s.calls[k].under) && Stay(s, t)
         && var q := s.calls[k].q;
            t.consumers == if s.consumers[q] == Waiting then s.consumers[q := Woken] else s.consumers
       case Enter(q) =>
         && t.calls == s.calls && t.consumers == s.consumers[q := AtHead]
         && Becomes(s, t, q, Taken(BoxOf(s, q), Consumer(q)))
       case Take(q) =>
         && t.calls == s.calls && t.consumers == s.consumers[q := Busy] && BoxOf(s, q).waiting != []
         && Becomes(s, t, q, Taken(BoxOf(s, q), Consumer(q)))
       case Wait(q) =>
         && t.calls == s.calls && t.consumers == s.consumers[q := Waiting] && BoxOf(s, q).waiting == []
         && Becomes(s, t, q, GivenBack(BoxOf(s, q)))
       case Spurious(q) => t.calls == s.calls && t.consumers == s.consumers[q := Woken] && Stay(s, t)
       case Done(q) =>
         && t.calls == s.calls && t.consumers == s.consumers[q := AtHead]
         && var b := BoxOf(s, q);
            && b.waiting != []
            && Becomes(s, t, q, GivenBack(b).(waiting := b.waiting[1..], processed := b.processed + [b.waiting[0]]))
  }

  /** The values in the nodes are those that were accepted and not yet processed. */
  lemma WaitingIs(s: State, q: Q)
    requires Inv(s)
    ensures var x, b := s.queues[q], BoxOf(s, q);
            && x.processed <= x.accepted && b.waiting == x.accepted[|x.processed|..]
            && x.number == |b.waiting| && x.accepted == x.processed + b.waiting
  {
    assert Each(s, q);
    var x := s.queues[q];
    assert x.accepted[|x.processed|..] == Values(s.mem, x.nodes);
  }

  /** A queue whose history and lock are the same is the same. */
  lemma BoxSame(s: State, t: State, p: Q)
    requires Inv(s) && Inv(t)
    requires var x, y := s.queues[p], t.queues[p];
             && y.owner == x.owner && y.depth == x.depth && y.accepted == x.accepted && y.processed == x.processed
             && y.dropped == x.dropped
    ensures BoxOf(t, p) == BoxOf(s, p)
  {
    WaitingIs(s, p);
    WaitingIs(t, p);
  }

  lemma Others(s: State, t: State, q: Q)
    requires Inv(s) && Inv(t) && forall p :: p != q ==> t.queues[p] == s.queues[p]
    ensures forall p :: p != q ==> BoxOf(t, p) == BoxOf(s, p)
  {
    forall p | p != q ensures BoxOf(t, p) == BoxOf(s, p) {
      BoxSame(s, t, p);
    }
  }

  lemma InsertDoes(s: State, k: Thread, a: Addr, garbage: Addr)
    requires Inv(s) && Guard(s, Insert(k, a, garbage)) && Safe(s, Insert(k, a, garbage))
    requires Inv(Apply(s, Insert(k, a, garbage)))
    ensures Does(s, Insert(k, a, garbage), Apply(s, Insert(k, a, garbage)))
  {
    hide Each, Disjoint, StacksOk, BoxOf;
    var t, q := Apply(s, Insert(k, a, garbage)), s.calls[k].q;
    Bare(s, q);
    Bare(t, q);
    WaitingIs(s, q);
    WaitingIs(t, q);
    Others(s, t, q);
  }

  /** The parts of a box that are fields. */
  lemma Bare(s: State, q: Q)
    requires q in s.queues
    ensures var x, b := s.queues[q], BoxOf(s, q);
            && b.owner == x.owner && b.depth == x.depth && b.accepted == x.accepted && b.processed == x.processed
            && b.dropped == x.dropped
  {
  }

  lemma DoneDoes(s: State, q: Q)
    requires Inv(s) && Guard(s, Done(q)) && Safe(s, Done(q)) && Inv(Apply(s, Done(q)))
    ensures Does(s, Done(q), Apply(s, Done(q)))
  {
    hide Each, Disjoint, StacksOk, BoxOf, Becomes;
    FirstValue(s, q);
    var t, b := Apply(s, Done(q)), BoxOf(s, q);
    DoneBox(s, t, q);
    Bare(s, q);
    Others(s, t, q);
    assert t.mem.Keys == s.mem.Keys - {s.queues[q].first};
    assert Becomes(s, t, q, GivenBack(b).(waiting := b.waiting[1..], processed := b.processed + [b.waiting[0]])) by {
      BecomesOne(s, t, q);
    }
  }

  lemma BecomesOne(s: State, t: State, q: Q)
    requires Total(s) && Total(t) && forall p :: p != q ==> BoxOf(t, p) == BoxOf(s, p)
    ensures Becomes(s, t, q, BoxOf(t, q))
  {
  }

  lemma DoneBox(s: State, t: State, q: Q)
    requires Inv(s) && Guard(s, Done(q)) && Safe(s, Done(q)) && t == Apply(s, Done(q)) && Inv(t)
    requires BoxOf(s, q).waiting != [] && s.mem[s.queues[q].first].value == BoxOf(s, q).waiting[0]
    ensures var b := BoxOf(s, q);
            BoxOf(t, q) == GivenBack(b).(waiting := b.waiting[1..], processed := b.processed + [b.waiting[0]])
  {
    hide Each, Disjoint, StacksOk, BoxOf;
    Bare(s, q);
    Bare(t, q);
    WaitingIs(s, q);
    WaitingIs(t, q);
    var x := s.queues[q];
    assert (x.processed + BoxOf(s, q).waiting)[|x.processed| + 1..] == BoxOf(s, q).waiting[1..];
  }

  lemma FirstValue(s: State, q: Q)
    requires Inv(s) && s.consumers[q].Busy?
    ensures BoxOf(s, q).waiting != [] && s.queues[q].first in s.mem && s.queues[q].first in s.queues[q].nodes
    ensures s.mem[s.queues[q].first].value == BoxOf(s, q).waiting[0]
  {
    assert Each(s, q);
    var x := s.queues[q];
    assert x.nodes[0] in x.nodes;
  }

  /** A step that only takes or gives back the lock of `q`. */
  lemma LockOnly(s: State, t: State, q: Q)
    requires Inv(s) && Inv(t) && t.queues == s.queues[q := t.queues[q]]
    requires t.queues[q] == s.queues[q].(owner := t.queues[q].owner, depth := t.queues[q].depth)
    ensures Becomes(s, t, q, BoxOf(s, q).(owner := t.queues[q].owner, depth := t.queues[q].depth))
  {
    hide Each, Disjoint, StacksOk, BoxOf;
    Bare(s, q);
    Bare(t, q);
    WaitingIs(s, q);
    WaitingIs(t, q);
    Others(s, t, q);
  }

  lemma LockDoes(s: State, step: Step)
    requires Inv(s) && Guard(s, step) && Safe(s, step) && Inv(Apply(s, step))
    requires step.Acquire? || step.Release? || step.Enter? || step.Take? || step.Wait?
    ensures Does(s, step, Apply(s, step))
  {
    hide Each, Disjoint, StacksOk, BoxOf, Becomes;
    var t := Apply(s, step);
    var q := if step.Acquire? then s.calls[step.t].q else if step.Release? then Send else step.q;
    Bare(s, q);
    WaitingIs(s, q);
    LockOnly(s, t, q);
  }

  lemma QuietDoes(s: State, step: Step)
    requires Inv(s) && Guard(s, step) && Safe(s, step) && Inv(Apply(s, step))
    requires step.CallEnqueue? || step.Signal? || step.Spurious?
    ensures Does(s, step, Apply(s, step))
  {
    hide Each, Disjoint, StacksOk, BoxOf;
    var t := Apply(s, step);
    forall p ensures BoxOf(t, p) == BoxOf(s, p) {
      BoxSame(s, t, p);
    }
  }

  lemma StepDoes(s: State, step: Step)
    requires Inv(s) && Guard(s, step)
    ensures Safe(s, step) && Does(s, step, Apply(s, step)) && Inv(Apply(s, step))
  {
    hide Each, Disjoint, StacksOk, Guard, Safe, Apply, Does;
    StepKeeps(s, step);
    match step
    case Insert(k, a, garbage) => InsertDoes(s, k, a, garbage);
    case Done(q) => DoneDoes(s, q);
    case CallEnqueue(_, _, _) => QuietDoes(s, step);
    case Signal(_) => QuietDoes(s, step);
    case Spurious(_) => QuietDoes(s, step);
    case _ => LockDoes(s, step);
  }

  /** In every run, each step does what it means. */
  lemma RunDoes(ss: seq<State>, steps: seq<Step>, i: nat)
    requires RunOf(ss, steps) && i < |steps|
    ensures Does(ss[i], steps[i], ss[i + 1])
  {
    hide Each, Disjoint, StacksOk, Guard, Safe, Apply, Does;
    RunInv(ss, steps, i);
    StepDoes(ss[i], steps[i]);
  }

  // ---------- A value from its producer to its consumer ----------

  /** One queue, its consumer and one thread. */
  datatype Snap = Snap(box: Box, consumer: ConsumerPc, call: Call)

  ghost predicate Shows(s: State, q: Q, t: Thread, n: Snap) {
    && Total(s) && BoxOf(s, q) == n.box && s.consumers[q] == n.consumer && t in s.calls && s.calls[t] == n.call
    && Consumer(q) in s.calls && s.calls[Consumer(q)] == NoCall
  }

  ghost function Empty(): Box {
    Box([], None, 0, [], [], 0)
  }

  lemma Extend(ss: seq<State>, steps: seq<Step>, step: Step) returns (u: State)
    requires RunOf(ss, steps) && Total(ss[|steps|]) && Guard(ss[|steps|], step)
    ensures RunOf(ss + [u], steps + [step]) && Does(ss[|steps|], step, u) && Inv(u)
  {
    hide Each, Disjoint, StacksOk, Guard, Safe, Apply, Does, Initial;
    RunInv(ss, steps, |steps|);
    StepDoes(ss[|steps|], step);
    u := Apply(ss[|steps|], step);
    var ss', steps' := ss + [u], steps + [step];
    forall i | 0 <= i < |steps'|
      ensures Total(ss'[i]) && Guard(ss'[i], steps'[i])
      ensures Safe(ss'[i], steps'[i]) ==> ss'[i + 1] == Apply(ss'[i], steps'[i])
    {
      assert i < |steps| ==> steps'[i] == steps[i] && ss'[i] == ss[i] && ss'[i + 1] == ss[i + 1];
    }
  }

  lemma CallShows(s: State, u: State, q: Q, t: Thread, v: Value)
    requires t.Producer? && Shows(s, q, t, Snap(Empty(), Start, NoCall)) && Does(s, CallEnqueue(t, q, v), u)
    ensures Shows(u, q, t, Snap(Empty(), Start, Want(q, v, NoCall)))
  {
    hide BoxOf;
  }

  lemma AcquireShows(s: State, u: State, q: Q, t: Thread, v: Value)
    requires t.Producer? && Shows(s, q, t, Snap(Empty(), Start, Want(q, v, NoCall))) && Does(s, Acquire(t), u)
    ensures Shows(u, q, t, Snap(Empty().(owner := Some(t), depth := 1), Start, Inside(q, v, NoCall)))
  {
    hide BoxOf;
  }

  lemma InsertShows(s: State, u: State, q: Q, t: Thread, v: Value, a: Addr, garbage: Addr)
    requires t.Producer? && Shows(s, q, t, Snap(Empty().(owner := Some(t), depth := 1), Start, Inside(q, v, NoCall)))
    requires Does(s, Insert(t, a, garbage), u)
    ensures Shows(u, q, t, Snap(Empty().(waiting := [v], accepted := [v]), Start, Signalling(q, NoCall)))
  {
    hide BoxOf;
  }

  lemma EnterShows(s: State, u: State, q: Q, t: Thread, b: Box, c: Call)
    requires Shows(s, q, t, Snap(b, Start, c)) && Does(s, Enter(q), u) && b.depth == 0
    ensures Shows(u, q, t, Snap(b.(owner := Some(Consumer(q)), depth := 1), AtHead, c))
  {
    hide BoxOf;
  }

  lemma TakeShows(s: State, u: State, q: Q, t: Thread, b: Box, c: Call)
    requires Shows(s, q, t, Snap(b, AtHead, c)) && Does(s, Take(q), u)
    ensures Shows(u, q, t, Snap(b.(owner := Some(Consumer(q)), depth := b.depth + 1), Busy, c))
  {
    hide BoxOf;
  }

  lemma DoneShows(s: State, u: State, q: Q, t: Thread, b: Box, c: Call)
    requires Shows(s, q, t, Snap(b, Busy, c)) && Does(s, Done(q), u) && b.depth == 2
    ensures b.waiting != []
    ensures Shows(u, q, t, Snap(b.(depth := 1, waiting := b.waiting[1..], processed := b.processed + [b.waiting[0]]),
                                AtHead, c))
  {
    hide BoxOf;
  }

  /** What may come next. */
  lemma ShowsGuard(s: State, q: Q, t: Thread, n: Snap)
    requires Shows(s, q, t, n) && Inv(s)
    ensures n.call.Want? && n.call.q == q && n.box.owner == None ==> Guard(s, Acquire(t))
    ensures n.call.Inside? ==> forall a, garbage :: a !in s.mem ==> Guard(s, Insert(t, a, garbage))
    ensures n.consumer.Start? && n.box.owner == None ==> Guard(s, Enter(q))
    ensures n.consumer.AtHead? && n.box.waiting != [] ==> Guard(s, Take(q))
    ensures n.consumer.Busy? ==> Guard(s, Done(q))
  {
    WaitingIs(s, q);
  }

  lemma FirstShows(s: State, q: Q, t: Thread, v: Value)
    requires Initial(s) && t.Producer? && t in s.calls
    ensures RunOf([s], []) && Inv(s) && Guard(s, CallEnqueue(t, q, v)) && Shows(s, q, t, Snap(Empty(), Start, NoCall))
  {
    InitialInv(s);
  }

  /** From every initial state, for every queue and value: a producer enqueues the value, and the consumer processes
      it. */
  lemma ProcessedRun(s: State, q: Q, t: Thread, v: Value, a: Addr, garbage: Addr)
    returns (ss: seq<State>, steps: seq<Step>)
    requires Initial(s) && t.Producer? && t in s.calls && s.mem == map[]
    ensures RunOf(ss, steps) && ss[0] == s && |ss| == 7
    ensures steps == [CallEnqueue(t, q, v), Acquire(t), Insert(t, a, garbage), Enter(q), Take(q), Done(q)]
    ensures Total(ss[6]) && BoxOf(ss[6], q) == Box([], Some(Consumer(q)), 1, [v], [v], 0)
  {
    hide RunOf, Guard, Does, Shows, BoxOf, Initial, Each, Disjoint, StacksOk;
    FirstShows(s, q, t, v);
    var s1 := Extend([s], [], CallEnqueue(t, q, v));
    ss, steps := [s] + [s1], [] + [CallEnqueue(t, q, v)];
    CallShows(s, s1, q, t, v);
    ShowsGuard(s1, q, t, Snap(Empty(), Start, Want(q, v, NoCall)));
    var s2 := Extend(ss, steps, Acquire(t));
    ss, steps := ss + [s2], steps + [Acquire(t)];
    AcquireShows(s1, s2, q, t, v);
    ShowsGuard(s2, q, t, Snap(Empty().(owner := Some(t), depth := 1), Start, Inside(q, v, NoCall)));
    NothingAllocated(s, s1, s2, q, t, v);
    var s3 := Extend(ss, steps, Insert(t, a, garbage));
    ss, steps := ss + [s3], steps + [Insert(t, a, garbage)];
    InsertShows(s2, s3, q, t, v, a, garbage);
    ss, steps := ConsumedRun(ss, steps, q, t, v);
  }

  /** A queue with one value whose consumer has not started. */
  lemma ConsumedRun(ss: seq<State>, steps: seq<Step>, q: Q, t: Thread, v: Value)
    returns (ss': seq<State>, steps': seq<Step>)
    requires RunOf(ss, steps) && |ss| == |steps| + 1 && Inv(ss[|steps|])
    requires Shows(ss[|steps|], q, t, Snap(Empty().(waiting := [v], accepted := [v]), Start, Signalling(q, NoCall)))
    ensures RunOf(ss', steps') && |ss'| == |ss| + 3 && ss <= ss' && steps' == steps + [Enter(q), Take(q), Done(q)]
    ensures Total(ss'[|steps'|]) && BoxOf(ss'[|steps'|], q) == Box([], Some(Consumer(q)), 1, [v], [v], 0)
  {
    hide RunOf, Guard, Does, Shows, BoxOf, Each, Disjoint, StacksOk;
    var s3 := ss[|steps|];
    var b := Empty().(waiting := [v], accepted := [v]);
    ShowsGuard(s3, q, t, Snap(b, Start, Signalling(q, NoCall)));
    var s4 := Extend(ss, steps, Enter(q));
    ss', steps' := ss + [s4], steps + [Enter(q)];
    EnterShows(s3, s4, q, t, b, Signalling(q, NoCall));
    var b1 := b.(owner := Some(Consumer(q)), depth := 1);
    ShowsGuard(s4, q, t, Snap(b1, AtHead, Signalling(q, NoCall)));
    var s5 := Extend(ss', steps', Take(q));
    ss', steps' := ss' + [s5], steps' + [Take(q)];
    TakeShows(s4, s5, q, t, b1, Signalling(q, NoCall));
    ShowsGuard(s5, q, t, Snap(b1.(depth := 2), Busy, Signalling(q, NoCall)));
    var s6 := Extend(ss', steps', Done(q));
    ss', steps' := ss' + [s6], steps' + [Done(q)];
    DoneShows(s5, s6, q, t, b1.(depth := 2), Signalling(q, NoCall));
    assert [v][1..] == [] && [] + [v] == [v];
    LastShows(s6, q, t, b.(owner := Some(Consumer(q)), depth := 1, waiting := [], processed := [v]), AtHead,
              Signalling(q, NoCall));
  }

  lemma NothingAllocated(s: State, s1: State, s2: State, q: Q, t: Thread, v: Value)
    requires s.mem == map[] && Does(s, CallEnqueue(t, q, v), s1) && Does(s1, Acquire(t), s2)
    ensures s2.mem == map[]
  {
    hide Becomes, Stay, BoxOf;
  }

  lemma LastShows(s: State, q: Q, t: Thread, b: Box, pc: ConsumerPc, c: Call)
    requires Shows(s, q, t, Snap(b, pc, c))
    ensures Total(s) && BoxOf(s, q) == b
  {
  }
}
