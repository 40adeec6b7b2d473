/** Sleeping, waking and leaving of the workers in libs/libuv/threadpool.c. */
module PoolWakeups {
  import opened Rings
  import opened ThreadPool

  type Workers = map<Worker, WorkerPc>

  /** The workers inside uv_cond_wait. */
  ghost function Asleep(ws: Workers): set<Worker> {
    set w | w in ws && (ws[w] == Waiting || ws[w] == Woken)
  }

  ghost predicate Waits(ws: Workers, w: Worker) {
    w in ws && ws[w] == Waiting
  }

  /** A worker that will take the mutex again without being signalled. */
  ghost predicate Active(ws: Workers, w: Worker) {
    w in ws && ws[w] != Waiting && ws[w] != Exited
  }

  /** If a worker waits for a signal, then another one is on its way to the queue. */
  ghost predicate NoStall(ws: Workers) {
    (exists w :: Waits(ws, w)) ==> exists w :: Active(ws, w)
  }

  /** The queue in front of the exit message holds requests posted before it, the rest later ones. */
  ghost predicate ExitOrder(s: seq<Node>, reqs: map<Req, Request>, exiting: bool) {
    && (forall i, j :: 0 <= i < j < |s| && s[j] == Exit ==> s[i].Item? && s[i].r in reqs && !reqs[s[i].r].late)
    && (forall i, j :: 0 <= i < j < |s| && s[i] == Exit ==> s[j].Item? && s[j].r in reqs && reqs[s[j].r].late)
    && (!exiting ==> forall i :: 0 <= i < |s| ==> s[i].Item? && s[i].r in reqs && !reqs[s[i].r].late)
  }

  ghost predicate ExitFirst(s: seq<Node>) {
    s != [] && s[0] == Exit
  }

  ghost predicate Awake(s: State) {
    && Wq in s.rings
    && s.idle == |Asleep(s.workers)|
    && (s.rings[Wq] != [] ==> NoStall(s.workers))
    && ((exists w :: w in s.workers && s.workers[w] == Exited) ==> ExitFirst(s.rings[Wq]))
    && ExitOrder(s.rings[Wq], s.reqs, s.exiting)
  }

  // ---------- Workers ----------

  lemma AsleepUpdate(ws: Workers, w: Worker, pc: WorkerPc)
    requires w in ws
    ensures Asleep(ws[w := pc]) == if pc == Waiting || pc == Woken then Asleep(ws) + {w} else Asleep(ws) - {w}
  {
  }

  lemma AsleepSize(ws: Workers, w: Worker, pc: WorkerPc)
    requires w in ws
    ensures var d := (if pc == Waiting || pc == Woken then 1 else 0) - (if w in Asleep(ws) then 1 else 0);
            |Asleep(ws[w := pc])| == |Asleep(ws)| + d
  {
    AsleepUpdate(ws, w, pc);
  }

  lemma SignalSize(ws: Workers, wake: Wake)
    requires wake.Wake? ==> Waits(ws, wake.w)
    ensures Asleep(Signalled(ws, wake)) == Asleep(ws)
  {
  }

  /** A signal leaves nobody waiting alone. */
  lemma SignalWakes(ws: Workers, wake: Wake)
    requires SignalOk(ws, wake)
    ensures NoStall(Signalled(ws, wake))
    ensures forall w :: w in ws && ws[w] != Waiting ==> w in Signalled(ws, wake) && Signalled(ws, wake)[w] == ws[w]
  {
    if wake.Wake? {
      assert Active(Signalled(ws, wake), wake.w);
    }
  }

  lemma PostWakes(s: State, wake: Wake)
    requires s.idle == |Asleep(s.workers)| && PostOk(s, wake)
    ensures NoStall(Signalled(s.workers, wake)) && Asleep(Signalled(s.workers, wake)) == Asleep(s.workers)
    ensures forall w :: w in Signalled(s.workers, wake) && Signalled(s.workers, wake)[w] == Exited ==>
              w in s.workers && s.workers[w] == Exited
  {
    SignalSize(s.workers, wake);
    if s.idle > 0 {
      SignalWakes(s.workers, wake);
    } else {
      assert Asleep(s.workers) == {};
      assert forall w :: Waits(s.workers, w) ==> w in Asleep(s.workers);
    }
  }

  lemma ActiveStays(ws: Workers, w: Worker, pc: WorkerPc)
    requires w in ws && pc != Waiting && pc != Exited
    ensures NoStall(ws[w := pc])
  {
    assert Active(ws[w := pc], w);
  }

  // ---------- The queue ----------

  lemma ExitOrderPut(s: seq<Node>, reqs: map<Req, Request>, exiting: bool, r: Req, q: Request)
    requires ExitOrder(s, reqs, exiting) && Item(r) !in s && q.late == exiting
    ensures ExitOrder(s + [Item(r)], reqs[r := q], exiting)
  {
  }

  lemma ExitOrderExit(s: seq<Node>, reqs: map<Req, Request>)
    requires ExitOrder(s, reqs, false)
    ensures ExitOrder(s + [Exit], reqs, true)
  {
  }

  ghost function Over(k: int, i: int): int {
    if i < k then i else i + 1
  }

  lemma ExitOrderCut(s: seq<Node>, reqs: map<Req, Request>, exiting: bool, k: int, t: seq<Node>)
    requires ExitOrder(s, reqs, exiting) && 0 <= k < |s| && |t| == |s| - 1
    requires forall i :: 0 <= i < |t| ==> t[i] == s[Over(k, i)]
    ensures ExitOrder(t, reqs, exiting)
  {
    forall i, j | 0 <= i < j < |t| && t[j] == Exit ensures t[i].Item? && t[i].r in reqs && !reqs[t[i].r].late {
      assert t[i] == s[Over(k, i)] && t[j] == s[Over(k, j)];
    }
    forall i, j | 0 <= i < j < |t| && t[i] == Exit ensures t[j].Item? && t[j].r in reqs && reqs[t[j].r].late {
      assert t[i] == s[Over(k, i)] && t[j] == s[Over(k, j)];
    }
  }

  lemma ExitOrderDel(s: seq<Node>, reqs: map<Req, Request>, exiting: bool, q: Node)
    requires ExitOrder(s, reqs, exiting) && Distinct(s) && q != Exit
    ensures ExitOrder(Del(s, q), reqs, exiting)
    ensures ExitFirst(s) ==> ExitFirst(Del(s, q))
  {
    hide Del, ExitOrder, Distinct;
    if q in s {
      var k :| 0 <= k < |s| && s[k] == q;
      DelAt(s, k);
      var t := s[..k] + s[k + 1..];
      ExitOrderCut(s, reqs, exiting, k, t);
    } else {
      DelNone(s, q);
    }
  }

  /** The history of the requests matters to the order only by their `late` flags. */
  lemma ExitOrderReqs(s: seq<Node>, reqs: map<Req, Request>, exiting: bool, r: Req, q: Request)
    requires ExitOrder(s, reqs, exiting) && r in reqs && q.late == reqs[r].late
    ensures ExitOrder(s, reqs[r := q], exiting)
  {
  }

  // ---------- Every step ----------

  lemma QueueFacts(s: State)
    requires Inv(s)
    ensures Wq in s.links && Wq in s.rings && Distinct(s.rings[Wq])
    ensures s.rings[Wq] != [] ==> s.links[Wq].next == s.rings[Wq][0]
    ensures s.rings[Wq] == [] ==> s.links[Wq].next == Wq
  {
    HeadNode(s, Wq);
  }

  lemma TakeAwake(s: State, w: Worker)
    requires Inv(s) && Awake(s) && Guard(s, Enter(w, NoWake)) && Safe(s, Enter(w, NoWake))
    requires s.links[Wq].next !in {Wq, Exit}
    ensures Awake(Apply(s, Enter(w, NoWake)))
  {
    hide Inv, ExitOrder, NoStall, Remove, Init, Distinct;
    QueueFacts(s);
    var q, t := s.links[Wq].next, Apply(s, Enter(w, NoWake));
    assert !ExitFirst(s.rings[Wq]);
    AsleepSize(s.workers, w, Running(q.r));
    ActiveStays(s.workers, w, Running(q.r));
    ExitOrderDel(s.rings[Wq], s.reqs, s.exiting, q);
    ExitOrderReqs(Del(s.rings[Wq], q), s.reqs, s.exiting, q.r, t.reqs[q.r]);
  }

  lemma LeaveAwake(s: State, w: Worker, wake: Wake)
    requires Inv(s) && Awake(s) && Guard(s, Enter(w, wake)) && Safe(s, Enter(w, wake)) && s.links[Wq].next == Exit
    ensures Awake(Apply(s, Enter(w, wake)))
  {
    HeadNode(s, Wq);
    hide Inv, ExitOrder, NoStall, AllRings;
    SignalWakes(s.workers, wake);
    SignalSize(s.workers, wake);
    AsleepSize(Signalled(s.workers, wake), w, Exited);
    ExitKeepsAwake(s.workers, w, wake);
  }

  lemma SleepAwake(s: State, w: Worker, wake: Wake)
    requires Inv(s) && Awake(s) && Guard(s, Enter(w, wake)) && Safe(s, Enter(w, wake)) && s.links[Wq].next == Wq
    ensures Awake(Apply(s, Enter(w, wake)))
  {
    HeadNode(s, Wq);
    hide Inv, ExitOrder, NoStall, AllRings;
    AsleepSize(s.workers, w, Waiting);
  }

  /** The chain of exits: who leaves wakes a waiting worker, if there is one. */
  lemma ExitKeepsAwake(ws: Workers, w: Worker, wake: Wake)
    requires w in ws && ws[w] != Waiting && SignalOk(ws, wake)
    ensures NoStall(Signalled(ws, wake)[w := Exited])
  {
    var ws' := Signalled(ws, wake)[w := Exited];
    if wake.Wake? {
      assert Active(ws', wake.w);
    } else {
      assert forall v :: Waits(ws', v) ==> Waits(ws, v);
    }
  }

  lemma SubmitAwake(s: State, l: LoopId, r: Req, wake: Wake)
    requires Inv(s) && Awake(s) && Guard(s, Submit(l, r, wake)) && Safe(s, Submit(l, r, wake))
    ensures Awake(Apply(s, Submit(l, r, wake)))
  {
    assert Item(r) !in s.rings[Wq] by {
      FreeNode(s, Item(r));
      assert Item(r) !in Members(Wq, s.rings[Wq]);
    }
    hide Inv, NoStall, ExitOrder;
    PostWakes(s, wake);
    ExitOrderPut(s.rings[Wq], s.reqs, s.exiting, r, Apply(s, Submit(l, r, wake)).reqs[r]);
  }

  lemma PostExitAwake(s: State, wake: Wake)
    requires Inv(s) && Awake(s) && Guard(s, PostExit(wake)) && Safe(s, PostExit(wake))
    ensures Awake(Apply(s, PostExit(wake)))
  {
    hide Inv, NoStall, ExitOrder;
    PostWakes(s, wake);
    ExitOrderExit(s.rings[Wq], s.reqs);
  }

  /** A worker with a request goes on. */
  lemma WorkerAwake(s: State, w: Worker, pc: WorkerPc)
    requires Awake(s) && w in s.workers && (s.workers[w].Running? || s.workers[w].Ran?) && pc != Exited
    requires pc != Waiting && pc != Woken
    ensures Awake(s.(workers := s.workers[w := pc]))
  {
    AsleepSize(s.workers, w, pc);
    ActiveStays(s.workers, w, pc);
  }

  lemma SpuriousAwake(s: State, w: Worker)
    requires Awake(s) && Waits(s.workers, w)
    ensures Awake(s.(workers := s.workers[w := Woken]))
  {
    AsleepSize(s.workers, w, Woken);
    ActiveStays(s.workers, w, Woken);
  }

  /** A step that leaves the workers alone and takes at most one request out of the pool's queue. */
  lemma OthersAwake(s: State, t: State)
    requires Awake(s) && Distinct(s.rings[Wq])
    requires t.workers == s.workers && t.idle == s.idle && t.exiting == s.exiting && Wq in t.rings
    requires t.rings[Wq] == s.rings[Wq] || exists q :: q != Exit && t.rings[Wq] == Del(s.rings[Wq], q)
    requires forall r :: r in s.reqs ==> r in t.reqs && t.reqs[r].late == s.reqs[r].late
    ensures Awake(t)
  {
    assert ExitOrder(s.rings[Wq], t.reqs, t.exiting);
    if q :| q != Exit && t.rings[Wq] == Del(s.rings[Wq], q) {
      hide ExitOrder, NoStall;
      ExitOrderDel(s.rings[Wq], t.reqs, t.exiting, q);
      assert s.rings[Wq] == [] ==> t.rings[Wq] == [];
    }
  }

  /** The steps of the loops, and the ends of a worker's run. */
  lemma LoopAwake(s: State, step: Step)
    requires Awake(s) && Distinct(s.rings[Wq]) && Guard(s, step) && Safe(s, step)
    requires step.CancelTest? || step.CancelMark? || step.CancelInsert? || step.DrainBegin? || step.DrainNext?
    ensures Awake(Apply(s, step))
  {
    hide Awake, Distinct, Guard, Safe, Apply;
    HasQueue(s);
    LoopFields(s, step);
    LoopRing(s, step);
    OthersAwake(s, Apply(s, step));
  }

  lemma HasQueue(s: State)
    requires Awake(s)
    ensures Wq in s.rings
  {
  }

  lemma LoopFields(s: State, step: Step)
    requires Guard(s, step) && Safe(s, step)
    requires step.CancelTest? || step.CancelMark? || step.CancelInsert? || step.DrainBegin? || step.DrainNext?
    ensures var t := Apply(s, step);
            && t.workers == s.workers && t.idle == s.idle && t.exiting == s.exiting
            && forall r :: r in s.reqs ==> r in t.reqs && t.reqs[r].late == s.reqs[r].late
  {
    hide InsertTail, Remove, Init, Move, Without;
    match step
    case CancelTest(_, _) =>
    case DrainNext(_) =>
    case _ =>
  }

  lemma LoopRing(s: State, step: Step)
    requires Guard(s, step) && Safe(s, step) && Wq in s.rings
    requires step.CancelTest? || step.CancelMark? || step.CancelInsert? || step.DrainBegin? || step.DrainNext?
    ensures var t := Apply(s, step);
            && Wq in t.rings
            && (t.rings[Wq] == s.rings[Wq] || exists q :: q != Exit && t.rings[Wq] == Del(s.rings[Wq], q))
  {
    hide InsertTail, Remove, Init, Move, Without;
    match step
    case CancelTest(l, r) => TakenFrom(s.rings, Item(r));
    case DrainNext(l) => TakenFrom(s.rings, s.links[Drain(l)].next);
    case _ =>
  }

  lemma TakenFrom(rs: map<Node, seq<Node>>, q: Node)
    requires Wq in rs
    ensures Wq in Without(rs, q) && Without(rs, q)[Wq] == Del(rs[Wq], q)
  {
  }

  lemma RunStepAwake(s: State, w: Worker)
    requires Awake(s) && Distinct(s.rings[Wq]) && Guard(s, Run(w)) && Safe(s, Run(w))
    ensures Awake(Apply(s, Run(w)))
  {
    assert Wq in s.rings;
    hide Awake, Distinct;
    WorkerAwake(s, w, Ran(s.workers[w].r));
    OthersAwake(s.(workers := s.workers[w := Ran(s.workers[w].r)]), Apply(s, Run(w)));
  }

  lemma FinishAwake(s: State, w: Worker)
    requires Awake(s) && Distinct(s.rings[Wq]) && Guard(s, Finish(w)) && Safe(s, Finish(w))
    ensures Awake(Apply(s, Finish(w)))
  {
    assert Wq in s.rings;
    hide Awake, Distinct;
    WorkerAwake(s, w, Start);
    OthersAwake(s.(workers := s.workers[w := Start]), Apply(s, Finish(w)));
  }

  lemma EnterAwake(s: State, w: Worker, wake: Wake)
    requires Inv(s) && Awake(s) && Guard(s, Enter(w, wake)) && Safe(s, Enter(w, wake))
    ensures Awake(Apply(s, Enter(w, wake)))
  {
    hide Inv, Awake, Apply, Safe;
    if s.links[Wq].next == Wq {
      SleepAwake(s, w, wake);
    } else if s.links[Wq].next == Exit {
      LeaveAwake(s, w, wake);
    } else {
      TakeAwake(s, w);
    }
  }

  lemma StepAwake(s: State, step: Step)
    requires Inv(s) && Awake(s) && Guard(s, step) && Safe(s, step)
    ensures Awake(Apply(s, step))
  {
    assert Ring(s.links, Wq, s.rings[Wq]);
    assert Distinct(s.rings[Wq]);
    hide Inv, Awake, Ring, Distinct, Safe;
    match step
    case Submit(l, r, wake) => SubmitAwake(s, l, r, wake);
    case PostExit(wake) => PostExitAwake(s, wake);
    case Enter(w, wake) => EnterAwake(s, w, wake);
    case Run(w) => RunStepAwake(s, w);
    case Finish(w) => FinishAwake(s, w);
    case Spurious(w) => SpuriousAwake(s, w);
    case _ => LoopAwake(s, step);
  }

  // ---------- Every run ----------

  lemma InitialAwake(s: State)
    requires Initial(s)
    ensures Awake(s)
  {
    assert Asleep(s.workers) == {};
  }

  lemma {:induction false} RunAwake(run: seq<State>, i: nat)
    requires IsRun(run) && i < |run|
    ensures Awake(run[i])
  {
    if i == 0 {
      InitialAwake(run[0]);
    } else {
      RunAwake(run, i - 1);
      RunInv(run, i - 1);
      assert Next(run[i - 1], run[i - 1 + 1]);
      hide Inv, Awake, Apply, Safe, Guard;
      var step :| Guard(run[i - 1], step) && Safe(run[i - 1], step) && run[i] == Apply(run[i - 1], step);
      StepAwake(run[i - 1], step);
    }
  }

  /** In every run: idle_threads counts the workers inside uv_cond_wait; a worker that waits for a
      signal while there is something in the queue is not the only hope; and the same holds for the
      exit message, so that no worker is left behind when the others have exited. */
  lemma NobodyStranded(run: seq<State>, i: nat)
    requires IsRun(run) && i < |run|
    ensures var s := run[i];
            && Wq in s.rings && s.idle == |Asleep(s.workers)|
            && (s.rings[Wq] != [] ==> NoStall(s.workers))
            && (s.exiting && (forall w :: w in s.workers ==> !Active(s.workers, w)) ==>
                  forall w :: w in s.workers ==> s.workers[w] == Exited)
  {
    RunAwake(run, i);
    RunInv(run, i);
    var s := run[i];
    if s.exiting && (forall w :: w in s.workers ==> !Active(s.workers, w)) {
      forall w | w in s.workers ensures s.workers[w] == Exited {
        assert !Waits(s.workers, w);
        assert !Active(s.workers, w);
      }
    }
  }

  /** In every run: once a worker has exited, no request posted before the exit message is queued. */
  lemma NothingLeftBehind(run: seq<State>, i: nat, w: Worker, r: Req)
    requires IsRun(run) && i < |run| && w in run[i].workers && run[i].workers[w] == Exited
    requires r in run[i].reqs && run[i].reqs[r].place == Queued
    ensures run[i].reqs[r].late
  {
    var s := run[i];
    RunAwake(run, i);
    RunInv(run, i);
    Locate(s, r);
    var k :| 0 <= k < |s.rings[Wq]| && s.rings[Wq][k] == Item(r);
  }

  /** The steps that a worker has left before it exits, once the exit message heads the queue. */
  ghost function Distance(pc: WorkerPc): nat {
    match pc
    case Running(_) => 3
    case Ran(_) => 2
    case Waiting => 2
    case Start => 1
    case Woken => 1
    case Exited => 0
  }

  lemma DelFirst(s: seq<Node>, q: Node)
    requires ExitFirst(s) && q != Exit
    ensures ExitFirst(Del(s, q))
  {
  }

  lemma ExitStays(s: State, step: Step)
    requires Guard(s, step) && Safe(s, step) && Wq in s.rings && ExitFirst(s.rings[Wq])
    requires Wq in s.links && s.links[Wq].next == Exit
    ensures Wq in Apply(s, step).rings && ExitFirst(Apply(s, step).rings[Wq])
  {
    hide Del;
    match step
    case CancelTest(l, r) => DelFirst(s.rings[Wq], Item(r));
    case DrainNext(l) =>
      if s.links[Drain(l)].next != Drain(l) {
        DelFirst(s.rings[Wq], s.links[Drain(l)].next);
      }
    case Submit(_, _, _) =>
    case Enter(_, _) =>
    case _ =>
  }

  lemma ExitDistance(s: State, step: Step)
    requires Guard(s, step) && Safe(s, step) && Wq in s.links && s.links[Wq].next == Exit
    ensures var t := Apply(s, step);
            && t.workers.Keys == s.workers.Keys
            && (forall w :: w in s.workers ==> Distance(t.workers[w]) <= Distance(s.workers[w]))
            && (step.Enter? || step.Run? || step.Finish? || step.Spurious? ==>
                  Distance(t.workers[step.w]) < Distance(s.workers[step.w]))
  {
    WorkersAfter(s, step);
    hide Apply, Safe;
    match step
    case Submit(_, _, _) =>
    case PostExit(_) =>
    case Enter(_, _) =>
    case _ =>
  }

  /** The workers after a step, while the exit message heads the queue. */
  lemma WorkersAfter(s: State, step: Step)
    requires Guard(s, step) && Safe(s, step) && Wq in s.links && s.links[Wq].next == Exit
    ensures Apply(s, step).workers ==
            match step
            case Submit(_, _, wake) => Signalled(s.workers, wake)
            case PostExit(wake) => Signalled(s.workers, wake)
            case Enter(w, wake) => Signalled(s.workers, wake)[w := Exited]
            case Run(w) => s.workers[w := Ran(s.workers[w].r)]
            case Finish(w) => s.workers[w := Start]
            case Spurious(w) => s.workers[w := Woken]
            case _ => s.workers
  {
    hide InsertTail, Remove, Init, Move, Without, Signalled, SignalOk;
    match step
    case Enter(_, _) =>
    case CancelTest(_, _) =>
    case DrainNext(_) =>
    case _ =>
  }

  lemma HeadExit(s: State)
    requires Inv(s) && Wq in s.rings && ExitFirst(s.rings[Wq])
    ensures Wq in s.links && s.links[Wq].next == Exit
  {
    HeadNode(s, Wq);
  }

  lemma ExitStep(s: State, step: Step)
    requires Inv(s) && Guard(s, step) && Safe(s, step) && Wq in s.rings && ExitFirst(s.rings[Wq])
    ensures Wq in Apply(s, step).rings && ExitFirst(Apply(s, step).rings[Wq])
    ensures var t := Apply(s, step);
            && t.workers.Keys == s.workers.Keys
            && forall w :: w in s.workers ==> Distance(t.workers[w]) + Moves(step, w) <= Distance(s.workers[w])
  {
    hide Inv, Apply, Safe, Distance, ExitFirst;
    HeadExit(s);
    ExitStays(s, step);
    ExitDistance(s, step);
  }

  /** One if `step` is a step of the worker `w`, otherwise zero. */
  ghost function Moves(step: Step, w: Worker): nat {
    if (step.Enter? || step.Run? || step.Finish? || step.Spurious?) && step.w == w then 1 else 0
  }

  ghost function MovesOf(steps: seq<Step>, w: Worker): nat {
    if steps == [] then 0 else MovesOf(steps[..|steps| - 1], w) + Moves(steps[|steps| - 1], w)
  }

  /** The steps lead from state `i` of the run to the states that follow it. */
  ghost predicate Leads(run: seq<State>, i: nat, steps: seq<Step>) {
    && i + |steps| < |run|
    && forall k :: 0 <= k < |steps| ==>
         Guard(run[i + k], steps[k]) && Safe(run[i + k], steps[k]) && run[i + k + 1] == Apply(run[i + k], steps[k])
  }

  /** From the moment when the exit message heads the queue it stays there, and every worker takes no
      more than its distance of steps, which is three at most, whatever the other threads do; the worker
      that has taken all of them has exited. */
  lemma {:induction false} ExitProgress(run: seq<State>, i: nat, steps: seq<Step>, w: Worker)
    requires IsRun(run) && Leads(run, i, steps) && Wq in run[i].rings && ExitFirst(run[i].rings[Wq])
    requires w in run[i].workers
    ensures var t := run[i + |steps|];
            && Wq in t.rings && ExitFirst(t.rings[Wq]) && w in t.workers
            && Distance(t.workers[w]) + MovesOf(steps, w) <= Distance(run[i].workers[w]) <= 3
            && (MovesOf(steps, w) == Distance(run[i].workers[w]) ==> t.workers[w] == Exited)
  {
    hide Inv, Apply, Safe, Guard, ExitFirst, Initial, Next;
    if steps != [] {
      var n := |steps| - 1;
      assert forall k :: 0 <= k < n ==> steps[..n][k] == steps[k];
      ExitProgress(run, i, steps[..n], w);
      RunInv(run, i + n);
      assert Guard(run[i + n], steps[n]) && Safe(run[i + n], steps[n]) && run[i + n + 1] == Apply(run[i + n], steps[n]);
      ExitStep(run[i + n], steps[n]);
    }
  }
}
