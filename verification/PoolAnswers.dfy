/** How the answers of the thread pool reach the loops: the pool of threadpool.c and the wakeups of async.c in one step
    system. A worker or a cancelling loop puts a request into the list of its loop and calls uv_async_send on wq_async
    with wq_mutex held; the callback of wq_async is uv__work_done, which moves the list. */
module PoolAnswers {
  import opened Rings
  import ThreadPool
  import Async
  import PoolSteps
  import AsyncSteps

  type LoopId = ThreadPool.LoopId

  /** The handle loop->wq_async. */
  const WORK: Async.Hid := 0

  /** Who holds wq_mutex of a loop: nobody, a thread before its call of uv_async_send, or a thread inside it. */
  datatype Hold = Free | Before(t: Async.Sender) | During(t: Async.Sender)

  /** `due` are the loops in the callback of wq_async that have not yet moved their list. */
  datatype State = State(
    pool: ThreadPool.State, io: map<LoopId, Async.State>, hold: map<LoopId, Hold>, due: set<LoopId>)

  datatype Step = Pool(p: ThreadPool.Step) | Io(l: LoopId, a: Async.Step)

  /** The loop to which a step of the pool hands a request. */
  ghost predicate HandsTo(s: ThreadPool.State, p: ThreadPool.Step, l: LoopId)
    requires ThreadPool.Guard(s, p) && ThreadPool.Safe(s, p)
  {
    (p.Finish? && s.reqs[s.workers[p.w].r].loop == l) || (p.CancelInsert? && p.l == l)
  }

  /** The threads as senders: the thread of the loop itself, and the workers. */
  function SenderOf(p: ThreadPool.Step): Async.Sender {
    if p.Finish? then p.w + 1 else 0
  }

  predicate Sends(a: Async.Step, t: Async.Sender) {
    (a.SendRead? || a.SendCas? || a.SendWrite?) && a.t == t
  }

  /** A request is handed over under wq_mutex by a thread that sends nothing else to this loop meanwhile; uv__work_done
      runs in the callback of wq_async, moves the list under wq_mutex, and does not return before the moved list is
      empty; wq_async stays open. The test of uv__work_cancel, which takes wq_mutex too, is not held up here: this only
      adds runs. */
  ghost predicate Guard(s: State, step: Step) {
    match step
    case Pool(p) =>
      && ThreadPool.Guard(s.pool, p)
      && (ThreadPool.Safe(s.pool, p) ==> forall l :: l in s.io && l in s.hold && HandsTo(s.pool, p, l) ==>
            s.hold[l].Free? && SenderOf(p) in s.io[l].senders && s.io[l].senders[SenderOf(p)].Idle?)
      && (p.DrainBegin? ==> p.l in s.due && p.l in s.hold && s.hold[p.l].Free?)
    case Io(l, a) =>
      && l in s.io && l in s.hold && l in s.pool.loops && Async.Guard(s.io[l], a)
      && (a.SendRead? && s.hold[l] == Before(a.t) ==> a.h == WORK)
      && (a.Return? && s.io[l].pc == Async.Calling(WORK) ==> l !in s.due && !s.pool.loops[l].draining)
      && (a.InitHandle? || a.CloseHandle? ==> a.h != WORK)
  }

  ghost predicate Safe(s: State, step: Step)
    requires Guard(s, step)
  {
    match step
    case Pool(p) => ThreadPool.Safe(s.pool, p)
    case Io(l, a) => Async.Safe(s.io[l], a)
  }

  ghost function Apply(s: State, step: Step): State
    requires Guard(s, step) && Safe(s, step)
  {
    match step
    case Pool(p) =>
      s.(pool := ThreadPool.Apply(s.pool, p),
         hold := map l | l in s.hold :: if HandsTo(s.pool, p, l) then Before(SenderOf(p)) else s.hold[l],
         due := if p.DrainBegin? then s.due - {p.l} else s.due)
    case Io(l, a) =>
      var io := Async.Apply(s.io[l], a);
      s.(io := s.io[l := io], hold := s.hold[l := HoldAfter(s.hold[l], a, io)],
         due := if a.Clear? && io.pc == Async.Calling(WORK) then s.due + {l} else s.due)
  }

  /** wq_mutex is given back when uv_async_send returns. */
  ghost function HoldAfter(hold: Hold, a: Async.Step, io: Async.State): Hold {
    if hold.Free? || !Sends(a, hold.t) then hold
    else if hold.t in io.senders && io.senders[hold.t].Idle? then Free
    else During(hold.t)
  }

  // ---------- Invariant ----------

  /** The list of finished requests is empty, or its loop is going to move it: a thread is about to set the flag of
      wq_async, the flag is set, or the callback is running. */
  ghost predicate Covered(io: Async.State, hold: Hold, due: bool, list: seq<ThreadPool.Node>)
    requires WORK in io.handles
  {
    list != [] ==>
      || hold.Before? || (hold.During? && hold.t in io.senders && io.senders[hold.t].Cas?)
      || io.handles[WORK].pending || due
  }

  ghost predicate HoldOk(io: Async.State, hold: Hold) {
    match hold
    case Free => true
    case Before(t) => t in io.senders && io.senders[t].Idle?
    case During(t) => t in io.senders && io.senders[t] in {Async.Cas(WORK), Async.Write(WORK)}
  }

  ghost predicate WorkOpen(io: Async.State) {
    WORK in io.handles && io.handles[WORK].open && io.handles[WORK].callback
  }

  /** What holds of one loop: its wakeups, the holder of its mutex, its callback and its list. */
  ghost predicate LoopOk(io: Async.State, hold: Hold, due: bool, draining: bool, list: seq<ThreadPool.Node>) {
    && Async.Inv(io) && WorkOpen(io) && HoldOk(io, hold) && Covered(io, hold, due, list)
    && (due || draining ==> io.pc == Async.Calling(WORK)) && !(due && draining)
  }

  ghost function ListOf(s: ThreadPool.State, l: LoopId): seq<ThreadPool.Node> {
    if ThreadPool.LoopWq(l) in s.rings then s.rings[ThreadPool.LoopWq(l)] else []
  }

  ghost predicate AtLoop(s: State, l: LoopId) {
    && l in s.io && l in s.hold && l in s.pool.loops
    && LoopOk(s.io[l], s.hold[l], l in s.due, s.pool.loops[l].draining, ListOf(s.pool, l))
  }

  ghost predicate Inv(s: State) {
    && ThreadPool.Inv(s.pool) && s.io.Keys == s.hold.Keys == s.pool.loops.Keys
    && forall l {:trigger AtLoop(s, l)} :: l in s.io ==> AtLoop(s, l)
  }

  // ---------- Steps of the pool ----------

  /** A list of finished requests gets longer only when a request is handed to its loop. */
  lemma ListGrows(s: ThreadPool.State, p: ThreadPool.Step, l: LoopId)
    requires ThreadPool.Guard(s, p) && ThreadPool.Safe(s, p)
    ensures ListOf(s, l) == [] && ListOf(ThreadPool.Apply(s, p), l) != [] ==> HandsTo(s, p, l)
    ensures p == ThreadPool.DrainBegin(l) ==> ListOf(ThreadPool.Apply(s, p), l) == []
  {
    hide InsertTail, Remove, Init, Move, Del;
    if ThreadPool.LoopWq(l) in s.rings && ListOf(s, l) == [] {
      NothingTaken(s.rings, ThreadPool.LoopWq(l));
    }
    match p
    case Submit(_, _, _) =>
    case Enter(_, _) =>
    case CancelTest(_, _) =>
    case DrainNext(_) =>
    case _ =>
  }

  lemma NothingTaken(rings: map<ThreadPool.Node, seq<ThreadPool.Node>>, h: ThreadPool.Node)
    requires h in rings && rings[h] == []
    ensures forall q :: Without(rings, q)[h] == []
  {
  }

  lemma LoopsStay(s: ThreadPool.State, p: ThreadPool.Step)
    requires ThreadPool.Guard(s, p) && ThreadPool.Safe(s, p)
    ensures var t := ThreadPool.Apply(s, p);
            && t.loops.Keys == s.loops.Keys
            && forall l :: l in s.loops && t.loops[l].draining ==> s.loops[l].draining || p == ThreadPool.DrainBegin(l)
  {
    hide InsertTail, Remove, Init, Move, Without, ThreadPool.SignalOk, ThreadPool.Signalled;
    match p
    case Submit(_, _, _) =>
    case Enter(_, _) =>
    case CancelTest(_, _) =>
    case DrainNext(_) =>
    case _ =>
  }

  lemma PoolAtLoop(s: State, p: ThreadPool.Step, l: LoopId)
    requires Guard(s, Pool(p)) && Safe(s, Pool(p)) && AtLoop(s, l)
    ensures AtLoop(Apply(s, Pool(p)), l)
  {
    hide ThreadPool.Apply, ThreadPool.Guard, ThreadPool.Safe, Async.Inv, ListOf;
    LoopsStay(s.pool, p);
    ListGrows(s.pool, p, l);
  }

  lemma PoolKeeps(s: State, p: ThreadPool.Step)
    requires Inv(s) && Guard(s, Pool(p))
    ensures Safe(s, Pool(p)) && Inv(Apply(s, Pool(p)))
  {
    hide ThreadPool.Inv, ThreadPool.Apply, ThreadPool.Guard, ThreadPool.Safe, AtLoop, HandsTo;
    ThreadPool.StepKeeps(s.pool, p);
    LoopsStay(s.pool, p);
    var t := Apply(s, Pool(p));
    forall l | l in t.io ensures AtLoop(t, l) {
      PoolAtLoop(s, p, l);
    }
  }

  // ---------- Steps of async.c ----------

  /** wq_async stays open, its flag falls only when its callback is called, and only Return leaves the callback. */
  lemma WorkHandle(s: Async.State, a: Async.Step)
    requires Async.Guard(s, a) && Async.Safe(s, a) && WorkOpen(s) && (a.InitHandle? || a.CloseHandle? ==> a.h != WORK)
    ensures var t := Async.Apply(s, a);
            && WorkOpen(t)
            && (s.handles[WORK].pending && !t.handles[WORK].pending ==> a.Clear? && t.pc == Async.Calling(WORK))
            && (s.pc == Async.Calling(WORK) && t.pc != Async.Calling(WORK) ==> a.Return?)
            && (t.pc == Async.Calling(WORK) && a.Clear? ==> s.pc != Async.Calling(WORK))
  {
    hide InsertTail, Remove, Init, Move, Without;
    match a
    case SendRead(_, _) =>
    case SendCas(_) =>
    case Next =>
    case Clear =>
    case _ =>
  }

  /** A sender is moved by its own steps only, and a send to wq_async ends with its flag set. */
  lemma Sender(s: Async.State, a: Async.Step, t: Async.Sender)
    requires Async.Guard(s, a) && Async.Safe(s, a) && WorkOpen(s) && t in s.senders
    ensures var u := Async.Apply(s, a);
            && t in u.senders && (!Sends(a, t) ==> u.senders[t] == s.senders[t])
            && (a == Async.SendRead(t, WORK) ==>
                  u.senders[t] == Async.Cas(WORK) || (u.senders[t].Idle? && u.handles[WORK].pending))
            && (a == Async.SendCas(t) && s.senders[t] == Async.Cas(WORK) ==>
                  u.handles[WORK].pending && (u.senders[t].Idle? || u.senders[t] == Async.Write(WORK)))
            && (a.SendWrite? && a.t == t ==> u.senders[t].Idle?)
  {
    hide InsertTail, Remove, Init, Move, Without;
    match a
    case SendRead(_, _) =>
    case SendCas(_) =>
    case Next =>
    case Clear =>
    case _ =>
  }

  lemma SenderSteps(s: Async.State, a: Async.Step, t: Async.Sender)
    requires Async.Guard(s, a) && Sends(a, t) && t in s.senders
    ensures if s.senders[t].Idle? then a.SendRead? else if s.senders[t].Cas? then a.SendCas? else a.SendWrite?
  {
  }

  lemma IoAtLoop(s: State, l: LoopId, a: Async.Step)
    requires Guard(s, Io(l, a)) && Safe(s, Io(l, a)) && AtLoop(s, l)
    ensures AtLoop(Apply(s, Io(l, a)), l)
  {
    hide Async.Inv, Async.Apply, Async.Guard, Async.Safe, ListOf, WorkOpen;
    Async.StepKeeps(s.io[l], a);
    WorkHandle(s.io[l], a);
    WorkIs(s.io[l]);
    WorkIs(Async.Apply(s.io[l], a));
    if !s.hold[l].Free? {
      Sender(s.io[l], a, s.hold[l].t);
      if Sends(a, s.hold[l].t) {
        SenderSteps(s.io[l], a, s.hold[l].t);
      }
    }
  }

  lemma WorkIs(s: Async.State)
    requires WorkOpen(s)
    ensures WORK in s.handles
  {
  }

  lemma IoKeeps(s: State, l: LoopId, a: Async.Step)
    requires Inv(s) && Guard(s, Io(l, a))
    ensures Safe(s, Io(l, a)) && Inv(Apply(s, Io(l, a)))
  {
    hide ThreadPool.Inv, Async.Inv, Async.Apply, Async.Guard, Async.Safe, LoopOk, HoldAfter;
    assert AtLoop(s, l);
    IoSafe(s.io[l], s.hold[l], l in s.due, s.pool.loops[l].draining, ListOf(s.pool, l), a);
    IoAtLoop(s, l, a);
    var t := Apply(s, Io(l, a));
    forall k | k in t.io ensures AtLoop(t, k) {
      assert AtLoop(s, k);
    }
  }

  lemma IoSafe(
    io: Async.State, hold: Hold, due: bool, draining: bool, list: seq<ThreadPool.Node>, a: Async.Step)
    requires LoopOk(io, hold, due, draining, list) && Async.Guard(io, a)
    ensures Async.Safe(io, a)
  {
    hide Async.Inv, Async.Guard, Async.Safe, Async.Apply;
    Async.StepKeeps(io, a);
  }

  lemma StepKeeps(s: State, step: Step)
    requires Inv(s) && Guard(s, step)
    ensures Safe(s, step) && Inv(Apply(s, step))
  {
    hide Inv, Guard, Safe, Apply;
    match step
    case Pool(p) => PoolKeeps(s, p);
    case Io(l, a) => IoKeeps(s, l, a);
  }

  // ---------- Runs ----------

  /** A loop after uv_loop_init, which initialises wq_async. */
  ghost predicate Ready(io: Async.State) {
    exists a ::
      && Async.Initial(a) && Async.Guard(a, Async.InitHandle(WORK, true)) && Async.Safe(a, Async.InitHandle(WORK, true))
      && io == Async.Apply(a, Async.InitHandle(WORK, true))
  }

  /** The thread of a loop and all workers may send to it. */
  ghost predicate Initial(s: State) {
    && ThreadPool.Initial(s.pool) && s.io.Keys == s.hold.Keys == s.pool.loops.Keys && s.due == {}
    && (forall l :: l in s.io ==> Ready(s.io[l]) && s.hold[l].Free? && 0 in s.io[l].senders)
    && forall l, w :: l in s.io && w in s.pool.workers ==> w + 1 in s.io[l].senders
  }

  ghost predicate RunOf(ss: seq<State>, steps: seq<Step>) {
    && |ss| == |steps| + 1 && Initial(ss[0])
    && forall i :: 0 <= i < |steps| ==>
         Guard(ss[i], steps[i]) && (Safe(ss[i], steps[i]) ==> ss[i + 1] == Apply(ss[i], steps[i]))
  }

  lemma ReadyOk(io: Async.State)
    requires Ready(io)
    ensures Async.Inv(io) && WorkOpen(io)
  {
    var a :| Async.Initial(a) && Async.Guard(a, Async.InitHandle(WORK, true))
             && Async.Safe(a, Async.InitHandle(WORK, true)) && io == Async.Apply(a, Async.InitHandle(WORK, true));
    Async.InitialInv(a);
    Async.StepKeeps(a, Async.InitHandle(WORK, true));
  }

  lemma InitialInv(s: State)
    requires Initial(s)
    ensures Inv(s)
  {
    hide ThreadPool.Inv, Async.Inv, Ready;
    ThreadPool.InitialInv(s.pool);
    forall l | l in s.io ensures AtLoop(s, l) {
      ReadyOk(s.io[l]);
    }
  }

  lemma {:induction false} RunInv(ss: seq<State>, steps: seq<Step>, i: nat)
    requires RunOf(ss, steps) && i < |ss|
    ensures Inv(ss[i]) && (i < |steps| ==> Safe(ss[i], steps[i]))
  {
    hide Inv, Guard, Safe, Apply, Initial;
    if i == 0 {
      InitialInv(ss[0]);
    } else {
      RunInv(ss, steps, i - 1);
      StepKeeps(ss[i - 1], steps[i - 1]);
    }
    if i < |steps| {
      StepKeeps(ss[i], steps[i]);
    }
  }

  /** In every run, while a list holds finished requests its loop gets to it: a thread is inside its call of
      uv_async_send, the wakeup of wq_async is on its way, or the callback is running. */
  lemma NoLostAnswer(ss: seq<State>, steps: seq<Step>, i: nat, l: LoopId)
    requires RunOf(ss, steps) && i < |ss| && l in ss[i].io && ListOf(ss[i].pool, l) != []
    ensures var s := ss[i];
            && l in s.hold && WORK in s.io[l].handles && Async.Domains(s.io[l])
            && (!s.hold[l].Free? || Async.Awaited(s.io[l], WORK) || (l in s.due && s.io[l].pc == Async.Calling(WORK)))
  {
    RunInv(ss, steps, i);
    assert AtLoop(ss[i], l);
    assert Async.HandleOk(ss[i].io[l], WORK);
  }

  /** Nothing is left to do: the queue of the pool is empty, no worker has a request, no loop is in uv__work_cancel, and
      every loop is in poll with nothing to read and no thread inside uv_async_send. */
  ghost predicate Quiet(s: State) {
    && ThreadPool.Wq in s.pool.rings && s.pool.rings[ThreadPool.Wq] == []
    && (forall w :: w in s.pool.workers ==> !s.pool.workers[w].Running? && !s.pool.workers[w].Ran?)
    && (forall l :: l in s.pool.loops ==> s.pool.loops[l].cancel == ThreadPool.NoCancel)
    && forall l :: l in s.io && l in s.hold ==>
         && s.hold[l].Free? && s.io[l].pc.Polling? && s.io[l].tokens == 0
         && forall t :: t in s.io[l].senders ==> !s.io[l].senders[t].Write?
  }

  lemma QuietLoop(s: State, l: LoopId)
    requires Inv(s) && Quiet(s) && l in s.io
    ensures ListOf(s.pool, l) == [] && l in s.pool.loops && !s.pool.loops[l].draining
  {
    hide ThreadPool.Inv;
    assert AtLoop(s, l);
    assert Async.HandleOk(s.io[l], WORK);
  }

  /** In every run of pool and loops, when all is quiet every submitted request has been answered, once and with the
      right status. */
  lemma QuietAnswered(ss: seq<State>, steps: seq<Step>, i: nat, r: ThreadPool.Req)
    requires RunOf(ss, steps) && i < |ss| && Quiet(ss[i]) && r in ss[i].pool.reqs && ss[i].pool.reqs[r].submitted
    ensures var q := ss[i].pool.reqs[r]; q.place == ThreadPool.Nowhere && ThreadPool.Answered(q)
  {
    RunInv(ss, steps, i);
    var s := ss[i];
    forall l | l in s.pool.loops ensures ListOf(s.pool, l) == [] && !s.pool.loops[l].draining {
      QuietLoop(s, l);
    }
    ThreadPool.Locate(s.pool, r);
  }

  // ---------- What every step does ----------

  /** The mutex of `l` after a step: taken by a thread that hands over a request, and given back when its send ends. */
  ghost predicate HoldDoes(s: State, step: Step, t: State, l: LoopId) {
    && l in s.hold && l in t.hold
    && match step
       case Pool(p) =>
         if p.Finish? && p.w in s.pool.workers && s.pool.workers[p.w].Ran? && s.pool.workers[p.w].r in s.pool.reqs
            && s.pool.reqs[s.pool.workers[p.w].r].loop == l
         then t.hold[l] == Before(p.w + 1)
         else if p == ThreadPool.CancelInsert(l) then t.hold[l] == Before(0)
         else t.hold[l] == s.hold[l]
       case Io(k, a) =>
         if k == l && !s.hold[l].Free? && Sends(a, s.hold[l].t)
         then
           && l in t.io && s.hold[l].t in t.io[l].senders
           && t.hold[l] == if t.io[l].senders[s.hold[l].t].Idle? then Free else During(s.hold[l].t)
         else t.hold[l] == s.hold[l]
  }

  /** A step of the pool leaves the loops alone and the other way round; the callback of wq_async is due from the clear
      of its flag to the start of uv__work_done. */
  ghost predicate Does(s: State, step: Step, t: State) {
    && (forall l :: l in s.hold ==> HoldDoes(s, step, t, l))
    && match step
       case Pool(p) =>
         && PoolSteps.Does(s.pool, p, t.pool) && t.io == s.io
         && t.due == if p.DrainBegin? then s.due - {p.l} else s.due
       case Io(l, a) =>
         && l in s.io && l in t.io && AsyncSteps.Does(s.io[l], a, t.io[l]) && t.io == s.io[l := t.io[l]]
         && t.pool == s.pool
         && t.due == if a.Clear? && t.io[l].pc == Async.Calling(WORK) then s.due + {l} else s.due
  }

  lemma PoolDoes(s: State, p: ThreadPool.Step)
    requires Inv(s) && Guard(s, Pool(p)) && Safe(s, Pool(p))
    ensures Does(s, Pool(p), Apply(s, Pool(p)))
  {
    hide ThreadPool.Inv, ThreadPool.Apply, ThreadPool.Guard, PoolSteps.Does, AtLoop;
    PoolSteps.StepDoes(s.pool, p);
    if p.Finish? {
      FinishKnows(s.pool, p.w);
    }
  }

  lemma FinishKnows(s: ThreadPool.State, w: ThreadPool.Worker)
    requires ThreadPool.Guard(s, ThreadPool.Finish(w)) && ThreadPool.Safe(s, ThreadPool.Finish(w))
    ensures w in s.workers && s.workers[w].Ran? && s.workers[w].r in s.reqs
  {
  }

  lemma IoDoes(s: State, l: LoopId, a: Async.Step)
    requires Inv(s) && Guard(s, Io(l, a)) && Safe(s, Io(l, a))
    ensures Does(s, Io(l, a), Apply(s, Io(l, a)))
  {
    hide ThreadPool.Inv, Async.Inv, Async.Apply, Async.Safe, AsyncSteps.Does, HoldOk, Covered;
    assert AtLoop(s, l);
    hide Async.Guard;
    AsyncSteps.StepDoes(s.io[l], a);
    if !s.hold[l].Free? {
      HolderThere(s.io[l], s.hold[l]);
      Sender(s.io[l], a, s.hold[l].t);
    }
  }

  lemma HolderThere(io: Async.State, hold: Hold)
    requires HoldOk(io, hold) && !hold.Free?
    ensures hold.t in io.senders
  {
  }

  lemma StepDoes(s: State, step: Step)
    requires Inv(s) && Guard(s, step)
    ensures Safe(s, step) && Does(s, step, Apply(s, step)) && Inv(Apply(s, step))
  {
    hide Inv, Guard, Safe, Apply, Does;
    StepKeeps(s, step);
    match step
    case Pool(p) => PoolDoes(s, p);
    case Io(l, a) => IoDoes(s, l, a);
  }

  /** In every run, each step of pool and loops does what it means. */
  lemma RunDoes(ss: seq<State>, steps: seq<Step>, i: nat)
    requires RunOf(ss, steps) && i < |steps|
    ensures Does(ss[i], steps[i], ss[i + 1])
  {
    hide Inv, Guard, Safe, Apply, Does;
    RunInv(ss, steps, i);
    StepDoes(ss[i], steps[i]);
  }
}
