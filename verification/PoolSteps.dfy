/** What every step of the thread pool does, in terms of sequences of requests: the queue of the pool is served from its
    front, requests are cancelled exactly while they may be, and each loop answers its list in order. */
module PoolSteps {
  import opened Rings
  import opened ThreadPool

  function Woke(ws: map<Worker, WorkerPc>, wake: Wake): map<Worker, WorkerPc> {
    match wake
    case NoWake => ws
    case Wake(w) => ws[w := Woken]
  }

  /** A cancel succeeds while the request waits in the queue, and again while it waits for an answer that says so. */
  ghost predicate MayCancel(s: State, l: LoopId, r: Req) {
    && r in s.reqs
    && (s.reqs[r].place == Queued || (s.reqs[r].place == Finished(l) && s.reqs[r].work == CancelledWork))
  }

  /** The state after the step, but for the links, which hold the lists. */
  ghost predicate Does(s: State, step: Step, t: State) {
    var u := t.(links := s.links);
    && Wq in s.rings
    && var queue := s.rings[Wq];
       match step
       case Submit(l, r, wake) =>
         u == s.(reqs := s.reqs[r := Request(UserWork, l, true, Queued, 0, 0, false, false, s.exiting)],
                 rings := s.rings[Wq := queue + [Item(r)]], workers := Woke(s.workers, wake))
       case PostExit(wake) =>
         u == s.(exiting := true, rings := s.rings[Wq := queue + [Exit]], workers := Woke(s.workers, wake))
       case Enter(w, wake) =>
         && w in s.workers
         && var idle := if s.workers[w] == Woken then s.idle - 1 else s.idle;
            if queue == [] then u == s.(idle := idle + 1, workers := s.workers[w := Waiting])
            else if queue[0] == Exit then u == s.(idle := idle, workers := Woke(s.workers, wake)[w := Exited])
            else
              && queue[0].Item? && queue[0].r in s.reqs
              && var r := queue[0].r;
                 u == s.(idle := idle, workers := s.workers[w := Running(r)], rings := s.rings[Wq := queue[1..]],
                         reqs := s.reqs[r := s.reqs[r].(place := AtWorker(w))])
       case Run(w) =>
         && w in s.workers && s.workers[w].Running? && s.workers[w].r in s.reqs
         && var r := s.workers[w].r;
            u == s.(workers := s.workers[w := Ran(r)], reqs := s.reqs[r := s.reqs[r].(ran := s.reqs[r].ran + 1)])
       case Finish(w) =>
         && w in s.workers && s.workers[w].Ran? && s.workers[w].r in s.reqs
         && var r := s.workers[w].r;
            var l := s.reqs[r].loop;
            && LoopWq(l) in s.rings
            && u == s.(workers := s.workers[w := Start], rings := s.rings[LoopWq(l) := s.rings[LoopWq(l)] + [Item(r)]],
                       reqs := s.reqs[r := s.reqs[r].(work := NoWork, place := Finished(l))])
       case CancelTest(l, r) =>
         if MayCancel(s, l, r) then
           && l in s.loops && LeftRing(s.rings, Item(r), u.rings)
           && u == s.(rings := u.rings, reqs := s.reqs[r := s.reqs[r].(place := InCancel(l))],
                      loops := s.loops[l := s.loops[l].(cancel := Removed(r))])
         else t == s
       case CancelMark(l) =>
         && l in s.loops && s.loops[l].cancel.Removed? && s.loops[l].cancel.r in s.reqs
         && var r := s.loops[l].cancel.r;
            u == s.(reqs := s.reqs[r := s.reqs[r].(work := CancelledWork)],
                    loops := s.loops[l := s.loops[l].(cancel := Marked(r))])
       case CancelInsert(l) =>
         && l in s.loops && s.loops[l].cancel.Marked? && s.loops[l].cancel.r in s.reqs && LoopWq(l) in s.rings
         && var r := s.loops[l].cancel.r;
            u == s.(reqs := s.reqs[r := s.reqs[r].(place := Finished(l), promised := true)],
                    loops := s.loops[l := s.loops[l].(cancel := NoCancel)],
                    rings := s.rings[LoopWq(l) := s.rings[LoopWq(l)] + [Item(r)]])
       case DrainBegin(l) =>
         && l in s.loops && LoopWq(l) in s.rings
         && u == s.(loops := s.loops[l := s.loops[l].(draining := true)],
                    rings := s.rings[LoopWq(l) := []][Drain(l) := s.rings[LoopWq(l)]])
       case DrainNext(l) =>
         && l in s.loops && Drain(l) in s.rings
         && var list := s.rings[Drain(l)];
            if list == [] then
              u == s.(loops := s.loops[l := s.loops[l].(draining := false)], rings := s.rings - {Drain(l)})
            else
              && list[0].Item? && list[0].r in s.reqs
              && var r := list[0].r;
                 u == s.(rings := s.rings[Drain(l) := list[1..]],
                         reqs := s.reqs[r := s.reqs[r].(place := Nowhere, dones := s.reqs[r].dones + 1,
                                                        ecanceled := s.reqs[r].work == CancelledWork)])
       case Spurious(w) => u == s.(workers := s.workers[w := Woken])
  }

  lemma QueueThere(s: State)
    requires Inv(s)
    ensures Wq in s.rings && AllRings(s.links, s.rings)
  {
  }

  lemma FirstTaken(s: State, h: Node)
    requires Inv(s) && h in s.rings && s.rings[h] != []
    ensures Without(s.rings, s.rings[h][0]) == s.rings[h := s.rings[h][1..]]
  {
    WithoutAt(s.links, s.rings, h, 0);
    assert s.rings[h][..0] + s.rings[h][1..] == s.rings[h][1..];
  }

  lemma EnterDoes(s: State, w: Worker, wake: Wake)
    requires Inv(s) && Guard(s, Enter(w, wake)) && Safe(s, Enter(w, wake))
    ensures Does(s, Enter(w, wake), Apply(s, Enter(w, wake)))
  {
    hide Inv, Without, Remove, Init, AllRings;
    QueueThere(s);
    HeadNode(s, Wq);
    if s.rings[Wq] != [] {
      FirstTaken(s, Wq);
    }
  }

  lemma DrainNextDoes(s: State, l: LoopId)
    requires Inv(s) && Guard(s, DrainNext(l)) && Safe(s, DrainNext(l))
    ensures Does(s, DrainNext(l), Apply(s, DrainNext(l)))
  {
    hide Inv, Without, Remove, Init, AllRings, CanTake;
    DrainThere(s, l);
    QueueThere(s);
    HeadNode(s, Drain(l));
    if s.rings[Drain(l)] != [] {
      DrainTakes(s, l);
      FirstTaken(s, Drain(l));
    }
  }

  lemma DrainTakes(s: State, l: LoopId)
    requires Guard(s, DrainNext(l)) && Safe(s, DrainNext(l)) && s.links[Drain(l)].next != Drain(l)
    ensures s.links[Drain(l)].next.Item? && s.links[Drain(l)].next.r in s.reqs
  {
  }

  lemma DrainThere(s: State, l: LoopId)
    requires Inv(s) && l in s.loops && s.loops[l].draining
    ensures Drain(l) in s.rings
  {
  }

  lemma CancelDoes(s: State, l: LoopId, r: Req)
    requires Inv(s) && Guard(s, CancelTest(l, r)) && Safe(s, CancelTest(l, r))
    ensures Does(s, CancelTest(l, r), Apply(s, CancelTest(l, r)))
  {
    hide Inv, Without, Remove, AllRings, Free, CancelCondition, LeftRing;
    QueueThere(s);
    CancelDecision(s, l, r);
    if CancelCondition(s, r) {
      WithoutLeft(s.links, s.rings, Item(r));
    }
  }

  lemma OtherDoes(s: State, step: Step)
    requires Inv(s) && Guard(s, step) && Safe(s, step)
    requires !step.Enter? && !step.CancelTest? && !step.DrainNext?
    ensures Does(s, step, Apply(s, step))
  {
    hide Inv, InsertTail, Move;
    QueueThere(s);
    match step
    case Submit(_, _, _) =>
    case PostExit(_) =>
    case Finish(_) =>
    case CancelInsert(_) =>
    case _ =>
  }

  lemma StepDoes(s: State, step: Step)
    requires Inv(s) && Guard(s, step)
    ensures Safe(s, step) && Does(s, step, Apply(s, step)) && Inv(Apply(s, step))
  {
    hide Inv, Guard, Safe, Apply, Does;
    StepKeeps(s, step);
    match step
    case Enter(w, wake) => EnterDoes(s, w, wake);
    case CancelTest(l, r) => CancelDoes(s, l, r);
    case DrainNext(l) => DrainNextDoes(s, l);
    case _ => OtherDoes(s, step);
  }

  // ---------- Runs with their steps ----------

  ghost predicate RunOf(ss: seq<State>, steps: seq<Step>) {
    && |ss| == |steps| + 1 && Initial(ss[0])
    && forall i :: 0 <= i < |steps| ==>
         Guard(ss[i], steps[i]) && (Safe(ss[i], steps[i]) ==> ss[i + 1] == Apply(ss[i], steps[i]))
  }

  /** In every run, each step does what it means. */
  lemma {:induction false} RunDoes(ss: seq<State>, steps: seq<Step>, i: nat)
    requires RunOf(ss, steps) && i < |ss|
    ensures Inv(ss[i]) && (i < |steps| ==> Does(ss[i], steps[i], ss[i + 1]))
  {
    hide Inv, Guard, Safe, Apply, Does;
    if i == 0 {
      InitialInv(ss[0]);
    } else {
      RunDoes(ss, steps, i - 1);
      StepDoes(ss[i - 1], steps[i - 1]);
    }
    if i < |steps| {
      StepDoes(ss[i], steps[i]);
    }
  }

  /** Only a loop itself moves its call of uv__work_cancel on. */
  lemma CancelStays(s: State, step: Step, t: State, l: LoopId)
    requires Guard(s, step) && Does(s, step, t) && l in s.loops && s.loops[l].cancel != NoCancel
    requires step != CancelMark(l) && step != CancelInsert(l)
    ensures l in t.loops && t.loops[l].cancel == s.loops[l].cancel
  {
    hide LeftRing, Woke, MayCancel;
    match step
    case Submit(_, _, _) =>
    case Enter(_, _) =>
    case CancelTest(_, _) =>
    case DrainBegin(_) =>
    case DrainNext(_) =>
    case _ =>
  }

  lemma {:induction false} CancelWaits(ss: seq<State>, steps: seq<Step>, i: nat, j: nat, l: LoopId)
    requires RunOf(ss, steps) && i <= j < |ss| && l in ss[i].loops && ss[i].loops[l].cancel != NoCancel
    requires forall k :: i <= k < j ==> steps[k] != CancelMark(l) && steps[k] != CancelInsert(l)
    ensures l in ss[j].loops && ss[j].loops[l].cancel == ss[i].loops[l].cancel
    decreases j
  {
    hide Inv, Safe, Apply, Does, Initial, Guard;
    if i < j {
      CancelWaits(ss, steps, i, j - 1, l);
      RunDoes(ss, steps, j - 1);
      CancelStays(ss[j - 1], steps[j - 1], ss[j], l);
    }
  }

  ghost predicate Unlisted(s: State, r: Req) {
    forall h :: h in s.rings ==> Item(r) !in s.rings[h]
  }

  /** In every run, a cancel of a request that may be cancelled returns 0: the request has left its list at once, and
      the next two steps of the loop mark it and hand it to the loop with the promise. */
  lemma CancelSucceeds(ss: seq<State>, steps: seq<Step>, i: nat, j: nat, k: nat, l: LoopId, r: Req)
    requires RunOf(ss, steps) && i < j < k < |steps| && steps[i] == CancelTest(l, r) && MayCancel(ss[i], l, r)
    requires steps[j] == CancelMark(l) && forall m :: i < m < j ==> steps[m] != CancelMark(l)
    requires steps[k] == CancelInsert(l) && forall m :: j < m < k ==> steps[m] != CancelInsert(l)
    ensures Unlisted(ss[i + 1], r)
    ensures var q := ss[k + 1].reqs; r in q && q[r].place == Finished(l) && q[r].promised
  {
    hide Inv, Safe, Apply, Initial, Does, Guard;
    RunDoes(ss, steps, i);
    TestDoes(ss[i], ss[i + 1], l, r);
    NoInsertYet(ss, steps, i + 1, j, l);
    CancelWaits(ss, steps, i + 1, j, l);
    RunDoes(ss, steps, j);
    MarkDoes(ss[j], ss[j + 1], l);
    NoMarkAgain(ss, steps, j + 1, k, l);
    CancelWaits(ss, steps, j + 1, k, l);
    RunDoes(ss, steps, k);
    InsertDoes(ss[k], ss[k + 1], l);
  }

  lemma TestDoes(s: State, t: State, l: LoopId, r: Req)
    requires Does(s, CancelTest(l, r), t) && MayCancel(s, l, r)
    ensures l in t.loops && t.loops[l].cancel == Removed(r) && Unlisted(t, r)
  {
  }

  lemma MarkDoes(s: State, t: State, l: LoopId)
    requires Does(s, CancelMark(l), t)
    ensures l in s.loops && s.loops[l].cancel.Removed?
    ensures l in t.loops && t.loops[l].cancel == Marked(s.loops[l].cancel.r)
  {
  }

  lemma InsertDoes(s: State, t: State, l: LoopId)
    requires Does(s, CancelInsert(l), t)
    ensures l in s.loops && s.loops[l].cancel.Marked?
    ensures var r := s.loops[l].cancel.r; r in t.reqs && t.reqs[r].place == Finished(l) && t.reqs[r].promised
  {
  }

  /** Before it is marked, a cancelled request is not handed over. */
  lemma {:induction false} NoInsertYet(ss: seq<State>, steps: seq<Step>, i: nat, j: nat, l: LoopId)
    requires RunOf(ss, steps) && i <= j < |ss| && l in ss[i].loops && ss[i].loops[l].cancel.Removed?
    requires forall k :: i <= k < j ==> steps[k] != CancelMark(l)
    ensures forall k :: i <= k < j ==> steps[k] != CancelInsert(l)
    decreases j
  {
    hide Inv, Safe, Apply, Initial, Does;
    if i < j {
      NoInsertYet(ss, steps, i, j - 1, l);
      CancelWaits(ss, steps, i, j - 1, l);
      assert Guard(ss[j - 1], steps[j - 1]);
    }
  }

  lemma {:induction false} NoMarkAgain(ss: seq<State>, steps: seq<Step>, i: nat, j: nat, l: LoopId)
    requires RunOf(ss, steps) && i <= j < |ss| && l in ss[i].loops && ss[i].loops[l].cancel.Marked?
    requires forall k :: i <= k < j ==> steps[k] != CancelInsert(l)
    ensures forall k :: i <= k < j ==> steps[k] != CancelMark(l)
    decreases j
  {
    hide Inv, Safe, Apply, Initial, Does;
    if i < j {
      NoMarkAgain(ss, steps, i, j - 1, l);
      CancelWaits(ss, steps, i, j - 1, l);
      assert Guard(ss[j - 1], steps[j - 1]);
    }
  }

  // ---------- Two runs ----------

  lemma Extend(ss: seq<State>, steps: seq<Step>, step: Step) returns (t: State)
    requires RunOf(ss, steps) && Guard(ss[|steps|], step)
    ensures RunOf(ss + [t], steps + [step]) && Does(ss[|steps|], step, t) && Inv(t)
  {
    hide Guard, Safe, Apply, Does, Inv, Initial;
    RunDoes(ss, steps, |steps|);
    StepDoes(ss[|steps|], step);
    t := Apply(ss[|steps|], step);
    var ss', steps' := ss + [t], steps + [step];
    forall i | 0 <= i < |steps'|
      ensures Guard(ss'[i], steps'[i]) && (Safe(ss'[i], steps'[i]) ==> ss'[i + 1] == Apply(ss'[i], steps'[i]))
    {
      assert i < |steps| ==> steps'[i] == steps[i] && ss'[i] == ss[i] && ss'[i + 1] == ss[i + 1];
    }
  }

  /** One loop, one request and one worker of a state. */
  datatype Snap = Snap(
    queue: seq<Node>, list: seq<Node>, drain: seq<Node>, loop: Loop, req: Request, worker: WorkerPc, idle: int)

  ghost predicate Has(s: State, l: LoopId, r: Req, w: Worker) {
    && Wq in s.rings && LoopWq(l) in s.rings && l in s.loops && r in s.reqs && w in s.workers
    && (s.loops[l].draining ==> Drain(l) in s.rings)
  }

  ghost function SnapOf(s: State, l: LoopId, r: Req, w: Worker): Snap
    requires Has(s, l, r, w)
  {
    Snap(s.rings[Wq], s.rings[LoopWq(l)], if s.loops[l].draining then s.rings[Drain(l)] else [], s.loops[l], s.reqs[r],
         s.workers[w], s.idle)
  }

  lemma FirstSnap(s: State, l: LoopId, r: Req, w: Worker)
    requires Initial(s) && l in s.loops && r in s.reqs && w in s.workers
    ensures RunOf([s], []) && Has(s, l, r, w) && Guard(s, Submit(l, r, NoWake)) && !s.exiting
    ensures SnapOf(s, l, r, w) == Snap([], [], [], Loop(false, NoCancel), s.reqs[r], Start, 0)
  {
  }

  lemma SubmitSnap(s: State, t: State, l: LoopId, r: Req, w: Worker)
    requires Has(s, l, r, w) && Does(s, Submit(l, r, NoWake), t) && !s.exiting && SnapOf(s, l, r, w).queue == []
    ensures Has(t, l, r, w)
    ensures SnapOf(t, l, r, w) ==
            SnapOf(s, l, r, w).(queue := [Item(r)],
                                req := Request(UserWork, l, true, Queued, 0, 0, false, false, false))
  {
  }

  lemma TestSnap(s: State, t: State, l: LoopId, r: Req, w: Worker)
    requires Has(s, l, r, w) && Does(s, CancelTest(l, r), t) && MayCancel(s, l, r)
    requires SnapOf(s, l, r, w).queue == [Item(r)] && SnapOf(s, l, r, w).list == [] && !SnapOf(s, l, r, w).loop.draining
    ensures Has(t, l, r, w) && SnapOf(t, l, r, w).loop == SnapOf(s, l, r, w).loop.(cancel := Removed(r))
    ensures SnapOf(t, l, r, w).req == SnapOf(s, l, r, w).req.(place := InCancel(l)) && SnapOf(t, l, r, w).list == []
  {
  }

  lemma MarkSnap(s: State, t: State, l: LoopId, r: Req, w: Worker)
    requires Has(s, l, r, w) && Does(s, CancelMark(l), t) && SnapOf(s, l, r, w).loop.cancel == Removed(r)
    ensures Has(t, l, r, w)
    ensures SnapOf(t, l, r, w) ==
            SnapOf(s, l, r, w).(loop := SnapOf(s, l, r, w).loop.(cancel := Marked(r)),
                                req := SnapOf(s, l, r, w).req.(work := CancelledWork))
  {
  }

  lemma InsertSnap(s: State, t: State, l: LoopId, r: Req, w: Worker)
    requires Has(s, l, r, w) && Does(s, CancelInsert(l), t) && SnapOf(s, l, r, w).loop.cancel == Marked(r)
    ensures Has(t, l, r, w)
    ensures SnapOf(t, l, r, w) ==
            SnapOf(s, l, r, w).(loop := SnapOf(s, l, r, w).loop.(cancel := NoCancel),
                                req := SnapOf(s, l, r, w).req.(place := Finished(l), promised := true),
                                list := SnapOf(s, l, r, w).list + [Item(r)])
  {
  }

  lemma DrainSnap(s: State, t: State, l: LoopId, r: Req, w: Worker)
    requires Has(s, l, r, w) && Does(s, DrainBegin(l), t)
    ensures Has(t, l, r, w)
    ensures SnapOf(t, l, r, w) ==
            SnapOf(s, l, r, w).(loop := SnapOf(s, l, r, w).loop.(draining := true), list := [],
                                drain := SnapOf(s, l, r, w).list)
  {
  }

  lemma DoneSnap(s: State, t: State, l: LoopId, r: Req, w: Worker)
    requires Has(s, l, r, w) && Does(s, DrainNext(l), t)
    requires SnapOf(s, l, r, w).drain == [Item(r)] && SnapOf(s, l, r, w).loop.draining
    ensures Has(t, l, r, w)
    ensures var q := SnapOf(s, l, r, w).req;
            SnapOf(t, l, r, w) ==
            SnapOf(s, l, r, w).(drain := [],
                                req := q.(place := Nowhere, dones := q.dones + 1, ecanceled := q.work == CancelledWork))
  {
  }

  lemma EndSnap(s: State, t: State, l: LoopId, r: Req, w: Worker)
    requires Has(s, l, r, w) && Does(s, DrainNext(l), t)
    requires SnapOf(s, l, r, w).drain == [] && SnapOf(s, l, r, w).loop.draining
    ensures Has(t, l, r, w)
    ensures SnapOf(t, l, r, w) == SnapOf(s, l, r, w).(loop := SnapOf(s, l, r, w).loop.(draining := false))
  {
  }

  lemma TakeSnap(s: State, t: State, l: LoopId, r: Req, w: Worker)
    requires Has(s, l, r, w) && Does(s, Enter(w, NoWake), t)
    requires SnapOf(s, l, r, w).queue == [Item(r)] && SnapOf(s, l, r, w).worker == Start
    ensures Has(t, l, r, w)
    ensures SnapOf(t, l, r, w) ==
            SnapOf(s, l, r, w).(queue := [], worker := Running(r), req := SnapOf(s, l, r, w).req.(place := AtWorker(w)))
  {
  }

  lemma RunSnap(s: State, t: State, l: LoopId, r: Req, w: Worker)
    requires Has(s, l, r, w) && Does(s, Run(w), t) && SnapOf(s, l, r, w).worker == Running(r)
    ensures Has(t, l, r, w)
    ensures SnapOf(t, l, r, w) ==
            SnapOf(s, l, r, w).(worker := Ran(r), req := SnapOf(s, l, r, w).req.(ran := SnapOf(s, l, r, w).req.ran + 1))
  {
  }

  lemma FinishSnap(s: State, t: State, l: LoopId, r: Req, w: Worker)
    requires Has(s, l, r, w) && Does(s, Finish(w), t)
    requires SnapOf(s, l, r, w).worker == Ran(r) && SnapOf(s, l, r, w).req.loop == l
    ensures Has(t, l, r, w)
    ensures SnapOf(t, l, r, w) ==
            SnapOf(s, l, r, w).(worker := Start, list := SnapOf(s, l, r, w).list + [Item(r)],
                                req := SnapOf(s, l, r, w).req.(work := NoWork, place := Finished(l)))
  {
  }

  /** The steps that the loop and the worker may take next. */
  lemma SnapGuards(s: State, l: LoopId, r: Req, w: Worker)
    requires Inv(s) && Has(s, l, r, w)
    ensures var x := SnapOf(s, l, r, w);
            && (x.loop.cancel.Removed? ==> Guard(s, CancelMark(l)))
              && (x.loop.cancel.Marked? ==> Guard(s, CancelInsert(l)))
            && (x.loop == Loop(false, NoCancel) ==> Guard(s, DrainBegin(l)))
            && (x.loop == Loop(true, NoCancel) ==> Guard(s, DrainNext(l)))
            && (x.loop.cancel == NoCancel && x.req.loop == l && x.req.place == Queued ==>
                  Guard(s, CancelTest(l, r)) && MayCancel(s, l, r))
            && (x.worker == Start && x.queue == [Item(r)] ==> Guard(s, Enter(w, NoWake)))
            && (x.worker.Running? ==> Guard(s, Run(w))) && (x.worker.Ran? ==> Guard(s, Finish(w)))
  {
    HeadNode(s, Wq);
  }

  /** A request that is submitted and cancelled before a worker takes it is answered with UV_ECANCELED and never run. */
  lemma CancelledRun(s: State, l: LoopId, r: Req, w: Worker) returns (ss: seq<State>, steps: seq<Step>)
    requires Initial(s) && l in s.loops && r in s.reqs && w in s.workers
    ensures RunOf(ss, steps) && ss[0] == s && |ss| == 7
    ensures steps == [Submit(l, r, NoWake), CancelTest(l, r), CancelMark(l), CancelInsert(l), DrainBegin(l),
                      DrainNext(l)]
    ensures r in ss[6].reqs
    ensures var q := ss[6].reqs[r]; q.place == Nowhere && q.dones == 1 && q.ecanceled && q.promised && q.ran == 0
  {
    hide RunOf, Inv, Initial, Does, Guard, Has, SnapOf, MayCancel;
    FirstSnap(s, l, r, w);
    var s1 := Extend([s], [], Submit(l, r, NoWake));
    ss, steps := [s] + [s1], [] + [Submit(l, r, NoWake)];
    SubmitSnap(s, s1, l, r, w);
    SnapGuards(s1, l, r, w);
    var s2 := Extend(ss, steps, CancelTest(l, r));
    ss, steps := ss + [s2], steps + [CancelTest(l, r)];
    TestSnap(s1, s2, l, r, w);
    SnapGuards(s2, l, r, w);
    var s3 := Extend(ss, steps, CancelMark(l));
    ss, steps := ss + [s3], steps + [CancelMark(l)];
    MarkSnap(s2, s3, l, r, w);
    SnapGuards(s3, l, r, w);
    var s4 := Extend(ss, steps, CancelInsert(l));
    ss, steps := ss + [s4], steps + [CancelInsert(l)];
    InsertSnap(s3, s4, l, r, w);
    SnapReq(s4, l, r, w);
    ss, steps := DoneRun(ss, steps, l, r, w);
  }

  /** A loop with one finished request answers it. */
  lemma DoneRun(ss: seq<State>, steps: seq<Step>, l: LoopId, r: Req, w: Worker)
    returns (ss': seq<State>, steps': seq<Step>)
    requires RunOf(ss, steps) && Has(ss[|steps|], l, r, w) && Inv(ss[|steps|])
    requires var x := SnapOf(ss[|steps|], l, r, w); x.list == [Item(r)] && x.loop == Loop(false, NoCancel)
    ensures RunOf(ss', steps') && |ss'| == |ss| + 2 && ss <= ss' && steps' == steps + [DrainBegin(l), DrainNext(l)]
    ensures r in ss'[|steps'|].reqs
    ensures var q := ss[|steps|].reqs[r];
            ss'[|steps'|].reqs[r] == q.(place := Nowhere, dones := q.dones + 1, ecanceled := q.work == CancelledWork)
  {
    hide RunOf, Inv, Does, Guard, Has, SnapOf;
    RunLength(ss, steps);
    var s := ss[|steps|];
    SnapGuards(s, l, r, w);
    var s5 := Extend(ss, steps, DrainBegin(l));
    ss', steps' := ss + [s5], steps + [DrainBegin(l)];
    DrainSnap(s, s5, l, r, w);
    SnapGuards(s5, l, r, w);
    var s6 := Extend(ss', steps', DrainNext(l));
    ss', steps' := ss' + [s6], steps' + [DrainNext(l)];
    DoneSnap(s5, s6, l, r, w);
    SnapReq(s, l, r, w);
    SnapReq(s6, l, r, w);
  }

  lemma SnapReq(s: State, l: LoopId, r: Req, w: Worker)
    requires Has(s, l, r, w)
    ensures r in s.reqs && s.reqs[r] == SnapOf(s, l, r, w).req
  {
  }

  lemma RunLength(ss: seq<State>, steps: seq<Step>)
    requires RunOf(ss, steps)
    ensures |ss| == |steps| + 1
  {
  }

  /** A request that a worker takes is run once and answered with status 0. */
  lemma CompletedRun(s: State, l: LoopId, r: Req, w: Worker) returns (ss: seq<State>, steps: seq<Step>)
    requires Initial(s) && l in s.loops && r in s.reqs && w in s.workers
    ensures RunOf(ss, steps) && ss[0] == s && |ss| == 7
    ensures steps == [Submit(l, r, NoWake), Enter(w, NoWake), Run(w), Finish(w), DrainBegin(l), DrainNext(l)]
    ensures r in ss[6].reqs
    ensures var q := ss[6].reqs[r]; q.place == Nowhere && q.dones == 1 && !q.ecanceled && q.ran == 1
  {
    hide RunOf, Inv, Initial, Does, Guard, Has, SnapOf, MayCancel;
    FirstSnap(s, l, r, w);
    var s1 := Extend([s], [], Submit(l, r, NoWake));
    ss, steps := [s] + [s1], [] + [Submit(l, r, NoWake)];
    SubmitSnap(s, s1, l, r, w);
    SnapGuards(s1, l, r, w);
    var s2 := Extend(ss, steps, Enter(w, NoWake));
    ss, steps := ss + [s2], steps + [Enter(w, NoWake)];
    TakeSnap(s1, s2, l, r, w);
    SnapGuards(s2, l, r, w);
    var s3 := Extend(ss, steps, Run(w));
    ss, steps := ss + [s3], steps + [Run(w)];
    RunSnap(s2, s3, l, r, w);
    SnapGuards(s3, l, r, w);
    var s4 := Extend(ss, steps, Finish(w));
    ss, steps := ss + [s4], steps + [Finish(w)];
    FinishSnap(s3, s4, l, r, w);
    SnapReq(s4, l, r, w);
    ss, steps := DoneRun(ss, steps, l, r, w);
  }
}
