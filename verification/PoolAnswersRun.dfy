/** A run of pool and loops from the submission of a request to its answer. */
module PoolAnswersRun {
  import ThreadPool
  import Async
  import PoolSteps
  import AsyncSteps
  import opened PoolAnswers

  type Req = ThreadPool.Req
  type Worker = ThreadPool.Worker

  /** What a state shows of one loop, one request and one worker. */
  datatype Snap = Snap(pool: PoolSteps.Snap, io: AsyncSteps.Snap, hold: Hold, due: bool)

  ghost predicate Shows(s: State, l: LoopId, r: Req, w: Worker, n: Snap) {
    && PoolSteps.Has(s.pool, l, r, w) && PoolSteps.SnapOf(s.pool, l, r, w) == n.pool
    && l in s.io && AsyncSteps.Shows(s.io[l], WORK, w + 1, n.io)
    && l in s.hold && s.hold[l] == n.hold && (l in s.due <==> n.due)
  }

  ghost predicate Goes(s: State, step: Step, t: State) {
    Guard(s, step) && Safe(s, step) && t == Apply(s, step)
  }

  /** The steps lead from `s` to `t`. */
  ghost predicate Path(s: State, steps: seq<Step>, t: State) {
    if steps == [] then t == s
    else
      var front, last := steps[..|steps| - 1], steps[|steps| - 1];
      exists m :: Path(s, front, m) && Goes(m, last, t)
  }

  lemma PathOn(s: State, steps: seq<Step>, m: State, step: Step, t: State)
    requires Path(s, steps, m) && Goes(m, step, t)
    ensures Path(s, steps + [step], t)
  {
    assert (steps + [step])[..|steps|] == steps;
  }

  lemma {:induction false} PathRun(s: State, steps: seq<Step>, t: State) returns (ss: seq<State>)
    requires Initial(s) && Path(s, steps, t)
    ensures RunOf(ss, steps) && ss[0] == s && ss[|steps|] == t
  {
    hide Guard, Safe, Apply, Initial;
    if steps == [] {
      ss := [s];
    } else {
      var n := |steps| - 1;
      var m :| Path(s, steps[..n], m) && Goes(m, steps[n], t);
      var ms := PathRun(s, steps[..n], m);
      ss := ms + [t];
      forall i | 0 <= i < |steps|
        ensures Guard(ss[i], steps[i]) && (Safe(ss[i], steps[i]) ==> ss[i + 1] == Apply(ss[i], steps[i]))
      {
        assert i < n ==> steps[..n][i] == steps[i] && ss[i] == ms[i] && ss[i + 1] == ms[i + 1];
      }
    }
  }

  lemma PoolShows(s: State, p: ThreadPool.Step, t: State, l: LoopId, r: Req, w: Worker, n: Snap, x: PoolSteps.Snap)
    requires Shows(s, l, r, w, n) && Does(s, Pool(p), t)
    requires PoolSteps.Has(t.pool, l, r, w) && PoolSteps.SnapOf(t.pool, l, r, w) == x && !p.CancelInsert?
    requires p.Finish? ==> p.w == w && n.pool.worker == ThreadPool.Ran(r) && n.pool.req.loop == l
    requires p.DrainBegin? ==> p.l == l
    ensures Shows(t, l, r, w, Snap(x, n.io, if p.Finish? then Before(w + 1) else n.hold, n.due && !p.DrainBegin?))
  {
    hide PoolSteps.Does, AsyncSteps.Shows;
    assert HoldDoes(s, Pool(p), t, l);
  }

  lemma IoShows(s: State, a: Async.Step, t: State, l: LoopId, r: Req, w: Worker, n: Snap, x: AsyncSteps.Snap)
    requires Shows(s, l, r, w, n) && Does(s, Io(l, a), t) && AsyncSteps.Shows(t.io[l], WORK, w + 1, x)
    requires n.hold in {Free, Before(w + 1), During(w + 1)}
    ensures Shows(t, l, r, w,
                  Snap(n.pool, x,
                       if n.hold.Free? || !Sends(a, w + 1) then n.hold
                       else if x.sender.Idle? then Free
                       else During(w + 1),
                       n.due || (a.Clear? && x.pc == Async.Calling(WORK))))
  {
    hide AsyncSteps.Does, PoolSteps.Has, PoolSteps.SnapOf;
    assert HoldDoes(s, Io(l, a), t, l);
  }

  lemma PoolGuard(s: State, p: ThreadPool.Step, l: LoopId, r: Req, w: Worker, n: Snap)
    requires Shows(s, l, r, w, n) && ThreadPool.Guard(s.pool, p) && !p.CancelInsert?
    requires p.Finish? ==>
               && p.w == w && n.pool.worker == ThreadPool.Ran(r) && n.pool.req.loop == l
               && n.hold.Free? && n.io.sender.Idle?
    requires p.DrainBegin? ==> p.l == l && n.due && n.hold.Free?
    ensures Guard(s, Pool(p))
  {
    hide ThreadPool.Guard;
  }

  lemma IoGuard(s: State, a: Async.Step, l: LoopId, r: Req, w: Worker, n: Snap)
    requires Shows(s, l, r, w, n) && Async.Guard(s.io[l], a) && !a.InitHandle? && !a.CloseHandle?
    requires a.SendRead? ==> a.h == WORK
    requires a.Return? ==> !n.due && !n.pool.loop.draining
    ensures Guard(s, Io(l, a))
  {
    hide Async.Guard, AsyncSteps.Shows;
  }

  /** One step of the pool. */
  lemma PoolGoes(s: State, p: ThreadPool.Step, l: LoopId, r: Req, w: Worker, n: Snap) returns (t: State)
    requires Inv(s) && Shows(s, l, r, w, n) && ThreadPool.Guard(s.pool, p) && !p.CancelInsert?
    requires p.Finish? ==>
               && p.w == w && n.pool.worker == ThreadPool.Ran(r) && n.pool.req.loop == l
               && n.hold.Free? && n.io.sender.Idle?
    requires p.DrainBegin? ==> p.l == l && n.due && n.hold.Free?
    ensures Goes(s, Pool(p), t) && Inv(t) && Does(s, Pool(p), t)
    ensures PoolSteps.Does(s.pool, p, t.pool) && PoolSteps.Has(s.pool, l, r, w)
    ensures PoolSteps.SnapOf(s.pool, l, r, w) == n.pool
  {
    hide ThreadPool.Guard, Guard, Safe, Apply, PoolSteps.Does, HoldDoes, AsyncSteps.Does, AsyncSteps.Shows, Inv;
    PoolGuard(s, p, l, r, w, n);
    StepDoes(s, Pool(p));
    t := Apply(s, Pool(p));
  }

  lemma IoGoes(s: State, a: Async.Step, l: LoopId, r: Req, w: Worker, n: Snap) returns (t: State)
    requires Inv(s) && Shows(s, l, r, w, n) && Async.Guard(s.io[l], a) && !a.InitHandle? && !a.CloseHandle?
    requires a.SendRead? ==> a.h == WORK
    requires a.Return? ==> !n.due && !n.pool.loop.draining
    ensures Goes(s, Io(l, a), t) && Inv(t) && Does(s, Io(l, a), t) && l in s.io && l in t.io
    ensures AsyncSteps.Does(s.io[l], a, t.io[l]) && AsyncSteps.Shows(s.io[l], WORK, w + 1, n.io)
  {
    hide Async.Guard, Guard, Safe, Apply, PoolSteps.Does, HoldDoes, AsyncSteps.Does, AsyncSteps.Shows, Inv;
    IoGuard(s, a, l, r, w, n);
    StepDoes(s, Io(l, a));
    t := Apply(s, Io(l, a));
  }

  lemma Looks(s: State, l: LoopId, r: Req, w: Worker, n: Snap)
    requires Inv(s) && Shows(s, l, r, w, n)
    ensures ThreadPool.Inv(s.pool) && PoolSteps.Has(s.pool, l, r, w) && PoolSteps.SnapOf(s.pool, l, r, w) == n.pool
    ensures l in s.io && AsyncSteps.Shows(s.io[l], WORK, w + 1, n.io)
  {
  }

  /** The steps that are open, for the pool and for the loop. */
  lemma Opens(s: State, l: LoopId, r: Req, w: Worker, n: Snap)
    requires Inv(s) && Shows(s, l, r, w, n)
    ensures l in s.io
    ensures var x := n.pool;
            && (x.loop.cancel == ThreadPool.NoCancel ==>
                  if x.loop.draining then ThreadPool.Guard(s.pool, ThreadPool.DrainNext(l))
                  else ThreadPool.Guard(s.pool, ThreadPool.DrainBegin(l)))
            && (x.worker == ThreadPool.Start && x.queue == [ThreadPool.Item(r)] ==>
                  ThreadPool.Guard(s.pool, ThreadPool.Enter(w, ThreadPool.NoWake)))
            && (x.worker.Running? ==> ThreadPool.Guard(s.pool, ThreadPool.Run(w)))
            && (x.worker.Ran? ==> ThreadPool.Guard(s.pool, ThreadPool.Finish(w)))
    ensures var x := n.io;
            && (x.sender == Async.Idle && x.x.open ==> Async.Guard(s.io[l], Async.SendRead(w + 1, WORK)))
            && (x.sender.Cas? ==> Async.Guard(s.io[l], Async.SendCas(w + 1)))
            && (x.sender.Write? ==> Async.Guard(s.io[l], Async.SendWrite(w + 1, false)))
            && (x.pc.Polling? && x.tokens > 0 ==> Async.Guard(s.io[l], Async.Poll))
            && (x.pc.Reading? ==> Async.Guard(s.io[l], Async.Read))
            && (x.pc.Moving? ==> Async.Guard(s.io[l], Async.MoveAll))
            && (x.pc.Draining? ==> Async.Guard(s.io[l], Async.Next))
            && (x.pc.Clearing? ==> Async.Guard(s.io[l], Async.Clear))
            && (x.pc.Calling? ==> Async.Guard(s.io[l], Async.Return))
  {
    hide Inv, ThreadPool.Guard, Async.Guard, ThreadPool.Inv, PoolSteps.Has, PoolSteps.SnapOf, AsyncSteps.Shows;
    Looks(s, l, r, w, n);
    PoolSteps.SnapGuards(s.pool, l, r, w);
    AsyncSteps.ShowsGuard(s.io[l], WORK, w + 1, n.io);
  }

  // ---------- The run ----------

  ghost function Wait(): AsyncSteps.Snap {
    AsyncSteps.Snap(AsyncSteps.Fresh(), Async.Idle, Async.Polling, 0, [Async.Item(WORK)], [])
  }

  ghost function Idle(): ThreadPool.Loop {
    ThreadPool.Loop(false, ThreadPool.NoCancel)
  }

  /** A request that was submitted to `l`, ran `n` times and is at `place`. */
  ghost function Request(l: LoopId, work: ThreadPool.Work, place: ThreadPool.Place, n: nat): ThreadPool.Request {
    ThreadPool.Request(work, l, true, place, n, 0, false, false, false)
  }

  lemma FirstShows(s: State, l: LoopId, r: Req, w: Worker)
    requires Initial(s) && l in s.io && r in s.pool.reqs && w in s.pool.workers
    ensures Inv(s) && ThreadPool.Guard(s.pool, ThreadPool.Submit(l, r, ThreadPool.NoWake)) && !s.pool.exiting
    ensures Shows(s, l, r, w,
                  Snap(PoolSteps.Snap([], [], [], Idle(), s.pool.reqs[r], ThreadPool.Start, 0), Wait(), Free, false))
  {
    InitialInv(s);
    PoolSteps.FirstSnap(s.pool, l, r, w);
    ReadyShows(s.io[l], w + 1);
  }

  lemma ReadyShows(io: Async.State, t: Async.Sender)
    requires Ready(io) && t in io.senders
    ensures AsyncSteps.Shows(io, WORK, t, Wait())
  {
    hide Rings.InsertTail;
  }

  /** The request is submitted, taken, run and handed over. */
  lemma Works(s: State, l: LoopId, r: Req, w: Worker) returns (t: State, steps: seq<Step>)
    requires Initial(s) && l in s.io && r in s.pool.reqs && w in s.pool.workers
    ensures steps == [Pool(ThreadPool.Submit(l, r, ThreadPool.NoWake)), Pool(ThreadPool.Enter(w, ThreadPool.NoWake)),
                      Pool(ThreadPool.Run(w)), Pool(ThreadPool.Finish(w))]
    ensures Path(s, steps, t) && Inv(t)
    ensures Shows(t, l, r, w,
                  Snap(PoolSteps.Snap([], [ThreadPool.Item(r)], [], Idle(),
                                      Request(l, ThreadPool.NoWork, ThreadPool.Finished(l), 1), ThreadPool.Start, 0),
                       Wait(), Before(w + 1), false))
  {
    hide Inv, Initial, Goes, Path, Does, PoolSteps.Does, PoolSteps.Has, PoolSteps.SnapOf, ThreadPool.Guard, Shows,
         Async.Guard;
    var item := ThreadPool.Item(r);
    FirstShows(s, l, r, w);
    var x := PoolSteps.Snap([], [], [], Idle(), s.pool.reqs[r], ThreadPool.Start, 0);
    var p1 := ThreadPool.Submit(l, r, ThreadPool.NoWake);
    var s1 := PoolGoes(s, p1, l, r, w, Snap(x, Wait(), Free, false));
    PoolSteps.SubmitSnap(s.pool, s1.pool, l, r, w);
    var x1 := x.(queue := [item], req := Request(l, ThreadPool.UserWork, ThreadPool.Queued, 0));
    PoolShows(s, p1, s1, l, r, w, Snap(x, Wait(), Free, false), x1);
    PathStart(s, Pool(p1), s1);
    Opens(s1, l, r, w, Snap(x1, Wait(), Free, false));
    var p2 := ThreadPool.Enter(w, ThreadPool.NoWake);
    var s2 := PoolGoes(s1, p2, l, r, w, Snap(x1, Wait(), Free, false));
    PoolSteps.TakeSnap(s1.pool, s2.pool, l, r, w);
    var x2 := x1.(queue := [], worker := ThreadPool.Running(r), req := x1.req.(place := ThreadPool.AtWorker(w)));
    PoolShows(s1, p2, s2, l, r, w, Snap(x1, Wait(), Free, false), x2);
    PathOn(s, [Pool(p1)], s1, Pool(p2), s2);
    Opens(s2, l, r, w, Snap(x2, Wait(), Free, false));
    var p3 := ThreadPool.Run(w);
    var s3 := PoolGoes(s2, p3, l, r, w, Snap(x2, Wait(), Free, false));
    PoolSteps.RunSnap(s2.pool, s3.pool, l, r, w);
    var x3 := x2.(worker := ThreadPool.Ran(r), req := x2.req.(ran := 1));
    PoolShows(s2, p3, s3, l, r, w, Snap(x2, Wait(), Free, false), x3);
    PathOn(s, [Pool(p1)] + [Pool(p2)], s2, Pool(p3), s3);
    Opens(s3, l, r, w, Snap(x3, Wait(), Free, false));
    var p4 := ThreadPool.Finish(w);
    t := PoolGoes(s3, p4, l, r, w, Snap(x3, Wait(), Free, false));
    PoolSteps.FinishSnap(s3.pool, t.pool, l, r, w);
    var x4 := x3.(worker := ThreadPool.Start, list := [item],
                  req := x3.req.(work := ThreadPool.NoWork, place := ThreadPool.Finished(l)));
    PoolShows(s3, p4, t, l, r, w, Snap(x3, Wait(), Free, false), x4);
    PathOn(s, [Pool(p1)] + [Pool(p2)] + [Pool(p3)], s3, Pool(p4), t);
    steps := [Pool(p1)] + [Pool(p2)] + [Pool(p3)] + [Pool(p4)];
  }

  /** One step of the loop, after the steps `front`. */
  lemma IoOn(s0: State, front: seq<Step>, s: State, a: Async.Step, l: LoopId, r: Req, w: Worker, n: Snap)
    returns (t: State)
    requires Path(s0, front, s) && Inv(s) && Shows(s, l, r, w, n) && Async.Guard(s.io[l], a)
    requires !a.InitHandle? && !a.CloseHandle? && (a.SendRead? ==> a.h == WORK)
    requires a.Return? ==> !n.due && !n.pool.loop.draining
    ensures Path(s0, front + [Io(l, a)], t) && Inv(t) && Does(s, Io(l, a), t) && l in s.io && l in t.io
    ensures AsyncSteps.Does(s.io[l], a, t.io[l]) && AsyncSteps.Shows(s.io[l], WORK, w + 1, n.io)
  {
    hide Inv, Goes, Path, Does, Async.Guard, AsyncSteps.Does, AsyncSteps.Shows, PoolSteps.Has, PoolSteps.SnapOf;
    t := IoGoes(s, a, l, r, w, n);
    PathOn(s0, front, s, Io(l, a), t);
  }

  ghost function Sent(sender: Async.SenderPc, pc: Async.LoopPc, tokens: nat): AsyncSteps.Snap {
    AsyncSteps.Snap(AsyncSteps.Sent(), sender, pc, tokens, [Async.Item(WORK)], [])
  }

  /** The worker sends, and gives wq_mutex back. */
  lemma SendsFrom(s0: State, front: seq<Step>, s: State, l: LoopId, r: Req, w: Worker, x: PoolSteps.Snap)
    returns (t: State, steps: seq<Step>)
    requires Path(s0, front, s) && Inv(s) && Shows(s, l, r, w, Snap(x, Wait(), Before(w + 1), false))
    ensures steps == front + [Io(l, Async.SendRead(w + 1, WORK)), Io(l, Async.SendCas(w + 1)),
                              Io(l, Async.SendWrite(w + 1, false))]
    ensures Path(s0, steps, t) && Inv(t)
    ensures Shows(t, l, r, w, Snap(x, Sent(Async.Idle, Async.Polling, 1), Free, false))
  {
    hide Inv, Goes, Path, Does, PoolSteps.Does, PoolSteps.Has, PoolSteps.SnapOf, ThreadPool.Guard, Shows, Async.Guard,
         AsyncSteps.Does, AsyncSteps.Shows;
    var main := [Async.Item(WORK)];
    var m1 := Wait().(sender := Async.Cas(WORK));
    Opens(s, l, r, w, Snap(x, Wait(), Before(w + 1), false));
    var s1 := IoOn(s0, front, s, Async.SendRead(w + 1, WORK), l, r, w, Snap(x, Wait(), Before(w + 1), false));
    AsyncSteps.SendsShow(s.io[l], s1.io[l], WORK, w + 1, main);
    IoShows(s, Async.SendRead(w + 1, WORK), s1, l, r, w, Snap(x, Wait(), Before(w + 1), false), m1);
    steps := front + [Io(l, Async.SendRead(w + 1, WORK))];
    Opens(s1, l, r, w, Snap(x, m1, During(w + 1), false));
    var s2 := IoOn(s0, steps, s1, Async.SendCas(w + 1), l, r, w, Snap(x, m1, During(w + 1), false));
    AsyncSteps.SendsShow(s1.io[l], s2.io[l], WORK, w + 1, main);
    var m2 := Sent(Async.Write(WORK), Async.Polling, 0);
    IoShows(s1, Async.SendCas(w + 1), s2, l, r, w, Snap(x, m1, During(w + 1), false), m2);
    steps := steps + [Io(l, Async.SendCas(w + 1))];
    Opens(s2, l, r, w, Snap(x, m2, During(w + 1), false));
    t := IoOn(s0, steps, s2, Async.SendWrite(w + 1, false), l, r, w, Snap(x, m2, During(w + 1), false));
    AsyncSteps.SendsShow(s2.io[l], t.io[l], WORK, w + 1, main);
    IoShows(s2, Async.SendWrite(w + 1, false), t, l, r, w, Snap(x, m2, During(w + 1), false),
            Sent(Async.Idle, Async.Polling, 1));
    steps := steps + [Io(l, Async.SendWrite(w + 1, false))];
  }

  ghost function Called(pc: Async.LoopPc): AsyncSteps.Snap {
    AsyncSteps.Snap(AsyncSteps.Called(), Async.Idle, pc, 0, [Async.Item(WORK)], [])
  }

  /** The loop wakes up and calls uv__work_done. */
  lemma Wakes(s0: State, front: seq<Step>, s: State, l: LoopId, r: Req, w: Worker, x: PoolSteps.Snap)
    returns (t: State, steps: seq<Step>)
    requires Path(s0, front, s) && Inv(s)
    requires Shows(s, l, r, w, Snap(x, Sent(Async.Idle, Async.Polling, 1), Free, false))
    ensures steps == front + [Io(l, Async.Poll), Io(l, Async.Read), Io(l, Async.MoveAll), Io(l, Async.Next),
                              Io(l, Async.Clear)]
    ensures Path(s0, steps, t) && Inv(t) && Shows(t, l, r, w, Snap(x, Called(Async.Calling(WORK)), Free, true))
  {
    hide Inv, Goes, Path, Does, PoolSteps.Does, PoolSteps.Has, PoolSteps.SnapOf, ThreadPool.Guard, Shows, Async.Guard,
         AsyncSteps.Does, AsyncSteps.Shows;
    var main := [Async.Item(WORK)];
    var m := Sent(Async.Idle, Async.Polling, 1);
    Opens(s, l, r, w, Snap(x, m, Free, false));
    var s1 := IoOn(s0, front, s, Async.Poll, l, r, w, Snap(x, m, Free, false));
    AsyncSteps.ReadsShow(s.io[l], s1.io[l], WORK, w + 1, main);
    var m1 := Sent(Async.Idle, Async.Reading, 1);
    IoShows(s, Async.Poll, s1, l, r, w, Snap(x, m, Free, false), m1);
    steps := front + [Io(l, Async.Poll)];
    Opens(s1, l, r, w, Snap(x, m1, Free, false));
    var s2 := IoOn(s0, steps, s1, Async.Read, l, r, w, Snap(x, m1, Free, false));
    AsyncSteps.ReadsShow(s1.io[l], s2.io[l], WORK, w + 1, main);
    var m2 := Sent(Async.Idle, Async.Moving, 0);
    IoShows(s1, Async.Read, s2, l, r, w, Snap(x, m1, Free, false), m2);
    steps := steps + [Io(l, Async.Read)];
    Opens(s2, l, r, w, Snap(x, m2, Free, false));
    var s3 := IoOn(s0, steps, s2, Async.MoveAll, l, r, w, Snap(x, m2, Free, false));
    AsyncSteps.MoveShows(s2.io[l], s3.io[l], WORK, w + 1, main);
    var m3 := m2.(pc := Async.Draining, main := [], local := main);
    IoShows(s2, Async.MoveAll, s3, l, r, w, Snap(x, m2, Free, false), m3);
    steps := steps + [Io(l, Async.MoveAll)];
    Opens(s3, l, r, w, Snap(x, m3, Free, false));
    var s4 := IoOn(s0, steps, s3, Async.Next, l, r, w, Snap(x, m3, Free, false));
    AsyncSteps.TakeShows(s3.io[l], s4.io[l], WORK, w + 1);
    var m4 := Sent(Async.Idle, Async.Clearing(WORK), 0);
    IoShows(s3, Async.Next, s4, l, r, w, Snap(x, m3, Free, false), m4);
    steps := steps + [Io(l, Async.Next)];
    Opens(s4, l, r, w, Snap(x, m4, Free, false));
    t := IoOn(s0, steps, s4, Async.Clear, l, r, w, Snap(x, m4, Free, false));
    AsyncSteps.ClearShows(s4.io[l], t.io[l], WORK, w + 1);
    IoShows(s4, Async.Clear, t, l, r, w, Snap(x, m4, Free, false), Called(Async.Calling(WORK)));
    steps := steps + [Io(l, Async.Clear)];
  }

  lemma PoolOn(s0: State, front: seq<Step>, s: State, p: ThreadPool.Step, l: LoopId, r: Req, w: Worker, n: Snap)
    returns (t: State)
    requires Path(s0, front, s) && Inv(s) && Shows(s, l, r, w, n) && ThreadPool.Guard(s.pool, p)
    requires (p.DrainBegin? && p.l == l && n.due && n.hold.Free?) || p.DrainNext?
    ensures Path(s0, front + [Pool(p)], t) && Inv(t) && Does(s, Pool(p), t) && PoolSteps.Does(s.pool, p, t.pool)
    ensures PoolSteps.Has(s.pool, l, r, w) && PoolSteps.SnapOf(s.pool, l, r, w) == n.pool
  {
    hide Inv, Goes, Path, Does, ThreadPool.Guard, PoolSteps.Does, PoolSteps.Has, PoolSteps.SnapOf, AsyncSteps.Shows;
    t := PoolGoes(s, p, l, r, w, n);
    PathOn(s0, front, s, Pool(p), t);
  }

  /** uv__work_done moves the list, calls done and ends. */
  lemma Answers(s0: State, front: seq<Step>, s: State, l: LoopId, r: Req, w: Worker, x: PoolSteps.Snap)
    returns (t: State, steps: seq<Step>)
    requires Path(s0, front, s) && Inv(s) && Shows(s, l, r, w, Snap(x, Called(Async.Calling(WORK)), Free, true))
    requires x.list == [ThreadPool.Item(r)] && x.drain == [] && x.loop == Idle()
    ensures steps == front + [Pool(ThreadPool.DrainBegin(l)), Pool(ThreadPool.DrainNext(l)),
                              Pool(ThreadPool.DrainNext(l))]
    ensures Path(s0, steps, t) && Inv(t)
    ensures var q := x.req.(place := ThreadPool.Nowhere, dones := x.req.dones + 1,
                            ecanceled := x.req.work == ThreadPool.CancelledWork);
            Shows(t, l, r, w, Snap(x.(list := [], req := q), Called(Async.Calling(WORK)), Free, false))
  {
    hide Inv, Goes, Path, Does, PoolSteps.Does, PoolSteps.Has, PoolSteps.SnapOf, ThreadPool.Guard, Shows, Async.Guard,
         AsyncSteps.Does, AsyncSteps.Shows;
    var m := Called(Async.Calling(WORK));
    Opens(s, l, r, w, Snap(x, m, Free, true));
    var s1 := PoolOn(s0, front, s, ThreadPool.DrainBegin(l), l, r, w, Snap(x, m, Free, true));
    PoolSteps.DrainSnap(s.pool, s1.pool, l, r, w);
    var x1 := x.(loop := x.loop.(draining := true), list := [], drain := [ThreadPool.Item(r)]);
    PoolShows(s, ThreadPool.DrainBegin(l), s1, l, r, w, Snap(x, m, Free, true), x1);
    steps := front + [Pool(ThreadPool.DrainBegin(l))];
    Opens(s1, l, r, w, Snap(x1, m, Free, false));
    var s2 := PoolOn(s0, steps, s1, ThreadPool.DrainNext(l), l, r, w, Snap(x1, m, Free, false));
    PoolSteps.DoneSnap(s1.pool, s2.pool, l, r, w);
    var q := x.req.(place := ThreadPool.Nowhere, dones := x.req.dones + 1,
                    ecanceled := x.req.work == ThreadPool.CancelledWork);
    var x2 := x1.(drain := [], req := q);
    PoolShows(s1, ThreadPool.DrainNext(l), s2, l, r, w, Snap(x1, m, Free, false), x2);
    steps := steps + [Pool(ThreadPool.DrainNext(l))];
    Opens(s2, l, r, w, Snap(x2, m, Free, false));
    t := PoolOn(s0, steps, s2, ThreadPool.DrainNext(l), l, r, w, Snap(x2, m, Free, false));
    PoolSteps.EndSnap(s2.pool, t.pool, l, r, w);
    PoolShows(s2, ThreadPool.DrainNext(l), t, l, r, w, Snap(x2, m, Free, false), x2.(loop := Idle()));
    steps := steps + [Pool(ThreadPool.DrainNext(l))];
  }

  /** The callback returns, and the loop goes back to poll. */
  lemma Returns(s0: State, front: seq<Step>, s: State, l: LoopId, r: Req, w: Worker, x: PoolSteps.Snap)
    returns (t: State, steps: seq<Step>)
    requires Path(s0, front, s) && Inv(s) && Shows(s, l, r, w, Snap(x, Called(Async.Calling(WORK)), Free, false))
    requires x.loop == Idle()
    ensures steps == front + [Io(l, Async.Return), Io(l, Async.Next)]
    ensures Path(s0, steps, t) && Inv(t) && Shows(t, l, r, w, Snap(x, Called(Async.Polling), Free, false))
  {
    hide Inv, Goes, Path, Does, PoolSteps.Does, PoolSteps.Has, PoolSteps.SnapOf, ThreadPool.Guard, Shows, Async.Guard,
         AsyncSteps.Does, AsyncSteps.Shows;
    Opens(s, l, r, w, Snap(x, Called(Async.Calling(WORK)), Free, false));
    var s1 := IoOn(s0, front, s, Async.Return, l, r, w, Snap(x, Called(Async.Calling(WORK)), Free, false));
    AsyncSteps.ReturnShows(s.io[l], s1.io[l], WORK, w + 1);
    IoShows(s, Async.Return, s1, l, r, w, Snap(x, Called(Async.Calling(WORK)), Free, false), Called(Async.Draining));
    steps := front + [Io(l, Async.Return)];
    Opens(s1, l, r, w, Snap(x, Called(Async.Draining), Free, false));
    t := IoOn(s0, steps, s1, Async.Next, l, r, w, Snap(x, Called(Async.Draining), Free, false));
    AsyncSteps.EndShows(s1.io[l], t.io[l], WORK, w + 1);
    IoShows(s1, Async.Next, t, l, r, w, Snap(x, Called(Async.Draining), Free, false), Called(Async.Polling));
    steps := steps + [Io(l, Async.Next)];
  }

  /** From every initial state, for every loop, request and worker: a run in which the request is submitted, run by the
      worker, announced to the loop through wq_async and answered with status 0, and the loop is back in poll. */
  lemma AnsweredRun(s: State, l: LoopId, r: Req, w: Worker) returns (ss: seq<State>, steps: seq<Step>)
    requires Initial(s) && l in s.io && r in s.pool.reqs && w in s.pool.workers
    ensures RunOf(ss, steps) && ss[0] == s && |steps| == 17
    ensures var t := ss[17];
            && r in t.pool.reqs && l in t.io && t.io[l].pc.Polling? && t.io[l].tokens == 0
            && t.pool.reqs[r].dones == 1 && !t.pool.reqs[r].ecanceled && t.pool.reqs[r].ran == 1
  {
    hide Inv, Initial, Goes, Path, Shows;
    var x := PoolSteps.Snap([], [ThreadPool.Item(r)], [], Idle(),
                            Request(l, ThreadPool.NoWork, ThreadPool.Finished(l), 1), ThreadPool.Start, 0);
    var t;
    t, steps := Works(s, l, r, w);
    t, steps := SendsFrom(s, steps, t, l, r, w, x);
    t, steps := Wakes(s, steps, t, l, r, w, x);
    t, steps := Answers(s, steps, t, l, r, w, x);
    var y := x.(list := [], req := x.req.(place := ThreadPool.Nowhere, dones := 1, ecanceled := false));
    t, steps := Returns(s, steps, t, l, r, w, y);
    LastShows(t, l, r, w, y);
    ss := PathRun(s, steps, t);
  }

  lemma LastShows(t: State, l: LoopId, r: Req, w: Worker, x: PoolSteps.Snap)
    requires Shows(t, l, r, w, Snap(x, Called(Async.Polling), Free, false))
    ensures r in t.pool.reqs && l in t.io && t.io[l].pc.Polling? && t.io[l].tokens == 0 && t.pool.reqs[r] == x.req
  {
  }

  lemma PathStart(s: State, step: Step, t: State)
    requires Goes(s, step, t)
    ensures Path(s, [step], t)
  {
    assert Path(s, [], s);
    assert [step][..0] == [];
  }
}
