/** The thread pool of libs/libuv/threadpool.c as a step system. Each step is one critical section
    of the source, or one access between two of them; any thread may take the next step. */
module ThreadPool {
  import opened Rings

  type Req = nat
  type Worker = nat
  type LoopId = nat

  /** The list nodes: the pool's queue head, the exit message, the two heads of a loop (loop->wq and
      the local head in uv__work_done) and the node inside a work request. */
  datatype Node = Wq | Exit | LoopWq(l: LoopId) | Drain(l: LoopId) | Item(r: Req)

  /** The field w->work: NULL, the user's function, or uv__cancelled. */
  datatype Work = NoWork | UserWork | CancelledWork

  datatype WorkerPc =
    | Start                // about to lock the mutex
    | Waiting              // in uv_cond_wait, not signalled
    | Woken                // in uv_cond_wait, signalled, about to get the mutex back
    | Running(r: Req)      // has taken a request, about to call its work function
    | Ran(r: Req)          // the work function has returned
    | Exited

  /** Where a call of uv__work_cancel stands that has decided to cancel. */
  datatype CancelPc =
    | NoCancel
    | Removed(r: Req)      // both mutexes released, w->work not yet written
    | Marked(r: Req)       // w->work == uv__cancelled, not yet in loop->wq

  datatype Loop = Loop(draining: bool, cancel: CancelPc)

  /** History: where the request is. */
  datatype Place = Nowhere | Queued | AtWorker(w: Worker) | InCancel(l: LoopId) | Finished(l: LoopId)

  /** The fields of a request, and its history since it was last submitted: how often its work
      function ran and its done function was called, with which status (true: UV_ECANCELED),
      and whether a cancel has returned 0. `late` says that it was posted after the exit message. */
  datatype Request = Request(
    work: Work, loop: LoopId,
    submitted: bool, place: Place, ran: nat, dones: nat, ecanceled: bool, promised: bool, late: bool)

  /** The shared memory and the program counters; `rings` is history: the lists that `links` holds. */
  datatype State = State(
    links: Links<Node>, reqs: map<Req, Request>, workers: map<Worker, WorkerPc>, loops: map<LoopId, Loop>,
    idle: int, exiting: bool, rings: map<Node, seq<Node>>)

  // ---------- Steps ----------

  /** The waiting worker that a uv_cond_signal wakes, if there is one. */
  datatype Wake = NoWake | Wake(w: Worker)

  datatype Step =
    | Submit(l: LoopId, r: Req, wake: Wake)
    | PostExit(wake: Wake)
    | Enter(w: Worker, wake: Wake)
    | Run(w: Worker)
    | Finish(w: Worker)
    | CancelTest(l: LoopId, r: Req)
    | CancelMark(l: LoopId)
    | CancelInsert(l: LoopId)
    | DrainBegin(l: LoopId)
    | DrainNext(l: LoopId)
    | Spurious(w: Worker)

  ghost predicate SignalOk(ws: map<Worker, WorkerPc>, wake: Wake) {
    match wake
    case Wake(w) => w in ws && ws[w] == Waiting
    case NoWake => forall w :: w in ws ==> ws[w] != Waiting
  }

  function Signalled(ws: map<Worker, WorkerPc>, wake: Wake): map<Worker, WorkerPc> {
    if wake.Wake? then ws[wake.w := Woken] else ws
  }

  ghost predicate CanInsert(m: Links<Node>, h: Node, q: Node) {
    h in m && q in m && q != h && m[h].prev in m
  }

  ghost predicate CanRemove(m: Links<Node>, q: Node) {
    q in m && m[q].next in m && m[q].prev in m
  }

  /** post() signals when idle_threads > 0. */
  ghost predicate PostOk(s: State, wake: Wake) {
    if s.idle > 0 then SignalOk(s.workers, wake) else wake == NoWake
  }

  /** A loop thread is between two steps of its own: in no cancel call. */
  ghost predicate AtRest(s: State, l: LoopId) {
    l in s.loops && s.loops[l].cancel == NoCancel
  }

  /** The condition that uv__work_cancel evaluates under both mutexes. */
  ghost predicate CancelCondition(s: State, r: Req)
    requires r in s.reqs && Item(r) in s.links
  {
    !Empty(s.links, Item(r)) && s.reqs[r].work != NoWork
  }

  /** When a thread may take a step, by its program counter and the callers' obligations: a request is
      submitted by its loop while it is not in flight, and cancelled by its loop while it is. */
  ghost predicate Guard(s: State, step: Step) {
    match step
    case Submit(l, r, wake) => AtRest(s, l) && r in s.reqs && s.reqs[r].place == Nowhere && PostOk(s, wake)
    case PostExit(wake) => !s.exiting && PostOk(s, wake)
    case Enter(w, wake) =>
      && w in s.workers && (s.workers[w] == Start || s.workers[w] == Woken) && Wq in s.links
      && (if s.links[Wq].next == Exit then SignalOk(s.workers, wake) else wake == NoWake)
    case Run(w) => w in s.workers && s.workers[w].Running?
    case Finish(w) => w in s.workers && s.workers[w].Ran?
    case CancelTest(l, r) => AtRest(s, l) && r in s.reqs && s.reqs[r].loop == l && s.reqs[r].place != Nowhere
    case CancelMark(l) => l in s.loops && s.loops[l].cancel.Removed?
    case CancelInsert(l) => l in s.loops && s.loops[l].cancel.Marked?
    case DrainBegin(l) => AtRest(s, l) && !s.loops[l].draining
    case DrainNext(l) => AtRest(s, l) && s.loops[l].draining
    case Spurious(w) => w in s.workers && s.workers[w] == Waiting
  }

  /** The pointers that the step follows are valid. */
  ghost predicate Safe(s: State, step: Step)
    requires Guard(s, step)
  {
    match step
    case Submit(_, r, _) => CanPost(s, Item(r))
    case PostExit(_) => CanPost(s, Exit)
    case Enter(w, _) => s.links[Wq].next in {Wq, Exit} || CanTake(s, Wq)
    case Run(w) => s.workers[w].r in s.reqs
    case Finish(w) => CanFinish(s, s.workers[w].r)
    case CancelTest(_, r) => CanRemove(s.links, Item(r))
    case CancelMark(l) => s.loops[l].cancel.r in s.reqs
    case CancelInsert(l) => CanAnswer(s, l, s.loops[l].cancel.r)
    case DrainBegin(l) => CanDrain(s, l)
    case DrainNext(l) => Drain(l) in s.links && (s.links[Drain(l)].next == Drain(l) || CanTake(s, Drain(l)))
    case Spurious(_) => true
  }

  ghost function Apply(s: State, step: Step): State
    requires Guard(s, step) && Safe(s, step)
  {
    match step
    case Submit(l, r, wake) => Submitted(s, l, r, wake)
    case PostExit(wake) => ExitPosted(s, wake)
    case Enter(w, wake) =>
      var s1 := if s.workers[w] == Woken then s.(idle := s.idle - 1) else s;
      if s.links[Wq].next == Wq then s1.(idle := s1.idle + 1, workers := s.workers[w := Waiting])
      else if s.links[Wq].next == Exit then s1.(workers := Signalled(s.workers, wake)[w := Exited])
      else Taken(s1, w)
    case Run(w) => WorkRan(s, w)
    case Finish(w) => WorkFinished(s, w)
    case CancelTest(l, r) => if CancelCondition(s, r) then CancelRemoved(s, l, r) else s
    case CancelMark(l) => CancelMarked(s, l)
    case CancelInsert(l) => CancelAnswered(s, l)
    case DrainBegin(l) => DrainBegun(s, l)
    case DrainNext(l) => if s.links[Drain(l)].next == Drain(l) then DrainEnded(s, l) else DoneCalled(s, l)
    case Spurious(w) => s.(workers := s.workers[w := Woken])
  }

  ghost predicate CanPost(s: State, q: Node) {
    CanInsert(s.links, Wq, q) && Wq in s.rings
  }

  /** uv__work_submit: the fields of the request, and post(). */
  ghost function Submitted(s: State, l: LoopId, r: Req, wake: Wake): State
    requires CanPost(s, Item(r))
  {
    s.(reqs := s.reqs[r := Request(UserWork, l, true, Queued, 0, 0, false, false, s.exiting)],
       links := InsertTail(s.links, Wq, Item(r)), rings := s.rings[Wq := s.rings[Wq] + [Item(r)]],
       workers := Signalled(s.workers, wake))
  }

  ghost function ExitPosted(s: State, wake: Wake): State
    requires CanPost(s, Exit)
  {
    s.(exiting := true, links := InsertTail(s.links, Wq, Exit), rings := s.rings[Wq := s.rings[Wq] + [Exit]],
       workers := Signalled(s.workers, wake))
  }

  ghost predicate CanTake(s: State, h: Node) {
    && h in s.links && s.links[h].next.Item?
    && s.links[h].next.r in s.reqs && CanRemove(s.links, s.links[h].next)
  }

  /** The worker takes the head of the queue and marks it as running. */
  ghost function Taken(s: State, w: Worker): State
    requires CanTake(s, Wq)
  {
    var q := s.links[Wq].next;
    s.(links := Init(Remove(s.links, q), q), rings := Without(s.rings, q),
       workers := s.workers[w := Running(q.r)], reqs := s.reqs[q.r := s.reqs[q.r].(place := AtWorker(w))])
  }

  ghost function WorkRan(s: State, w: Worker): State
    requires w in s.workers && s.workers[w].Running? && s.workers[w].r in s.reqs
  {
    var r := s.workers[w].r;
    s.(workers := s.workers[w := Ran(r)], reqs := s.reqs[r := s.reqs[r].(ran := s.reqs[r].ran + 1)])
  }

  ghost predicate CanFinish(s: State, r: Req) {
    r in s.reqs && CanInsert(s.links, LoopWq(s.reqs[r].loop), Item(r)) && LoopWq(s.reqs[r].loop) in s.rings
  }

  ghost function WorkFinished(s: State, w: Worker): State
    requires w in s.workers && s.workers[w].Ran? && CanFinish(s, s.workers[w].r)
  {
    var r := s.workers[w].r;
    var h := LoopWq(s.reqs[r].loop);
    s.(workers := s.workers[w := Start],
       reqs := s.reqs[r := s.reqs[r].(work := NoWork, place := Finished(s.reqs[r].loop))],
       links := InsertTail(s.links, h, Item(r)), rings := s.rings[h := s.rings[h] + [Item(r)]])
  }

  ghost function CancelRemoved(s: State, l: LoopId, r: Req): State
    requires l in s.loops && r in s.reqs && CanRemove(s.links, Item(r))
  {
    s.(links := Remove(s.links, Item(r)), rings := Without(s.rings, Item(r)),
       reqs := s.reqs[r := s.reqs[r].(place := InCancel(l))],
       loops := s.loops[l := s.loops[l].(cancel := Removed(r))])
  }

  ghost function CancelMarked(s: State, l: LoopId): State
    requires l in s.loops && s.loops[l].cancel.Removed? && s.loops[l].cancel.r in s.reqs
  {
    var r := s.loops[l].cancel.r;
    s.(reqs := s.reqs[r := s.reqs[r].(work := CancelledWork)], loops := s.loops[l := s.loops[l].(cancel := Marked(r))])
  }

  ghost predicate CanAnswer(s: State, l: LoopId, r: Req) {
    r in s.reqs && LoopWq(l) in s.rings && CanInsert(s.links, LoopWq(l), Item(r))
  }

  /** uv__work_cancel returns 0. */
  ghost function CancelAnswered(s: State, l: LoopId): State
    requires l in s.loops && s.loops[l].cancel.Marked? && CanAnswer(s, l, s.loops[l].cancel.r)
  {
    var r := s.loops[l].cancel.r;
    s.(reqs := s.reqs[r := s.reqs[r].(place := Finished(l), promised := true)],
       loops := s.loops[l := s.loops[l].(cancel := NoCancel)],
       links := InsertTail(s.links, LoopWq(l), Item(r)), rings := s.rings[LoopWq(l) := s.rings[LoopWq(l)] + [Item(r)]])
  }

  ghost predicate CanDrain(s: State, l: LoopId) {
    var m, h := s.links, LoopWq(l);
    && h in s.rings && h in m && Drain(l) in m
    && (!Empty(m, h) ==> m[h].next in m && m[h].next != Drain(l) && m[h].prev in m && m[m[h].next].prev in m)
  }

  ghost function DrainBegun(s: State, l: LoopId): State
    requires l in s.loops && CanDrain(s, l)
  {
    s.(loops := s.loops[l := s.loops[l].(draining := true)],
       links := Move(s.links, LoopWq(l), Drain(l)),
       rings := s.rings[LoopWq(l) := []][Drain(l) := s.rings[LoopWq(l)]])
  }

  ghost function DrainEnded(s: State, l: LoopId): State
    requires l in s.loops
  {
    s.(loops := s.loops[l := s.loops[l].(draining := false)], rings := s.rings - {Drain(l)})
  }

  /** uv__work_done takes the next request off its list and calls done with the status of w->work. */
  ghost function DoneCalled(s: State, l: LoopId): State
    requires CanTake(s, Drain(l))
  {
    var q := s.links[Drain(l)].next;
    var w := s.reqs[q.r];
    s.(links := Remove(s.links, q), rings := Without(s.rings, q),
       reqs := s.reqs[q.r := w.(place := Nowhere, dones := w.dones + 1, ecanceled := w.work == CancelledWork)])
  }

  // ---------- Invariant ----------

  ghost predicate Domains(s: State) {
    && Wq in s.links && Exit in s.links && Wq in s.rings
    && (forall l :: l in s.loops ==> LoopWq(l) in s.links && Drain(l) in s.links && LoopWq(l) in s.rings)
    && (forall l :: l in s.loops ==> (Drain(l) in s.rings <==> s.loops[l].draining))
    && (forall r :: r in s.reqs ==> Item(r) in s.links)
    && (forall h :: h in s.rings ==> h == Wq || ((h.LoopWq? || h.Drain?) && h.l in s.loops))
  }

  /** What may be found in which list. */
  ghost predicate Fits(s: State, h: Node, x: Node) {
    match h
    case Wq => (x == Exit && s.exiting) || (x.Item? && x.r in s.reqs && s.reqs[x.r].place == Queued)
    case LoopWq(l) => x.Item? && x.r in s.reqs && s.reqs[x.r].place == Finished(l)
    case Drain(l) => x.Item? && x.r in s.reqs && s.reqs[x.r].place == Finished(l)
    case _ => false
  }

  ghost predicate Contents(s: State)
    requires Wq in s.rings
  {
    && (forall h, x {:trigger Fits(s, h, x)} :: h in s.rings && x in s.rings[h] ==> Fits(s, h, x))
    && (s.exiting ==> Exit in s.rings[Wq])
  }

  /** A request is linked, run and answered as its place says. */
  ghost predicate RequestOk(s: State, r: Req)
    requires r in s.reqs && Domains(s)
  {
    var q, x := s.reqs[r], Item(r);
    && (q.place != Nowhere ==> q.submitted && q.dones == 0 && q.loop in s.loops)
    && match q.place
       case Nowhere => if q.submitted then Answered(q) else q.dones == 0
       case Queued => x in s.rings[Wq] && q.work == UserWork && q.ran == 0 && !q.promised
       case AtWorker(w) =>
         && w in s.workers && s.workers[w] == (if q.ran == 0 then Running(r) else Ran(r)) && q.ran <= 1
         && s.links[x] == Link(x, x) && q.work == UserWork && !q.promised
       case InCancel(l) =>
         && l == q.loop && q.ran == 0
         && ((s.loops[l].cancel == Removed(r) && q.work != NoWork && (q.promised ==> q.work == CancelledWork))
             || (s.loops[l].cancel == Marked(r) && q.work == CancelledWork))
       case Finished(l) =>
         && l == q.loop && (x in s.rings[LoopWq(l)] || (s.loops[l].draining && x in s.rings[Drain(l)]))
         && ((q.work == NoWork && q.ran == 1 && !q.promised) || (q.work == CancelledWork && q.ran == 0))
  }

  /** The outcome of a request: done is called once; without an error the work ran once, with
      UV_ECANCELED it never ran, and a cancel that returned 0 means UV_ECANCELED. */
  ghost predicate Answered(q: Request) {
    q.dones == 1 && q.ran == (if q.ecanceled then 0 else 1) && (q.promised ==> q.ecanceled)
  }

  ghost predicate Threads(s: State) {
    && (forall w :: w in s.workers && (s.workers[w].Running? || s.workers[w].Ran?) ==>
          s.workers[w].r in s.reqs && s.reqs[s.workers[w].r].place == AtWorker(w))
    && (forall l :: l in s.loops && s.loops[l].cancel != NoCancel ==>
          s.loops[l].cancel.r in s.reqs && s.reqs[s.loops[l].cancel.r].place == InCancel(l))
  }

  ghost predicate ListsOk(s: State) {
    Domains(s) && AllRings(s.links, s.rings) && Contents(s) && Threads(s)
  }

  ghost predicate RequestsOk(s: State)
    requires Domains(s)
  {
    forall r {:trigger RequestOk(s, r)} :: r in s.reqs ==> RequestOk(s, r)
  }

  ghost predicate Inv(s: State) {
    ListsOk(s) && RequestsOk(s)
  }

  // ---------- Every step keeps the invariant ----------

  lemma FreeNode(s: State, x: Node)
    requires Inv(s)
    requires (x.Item? && x.r in s.reqs && !s.reqs[x.r].place.Queued? && !s.reqs[x.r].place.Finished?)
             || (x == Exit && !s.exiting)
    ensures Free(s.rings, x)
  {
    hide AllRings, RequestsOk, Threads;
    forall h | h in s.rings ensures x !in Members(h, s.rings[h]) {
      assert x in s.rings[h] ==> Fits(s, h, x);
    }
  }

  /** Where the place of a request says that it is. */
  ghost predicate Located(s: State, r: Req)
    requires r in s.reqs && Domains(s)
  {
    var q, x := s.reqs[r], Item(r);
    && (q.place != Nowhere ==> q.loop in s.loops)
    && match q.place
       case Nowhere => true
       case Queued => x in s.rings[Wq]
       case AtWorker(w) => w in s.workers && s.workers[w] in {Running(r), Ran(r)} && Free(s.rings, x)
       case InCancel(l) => l in s.loops && s.loops[l].cancel in {Removed(r), Marked(r)}
       case Finished(l) => l in s.loops && (x in s.rings[LoopWq(l)] || (s.loops[l].draining && x in s.rings[Drain(l)]))
  }

  lemma Locate(s: State, r: Req)
    requires Inv(s) && r in s.reqs
    ensures RequestOk(s, r) && Located(s, r)
  {
    assert RequestOk(s, r);
    if s.reqs[r].place.AtWorker? {
      FreeNode(s, Item(r));
    }
  }

  /** Request `r` is where it was, with the same fields. */
  ghost predicate Undisturbed(s: State, t: State, r: Req)
    requires Domains(s) && Domains(t) && r in s.reqs && r in t.reqs && Located(s, r)
  {
    var q, x := s.reqs[r], Item(r);
    && t.reqs[r] == q && (q.place != Nowhere ==> q.loop in t.loops)
    && match q.place
       case Nowhere => true
       case Queued => x in t.rings[Wq]
       case AtWorker(w) => w in t.workers && t.workers[w] == s.workers[w] && t.links[x] == s.links[x]
       case InCancel(l) => l in t.loops && t.loops[l].cancel == s.loops[l].cancel
       case Finished(l) =>
         l in t.loops && (x in t.rings[LoopWq(l)] || (t.loops[l].draining && x in t.rings[Drain(l)]))
  }

  lemma Carry(s: State, t: State, r: Req)
    requires Domains(s) && Domains(t) && r in s.reqs && r in t.reqs
    requires RequestOk(s, r) && Located(s, r) && Undisturbed(s, t, r)
    ensures RequestOk(t, r)
  {
  }

  lemma HeadNode(s: State, h: Node)
    requires AllRings(s.links, s.rings) && h in s.rings
    ensures h in s.links && (s.links[h].next == h <==> s.rings[h] == [])
    ensures s.rings[h] != [] ==> s.links[h].next == s.rings[h][0] && s.links[h].next in s.rings[h]
  {
    EmptyRing(s.links, h, s.rings[h]);
  }

  lemma SubmitRings(s: State, l: LoopId, r: Req, wake: Wake)
    requires Inv(s) && Guard(s, Submit(l, r, wake))
    ensures CanPost(s, Item(r))
    ensures var t := Submitted(s, l, r, wake); AllRings(t.links, t.rings) && PutIn(s.links, s.rings, t.links, Item(r))
  {
    FreeNode(s, Item(r));
    hide AllRings, Free, InsertTail, PutIn, RequestsOk, Contents, Threads;
    AllInsertTail(s.links, s.rings, Wq, Item(r));
  }

  lemma SubmitContents(s: State, l: LoopId, r: Req, wake: Wake)
    requires Inv(s) && Guard(s, Submit(l, r, wake))
    ensures CanPost(s, Item(r)) && Domains(Submitted(s, l, r, wake)) && Contents(Submitted(s, l, r, wake))
  {
    hide AllRings, Free, InsertTail, RequestsOk, Threads;
    SubmitRings(s, l, r, wake);
    FreeNode(s, Item(r));
    var t := Submitted(s, l, r, wake);
    forall h, y | h in t.rings && y in t.rings[h] ensures Fits(t, h, y) {
      assert y in s.rings[h] ==> Fits(s, h, y);
    }
  }

  lemma SubmitLists(s: State, l: LoopId, r: Req, wake: Wake)
    requires Inv(s) && Guard(s, Submit(l, r, wake))
    ensures CanPost(s, Item(r)) && ListsOk(Submitted(s, l, r, wake))
  {
    hide AllRings, Free, InsertTail, RequestsOk, Contents;
    SubmitRings(s, l, r, wake);
    SubmitContents(s, l, r, wake);
    FreeNode(s, Item(r));
  }

  lemma SubmitRequest(s: State, l: LoopId, r: Req, wake: Wake)
    requires Inv(s) && Guard(s, Submit(l, r, wake))
    ensures CanPost(s, Item(r)) && Domains(Submitted(s, l, r, wake)) && RequestOk(Submitted(s, l, r, wake), r)
  {
    hide AllRings, Free, InsertTail, Contents, Threads;
    SubmitContents(s, l, r, wake);
    FreeNode(s, Item(r));
  }

  lemma SubmitKeeps(s: State, l: LoopId, r: Req, wake: Wake)
    requires Inv(s) && Guard(s, Submit(l, r, wake))
    ensures CanPost(s, Item(r)) && Inv(Submitted(s, l, r, wake))
  {
    hide AllRings, Free, InsertTail, Contents, Threads, RequestOk;
    SubmitRings(s, l, r, wake);
    SubmitLists(s, l, r, wake);
    SubmitRequest(s, l, r, wake);
    var t := Submitted(s, l, r, wake);
    forall k | k in t.reqs && k != r ensures RequestOk(t, k) {
      Locate(s, k);
      Carry(s, t, k);
    }
  }

  lemma PostExitRings(s: State, wake: Wake)
    requires Inv(s) && Guard(s, PostExit(wake))
    ensures CanPost(s, Exit)
    ensures var t := ExitPosted(s, wake); AllRings(t.links, t.rings) && PutIn(s.links, s.rings, t.links, Exit)
  {
    FreeNode(s, Exit);
    hide AllRings, Free, InsertTail, PutIn, RequestsOk, Contents, Threads;
    AllInsertTail(s.links, s.rings, Wq, Exit);
  }

  lemma PostExitContents(s: State, wake: Wake)
    requires Inv(s) && Guard(s, PostExit(wake))
    ensures CanPost(s, Exit) && Domains(ExitPosted(s, wake)) && Contents(ExitPosted(s, wake))
  {
    hide AllRings, Free, InsertTail, RequestsOk, Threads;
    PostExitRings(s, wake);
    FreeNode(s, Exit);
    var t := ExitPosted(s, wake);
    forall h, y | h in t.rings && y in t.rings[h] ensures Fits(t, h, y) {
      assert y in s.rings[h] ==> Fits(s, h, y);
    }
  }

  lemma PostExitLists(s: State, wake: Wake)
    requires Inv(s) && Guard(s, PostExit(wake))
    ensures CanPost(s, Exit) && ListsOk(ExitPosted(s, wake))
  {
    hide AllRings, Free, InsertTail, RequestsOk, Contents;
    PostExitRings(s, wake);
    PostExitContents(s, wake);
    FreeNode(s, Exit);
  }

  lemma PostExitKeeps(s: State, wake: Wake)
    requires Inv(s) && Guard(s, PostExit(wake))
    ensures CanPost(s, Exit) && Inv(ExitPosted(s, wake))
  {
    hide AllRings, Free, InsertTail, Contents, Threads, RequestOk;
    PostExitRings(s, wake);
    PostExitLists(s, wake);
    var t := ExitPosted(s, wake);
    forall k | k in t.reqs ensures RequestOk(t, k) {
      Locate(s, k);
      Carry(s, t, k);
    }
  }

  /** The head of a list of requests. */
  lemma HeadItem(s: State, h: Node)
    requires Inv(s) && h in s.rings && h in s.links && s.links[h].next !in {h, Exit}
    ensures var q := s.links[h].next;
            && q.Item? && q.r in s.reqs && q in s.rings[h]
            && s.reqs[q.r].place == (if h == Wq then Queued else Finished(h.l))
  {
    HeadNode(s, h);
    assert Fits(s, h, s.links[h].next);
  }

  lemma Holder(s: State, w: Worker)
    requires Inv(s) && w in s.workers && (s.workers[w].Running? || s.workers[w].Ran?)
    ensures var r := s.workers[w].r; r in s.reqs && s.reqs[r].place == AtWorker(w) && RequestOk(s, r) && Located(s, r)
  {
    Locate(s, s.workers[w].r);
  }

  lemma TakeRings(s: State, w: Worker)
    requires Inv(s) && Wq in s.links && s.links[Wq].next !in {Wq, Exit}
    ensures CanTake(s, Wq) && AllRings(Taken(s, w).links, Taken(s, w).rings)
    ensures TakenOut(s.links, s.rings, Taken(s, w).links, Taken(s, w).rings, s.links[Wq].next)
    ensures Taken(s, w).links[s.links[Wq].next] == Link(s.links[Wq].next, s.links[Wq].next)
  {
    HeadItem(s, Wq);
    hide AllRings, Free, Remove, Init, Without, TakenOut, RequestsOk, Domains, Contents, Threads;
    AllInit(s.links, s.rings, Wq, s.links[Wq].next);
  }

  lemma TakeContents(s: State, w: Worker)
    requires Inv(s) && Wq in s.links && s.links[Wq].next !in {Wq, Exit}
    ensures CanTake(s, Wq) && Domains(Taken(s, w)) && Contents(Taken(s, w))
  {
    hide AllRings, Free, Remove, Init, Without, RequestsOk, Threads;
    TakeRings(s, w);
    HeadItem(s, Wq);
    var t := Taken(s, w);
    forall h, y | h in t.rings && y in t.rings[h] ensures Fits(t, h, y) {
      assert Fits(s, h, y);
    }
  }

  lemma TakeLists(s: State, w: Worker)
    requires Inv(s) && w in s.workers && s.workers[w] in {Start, Woken} && Wq in s.links
             && s.links[Wq].next !in {Wq, Exit}
    ensures CanTake(s, Wq) && ListsOk(Taken(s, w))
  {
    hide AllRings, Free, Remove, Init, Without, RequestsOk, Contents;
    TakeRings(s, w);
    TakeContents(s, w);
    HeadItem(s, Wq);
  }

  lemma TakeKeeps(s: State, w: Worker)
    requires Inv(s) && w in s.workers && s.workers[w] in {Start, Woken} && Wq in s.links
             && s.links[Wq].next !in {Wq, Exit}
    ensures CanTake(s, Wq) && Inv(Taken(s, w))
  {
    hide AllRings, Free, Remove, Init, Without, Contents, Threads;
    TakeRings(s, w);
    TakeLists(s, w);
    HeadItem(s, Wq);
    var t, r := Taken(s, w), s.links[Wq].next.r;
    Locate(s, r);
    assert RequestOk(t, r);
    forall k | k in t.reqs && k != r ensures RequestOk(t, k) {
      Locate(s, k);
      hide RequestOk;
      Carry(s, t, k);
    }
  }

  lemma RunLists(s: State, w: Worker)
    requires Inv(s) && Guard(s, Run(w))
    ensures s.workers[w].r in s.reqs && ListsOk(WorkRan(s, w))
    ensures forall x :: x in s.links && x != Wq && Free(s.rings, x) ==> WorkRan(s, w).links[x] == s.links[x]
  {
    hide AllRings, Free, InsertTail, Remove, Init, Move, Without, RequestOk;
    Holder(s, w);
    var t := WorkRan(s, w);
    forall h, y | h in t.rings && y in t.rings[h] ensures Fits(t, h, y) {
      assert y in s.rings[h] && Fits(s, h, y);
    }
  }

  lemma RunRequest(s: State, w: Worker)
    requires Inv(s) && Guard(s, Run(w))
    ensures s.workers[w].r in s.reqs && Domains(WorkRan(s, w)) && RequestOk(WorkRan(s, w), s.workers[w].r)
  {
    hide AllRings, Free, InsertTail, Remove, Init, Move, Without, Contents, Threads;
    RunLists(s, w);
    Holder(s, w);
  }

  lemma RunKeeps(s: State, w: Worker)
    requires Inv(s) && Guard(s, Run(w))
    ensures s.workers[w].r in s.reqs && Inv(WorkRan(s, w))
  {
    hide AllRings, Free, InsertTail, Remove, Init, Move, Without, Contents, Threads, RequestOk;
    RunLists(s, w);
    var t := WorkRan(s, w);
    RunRequest(s, w);
    forall k | k in t.reqs && k != s.workers[w].r ensures RequestOk(t, k) {
      Locate(s, k);
      Carry(s, t, k);
    }
  }

  lemma FinishRings(s: State, w: Worker)
    requires Inv(s) && Guard(s, Finish(w))
    ensures CanFinish(s, s.workers[w].r)
    ensures var t := WorkFinished(s, w);
            AllRings(t.links, t.rings) && PutIn(s.links, s.rings, t.links, Item(s.workers[w].r))
  {
    Holder(s, w);
    hide AllRings, Free, InsertTail, PutIn, RequestsOk, Contents, Threads;
    AllInsertTail(s.links, s.rings, LoopWq(s.reqs[s.workers[w].r].loop), Item(s.workers[w].r));
  }

  lemma FinishContents(s: State, w: Worker)
    requires Inv(s) && Guard(s, Finish(w))
    ensures CanFinish(s, s.workers[w].r) && Domains(WorkFinished(s, w)) && Contents(WorkFinished(s, w))
  {
    hide AllRings, Free, InsertTail, RequestsOk, Threads;
    FinishRings(s, w);
    Holder(s, w);
    var t := WorkFinished(s, w);
    forall h, y | h in t.rings && y in t.rings[h] ensures Fits(t, h, y) {
      assert y in s.rings[h] ==> Fits(s, h, y);
    }
  }

  lemma FinishLists(s: State, w: Worker)
    requires Inv(s) && Guard(s, Finish(w))
    ensures CanFinish(s, s.workers[w].r) && ListsOk(WorkFinished(s, w))
  {
    hide AllRings, Free, InsertTail, RequestsOk, Contents;
    FinishRings(s, w);
    FinishContents(s, w);
    Holder(s, w);
  }

  lemma FinishRequest(s: State, w: Worker)
    requires Inv(s) && Guard(s, Finish(w))
    ensures CanFinish(s, s.workers[w].r) && Domains(WorkFinished(s, w)) && RequestOk(WorkFinished(s, w), s.workers[w].r)
  {
    hide AllRings, Free, InsertTail, Contents, Threads;
    FinishContents(s, w);
    Holder(s, w);
  }

  lemma FinishKeeps(s: State, w: Worker)
    requires Inv(s) && Guard(s, Finish(w))
    ensures CanFinish(s, s.workers[w].r) && Inv(WorkFinished(s, w))
  {
    hide AllRings, Free, InsertTail, Contents, Threads, RequestOk;
    FinishRings(s, w);
    FinishLists(s, w);
    FinishRequest(s, w);
    var t := WorkFinished(s, w);
    forall k | k in t.reqs && k != s.workers[w].r ensures RequestOk(t, k) {
      Locate(s, k);
      Carry(s, t, k);
    }
  }

  /** A step of a worker that changes neither lists nor requests. */
  lemma WorkersKeep(s: State, ws: map<Worker, WorkerPc>, idle: int)
    requires Inv(s)
    requires forall w :: w in ws && (ws[w].Running? || ws[w].Ran?) ==> w in s.workers && ws[w] == s.workers[w]
    requires forall w :: w in s.workers && (s.workers[w].Running? || s.workers[w].Ran?) ==>
             w in ws && ws[w] == s.workers[w]
    ensures Inv(s.(workers := ws, idle := idle))
  {
    hide AllRings, Free;
    var t := s.(workers := ws, idle := idle);
    assert Contents(t) by {
      forall h, y | h in t.rings && y in t.rings[h] ensures Fits(t, h, y) {
        assert Fits(s, h, y);
      }
    }
    forall k | k in t.reqs ensures RequestOk(t, k) {
      Locate(s, k);
      hide RequestOk;
      Carry(s, t, k);
    }
  }

  // ---------- Cancel ----------

  /** The condition that uv__work_cancel tests holds exactly for a request that waits in the pool's
      queue, or that has been cancelled before and waits to be answered. */
  lemma CancelDecision(s: State, l: LoopId, r: Req)
    requires Inv(s) && Guard(s, CancelTest(l, r))
    ensures Item(r) in s.links
    ensures CancelCondition(s, r) <==>
              s.reqs[r].place == Queued || (s.reqs[r].place == Finished(l) && s.reqs[r].work == CancelledWork)
    ensures CancelCondition(s, r) ==> exists h :: h in s.rings && Item(r) in s.rings[h]
    ensures CanRemove(s.links, Item(r))
  {
    hide AllRings, Contents;
    Locate(s, r);
    var q, x := s.reqs[r], Item(r);
    if q.place.Queued? || q.place.Finished? {
      var h := if q.place.Queued? then Wq else if x in s.rings[LoopWq(l)] then LoopWq(l) else Drain(l);
      InRing(s, h, x);
    }
  }

  lemma InRing(s: State, h: Node, x: Node)
    requires AllRings(s.links, s.rings) && h in s.rings && x in s.rings[h]
    ensures CanRemove(s.links, x) && !Empty(s.links, x)
  {
    var k :| 0 <= k < |s.rings[h]| && s.rings[h][k] == x;
    assert LinkedAt(s.links, h, s.rings[h], k + 1) && LinkedAt(s.links, h, s.rings[h], k);
    if k + 1 < |s.rings[h]| {
      assert s.rings[h][k + 1] != x;
    }
  }

  lemma CancelRings(s: State, l: LoopId, r: Req)
    requires Inv(s) && Guard(s, CancelTest(l, r)) && Item(r) in s.links && CancelCondition(s, r)
    ensures CanRemove(s.links, Item(r))
    ensures var t := CancelRemoved(s, l, r);
            AllRings(t.links, t.rings) && TakenOut(s.links, s.rings, t.links, t.rings, Item(r))
  {
    CancelDecision(s, l, r);
    hide AllRings, Free, Remove, Without, TakenOut, RequestsOk, Contents, Threads;
    var h :| h in s.rings && Item(r) in s.rings[h];
    AllWithout(s.links, s.rings, h, Item(r));
  }

  lemma CancelContents(s: State, l: LoopId, r: Req)
    requires Inv(s) && Guard(s, CancelTest(l, r)) && Item(r) in s.links && CancelCondition(s, r)
    ensures CanRemove(s.links, Item(r))
    ensures var t := CancelRemoved(s, l, r); Domains(t) && Contents(t)
  {
    hide AllRings, Free, Remove, Without, RequestsOk, Threads;
    CancelRings(s, l, r);
    var t := CancelRemoved(s, l, r);
    forall h, y | h in t.rings && y in t.rings[h] ensures Fits(t, h, y) {
      assert Fits(s, h, y);
    }
  }

  lemma CancelLists(s: State, l: LoopId, r: Req)
    requires Inv(s) && Guard(s, CancelTest(l, r)) && Item(r) in s.links && CancelCondition(s, r)
    ensures CanRemove(s.links, Item(r)) && ListsOk(CancelRemoved(s, l, r))
  {
    hide AllRings, Domains, Contents, Threads, CancelRemoved, CancelCondition, Inv;
    CancelRings(s, l, r);
    CancelContents(s, l, r);
    CancelThreads(s, l, r);
  }

  lemma CancelThreads(s: State, l: LoopId, r: Req)
    requires Inv(s) && Guard(s, CancelTest(l, r)) && Item(r) in s.links && CancelCondition(s, r)
    requires CanRemove(s.links, Item(r))
    ensures Threads(CancelRemoved(s, l, r))
  {
    hide AllRings, Remove, Without, Contents;
    CancelDecision(s, l, r);
    hide RequestsOk;
  }

  lemma CancelKeeps(s: State, l: LoopId, r: Req)
    requires Inv(s) && Guard(s, CancelTest(l, r)) && Item(r) in s.links && CancelCondition(s, r)
    ensures CanRemove(s.links, Item(r)) && Inv(CancelRemoved(s, l, r))
  {
    hide AllRings, Contents, Threads, RequestOk, CancelRemoved, CanRemove, CancelCondition;
    CancelLists(s, l, r);
    CancelledOk(s, l, r);
    var t := CancelRemoved(s, l, r);
    forall k | k in t.reqs && k != r ensures RequestOk(t, k) {
      CancelOther(s, l, r, k);
    }
  }

  lemma CancelledOk(s: State, l: LoopId, r: Req)
    requires Inv(s) && Guard(s, CancelTest(l, r)) && Item(r) in s.links && CancelCondition(s, r)
    requires CanRemove(s.links, Item(r)) && Domains(CancelRemoved(s, l, r))
    ensures RequestOk(CancelRemoved(s, l, r), r)
  {
    hide AllRings, Remove, Without, Contents, Threads, RequestsOk;
    CancelDecision(s, l, r);
    Locate(s, r);
  }

  lemma CancelOther(s: State, l: LoopId, r: Req, k: Req)
    requires Inv(s) && Guard(s, CancelTest(l, r)) && Item(r) in s.links && CancelCondition(s, r)
    requires CanRemove(s.links, Item(r)) && Domains(CancelRemoved(s, l, r))
    requires k in CancelRemoved(s, l, r).reqs && k != r
    ensures RequestOk(CancelRemoved(s, l, r), k)
  {
    hide AllRings, Free, Remove, Without, Contents, Threads, RequestsOk, RequestOk;
    CancelRings(s, l, r);
    Locate(s, k);
    Carry(s, CancelRemoved(s, l, r), k);
  }

  lemma Canceller(s: State, l: LoopId)
    requires Inv(s) && l in s.loops && s.loops[l].cancel != NoCancel
    ensures var r := s.loops[l].cancel.r; r in s.reqs && s.reqs[r].place == InCancel(l) && RequestOk(s, r)
    ensures Free(s.rings, Item(s.loops[l].cancel.r))
  {
    Locate(s, s.loops[l].cancel.r);
    FreeNode(s, Item(s.loops[l].cancel.r));
  }

  lemma ThreadsOf(s: State)
    requires Inv(s)
    ensures Threads(s)
  {
  }

  lemma MarkLists(s: State, l: LoopId)
    requires Inv(s) && Guard(s, CancelMark(l))
    ensures s.loops[l].cancel.r in s.reqs && ListsOk(CancelMarked(s, l))
    ensures forall x :: x in s.links && x != Wq && Free(s.rings, x) ==> CancelMarked(s, l).links[x] == s.links[x]
  {
    hide AllRings, Free, RequestsOk, RequestOk, Threads;
    Canceller(s, l);
    MarkThreads(s, l);
    var t := CancelMarked(s, l);
    forall h, y | h in t.rings && y in t.rings[h] ensures Fits(t, h, y) {
      assert Fits(s, h, y);
    }
  }

  lemma MarkThreads(s: State, l: LoopId)
    requires Inv(s) && Guard(s, CancelMark(l)) && s.loops[l].cancel.r in s.reqs
    ensures Threads(CancelMarked(s, l))
  {
    hide Inv;
    Canceller(s, l);
    ThreadsOf(s);
  }

  lemma MarkRequest(s: State, l: LoopId)
    requires Inv(s) && Guard(s, CancelMark(l))
    ensures s.loops[l].cancel.r in s.reqs && Domains(CancelMarked(s, l))
            && RequestOk(CancelMarked(s, l), s.loops[l].cancel.r)
  {
    hide AllRings, Free, Contents, Threads, RequestsOk, RequestOk, CancelMarked;
    MarkLists(s, l);
    Canceller(s, l);
    MarkedOk(s, l);
  }

  lemma MarkedOk(s: State, l: LoopId)
    requires Domains(s) && Guard(s, CancelMark(l)) && s.loops[l].cancel.r in s.reqs && Domains(CancelMarked(s, l))
    requires RequestOk(s, s.loops[l].cancel.r) && s.reqs[s.loops[l].cancel.r].place == InCancel(l)
    ensures RequestOk(CancelMarked(s, l), s.loops[l].cancel.r)
  {
  }

  lemma MarkKeeps(s: State, l: LoopId)
    requires Inv(s) && Guard(s, CancelMark(l))
    ensures s.loops[l].cancel.r in s.reqs && Inv(CancelMarked(s, l))
  {
    hide AllRings, Contents, Threads, RequestOk, CancelMarked;
    MarkLists(s, l);
    MarkRequest(s, l);
    var t := CancelMarked(s, l);
    forall k | k in t.reqs && k != s.loops[l].cancel.r ensures RequestOk(t, k) {
      MarkOther(s, l, k);
    }
  }

  lemma MarkOther(s: State, l: LoopId, k: Req)
    requires Inv(s) && Guard(s, CancelMark(l)) && s.loops[l].cancel.r in s.reqs && Domains(CancelMarked(s, l))
    requires k in CancelMarked(s, l).reqs && k != s.loops[l].cancel.r
    ensures RequestOk(CancelMarked(s, l), k)
  {
    hide AllRings, Contents, RequestOk, Threads, RequestsOk;
    Locate(s, k);
    Carry(s, CancelMarked(s, l), k);
  }

  lemma AnswerRings(s: State, l: LoopId)
    requires Inv(s) && Guard(s, CancelInsert(l))
    ensures CanAnswer(s, l, s.loops[l].cancel.r)
    ensures var t := CancelAnswered(s, l);
            AllRings(t.links, t.rings) && PutIn(s.links, s.rings, t.links, Item(s.loops[l].cancel.r))
  {
    Canceller(s, l);
    hide AllRings, Free, InsertTail, PutIn, RequestsOk, Contents, Threads;
    AllInsertTail(s.links, s.rings, LoopWq(l), Item(s.loops[l].cancel.r));
  }

  lemma AnswerContents(s: State, l: LoopId)
    requires Inv(s) && Guard(s, CancelInsert(l))
    ensures CanAnswer(s, l, s.loops[l].cancel.r) && Domains(CancelAnswered(s, l)) && Contents(CancelAnswered(s, l))
  {
    hide AllRings, Free, InsertTail, RequestsOk, Threads, Fits;
    AnswerRings(s, l);
    Canceller(s, l);
    var t := CancelAnswered(s, l);
    forall h, y | h in t.rings && y in t.rings[h] ensures Fits(t, h, y) {
      assert y in s.rings[h] ==> Fits(s, h, y);
      AnswerFits(s, l, h, y);
    }
  }

  lemma AnswerFits(s: State, l: LoopId, h: Node, y: Node)
    requires l in s.loops && s.loops[l].cancel.Marked? && CanAnswer(s, l, s.loops[l].cancel.r)
    requires s.reqs[s.loops[l].cancel.r].place == InCancel(l)
    requires Fits(s, h, y) || (h == LoopWq(l) && y == Item(s.loops[l].cancel.r))
    ensures Fits(CancelAnswered(s, l), h, y)
  {
    hide InsertTail;
  }

  lemma AnswerLists(s: State, l: LoopId)
    requires Inv(s) && Guard(s, CancelInsert(l))
    ensures CanAnswer(s, l, s.loops[l].cancel.r) && ListsOk(CancelAnswered(s, l))
  {
    hide AllRings, Domains, Contents, Threads, CancelAnswered, CanAnswer, Inv;
    AnswerRings(s, l);
    AnswerContents(s, l);
    AnswerThreads(s, l);
  }

  lemma AnswerThreads(s: State, l: LoopId)
    requires Inv(s) && Guard(s, CancelInsert(l)) && CanAnswer(s, l, s.loops[l].cancel.r)
    ensures Threads(CancelAnswered(s, l))
  {
    hide Inv, CanAnswer, InsertTail;
    Canceller(s, l);
    ThreadsOf(s);
  }

  lemma AnswerRequest(s: State, l: LoopId)
    requires Inv(s) && Guard(s, CancelInsert(l))
    ensures CanAnswer(s, l, s.loops[l].cancel.r) && Domains(CancelAnswered(s, l))
            && RequestOk(CancelAnswered(s, l), s.loops[l].cancel.r)
  {
    hide AllRings, Free, InsertTail, Contents, Threads;
    AnswerContents(s, l);
    Canceller(s, l);
  }

  lemma AnswerKeeps(s: State, l: LoopId)
    requires Inv(s) && Guard(s, CancelInsert(l))
    ensures CanAnswer(s, l, s.loops[l].cancel.r) && Inv(CancelAnswered(s, l))
  {
    hide AllRings, Free, InsertTail, Contents, Threads, RequestOk;
    AnswerRings(s, l);
    AnswerLists(s, l);
    AnswerRequest(s, l);
    var t := CancelAnswered(s, l);
    forall k | k in t.reqs && k != s.loops[l].cancel.r ensures RequestOk(t, k) {
      Locate(s, k);
      Carry(s, t, k);
    }
  }

  // ---------- Drain ----------

  lemma DrainRings(s: State, l: LoopId)
    requires Inv(s) && Guard(s, DrainBegin(l))
    ensures CanDrain(s, l)
    ensures var t := DrainBegun(s, l); AllRings(t.links, t.rings) && PutIn(s.links, s.rings, t.links, Drain(l))
  {
    hide RequestsOk, Threads, AllRings;
    assert Free(s.rings, Drain(l)) by {
      forall h | h in s.rings ensures Drain(l) !in Members(h, s.rings[h]) {
        assert Drain(l) in s.rings[h] ==> Fits(s, h, Drain(l));
      }
    }
    hide Free, Move, Contents, PutIn;
    AllMove(s.links, s.rings, LoopWq(l), Drain(l));
  }

  lemma DrainContents(s: State, l: LoopId)
    requires Inv(s) && Guard(s, DrainBegin(l))
    ensures CanDrain(s, l) && Domains(DrainBegun(s, l)) && Contents(DrainBegun(s, l))
  {
    hide AllRings, Free, Move, RequestsOk, Threads;
    DrainRings(s, l);
    var t := DrainBegun(s, l);
    forall h, y | h in t.rings && y in t.rings[h] ensures Fits(t, h, y) {
      assert Fits(s, if h == Drain(l) then LoopWq(l) else h, y);
    }
  }

  lemma DrainLists(s: State, l: LoopId)
    requires Inv(s) && Guard(s, DrainBegin(l))
    ensures CanDrain(s, l) && ListsOk(DrainBegun(s, l))
  {
    hide AllRings, Free, Move, Contents, RequestsOk;
    DrainRings(s, l);
    DrainContents(s, l);
  }

  lemma DrainKeeps(s: State, l: LoopId)
    requires Inv(s) && Guard(s, DrainBegin(l))
    ensures CanDrain(s, l) && Inv(DrainBegun(s, l))
  {
    hide AllRings, Contents, RequestOk, Threads, DrainBegun, CanDrain;
    DrainLists(s, l);
    var t := DrainBegun(s, l);
    forall k | k in t.reqs ensures RequestOk(t, k) {
      DrainRequest(s, l, k);
    }
  }

  lemma DrainRequest(s: State, l: LoopId, k: Req)
    requires Inv(s) && Guard(s, DrainBegin(l)) && CanDrain(s, l) && Domains(DrainBegun(s, l))
    requires k in DrainBegun(s, l).reqs
    ensures RequestOk(DrainBegun(s, l), k)
  {
    hide AllRings, Free, Move, Contents, RequestOk, Threads, RequestsOk, Undisturbed;
    Locate(s, k);
    DrainRings(s, l);
    DrainPlace(s, l, k);
    Carry(s, DrainBegun(s, l), k);
  }

  lemma DrainPlace(s: State, l: LoopId, k: Req)
    requires Domains(s) && Guard(s, DrainBegin(l)) && CanDrain(s, l) && Domains(DrainBegun(s, l)) && k in s.reqs
    requires RequestOk(s, k) && Located(s, k)
    requires s.reqs[k].place.AtWorker? ==> DrainBegun(s, l).links[Item(k)] == s.links[Item(k)]
    ensures Undisturbed(s, DrainBegun(s, l), k)
  {
    hide Move;
  }

  lemma DrainEndContents(s: State, l: LoopId)
    requires Inv(s) && Guard(s, DrainNext(l)) && Drain(l) in s.links && s.links[Drain(l)].next == Drain(l)
    ensures Domains(DrainEnded(s, l)) && Contents(DrainEnded(s, l))
  {
    hide AllRings, RequestsOk, Threads;
    var t := DrainEnded(s, l);
    forall h, y | h in t.rings && y in t.rings[h] ensures Fits(t, h, y) {
      assert Fits(s, h, y);
    }
  }

  lemma DrainEndLists(s: State, l: LoopId)
    requires Inv(s) && Guard(s, DrainNext(l)) && Drain(l) in s.links && s.links[Drain(l)].next == Drain(l)
    ensures ListsOk(DrainEnded(s, l)) && s.rings[Drain(l)] == []
  {
    hide AllRings, RequestsOk, Contents;
    HeadNode(s, Drain(l));
    FewerRings(s.links, s.rings, Drain(l));
    DrainEndContents(s, l);
  }

  lemma DrainEndKeeps(s: State, l: LoopId)
    requires Inv(s) && Guard(s, DrainNext(l)) && Drain(l) in s.links && s.links[Drain(l)].next == Drain(l)
    ensures Inv(DrainEnded(s, l))
  {
    hide AllRings, Contents, Threads, Free, RequestOk;
    DrainEndLists(s, l);
    var t := DrainEnded(s, l);
    forall k | k in t.reqs ensures RequestOk(t, k) {
      Locate(s, k);
      Carry(s, t, k);
    }
  }

  lemma DoneRings(s: State, l: LoopId)
    requires Inv(s) && Guard(s, DrainNext(l)) && Drain(l) in s.links && s.links[Drain(l)].next != Drain(l)
    ensures CanTake(s, Drain(l)) && s.reqs[s.links[Drain(l)].next.r].place == Finished(l)
    ensures var t := DoneCalled(s, l);
            AllRings(t.links, t.rings) && TakenOut(s.links, s.rings, t.links, t.rings, s.links[Drain(l)].next)
  {
    NoExit(s, l);
    HeadItem(s, Drain(l));
    hide AllRings, Free, Remove, Without, TakenOut, RequestsOk, Contents, Threads;
    AllWithout(s.links, s.rings, Drain(l), s.links[Drain(l)].next);
  }

  lemma NoExit(s: State, l: LoopId)
    requires Inv(s) && l in s.loops && s.loops[l].draining
    ensures Drain(l) in s.links && s.links[Drain(l)].next != Exit
  {
    hide RequestsOk, Threads;
    HeadNode(s, Drain(l));
    assert Exit in s.rings[Drain(l)] ==> Fits(s, Drain(l), Exit);
  }

  lemma DoneContents(s: State, l: LoopId)
    requires Inv(s) && Guard(s, DrainNext(l)) && Drain(l) in s.links && s.links[Drain(l)].next != Drain(l)
    ensures CanTake(s, Drain(l)) && Domains(DoneCalled(s, l)) && Contents(DoneCalled(s, l))
  {
    hide AllRings, Free, Remove, Without, RequestsOk, Threads;
    DoneRings(s, l);
    var t := DoneCalled(s, l);
    forall h, y | h in t.rings && y in t.rings[h] ensures Fits(t, h, y) {
      assert Fits(s, h, y);
    }
  }

  lemma DoneLists(s: State, l: LoopId)
    requires Inv(s) && Guard(s, DrainNext(l)) && Drain(l) in s.links && s.links[Drain(l)].next != Drain(l)
    ensures CanTake(s, Drain(l)) && ListsOk(DoneCalled(s, l))
  {
    hide AllRings, Free, Remove, Without, RequestsOk, Contents;
    DoneRings(s, l);
    DoneContents(s, l);
  }

  /** The done function gets the status that the history of the request deserves. */
  lemma DoneKeeps(s: State, l: LoopId)
    requires Inv(s) && Guard(s, DrainNext(l)) && Drain(l) in s.links && s.links[Drain(l)].next != Drain(l)
    ensures CanTake(s, Drain(l)) && Inv(DoneCalled(s, l))
    ensures Answered(DoneCalled(s, l).reqs[s.links[Drain(l)].next.r])
  {
    hide AllRings, Free, Remove, Without, Contents, Threads;
    DoneRings(s, l);
    DoneLists(s, l);
    var t, r := DoneCalled(s, l), s.links[Drain(l)].next.r;
    Locate(s, r);
    assert RequestOk(t, r);
    forall k | k in t.reqs && k != r ensures RequestOk(t, k) {
      Locate(s, k);
      hide RequestOk;
      Carry(s, t, k);
    }
  }

  // ---------- Every step, every run ----------

  /** Every pointer that a step follows is valid, and the step keeps the invariant. */
  lemma StepKeeps(s: State, step: Step)
    requires Inv(s) && Guard(s, step)
    ensures Safe(s, step) && Inv(Apply(s, step))
  {
    hide Inv, Submitted, ExitPosted, Taken, WorkRan, WorkFinished, CancelRemoved, CancelMarked, CancelAnswered;
    hide DrainBegun, DrainEnded, DoneCalled;
    match step
    case Submit(l, r, wake) => SubmitKeeps(s, l, r, wake);
    case PostExit(wake) => PostExitKeeps(s, wake);
    case Enter(w, wake) => EnterKeeps(s, w, wake);
    case Run(w) => RunKeeps(s, w);
    case Finish(w) => FinishKeeps(s, w);
    case CancelTest(l, r) =>
      CancelDecision(s, l, r);
      if CancelCondition(s, r) {
        CancelKeeps(s, l, r);
      }
    case CancelMark(l) => MarkKeeps(s, l);
    case CancelInsert(l) => AnswerKeeps(s, l);
    case DrainBegin(l) => DrainKeeps(s, l);
    case DrainNext(l) => DrainNextKeeps(s, l);
    case Spurious(w) => WorkersKeep(s, s.workers[w := Woken], s.idle);
  }

  lemma DrainHead(s: State, l: LoopId)
    requires Inv(s) && l in s.loops
    ensures Drain(l) in s.links
  {
    hide AllRings, Contents, Threads, RequestsOk;
  }

  lemma DrainNextKeeps(s: State, l: LoopId)
    requires Inv(s) && Guard(s, DrainNext(l))
    ensures Safe(s, DrainNext(l)) && Inv(Apply(s, DrainNext(l)))
  {
    hide Inv, DrainEnded, DoneCalled;
    DrainHead(s, l);
    if s.links[Drain(l)].next == Drain(l) {
      DrainEndKeeps(s, l);
    } else {
      DoneKeeps(s, l);
    }
  }

  lemma EnterKeeps(s: State, w: Worker, wake: Wake)
    requires Inv(s) && Guard(s, Enter(w, wake))
    ensures Safe(s, Enter(w, wake)) && Inv(Apply(s, Enter(w, wake)))
  {
    hide Inv, Taken;
    var i := if s.workers[w] == Woken then s.idle - 1 else s.idle;
    WorkersKeep(s, s.workers, i);
    if s.links[Wq].next == Wq {
      WorkersKeep(s, s.workers[w := Waiting], i + 1);
    } else if s.links[Wq].next == Exit {
      WorkersKeep(s, Signalled(s.workers, wake)[w := Exited], i);
    } else {
      TakeKeeps(s.(idle := i), w);
    }
  }

  // ---------- Runs ----------

  ghost predicate Initial(s: State) {
    && Domains(s) && !s.exiting && s.idle == 0
    && (forall h :: h in s.rings ==> s.rings[h] == [] && h in s.links && s.links[h] == Link(h, h))
    && (forall r :: r in s.reqs ==> !s.reqs[r].submitted && s.reqs[r].place == Nowhere && s.reqs[r].dones == 0)
    && (forall w :: w in s.workers ==> s.workers[w] == Start)
    && (forall l :: l in s.loops ==> s.loops[l] == Loop(false, NoCancel))
  }

  ghost predicate Next(s: State, t: State) {
    exists step :: Guard(s, step) && Safe(s, step) && t == Apply(s, step)
  }

  ghost predicate IsRun(run: seq<State>) {
    run != [] && Initial(run[0]) && forall i :: 0 <= i < |run| - 1 ==> Next(run[i], run[i + 1])
  }

  lemma InitialInv(s: State)
    requires Initial(s)
    ensures Inv(s)
  {
    forall h | h in s.rings ensures Ring(s.links, h, s.rings[h]) {
      assert LinkedAt(s.links, h, s.rings[h], 0);
    }
    assert forall h :: h in s.rings ==> Members(h, s.rings[h]) == {h};
  }

  lemma {:induction false} RunInv(run: seq<State>, i: nat)
    requires IsRun(run) && i < |run|
    ensures Inv(run[i])
  {
    if i == 0 {
      InitialInv(run[0]);
    } else {
      RunInv(run, i - 1);
      assert Next(run[i - 1], run[i - 1 + 1]);
      hide Inv, Apply, Safe, Guard;
      var step :| Guard(run[i - 1], step) && Safe(run[i - 1], step) && run[i] == Apply(run[i - 1], step);
      StepKeeps(run[i - 1], step);
    }
  }

  /** In every run, a request is answered at most once; an answer without an error means that its work
      ran once, UV_ECANCELED that it never ran; and a request whose cancel returned 0 has not run. */
  lemma AnsweredOnce(run: seq<State>, i: nat, r: Req)
    requires IsRun(run) && i < |run| && r in run[i].reqs
    ensures var q := run[i].reqs[r];
            && q.dones <= 1 && (q.submitted && q.dones == 1 ==> Answered(q)) && (q.submitted ==> q.ran <= 1)
            && (q.submitted && q.promised ==> q.ran == 0)
  {
    RunInv(run, i);
    Locate(run[i], r);
  }

  /** Nothing is queued, running, being cancelled or waiting to be answered. */
  ghost predicate Drained(s: State) {
    && (forall h :: h in s.rings ==> s.rings[h] == [])
    && (forall w :: w in s.workers ==> !s.workers[w].Running? && !s.workers[w].Ran?)
    && (forall l :: l in s.loops ==> s.loops[l].cancel == NoCancel)
  }

  /** When a run has drained the pool and the loops, every submitted request has been answered. */
  lemma DrainedAnswered(run: seq<State>, i: nat, r: Req)
    requires IsRun(run) && i < |run| && r in run[i].reqs && Drained(run[i]) && run[i].reqs[r].submitted
    ensures run[i].reqs[r].dones == 1 && Answered(run[i].reqs[r])
  {
    RunInv(run, i);
    Locate(run[i], r);
  }

  lemma PromiseStays(s: State, step: Step, r: Req)
    requires Guard(s, step) && Safe(s, step) && r in s.reqs && s.reqs[r].submitted && s.reqs[r].promised
    requires !(step.Submit? && step.r == r)
    ensures var t := Apply(s, step); r in t.reqs && t.reqs[r].submitted && t.reqs[r].promised
  {
    hide InsertTail, Remove, Init, Move, Without, SignalOk, Signalled;
    match step
    case Submit(_, _, _) =>
    case Enter(_, _) =>
    case CancelTest(_, _) =>
    case DrainNext(_) =>
    case _ =>
  }

  lemma PromiseMeans(s: State, r: Req)
    requires Inv(s) && r in s.reqs && s.reqs[r].submitted && s.reqs[r].promised
    ensures s.reqs[r].ran == 0 && (s.reqs[r].dones == 1 ==> s.reqs[r].ecanceled)
  {
    hide AllRings, Contents, Threads;
    Locate(s, r);
  }

  /** One step, which is not the submission of `r`. */
  ghost predicate NextBesides(s: State, t: State, r: Req) {
    exists step :: Guard(s, step) && Safe(s, step) && t == Apply(s, step) && !(step.Submit? && step.r == r)
  }

  /** A cancel that has returned 0 is final: in every later state of the run, until the request is
      submitted again, its work has not run and its answer, if it has one, is UV_ECANCELED; and it has
      that answer as soon as pool and loops have drained. */
  lemma {:induction false} PromiseKept(run: seq<State>, i: nat, j: nat, r: Req)
    requires IsRun(run) && i <= j < |run| && r in run[i].reqs && run[i].reqs[r].submitted && run[i].reqs[r].promised
    requires forall k :: i <= k < j ==> NextBesides(run[k], run[k + 1], r)
    ensures r in run[j].reqs && run[j].reqs[r].submitted
    ensures var q := run[j].reqs[r];
            && q.promised && q.ran == 0 && (q.dones == 1 ==> q.ecanceled)
            && (Drained(run[j]) ==> q.dones == 1 && q.ecanceled)
  {
    hide Inv, Apply, Safe, Guard, Drained, Initial;
    if i < j {
      PromiseKept(run, i, j - 1, r);
      assert NextBesides(run[j - 1], run[j - 1 + 1], r);
      var step :| Guard(run[j - 1], step) && Safe(run[j - 1], step) && run[j] == Apply(run[j - 1], step)
                  && !(step.Submit? && step.r == r);
      PromiseStays(run[j - 1], step, r);
    }
    RunInv(run, j);
    PromiseMeans(run[j], r);
    if Drained(run[j]) {
      DrainedAnswered(run, j, r);
    }
  }
}
