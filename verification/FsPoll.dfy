/** File polling of libs/libuv/fs-poll.c as a step system: the user starts and stops handles, from inside the
    poll callback too, while stat requests complete, timers expire and closed timers are freed. */
module FsPoll {
  import opened Basics

  type Hid = nat
  type Cid = nat

  datatype Time = Time(sec: int, nsec: int)

  /** uv_stat_t. */
  datatype Stat = Stat(
    dev: int, mode: int, nlink: int, uid: int, gid: int, rdev: int, ino: int, size: int, blksize: int, blocks: int,
    flags: int, gen: int, atim: Time, mtim: Time, ctim: Time, birthtim: Time)

  const ZeroTime := Time(0, 0)
  const ZeroStat := Stat(0, 0, 0, 0, 0, 0, 0, 0, 0, 0, 0, 0, ZeroTime, ZeroTime, ZeroTime, ZeroTime)

  function StatEq(a: Stat, b: Stat): bool {
    && a.ctim.nsec == b.ctim.nsec && a.mtim.nsec == b.mtim.nsec && a.birthtim.nsec == b.birthtim.nsec
    && a.ctim.sec == b.ctim.sec && a.mtim.sec == b.mtim.sec && a.birthtim.sec == b.birthtim.sec
    && a.size == b.size && a.mode == b.mode && a.uid == b.uid && a.gid == b.gid && a.ino == b.ino && a.dev == b.dev
    && a.flags == b.flags && a.gen == b.gen
  }

  /** statbuf_eq looks at everything but links, device type, blocks and access time. */
  lemma StatEqExact(a: Stat, b: Stat)
    ensures StatEq(a, b) <==>
            a.(nlink := b.nlink, rdev := b.rdev, blksize := b.blksize, blocks := b.blocks, atim := b.atim) == b
  {
    assert a.ctim == Time(a.ctim.sec, a.ctim.nsec) && a.mtim == Time(a.mtim.sec, a.mtim.nsec);
  }

  /** The delay after which poll_cb starts the timer: up to the first point after `now` of the grid that starts
      at `start`. */
  function Delay(interval: int, start: int, now: int): (d: int)
    requires 1 <= interval && start <= now
    ensures 1 <= d <= interval && now + d == start + ((now - start) / interval + 1) * interval
  {
    interval - (now - start) % interval
  }

  // ---------- State ----------

  datatype Timer = Inactive | Active | Closing

  /** What a stat request says. */
  datatype Seen = Failed(code: int) | Good(stat: Stat)

  /** A call of the user's callback. */
  datatype Report = Report(handle: Hid, status: int, prev: Stat, curr: Stat)

  /** struct poll_ctx while it is allocated: its parent, whether fs_req is in flight, its timer, busy_polling and
      statbuf; and its history: the handle it was made for, what its stat requests said while it had a parent, and
      the calls it made. */
  datatype Ctx = Ctx(
    parent: Option<Hid>, inFlight: bool, timer: Timer, busy: int, statbuf: Stat,
    owner: Hid, seen: seq<Seen>, reports: seq<Report>)

  datatype Handle = Handle(active: bool, ctx: Option<Cid>, closing: bool)

  /** Between callbacks, or in the poll callback of a context for the observation `o`. */
  datatype Pc = Idle | InCallback(c: Cid, o: Seen)

  /** `linked` has for each address the timers of contexts there that were put into the handle queue of the loop
      and not taken out again. */
  datatype State = State(handles: map<Hid, Handle>, ctxs: map<Cid, Ctx>, pc: Pc, linked: multiset<Cid>)

  // ---------- Steps ----------

  datatype Step =
    | Start(h: Hid, c: Cid)          // uv_fs_poll_start; c is the address that uv__calloc returns
    | StartRefused(h: Hid, c: Cid)   // the same, where uv_fs_stat returns an error
    | Stop(h: Hid)                   // uv_fs_poll_stop
    | Close(h: Hid)                  // uv_close of the handle
    | StatDone(c: Cid, o: Seen)      // poll_cb, up to the user's callback
    | CallbackReturns                // the rest of poll_cb
    | TimerFires(c: Cid)             // timer_cb
    | TimerClosed(c: Cid)            // timer_close_cb

  /** The loop calls back for what is in flight, one callback at a time; user code runs between callbacks and
      inside them, and does not use a handle that it has closed. */
  ghost predicate Guard(s: State, step: Step) {
    match step
    case Start(h, c) => h in s.handles && !s.handles[h].closing && c !in s.ctxs
    case StartRefused(h, c) => h in s.handles && !s.handles[h].closing && !s.handles[h].active && c !in s.ctxs
    case Stop(h) => h in s.handles && !s.handles[h].closing
    case Close(h) => h in s.handles && !s.handles[h].closing
    case StatDone(c, o) => s.pc.Idle? && c in s.ctxs && s.ctxs[c].inFlight && (o.Failed? ==> o.code < 0)
    case CallbackReturns => s.pc.InCallback?
    case TimerFires(c) => s.pc.Idle? && c in s.ctxs && s.ctxs[c].timer.Active?
    case TimerClosed(c) => s.pc.Idle? && c in s.ctxs && s.ctxs[c].timer.Closing?
  }

  /** The context is allocated, and its timer may be closed. */
  ghost predicate CanClose(s: State, c: Cid) {
    c in s.ctxs && !s.ctxs[c].timer.Closing?
  }

  /** Memory is used while it is allocated, a handle is closed once, and the assertions of the source hold. */
  ghost predicate Safe(s: State, step: Step)
    requires Guard(s, step)
  {
    match step
    case Start(_, _) => true
    case StartRefused(_, _) => true
    case Stop(h) => StopSafe(s, h)
    case Close(h) => StopSafe(s, h)
    case StatDone(c, _) =>
      && (s.ctxs[c].parent.None? ==> CanClose(s, c))
      && (s.ctxs[c].parent.Some? ==> s.ctxs[c].timer.Inactive?)
    case CallbackReturns => s.pc.c in s.ctxs && s.ctxs[s.pc.c].timer.Inactive? && !s.ctxs[s.pc.c].inFlight
    case TimerFires(c) =>
      && s.ctxs[c].parent.Some? && s.ctxs[c].parent.value in s.handles
      && s.handles[s.ctxs[c].parent.value].ctx == Some(c) && !s.ctxs[c].inFlight
    case TimerClosed(c) => !s.ctxs[c].inFlight
  }

  ghost predicate StopSafe(s: State, h: Hid)
    requires h in s.handles
  {
    s.handles[h].active ==>
      && s.handles[h].ctx.Some? && s.handles[h].ctx.value in s.ctxs && s.ctxs[s.handles[h].ctx.value].parent.Some?
  }

  function With(s: State, c: Cid, x: Ctx): State {
    s.(ctxs := s.ctxs[c := x])
  }

  ghost function Apply(s: State, step: Step): State
    requires Guard(s, step) && Safe(s, step)
  {
    match step
    case Start(h, c) => Started(s, h, c)
    case StartRefused(_, c) => s.(linked := s.linked + multiset{c})
    case Stop(h) => Stopped(s, h)
    case Close(h) => var t := Stopped(s, h); t.(handles := t.handles[h := t.handles[h].(closing := true)])
    case StatDone(c, o) => Observed(s, c, o)
    case CallbackReturns => Rearmed(s.(pc := Idle), s.pc.c, s.pc.o)
    case TimerFires(c) => With(s, c, s.ctxs[c].(timer := Inactive, inFlight := true))
    case TimerClosed(c) => s.(ctxs := s.ctxs - {c}, linked := s.linked - multiset{c})
  }

  ghost function Started(s: State, h: Hid, c: Cid): State
    requires h in s.handles
  {
    if s.handles[h].active then s
    else With(s.(handles := s.handles[h := s.handles[h].(active := true, ctx := Some(c))],
                 linked := s.linked + multiset{c}), c,
              Ctx(Some(h), true, Inactive, 0, ZeroStat, h, [], []))
  }

  ghost function Stopped(s: State, h: Hid): State
    requires h in s.handles && StopSafe(s, h)
  {
    if !s.handles[h].active then s
    else
      var c := s.handles[h].ctx.value;
      var x := s.ctxs[c];
      With(s.(handles := s.handles[h := s.handles[h].(active := false, ctx := None)]), c,
           x.(parent := None, timer := if x.timer.Active? then Closing else x.timer))
  }

  /** Whether poll_cb calls back. */
  predicate Calls(x: Ctx, o: Seen) {
    match o
    case Failed(code) => x.busy != code
    case Good(stat) => x.busy != 0 && (x.busy < 0 || !StatEq(x.statbuf, stat))
  }

  function ReportOf(h: Hid, prev: Stat, o: Seen): Report {
    match o
    case Failed(code) => Report(h, code, prev, ZeroStat)
    case Good(stat) => Report(h, 0, prev, stat)
  }

  ghost function Observed(s: State, c: Cid, o: Seen): State
    requires c in s.ctxs
  {
    var x := s.ctxs[c].(inFlight := false);
    if x.parent.None? then With(s, c, x.(timer := Closing))
    else
      var y := x.(seen := x.seen + [o]);
      if Calls(x, o) then
        With(s.(pc := InCallback(c, o)), c, y.(reports := y.reports + [ReportOf(x.parent.value, x.statbuf, o)]))
      else Rearmed(With(s, c, y), c, o)
  }

  /** The state that poll_cb remembers, and the timer, which is closed if the handle was stopped. */
  ghost function Rearmed(s: State, c: Cid, o: Seen): State
    requires c in s.ctxs
  {
    var x := s.ctxs[c];
    var y := match o
             case Failed(code) => x.(busy := code)
             case Good(stat) => x.(busy := 1, statbuf := stat);
    With(s, c, y.(timer := if x.parent.None? then Closing else Active))
  }

  // ---------- What should be reported ----------

  /** The last stat that succeeded. */
  ghost function LastGood(seen: seq<Seen>): Stat {
    if seen == [] then ZeroStat
    else
      var o := seen[|seen| - 1];
      if o.Good? then o.stat else LastGood(seen[..|seen| - 1])
  }

  predicate Differs(a: Seen, b: Seen) {
    if a.Good? && b.Good? then !StatEq(a.stat, b.stat) else a != b
  }

  /** The first observation counts if it is an error, a later one if it differs from its predecessor. */
  ghost predicate News(seen: seq<Seen>, o: Seen) {
    if seen == [] then o.Failed? else Differs(seen[|seen| - 1], o)
  }

  /** The call for the last observation `o` of a context of `h`: the handle, the error or 0, the last good result before
      it, and the new result, which is all zero for an error. */
  ghost function CallFor(h: Hid, before: seq<Seen>, o: Seen): Report {
    Report(h, if o.Failed? then o.code else 0, LastGood(before), if o.Good? then o.stat else ZeroStat)
  }

  ghost function Expected(h: Hid, seen: seq<Seen>): seq<Report> {
    if seen == [] then []
    else
      var before, o := seen[..|seen| - 1], seen[|seen| - 1];
      Expected(h, before) + if News(before, o) then [CallFor(h, before, o)] else []
  }

  /** The last good result is that of the last observation that is no error, or all zero if there is none. */
  lemma {:induction false} LastGoodExact(seen: seq<Seen>, i: int)
    requires -1 <= i < |seen| && (i >= 0 ==> seen[i].Good?) && forall j :: i < j < |seen| ==> seen[j].Failed?
    ensures LastGood(seen) == if i < 0 then ZeroStat else seen[i].stat
  {
    if seen != [] && i < |seen| - 1 {
      LastGoodExact(seen[..|seen| - 1], i);
    }
  }

  /** Each call is the one for an observation that is news, and each such observation has its call. */
  lemma {:induction false} ExpectedExact(h: Hid, seen: seq<Seen>, r: Report)
    ensures r in Expected(h, seen) <==>
            exists j :: 0 <= j < |seen| && News(seen[..j], seen[j]) && r == CallFor(h, seen[..j], seen[j])
  {
    if seen != [] {
      var n := |seen| - 1;
      var before, o := seen[..n], seen[n];
      ExpectedExact(h, before, r);
      assert forall j :: 0 <= j < n ==> before[..j] == seen[..j] && before[j] == seen[j];
      if r in Expected(h, before) {
        var j :| 0 <= j < n && News(before[..j], before[j]) && r == CallFor(h, before[..j], before[j]);
        assert News(seen[..j], seen[j]);
      }
      if j :| 0 <= j < |seen| && News(seen[..j], seen[j]) && r == CallFor(h, seen[..j], seen[j]) && j != n {
        assert News(before[..j], before[j]);
      }
    }
  }

  // ---------- Invariant ----------

  /** The phase of a context: exactly one of a request in flight, an armed timer, a closing timer, or the callback. */
  ghost predicate PhaseOk(s: State, c: Cid)
    requires c in s.ctxs
  {
    var x := s.ctxs[c];
    if s.pc.InCallback? && s.pc.c == c then !x.inFlight && x.timer.Inactive?
    else if x.inFlight then x.timer.Inactive?
    else if x.parent.Some? then x.timer.Active?
    else x.timer.Closing?
  }

  /** busy_polling and statbuf summarise what was seen. */
  ghost predicate Remembers(x: Ctx, seen: seq<Seen>) {
    && x.statbuf == LastGood(seen)
    && x.busy == (if seen == [] then 0 else if seen[|seen| - 1].Good? then 1 else seen[|seen| - 1].code)
    && forall i :: 0 <= i < |seen| && seen[i].Failed? ==> seen[i].code < 0
  }

  ghost predicate HistoryOk(s: State, c: Cid)
    requires c in s.ctxs
  {
    var x := s.ctxs[c];
    && x.reports == Expected(x.owner, x.seen) && (x.parent.Some? ==> x.parent == Some(x.owner))
    && if s.pc.InCallback? && s.pc.c == c then
         && x.seen != [] && x.seen[|x.seen| - 1] == s.pc.o && Remembers(x, x.seen[..|x.seen| - 1])
         && (s.pc.o.Failed? ==> s.pc.o.code < 0)
       else Remembers(x, x.seen)
  }

  ghost predicate OwnerOk(s: State, c: Cid)
    requires c in s.ctxs
  {
    s.ctxs[c].parent.Some? ==> s.ctxs[c].parent.value in s.handles && s.handles[s.ctxs[c].parent.value].ctx == Some(c)
  }

  ghost predicate HandleOk(s: State, h: Hid)
    requires h in s.handles
  {
    var k := s.handles[h];
    && (k.active <==> k.ctx.Some?) && (k.closing ==> !k.active)
    && (k.ctx.Some? ==> k.ctx.value in s.ctxs && s.ctxs[k.ctx.value].parent == Some(h))
  }

  ghost predicate CtxOk(s: State, c: Cid)
    requires c in s.ctxs
  {
    PhaseOk(s, c) && HistoryOk(s, c) && OwnerOk(s, c)
  }

  ghost predicate Inv(s: State) {
    && (forall c {:trigger CtxOk(s, c)} :: c in s.ctxs ==> CtxOk(s, c))
    && (forall h {:trigger HandleOk(s, h)} :: h in s.handles ==> HandleOk(s, h))
    && (s.pc.InCallback? ==> s.pc.c in s.ctxs)
  }

  // ---------- Every step keeps the invariant ----------

  lemma Kept(s: State, t: State, c: Cid)
    requires c in s.ctxs && CtxOk(s, c) && c in t.ctxs && t.ctxs[c] == s.ctxs[c]
    requires (s.pc.InCallback? && s.pc.c == c) == (t.pc.InCallback? && t.pc.c == c)
    requires s.pc.InCallback? && s.pc.c == c ==> t.pc == s.pc
    requires OwnerOk(t, c)
    ensures CtxOk(t, c)
  {
  }

  lemma StartKeeps(s: State, h: Hid, c: Cid)
    requires Inv(s) && Guard(s, Start(h, c))
    ensures Inv(Started(s, h, c))
  {
    hide HistoryOk, PhaseOk;
    var t := Started(s, h, c);
    assert HandleOk(s, h);
    if !s.handles[h].active {
      FreshOk(t, c, h);
      forall k | k in t.ctxs && k != c ensures CtxOk(t, k) {
        assert CtxOk(s, k);
        Kept(s, t, k);
      }
      forall g | g in t.handles ensures HandleOk(t, g) {
        assert HandleOk(s, g);
      }
    }
  }

  lemma RefusedKeeps(s: State, h: Hid, c: Cid)
    requires Inv(s) && Guard(s, StartRefused(h, c))
    ensures Inv(Apply(s, StartRefused(h, c)))
  {
    hide HistoryOk, PhaseOk;
    var t := Apply(s, StartRefused(h, c));
    forall k | k in t.ctxs ensures CtxOk(t, k) {
      assert CtxOk(s, k);
      Kept(s, t, k);
    }
    forall g | g in t.handles ensures HandleOk(t, g) {
      assert HandleOk(s, g);
    }
  }

  lemma FreshOk(t: State, c: Cid, h: Hid)
    requires c in t.ctxs && t.ctxs[c] == Ctx(Some(h), true, Inactive, 0, ZeroStat, h, [], [])
    requires !(t.pc.InCallback? && t.pc.c == c) && h in t.handles && t.handles[h].ctx == Some(c)
    ensures CtxOk(t, c)
  {
  }

  lemma StoppedCtx(s: State, h: Hid)
    requires h in s.handles && StopSafe(s, h) && s.handles[h].active && CtxOk(s, s.handles[h].ctx.value)
    ensures CtxOk(Stopped(s, h), s.handles[h].ctx.value)
  {
    hide Expected, LastGood;
  }

  lemma StopKeeps(s: State, h: Hid)
    requires Inv(s) && h in s.handles
    ensures StopSafe(s, h) && Inv(Stopped(s, h)) && !Stopped(s, h).handles[h].active
    ensures Stopped(s, h).handles[h].closing == s.handles[h].closing
  {
    hide HistoryOk, PhaseOk;
    assert HandleOk(s, h);
    var t := Stopped(s, h);
    if s.handles[h].active {
      var c := s.handles[h].ctx.value;
      assert CtxOk(s, c);
      StoppedCtx(s, h);
      forall k | k in t.ctxs && k != c ensures CtxOk(t, k) {
        assert CtxOk(s, k);
        Kept(s, t, k);
      }
      forall g | g in t.handles ensures HandleOk(t, g) {
        assert HandleOk(s, g);
      }
    }
  }

  lemma CloseKeeps(s: State, h: Hid)
    requires Inv(s) && Guard(s, Close(h))
    ensures Safe(s, Close(h)) && Inv(Apply(s, Close(h)))
  {
    hide HistoryOk, PhaseOk;
    StopKeeps(s, h);
    var u, t := Stopped(s, h), Apply(s, Close(h));
    forall k | k in t.ctxs ensures CtxOk(t, k) {
      assert CtxOk(u, k);
      Kept(u, t, k);
    }
    forall g | g in t.handles ensures HandleOk(t, g) {
      assert HandleOk(u, g);
    }
  }

  /** What poll_cb remembers tells it whether the observation is news. */
  lemma CallsOnNews(x: Ctx, o: Seen)
    requires Remembers(x, x.seen) && (o.Failed? ==> o.code < 0)
    ensures Calls(x, o) <==> News(x.seen, o)
  {
    if x.seen != [] {
      var last := x.seen[|x.seen| - 1];
      assert last.Good? ==> x.statbuf == last.stat;
    }
  }

  lemma Extended(h: Hid, seen: seq<Seen>, o: Seen)
    ensures Expected(h, seen + [o]) ==
            Expected(h, seen) + if News(seen, o) then [CallFor(h, seen, o)] else []
    ensures LastGood(seen + [o]) == if o.Good? then o.stat else LastGood(seen)
  {
    assert (seen + [o])[..|seen|] == seen;
  }

  /** The update of busy_polling and statbuf. */
  lemma RearmedOk(s: State, c: Cid, o: Seen, before: seq<Seen>)
    requires c in s.ctxs && s.pc.Idle? && (o.Failed? ==> o.code < 0)
    requires var x := s.ctxs[c];
             && !x.inFlight && x.timer.Inactive? && Remembers(x, before) && x.seen == before + [o] && OwnerOk(s, c)
             && x.reports == Expected(x.owner, x.seen) && (x.parent.Some? ==> x.parent == Some(x.owner))
    ensures CtxOk(Rearmed(s, c, o), c)
  {
    hide Expected;
    Extended(s.ctxs[c].owner, before, o);
  }

  lemma ObservedCtx(s: State, c: Cid, o: Seen)
    requires Inv(s) && Guard(s, StatDone(c, o))
    ensures Safe(s, StatDone(c, o)) && c in Observed(s, c, o).ctxs && CtxOk(Observed(s, c, o), c)
  {
    hide Expected, LastGood, Calls, News;
    assert CtxOk(s, c);
    var x := s.ctxs[c].(inFlight := false);
    if x.parent.Some? {
      CallsOnNews(x, o);
      Extended(x.owner, x.seen, o);
      assert x.seen == (x.seen + [o])[..|x.seen|];
      if !Calls(x, o) {
        RearmedOk(With(s, c, x.(seen := x.seen + [o])), c, o, x.seen);
      }
    }
  }

  lemma StatDoneKeeps(s: State, c: Cid, o: Seen)
    requires Inv(s) && Guard(s, StatDone(c, o))
    ensures Safe(s, StatDone(c, o)) && Inv(Observed(s, c, o))
  {
    hide HistoryOk, PhaseOk, Calls;
    ObservedCtx(s, c, o);
    var t := Observed(s, c, o);
    forall k | k in t.ctxs && k != c ensures CtxOk(t, k) {
      assert CtxOk(s, k);
      Kept(s, t, k);
    }
    forall g | g in t.handles ensures HandleOk(t, g) {
      assert HandleOk(s, g);
    }
  }

  lemma ReturnedCtx(s: State)
    requires Inv(s) && Guard(s, CallbackReturns)
    ensures Safe(s, CallbackReturns) && CtxOk(Rearmed(s.(pc := Idle), s.pc.c, s.pc.o), s.pc.c)
  {
    hide Expected, LastGood, Rearmed, News;
    var c, o := s.pc.c, s.pc.o;
    assert CtxOk(s, c);
    var x := s.ctxs[c];
    var before := x.seen[..|x.seen| - 1];
    assert x.seen == before + [o];
    RearmedOk(s.(pc := Idle), c, o, before);
  }

  lemma ReturnsKeeps(s: State)
    requires Inv(s) && Guard(s, CallbackReturns)
    ensures Safe(s, CallbackReturns) && Inv(Apply(s, CallbackReturns))
  {
    hide HistoryOk, PhaseOk;
    ReturnedCtx(s);
    var c, t := s.pc.c, Apply(s, CallbackReturns);
    forall k | k in t.ctxs && k != c ensures CtxOk(t, k) {
      assert CtxOk(s, k);
      Kept(s, t, k);
    }
    forall g | g in t.handles ensures HandleOk(t, g) {
      assert HandleOk(s, g);
    }
  }

  lemma TimerCtx(s: State, step: Step)
    requires (step.TimerFires? || step.TimerClosed?) && Guard(s, step) && CtxOk(s, step.c)
    requires s.ctxs[step.c].parent.Some? ==> s.ctxs[step.c].parent.value in s.handles
    ensures Safe(s, step) && if step.TimerFires? then CtxOk(Apply(s, step), step.c) else s.ctxs[step.c].parent.None?
  {
    hide Expected, LastGood;
  }

  lemma TimerKeeps(s: State, step: Step)
    requires Inv(s) && (step.TimerFires? || step.TimerClosed?) && Guard(s, step)
    ensures Safe(s, step) && Inv(Apply(s, step))
  {
    hide HistoryOk, PhaseOk;
    var c := step.c;
    assert CtxOk(s, c);
    TimerCtx(s, step);
    var t := Apply(s, step);
    forall k | k in t.ctxs && k != c ensures CtxOk(t, k) {
      assert CtxOk(s, k);
      Kept(s, t, k);
    }
    forall g | g in t.handles ensures HandleOk(t, g) {
      assert HandleOk(s, g);
    }
  }

  lemma StepKeeps(s: State, step: Step)
    requires Inv(s) && Guard(s, step)
    ensures Safe(s, step) && Inv(Apply(s, step))
  {
    hide Inv;
    match step
    case Start(h, c) => StartKeeps(s, h, c);
    case StartRefused(h, c) => RefusedKeeps(s, h, c);
    case Stop(h) => StopKeeps(s, h);
    case Close(h) => CloseKeeps(s, h);
    case StatDone(c, o) => StatDoneKeeps(s, c, o);
    case CallbackReturns => ReturnsKeeps(s);
    case TimerFires(c) => TimerKeeps(s, step);
    case TimerClosed(c) => TimerKeeps(s, step);
  }

  // ---------- Runs ----------

  ghost predicate RunOf(ss: seq<State>, steps: seq<Step>) {
    && |ss| == |steps| + 1
    && ss[0].ctxs == map[] && ss[0].linked == multiset{} && ss[0].pc.Idle?
    && (forall h :: h in ss[0].handles ==> ss[0].handles[h] == Handle(false, None, false))
    && forall i :: 0 <= i < |steps| ==>
         Guard(ss[i], steps[i]) && (Safe(ss[i], steps[i]) ==> ss[i + 1] == Apply(ss[i], steps[i]))
  }

  lemma {:induction false} RunInv(ss: seq<State>, steps: seq<Step>, i: nat)
    requires RunOf(ss, steps) && i < |ss|
    ensures Inv(ss[i]) && (i < |steps| ==> Safe(ss[i], steps[i]))
  {
    if i > 0 {
      RunInv(ss, steps, i - 1);
      hide Inv, Guard, Safe, Apply;
      StepKeeps(ss[i - 1], steps[i - 1]);
    }
    hide Inv, Guard, Safe, Apply;
    if i < |steps| {
      StepKeeps(ss[i], steps[i]);
    }
  }

  /** In every run, between callbacks each context is in exactly one phase: a stat request in flight, the timer
      armed for an active handle, or the timer closing after a stop; and no step frees or uses a freed context. */
  lemma OnePhase(ss: seq<State>, steps: seq<Step>, i: nat, c: Cid)
    requires RunOf(ss, steps) && i < |ss| && c in ss[i].ctxs && ss[i].pc.Idle?
    ensures var x := ss[i].ctxs[c];
            && (if x.inFlight then x.timer.Inactive? else !x.timer.Inactive?)
            && (x.timer.Active? ==> x.parent.Some?) && (x.timer.Closing? ==> x.parent.None?)
  {
    RunInv(ss, steps, i);
    assert CtxOk(ss[i], c);
  }

  /** In every run, the calls a context has made are exactly the news among its observations: the first one if it is
      an error, and each later one that differs from its predecessor. */
  lemma ReportsNews(ss: seq<State>, steps: seq<Step>, i: nat, c: Cid)
    requires RunOf(ss, steps) && i < |ss| && c in ss[i].ctxs
    ensures ss[i].ctxs[c].reports == Expected(ss[i].ctxs[c].owner, ss[i].ctxs[c].seen)
  {
    RunInv(ss, steps, i);
    assert CtxOk(ss[i], c);
  }

  /** In every run, a step that calls back does so for an active handle that is polling with this context. */
  lemma CallsWhileActive(ss: seq<State>, steps: seq<Step>, i: nat, c: Cid, o: Seen)
    requires RunOf(ss, steps) && i < |steps| && steps[i] == StatDone(c, o) && ss[i + 1].pc.InCallback?
    ensures var h := ss[i].ctxs[c].owner;
            && c in ss[i + 1].ctxs && |ss[i + 1].ctxs[c].reports| == |ss[i].ctxs[c].reports| + 1
            && h in ss[i].handles && ss[i].handles[h].active && ss[i].handles[h].ctx == Some(c)
            && !ss[i].handles[h].closing
  {
    RunInv(ss, steps, i);
    assert CtxOk(ss[i], c);
    assert HandleOk(ss[i], ss[i].ctxs[c].owner);
  }

  // ---------- The handle queue of the loop ----------

  /** The addresses of the contexts that a refused start has freed. */
  ghost function Refused(steps: seq<Step>): multiset<Cid> {
    if steps == [] then multiset{}
    else
      var last := steps[|steps| - 1];
      Refused(steps[..|steps| - 1]) + if last.StartRefused? then multiset{last.c} else multiset{}
  }

  lemma {:induction false} RefusedIn(steps: seq<Step>, c: Cid)
    ensures c in Refused(steps) <==> exists j :: 0 <= j < |steps| && steps[j].StartRefused? && steps[j].c == c
  {
    if steps != [] {
      var n := |steps| - 1;
      RefusedIn(steps[..n], c);
      assert forall j :: 0 <= j < n ==> steps[..n][j] == steps[j];
      if j :| 0 <= j < |steps| && steps[j].StartRefused? && steps[j].c == c && j != n {
        assert steps[..n][j] == steps[j];
      }
    }
  }

  /** What a step allocates, links, frees and unlinks. */
  lemma KeysAfter(s: State, step: Step)
    requires Guard(s, step) && Safe(s, step)
    ensures var t := Apply(s, step);
            match step
            case Start(h, c) =>
              if s.handles[h].active then t == s
              else c !in s.ctxs.Keys && t.ctxs.Keys == s.ctxs.Keys + {c} && t.linked == s.linked + multiset{c}
            case StartRefused(_, c) => t.ctxs.Keys == s.ctxs.Keys && t.linked == s.linked + multiset{c}
            case TimerClosed(c) =>
              c in s.ctxs.Keys && t.ctxs.Keys == s.ctxs.Keys - {c} && t.linked == s.linked - multiset{c}
            case _ => t.ctxs.Keys == s.ctxs.Keys && t.linked == s.linked
  {
    hide Calls;
  }

  lemma LinkStep(s: State, step: Step, extra: multiset<Cid>)
    requires Guard(s, step) && Safe(s, step) && s.linked == multiset(s.ctxs.Keys) + extra
    ensures var t := Apply(s, step);
            t.linked == multiset(t.ctxs.Keys) + extra + if step.StartRefused? then multiset{step.c} else multiset{}
  {
    KeysAfter(s, step);
    hide Apply, Safe;
  }

  /** In every run the handle queue holds one timer for each allocated context, and one more at the address of each
      context that a refused start has freed. */
  lemma {:induction false} LinkedTimers(ss: seq<State>, steps: seq<Step>, i: nat)
    requires RunOf(ss, steps) && i < |ss|
    ensures ss[i].linked == multiset(ss[i].ctxs.Keys) + Refused(steps[..i])
  {
    hide Inv, Guard, Safe, Apply;
    if i > 0 {
      LinkedTimers(ss, steps, i - 1);
      RunInv(ss, steps, i - 1);
      LinkStep(ss[i - 1], steps[i - 1], Refused(steps[..i - 1]));
      assert steps[..i][..i - 1] == steps[..i - 1];
    }
  }

  /** The queue of the loop leads into freed memory exactly when an earlier uv_fs_poll_start has returned an error
      of uv_fs_stat. */
  lemma DanglesExactly(ss: seq<State>, steps: seq<Step>, i: nat)
    requires RunOf(ss, steps) && i < |ss|
    ensures (exists c :: ss[i].linked[c] > if c in ss[i].ctxs then 1 else 0) <==>
            exists j :: 0 <= j < i && steps[j].StartRefused?
  {
    LinkedTimers(ss, steps, i);
    assert forall j :: 0 <= j < i ==> steps[..i][j] == steps[j];
    if c :| ss[i].linked[c] > if c in ss[i].ctxs then 1 else 0 {
      RefusedIn(steps[..i], c);
    }
    if j :| 0 <= j < i && steps[j].StartRefused? {
      assert steps[..i][j] == steps[j];
      RefusedIn(steps[..i], steps[j].c);
      assert ss[i].linked[steps[j].c] > if steps[j].c in ss[i].ctxs then 1 else 0;
    }
  }

  /** The refused start of a handle, in the first step of a run. */
  lemma RefusedDangles(h: Hid, c: Cid)
    ensures exists ss: seq<State>, steps: seq<Step> ::
              RunOf(ss, steps) && |ss| == 2 && c !in ss[1].ctxs && c in ss[1].linked
  {
    var s := State(map[h := Handle(false, None, false)], map[], Idle, multiset{});
    var step := StartRefused(h, c);
    var ss := [s, Apply(s, step)];
    assert RunOf(ss, [step]);
    assert c !in ss[1].ctxs && c in ss[1].linked;
  }

  // ---------- What every step does ----------

  /** File polling without its pointers: which handle polls with which context, which handles are closing; the contexts
      with a request in flight, an armed timer or a closing timer, the others being in their callback; and what each has
      seen and called. */
  datatype View = View(
    polling: map<Hid, Cid>, closing: set<Hid>, inFlight: set<Cid>, armed: set<Cid>, ending: set<Cid>,
    seen: map<Cid, seq<Seen>>, calls: map<Cid, seq<Report>>)

  datatype Phase = InFlight | Armed | Ending

  predicate In(x: Ctx, p: Phase) {
    match p
    case InFlight => x.inFlight
    case Armed => x.timer.Active?
    case Ending => x.timer.Closing?
  }

  ghost function Those(s: State, p: Phase): set<Cid> {
    set c | c in s.ctxs && In(s.ctxs[c], p)
  }

  ghost function PollingOf(s: State): map<Hid, Cid> {
    map h | h in s.handles && s.handles[h].ctx.Some? :: s.handles[h].ctx.value
  }

  ghost function ClosingOf(s: State): set<Hid> {
    set h | h in s.handles && s.handles[h].closing
  }

  ghost function SeenOf(s: State): map<Cid, seq<Seen>> {
    map c | c in s.ctxs :: s.ctxs[c].seen
  }

  ghost function CallsOf(s: State): map<Cid, seq<Report>> {
    map c | c in s.ctxs :: s.ctxs[c].reports
  }

  ghost function ViewOf(s: State): View {
    View(PollingOf(s), ClosingOf(s), Those(s, InFlight), Those(s, Armed), Those(s, Ending), SeenOf(s), CallsOf(s))
  }

  ghost predicate Polls(v: View, h: Hid, c: Cid) {
    h in v.polling && v.polling[h] == c
  }

  ghost predicate Polled(v: View, c: Cid) {
    exists h: Hid :: Polls(v, h, c)
  }

  /** The context waits for the user's callback to return. */
  ghost predicate Calling(v: View, c: Cid) {
    c in v.seen && c !in v.inFlight && c !in v.armed && c !in v.ending
  }

  /** A handle that stops leaves its context behind; an armed timer is closed at once. */
  ghost function Left(v: View, h: Hid): View {
    if h !in v.polling then v
    else
      var c := v.polling[h];
      v.(polling := v.polling - {h}, armed := v.armed - {c},
         ending := if c in v.armed then v.ending + {c} else v.ending)
  }

  /** A context of a handle that still polls arms its timer; otherwise it ends. */
  ghost function Resumed(v: View, c: Cid): View {
    if Polled(v, c) then v.(armed := v.armed + {c}) else v.(ending := v.ending + {c})
  }

  /** What a step means. */
  ghost predicate Viewed(v: View, step: Step, v': View) {
    match step
    case Start(h, c) =>
      v' == if h in v.polling then v
            else v.(polling := v.polling[h := c], inFlight := v.inFlight + {c}, seen := v.seen[c := []],
                    calls := v.calls[c := []])
    case StartRefused(_, _) => v' == v
    case Stop(h) => v' == Left(v, h)
    case Close(h) => v' == Left(v, h).(closing := v.closing + {h})
    case StatDone(c, o) =>
      && c in v.seen && c in v.calls
      && var w := v.(inFlight := v.inFlight - {c});
         if !Polled(v, c) then v' == w.(ending := v.ending + {c})
         else
           var x := w.(seen := v.seen[c := v.seen[c] + [o]]);
           if News(v.seen[c], o) then
             exists h: Hid :: Polls(v, h, c) && v' == x.(calls := v.calls[c := v.calls[c] + [CallFor(h, v.seen[c], o)]])
           else v' == x.(armed := v.armed + {c})
    case CallbackReturns => exists c: Cid :: Calling(v, c) && v' == Resumed(v, c)
    case TimerFires(c) => v' == v.(armed := v.armed - {c}, inFlight := v.inFlight + {c})
    case TimerClosed(c) => v' == v.(ending := v.ending - {c}, seen := v.seen - {c}, calls := v.calls - {c})
  }

  // ---------- The parts of the view after a change ----------

  lemma ThoseChange(s: State, t: State, c: Cid, x: Ctx, p: Phase)
    requires t.ctxs == s.ctxs[c := x]
    ensures Those(t, p) == Marked(Those(s, p), c, In(x, p))
  {
  }

  /** The view after the context `c` has become `x`. */
  ghost function Entry(v: View, c: Cid, x: Ctx): View {
    v.(inFlight := Marked(v.inFlight, c, x.inFlight), armed := Marked(v.armed, c, x.timer.Active?),
       ending := Marked(v.ending, c, x.timer.Closing?), seen := v.seen[c := x.seen], calls := v.calls[c := x.reports])
  }

  lemma CtxChange(s: State, t: State, c: Cid, x: Ctx)
    requires t.ctxs == s.ctxs[c := x]
    ensures ViewOf(t) == Entry(ViewOf(s), c, x).(polling := PollingOf(t), closing := ClosingOf(t))
  {
    hide Those, Marked, PollingOf, ClosingOf;
    ThoseChange(s, t, c, x, InFlight);
    ThoseChange(s, t, c, x, Armed);
    ThoseChange(s, t, c, x, Ending);
    assert SeenOf(t) == SeenOf(s)[c := x.seen];
    assert CallsOf(t) == CallsOf(s)[c := x.reports];
  }

  lemma HandleChange(s: State, t: State, h: Hid, k: Handle)
    requires h in s.handles && t.handles == s.handles[h := k]
    ensures PollingOf(t) == if k.ctx.Some? then PollingOf(s)[h := k.ctx.value] else PollingOf(s) - {h}
    ensures ClosingOf(t) == Marked(ClosingOf(s), h, k.closing)
  {
  }

  lemma SameHandles(s: State, t: State)
    requires t.handles == s.handles
    ensures PollingOf(t) == PollingOf(s) && ClosingOf(t) == ClosingOf(s)
  {
  }

  lemma ViewAt(s: State, c: Cid)
    requires c in s.ctxs
    ensures var v, x := ViewOf(s), s.ctxs[c];
            && (c in v.inFlight <==> x.inFlight) && (c in v.armed <==> x.timer.Active?)
            && (c in v.ending <==> x.timer.Closing?)
            && c in v.seen && v.seen[c] == x.seen && c in v.calls && v.calls[c] == x.reports
  {
  }

  lemma EntrySame(s: State, c: Cid)
    requires c in s.ctxs
    ensures Entry(ViewOf(s), c, s.ctxs[c]) == ViewOf(s)
  {
    hide ViewOf, Marked;
    ViewAt(s, c);
    var v := ViewOf(s);
    MarkedSame(v.inFlight, c);
    MarkedSame(v.armed, c);
    MarkedSame(v.ending, c);
    assert v.seen[c := v.seen[c]] == v.seen && v.calls[c := v.calls[c]] == v.calls;
  }

  /** A context has a parent exactly while a handle polls with it, which is its owner. */
  lemma PolledAt(s: State, c: Cid)
    requires Inv(s) && c in s.ctxs
    ensures s.ctxs[c].parent.Some? <==> Polled(ViewOf(s), c)
    ensures forall h: Hid :: Polls(ViewOf(s), h, c) ==> s.ctxs[c].parent == Some(h)
    ensures s.ctxs[c].parent.Some? ==> s.ctxs[c].parent == Some(s.ctxs[c].owner) && Polls(ViewOf(s), s.ctxs[c].owner, c)
  {
    hide PhaseOk, Those, SeenOf, CallsOf, ClosingOf;
    assert CtxOk(s, c);
    var v := ViewOf(s);
    forall h: Hid | Polls(v, h, c) ensures s.ctxs[c].parent == Some(h) {
      assert HandleOk(s, h);
    }
    if s.ctxs[c].parent.Some? {
      assert Polls(v, s.ctxs[c].owner, c);
    }
  }

  lemma PollingAt(s: State, h: Hid)
    requires Inv(s) && h in s.handles
    ensures var v, k := ViewOf(s), s.handles[h];
            && (h in v.polling <==> k.active) && (k.active <==> k.ctx.Some?)
            && (k.active ==> v.polling[h] == k.ctx.value && k.ctx.value in s.ctxs)
            && (h in v.closing <==> k.closing)
  {
    assert HandleOk(s, h);
  }

  // ---------- Each step ----------

  lemma StartView(s: State, h: Hid, c: Cid)
    requires Inv(s) && Guard(s, Start(h, c))
    ensures Viewed(ViewOf(s), Start(h, c), ViewOf(Started(s, h, c)))
  {
    hide ViewOf, Inv;
    var t := Started(s, h, c);
    PollingAt(s, h);
    if !s.handles[h].active {
      CtxChange(s, t, c, t.ctxs[c]);
      HandleChange(s, t, h, t.handles[h]);
      Parts(s);
      FreshParts(s, c);
      MarkedSame(ViewOf(s).closing, h);
    }
  }

  lemma Parts(s: State)
    ensures ViewOf(s).polling == PollingOf(s) && ViewOf(s).closing == ClosingOf(s)
  {
  }

  lemma FreshParts(s: State, c: Cid)
    requires c !in s.ctxs
    ensures var v := ViewOf(s);
            && Marked(v.inFlight, c, true) == v.inFlight + {c} && Marked(v.armed, c, false) == v.armed
            && Marked(v.ending, c, false) == v.ending
  {
  }

  lemma StopView(s: State, h: Hid)
    requires Inv(s) && h in s.handles && StopSafe(s, h)
    ensures ViewOf(Stopped(s, h)) == Left(ViewOf(s), h)
  {
    hide ViewOf, Inv;
    var t := Stopped(s, h);
    PollingAt(s, h);
    if s.handles[h].active {
      var c := s.handles[h].ctx.value;
      CtxChange(s, t, c, t.ctxs[c]);
      HandleChange(s, t, h, t.handles[h]);
      Parts(s);
      ViewAt(s, c);
      EntrySame(s, c);
      MarkedSame(ViewOf(s).closing, h);
    }
  }

  lemma CloseView(s: State, h: Hid)
    requires Inv(s) && Guard(s, Close(h)) && Safe(s, Close(h))
    ensures Viewed(ViewOf(s), Close(h), ViewOf(Apply(s, Close(h))))
  {
    StopView(s, h);
    StopClosing(s, h);
    hide ViewOf, Inv, Left;
    var u, t := Stopped(s, h), Apply(s, Close(h));
    HandleChange(u, t, h, t.handles[h]);
    Parts(u);
    Parts(s);
    Parts(t);
    ClosedView(u, t, h);
  }

  lemma StopClosing(s: State, h: Hid)
    requires h in s.handles && StopSafe(s, h)
    ensures h in Stopped(s, h).handles && Left(ViewOf(s), h).closing == ViewOf(s).closing
  {
  }

  lemma ClosedView(u: State, t: State, h: Hid)
    requires h in u.handles && t == u.(handles := u.handles[h := u.handles[h].(closing := true)])
    ensures ViewOf(t) == ViewOf(u).(closing := ViewOf(u).closing + {h})
  {
    assert PollingOf(t) == PollingOf(u);
  }

  lemma StatView(s: State, c: Cid, o: Seen)
    requires Inv(s) && Guard(s, StatDone(c, o))
    ensures Viewed(ViewOf(s), StatDone(c, o), ViewOf(Observed(s, c, o)))
  {
    StatRemembers(s, c);
    hide ViewOf, Inv, News, Polled, Calls, Expected, LastGood, CtxOk, Remembers;
    var t, x := Observed(s, c, o), s.ctxs[c];
    PolledAt(s, c);
    CallsOnNews(x.(inFlight := false), o);
    CtxChange(s, t, c, t.ctxs[c]);
    SameHandles(s, t);
    Parts(s);
    ViewAt(s, c);
    EntrySame(s, c);
    if x.parent.Some? && News(x.seen, o) {
      var h := x.owner;
      assert Polls(ViewOf(s), h, c);
      assert ReportOf(h, x.statbuf, o) == CallFor(h, x.seen, o) by {
        StatbufIs(x);
      }
    }
  }

  lemma StatRemembers(s: State, c: Cid)
    requires Inv(s) && c in s.ctxs && s.pc.Idle? && s.ctxs[c].inFlight
    ensures var x := s.ctxs[c]; Remembers(x, x.seen) && x.timer.Inactive?
  {
    assert CtxOk(s, c);
  }

  lemma StatbufIs(x: Ctx)
    requires Remembers(x, x.seen)
    ensures x.statbuf == LastGood(x.seen)
  {
  }

  lemma ReturnView(s: State)
    requires Inv(s) && Guard(s, CallbackReturns) && Safe(s, CallbackReturns)
    ensures Viewed(ViewOf(s), CallbackReturns, ViewOf(Apply(s, CallbackReturns)))
  {
    hide ViewOf, Inv, Polled;
    var c, t := s.pc.c, Apply(s, CallbackReturns);
    PolledAt(s, c);
    CtxChange(s, t, c, t.ctxs[c]);
    SameHandles(s, t);
    Parts(s);
    ViewAt(s, c);
    EntrySame(s, c);
    assert Calling(ViewOf(s), c);
  }

  lemma TimerView(s: State, c: Cid)
    requires Guard(s, TimerFires(c)) && Safe(s, TimerFires(c))
    ensures Viewed(ViewOf(s), TimerFires(c), ViewOf(Apply(s, TimerFires(c))))
  {
    hide ViewOf;
    var t := Apply(s, TimerFires(c));
    CtxChange(s, t, c, t.ctxs[c]);
    SameHandles(s, t);
    Parts(s);
    ViewAt(s, c);
    EntrySame(s, c);
  }

  lemma FreedView(s: State, c: Cid)
    requires Inv(s) && Guard(s, TimerClosed(c)) && Safe(s, TimerClosed(c))
    ensures Viewed(ViewOf(s), TimerClosed(c), ViewOf(Apply(s, TimerClosed(c))))
  {
    var t := Apply(s, TimerClosed(c));
    SameHandles(s, t);
    hide Inv;
    assert SeenOf(t) == SeenOf(s) - {c} && CallsOf(t) == CallsOf(s) - {c};
    assert Those(t, InFlight) == Those(s, InFlight) && Those(t, Armed) == Those(s, Armed);
    assert Those(t, Ending) == Those(s, Ending) - {c};
  }

  /** In every run, each step does what it means. */
  lemma StepView(ss: seq<State>, steps: seq<Step>, i: nat)
    requires RunOf(ss, steps) && i < |steps|
    ensures Viewed(ViewOf(ss[i]), steps[i], ViewOf(ss[i + 1]))
  {
    RunInv(ss, steps, i);
    var s := ss[i];
    hide Inv, ViewOf;
    match steps[i]
    case Start(h, c) => StartView(s, h, c);
    case StartRefused(h, c) => RefusedView(s, h, c);
    case Stop(h) => StopView(s, h);
    case Close(h) => CloseView(s, h);
    case StatDone(c, o) => StatView(s, c, o);
    case CallbackReturns => ReturnView(s);
    case TimerFires(c) => TimerView(s, c);
    case TimerClosed(c) => FreedView(s, c);
  }

  lemma RefusedView(s: State, h: Hid, c: Cid)
    requires Guard(s, StartRefused(h, c))
    ensures ViewOf(Apply(s, StartRefused(h, c))) == ViewOf(s)
  {
  }

  lemma Extend(ss: seq<State>, steps: seq<Step>, step: Step) returns (t: State)
    requires RunOf(ss, steps) && Guard(ss[|steps|], step) && Safe(ss[|steps|], step)
    ensures t == Apply(ss[|steps|], step) && RunOf(ss + [t], steps + [step])
  {
    hide Guard, Safe, Apply;
    t := Apply(ss[|steps|], step);
    var ss', steps' := ss + [t], steps + [step];
    forall i | 0 <= i < |steps'|
      ensures Guard(ss'[i], steps'[i]) && (Safe(ss'[i], steps'[i]) ==> ss'[i + 1] == Apply(ss'[i], steps'[i]))
    {
      assert i < |steps| ==> steps'[i] == steps[i] && ss'[i] == ss[i] && ss'[i + 1] == ss[i + 1];
    }
  }

  /** Two different results in a row: the user is called with the first one as the previous and the second one as the
      current. */
  lemma ChangeReported(h: Hid, c: Cid, a: Stat, b: Stat) returns (ss: seq<State>, steps: seq<Step>)
    requires !StatEq(a, b)
    ensures steps == [Start(h, c), StatDone(c, Good(a)), TimerFires(c), StatDone(c, Good(b))] && RunOf(ss, steps)
    ensures c in ss[4].ctxs && ss[4].ctxs[c].reports == [Report(h, 0, a, b)] && ss[4].pc == InCallback(c, Good(b))
  {
    hide RunOf, StatEq;
    var s := State(map[h := Handle(false, None, false)], map[], Idle, multiset{});
    ss, steps := [s], [];
    FirstState(s);
    var s1 := Extend(ss, steps, Start(h, c));
    ss, steps := ss + [s1], steps + [Start(h, c)];
    var s2 := Extend(ss, steps, StatDone(c, Good(a)));
    ss, steps := ss + [s2], steps + [StatDone(c, Good(a))];
    var s3 := Extend(ss, steps, TimerFires(c));
    ss, steps := ss + [s3], steps + [TimerFires(c)];
    var s4 := Extend(ss, steps, StatDone(c, Good(b)));
    ss, steps := ss + [s4], steps + [StatDone(c, Good(b))];
  }

  lemma FirstState(s: State)
    requires s.ctxs == map[] && s.linked == multiset{} && s.pc.Idle?
    requires forall h :: h in s.handles ==> s.handles[h] == Handle(false, None, false)
    ensures RunOf([s], [])
  {
  }
}
