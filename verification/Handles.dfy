/** The accounting of handles: the macros of libs/libuv/uv-common.h, and uv_close and the closing of handles in
    libs/libuv/unix/core.c, as a step system. */
module Handles {
  import opened Basics

  type Hid = nat

  /** NULL, or a handle. */
  datatype Ptr = Null | To(h: Hid)

  /** The flags of a handle, whether it is in loop->handle_queue, whether it has a close callback, and its history
      since uv__handle_init: how often that callback was called. */
  datatype Handle = Handle(
    active: bool, ref: bool, closing: bool, closed: bool, queued: bool, callback: bool, calls: nat)

  /** Where the loop thread stands: in user code outside of the closing of handles; at the head of the loop in
      uv__run_closing_handles with the pointer p; in uv__finish_close of a handle that is marked as closed, where
      uv__stream_destroy and uv__udp_finish_close call back for requests; or in a close callback. The pointer q was read
      before. */
  datatype Pc = Outside | AtHead(p: Ptr) | InDestroy(h: Hid, q: Ptr) | InCallback(q: Ptr)

  /** `list` and `pass` are history: the handles linked from closing_handles, and from p or q. */
  datatype State = State(
    handles: map<Hid, Handle>, next: map<Hid, Ptr>, closingHandles: Ptr, activeHandles: int, pc: Pc,
    list: seq<Hid>, pass: seq<Hid>)

  datatype Step =
    | InitHandle(h: Hid)
    | Start(h: Hid)
    | Stop(h: Hid)
    | Ref(h: Hid)
    | Unref(h: Hid)
    | Close(h: Hid, callback: bool, stops: bool)  // stops: the function for the type stops the handle at once
    | RunClosing
    | FinishNext
    | FinishRest
    | Return
    | EndPass

  ghost predicate UserCode(s: State) {
    s.pc.Outside? || s.pc.InDestroy? || s.pc.InCallback?
  }

  ghost predicate InQueue(s: State, h: Hid) {
    h in s.handles && s.handles[h].queued
  }

  /** A handle is used from its initialisation to the end of its closing, and closed once. */
  ghost predicate Guard(s: State, step: Step) {
    match step
    case InitHandle(h) => UserCode(s) && h in s.handles && !s.handles[h].queued
    case Start(h) => UserCode(s) && InQueue(s, h)
    case Stop(h) => UserCode(s) && InQueue(s, h)
    case Ref(h) => UserCode(s) && InQueue(s, h)
    case Unref(h) => UserCode(s) && InQueue(s, h)
    case Close(h, _, _) => UserCode(s) && InQueue(s, h) && !s.handles[h].closing
    case RunClosing => s.pc.Outside?
    case FinishNext => s.pc.AtHead? && s.pc.p.To?
    case FinishRest => s.pc.InDestroy?
    case Return => s.pc.InCallback?
    case EndPass => s.pc.AtHead? && s.pc.p.Null?
  }

  /** The handle that is finished is one that waits for it: the assertions of uv__finish_close. */
  ghost predicate Safe(s: State, step: Step)
    requires Guard(s, step)
  {
    match step
    case FinishNext =>
      && InQueue(s, s.pc.p.h) && s.pc.p.h in s.next
      && s.handles[s.pc.p.h].closing && !s.handles[s.pc.p.h].closed
    case FinishRest => InQueue(s, s.pc.h)
    case Close(h, _, _) => !s.handles[h].closed
    case _ => true
  }

  function With(s: State, h: Hid, x: Handle, add: int): State {
    s.(handles := s.handles[h := x], activeHandles := s.activeHandles + add)
  }

  /** uv__handle_start and the other macros: the new flags, and what they add to active_handles. On Unix
      UV__HANDLE_CLOSING is no flag. */
  function Started(x: Handle): (Handle, int) {
    if x.active then (x, 0) else (x.(active := true), if x.ref then 1 else 0)
  }

  function Stopped(x: Handle): (Handle, int) {
    if !x.active then (x, 0) else (x.(active := false), if x.ref then -1 else 0)
  }

  function Reffed(x: Handle): (Handle, int) {
    if x.ref then (x, 0) else (x.(ref := true), if x.active then 1 else 0)
  }

  function Unreffed(x: Handle): (Handle, int) {
    if !x.ref then (x, 0) else (x.(ref := false), if x.active then -1 else 0)
  }

  function Changed(s: State, h: Hid, change: (Handle, int)): State {
    With(s, h, change.0, change.1)
  }

  ghost function Apply(s: State, step: Step): State
    requires Guard(s, step) && Safe(s, step)
  {
    match step
    case InitHandle(h) => With(s, h, Handle(false, true, false, false, true, false, 0), 0).(next := s.next[h := Null])
    case Start(h) => Changed(s, h, Started(s.handles[h]))
    case Stop(h) => Changed(s, h, Stopped(s.handles[h]))
    case Ref(h) => Changed(s, h, Reffed(s.handles[h]))
    case Unref(h) => Changed(s, h, Unreffed(s.handles[h]))
    case Close(h, callback, stops) =>
      var x := s.handles[h].(closing := true, callback := callback);
      var t := Changed(s, h, if stops then Stopped(x) else (x, 0));
      t.(next := t.next[h := t.closingHandles], closingHandles := To(h), list := [h] + t.list)
    case RunClosing => s.(pc := AtHead(s.closingHandles), closingHandles := Null, list := [], pass := s.list)
    case FinishNext =>
      var h := s.pc.p.h;
      With(s, h, s.handles[h].(closed := true), 0)
      .(pc := InDestroy(h, s.next[h]), pass := if s.pass == [] then [] else s.pass[1..])
    case FinishRest => Finished(s)
    case Return => s.(pc := AtHead(s.pc.q))
    case EndPass => s.(pc := Outside)
  }

  /** The rest of uv__finish_close: the handle is unreferenced and dequeued, and its close callback is called. */
  ghost function Finished(s: State): State
    requires s.pc.InDestroy? && s.pc.h in s.handles
  {
    var h := s.pc.h;
    var (x, add) := Unreffed(s.handles[h]);
    var y := x.(queued := false, calls := x.calls + if x.callback then 1 else 0);
    With(s, h, y, add).(pc := if x.callback then InCallback(s.pc.q) else AtHead(s.pc.q))
  }

  // ---------- Invariant ----------

  /** The handles that keep the loop alive. */
  ghost function Live(s: State): set<Hid> {
    set h | h in s.handles && s.handles[h].queued && s.handles[h].active && s.handles[h].ref
  }

  ghost function Nth(l: seq<Hid>, i: int): Ptr {
    if 0 <= i < |l| then To(l[i]) else Null
  }

  ghost predicate LinkedAt(next: map<Hid, Ptr>, l: seq<Hid>, i: int) {
    0 <= i < |l| && l[i] in next && next[l[i]] == Nth(l, i + 1)
  }

  /** The list from `p` holds the handles `l`. */
  ghost predicate Chain(next: map<Hid, Ptr>, p: Ptr, l: seq<Hid>) {
    p == Nth(l, 0) && forall i :: 0 <= i < |l| ==> LinkedAt(next, l, i)
  }

  ghost predicate Distinct(l: seq<Hid>) {
    forall i, j :: 0 <= i < j < |l| ==> l[i] != l[j]
  }

  ghost function Cursor(pc: Pc): Ptr {
    match pc
    case Outside => Null
    case AtHead(p) => p
    case InDestroy(_, q) => q
    case InCallback(q) => q
  }

  /** A handle that is being closed is in exactly one of the two lists until uv__finish_close marks it, and in the queue
      until that is over. */
  ghost predicate HandleOk(s: State, h: Hid)
    requires h in s.handles
  {
    var x := s.handles[h];
    && (h in s.list || h in s.pass <==> x.queued && x.closing && !x.closed)
    && (x.queued && x.closed <==> s.pc.InDestroy? && s.pc.h == h)
    && (x.queued ==> x.calls == 0)
    && (x.closed ==> x.closing) && (x.closed && !x.queued ==> x.calls == if x.callback then 1 else 0)
  }

  ghost predicate ListsOk(s: State) {
    && Chain(s.next, s.closingHandles, s.list) && Chain(s.next, Cursor(s.pc), s.pass)
    && Distinct(s.list + s.pass) && (s.pc.Outside? ==> s.pass == [])
    && (forall h :: h in s.list + s.pass ==> h in s.handles) && (s.pc.InDestroy? ==> s.pc.h in s.handles)
  }

  ghost predicate Inv(s: State) {
    && ListsOk(s) && s.activeHandles == |Live(s)|
    && (forall h {:trigger HandleOk(s, h)} :: h in s.handles ==> HandleOk(s, h))
  }

  // ---------- Steps ----------

  /** A change of the flags of one handle changes the set by this handle. */
  lemma LiveChange(s: State, h: Hid, x: Handle)
    requires h in s.handles
    ensures var t := s.(handles := s.handles[h := x]);
            |Live(t)| == |Live(s)| - (if h in Live(s) then 1 else 0) + (if x.queued && x.active && x.ref then 1 else 0)
  {
    hide Live;
    var t := s.(handles := s.handles[h := x]);
    LiveSet(s, h, x);
    CardWithout(Live(s), h);
  }

  lemma LiveSet(s: State, h: Hid, x: Handle)
    requires h in s.handles
    ensures var t, rest := s.(handles := s.handles[h := x]), Live(s) - {h};
            Live(t) == if x.queued && x.active && x.ref then rest + {h} else rest
  {
  }

  lemma CardWithout(live: set<Hid>, h: Hid)
    ensures |live - {h}| == |live| - (if h in live then 1 else 0) && |live - {h} + {h}| == |live - {h}| + 1
  {
  }

  lemma SameLive(s: State, t: State)
    requires t.handles == s.handles
    ensures Live(t) == Live(s)
  {
  }

  ghost predicate Macro(x: Handle, change: (Handle, int)) {
    && change.0 == x.(active := change.0.active, ref := change.0.ref)
    && change.1 == (if change.0.active && change.0.ref then 1 else 0) - (if x.active && x.ref then 1 else 0)
  }

  lemma Macros(x: Handle)
    ensures Macro(x, Started(x)) && Macro(x, Stopped(x)) && Macro(x, Reffed(x)) && Macro(x, Unreffed(x))
  {
  }

  /** Each of the four macros keeps the count right. */
  lemma MacroKeeps(s: State, h: Hid, change: (Handle, int))
    requires Inv(s) && InQueue(s, h) && Macro(s.handles[h], change)
    ensures Inv(Changed(s, h, change))
  {
    hide Chain, Distinct;
    var t := Changed(s, h, change);
    LiveChange(s, h, change.0);
    SameLive(s.(handles := t.handles), t);
    forall k | k in t.handles ensures HandleOk(t, k) {
      assert HandleOk(s, k);
    }
  }

  lemma ChainFrame(next: map<Hid, Ptr>, h: Hid, v: Ptr, p: Ptr, l: seq<Hid>)
    requires Chain(next, p, l) && h !in l
    ensures Chain(next[h := v], p, l)
  {
    var next' := next[h := v];
    forall i | 0 <= i < |l| ensures LinkedAt(next', l, i) {
      assert LinkedAt(next, l, i);
    }
  }

  lemma InitKeeps(s: State, h: Hid)
    requires Inv(s) && Guard(s, InitHandle(h))
    ensures Inv(Apply(s, InitHandle(h)))
  {
    hide Chain, Distinct;
    assert HandleOk(s, h);
    var t := Apply(s, InitHandle(h));
    LiveChange(s, h, t.handles[h]);
    SameLive(s.(handles := t.handles), t);
    ChainFrame(s.next, h, Null, s.closingHandles, s.list);
    ChainFrame(s.next, h, Null, Cursor(s.pc), s.pass);
    forall k | k in t.handles ensures HandleOk(t, k) {
      assert HandleOk(s, k);
    }
  }

  lemma CloseKeeps(s: State, h: Hid, callback: bool, stops: bool)
    requires Inv(s) && Guard(s, Close(h, callback, stops))
    ensures Safe(s, Close(h, callback, stops)) && Inv(Apply(s, Close(h, callback, stops)))
  {
    assert HandleOk(s, h);
    var t := Apply(s, Close(h, callback, stops));
    CloseLists(s, h, t);
    hide Chain, Distinct;
    LiveChange(s, h, t.handles[h]);
    SameLive(s.(handles := t.handles), t);
    forall k | k in t.handles ensures HandleOk(t, k) {
      assert HandleOk(s, k);
      assert k in t.list <==> k == h || k in s.list;
    }
  }

  lemma CloseLists(s: State, h: Hid, t: State)
    requires ListsOk(s) && h !in s.list && h !in s.pass && h in s.handles && t.handles.Keys == s.handles.Keys
    requires t.next == s.next[h := s.closingHandles] && t.closingHandles == To(h) && t.list == [h] + s.list
    requires t.pc == s.pc && t.pass == s.pass
    ensures ListsOk(t)
  {
    ChainFrame(s.next, h, s.closingHandles, s.closingHandles, s.list);
    ChainFrame(s.next, h, s.closingHandles, Cursor(s.pc), s.pass);
    forall i | 0 <= i < |t.list| ensures LinkedAt(t.next, t.list, i) {
      assert i > 0 ==> LinkedAt(t.next, s.list, i - 1);
    }
    assert t.list + t.pass == [h] + (s.list + s.pass);
  }

  lemma RunClosingKeeps(s: State)
    requires Inv(s) && Guard(s, RunClosing)
    ensures Inv(Apply(s, RunClosing))
  {
    var t := Apply(s, RunClosing);
    SameLive(s, t);
    assert s.list + s.pass == t.list + t.pass;
    hide Chain, Distinct;
    forall k | k in t.handles ensures HandleOk(t, k) {
      assert HandleOk(s, k);
    }
  }

  lemma FinishLists(s: State)
    requires Inv(s) && Guard(s, FinishNext)
    ensures Safe(s, FinishNext) && ListsOk(Apply(s, FinishNext))
    ensures s.pass != [] && s.pass[0] == s.pc.p.h && Apply(s, FinishNext).pass == s.pass[1..]
    ensures s.pc.p.h !in s.list && s.pc.p.h !in s.pass[1..]
  {
    var h := s.pc.p.h;
    assert LinkedAt(s.next, s.pass, 0);
    assert HandleOk(s, h);
    var t := Apply(s, FinishNext);
    assert Chain(t.next, Cursor(t.pc), t.pass) by {
      forall i | 0 <= i < |t.pass| ensures LinkedAt(t.next, t.pass, i) {
        assert LinkedAt(s.next, s.pass, i + 1);
      }
    }
    DistinctTail(s.list, s.pass);
  }

  lemma DistinctTail(l: seq<Hid>, p: seq<Hid>)
    requires Distinct(l + p) && p != []
    ensures Distinct(l + p[1..]) && p[0] !in l && p[0] !in p[1..]
  {
    var w, t := l + p, l + p[1..];
    assert w[|l|] == p[0];
    assert forall i :: 0 <= i < |l| ==> l[i] == w[i];
    assert forall i :: 0 <= i < |p| - 1 ==> p[1..][i] == w[|l| + 1 + i];
    assert forall i :: 0 <= i < |t| ==> t[i] == w[if i < |l| then i else i + 1];
  }

  lemma FinishKeeps(s: State)
    requires Inv(s) && Guard(s, FinishNext)
    ensures Safe(s, FinishNext) && Inv(Apply(s, FinishNext))
  {
    hide Chain, Distinct;
    FinishLists(s);
    var h, t := s.pc.p.h, Apply(s, FinishNext);
    assert HandleOk(s, h);
    LiveChange(s, h, t.handles[h]);
    SameLive(s.(handles := t.handles), t);
    assert s.pass == [h] + t.pass;
    forall k | k in t.handles ensures HandleOk(t, k) {
      assert HandleOk(s, k);
      assert k != h ==> (k in t.pass <==> k in s.pass);
    }
  }

  /** The handle leaves queue and count, and its close callback is called. */
  lemma FinishRestKeeps(s: State)
    requires Inv(s) && Guard(s, FinishRest)
    ensures Safe(s, FinishRest) && Inv(Finished(s))
  {
    hide Chain, Distinct;
    var h, t := s.pc.h, Finished(s);
    assert HandleOk(s, h);
    LiveChange(s, h, t.handles[h]);
    SameLive(s.(handles := t.handles), t);
    forall k | k in t.handles ensures HandleOk(t, k) {
      assert HandleOk(s, k);
    }
  }

  lemma ReturnKeeps(s: State, step: Step)
    requires Inv(s) && step in {Return, EndPass} && Guard(s, step)
    ensures Inv(Apply(s, step))
  {
    var t := Apply(s, step);
    SameLive(s, t);
    forall k | k in t.handles ensures HandleOk(t, k) {
      assert HandleOk(s, k);
    }
  }

  lemma StepKeeps(s: State, step: Step)
    requires Inv(s) && Guard(s, step)
    ensures Safe(s, step) && Inv(Apply(s, step))
  {
    hide Inv;
    match step
    case InitHandle(h) => InitKeeps(s, h);
    case Start(h) =>
      Macros(s.handles[h]);
      MacroKeeps(s, h, Started(s.handles[h]));
    case Stop(h) =>
      Macros(s.handles[h]);
      MacroKeeps(s, h, Stopped(s.handles[h]));
    case Ref(h) =>
      Macros(s.handles[h]);
      MacroKeeps(s, h, Reffed(s.handles[h]));
    case Unref(h) =>
      Macros(s.handles[h]);
      MacroKeeps(s, h, Unreffed(s.handles[h]));
    case Close(h, callback, stops) => CloseKeeps(s, h, callback, stops);
    case RunClosing => RunClosingKeeps(s);
    case FinishNext => FinishKeeps(s);
    case FinishRest => FinishRestKeeps(s);
    case Return => ReturnKeeps(s, step);
    case EndPass => ReturnKeeps(s, step);
  }

  // ---------- Runs ----------

  ghost predicate Initial(s: State) {
    && s.pc.Outside? && s.closingHandles.Null? && s.activeHandles == 0 && s.list == [] && s.pass == []
    && forall h :: h in s.handles ==> s.handles[h] == Handle(false, false, false, false, false, false, 0)
  }

  ghost predicate RunOf(ss: seq<State>, steps: seq<Step>) {
    && |ss| == |steps| + 1 && Initial(ss[0])
    && forall i :: 0 <= i < |steps| ==>
         Guard(ss[i], steps[i]) && (Safe(ss[i], steps[i]) ==> ss[i + 1] == Apply(ss[i], steps[i]))
  }

  lemma {:induction false} RunInv(ss: seq<State>, steps: seq<Step>, i: nat)
    requires RunOf(ss, steps) && i < |ss|
    ensures Inv(ss[i]) && (i < |steps| ==> Safe(ss[i], steps[i]))
  {
    hide Inv, Guard, Safe, Apply;
    if i == 0 {
      InitialInv(ss[0]);
    } else {
      RunInv(ss, steps, i - 1);
      StepKeeps(ss[i - 1], steps[i - 1]);
    }
    if i < |steps| {
      StepKeeps(ss[i], steps[i]);
    }
  }

  lemma InitialInv(s: State)
    requires Initial(s)
    ensures Inv(s)
  {
    assert Live(s) == {};
  }

  /** In every run, active_handles is the number of handles in the queue that are active and referenced. */
  lemma CountsLive(ss: seq<State>, steps: seq<Step>, i: nat)
    requires RunOf(ss, steps) && i < |ss|
    ensures ss[i].activeHandles == |Live(ss[i])|
  {
    RunInv(ss, steps, i);
  }

  /** In every run, a close callback is called when its handle is finished, and never again; between uv_close and the
      start of uv__finish_close the handle waits in one of the two lists, and during it only this handle is marked as
      closed and still in the queue. */
  lemma ClosedOnce(ss: seq<State>, steps: seq<Step>, i: nat, h: Hid)
    requires RunOf(ss, steps) && i < |ss| && h in ss[i].handles
    ensures var x, pc := ss[i].handles[h], ss[i].pc;
            && x.calls == (if x.closed && x.callback && !(pc.InDestroy? && pc.h == h) then 1 else 0)
            && (x.closing && !x.closed <==> h in ss[i].list || h in ss[i].pass)
            && (pc.InDestroy? && pc.h == h <==> x.closed && x.queued)
  {
    RunInv(ss, steps, i);
    assert HandleOk(ss[i], h);
    Unqueued(ss, steps, i, h);
  }

  /** A handle outside of the queue was never initialised, or is closed. */
  lemma {:induction false} Unqueued(ss: seq<State>, steps: seq<Step>, i: nat, h: Hid)
    requires RunOf(ss, steps) && i < |ss| && h in ss[i].handles
    ensures h in ss[0].handles
    ensures !ss[i].handles[h].queued ==>
            ss[i].handles[h].closed || ss[i].handles[h] == Handle(false, false, false, false, false, false, 0)
  {
    if i > 0 {
      RunInv(ss, steps, i - 1);
      SameHandles(ss[i - 1], steps[i - 1]);
      Unqueued(ss, steps, i - 1, h);
      if steps[i - 1].FinishRest? {
        assert HandleOk(ss[i - 1], ss[i - 1].pc.h);
      }
    }
  }

  lemma SameHandles(s: State, step: Step)
    requires Guard(s, step) && Safe(s, step)
    ensures Apply(s, step).handles.Keys == s.handles.Keys
  {
  }

  /** A pass only gets shorter: handles that close callbacks close wait for the next pass. */
  lemma PassShrinks(s: State, step: Step)
    requires Inv(s) && Guard(s, step) && !s.pc.Outside?
    ensures Safe(s, step)
    ensures Apply(s, step).pass == if step.FinishNext? then s.pass[1..] else s.pass
    ensures step.Close? ==> step.h in Apply(s, step).list && step.h !in s.pass
  {
    StepKeeps(s, step);
    if step.Close? {
      assert HandleOk(s, step.h);
    }
    if step.FinishNext? {
      FinishLists(s);
    }
  }

  /** The part of uv__loop_alive that concerns handles. */
  predicate Alive(s: State) {
    s.activeHandles > 0 || s.closingHandles != Null
  }

  /** In every run, between two passes the loop is alive exactly if a handle in the queue is active and referenced,
      or waits to be closed. */
  lemma AliveExactly(ss: seq<State>, steps: seq<Step>, i: nat)
    requires RunOf(ss, steps) && i < |ss| && ss[i].pc.Outside?
    ensures Alive(ss[i]) <==>
            exists h :: h in ss[i].handles &&
              (h in Live(ss[i]) || (ss[i].handles[h].closing && !ss[i].handles[h].closed))
  {
    RunInv(ss, steps, i);
    var s := ss[i];
    if Alive(s) {
      if s.activeHandles > 0 {
        var h :| h in Live(s);
      } else {
        ClosedOnce(ss, steps, i, s.list[0]);
      }
    }
    if h :| h in s.handles && (h in Live(s) || (s.handles[h].closing && !s.handles[h].closed)) {
      if h !in Live(s) {
        ClosedOnce(ss, steps, i, h);
      }
    }
  }

  /** The handles that the steps from `i` to `j` finish, in order. */
  ghost function Finishes(ss: seq<State>, steps: seq<Step>, i: nat, j: nat): seq<Hid>
    requires i <= j <= |steps| < |ss|
    decreases j
  {
    if i == j then []
    else
      var s := ss[j - 1];
      Finishes(ss, steps, i, j - 1) + if steps[j - 1].FinishNext? && s.pc.AtHead? && s.pc.p.To? then [s.pc.p.h] else []
  }

  /** From the start of a pass at step `i` to state `j`. */
  ghost predicate InPass(ss: seq<State>, steps: seq<Step>, i: nat, j: nat) {
    RunOf(ss, steps) && i < j < |ss| && steps[i] == RunClosing && forall k :: i < k < j ==> !ss[k].pc.Outside?
  }

  lemma {:induction false} PassSoFar(ss: seq<State>, steps: seq<Step>, i: nat, j: nat)
    requires InPass(ss, steps, i, j)
    ensures Finishes(ss, steps, i, j) + ss[j].pass == ss[i].list
    decreases j
  {
    hide Inv, Guard, Safe, Apply;
    RunInv(ss, steps, j - 1);
    if j == i + 1 {
      PassBegins(ss[i]);
    } else {
      PassSoFar(ss, steps, i, j - 1);
      PassShrinks(ss[j - 1], steps[j - 1]);
      if steps[j - 1].FinishNext? {
        FinishFirst(ss[j - 1]);
        assert ss[j - 1].pass == [ss[j - 1].pass[0]] + ss[j].pass;
      }
    }
  }

  lemma PassBegins(s: State)
    requires Guard(s, RunClosing) && Safe(s, RunClosing)
    ensures Apply(s, RunClosing).pass == s.list
  {
  }

  lemma FinishFirst(s: State)
    requires Inv(s) && Guard(s, FinishNext)
    ensures s.pc.AtHead? && s.pc.p.To? && s.pass != [] && s.pass[0] == s.pc.p.h
  {
    FinishLists(s);
  }

  /** In every run, a pass finishes exactly the handles that were listed when it began, in their order: handles that
      callbacks close meanwhile wait for the next pass. */
  lemma PassFinishes(ss: seq<State>, steps: seq<Step>, i: nat, j: nat)
    requires InPass(ss, steps, i, j) && ss[j].pc.Outside?
    ensures Finishes(ss, steps, i, j) == ss[i].list
  {
    PassSoFar(ss, steps, i, j);
    RunInv(ss, steps, j);
  }

  // ---------- What every step does ----------

  /** The handles of a loop without flags, counter and pointers: which are initialised and not yet finished, active,
      referenced, closing, closed, and have a close callback; those that wait for a pass or for their turn in it; and
          how
      often each was called back. */
  datatype Books = Books(
    open: set<Hid>, active: set<Hid>, ref: set<Hid>, closing: set<Hid>, closed: set<Hid>, callback: set<Hid>,
    waiting: seq<Hid>, turns: seq<Hid>, calls: map<Hid, nat>)

  datatype Flag = Queued | Active | Referenced | Closing | Closed | Callback

  predicate Has(x: Handle, f: Flag) {
    match f
    case Queued => x.queued
    case Active => x.active
    case Referenced => x.ref
    case Closing => x.closing
    case Closed => x.closed
    case Callback => x.callback
  }

  ghost function Those(s: State, f: Flag): set<Hid> {
    set h | h in s.handles && Has(s.handles[h], f)
  }

  ghost function CallsOf(s: State): map<Hid, nat> {
    map h | h in s.handles :: s.handles[h].calls
  }

  ghost function BooksOf(s: State): Books {
    Books(Those(s, Queued), Those(s, Active), Those(s, Referenced), Those(s, Closing), Those(s, Closed),
          Those(s, Callback),
          s.list, s.pass, CallsOf(s))
  }

  /** The handle in uv__finish_close: closed, and not yet finished. */
  ghost predicate Finishing(b: Books, h: Hid) {
    h in b.open && h in b.closed
  }

  /** What a step means for the books. */
  ghost predicate Booked(b: Books, step: Step, b': Books) {
    match step
    case InitHandle(h) =>
      b' == b.(open := b.open + {h}, active := b.active - {h}, ref := b.ref + {h}, closing := b.closing - {h},
               closed := b.closed - {h}, callback := b.callback - {h}, calls := b.calls[h := 0])
    case Start(h) => b' == b.(active := b.active + {h})
    case Stop(h) => b' == b.(active := b.active - {h})
    case Ref(h) => b' == b.(ref := b.ref + {h})
    case Unref(h) => b' == b.(ref := b.ref - {h})
    case Close(h, callback, stops) =>
      b' == b.(closing := b.closing + {h}, waiting := [h] + b.waiting,
               active := if stops then b.active - {h} else b.active,
               callback := if callback then b.callback + {h} else b.callback - {h})
    case RunClosing => b' == b.(waiting := [], turns := b.waiting)
    case FinishNext => b.turns != [] && b' == b.(closed := b.closed + {b.turns[0]}, turns := b.turns[1..])
    case FinishRest =>
      exists h :: Finishing(b, h) && h in b.calls &&
        b' == b.(open := b.open - {h}, ref := b.ref - {h},
                 calls := if h in b.callback then b.calls[h := b.calls[h] + 1] else b.calls)
    case Return => b' == b
    case EndPass => b' == b
  }

  /** The books after the handle `h` has become `x`. */
  ghost function Entry(b: Books, h: Hid, x: Handle): Books {
    b.(open := Marked(b.open, h, x.queued), active := Marked(b.active, h, x.active), ref := Marked(b.ref, h, x.ref),
       closing := Marked(b.closing, h, x.closing), closed := Marked(b.closed, h, x.closed),
       callback := Marked(b.callback, h, x.callback), calls := b.calls[h := x.calls])
  }

  lemma ThoseChange(s: State, t: State, h: Hid, x: Handle, f: Flag)
    requires h in s.handles && t.handles == s.handles[h := x]
    ensures Those(t, f) == Marked(Those(s, f), h, Has(x, f))
  {
  }

  lemma BooksChange(s: State, t: State, h: Hid, x: Handle)
    requires h in s.handles && t.handles == s.handles[h := x]
    ensures BooksOf(t) == Entry(BooksOf(s), h, x).(waiting := t.list, turns := t.pass)
  {
    hide Those, Marked;
    ThoseChange(s, t, h, x, Queued);
    ThoseChange(s, t, h, x, Active);
    ThoseChange(s, t, h, x, Referenced);
    ThoseChange(s, t, h, x, Closing);
    ThoseChange(s, t, h, x, Closed);
    ThoseChange(s, t, h, x, Callback);
    assert CallsOf(t) == CallsOf(s)[h := x.calls];
  }

  lemma BooksAt(s: State, h: Hid)
    requires h in s.handles
    ensures var b, x := BooksOf(s), s.handles[h];
            && b.waiting == s.list && b.turns == s.pass && h in b.calls && b.calls[h] == x.calls
            && (h in b.open <==> x.queued) && (h in b.active <==> x.active) && (h in b.ref <==> x.ref)
            && (h in b.closing <==> x.closing) && (h in b.closed <==> x.closed) && (h in b.callback <==> x.callback)
  {
  }

  /** A flag that stays leaves its set as it is. */
  lemma EntrySame(s: State, h: Hid)
    requires h in s.handles
    ensures Entry(BooksOf(s), h, s.handles[h]) == BooksOf(s)
  {
    hide BooksOf, Marked;
    BooksAt(s, h);
    var b := BooksOf(s);
    MarkedSame(b.open, h);
    MarkedSame(b.active, h);
    MarkedSame(b.ref, h);
    MarkedSame(b.closing, h);
    MarkedSame(b.closed, h);
    MarkedSame(b.callback, h);
    assert b.calls[h := b.calls[h]] == b.calls;
  }

  lemma InitBooks(s: State, h: Hid)
    requires Guard(s, InitHandle(h))
    ensures Booked(BooksOf(s), InitHandle(h), BooksOf(Apply(s, InitHandle(h))))
  {
    hide BooksOf;
    var t := Apply(s, InitHandle(h));
    BooksAt(s, h);
    BooksChange(s, t, h, t.handles[h]);
  }

  /** The four macros do what their names say, and no more. */
  lemma MacroBooks(s: State, step: Step)
    requires Guard(s, step) && (step.Start? || step.Stop? || step.Ref? || step.Unref?)
    ensures Booked(BooksOf(s), step, BooksOf(Apply(s, step)))
  {
    hide BooksOf;
    var t, h := Apply(s, step), step.h;
    BooksAt(s, h);
    BooksChange(s, t, h, t.handles[h]);
    EntrySame(s, h);
  }

  lemma CloseBooks(s: State, h: Hid, callback: bool, stops: bool)
    requires Guard(s, Close(h, callback, stops)) && Safe(s, Close(h, callback, stops))
    ensures Booked(BooksOf(s), Close(h, callback, stops), BooksOf(Apply(s, Close(h, callback, stops))))
  {
    hide BooksOf;
    var t := Apply(s, Close(h, callback, stops));
    BooksAt(s, h);
    BooksChange(s, t, h, t.handles[h]);
    EntrySame(s, h);
  }

  lemma FinishBooks(s: State)
    requires Inv(s) && Guard(s, FinishNext)
    ensures Safe(s, FinishNext) && Booked(BooksOf(s), FinishNext, BooksOf(Apply(s, FinishNext)))
  {
    hide BooksOf, Chain, Distinct, HandleOk, Live;
    FinishLists(s);
    var t, h := Apply(s, FinishNext), s.pc.p.h;
    BooksAt(s, h);
    BooksChange(s, t, h, t.handles[h]);
    EntrySame(s, h);
  }

  lemma FinishRestBooks(s: State)
    requires Inv(s) && Guard(s, FinishRest)
    ensures Safe(s, FinishRest) && Booked(BooksOf(s), FinishRest, BooksOf(Finished(s)))
  {
    hide BooksOf, Chain, Distinct, ListsOk, Live;
    FinishingAt(s);
    var t, h := Finished(s), s.pc.h;
    BooksAt(s, h);
    BooksChange(s, t, h, t.handles[h]);
    EntrySame(s, h);
    assert Finishing(BooksOf(s), h);
  }

  lemma FinishingAt(s: State)
    requires Inv(s) && Guard(s, FinishRest)
    ensures s.pc.h in s.handles && s.handles[s.pc.h].queued && s.handles[s.pc.h].closed
  {
    assert HandleOk(s, s.pc.h);
  }

  /** In every run, each step does to the handles what it means for the books, and active_handles is the number of open
      handles that are active and referenced. */
  lemma StepBooks(ss: seq<State>, steps: seq<Step>, i: nat)
    requires RunOf(ss, steps) && i < |steps|
    ensures Booked(BooksOf(ss[i]), steps[i], BooksOf(ss[i + 1]))
    ensures var b := BooksOf(ss[i + 1]); ss[i + 1].activeHandles == |b.open * b.active * b.ref|
  {
    RunInv(ss, steps, i);
    RunInv(ss, steps, i + 1);
    var b := BooksOf(ss[i + 1]);
    assert Live(ss[i + 1]) == b.open * b.active * b.ref;
    var s := ss[i];
    hide Inv, Live;
    match steps[i]
    case InitHandle(h) => InitBooks(s, h);
    case Close(h, callback, stops) => CloseBooks(s, h, callback, stops);
    case FinishNext => FinishBooks(s);
    case FinishRest => FinishRestBooks(s);
    case RunClosing =>
    case Return =>
    case EndPass =>
    case _ => MacroBooks(s, steps[i]);
  }

  /** A handle that is initialised and started keeps the loop alive, and no longer when it is unreferenced. */
  lemma StartedAlive(s: State, h: Hid) returns (ss: seq<State>)
    requires Initial(s) && h in s.handles
    ensures RunOf(ss, [InitHandle(h), Start(h), Unref(h)]) && ss[0] == s
    ensures ss[2].activeHandles == 1 && Alive(ss[2]) && ss[3].activeHandles == 0 && !Alive(ss[3])
  {
    var s1 := Apply(s, InitHandle(h));
    var s2 := Apply(s1, Start(h));
    ss := [s, s1, s2, Apply(s2, Unref(h))];
  }

  lemma Extend(ss: seq<State>, steps: seq<Step>, step: Step) returns (t: State)
    requires RunOf(ss, steps) && Guard(ss[|steps|], step) && Safe(ss[|steps|], step)
    ensures t == Apply(ss[|steps|], step) && RunOf(ss + [t], steps + [step])
  {
    hide Guard, Safe, Apply, Initial;
    t := Apply(ss[|steps|], step);
    var ss', steps' := ss + [t], steps + [step];
    forall i | 0 <= i < |steps'|
      ensures Guard(ss'[i], steps'[i]) && (Safe(ss'[i], steps'[i]) ==> ss'[i + 1] == Apply(ss'[i], steps'[i]))
    {
      assert i < |steps| ==> steps'[i] == steps[i] && ss'[i] == ss[i] && ss'[i + 1] == ss[i + 1];
    }
  }

  /** A handle that is closed waits, and is finished and called back in the next pass, after which the loop is back
      outside. */
  lemma ClosedRun(s: State, h: Hid) returns (ss: seq<State>, steps: seq<Step>)
    requires Initial(s) && h in s.handles
    ensures RunOf(ss, steps) && ss[0] == s && |ss| == 8
    ensures steps == [InitHandle(h), Close(h, true, true), RunClosing, FinishNext, FinishRest, Return, EndPass]
    ensures Alive(ss[2]) && ss[7].pc.Outside? && !Alive(ss[7])
    ensures h in ss[7].handles && ss[7].handles[h] == Handle(false, false, true, true, false, true, 1)
  {
    hide RunOf;
    StartRun(s);
    var s1 := Extend([s], [], InitHandle(h));
    var s2 := Extend([s] + [s1], [] + [InitHandle(h)], Close(h, true, true));
    ss, steps := [s] + [s1] + [s2], [] + [InitHandle(h)] + [Close(h, true, true)];
    hide Guard, Safe, Apply;
    ss, steps := PassRun(ss, steps, h);
  }

  /** A pass over one handle. */
  lemma PassRun(ss: seq<State>, steps: seq<Step>, h: Hid) returns (ss': seq<State>, steps': seq<Step>)
    requires RunOf(ss, steps)
    requires var s := ss[|steps|];
             && s.pc.Outside? && s.closingHandles == To(h) && s.activeHandles == 0 && s.list == [h] && h in s.next
             && s.next[h] == Null && h in s.handles && s.handles[h] == Handle(false, true, true, false, true, true, 0)
    ensures RunOf(ss', steps') && |ss'| == |ss| + 5 && ss <= ss'
    ensures steps' == steps + [RunClosing, FinishNext, FinishRest, Return, EndPass]
    ensures var t := ss'[|steps'|];
            && t.pc.Outside? && !Alive(t) && h in t.handles
            && t.handles[h] == Handle(false, false, true, true, false, true, 1)
  {
    hide RunOf;
    RunLength(ss, steps);
    var s3 := Extend(ss, steps, RunClosing);
    ss', steps' := ss + [s3], steps + [RunClosing];
    var s4 := Extend(ss', steps', FinishNext);
    ss', steps' := ss' + [s4], steps' + [FinishNext];
    var s5 := Extend(ss', steps', FinishRest);
    ss', steps' := ss' + [s5], steps' + [FinishRest];
    var s6 := Extend(ss', steps', Return);
    ss', steps' := ss' + [s6], steps' + [Return];
    var s7 := Extend(ss', steps', EndPass);
    ss', steps' := ss' + [s7], steps' + [EndPass];
  }

  lemma RunLength(ss: seq<State>, steps: seq<Step>)
    requires RunOf(ss, steps)
    ensures |ss| == |steps| + 1
  {
  }

  lemma StartRun(s: State)
    requires Initial(s)
    ensures RunOf([s], [])
  {
  }
}
