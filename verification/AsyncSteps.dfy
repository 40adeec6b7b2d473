/** What every step of the wakeups does, in terms of sequences of handles and of the counters. */
module AsyncSteps {
  import opened Rings
  import opened Async

  /** The state after the step, but for the links, which hold the lists. */
  ghost predicate Does(s: State, step: Step, u: State) {
    var v := u.(links := s.links);
    match step
    case SendRead(t, h) =>
      && t in s.senders && h in s.handles
      && var x := s.handles[h];
         if x.pending then v == s.(handles := s.handles[h := x.(asked := x.asked + 1)])
         else v == s.(senders := s.senders[t := Cas(h)])
    case SendCas(t) =>
      && t in s.senders && s.senders[t].Cas? && s.senders[t].h in s.handles
      && var h := s.senders[t].h;
         var x := s.handles[h].(asked := s.handles[h].asked + 1);
         if x.pending then v == s.(handles := s.handles[h := x], senders := s.senders[t := Idle])
         else v == s.(handles := s.handles[h := x.(pending := true, sends := x.sends + 1)],
                      senders := s.senders[t := Write(h)])
    case SendWrite(t, full) =>
      v == s.(senders := s.senders[t := Idle], tokens := s.tokens + if full then 0 else 1)
    case Poll => v == s.(pc := Reading)
    case Read =>
      if s.eventfd then v == s.(tokens := 0, pc := Moving)
      else if s.tokens >= 1024 then v == s.(tokens := s.tokens - 1024)
      else v == s.(tokens := 0, pc := Moving)
    case MoveAll =>
      && Handles in s.rings
      && v == s.(pc := Draining, rings := map[Handles := [], Local := s.rings[Handles]])
    case Next =>
      && Handles in s.rings && Local in s.rings
      && var list := s.rings[Local];
         if list == [] then v == s.(pc := Polling, rings := map[Handles := s.rings[Handles]])
         else
           && list[0].Item?
           && v == s.(pc := Clearing(list[0].h),
                      rings := map[Handles := s.rings[Handles] + [list[0]], Local := list[1..]])
    case Clear =>
      && s.pc.Clearing? && s.pc.h in s.handles
      && var h := s.pc.h;
         var x := s.handles[h];
         if !x.pending then v == s.(pc := Draining)
         else if x.callback then
           v == s.(pc := Calling(h), handles := s.handles[h := x.(pending := false, clears := x.clears + 1,
                                                                  served := x.asked, calls := x.calls + 1)])
         else
           v == s.(pc := Draining,
                   handles := s.handles[h := x.(pending := false, clears := x.clears + 1, served := x.asked)])
    case Return => v == s.(pc := Draining)
    case InitHandle(h, callback) =>
      && Handles in s.rings
      && v == s.(handles := s.handles[h := Handle(true, false, callback, 0, 0, 0, 0, 0)],
                 rings := s.rings[Handles := s.rings[Handles] + [Item(h)]])
    case CloseHandle(h) =>
      && h in s.handles && LeftRing(s.rings, Item(h), v.rings)
      && v == s.(handles := s.handles[h := s.handles[h].(open := false)], rings := v.rings)
  }

  lemma ListsThere(s: State)
    requires Inv(s)
    ensures AllRings(s.links, s.rings) && Handles in s.rings && (Local in s.rings <==> InDrain(s.pc))
    ensures s.rings.Keys <= {Handles, Local}
  {
  }

  lemma FirstTaken(s: State)
    requires Inv(s) && Local in s.rings && s.rings[Local] != []
    ensures Without(s.rings, s.rings[Local][0]) == s.rings[Local := s.rings[Local][1..]]
  {
    hide Inv, Without;
    ListsThere(s);
    WithoutAt(s.links, s.rings, Local, 0);
    assert s.rings[Local][..0] + s.rings[Local][1..] == s.rings[Local][1..];
  }

  lemma TwoLists(rs: map<Node, seq<Node>>, a: seq<Node>, b: seq<Node>)
    requires Handles in rs && rs.Keys <= {Handles, Local}
    ensures rs[Local := b][Handles := a] == map[Handles := a, Local := b]
    ensures rs[Handles := a][Local := b] == map[Handles := a, Local := b]
    ensures rs - {Local} == map[Handles := rs[Handles]]
  {
  }

  lemma NextDoes(s: State)
    requires Inv(s) && Guard(s, Next) && Safe(s, Next)
    ensures Does(s, Next, Apply(s, Next))
  {
    hide Inv, Without, Remove, InsertTail, AllRings, CanTake;
    ListsThere(s);
    LocalHead(s);
    if s.rings[Local] == [] {
      TwoLists(s.rings, [], []);
    } else {
      FirstTaken(s);
      TwoLists(s.rings, s.rings[Handles] + [s.rings[Local][0]], s.rings[Local][1..]);
    }
  }

  lemma LocalHead(s: State)
    requires Inv(s) && Guard(s, Next) && Safe(s, Next)
    ensures Local in s.rings && Local in s.links && (s.links[Local].next == Local <==> s.rings[Local] == [])
    ensures s.rings[Local] != [] ==> s.links[Local].next == s.rings[Local][0] && s.rings[Local][0].Item?
  {
    EmptyRing(s.links, Local, s.rings[Local]);
  }

  lemma MoveDoes(s: State)
    requires Inv(s) && Guard(s, MoveAll) && Safe(s, MoveAll)
    ensures Does(s, MoveAll, Apply(s, MoveAll))
  {
    hide Inv, Move, CanMove, AllRings;
    ListsThere(s);
    TwoLists(s.rings, [], s.rings[Handles]);
  }

  lemma CloseDoes(s: State, h: Hid)
    requires Inv(s) && Guard(s, CloseHandle(h)) && Safe(s, CloseHandle(h))
    ensures Does(s, CloseHandle(h), Apply(s, CloseHandle(h)))
  {
    hide Inv, Without, Remove, AllRings, CanRemove, LeftRing;
    ListsThere(s);
    ListedOpen(s, h);
    WithoutLeft(s.links, s.rings, Item(h));
  }

  lemma ListedOpen(s: State, h: Hid)
    requires Inv(s) && h in s.handles && s.handles[h].open
    ensures exists g :: g in s.rings && Item(h) in s.rings[g]
  {
    assert Listed(s, h);
  }

  lemma OtherDoes(s: State, step: Step)
    requires Inv(s) && Guard(s, step) && Safe(s, step) && !step.Next? && !step.MoveAll? && !step.CloseHandle?
    ensures Does(s, step, Apply(s, step))
  {
    hide Inv, InsertTail, AllRings, CanInsert;
    ListsThere(s);
    match step
    case SendRead(_, _) =>
    case SendCas(_) =>
    case Clear =>
    case _ =>
  }

  lemma StepDoes(s: State, step: Step)
    requires Inv(s) && Guard(s, step)
    ensures Safe(s, step) && Does(s, step, Apply(s, step)) && Inv(Apply(s, step))
  {
    hide Inv, Guard, Safe, Apply, Does;
    StepKeeps(s, step);
    match step
    case Next => NextDoes(s);
    case MoveAll => MoveDoes(s);
    case CloseHandle(h) => CloseDoes(s, h);
    case _ => OtherDoes(s, step);
  }

  /** In every run, each step does what it means. */
  lemma RunDoes(ss: seq<State>, steps: seq<Step>, i: nat)
    requires RunOf(ss, steps) && i < |steps|
    ensures Does(ss[i], steps[i], ss[i + 1])
  {
    hide Inv, Guard, Safe, Apply, Does;
    RunInv(ss, steps, i);
    StepDoes(ss[i], steps[i]);
  }

  // ---------- A send and its answer ----------

  /** One handle and one sender of a state, and the lists. */
  datatype Snap = Snap(x: Handle, sender: SenderPc, pc: LoopPc, tokens: nat, main: seq<Node>, local: seq<Node>)

  ghost predicate Shows(s: State, h: Hid, t: Sender, n: Snap) {
    && h in s.handles && s.handles[h] == n.x && t in s.senders && s.senders[t] == n.sender && s.pc == n.pc
    && s.tokens == n.tokens && Handles in s.rings && s.rings[Handles] == n.main
    && (if InDrain(n.pc) then Local in s.rings && s.rings[Local] == n.local else n.local == [])
  }

  ghost function Fresh(): Handle {
    Handle(true, false, true, 0, 0, 0, 0, 0)
  }

  /** Sent: the flag is set. */
  ghost function Sent(): Handle {
    Fresh().(pending := true, sends := 1, asked := 1)
  }

  /** Answered: the flag is cleared again, and the callback was called. */
  ghost function Called(): Handle {
    Fresh().(sends := 1, asked := 1, clears := 1, served := 1, calls := 1)
  }

  lemma SendsShow(s: State, u: State, h: Hid, t: Sender, main: seq<Node>)
    ensures Shows(s, h, t, Snap(Fresh(), Idle, Polling, 0, main, [])) && Does(s, SendRead(t, h), u) ==>
              Shows(u, h, t, Snap(Fresh(), Cas(h), Polling, 0, main, []))
    ensures Shows(s, h, t, Snap(Fresh(), Cas(h), Polling, 0, main, [])) && Does(s, SendCas(t), u) ==>
              Shows(u, h, t, Snap(Sent(), Write(h), Polling, 0, main, []))
    ensures Shows(s, h, t, Snap(Sent(), Write(h), Polling, 0, main, [])) && Does(s, SendWrite(t, false), u) ==>
              Shows(u, h, t, Snap(Sent(), Idle, Polling, 1, main, []))
  {
  }

  lemma ReadsShow(s: State, u: State, h: Hid, t: Sender, main: seq<Node>)
    ensures Shows(s, h, t, Snap(Sent(), Idle, Polling, 1, main, [])) && Does(s, Poll, u) ==>
              Shows(u, h, t, Snap(Sent(), Idle, Reading, 1, main, []))
    ensures Shows(s, h, t, Snap(Sent(), Idle, Reading, 1, main, [])) && Does(s, Read, u) ==>
              Shows(u, h, t, Snap(Sent(), Idle, Moving, 0, main, []))
  {
  }

  lemma MoveShows(s: State, u: State, h: Hid, t: Sender, main: seq<Node>)
    requires Shows(s, h, t, Snap(Sent(), Idle, Moving, 0, main, [])) && Does(s, MoveAll, u)
    ensures Shows(u, h, t, Snap(Sent(), Idle, Draining, 0, [], main))
  {
  }

  lemma TakeShows(s: State, u: State, h: Hid, t: Sender)
    requires Shows(s, h, t, Snap(Sent(), Idle, Draining, 0, [], [Item(h)])) && Does(s, Next, u)
    ensures Shows(u, h, t, Snap(Sent(), Idle, Clearing(h), 0, [Item(h)], []))
  {
  }

  lemma ClearShows(s: State, u: State, h: Hid, t: Sender)
    requires Shows(s, h, t, Snap(Sent(), Idle, Clearing(h), 0, [Item(h)], [])) && Does(s, Clear, u)
    ensures Shows(u, h, t, Snap(Called(), Idle, Calling(h), 0, [Item(h)], []))
  {
  }

  lemma ReturnShows(s: State, u: State, h: Hid, t: Sender)
    requires Shows(s, h, t, Snap(Called(), Idle, Calling(h), 0, [Item(h)], [])) && Does(s, Return, u)
    ensures Shows(u, h, t, Snap(Called(), Idle, Draining, 0, [Item(h)], []))
  {
  }

  lemma EndShows(s: State, u: State, h: Hid, t: Sender)
    requires Shows(s, h, t, Snap(Called(), Idle, Draining, 0, [Item(h)], [])) && Does(s, Next, u)
    ensures Shows(u, h, t, Snap(Called(), Idle, Polling, 0, [Item(h)], []))
  {
  }

  /** What may come next. */
  lemma ShowsGuard(s: State, h: Hid, t: Sender, n: Snap)
    requires Shows(s, h, t, n)
    ensures n.sender == Idle && n.x.open ==> Guard(s, SendRead(t, h))
    ensures (n.sender.Cas? ==> Guard(s, SendCas(t))) && (n.sender.Write? ==> Guard(s, SendWrite(t, false)))
    ensures (n.pc.Polling? && n.tokens > 0 ==> Guard(s, Poll)) && (n.pc.Reading? ==> Guard(s, Read))
    ensures (n.pc.Moving? ==> Guard(s, MoveAll)) && (n.pc.Draining? ==> Guard(s, Next))
    ensures (n.pc.Clearing? ==> Guard(s, Clear)) && (n.pc.Calling? ==> Guard(s, Return))
  {
  }

  lemma FirstShows(s: State, h: Hid, t: Sender)
    requires Initial(s) && h in s.handles && t in s.senders
    ensures RunOf([s], []) && Guard(s, InitHandle(h, true))
    ensures forall u :: Does(s, InitHandle(h, true), u) ==>
              Shows(u, h, t, Snap(Fresh(), Idle, Polling, 0, [Item(h)], []))
  {
  }

  lemma Extend(ss: seq<State>, steps: seq<Step>, step: Step) returns (u: State)
    requires RunOf(ss, steps) && Guard(ss[|steps|], step)
    ensures RunOf(ss + [u], steps + [step]) && Does(ss[|steps|], step, u)
  {
    hide Guard, Safe, Apply, Does, Inv, Initial;
    RunInv(ss, steps, |steps|);
    StepDoes(ss[|steps|], step);
    u := Apply(ss[|steps|], step);
    var ss', steps' := ss + [u], steps + [step];
    forall i | 0 <= i < |steps'|
      ensures Guard(ss'[i], steps'[i]) && (Safe(ss'[i], steps'[i]) ==> ss'[i + 1] == Apply(ss'[i], steps'[i]))
    {
      assert i < |steps| ==> steps'[i] == steps[i] && ss'[i] == ss[i] && ss'[i + 1] == ss[i + 1];
    }
  }

  /** From every initial state: a handle is opened, sent to and called back once, and the loop is back in poll. */
  lemma AnsweredRun(s: State, h: Hid, t: Sender) returns (ss: seq<State>, steps: seq<Step>)
    requires Initial(s) && h in s.handles && t in s.senders
    ensures RunOf(ss, steps) && ss[0] == s && |ss| == 12
    ensures steps == [InitHandle(h, true), SendRead(t, h), SendCas(t), SendWrite(t, false), Poll, Read, MoveAll, Next,
                      Clear, Return, Next]
    ensures Shows(ss[11], h, t, Snap(Called(), Idle, Polling, 0, [Item(h)], []))
  {
    hide RunOf, Guard, Does, Shows, Initial;
    FirstShows(s, h, t);
    var s1 := Extend([s], [], InitHandle(h, true));
    ss, steps := [s] + [s1], [] + [InitHandle(h, true)];
    ShowsGuard(s1, h, t, Snap(Fresh(), Idle, Polling, 0, [Item(h)], []));
    var s2 := Extend(ss, steps, SendRead(t, h));
    ss, steps := ss + [s2], steps + [SendRead(t, h)];
    SendsShow(s1, s2, h, t, [Item(h)]);
    ShowsGuard(s2, h, t, Snap(Fresh(), Cas(h), Polling, 0, [Item(h)], []));
    var s3 := Extend(ss, steps, SendCas(t));
    ss, steps := ss + [s3], steps + [SendCas(t)];
    SendsShow(s2, s3, h, t, [Item(h)]);
    ShowsGuard(s3, h, t, Snap(Sent(), Write(h), Polling, 0, [Item(h)], []));
    var s4 := Extend(ss, steps, SendWrite(t, false));
    ss, steps := ss + [s4], steps + [SendWrite(t, false)];
    SendsShow(s3, s4, h, t, [Item(h)]);
    ss, steps := DrainedRun(ss, steps, h, t);
  }

  /** A loop with a token and one handle that was sent to. */
  lemma DrainedRun(ss: seq<State>, steps: seq<Step>, h: Hid, t: Sender) returns (ss': seq<State>, steps': seq<Step>)
    requires RunOf(ss, steps) && |ss| == |steps| + 1
    requires Shows(ss[|steps|], h, t, Snap(Sent(), Idle, Polling, 1, [Item(h)], []))
    ensures RunOf(ss', steps') && |ss'| == |ss| + 7 == |steps'| + 1 && ss <= ss'
    ensures steps' == steps + [Poll, Read, MoveAll, Next, Clear, Return, Next]
    ensures Shows(ss'[|steps'|], h, t, Snap(Called(), Idle, Polling, 0, [Item(h)], []))
  {
    hide RunOf, Guard, Does, Shows;
    var s4 := ss[|steps|];
    ShowsGuard(s4, h, t, Snap(Sent(), Idle, Polling, 1, [Item(h)], []));
    var s5 := Extend(ss, steps, Poll);
    ss', steps' := ss + [s5], steps + [Poll];
    ReadsShow(s4, s5, h, t, [Item(h)]);
    ShowsGuard(s5, h, t, Snap(Sent(), Idle, Reading, 1, [Item(h)], []));
    var s6 := Extend(ss', steps', Read);
    ss', steps' := ss' + [s6], steps' + [Read];
    ReadsShow(s5, s6, h, t, [Item(h)]);
    ShowsGuard(s6, h, t, Snap(Sent(), Idle, Moving, 0, [Item(h)], []));
    var s7 := Extend(ss', steps', MoveAll);
    ss', steps' := ss' + [s7], steps' + [MoveAll];
    MoveShows(s6, s7, h, t, [Item(h)]);
    ShowsGuard(s7, h, t, Snap(Sent(), Idle, Draining, 0, [], [Item(h)]));
    var s8 := Extend(ss', steps', Next);
    ss', steps' := ss' + [s8], steps' + [Next];
    TakeShows(s7, s8, h, t);
    ShowsGuard(s8, h, t, Snap(Sent(), Idle, Clearing(h), 0, [Item(h)], []));
    var s9 := Extend(ss', steps', Clear);
    ss', steps' := ss' + [s9], steps' + [Clear];
    ClearShows(s8, s9, h, t);
    ShowsGuard(s9, h, t, Snap(Called(), Idle, Calling(h), 0, [Item(h)], []));
    var s10 := Extend(ss', steps', Return);
    ss', steps' := ss' + [s10], steps' + [Return];
    ReturnShows(s9, s10, h, t);
    ShowsGuard(s10, h, t, Snap(Called(), Idle, Draining, 0, [Item(h)], []));
    var s11 := Extend(ss', steps', Next);
    ss', steps' := ss' + [s11], steps' + [Next];
    EndShows(s10, s11, h, t);
  }
}
