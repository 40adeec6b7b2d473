/** Wakeups of libs/libuv/unix/async.c as a step system: any number of threads send to the handles of one
    loop, whose thread drains them. Each step is one atomic access of the source, or code between two of
    them that only its thread can see. */
module Async {
  import opened Rings

  type Hid = nat
  type Sender = nat

  /** The list nodes: loop->async_handles, the local queue in uv__async_io, and the node inside a handle. */
  datatype Node = Handles | Local | Item(h: Hid)

  /** Where a call of uv_async_send stands. */
  datatype SenderPc =
    | Idle
    | Cas(h: Hid)       // the cheap read has found 0
    | Write(h: Hid)     // the compare-and-swap has set the flag, the token is not yet written

  /** Where the loop thread stands. */
  datatype LoopPc =
    | Polling           // in poll, or in user code of another event
    | Reading           // uv__async_io, in the read loop
    | Moving            // before QUEUE_MOVE
    | Draining          // at the head of the while loop
    | Clearing(h: Hid)  // before the compare-and-swap that clears the flag
    | Calling(h: Hid)   // in the callback

  /** A handle, and its history since uv_async_init: how often its flag was set and cleared and its callback
      called, how many sends have taken effect, and how many of them came before the last clear. */
  datatype Handle = Handle(
    open: bool, pending: bool, callback: bool, sends: nat, clears: nat, calls: nat, asked: nat, served: nat)

  /** `tokens` is the counter of the eventfd, or the number of bytes in the pipe; `rings` is history: the lists
      that `links` holds. */
  datatype State = State(
    links: Links<Node>, handles: map<Hid, Handle>, senders: map<Sender, SenderPc>, pc: LoopPc,
    tokens: nat, eventfd: bool, rings: map<Node, seq<Node>>)

  // ---------- Steps ----------

  datatype Step =
    | SendRead(t: Sender, h: Hid)
    | SendCas(t: Sender)
    | SendWrite(t: Sender, full: bool)
    | Poll
    | Read
    | MoveAll
    | Next
    | Clear
    | Return
    | InitHandle(h: Hid, callback: bool)
    | CloseHandle(h: Hid)

  const BUF_SIZE := 1024

  predicate InDrain(pc: LoopPc) {
    pc.Draining? || pc.Clearing? || pc.Calling?
  }

  /** The loop thread runs user code. */
  predicate UserCode(pc: LoopPc) {
    pc.Polling? || pc.Calling?
  }

  ghost predicate Sending(s: State, t: Sender) {
    t in s.senders && !s.senders[t].Idle? && s.senders[t].h in s.handles
  }

  /** When a thread may take a step, by its program counter and the callers' obligations: handles are
      initialised and closed by the loop thread, and a send starts on an open handle. A write fails only
      when the descriptor is full, and so readable. */
  ghost predicate Guard(s: State, step: Step) {
    match step
    case SendRead(t, h) => t in s.senders && s.senders[t].Idle? && h in s.handles && s.handles[h].open
    case SendCas(t) => t in s.senders && s.senders[t].Cas?
    case SendWrite(t, full) => t in s.senders && s.senders[t].Write? && (full ==> s.tokens > 0)
    case Poll => s.pc.Polling? && s.tokens > 0
    case Read => s.pc.Reading?
    case MoveAll => s.pc.Moving?
    case Next => s.pc.Draining?
    case Clear => s.pc.Clearing?
    case Return => s.pc.Calling?
    case InitHandle(h, _) =>
      && UserCode(s.pc) && h in s.handles && !s.handles[h].open
      && forall t :: t in s.senders && !s.senders[t].Idle? ==> s.senders[t].h != h
    case CloseHandle(h) => UserCode(s.pc) && h in s.handles && s.handles[h].open
  }

  ghost predicate CanInsert(m: Links<Node>, q: Node) {
    Handles in m && q in m && q != Handles && m[Handles].prev in m
  }

  ghost predicate CanRemove(m: Links<Node>, q: Node) {
    q in m && m[q].next in m && m[q].prev in m
  }

  ghost predicate CanMove(m: Links<Node>) {
    && Handles in m && Local in m
    && (!Empty(m, Handles) ==>
          && m[Handles].next in m && m[Handles].next != Local && m[Handles].prev in m
          && m[m[Handles].next].prev in m)
  }

  ghost predicate CanTake(s: State) {
    && Local in s.links && s.links[Local].next.Item? && CanRemove(s.links, s.links[Local].next)
    && CanInsert(Remove(s.links, s.links[Local].next), s.links[Local].next)
  }

  /** The pointers that the step follows are valid. */
  ghost predicate Safe(s: State, step: Step)
    requires Guard(s, step)
  {
    match step
    case SendRead(_, _) => true
    case SendCas(t) => s.senders[t].h in s.handles
    case SendWrite(_, _) => true
    case Poll => true
    case Read => true
    case MoveAll => CanMove(s.links) && Handles in s.rings
    case Next => Local in s.links && (s.links[Local].next == Local || (CanTake(s) && Handles in s.rings))
    case Clear => s.pc.h in s.handles
    case Return => true
    case InitHandle(h, _) => CanInsert(s.links, Item(h)) && Handles in s.rings
    case CloseHandle(h) => CanRemove(s.links, Item(h))
  }

  ghost function Apply(s: State, step: Step): State
    requires Guard(s, step) && Safe(s, step)
  {
    match step
    case SendRead(t, h) => if s.handles[h].pending then Asked(s, h) else s.(senders := s.senders[t := Cas(h)])
    case SendCas(t) => Swapped(s, t)
    case SendWrite(t, full) => s.(senders := s.senders[t := Idle], tokens := if full then s.tokens else s.tokens + 1)
    case Poll => s.(pc := Reading)
    case Read => Consumed(s)
    case MoveAll => Moved(s)
    case Next => if s.links[Local].next == Local then s.(pc := Polling, rings := s.rings - {Local}) else Taken(s)
    case Clear => Cleared(s)
    case Return => s.(pc := Draining)
    case InitHandle(h, callback) => Opened(s, h, callback)
    case CloseHandle(h) => Closed(s, h)
  }

  /** A send finds the flag set. */
  ghost function Asked(s: State, h: Hid): State
    requires h in s.handles
  {
    s.(handles := s.handles[h := s.handles[h].(asked := s.handles[h].asked + 1)])
  }

  /** cmpxchgi(&handle->pending, 0, 1). */
  ghost function Swapped(s: State, t: Sender): State
    requires Sending(s, t)
  {
    var h := s.senders[t].h;
    var hd := s.handles[h];
    if hd.pending then Asked(s, h).(senders := s.senders[t := Idle])
    else s.(handles := s.handles[h := hd.(pending := true, sends := hd.sends + 1, asked := hd.asked + 1)],
            senders := s.senders[t := Write(h)])
  }

  /** read(): an eventfd gives its counter, a pipe up to 1024 bytes; only a full buffer is followed by another
      read. */
  ghost function Consumed(s: State): State {
    if s.eventfd || s.tokens < BUF_SIZE then s.(tokens := 0, pc := Moving)
    else s.(tokens := s.tokens - BUF_SIZE)
  }

  ghost function Moved(s: State): State
    requires CanMove(s.links) && Handles in s.rings
  {
    s.(pc := Draining, links := Move(s.links, Handles, Local),
       rings := s.rings[Handles := []][Local := s.rings[Handles]])
  }

  /** The head of the local queue goes to the tail of loop->async_handles. */
  ghost function Taken(s: State): State
    requires CanTake(s) && Handles in s.rings
  {
    var q := s.links[Local].next;
    var rs := Without(s.rings, q);
    s.(pc := Clearing(q.h), links := InsertTail(Remove(s.links, q), Handles, q),
       rings := rs[Handles := rs[Handles] + [q]])
  }

  /** cmpxchgi(&h->pending, 1, 0), and the callback if there is one. */
  ghost function Cleared(s: State): State
    requires s.pc.Clearing? && s.pc.h in s.handles
  {
    var h, hd := s.pc.h, s.handles[s.pc.h];
    if !hd.pending then s.(pc := Draining)
    else s.(pc := if hd.callback then Calling(h) else Draining,
            handles := s.handles[h := hd.(pending := false, clears := hd.clears + 1, served := hd.asked,
                                          calls := hd.calls + if hd.callback then 1 else 0)])
  }

  ghost function Opened(s: State, h: Hid, callback: bool): State
    requires CanInsert(s.links, Item(h)) && Handles in s.rings
  {
    s.(handles := s.handles[h := Handle(true, false, callback, 0, 0, 0, 0, 0)],
       links := InsertTail(s.links, Handles, Item(h)), rings := s.rings[Handles := s.rings[Handles] + [Item(h)]])
  }

  ghost function Closed(s: State, h: Hid): State
    requires h in s.handles && CanRemove(s.links, Item(h))
  {
    s.(handles := s.handles[h := s.handles[h].(open := false)],
       links := Remove(s.links, Item(h)), rings := Without(s.rings, Item(h)))
  }

  // ---------- Invariant ----------

  ghost predicate Domains(s: State) {
    && Handles in s.links && Local in s.links && Handles in s.rings
    && (Local in s.rings <==> InDrain(s.pc)) && s.rings.Keys <= {Handles, Local}
    && forall h :: h in s.handles ==> Item(h) in s.links
  }

  /** The lists hold open handles. */
  ghost predicate Fits(s: State, x: Node) {
    x.Item? && x.h in s.handles && s.handles[x.h].open
  }

  ghost predicate Listed(s: State, h: Hid)
    requires Domains(s)
  {
    Item(h) in s.rings[Handles] || (InDrain(s.pc) && Item(h) in s.rings[Local])
  }

  ghost predicate Contents(s: State)
    requires Domains(s)
  {
    && (forall g, x {:trigger Holds(s, g, x)} :: Holds(s, g, x) ==> Fits(s, x))
    && (forall h {:trigger Listed(s, h)} :: h in s.handles && s.handles[h].open ==> Listed(s, h))
  }

  ghost predicate Holds(s: State, g: Node, x: Node) {
    g in s.rings && x in s.rings[g]
  }

  ghost predicate Threads(s: State) {
    && (forall t :: t in s.senders && !s.senders[t].Idle? ==> s.senders[t].h in s.handles)
    && (s.pc.Clearing? ==> s.pc.h in s.handles)
  }

  ghost predicate ListsOk(s: State) {
    Domains(s) && AllRings(s.links, s.rings) && Contents(s) && Threads(s)
  }

  /** Flag, counters and callbacks of a handle agree. */
  ghost predicate Counted(hd: Handle) {
    && hd.sends == hd.clears + (if hd.pending then 1 else 0)
    && hd.calls == (if hd.callback then hd.clears else 0)
    && (if hd.pending then hd.served < hd.asked else hd.served == hd.asked)
  }

  ghost predicate Writing(s: State, t: Sender, h: Hid) {
    t in s.senders && s.senders[t] == Write(h)
  }

  /** The loop will get to the handle: there is a token, a sender is about to write one, or the handle waits in
      the current drain. */
  ghost predicate Awaited(s: State, h: Hid)
    requires Domains(s)
  {
    || s.tokens > 0
    || (exists t :: Writing(s, t, h))
    || s.pc.Reading? || s.pc.Moving? || s.pc == Clearing(h)
    || (InDrain(s.pc) && Item(h) in s.rings[Local])
  }

  ghost predicate HandleOk(s: State, h: Hid)
    requires Domains(s) && h in s.handles
  {
    Counted(s.handles[h]) && (s.handles[h].open && s.handles[h].pending ==> Awaited(s, h))
  }

  ghost predicate HandlesOk(s: State)
    requires Domains(s)
  {
    forall h {:trigger HandleOk(s, h)} :: h in s.handles ==> HandleOk(s, h)
  }

  ghost predicate Inv(s: State) {
    ListsOk(s) && HandlesOk(s)
  }

  // ---------- Steps that leave the lists alone ----------

  lemma ListsSame(s: State, t: State)
    requires ListsOk(s) && t.links == s.links && t.rings == s.rings && InDrain(t.pc) == InDrain(s.pc) && Threads(t)
    requires t.handles.Keys == s.handles.Keys && forall h :: h in s.handles ==> t.handles[h].open == s.handles[h].open
    ensures ListsOk(t)
  {
    hide AllRings;
    forall g, x | Holds(t, g, x) ensures Fits(t, x) {
      assert Holds(s, g, x);
    }
    forall h | h in t.handles && t.handles[h].open ensures Listed(t, h) {
      assert Listed(s, h);
    }
  }

  lemma SendReadKeeps(s: State, t: Sender, h: Hid)
    requires Inv(s) && Guard(s, SendRead(t, h))
    ensures Inv(Apply(s, SendRead(t, h)))
  {
    hide AllRings, Contents;
    var u := Apply(s, SendRead(t, h));
    ListsSame(s, u);
    forall k | k in u.handles ensures HandleOk(u, k) {
      assert HandleOk(s, k);
      assert forall t' :: Writing(s, t', k) ==> Writing(u, t', k);
    }
  }

  lemma SendCasKeeps(s: State, t: Sender)
    requires Inv(s) && Guard(s, SendCas(t))
    ensures Safe(s, SendCas(t)) && Inv(Apply(s, SendCas(t)))
  {
    hide AllRings, Contents, HandleOk;
    var u := Apply(s, SendCas(t));
    ListsSame(s, u);
    forall k | k in u.handles ensures HandleOk(u, k) {
      assert HandleOk(s, k);
      SendCasHandle(s, t, k);
    }
  }

  lemma SendCasHandle(s: State, t: Sender, k: Hid)
    requires Guard(s, SendCas(t)) && Safe(s, SendCas(t)) && Domains(s) && k in s.handles && HandleOk(s, k)
    ensures Domains(Apply(s, SendCas(t))) && HandleOk(Apply(s, SendCas(t)), k)
  {
    var u := Apply(s, SendCas(t));
    assert forall t' :: Writing(s, t', k) ==> Writing(u, t', k);
    assert u.senders[t] == Write(k) ==> Writing(u, t, k);
  }

  lemma SendWriteKeeps(s: State, t: Sender, full: bool)
    requires Inv(s) && Guard(s, SendWrite(t, full))
    ensures Inv(Apply(s, SendWrite(t, full)))
  {
    hide AllRings, Contents;
    var u := Apply(s, SendWrite(t, full));
    ListsSame(s, u);
    forall k | k in u.handles ensures HandleOk(u, k) {
      assert HandleOk(s, k);
    }
  }

  lemma LoopReadKeeps(s: State, step: Step)
    requires Inv(s) && step in {Poll, Read, Return} && Guard(s, step)
    ensures Inv(Apply(s, step))
  {
    hide AllRings, Contents;
    var u := Apply(s, step);
    ListsSame(s, u);
    forall k | k in u.handles ensures HandleOk(u, k) {
      assert HandleOk(s, k);
      assert forall t' :: Writing(s, t', k) ==> Writing(u, t', k);
    }
  }

  lemma ClearKeeps(s: State)
    requires Inv(s) && Guard(s, Clear)
    ensures Safe(s, Clear) && Inv(Apply(s, Clear))
  {
    hide AllRings, Contents;
    var u := Apply(s, Clear);
    ListsSame(s, u);
    forall k | k in u.handles ensures HandleOk(u, k) {
      assert HandleOk(s, k);
      assert forall t' :: Writing(s, t', k) ==> Writing(u, t', k);
    }
  }

  // ---------- Steps that change the lists ----------

  lemma FreeNode(s: State, x: Node)
    requires ListsOk(s)
    requires (x == Local && !InDrain(s.pc)) || (x.Item? && x.h in s.handles && !s.handles[x.h].open)
    ensures Free(s.rings, x)
  {
    hide AllRings;
    forall g | g in s.rings ensures x !in Members(g, s.rings[g]) {
      assert x in s.rings[g] ==> Holds(s, g, x) && Fits(s, x);
    }
  }

  lemma MoveRings(s: State)
    requires Inv(s) && Guard(s, MoveAll)
    ensures Safe(s, MoveAll) && AllRings(Moved(s).links, Moved(s).rings) && Moved(s).links.Keys == s.links.Keys
  {
    hide AllRings, Free, Move, PutIn, HandlesOk, Contents;
    FreeNode(s, Local);
    AllMove(s.links, s.rings, Handles, Local);
    PutKeys(s.links, s.rings, Move(s.links, Handles, Local), Local);
  }

  lemma PutKeys(m: Links<Node>, rs: map<Node, seq<Node>>, m': Links<Node>, q: Node)
    requires PutIn(m, rs, m', q)
    ensures m'.Keys == m.Keys
  {
  }

  lemma MoveKeeps(s: State)
    requires Inv(s) && Guard(s, MoveAll)
    ensures Safe(s, MoveAll) && Inv(Apply(s, MoveAll))
  {
    hide AllRings, Move, CanMove;
    MoveRings(s);
    var u := Moved(s);
    forall g, x | Holds(u, g, x) ensures Fits(u, x) {
      assert Holds(s, Handles, x) && Fits(s, x);
    }
    forall h | h in u.handles && u.handles[h].open ensures Listed(u, h) {
      assert Listed(s, h);
    }
    forall k | k in u.handles ensures HandleOk(u, k) {
      assert HandleOk(s, k) && (s.handles[k].open ==> Listed(s, k));
    }
  }

  lemma HeadNode(s: State)
    requires ListsOk(s) && Local in s.rings
    ensures s.links[Local].next == Local <==> s.rings[Local] == []
    ensures s.rings[Local] != [] ==> s.links[Local].next == s.rings[Local][0] && Fits(s, s.links[Local].next)
    ensures s.rings[Local] != [] ==> s.links[Local].next in s.rings[Local]
  {
    EmptyRing(s.links, Local, s.rings[Local]);
    assert s.rings[Local] != [] ==> Holds(s, Local, s.rings[Local][0]);
  }

  lemma DrainEndKeeps(s: State)
    requires Inv(s) && Guard(s, Next) && s.links[Local].next == Local
    ensures Inv(s.(pc := Polling, rings := s.rings - {Local}))
  {
    hide AllRings;
    HeadNode(s);
    var u := s.(pc := Polling, rings := s.rings - {Local});
    FewerRings(s.links, s.rings, Local);
    forall g, x | Holds(u, g, x) ensures Fits(u, x) {
      assert Holds(s, g, x);
    }
    forall h | h in u.handles && u.handles[h].open ensures Listed(u, h) {
      assert Listed(s, h);
    }
    forall k | k in u.handles ensures HandleOk(u, k) {
      assert HandleOk(s, k);
      assert forall t' :: Writing(s, t', k) ==> Writing(u, t', k);
    }
  }

  lemma TakeRings(s: State)
    requires Inv(s) && Guard(s, Next) && s.links[Local].next != Local
    ensures Safe(s, Next) && AllRings(Taken(s).links, Taken(s).rings) && Taken(s).links.Keys == s.links.Keys
    ensures forall g, x :: Holds(Taken(s), g, x) <==>
              (Holds(s, g, x) && x != s.links[Local].next) || (g == Handles && x == s.links[Local].next)
    ensures Taken(s).rings.Keys == s.rings.Keys
  {
    hide AllRings, Free, Remove, InsertTail, Without, PutIn, HandlesOk, Contents;
    HeadNode(s);
    var q := s.links[Local].next;
    AllWithout(s.links, s.rings, Local, q);
    var m, rs := Remove(s.links, q), Without(s.rings, q);
    AllInsertTail(m, rs, Handles, q);
    PutKeys(m, rs, InsertTail(m, Handles, q), q);
  }

  lemma TakeKeeps(s: State)
    requires Inv(s) && Guard(s, Next) && s.links[Local].next != Local
    ensures Safe(s, Next) && Inv(Taken(s))
  {
    hide AllRings, Taken, CanTake;
    TakeRings(s);
    HeadNode(s);
    TakenFields(s);
    var u := Taken(s);
    forall g, x | Holds(u, g, x) ensures Fits(u, x) {
      assert Holds(s, g, x) ==> Fits(s, x);
    }
    forall h | h in u.handles && u.handles[h].open ensures Listed(u, h) {
      assert Listed(s, h);
      assert Holds(s, Handles, Item(h)) || Holds(s, Local, Item(h));
      assert Holds(u, Handles, Item(h)) || Holds(u, Local, Item(h));
    }
    forall k | k in u.handles ensures HandleOk(u, k) {
      assert HandleOk(s, k);
      assert forall t' :: Writing(s, t', k) ==> Writing(u, t', k);
      assert Holds(s, Local, Item(k)) ==> Holds(u, Local, Item(k)) || u.pc == Clearing(k);
    }
  }

  lemma TakenFields(s: State)
    requires CanTake(s) && Handles in s.rings
    ensures var u := Taken(s);
            && u.handles == s.handles && u.senders == s.senders && u.tokens == s.tokens
            && s.links[Local].next.Item? && u.pc == Clearing(s.links[Local].next.h)
  {
  }

  lemma InitRings(s: State, h: Hid, callback: bool)
    requires Inv(s) && Guard(s, InitHandle(h, callback))
    ensures Safe(s, InitHandle(h, callback))
    ensures var u := Opened(s, h, callback); AllRings(u.links, u.rings) && u.links.Keys == s.links.Keys
  {
    hide AllRings, Free, InsertTail, PutIn, HandlesOk, Contents;
    FreeNode(s, Item(h));
    AllInsertTail(s.links, s.rings, Handles, Item(h));
    PutKeys(s.links, s.rings, InsertTail(s.links, Handles, Item(h)), Item(h));
  }

  lemma InitKeeps(s: State, h: Hid, callback: bool)
    requires Inv(s) && Guard(s, InitHandle(h, callback))
    ensures Safe(s, InitHandle(h, callback)) && Inv(Opened(s, h, callback))
  {
    hide AllRings, InsertTail, CanInsert;
    InitRings(s, h, callback);
    var u := Opened(s, h, callback);
    forall g, x | Holds(u, g, x) ensures Fits(u, x) {
      assert Holds(s, g, x) ==> Fits(s, x);
    }
    forall k | k in u.handles && u.handles[k].open ensures Listed(u, k) {
      assert k != h ==> Listed(s, k);
    }
    forall k | k in u.handles ensures HandleOk(u, k) {
      assert HandleOk(s, k);
      assert forall t' :: Writing(s, t', k) ==> Writing(u, t', k);
    }
  }

  lemma CloseRings(s: State, h: Hid)
    requires Inv(s) && Guard(s, CloseHandle(h))
    ensures Safe(s, CloseHandle(h))
    ensures var u := Closed(s, h);
            && AllRings(u.links, u.rings) && u.links.Keys == s.links.Keys && u.rings.Keys == s.rings.Keys
            && forall g, x :: Holds(u, g, x) <==> Holds(s, g, x) && x != Item(h)
  {
    hide AllRings, Free, Remove, Without, HandlesOk;
    assert Listed(s, h);
    AllWithout(s.links, s.rings, if Item(h) in s.rings[Handles] then Handles else Local, Item(h));
  }

  lemma CloseKeeps(s: State, h: Hid)
    requires Inv(s) && Guard(s, CloseHandle(h))
    ensures Safe(s, CloseHandle(h)) && Inv(Closed(s, h))
  {
    hide AllRings, Remove, Without, CanRemove;
    CloseRings(s, h);
    var u := Closed(s, h);
    forall g, x | Holds(u, g, x) ensures Fits(u, x) {
      assert Holds(s, g, x) ==> Fits(s, x);
    }
    forall k | k in u.handles && u.handles[k].open ensures Listed(u, k) {
      assert Listed(s, k);
      assert Holds(s, Handles, Item(k)) || Holds(s, Local, Item(k));
      assert Holds(u, Handles, Item(k)) || Holds(u, Local, Item(k));
    }
    forall k | k in u.handles ensures HandleOk(u, k) {
      assert HandleOk(s, k);
      assert forall t' :: Writing(s, t', k) ==> Writing(u, t', k);
      assert k != h && Holds(s, Local, Item(k)) ==> Holds(u, Local, Item(k));
    }
  }

  // ---------- Runs ----------

  lemma StepKeeps(s: State, step: Step)
    requires Inv(s) && Guard(s, step)
    ensures Safe(s, step) && Inv(Apply(s, step))
  {
    hide Inv;
    match step
    case SendRead(t, h) => SendReadKeeps(s, t, h);
    case SendCas(t) => SendCasKeeps(s, t);
    case SendWrite(t, full) => SendWriteKeeps(s, t, full);
    case Poll => LoopReadKeeps(s, step);
    case Read => LoopReadKeeps(s, step);
    case MoveAll => MoveKeeps(s);
    case Next => NextKeeps(s);
    case Clear => ClearKeeps(s);
    case Return => LoopReadKeeps(s, step);
    case InitHandle(h, callback) => InitKeeps(s, h, callback);
    case CloseHandle(h) => CloseKeeps(s, h);
  }

  lemma NextKeeps(s: State)
    requires Inv(s) && Guard(s, Next)
    ensures Safe(s, Next) && Inv(Apply(s, Next))
  {
    hide AllRings, HandlesOk, Contents, Taken;
    if s.links[Local].next == Local {
      DrainEndKeeps(s);
    } else {
      TakeKeeps(s);
    }
  }

  /** After uv_loop_init: the list is empty and no handle is initialised. */
  ghost predicate Initial(s: State) {
    && s.pc.Polling? && s.tokens == 0 && s.rings == map[Handles := []] && Ring(s.links, Handles, []) && Local in s.links
    && (forall h :: h in s.handles ==> Item(h) in s.links && s.handles[h] == Handle(false, false, false, 0, 0, 0, 0, 0))
    && (forall t :: t in s.senders ==> s.senders[t].Idle?)
  }

  ghost predicate RunOf(ss: seq<State>, steps: seq<Step>) {
    && |ss| == |steps| + 1 && Initial(ss[0])
    && forall i :: 0 <= i < |steps| ==>
         Guard(ss[i], steps[i]) && (Safe(ss[i], steps[i]) ==> ss[i + 1] == Apply(ss[i], steps[i]))
  }

  lemma InitialInv(s: State)
    requires Initial(s)
    ensures Inv(s)
  {
    assert Members(Handles, []) == {Handles};
    assert LinkedAt(s.links, Handles, [], 0);
    forall h | h in s.handles ensures HandleOk(s, h) {
    }
  }

  lemma {:induction false} RunInv(ss: seq<State>, steps: seq<Step>, i: nat)
    requires RunOf(ss, steps) && i < |ss|
    ensures Inv(ss[i]) && (i < |steps| ==> Safe(ss[i], steps[i]))
  {
    hide Inv;
    if i == 0 {
      InitialInv(ss[0]);
    } else {
      RunInv(ss, steps, i - 1);
      StepKeeps(ss[i - 1], steps[i - 1]);
    }
    if i < |steps| {
      StepKeeps(ss[i], steps[i]);
    }
  }

  /** No wakeup is lost: in every interleaving, while a send has not been answered the loop will get to the
      handle; the flag is never cleared more often than set, and each clear calls the callback. */
  lemma NoLostWakeup(ss: seq<State>, steps: seq<Step>, i: nat, h: Hid)
    requires RunOf(ss, steps) && i < |ss| && h in ss[i].handles
    ensures var hd := ss[i].handles[h];
            && Domains(ss[i]) && hd.clears <= hd.sends <= hd.clears + 1
            && hd.calls == (if hd.callback then hd.clears else 0)
            && (hd.open && hd.served < hd.asked ==> Awaited(ss[i], h))
  {
    RunInv(ss, steps, i);
    assert HandleOk(ss[i], h);
  }

  /** When the loop is back in poll with nothing to read, and no sender is inside its call, every send to an
      open handle has been answered. */
  lemma AllAnswered(ss: seq<State>, steps: seq<Step>, i: nat, h: Hid)
    requires RunOf(ss, steps) && i < |ss| && h in ss[i].handles && ss[i].handles[h].open
    requires ss[i].pc.Polling? && ss[i].tokens == 0
    requires forall t :: t in ss[i].senders ==> !ss[i].senders[t].Write?
    ensures ss[i].handles[h].served == ss[i].handles[h].asked && !ss[i].handles[h].pending
  {
    RunInv(ss, steps, i);
    assert HandleOk(ss[i], h);
  }

  // ---------- A drain answers what was asked before it ----------

  lemma {:induction false} DelLength<T>(s: seq<T>, q: T)
    ensures |Del(s, q)| == if q in s then |s| - 1 else |s|
  {
    if s != [] {
      DelLength(s[1..], q);
    }
  }

  /** Callbacks cannot prolong a drain: no step makes the local queue longer, and each turn of the loop makes it
      shorter or ends the drain. */
  lemma DrainShrinks(s: State, step: Step)
    requires Inv(s) && Guard(s, step) && InDrain(s.pc)
    ensures Safe(s, step) && Inv(Apply(s, step))
    ensures var u := Apply(s, step);
            && (InDrain(u.pc) ==> |u.rings[Local]| <= |s.rings[Local]|)
            && (step == Next ==> u.pc.Polling? || |u.rings[Local]| < |s.rings[Local]|)
  {
    hide Inv, AllRings, Remove, InsertTail;
    StepKeeps(s, step);
    LocalFacts(s);
    LocalFacts(Apply(s, step));
    if step.CloseHandle? {
      DelLength(s.rings[Local], Item(step.h));
    }
    if step.Next? {
      DelLength(s.rings[Local], s.links[Local].next);
    }
  }

  lemma LocalFacts(s: State)
    requires Inv(s)
    ensures Local in s.rings <==> InDrain(s.pc)
    ensures InDrain(s.pc) ==> Local in s.links
    ensures InDrain(s.pc) && s.links[Local].next != Local ==> s.links[Local].next in s.rings[Local]
    ensures InDrain(s.pc) && s.links[Local].next == Local ==> s.rings[Local] == []
  {
    if InDrain(s.pc) {
      HeadNode(s);
    }
  }

  /** The first `n` sends to `h` are answered, or will be in the current drain. */
  ghost predicate Due(s: State, h: Hid, n: nat) {
    && h in s.handles && s.handles[h].open && s.handles[h].asked >= n
    && (s.handles[h].served >= n || s.pc == Clearing(h) || Holds(s, Local, Item(h)))
  }

  lemma DueTaken(s: State, h: Hid, n: nat)
    requires Inv(s) && Guard(s, Next) && s.links[Local].next != Local && Due(s, h, n)
    ensures Safe(s, Next) && Due(Taken(s), h, n)
  {
    hide AllRings, Taken, Contents, CanTake, HandlesOk;
    TakeRings(s);
    TakenFields(s);
  }

  lemma DueClosed(s: State, k: Hid, h: Hid, n: nat)
    requires Inv(s) && Guard(s, CloseHandle(k)) && Due(s, h, n) && k != h
    ensures Safe(s, CloseHandle(k)) && Due(Closed(s, k), h, n)
  {
    hide AllRings, Remove, Without, Contents, CanRemove, HandlesOk;
    CloseRings(s, k);
  }

  /** Steps that leave the local queue alone. */
  lemma DueSame(s: State, step: Step, h: Hid, n: nat)
    requires Inv(s) && Guard(s, step) && Safe(s, step) && InDrain(s.pc) && Due(s, h, n)
    requires !step.Next? && !step.CloseHandle?
    ensures Due(Apply(s, step), h, n) && !Apply(s, step).pc.Polling?
  {
    hide Inv, Guard, Safe, Apply, Due, Counted;
    HandleIn(s, h, n);
    HandleCounted(s, h);
    if step.SendRead? || step.SendCas? || step.SendWrite? {
      DueSend(s, step, h, n);
    } else {
      DueLoop(s, step, h, n);
    }
  }

  lemma HandleIn(s: State, h: Hid, n: nat)
    requires Due(s, h, n)
    ensures h in s.handles
  {
  }

  lemma DueSend(s: State, step: Step, h: Hid, n: nat)
    requires Guard(s, step) && Safe(s, step) && InDrain(s.pc) && Due(s, h, n)
    requires step.SendRead? || step.SendCas? || step.SendWrite?
    ensures Due(Apply(s, step), h, n) && !Apply(s, step).pc.Polling?
  {
  }

  lemma DueLoop(s: State, step: Step, h: Hid, n: nat)
    requires Guard(s, step) && Safe(s, step) && InDrain(s.pc) && Due(s, h, n) && Counted(s.handles[h])
    requires step.Poll? || step.Read? || step.MoveAll? || step.Clear? || step.Return? || step.InitHandle?
    ensures Due(Apply(s, step), h, n) && !Apply(s, step).pc.Polling?
  {
    hide InsertTail, CanInsert, CanMove;
  }

  lemma HandleCounted(s: State, h: Hid)
    requires Inv(s) && h in s.handles
    ensures Counted(s.handles[h])
  {
    assert HandleOk(s, h);
  }

  lemma DueKeeps(s: State, step: Step, h: Hid, n: nat)
    requires Inv(s) && Guard(s, step) && InDrain(s.pc) && Due(s, h, n)
    ensures Safe(s, step) && Inv(Apply(s, step))
    ensures var u := Apply(s, step); h in u.handles && (u.handles[h].open ==> Due(u, h, n))
    ensures Apply(s, step).pc.Polling? ==> Apply(s, step).handles[h].served >= n
  {
    hide Inv, Taken, CanTake, Remove, Without;
    StepKeeps(s, step);
    LocalFacts(s);
    if step.Next? {
      if s.links[Local].next != Local {
        DueTaken(s, h, n);
        TakenFields(s);
      }
    } else if step.CloseHandle? {
      if step.h != h {
        DueClosed(s, step.h, h, n);
      }
    } else {
      DueSame(s, step, h, n);
    }
  }

  /** From QUEUE_MOVE at `i` to the end of the drain at `j`, the steps in between being in the drain. */
  ghost predicate OneDrain(ss: seq<State>, steps: seq<Step>, i: nat, j: nat) {
    && RunOf(ss, steps) && i < j < |ss| && steps[i] == MoveAll && ss[j].pc.Polling?
    && forall k :: i < k < j ==> InDrain(ss[k].pc)
  }

  lemma {:induction false} DueDuring(ss: seq<State>, steps: seq<Step>, i: nat, j: nat, k: nat, h: Hid)
    requires OneDrain(ss, steps, i, j) && i < k < j && h in ss[i].handles
    requires forall e :: i <= e <= j && h in ss[e].handles ==> ss[e].handles[h].open
    ensures Inv(ss[k]) && Due(ss[k], h, ss[i].handles[h].asked)
  {
    hide Inv, Guard, Safe, Apply, Due;
    RunInv(ss, steps, k);
    RunInv(ss, steps, k - 1);
    if k == i + 1 {
      DueMoved(ss[i], h);
    } else {
      DueDuring(ss, steps, i, j, k - 1, h);
      DueKeeps(ss[k - 1], steps[k - 1], h, ss[i].handles[h].asked);
    }
  }

  lemma DueMoved(s: State, h: Hid)
    requires Inv(s) && Guard(s, MoveAll) && h in s.handles && s.handles[h].open
    ensures Safe(s, MoveAll) && Due(Apply(s, MoveAll), h, s.handles[h].asked)
  {
    hide AllRings, Move;
    MoveRings(s);
    assert Listed(s, h);
  }

  /** At the end of a drain, every send that took effect before it is answered, if the handle stayed open. */
  lemma DrainAnswers(ss: seq<State>, steps: seq<Step>, i: nat, j: nat, h: Hid)
    requires OneDrain(ss, steps, i, j) && h in ss[i].handles
    requires forall e :: i <= e <= j && h in ss[e].handles ==> ss[e].handles[h].open
    ensures h in ss[j].handles && ss[j].handles[h].served >= ss[i].handles[h].asked
  {
    hide Inv, Guard, Safe, Apply, Due;
    RunInv(ss, steps, i);
    MovedDrains(ss[i]);
    DueDuring(ss, steps, i, j, j - 1, h);
    DueKeeps(ss[j - 1], steps[j - 1], h, ss[i].handles[h].asked);
  }

  lemma MovedDrains(s: State)
    requires Inv(s) && Guard(s, MoveAll)
    ensures Safe(s, MoveAll) && Apply(s, MoveAll).pc.Draining?
  {
    MoveRings(s);
  }
}
