/** The watcher table of the event loop: maybe_resize, uv__io_start and uv__io_stop of libs/libuv/unix/core.c, and
    the part of uv__io_poll that arms the queued watchers. */
module Watchers {
  import opened Basics
  import opened Powers
  import opened Rings
  import Bits

  type Wid = nat

  /** The bits of an event mask. */
  datatype Event = PollIn | PollOut | RdHup | Pri

  /** A slot of loop->watchers: NULL, a watcher, or one of the two values that uv__io_poll hides behind the last
      slot. */
  datatype Slot = Empty | Watcher(w: Wid) | Fake(value: nat)

  /** The list nodes: loop->watcher_queue and w->watcher_queue. */
  datatype Node = Queue | Item(w: Wid)

  /** struct uv__io_t. */
  datatype Io = Io(fd: int, events: set<Event>, pevents: set<Event>)

  /** The number of slots that hold a watcher. */
  ghost function Count(s: seq<Slot>): nat {
    if s == [] then 0 else Count(s[..|s| - 1]) + if s[|s| - 1].Watcher? then 1 else 0
  }

  lemma {:induction false} CountUpdate(s: seq<Slot>, i: nat, x: Slot)
    requires i < |s|
    ensures Count(s[i := x]) == Count(s) - (if s[i].Watcher? then 1 else 0) + if x.Watcher? then 1 else 0
  {
    var n := |s| - 1;
    if i == n {
      assert s[i := x][..n] == s[..n];
    } else {
      assert s[i := x][..n] == s[..n][i := x];
      CountUpdate(s[..n], i, x);
    }
  }

  lemma {:induction false} CountGrown(s: seq<Slot>, n: nat)
    ensures Count(s + seq(n, _ => Empty)) == Count(s)
    decreases n
  {
    var t := s + seq(n, _ => Empty);
    if n > 0 {
      assert t[..|t| - 1] == s + seq(n - 1, _ => Empty);
      CountGrown(s, n - 1);
    } else {
      assert t == s;
    }
  }

  lemma {:induction false} CountSome(s: seq<Slot>, i: nat)
    requires i < |s| && s[i].Watcher?
    ensures Count(s) > 0
  {
    if i < |s| - 1 {
      CountSome(s[..|s| - 1], i);
    }
  }

  // ---------- Invariant ----------

  ghost predicate SlotOk(table: seq<Slot>, ios: map<Wid, Io>, i: int) {
    && 0 <= i < |table|
    && (table[i].Empty? ||
        (table[i].Watcher? && table[i].w in ios && ios[table[i].w].fd == i && ios[table[i].w].pevents != {}))
  }

  /** A watcher has its slot exactly while it waits for events. */
  ghost predicate IoOk(table: seq<Slot>, ios: map<Wid, Io>, w: Wid)
    requires w in ios
  {
    && (ios[w].pevents != {} ==> 0 <= ios[w].fd < |table| && table[ios[w].fd] == Watcher(w))
    && (ios[w].pevents == {} ==> ios[w].events == {})
  }

  ghost predicate TableOk(table: seq<Slot>, ios: map<Wid, Io>, nfds: int) {
    && (forall i {:trigger SlotOk(table, ios, i)} :: 0 <= i < |table| ==> SlotOk(table, ios, i))
    && (forall w {:trigger IoOk(table, ios, w)} :: w in ios ==> IoOk(table, ios, w))
    && nfds == Count(table)
  }

  /** A watcher outside of the queue is linked to itself; one whose masks differ is in the queue. */
  ghost predicate NodeOk(links: Links<Node>, queue: seq<Node>, ios: map<Wid, Io>, w: Wid)
    requires w in ios
  {
    && Item(w) in links && (Item(w) !in queue ==> links[Item(w)] == Link(Item(w), Item(w)))
    && (Item(w) in queue ==> ios[w].pevents != {})
    && (ios[w].pevents != {} && ios[w].events != ios[w].pevents ==> Item(w) in queue)
  }

  ghost predicate QueueOk(links: Links<Node>, queue: seq<Node>, ios: map<Wid, Io>) {
    && Ring(links, Queue, queue)
    && (forall x :: x in queue ==> x.Item? && x.w in ios)
    && (forall w {:trigger NodeOk(links, queue, ios, w)} :: w in ios ==> NodeOk(links, queue, ios, w))
  }

  // ---------- The queue ----------

  /** QUEUE_EMPTY of a watcher's node says whether it is queued. */
  lemma SelfLinked(links: Links<Node>, queue: seq<Node>, w: Wid)
    requires Ring(links, Queue, queue) && Item(w) in links
             && (Item(w) !in queue ==> links[Item(w)] == Link(Item(w), Item(w)))
    ensures Rings.Empty(links, Item(w)) <==> Item(w) !in queue
  {
    if Item(w) in queue {
      var k :| 0 <= k < |queue| && queue[k] == Item(w);
      assert LinkedAt(links, Queue, queue, k + 1);
      assert At(Queue, queue, k + 1) == Item(w) && At(Queue, queue, k + 2) != Item(w);
    }
  }

  lemma Enqueued(links: Links<Node>, queue: seq<Node>, ios: map<Wid, Io>, w: Wid, io: Io)
    requires QueueOk(links, queue, ios) && w in ios && Item(w) !in queue && io.pevents != {}
    ensures Queue in links && Item(w) in links && links[Queue].prev in links
    ensures QueueOk(InsertTail(links, Queue, Item(w)), queue + [Item(w)], ios[w := io])
  {
    hide InsertTail, Ring, Distinct;
    assert NodeOk(links, queue, ios, w);
    InsertTailRing(links, Queue, queue, Item(w));
    var links', queue', ios' := InsertTail(links, Queue, Item(w)), queue + [Item(w)], ios[w := io];
    forall v | v in ios' ensures NodeOk(links', queue', ios', v) {
      assert NodeOk(links, queue, ios, v);
    }
  }

  /** A change of masks that needs no change of the queue. */
  lemma Unmoved(links: Links<Node>, queue: seq<Node>, ios: map<Wid, Io>, w: Wid, io: Io)
    requires QueueOk(links, queue, ios) && w in ios
    requires Item(w) in queue ==> io.pevents != {}
    requires io.pevents != {} && io.events != io.pevents ==> Item(w) in queue
    ensures QueueOk(links, queue, ios[w := io])
  {
    hide Ring, Distinct;
    var ios' := ios[w := io];
    forall v | v in ios' ensures NodeOk(links, queue, ios', v) {
      assert NodeOk(links, queue, ios, v);
    }
  }

  /** QUEUE_REMOVE and QUEUE_INIT take a watcher out of the queue, and do nothing to one that is not in it. */
  lemma Dequeued(links: Links<Node>, queue: seq<Node>, ios: map<Wid, Io>, w: Wid, io: Io)
    requires QueueOk(links, queue, ios) && w in ios && (io.pevents == {} || io.events == io.pevents)
    ensures Item(w) in links && links[Item(w)].next in links && links[Item(w)].prev in links
    ensures QueueOk(Init(Remove(links, Item(w)), Item(w)), Del(queue, Item(w)), ios[w := io])
  {
    var x := Item(w);
    assert NodeOk(links, queue, ios, w);
    if x in queue {
      DequeuedIn(links, queue, ios, w, io);
    } else {
      DelNone(queue, x);
      assert Init(Remove(links, x), x) == links;
      Unmoved(links, queue, ios, w, io);
    }
  }

  lemma DequeuedIn(links: Links<Node>, queue: seq<Node>, ios: map<Wid, Io>, w: Wid, io: Io)
    requires QueueOk(links, queue, ios) && w in ios && Item(w) in queue && (io.pevents == {} || io.events == io.pevents)
    ensures Item(w) in links && links[Item(w)].next in links && links[Item(w)].prev in links
    ensures QueueOk(Init(Remove(links, Item(w)), Item(w)), Del(queue, Item(w)), ios[w := io])
  {
    hide Remove, Ring, Distinct, Del, Init;
    var x := Item(w);
    RemoveAt(links, queue, x);
    var m, q, ios' := Init(Remove(links, x), x), Del(queue, x), ios[w := io];
    forall v | v in ios' ensures NodeOk(m, q, ios', v) {
      assert NodeOk(links, queue, ios, v);
    }
  }

  lemma RemoveAt(links: Links<Node>, queue: seq<Node>, x: Node)
    requires Ring(links, Queue, queue) && x in queue
    ensures x in links && links[x].next in links && links[x].prev in links
    ensures var m := Init(Remove(links, x), x);
            && Ring(m, Queue, Del(queue, x)) && m.Keys == links.Keys && m[x] == Link(x, x)
            && (forall y :: y in Del(queue, x) <==> y in queue && y != x)
            && (forall y :: y in links && y !in queue && y != Queue ==> m[y] == links[y])
  {
    var rs := map[Queue := queue];
    assert AllRings(links, rs);
    AllInit(links, rs, Queue, x);
    var m := Init(Remove(links, x), x);
    assert Without(rs, x)[Queue] == Del(queue, x);
    forall y | y in links && y !in queue && y != Queue ensures m[y] == links[y] {
      assert Free(rs, y);
    }
  }

  // ---------- The table ----------

  lemma TableGrown(table: seq<Slot>, ios: map<Wid, Io>, nfds: int, n: nat)
    requires TableOk(table, ios, nfds)
    ensures TableOk(table + seq(n, _ => Empty), ios, nfds)
  {
    var table' := table + seq(n, _ => Empty);
    CountGrown(table, n);
    forall i | 0 <= i < |table'| ensures SlotOk(table', ios, i) {
      assert i < |table| ==> SlotOk(table, ios, i);
    }
    forall w | w in ios ensures IoOk(table', ios, w) {
      assert IoOk(table, ios, w);
    }
  }

  /** No other watcher has the descriptor of `w`. */
  ghost predicate Alone(table: seq<Slot>, ios: map<Wid, Io>, w: Wid)
    requires w in ios
  {
    0 <= ios[w].fd < |table| ==> table[ios[w].fd] in {Empty, Watcher(w)}
  }

  /** The slot of `w` is set for events to wait for, and cleared for none. */
  lemma TableSet(table: seq<Slot>, ios: map<Wid, Io>, nfds: int, w: Wid, io: Io)
    requires TableOk(table, ios, nfds) && w in ios && 0 <= ios[w].fd < |table| && io.fd == ios[w].fd
             && Alone(table, ios, w)
    requires io.pevents == {} ==> io.events == {}
    ensures var slot := if io.pevents == {} then Empty else Watcher(w);
            TableOk(table[io.fd := slot], ios[w := io],
                    nfds - (if table[io.fd].Watcher? then 1 else 0) + if slot.Watcher? then 1 else 0)
  {
    var slot := if io.pevents == {} then Empty else Watcher(w);
    var table', ios' := table[io.fd := slot], ios[w := io];
    CountUpdate(table, io.fd, slot);
    forall i | 0 <= i < |table'| ensures SlotOk(table', ios', i) {
      assert SlotOk(table, ios, i);
    }
    forall v | v in ios' ensures IoOk(table', ios', v) {
      assert IoOk(table, ios, v);
    }
  }

  lemma HalfWord()
    ensures Pow2(31) == INT_MAX + 1
  {
    Bits.WordIsPow2();
  }

  /** The capacity that maybe_resize asks for fits into 32 bits, unless the descriptor is INT_MAX - 1. */
  lemma CapacityFits(len: nat, k: nat)
    requires len <= INT_MAX && Bits.Least(len + 2, k)
    ensures k < 32 <==> len < INT_MAX
  {
    HalfWord();
    if k > 31 {
      Pow2Mono(31, k - 1);
    } else {
      Pow2Mono(k, 31);
    }
  }

  /** The slots and the two values behind them fill a power of two. */
  ghost predicate Capacity(n: nat) {
    n == 0 || exists k :: k <= 31 && n + 2 == Pow2(k)
  }

  /** next_power_of_two(len + 2). */
  method NewCapacity(len: nat) returns (capacity: nat)
    requires len <= INT_MAX
    ensures capacity == 0 <==> len == INT_MAX
    ensures capacity != 0 ==> len + 2 <= capacity && Capacity(capacity - 2)
    ensures capacity != 0 ==> exists k :: Bits.Least(len + 2, k) && capacity == Pow2(k)
  {
    capacity := Bits.NextPowerOfTwo(len + 2);
    ghost var k :| Bits.Least(len + 2, k) && k <= 32 && capacity == if k == 32 then 0 else Pow2(k);
    CapacityFits(len, k);
  }

  lemma CapacityBound(n: nat)
    requires Capacity(n)
    ensures n < INT_MAX
  {
    if n > 0 {
      var k :| k <= 31 && n + 2 == Pow2(k);
      Pow2Mono(k, 31);
      HalfWord();
    }
  }

  class Loop {
    var watchers: seq<Slot>
    var nwatchers: nat
    var nfds: int
    var ios: map<Wid, Io>
    var links: Links<Node>
    ghost var queue: seq<Node>

    /** The slots, without the two values behind them. */
    ghost function Table(): seq<Slot>
      reads this
    {
      if nwatchers <= |watchers| then watchers[..nwatchers] else []
    }

    ghost predicate Valid()
      reads this
    {
      && (if watchers == [] then nwatchers == 0 else |watchers| == nwatchers + 2) && Capacity(nwatchers)
      && TableOk(Table(), ios, nfds) && QueueOk(links, queue, ios)
    }

    /** The table of a new loop. */
    constructor ()
      ensures Valid() && ios == map[] && queue == [] && nwatchers == 0
    {
      watchers, nwatchers, nfds, ios, links, queue := [], 0, 0, map[], map[Queue := Link(Queue, Queue)], [];
    }

    /** uv__io_init, for memory that is not in use as a watcher. */
    method InitWatcher(w: Wid, fd: int)
      requires Valid() && fd >= -1 && (w in ios ==> ios[w].pevents == {})
      modifies this`ios, this`links
      ensures Valid() && ios == old(ios)[w := Io(fd, {}, {})]
    {
      hide TableOk, Ring, Capacity;
      if w in ios {
        WatcherFacts(Table(), ios, nfds, links, queue, w);
      }
      TableNew(Table(), ios, nfds, w, fd);
      QueueNew(links, queue, ios, w, fd);
      links := Init(links, Item(w));
      ios := ios[w := Io(fd, {}, {})];
    }

    /** maybe_resize: the slots and the two values behind them are kept, and the new capacity with these two is the
        least power of two that is large enough. It stops with `wrapped` where that comes out as 0: the source then asks
        for no memory at all, and aborts if it gets a null pointer for that and writes behind the memory if not. */
    method MaybeResize(len: nat) returns (wrapped: bool)
      requires Valid() && len <= INT_MAX
      modifies this`watchers, this`nwatchers
      ensures wrapped <==> len == INT_MAX
      ensures wrapped ==> watchers == old(watchers) && nwatchers == old(nwatchers)
      ensures Valid() && (wrapped || nwatchers >= len) && nwatchers >= old(nwatchers)
      ensures Table() == old(Table()) + seq(nwatchers - old(nwatchers), _ => Empty)
      ensures old(watchers) != [] ==> watchers != [] && watchers[nwatchers..] == old(watchers[nwatchers..])
      ensures nwatchers != old(nwatchers) ==> exists k :: Bits.Least(len + 2, k) && nwatchers + 2 == Pow2(k)
      ensures nwatchers == old(nwatchers) <==> wrapped || len <= old(nwatchers)
    {
      hide TableOk, QueueOk, Capacity, Bits.Least, Pow2;
      CapacityBound(nwatchers);
      wrapped := false;
      if len <= nwatchers {
        assert Table() == Table() + seq(0, _ => Empty);
        return;
      }
      var list, count := Empty, Empty;
      if watchers != [] {
        list, count := watchers[nwatchers], watchers[nwatchers + 1];
      }
      var capacity := NewCapacity(len);
      if capacity == 0 {
        assert Table() == Table() + seq(0, _ => Empty);
        return true;
      }
      var n := capacity - 2;
      TableGrown(Table(), ios, nfds, n - nwatchers);
      var table := if watchers == [] then [] else watchers[..nwatchers];
      for i := nwatchers to n
        invariant table == old(Table()) + seq(i - nwatchers, _ => Empty)
      {
        table := table + [Empty];
      }
      watchers := table + [list, count];
      nwatchers := n;
      assert Table() == table;
    }

    /** uv__io_start, for a descriptor that no other watcher waits on; `wrapped` as in MaybeResize. */
    method Start(w: Wid, events: set<Event>) returns (wrapped: bool)
      requires Valid() && w in ios && events != {} && 0 <= ios[w].fd < INT_MAX && Alone(Table(), ios, w)
      modifies this
      ensures wrapped <==> old(ios)[w].fd == INT_MAX - 1
      ensures Valid()
      ensures wrapped ==> ios == old(ios) && watchers == old(watchers) && nfds == old(nfds) && queue == old(queue)
      ensures !wrapped ==> ios == old(ios)[w := old(ios)[w].(pevents := old(ios)[w].pevents + events)]
      ensures !wrapped ==> nwatchers >= old(nwatchers) && ios[w].fd < nwatchers
      ensures !wrapped ==>
                Table() == (old(Table()) + seq(nwatchers - old(nwatchers), _ => Empty))[ios[w].fd := Watcher(w)]
      ensures !wrapped ==> nfds == old(nfds) + if old(ios)[w].pevents == {} then 1 else 0
      ensures old(watchers) != [] ==> watchers != [] && watchers[nwatchers..] == old(watchers[nwatchers..])
      ensures !wrapped ==>
                queue == old(queue) +
                         if ios[w].events != ios[w].pevents && Item(w) !in old(queue) then [Item(w)] else []
    {
      hide Bits.Least, QueueOk, TableOk, Capacity, Alone;
      wrapped := MaybeResize(ios[w].fd + 1);
      if wrapped {
        return;
      }
      AloneGrown(old(Table()), ios, w, nwatchers - old(nwatchers));
      Register(w, events);
    }

    /** The rest of uv__io_start, for a descriptor inside the table. */
    method Register(w: Wid, events: set<Event>)
      requires Valid() && w in ios && events != {} && 0 <= ios[w].fd < nwatchers && Alone(Table(), ios, w)
      modifies this`watchers, this`nfds, this`ios, this`links, this`queue
      ensures Valid() && ios == old(ios)[w := old(ios)[w].(pevents := old(ios)[w].pevents + events)]
      ensures Table() == old(Table())[ios[w].fd := Watcher(w)]
      ensures watchers != [] && watchers[nwatchers..] == old(watchers)[nwatchers..]
      ensures nfds == old(nfds) + if old(ios)[w].pevents == {} then 1 else 0
      ensures queue == old(queue) + if ios[w].events != ios[w].pevents && Item(w) !in old(queue) then [Item(w)] else []
    {
      hide QueueOk, TableOk, Capacity, InsertTail, Ring, Rings.Empty;
      var io := ios[w].(pevents := ios[w].pevents + events);
      var fd := io.fd;
      WatcherFacts(Table(), ios, nfds, links, queue, w);
      TableSet(Table(), ios, nfds, w, io);
      if io.events == io.pevents {
        Unmoved(links, queue, ios, w, io);
        assert Table()[fd := Watcher(w)] == Table();
        ios := ios[w := io];
        return;
      }
      SelfLinked(links, queue, w);
      if Rings.Empty(links, Item(w)) {
        Enqueued(links, queue, ios, w, io);
        links := InsertTail(links, Queue, Item(w));
        queue := queue + [Item(w)];
      } else {
        Unmoved(links, queue, ios, w, io);
      }
      if watchers[fd] == Empty {
        ghost var table := Table();
        watchers := watchers[fd := Watcher(w)];
        nfds := nfds + 1;
        assert Table() == table[fd := Watcher(w)];
      } else {
        assert Table()[fd := Watcher(w)] == Table();
      }
      ios := ios[w := io];
    }

    /** uv__io_stop, for a descriptor that no other watcher waits on. */
    method Stop(w: Wid, events: set<Event>)
      requires Valid() && w in ios && events != {} && ios[w].fd >= -1 && Alone(Table(), ios, w)
      modifies this
      ensures Valid() && nwatchers == old(nwatchers)
      ensures !(0 <= old(ios)[w].fd < nwatchers) ==>
                ios == old(ios) && watchers == old(watchers) && nfds == old(nfds) && queue == old(queue)
      ensures 0 <= old(ios)[w].fd < nwatchers ==>
                var io := old(ios)[w];
                var left := io.pevents - events;
                && ios == old(ios)[w := io.(pevents := left, events := if left == {} then {} else io.events)]
                && Table() == (if left == {} then old(Table())[io.fd := Empty] else old(Table()))
                && nfds == old(nfds) - (if left == {} && io.pevents != {} then 1 else 0)
                && queue == (if left == {} then Del(old(queue), Item(w))
                             else old(queue) + if Item(w) in old(queue) then [] else [Item(w)])
      ensures watchers != [] ==> watchers[nwatchers..] == old(watchers[nwatchers..])
    {
      hide QueueOk, TableOk, Capacity;
      if ios[w].fd == -1 {
        return;
      }
      var fd := ios[w].fd;
      if fd >= nwatchers {
        return;
      }
      var io := ios[w].(pevents := ios[w].pevents - events);
      WatcherFacts(Table(), ios, nfds, links, queue, w);
      if io.pevents == {} {
        if watchers[fd] != Empty {
          io := io.(events := {});
        }
        TableSet(Table(), ios, nfds, w, io);
        Dequeued(links, queue, ios, w, io);
        NotDequeued(links, queue, Item(w));
        links := Init(Remove(links, Item(w)), Item(w));
        queue := Del(queue, Item(w));
        ghost var table := Table();
        if watchers[fd] != Empty {
          assert watchers[fd] == Watcher(w) && nfds > 0 by {
            CountTable(Table(), ios, nfds, fd);
          }
          watchers := watchers[fd := Empty];
          nfds := nfds - 1;
        }
        assert Table() == table[fd := Empty];
        ios := ios[w := io];
      } else {
        TableSet(Table(), ios, nfds, w, io);
        assert Table()[fd := Watcher(w)] == Table();
        SelfLinked(links, queue, w);
        if Rings.Empty(links, Item(w)) {
          Enqueued(links, queue, ios, w, io);
          links := InsertTail(links, Queue, Item(w));
          queue := queue + [Item(w)];
        } else {
          Unmoved(links, queue, ios, w, io);
        }
        ios := ios[w := io];
      }
    }

    /** The head of uv__io_poll: with no descriptors there is nothing to arm, and otherwise every queued watcher is
        armed for the events it waits for. */
    method Arm()
      requires Valid()
      modifies this`ios, this`links, this`queue
      ensures Valid() && queue == [] && ios.Keys == old(ios).Keys
      ensures forall w :: w in ios ==> ios[w] == old(ios)[w].(events := ios[w].pevents)
    {
      hide QueueOk, TableOk, Capacity;
      if nfds == 0 {
        NothingQueued(Table(), ios, nfds, links, queue);
        AllArmed(Table(), ios, nfds, links, queue);
        return;
      }
      HeadOf(links, queue, ios);
      while !Rings.Empty(links, Queue)
        invariant Valid() && ios.Keys == old(ios).Keys && watchers == old(watchers)
        invariant Queue in links && (Rings.Empty(links, Queue) <==> queue == [])
        invariant forall w :: w in ios ==>
                  ios[w] == old(ios)[w].(events := ios[w].events)
                    && ios[w].events in {old(ios)[w].events, ios[w].pevents}
        decreases |queue|
      {
        HeadOf(links, queue, ios);
        var q := links[Queue].next;
        var w := q.w;
        WatcherFacts(Table(), ios, nfds, links, queue, w);
        assert ios[w].pevents != {} && 0 <= ios[w].fd < nwatchers;
        var io := ios[w].(events := ios[w].pevents);
        Dequeued(links, queue, ios, w, io);
        TableSet(Table(), ios, nfds, w, io);
        assert Table()[io.fd := Watcher(w)] == Table();
        links := Init(Remove(links, q), q);
        queue := Del(queue, q);
        ios := ios[w := io];
        HeadOf(links, queue, ios);
      }
      AllArmed(Table(), ios, nfds, links, queue);
    }
  }

  /** The descriptor that the assertions of uv__io_start admit and for which the capacity wraps around. */
  method LastDescriptor() returns (wrapped: bool)
    ensures wrapped
  {
    var loop := new Loop();
    loop.InitWatcher(3, INT_MAX - 1);
    assert loop.nwatchers == 0;
    wrapped := loop.Start(3, {PollIn});
  }

  lemma TableNew(table: seq<Slot>, ios: map<Wid, Io>, nfds: int, w: Wid, fd: int)
    requires TableOk(table, ios, nfds) && (w in ios ==> ios[w].pevents == {})
    ensures TableOk(table, ios[w := Io(fd, {}, {})], nfds)
  {
    var ios' := ios[w := Io(fd, {}, {})];
    forall i | 0 <= i < |table| ensures SlotOk(table, ios', i) {
      assert SlotOk(table, ios, i);
    }
    forall v | v in ios' ensures IoOk(table, ios', v) {
      assert v != w ==> IoOk(table, ios, v);
    }
  }

  lemma QueueNew(links: Links<Node>, queue: seq<Node>, ios: map<Wid, Io>, w: Wid, fd: int)
    requires QueueOk(links, queue, ios) && (w in ios ==> ios[w].pevents == {})
    ensures QueueOk(Init(links, Item(w)), queue, ios[w := Io(fd, {}, {})])
  {
    var x, m, ios' := Item(w), Init(links, Item(w)), ios[w := Io(fd, {}, {})];
    if w in ios {
      assert NodeOk(links, queue, ios, w);
    }
    forall i | 0 <= i <= |queue| ensures LinkedAt(m, Queue, queue, i) {
      assert LinkedAt(links, Queue, queue, i);
      assert x !in queue;
    }
    forall v | v in ios' ensures NodeOk(m, queue, ios', v) {
      assert v != w ==> NodeOk(links, queue, ios, v);
    }
  }

  lemma NotDequeued(links: Links<Node>, queue: seq<Node>, x: Node)
    requires Ring(links, Queue, queue)
    ensures x !in Del(queue, x)
  {
    if x in queue {
      RemoveAt(links, queue, x);
    } else {
      DelNone(queue, x);
    }
  }

  lemma CountTable(table: seq<Slot>, ios: map<Wid, Io>, nfds: int, fd: int)
    requires TableOk(table, ios, nfds) && 0 <= fd < |table| && table[fd] != Empty
    ensures table[fd].Watcher? && nfds > 0
  {
    assert SlotOk(table, ios, fd);
    CountSome(table, fd);
  }

  /** A queued watcher has a slot. */
  lemma NothingQueued(table: seq<Slot>, ios: map<Wid, Io>, nfds: int, links: Links<Node>, queue: seq<Node>)
    requires TableOk(table, ios, nfds) && QueueOk(links, queue, ios) && nfds == 0
    ensures queue == []
  {
    if queue != [] {
      var w := queue[0].w;
      WatcherFacts(table, ios, nfds, links, queue, w);
      CountTable(table, ios, nfds, ios[w].fd);
      assert false;
    }
  }

  lemma HeadOf(links: Links<Node>, queue: seq<Node>, ios: map<Wid, Io>)
    requires QueueOk(links, queue, ios)
    ensures Queue in links && (Rings.Empty(links, Queue) <==> queue == [])
    ensures queue != [] ==> links[Queue].next == queue[0] && queue[0].Item? && queue[0].w in ios
    ensures queue != [] ==> |Del(queue, queue[0])| < |queue|
  {
    EmptyRing(links, Queue, queue);
  }

  lemma AllArmed(table: seq<Slot>, ios: map<Wid, Io>, nfds: int, links: Links<Node>, queue: seq<Node>)
    requires TableOk(table, ios, nfds) && QueueOk(links, queue, ios) && queue == []
    ensures forall w :: w in ios ==> ios[w].events == ios[w].pevents
  {
    forall w | w in ios ensures ios[w].events == ios[w].pevents {
      WatcherFacts(table, ios, nfds, links, queue, w);
    }
  }

  lemma WatcherFacts(table: seq<Slot>, ios: map<Wid, Io>, nfds: int, links: Links<Node>, queue: seq<Node>, w: Wid)
    requires TableOk(table, ios, nfds) && QueueOk(links, queue, ios) && w in ios
    ensures IoOk(table, ios, w) && NodeOk(links, queue, ios, w) && Ring(links, Queue, queue)
    ensures 0 <= ios[w].fd < |table| && table[ios[w].fd] == Watcher(w) ==> ios[w].pevents != {}
  {
    assert IoOk(table, ios, w) && NodeOk(links, queue, ios, w);
    assert 0 <= ios[w].fd < |table| ==> SlotOk(table, ios, ios[w].fd);
  }

  lemma AloneGrown(table: seq<Slot>, ios: map<Wid, Io>, w: Wid, n: nat)
    requires w in ios && Alone(table, ios, w)
    ensures Alone(table + seq(n, _ => Empty), ios, w)
  {
  }
}
