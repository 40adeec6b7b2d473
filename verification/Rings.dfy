/** The circular lists of libs/libuv/queue.h. The links are a map from list nodes to their two
    pointers; each macro is a function on that map, and refines an operation on sequences. */
module Rings {

  datatype Link<T> = Link(next: T, prev: T)

  type Links<T> = map<T, Link<T>>

  function SetNext<T>(m: Links<T>, a: T, b: T): Links<T>
    requires a in m
  {
    m[a := m[a].(next := b)]
  }

  function SetPrev<T>(m: Links<T>, a: T, b: T): Links<T>
    requires a in m
  {
    m[a := m[a].(prev := b)]
  }

  // ---------- The macros ----------

  predicate Empty<T(==)>(m: Links<T>, h: T)
    requires h in m
  {
    m[h].next == h
  }

  function Init<T>(m: Links<T>, q: T): Links<T> {
    m[q := Link(q, q)]
  }

  function InsertTail<T>(m: Links<T>, h: T, q: T): Links<T>
    requires h in m && q in m && q != h && m[h].prev in m
  {
    var m1 := SetNext(m, q, h);
    var m2 := SetPrev(m1, q, m1[h].prev);
    var m3 := SetNext(m2, m2[q].prev, q);
    SetPrev(m3, h, q)
  }

  function InsertHead<T>(m: Links<T>, h: T, q: T): Links<T>
    requires h in m && q in m && q != h && m[h].next in m
  {
    var m1 := SetNext(m, q, m[h].next);
    var m2 := SetPrev(m1, q, h);
    var m3 := SetPrev(m2, m2[q].next, q);
    SetNext(m3, h, q)
  }

  function Remove<T>(m: Links<T>, q: T): Links<T>
    requires q in m && m[q].next in m && m[q].prev in m
  {
    var m1 := SetNext(m, m[q].prev, m[q].next);
    SetPrev(m1, m1[q].next, m1[q].prev)
  }

  function Split<T>(m: Links<T>, h: T, q: T, n: T): Links<T>
    requires h in m && q in m && n in m && n != q && m[h].prev in m && m[q].prev in m
  {
    var m1 := SetPrev(m, n, m[h].prev);
    var m2 := SetNext(m1, m1[n].prev, n);
    var m3 := SetNext(m2, n, q);
    var m4 := SetPrev(m3, h, m3[q].prev);
    var m5 := SetNext(m4, m4[h].prev, h);
    SetPrev(m5, q, n)
  }

  function Move<T(==)>(m: Links<T>, h: T, n: T): Links<T>
    requires h in m && n in m
    requires !Empty(m, h) ==> m[h].next in m && m[h].next != n && m[h].prev in m && m[m[h].next].prev in m
  {
    if Empty(m, h) then Init(m, n) else Split(m, h, m[h].next, n)
  }

  function Add<T>(m: Links<T>, h: T, n: T): Links<T>
    requires h in m && n in m && h != n && m[h].prev in m && m[h].prev != n && m[n].next in m && m[n].next != h
    requires m[n].prev in m
  {
    var m1 := SetNext(m, m[h].prev, m[n].next);
    var m2 := SetPrev(m1, m1[n].next, m1[h].prev);
    var m3 := SetPrev(m2, h, m2[n].prev);
    SetNext(m3, m3[h].prev, h)
  }

  // ---------- Rings ----------

  ghost function At<T>(h: T, s: seq<T>, i: int): T {
    if 1 <= i <= |s| then s[i - 1] else h
  }

  ghost predicate LinkedAt<T>(m: Links<T>, h: T, s: seq<T>, i: int) {
    var a, b := At(h, s, i), At(h, s, i + 1);
    a in m && b in m && m[a].next == b && m[b].prev == a
  }

  ghost predicate Distinct<T>(s: seq<T>) {
    forall i, j :: 0 <= i < |s| && 0 <= j < |s| && s[i] == s[j] ==> i == j
  }

  /** The list with head `h` holds the nodes `s`, in this order. */
  ghost predicate Ring<T>(m: Links<T>, h: T, s: seq<T>) {
    h !in s && Distinct(s) && forall i :: 0 <= i <= |s| ==> LinkedAt(m, h, s, i)
  }

  ghost predicate Same<T(!new)>(m: Links<T>, m': Links<T>, touched: set<T>) {
    && m'.Keys == m.Keys
    && forall x :: x in m && x !in touched ==> m'[x] == m[x]
  }

  ghost function Members<T>(h: T, s: seq<T>): set<T> {
    {h} + set x | x in s
  }

  lemma EmptyRing<T>(m: Links<T>, h: T, s: seq<T>)
    requires Ring(m, h, s)
    ensures h in m && (Empty(m, h) <==> s == [])
    ensures s != [] ==> m[h].next == s[0]
  {
    assert LinkedAt(m, h, s, 0);
  }

  lemma InitRing<T(!new)>(m: Links<T>, h: T)
    requires h in m
    ensures Ring(Init(m, h), h, []) && Same(m, Init(m, h), {h})
  {
  }

  lemma InsertTailRing<T(!new)>(m: Links<T>, h: T, s: seq<T>, q: T)
    requires Ring(m, h, s) && q in m && q !in Members(h, s)
    ensures h in m && q != h && m[h].prev in m
    ensures var m' := InsertTail(m, h, q);
            Ring(m', h, s + [q]) && Same(m, m', Members(h, s + [q]))
  {
    assert LinkedAt(m, h, s, |s|);
    var m', s' := InsertTail(m, h, q), s + [q];
    forall i | 0 <= i <= |s'| ensures LinkedAt(m', h, s', i) {
      if i < |s| {
        assert LinkedAt(m, h, s, i);
      }
    }
  }

  lemma InsertHeadRing<T(!new)>(m: Links<T>, h: T, s: seq<T>, q: T)
    requires Ring(m, h, s) && q in m && q !in Members(h, s)
    ensures h in m && q != h && m[h].next in m
    ensures var m' := InsertHead(m, h, q);
            Ring(m', h, [q] + s) && Same(m, m', Members(h, [q] + s))
  {
    assert LinkedAt(m, h, s, 0);
    var m', s' := InsertHead(m, h, q), [q] + s;
    forall i | 0 <= i <= |s'| ensures LinkedAt(m', h, s', i) {
      if i > 1 {
        assert LinkedAt(m, h, s, i - 1);
      }
    }
  }

  /** QUEUE_REMOVE takes a node out; the links of the node itself stay as they were. */
  lemma RemoveRing<T(!new)>(m: Links<T>, h: T, s: seq<T>, k: int)
    requires Ring(m, h, s) && 0 <= k < |s|
    ensures s[k] in m && m[s[k]].next in m && m[s[k]].prev in m
    ensures var m' := Remove(m, s[k]);
            && Ring(m', h, s[..k] + s[k + 1..]) && Same(m, m', Members(h, s) - {s[k]})
  {
    assert LinkedAt(m, h, s, k) && LinkedAt(m, h, s, k + 1);
    var m', s' := Remove(m, s[k]), s[..k] + s[k + 1..];
    forall i | 0 <= i <= |s'| ensures LinkedAt(m', h, s', i) {
      assert i < k ==> LinkedAt(m, h, s, i);
      assert i > k ==> LinkedAt(m, h, s, i + 1);
    }
  }

  lemma SplitRing<T(!new)>(m: Links<T>, h: T, s: seq<T>, k: int, n: T)
    requires Ring(m, h, s) && 0 <= k < |s| && n in m && n !in Members(h, s)
    ensures h in m && s[k] in m && n != s[k] && m[h].prev in m && m[s[k]].prev in m
    ensures var m' := Split(m, h, s[k], n);
            && Ring(m', h, s[..k]) && Ring(m', n, s[k..]) && Same(m, m', Members(h, s) + {n})
  {
    assert LinkedAt(m, h, s, k) && LinkedAt(m, h, s, |s|);
    var m', s1, s2 := Split(m, h, s[k], n), s[..k], s[k..];
    forall i | 0 <= i <= |s1| ensures LinkedAt(m', h, s1, i) {
      assert LinkedAt(m, h, s, i);
    }
    forall i | 0 <= i <= |s2| ensures LinkedAt(m', n, s2, i) {
      assert LinkedAt(m, h, s, k + i);
    }
  }

  /** QUEUE_MOVE hands all nodes to another head. */
  lemma MoveRing<T(!new)>(m: Links<T>, h: T, s: seq<T>, n: T)
    requires Ring(m, h, s) && n in m && n !in Members(h, s)
    ensures h in m
    ensures !Empty(m, h) ==> m[h].next in m && m[h].next != n && m[h].prev in m && m[m[h].next].prev in m
    ensures var m' := Move(m, h, n);
            Ring(m', h, []) && Ring(m', n, s) && Same(m, m', Members(h, s) + {n})
  {
    EmptyRing(m, h, s);
    if s == [] {
      InitRing(m, n);
      assert LinkedAt(m, h, s, 0);
    } else {
      SplitRing(m, h, s, 0, n);
      assert s[..0] == [] && s[0..] == s;
    }
  }

  lemma DistinctSum<T>(h: T, s: seq<T>, n: T, t: seq<T>)
    requires Distinct(s) && Distinct(t) && h !in s && Members(h, s) !! Members(n, t)
    ensures Distinct(s + t) && h !in s + t
  {
    assert h in Members(h, s);
    assert forall x :: x in s ==> x in Members(h, s);
    assert forall x :: x in t ==> x in Members(n, t);
    var u := s + t;
    forall i, j | 0 <= i < |u| && 0 <= j < |u| && u[i] == u[j] ensures i == j {
      assert i < |s| ==> u[i] in s;
      assert j < |s| ==> u[j] in s;
      assert i >= |s| ==> u[i] in t;
      assert j >= |s| ==> u[j] in t;
    }
  }

  /** QUEUE_ADD appends the nodes of one list to another. */
  lemma AddRing<T(!new)>(m: Links<T>, h: T, s: seq<T>, n: T, t: seq<T>)
    requires Ring(m, h, s) && Ring(m, n, t) && Members(h, s) !! Members(n, t)
    ensures h in m && n in m && h != n && m[h].prev in m && m[h].prev != n && m[n].next in m && m[n].next != h
    ensures m[n].prev in m
    ensures var m' := Add(m, h, n);
            Ring(m', h, s + t) && Same(m, m', Members(h, s) + Members(n, t))
  {
    assert LinkedAt(m, h, s, |s|) && LinkedAt(m, n, t, 0) && LinkedAt(m, n, t, |t|);
    assert At(h, s, |s|) in Members(h, s) && At(n, t, 1) in Members(n, t);
    var m', s' := Add(m, h, n), s + t;
    DistinctSum(h, s, n, t);
    forall i | 0 <= i <= |s'| ensures LinkedAt(m', h, s', i) {
      assert i < |s| ==> LinkedAt(m, h, s, i);
      assert i > |s| ==> LinkedAt(m, n, t, i - |s|);
    }
  }

  // ---------- Several rings in one memory ----------

  /** Each key `h` of `rs` heads a ring with the nodes rs[h], and no two rings share a node. */
  ghost predicate AllRings<T(!new)>(m: Links<T>, rs: map<T, seq<T>>) {
    && (forall h :: h in rs ==> Ring(m, h, rs[h]))
    && forall g, h :: g in rs && h in rs && g != h ==> Members(g, rs[g]) !! Members(h, rs[h])
  }

  lemma FewerRings<T(!new)>(m: Links<T>, rs: map<T, seq<T>>, h: T)
    requires AllRings(m, rs)
    ensures AllRings(m, rs - {h})
  {
  }

  /** The node `q` is in no ring. */
  ghost predicate Free<T(!new)>(rs: map<T, seq<T>>, q: T) {
    forall h :: h in rs ==> q !in Members(h, rs[h])
  }

  /** What is left alone when `q` is put into one of the rings `rs`. */
  ghost predicate PutIn<T(!new)>(m: Links<T>, rs: map<T, seq<T>>, m': Links<T>, q: T) {
    m'.Keys == m.Keys && forall x :: x in m && x != q && Free(rs, x) ==> m'[x] == m[x]
  }

  /** What is left when `q` is taken out of one of the rings `rs`. */
  ghost predicate TakenOut<T(!new)>(m: Links<T>, rs: map<T, seq<T>>, m': Links<T>, rs': map<T, seq<T>>, q: T) {
    && m'.Keys == m.Keys && rs'.Keys == rs.Keys
    && (forall h, x :: h in rs ==> (x in rs'[h] <==> x in rs[h] && x != q))
    && (forall x :: x in m && Free(rs, x) ==> m'[x] == m[x])
  }

  lemma RingFrame<T(!new)>(m: Links<T>, m': Links<T>, h: T, s: seq<T>, touched: set<T>)
    requires Ring(m, h, s) && Same(m, m', touched) && touched !! Members(h, s)
    ensures Ring(m', h, s)
  {
    forall i | 0 <= i <= |s| ensures LinkedAt(m', h, s, i) {
      assert LinkedAt(m, h, s, i);
      assert At(h, s, i) in Members(h, s) && At(h, s, i + 1) in Members(h, s);
    }
  }

  lemma AllInsertTail<T(!new)>(m: Links<T>, rs: map<T, seq<T>>, h: T, q: T)
    requires AllRings(m, rs) && h in rs && q in m && Free(rs, q)
    ensures h in m && q != h && m[h].prev in m
    ensures AllRings(InsertTail(m, h, q), rs[h := rs[h] + [q]]) && PutIn(m, rs, InsertTail(m, h, q), q)
  {
    InsertTailRing(m, h, rs[h], q);
    var m', rs' := InsertTail(m, h, q), rs[h := rs[h] + [q]];
    assert Members(h, rs'[h]) == Members(h, rs[h]) + {q};
    forall g | g in rs' && g != h ensures Ring(m', g, rs'[g]) {
      RingFrame(m, m', g, rs[g], Members(h, rs'[h]));
    }
  }

  lemma AllRemove<T(!new)>(m: Links<T>, rs: map<T, seq<T>>, h: T, k: int)
    requires AllRings(m, rs) && h in rs && 0 <= k < |rs[h]|
    ensures var q := rs[h][k];
            && q in m && m[q].next in m && m[q].prev in m
            && AllRings(Remove(m, q), rs[h := rs[h][..k] + rs[h][k + 1..]])
            && Free(rs[h := rs[h][..k] + rs[h][k + 1..]], q) && Remove(m, q).Keys == m.Keys
            && Remove(m, q)[q] == m[q]
            && forall x :: x in m && Free(rs, x) ==> Remove(m, q)[x] == m[x]
  {
    var q := rs[h][k];
    RemoveRing(m, h, rs[h], k);
    var m', s' := Remove(m, q), rs[h][..k] + rs[h][k + 1..];
    var rs' := rs[h := s'];
    assert q in Members(h, rs[h]) && Members(h, s') <= Members(h, rs[h]);
    assert q !in Members(h, s');
    forall g | g in rs' && g != h ensures Ring(m', g, rs'[g]) {
      RingFrame(m, m', g, rs[g], Members(h, rs[h]) - {q});
    }
  }

  ghost function Del<T>(s: seq<T>, q: T): seq<T> {
    if s == [] then [] else if s[0] == q then s[1..] else [s[0]] + Del(s[1..], q)
  }

  lemma {:induction false} DelAt<T>(s: seq<T>, k: int)
    requires 0 <= k < |s| && Distinct(s)
    ensures Del(s, s[k]) == s[..k] + s[k + 1..]
  {
    if k > 0 {
      assert s[0] != s[k];
      assert Distinct(s[1..]) by {
        forall i, j | 0 <= i < |s[1..]| && 0 <= j < |s[1..]| && s[1..][i] == s[1..][j] ensures i == j {
          assert s[i + 1] == s[j + 1];
        }
      }
      DelAt(s[1..], k - 1);
    }
  }

  lemma {:induction false} DelNone<T>(s: seq<T>, q: T)
    requires q !in s
    ensures Del(s, q) == s
  {
    if s != [] {
      DelNone(s[1..], q);
    }
  }

  /** The rings that are left when the node `q` is taken out of the ring that it is in. */
  ghost function Without<T>(rs: map<T, seq<T>>, q: T): map<T, seq<T>> {
    map h | h in rs :: Del(rs[h], q)
  }

  lemma DelMembers<T(!new)>(s: seq<T>, k: int)
    requires 0 <= k < |s| && Distinct(s)
    ensures forall x :: x in s[..k] + s[k + 1..] <==> x in s && x != s[k]
  {
    var t := s[..k] + s[k + 1..];
    forall x | x in s && x != s[k] ensures x in t {
      var i :| 0 <= i < |s| && s[i] == x;
      assert t[if i < k then i else i - 1] == x;
    }
    forall x | x in t ensures x in s && x != s[k] {
      var i :| 0 <= i < |t| && t[i] == x;
      assert x == s[if i < k then i else i + 1];
    }
  }

  lemma WithoutAt<T(!new)>(m: Links<T>, rs: map<T, seq<T>>, h: T, k: int)
    requires AllRings(m, rs) && h in rs && 0 <= k < |rs[h]|
    ensures Without(rs, rs[h][k]) == rs[h := rs[h][..k] + rs[h][k + 1..]]
    ensures forall g :: g in rs && g != h ==> rs[h][k] !in rs[g]
  {
    var q := rs[h][k];
    assert Ring(m, h, rs[h]) && q in Members(h, rs[h]);
    DelAt(rs[h], k);
    forall g | g in rs && g != h ensures Del(rs[g], q) == rs[g] && q !in rs[g] {
      assert Members(g, rs[g]) !! Members(h, rs[h]) && q !in Members(g, rs[g]);
      DelNone(rs[g], q);
    }
  }

  /** The sequences after `q` has left the one that it was in. */
  ghost predicate LeftRing<T(!new)>(rs: map<T, seq<T>>, q: T, rs': map<T, seq<T>>) {
    exists h, k ::
      && h in rs && 0 <= k < |rs[h]| && rs[h][k] == q && rs' == rs[h := rs[h][..k] + rs[h][k + 1..]]
      && forall g :: g in rs' ==> q !in rs'[g]
  }

  lemma WithoutLeft<T(!new)>(m: Links<T>, rs: map<T, seq<T>>, q: T)
    requires AllRings(m, rs) && exists h :: h in rs && q in rs[h]
    ensures LeftRing(rs, q, Without(rs, q))
  {
    var h :| h in rs && q in rs[h];
    var k :| 0 <= k < |rs[h]| && rs[h][k] == q;
    assert Ring(m, h, rs[h]);
    assert Distinct(rs[h]);
    hide AllRings, Ring, Without, Distinct;
    WithoutAt(m, rs, h, k);
    DelMembers(rs[h], k);
  }

  /** QUEUE_REMOVE needs to know neither the ring nor the place of the node. */
  lemma AllWithout<T(!new)>(m: Links<T>, rs: map<T, seq<T>>, h: T, q: T)
    requires AllRings(m, rs) && h in rs && q in rs[h]
    ensures q in m && m[q].next in m && m[q].prev in m
    ensures AllRings(Remove(m, q), Without(rs, q)) && Free(Without(rs, q), q)
    ensures TakenOut(m, rs, Remove(m, q), Without(rs, q), q)
  {
    var k :| 0 <= k < |rs[h]| && rs[h][k] == q;
    assert Ring(m, h, rs[h]);
    assert Distinct(rs[h]);
    hide AllRings, Ring, Free, Remove, Without, Distinct;
    AllRemove(m, rs, h, k);
    WithoutAt(m, rs, h, k);
    DelMembers(rs[h], k);
  }

  lemma AllMove<T(!new)>(m: Links<T>, rs: map<T, seq<T>>, h: T, n: T)
    requires AllRings(m, rs) && h in rs && n in m && Free(rs, n)
    ensures h in m
    ensures !Empty(m, h) ==> m[h].next in m && m[h].next != n && m[h].prev in m && m[m[h].next].prev in m
    ensures AllRings(Move(m, h, n), rs[h := []][n := rs[h]]) && PutIn(m, rs, Move(m, h, n), n)
  {
    MoveRing(m, h, rs[h], n);
    var m', rs' := Move(m, h, n), rs[h := []][n := rs[h]];
    assert Members(n, rs[h]) <= Members(h, rs[h]) + {n} && Members(h, []) == {h};
    forall g | g in rs' && g != h && g != n ensures Ring(m', g, rs'[g]) {
      RingFrame(m, m', g, rs[g], Members(h, rs[h]) + {n});
    }
  }

  /** A node that has been taken out may be re-initialised. */
  lemma AllInit<T(!new)>(m: Links<T>, rs: map<T, seq<T>>, h: T, q: T)
    requires AllRings(m, rs) && h in rs && q in rs[h]
    ensures q in m && m[q].next in m && m[q].prev in m
    ensures var m' := Init(Remove(m, q), q);
            && AllRings(m', Without(rs, q)) && TakenOut(m, rs, m', Without(rs, q), q) && m'[q] == Link(q, q)
  {
    AllWithout(m, rs, h, q);
    var m1, rs' := Remove(m, q), Without(rs, q);
    InitRing(m1, q);
    forall g | g in rs' ensures Ring(Init(m1, q), g, rs'[g]) {
      RingFrame(m1, Init(m1, q), g, rs'[g], {q});
    }
    assert q in Members(h, rs[h]);
  }

  // ---------- The macros on objects ----------

  class Queue {
    var next: Queue
    var prev: Queue

    constructor ()
      ensures next == this && prev == this
    {
      next, prev := this, this;
    }

    method Init()
      modifies this
      ensures next == this && prev == this
    {
      next, prev := this, this;
    }
  }

  /** The objects in the domain of `m` are linked as `m` says. */
  ghost predicate Holds(m: Links<Queue>)
    reads m.Keys
  {
    forall q :: q in m ==> q.next == m[q].next && q.prev == m[q].prev
  }

  method AssignNext(a: Queue, b: Queue, ghost m: Links<Queue>) returns (ghost m': Links<Queue>)
    requires Holds(m) && a in m
    modifies a`next
    ensures m' == SetNext(m, a, b) && Holds(m')
  {
    a.next := b;
    m' := SetNext(m, a, b);
  }

  method AssignPrev(a: Queue, b: Queue, ghost m: Links<Queue>) returns (ghost m': Links<Queue>)
    requires Holds(m) && a in m
    modifies a`prev
    ensures m' == SetPrev(m, a, b) && Holds(m')
  {
    a.prev := b;
    m' := SetPrev(m, a, b);
  }

  method QueueInsertTail(h: Queue, q: Queue, ghost m: Links<Queue>)
    requires Holds(m) && h in m && q in m && q != h && h.prev in m
    modifies h, q, h.prev
    ensures Holds(InsertTail(m, h, q))
  {
    ghost var m1 := AssignNext(q, h, m);
    ghost var m2 := AssignPrev(q, h.prev, m1);
    ghost var m3 := AssignNext(q.prev, q, m2);
    ghost var m4 := AssignPrev(h, q, m3);
  }

  method QueueInsertHead(h: Queue, q: Queue, ghost m: Links<Queue>)
    requires Holds(m) && h in m && q in m && q != h && h.next in m
    modifies h, q, h.next
    ensures Holds(InsertHead(m, h, q))
  {
    ghost var m1 := AssignNext(q, h.next, m);
    ghost var m2 := AssignPrev(q, h, m1);
    ghost var m3 := AssignPrev(q.next, q, m2);
    ghost var m4 := AssignNext(h, q, m3);
  }

  method QueueRemove(q: Queue, ghost m: Links<Queue>)
    requires Holds(m) && q in m && q.next in m && q.prev in m
    modifies q.next, q.prev
    ensures Holds(Remove(m, q))
  {
    ghost var m1 := AssignNext(q.prev, q.next, m);
    ghost var m2 := AssignPrev(q.next, q.prev, m1);
  }

  method QueueSplit(h: Queue, q: Queue, n: Queue, ghost m: Links<Queue>)
    requires Holds(m) && h in m && q in m && n in m && n != q && h.prev in m && q.prev in m
    modifies h, q, n, h.prev, q.prev
    ensures Holds(Split(m, h, q, n))
  {
    ghost var m1 := AssignPrev(n, h.prev, m);
    ghost var m2 := AssignNext(n.prev, n, m1);
    ghost var m3 := AssignNext(n, q, m2);
    ghost var m4 := AssignPrev(h, q.prev, m3);
    ghost var m5 := AssignNext(h.prev, h, m4);
    ghost var m6 := AssignPrev(q, n, m5);
  }

  method QueueMove(h: Queue, n: Queue, ghost m: Links<Queue>)
    requires Holds(m) && h in m && n in m
    requires h.next != h ==> h.next in m && h.next != n && h.prev in m && h.next.prev in m
    modifies h, h.next, n, h.prev, h.next.prev
    ensures Holds(Move(m, h, n))
  {
    if h == h.next {
      n.Init();
    } else {
      QueueSplit(h, h.next, n, m);
    }
  }

  method QueueAdd(h: Queue, n: Queue, ghost m: Links<Queue>)
    requires Holds(m) && h in m && n in m && h != n
    requires h.prev in m && h.prev != n && n.next in m && n.next != h && n.prev in m
    modifies h, h.prev, n.next, n.prev
    ensures Holds(Add(m, h, n))
  {
    ghost var m1 := AssignNext(h.prev, n.next, m);
    ghost var m2 := AssignPrev(n.next, h.prev, m1);
    ghost var m3 := AssignPrev(h, n.prev, m2);
    ghost var m4 := AssignNext(h.prev, h, m3);
  }
}
