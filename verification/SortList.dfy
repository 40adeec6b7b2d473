/** The list of protocol names in send.c, and its bubble sort by relinking. */
module SortList {

  /** NULL, or the address of a node. */
  datatype Ptr = Null | At(id: nat)

  /** strcmp: negative, zero or positive. */
  function Strcmp(a: string, b: string): int {
    if a == "" && b == "" then 0
    else if a == "" then -1
    else if b == "" then 1
    else if a[0] == b[0] then Strcmp(a[1..], b[1..])
    else a[0] as int - b[0] as int
  }

  /** The two texts agree up to `k`, where `a` ends first or has the smaller character. */
  ghost predicate SmallerAt(a: string, b: string, k: nat) {
    && k <= |a| && k < |b| && (forall i :: 0 <= i < k ==> a[i] == b[i])
    && (k < |a| ==> a[k] < b[k])
  }

  /** The order of a dictionary. */
  ghost predicate Precedes(a: string, b: string) {
    exists k: nat :: SmallerAt(a, b, k)
  }

  /** strcmp is negative exactly if the first text comes first in a dictionary, and zero exactly for equal texts. */
  lemma StrcmpExact(a: string, b: string)
    ensures Strcmp(a, b) < 0 <==> Precedes(a, b)
    ensures Strcmp(a, b) == 0 <==> a == b
    ensures Strcmp(a, b) > 0 <==> Precedes(b, a)
  {
    StrcmpFlip(a, b);
    StrcmpBefore(a, b);
    StrcmpBefore(b, a);
  }

  lemma {:induction false} StrcmpBefore(a: string, b: string)
    ensures Strcmp(a, b) < 0 <==> Precedes(a, b)
  {
    if a != "" && b != "" && a[0] == b[0] {
      StrcmpBefore(a[1..], b[1..]);
      if k: nat :| SmallerAt(a[1..], b[1..], k) {
        assert SmallerAt(a, b, k + 1);
      }
      if k: nat :| SmallerAt(a, b, k) {
        assert SmallerAt(a[1..], b[1..], k - 1);
      }
    } else if b != "" && (a == "" || a[0] < b[0]) {
      assert SmallerAt(a, b, 0);
    } else {
      assert forall k: nat :: SmallerAt(a, b, k) ==> k == 0;
    }
  }

  lemma {:induction false} StrcmpFlip(a: string, b: string)
    ensures Strcmp(a, b) > 0 <==> Strcmp(b, a) < 0
    ensures Strcmp(a, b) == 0 <==> a == b
  {
    if a != "" && b != "" {
      if a[0] == b[0] {
        StrcmpFlip(a[1..], b[1..]);
        assert a == [a[0]] + a[1..] && b == [b[0]] + b[1..];
      }
    }
  }

  lemma {:induction false} StrcmpOrder(a: string, b: string, c: string)
    requires Strcmp(a, b) <= 0 && Strcmp(b, c) <= 0
    ensures Strcmp(a, c) <= 0
  {
    if a != "" && b != "" && c != "" && a[0] == b[0] && b[0] == c[0] {
      StrcmpOrder(a[1..], b[1..], c[1..]);
    }
  }

  type Names = map<Ptr, string>
  type Nexts = map<Ptr, Ptr>

  ghost function Nth(s: seq<Ptr>, i: int): Ptr {
    if 0 <= i < |s| then s[i] else Null
  }

  ghost predicate LinkedAt(next: Nexts, s: seq<Ptr>, i: int) {
    0 <= i < |s| && s[i].At? && s[i] in next && next[s[i]] == Nth(s, i + 1)
  }

  /** The list that starts at `head` holds the nodes `s`. */
  ghost predicate Holds(next: Nexts, head: Ptr, s: seq<Ptr>) {
    && head == Nth(s, 0) && (forall i :: 0 <= i < |s| ==> LinkedAt(next, s, i))
    && forall i, j :: 0 <= i < j < |s| ==> s[i] != s[j]
  }

  ghost predicate Named(name: Names, s: seq<Ptr>) {
    forall x :: x in s ==> x in name
  }

  ghost predicate LessEq(name: Names, x: Ptr, y: Ptr) {
    x in name && y in name && (name[x] == name[y] || Precedes(name[x], name[y]))
  }

  /** The place of `x` in `s`. */
  ghost function Place(s: seq<Ptr>, x: Ptr): (k: int)
    ensures x in s ==> 0 <= k < |s| && s[k] == x
  {
    if s == [] then 0 else if s[0] == x then 0 else 1 + Place(s[1..], x)
  }

  /** Nodes with the same name stand in `s` as they stand in `s0`. */
  ghost predicate Stable(name: Names, s0: seq<Ptr>, s: seq<Ptr>) {
    forall i, j :: 0 <= i < j < |s| && s[i] in name && s[j] in name && name[s[i]] == name[s[j]] ==>
      Place(s0, s[i]) < Place(s0, s[j])
  }

  /** The nodes from place `f` on are in order, and not before any node in front of them. */
  ghost predicate Settled(name: Names, s: seq<Ptr>, f: int) {
    forall i, j :: 0 <= i < j < |s| && f <= j ==> LessEq(name, s[i], s[j])
  }

  ghost predicate Sorted(name: Names, s: seq<Ptr>) {
    Settled(name, s, 0)
  }

  /** Two neighbours change places. */
  ghost function Swapped(s: seq<Ptr>, k: nat): seq<Ptr>
    requires k + 1 < |s|
  {
    s[k := s[k + 1]][k + 1 := s[k]]
  }

  ghost predicate Reordered(name: Names, s0: seq<Ptr>, s: seq<Ptr>) {
    multiset(s) == multiset(s0) && Stable(name, s0, s)
  }

  lemma SwapReorders(name: Names, s0: seq<Ptr>, s: seq<Ptr>, k: nat)
    requires Reordered(name, s0, s) && k + 1 < |s| && s[k] in name && s[k + 1] in name && name[s[k]] != name[s[k + 1]]
    ensures Reordered(name, s0, Swapped(s, k))
  {
    var t := Swapped(s, k);
    forall i, j | 0 <= i < j < |t| && t[i] in name && t[j] in name && name[t[i]] == name[t[j]]
      ensures Place(s0, t[i]) < Place(s0, t[j])
    {
      var i' := if i == k then k + 1 else if i == k + 1 then k else i;
      var j' := if j == k then k + 1 else if j == k + 1 then k else j;
      assert t[i] == s[i'] && t[j] == s[j'];
    }
  }

  /** b->next = a, and a->next = what followed b. */
  function Turned(next: Nexts, a: Ptr, b: Ptr): Nexts
    requires b in next
  {
    next[b := a][a := next[b]]
  }

  /** The assignments that swap the nodes at `k` and `k + 1`. */
  lemma SwapLinks(next: Nexts, head: Ptr, s: seq<Ptr>, k: nat)
    requires Holds(next, head, s) && k + 1 < |s|
    ensures s[k + 1] in next
    ensures k == 0 ==> Holds(Turned(next, s[0], s[1]), s[1], Swapped(s, 0))
    ensures k > 0 ==> Holds(Turned(next, s[k], s[k + 1])[s[k - 1] := s[k + 1]], head, Swapped(s, k))
  {
    var t := Swapped(s, k);
    assert LinkedAt(next, s, k) && LinkedAt(next, s, k + 1);
    var m := Turned(next, s[k], s[k + 1]);
    var m' := if k == 0 then m else m[s[k - 1] := s[k + 1]];
    forall i | 0 <= i < |t| ensures LinkedAt(m', t, i) {
      assert LinkedAt(next, s, i);
    }
  }

  /** The node at `k` is not before any node in front of it. */
  ghost predicate Greatest(name: Names, s: seq<Ptr>, k: int) {
    0 <= k < |s| && forall i :: 0 <= i < k ==> LessEq(name, s[i], s[k])
  }

  lemma SwapOrder(name: Names, s: seq<Ptr>, k: nat, f: int)
    requires Greatest(name, s, k) && Settled(name, s, f) && k + 1 < f <= |s| && LessEq(name, s[k + 1], s[k])
    ensures Greatest(name, Swapped(s, k), k + 1) && Settled(name, Swapped(s, k), f)
  {
  }

  lemma PassOn(name: Names, s: seq<Ptr>, k: nat)
    requires Greatest(name, s, k) && k + 1 < |s| && LessEq(name, s[k], s[k + 1])
    ensures Greatest(name, s, k + 1)
  {
    forall i | 0 <= i < k ensures LessEq(name, s[i], s[k + 1]) {
      assert LessEq(name, s[i], s[k]);
      StrcmpExact(name[s[i]], name[s[k]]);
      StrcmpExact(name[s[k]], name[s[k + 1]]);
      StrcmpOrder(name[s[i]], name[s[k]], name[s[k + 1]]);
      StrcmpExact(name[s[i]], name[s[k + 1]]);
    }
  }

  /** The boundary moves to the front by one node. */
  lemma SettleOne(name: Names, s: seq<Ptr>, k: nat)
    requires Greatest(name, s, k) && Settled(name, s, k + 1)
    ensures Settled(name, s, k)
  {
  }

  lemma Compared(name: Names, a: Ptr, b: Ptr)
    requires a in name && b in name
    ensures Strcmp(name[a], name[b]) > 0 ==> LessEq(name, b, a) && name[a] != name[b]
    ensures Strcmp(name[a], name[b]) <= 0 ==> LessEq(name, a, b)
  {
    StrcmpExact(name[a], name[b]);
  }

  lemma NamedAfter(name: Names, s0: seq<Ptr>, s: seq<Ptr>, k: nat)
    requires Named(name, s0) && Reordered(name, s0, s) && k < |s|
    ensures s[k] in name
  {
    assert s[k] in multiset(s);
  }

  lemma Walk(next: Nexts, head: Ptr, s: seq<Ptr>, k: nat)
    requires Holds(next, head, s) && k < |s|
    ensures s[k].At? && s[k] in next && next[s[k]] == Nth(s, k + 1) && (s[k] == head <==> k == 0)
    ensures forall f :: k < f <= |s| ==> Nth(s, f) != s[k] && (Nth(s, f) == Nth(s, k + 1) <==> f == k + 1)
  {
    assert LinkedAt(next, s, k);
    assert LinkedAt(next, s, k + 1) || k + 1 == |s|;
    forall f | k < f <= |s| ensures Nth(s, f) != s[k] && (Nth(s, f) == Nth(s, k + 1) <==> f == k + 1) {
      assert LinkedAt(next, s, f) || f == |s|;
    }
  }

  class NameList {
    var head: Ptr
    var next: Nexts
    var name: Names

    /** One pass: the greatest node in front of `e` moves to its place, which is the new boundary. */
    method Pass(e0: Ptr, ghost s0: seq<Ptr>, ghost s1: seq<Ptr>, ghost f0: nat)
      returns (e: Ptr, ghost s: seq<Ptr>, ghost f: nat)
      requires Holds(next, head, s1) && Named(name, s0) && Reordered(name, s0, s1) && Settled(name, s1, f0)
      requires 2 <= f0 <= |s1| && e0 == Nth(s1, f0)
      modifies this`head, this`next
      ensures Holds(next, head, s) && Reordered(name, s0, s) && Settled(name, s, f) && e == Nth(s, f)
      ensures 1 <= f < f0 && |s| == |s1|
    {
      hide Holds, Named, Reordered, Settled, Greatest, LessEq, Strcmp;
      e, s, f := e0, s1, f0;
      var a := head;
      var c := a;
      ghost var k := 0;
      Walk(next, head, s, 0);
      FirstGreatest(name, s);
      HeadIs(next, head, s);
      var b := next[a];
      while a != e
        invariant Holds(next, head, s) && Reordered(name, s0, s) && Settled(name, s, f) && Greatest(name, s, k)
        invariant |s| == |s1| && f <= f0 && e == Nth(s, f) && (if k == f then 1 <= f < f0 else f == f0 && k + 1 < f)
        invariant k < |s| && f <= |s| && a == s[k] && b == Nth(s, k + 1) && (k > 0 ==> c == s[k - 1])
        decreases f - k
      {
        Walk(next, head, s, k);
        Walk(next, head, s, k + 1);
        NamedAfter(name, s0, s, k);
        NamedAfter(name, s0, s, k + 1);
        Compared(name, a, b);
        if Strcmp(name[a], name[b]) > 0 {
          SwapLinks(next, head, s, k);
          SwapReorders(name, s0, s, k);
          SwapOrder(name, s, k, f);
          if a == head {
            var tmp := next[b];
            next := next[b := a];
            next := next[a := tmp];
            head := b;
            c := b;
          } else {
            var tmp := next[b];
            next := next[b := a];
            next := next[a := tmp];
            next := next[c := b];
            c := b;
          }
          s := Swapped(s, k);
        } else {
          PassOn(name, s, k);
          c := a;
          a := next[a];
        }
        k := k + 1;
        Walk(next, head, s, k);
        b := next[a];
        if b == e {
          SettleOne(name, s, k);
          e := a;
          f := k;
        }
      }
      Walk(next, head, s, k);
    }

    /** sort_list: the same nodes in the order of their names, nodes with equal names in their old order. */
    method Sort(ghost s0: seq<Ptr>) returns (ghost s: seq<Ptr>)
      requires Holds(next, head, s0) && Named(name, s0)
      modifies this`head, this`next
      ensures Holds(next, head, s) && Reordered(name, s0, s) && Sorted(name, s)
    {
      hide Holds, Named, Reordered, LessEq;
      var e := Null;
      ghost var f := |s0|;
      s := s0;
      StartsStable(next, head, name, s0);
      HeadIs(next, head, s);
      while head != Null && e != next[head]
        invariant Holds(next, head, s) && Reordered(name, s0, s) && Settled(name, s, f) && e == Nth(s, f)
        invariant f <= |s| && (s != [] ==> 1 <= f) && head == Nth(s, 0) && (head == Null <==> s == [])
                  && (s != [] ==> head in next)
        decreases f
      {
        Walk(next, head, s, 0);
        e, s, f := Pass(e, s0, s, f);
        HeadIs(next, head, s);
      }
      if s != [] {
        Walk(next, head, s, 0);
      }
      OneLeft(name, s, f);
    }
  }

  lemma FirstGreatest(name: Names, s: seq<Ptr>)
    requires s != []
    ensures Greatest(name, s, 0)
  {
  }

  lemma HeadIs(next: Nexts, head: Ptr, s: seq<Ptr>)
    requires Holds(next, head, s)
    ensures head == Nth(s, 0) && (head == Null <==> s == []) && (s != [] ==> head in next)
  {
    assert s != [] ==> LinkedAt(next, s, 0);
  }

  lemma StartsStable(next: Nexts, head: Ptr, name: Names, s: seq<Ptr>)
    requires Holds(next, head, s)
    ensures Reordered(name, s, s)
  {
    forall i | 0 <= i < |s| ensures Place(s, s[i]) == i {
      assert s[Place(s, s[i])] == s[i];
    }
  }

  lemma OneLeft(name: Names, s: seq<Ptr>, f: int)
    requires Settled(name, s, f) && f <= 1
    ensures Sorted(name, s)
  {
  }

  /** The result is determined: name by name, and in the old order where names are equal. */
  lemma SortedStable(name: Names, s0: seq<Ptr>, s: seq<Ptr>, i: int, j: int)
    requires Reordered(name, s0, s) && Sorted(name, s) && 0 <= i < j < |s|
    ensures s[i] in name && s[j] in name
    ensures Precedes(name[s[i]], name[s[j]]) || (name[s[i]] == name[s[j]] && Place(s0, s[i]) < Place(s0, s[j]))
  {
    assert LessEq(name, s[i], s[j]);
  }
}
