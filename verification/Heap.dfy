/** The binary min-heap of libs/libuv/heap-inl.h. Node k of the heap, counted from 1 row by row, is
    linked to the nodes k / 2, 2k and 2k + 1. */
module Heap {
  import opened Pointers
  import opened Powers

  newtype uint32 = x: int | 0 <= x < 0x1_0000_0000

  /** The links of an element, as in struct heap_node. */
  datatype Entry = Entry(left: Ref, right: Ref, parent: Ref)

  type Memory = map<Ref, Entry>

  ghost function At(s: seq<Ref>, k: int): Ref {
    if 1 <= k <= |s| then s[k - 1] else Null
  }

  ghost predicate NodeOk(m: Memory, s: seq<Ref>, k: int) {
    var n := At(s, k);
    n.Elem? && n in m && m[n] == Entry(At(s, 2 * k), At(s, 2 * k + 1), At(s, k / 2))
  }

  /** The memory holds exactly the complete tree with the nodes `s`. */
  ghost predicate Linked(m: Memory, s: seq<Ref>) {
    forall k :: 1 <= k <= |s| ==> NodeOk(m, s, k)
  }

  ghost predicate Distinct(s: seq<Ref>) {
    forall i, j :: 0 <= i < |s| && 0 <= j < |s| && s[i] == s[j] ==> i == j
  }

  ghost predicate Complete(m: Memory, min: Ref, s: seq<Ref>) {
    Null !in m && Distinct(s) && Linked(m, s) && min == At(s, 1)
  }

  ghost function Members(s: seq<Ref>): set<Ref> {
    set x | x in s
  }

  lemma SameMembers(s: seq<Ref>, t: seq<Ref>)
    requires multiset(s) == multiset(t)
    ensures Members(s) == Members(t)
  {
    assert forall x :: x in s <==> x in multiset(s);
    assert forall x :: x in t <==> x in multiset(t);
  }

  ghost function Key(s: seq<Ref>, k: int): int {
    if At(s, k).Elem? then At(s, k).key else 0
  }

  /** Node `k` is not less than the node `a`. */
  ghost predicate NotLess(s: seq<Ref>, a: int, k: int) {
    Key(s, a) <= Key(s, k)
  }

  ghost predicate Ordered(s: seq<Ref>) {
    forall k :: 2 <= k <= |s| ==> NotLess(s, k / 2, k)
  }

  /** Node 1 is a minimum of an ordered heap. */
  lemma {:induction false} MinFirst(s: seq<Ref>, k: nat)
    requires Ordered(s) && 1 <= k <= |s|
    ensures Key(s, 1) <= Key(s, k)
  {
    if k > 1 {
      MinFirst(s, k / 2);
      assert NotLess(s, k / 2, k);
    }
  }

  // ---------- Order while a node moves ----------

  /** Everything is in order except for node `i`, which may be less than its parent. */
  ghost predicate OrderedAbove(s: seq<Ref>, i: int) {
    && (forall k :: 2 <= k <= |s| && k != i ==> NotLess(s, k / 2, k))
    && (i >= 2 ==> forall k :: 2 <= k <= |s| && k / 2 == i ==> NotLess(s, i / 2, k))
  }

  /** Everything is in order except for node `i`, which may be less than its parent or greater than
      its children. */
  ghost predicate OrderedAround(s: seq<Ref>, i: int) {
    && (forall k :: 2 <= k <= |s| && k != i && k / 2 != i ==> NotLess(s, k / 2, k))
    && (i >= 2 ==> forall k :: 2 <= k <= |s| && k / 2 == i ==> NotLess(s, i / 2, k))
  }

  lemma MoveUp(s: seq<Ref>, i: int)
    requires OrderedAbove(s, i) && 2 <= i <= |s| && Key(s, i) < Key(s, i / 2)
    ensures OrderedAbove(Swapped(s, i / 2, i), i / 2)
  {
    var s', j := Swapped(s, i / 2, i), i / 2;
    forall k | 2 <= k <= |s'| && k != j ensures NotLess(s', k / 2, k) {
      SwappedAt(s, j, i, k);
      SwappedAt(s, j, i, k / 2);
      assert k != i ==> NotLess(s, k / 2, k);
      assert k / 2 == i ==> NotLess(s, j, k);
    }
    if j >= 2 {
      assert NotLess(s, j / 2, j);
      forall k | 2 <= k <= |s'| && k / 2 == j ensures NotLess(s', j / 2, k) {
        SwappedAt(s, j, i, k);
        SwappedAt(s, j, i, j / 2);
        assert k != i ==> NotLess(s, k / 2, k);
      }
    }
  }

  lemma MoveDown(s: seq<Ref>, i: int, j: int)
    requires OrderedAround(s, i) && 1 <= i && 2 <= j <= |s| && j / 2 == i && Key(s, j) < Key(s, i)
    requires forall k :: 2 <= k <= |s| && k / 2 == i ==> NotLess(s, j, k)
    ensures OrderedAround(Swapped(s, i, j), j)
  {
    var s' := Swapped(s, i, j);
    forall k | 2 <= k <= |s'| && k != j && k / 2 != j ensures NotLess(s', k / 2, k) {
      SwappedAt(s, i, j, k);
      SwappedAt(s, i, j, k / 2);
      assert k == i ==> NotLess(s, i / 2, j);
      assert k / 2 == i ==> NotLess(s, j, k);
      assert k != i && k / 2 != i ==> NotLess(s, k / 2, k);
    }
    forall k | 2 <= k <= |s'| && k / 2 == j ensures NotLess(s', j / 2, k) {
      SwappedAt(s, i, j, k);
      SwappedAt(s, i, j, i);
      assert NotLess(s, k / 2, k);
    }
  }

  // ---------- Swapping a node with its child ----------

  function WithParent(m: Memory, n: Ref, p: Ref): Memory
    requires n != Null ==> n in m
  {
    if n == Null then m else m[n := m[n].(parent := p)]
  }

  ghost function Swapped(s: seq<Ref>, i: int, j: int): seq<Ref>
    requires 1 <= i <= |s| && 1 <= j <= |s|
  {
    s[i - 1 := s[j - 1]][j - 1 := s[i - 1]]
  }

  lemma SwappedAt(s: seq<Ref>, i: int, j: int, k: int)
    requires 1 <= i <= |s| && 1 <= j <= |s|
    ensures At(Swapped(s, i, j), k) == if k == i then At(s, j) else if k == j then At(s, i) else At(s, k)
  {
  }

  /** The links that the swap of nodes `i` and `j` sets. */
  ghost predicate SwapLinks(m: Memory, m': Memory, s: seq<Ref>, i: int, j: int) {
    var p, c, g, b := At(s, i), At(s, j), At(s, i / 2), At(s, if j == 2 * i then j + 1 else j - 1);
    && p in m' && m'[p] == Entry(At(s, 2 * j), At(s, 2 * j + 1), c)
    && c in m' && m'[c] == (if j == 2 * i then Entry(p, b, g) else Entry(b, p, g))
    && (b != Null ==> b in m && b in m' && m'[b] == m[b].(parent := c))
    && (forall n :: n in {At(s, 2 * j), At(s, 2 * j + 1)} && n != Null ==>
          n in m && n in m' && m'[n] == m[n].(parent := p))
    && (g != Null ==> g in m && g in m' && m'[g] == if i % 2 == 0 then m[g].(left := c) else m[g].(right := c))
    && Null !in m'
    && forall n :: n in m && n !in {p, c, g, b, At(s, 2 * j), At(s, 2 * j + 1)} ==> n in m' && m'[n] == m[n]
  }

  lemma AtDistinct(s: seq<Ref>, i: int, j: int)
    requires Distinct(s) && At(s, i) == At(s, j) && At(s, i) != Null
    ensures i == j
  {
  }

  /** The nodes whose links a swap of `i` and `j` changes. */
  ghost function Near(i: int, j: int): set<int> {
    {i, j, i / 2, if j == 2 * i then j + 1 else j - 1, 2 * j, 2 * j + 1}
  }

  lemma FarIndices(i: int, j: int, k: int)
    requires (j == 2 * i || j == 2 * i + 1) && k !in Near(i, j)
    ensures k !in {i, j} && 2 * k !in {i, j} && 2 * k + 1 !in {i, j} && k / 2 !in {i, j}
    ensures k !in {i / 2, if j == 2 * i then j + 1 else j - 1, 2 * j, 2 * j + 1}
  {
  }

  lemma FarKept(m: Memory, m': Memory, s: seq<Ref>, i: int, j: int, k: int)
    requires Distinct(s) && SwapLinks(m, m', s, i, j) && 1 <= k <= |s| && At(s, k) != Null && At(s, k) in m
    requires k !in {i, j} && k !in {i / 2, if j == 2 * i then j + 1 else j - 1, 2 * j, 2 * j + 1}
    ensures At(s, k) in m' && m'[At(s, k)] == m[At(s, k)]
  {
    hide At, Distinct;
    forall x | At(s, x) == At(s, k) ensures x == k {
      AtDistinct(s, x, k);
    }
  }

  lemma SwapFar(m: Memory, m': Memory, s: seq<Ref>, i: int, j: int, k: int)
    requires Distinct(s) && 1 <= i <= |s| && 1 <= j <= |s| && (j == 2 * i || j == 2 * i + 1)
    requires SwapLinks(m, m', s, i, j) && 1 <= k <= |s| && k !in Near(i, j) && NodeOk(m, s, k)
    ensures NodeOk(m', Swapped(s, i, j), k)
  {
    hide At, Distinct, Near, SwapLinks, Swapped;
    FarIndices(i, j, k);
    FarKept(m, m', s, i, j, k);
    SwappedAt(s, i, j, k);
    SwappedAt(s, i, j, 2 * k);
    SwappedAt(s, i, j, 2 * k + 1);
    SwappedAt(s, i, j, k / 2);
  }

  lemma SwapNear(m: Memory, m': Memory, s: seq<Ref>, i: int, j: int, k: int)
    requires 1 <= i <= |s| && 1 <= j <= |s| && (j == 2 * i || j == 2 * i + 1)
    requires SwapLinks(m, m', s, i, j) && 1 <= k <= |s| && k in Near(i, j)
    requires NodeOk(m, s, k) && NodeOk(m, s, i) && NodeOk(m, s, j)
    ensures NodeOk(m', Swapped(s, i, j), k)
  {
    hide At;
    SwappedAt(s, i, j, k);
    SwappedAt(s, i, j, 2 * k);
    SwappedAt(s, i, j, 2 * k + 1);
    SwappedAt(s, i, j, k / 2);
  }

  lemma SwapNode(m: Memory, m': Memory, s: seq<Ref>, i: int, j: int, k: int)
    requires Distinct(s) && Linked(m, s) && 1 <= i <= |s| && 1 <= j <= |s| && (j == 2 * i || j == 2 * i + 1)
    requires SwapLinks(m, m', s, i, j) && 1 <= k <= |s|
    ensures NodeOk(m', Swapped(s, i, j), k)
  {
    hide NodeOk, SwapLinks, Near;
    assert NodeOk(m, s, k) && NodeOk(m, s, i) && NodeOk(m, s, j);
    if k in Near(i, j) {
      SwapNear(m, m', s, i, j, k);
    } else {
      SwapFar(m, m', s, i, j, k);
    }
  }

  predicate CanSwap(m: Memory, p: Ref, c: Ref) {
    && p in m && c in m && p != c && (m[p].left == c || m[p].right == c)
    && (forall n :: n in {m[p].left, m[p].right, m[p].parent, m[c].left, m[c].right} && n != Null ==> n in m)
  }

  /** The part of heap_node_swap that sets the links of the two nodes. */
  function SwapOwn(m: Memory, p: Ref, c: Ref): Memory
    requires p in m && c in m
  {
    var m1 := m[p := m[c]][c := m[p]];
    var m2 := m1[p := m1[p].(parent := c)];
    if m2[c].left == c then m2[c := m2[c].(left := p)] else m2[c := m2[c].(right := p)]
  }

  /** heap_node_swap, without the update of heap->min. */
  function SwapNodes(m: Memory, p: Ref, c: Ref): Memory
    requires CanSwap(m, p, c)
  {
    var isLeft := m[p].left == c;
    var m3 := SwapOwn(m, p, c);
    var m4 := WithParent(m3, if isLeft then m3[c].right else m3[c].left, c);
    var m5 := WithParent(m4, m4[p].left, p);
    var m6 := WithParent(m5, m5[p].right, p);
    var g := m6[c].parent;
    if g == Null then m6
    else if m6[g].left == p then m6[g := m6[g].(left := c)]
    else m6[g := m6[g].(right := c)]
  }

  /** The node `p`, its child `c`, the grandparent, the sibling and the grandchildren are all different. */
  ghost predicate Family(m: Memory, p: Ref, c: Ref, g: Ref, b: Ref, l: Ref, r: Ref) {
    && p.Elem? && c.Elem? && p in m && c in m && p != c && p !in {g, b, l, r} && c !in {g, b, l, r}
    && (g == Null || (g in m && g !in {b, l, r})) && (b == Null || (b in m && b !in {l, r}))
    && (l == Null || (l in m && l != r)) && (r == Null || r in m)
    && m[c] == Entry(l, r, p) && m[p] in {Entry(c, b, g), Entry(b, c, g)}
    && (g != Null ==> m[g].left == p || m[g].right == p)
  }

  lemma NodeIf(m: Memory, s: seq<Ref>, k: int)
    requires Linked(m, s)
    ensures At(s, k) != Null ==> NodeOk(m, s, k)
  {
  }

  lemma FamilyAt(m: Memory, s: seq<Ref>, i: int, j: int)
    requires Distinct(s) && Linked(m, s) && 1 <= i <= |s| && 1 <= j <= |s| && (j == 2 * i || j == 2 * i + 1)
    ensures
      var p, c, g, b := At(s, i), At(s, j), At(s, i / 2), At(s, if j == 2 * i then j + 1 else j - 1);
      && Family(m, p, c, g, b, At(s, 2 * j), At(s, 2 * j + 1))
      && (m[p].left == c <==> j == 2 * i)
      && (g != Null ==> (m[g].left == p <==> i % 2 == 0))
  {
    var d := if j == 2 * i then j + 1 else j - 1;
    assert NodeOk(m, s, i) && NodeOk(m, s, j);
    NodeIf(m, s, i / 2);
    NodeIf(m, s, d);
    NodeIf(m, s, 2 * j);
    NodeIf(m, s, 2 * j + 1);
  }

  lemma SwapEffect(m: Memory, p: Ref, c: Ref, g: Ref, b: Ref, l: Ref, r: Ref)
    requires Null !in m && Family(m, p, c, g, b, l, r)
    ensures CanSwap(m, p, c)
    ensures
      var m' := SwapNodes(m, p, c);
      && p in m' && m'[p] == Entry(l, r, c)
      && c in m' && m'[c] == (if m[p].left == c then Entry(p, b, g) else Entry(b, p, g))
      && (b != Null ==> b in m' && m'[b] == m[b].(parent := c))
      && (l != Null ==> l in m' && m'[l] == m[l].(parent := p))
      && (r != Null ==> r in m' && m'[r] == m[r].(parent := p))
      && (g != Null ==> g in m' && m'[g] == if m[g].left == p then m[g].(left := c) else m[g].(right := c))
      && Null !in m'
      && forall n :: n in m && n !in {p, c, g, b, l, r} ==> n in m' && m'[n] == m[n]
  {
    SwapOwnEffect(m, p, c, g, b, l, r);
    hide SwapOwn;
  }

  lemma SwapOwnEffect(m: Memory, p: Ref, c: Ref, g: Ref, b: Ref, l: Ref, r: Ref)
    requires Null !in m && Family(m, p, c, g, b, l, r)
    ensures
      var m' := SwapOwn(m, p, c);
      && p in m' && m'[p] == Entry(l, r, c)
      && c in m' && m'[c] == (if m[p].left == c then Entry(p, b, g) else Entry(b, p, g))
      && Null !in m' && forall n :: n in m && n !in {p, c} ==> n in m' && m'[n] == m[n]
  {
  }

  lemma SwapFacts(m: Memory, p: Ref, c: Ref, g: Ref, b: Ref, l: Ref, r: Ref)
    requires Family(m, p, c, g, b, l, r)
    ensures p in m && c in m && (b != Null ==> b in m) && (g != Null ==> g in m)
    ensures (l != Null ==> l in m) && (r != Null ==> r in m)
  {
  }

  lemma SwapNodesLinks(m: Memory, s: seq<Ref>, i: int, j: int)
    requires Null !in m && Distinct(s) && Linked(m, s)
    requires 1 <= i <= |s| && 1 <= j <= |s| && (j == 2 * i || j == 2 * i + 1)
    ensures CanSwap(m, At(s, i), At(s, j)) && SwapLinks(m, SwapNodes(m, At(s, i), At(s, j)), s, i, j)
  {
    hide At, Linked, Distinct, SwapNodes, Family, CanSwap;
    FamilyAt(m, s, i, j);
    var b := At(s, if j == 2 * i then j + 1 else j - 1);
    SwapFacts(m, At(s, i), At(s, j), At(s, i / 2), b, At(s, 2 * j), At(s, 2 * j + 1));
    SwapEffect(m, At(s, i), At(s, j), At(s, i / 2), b, At(s, 2 * j), At(s, 2 * j + 1));
  }

  lemma SwappedDistinct(s: seq<Ref>, i: int, j: int)
    requires Distinct(s) && 1 <= i <= |s| && 1 <= j <= |s|
    ensures Distinct(Swapped(s, i, j))
  {
  }

  lemma LinksNull(m: Memory, m': Memory, s: seq<Ref>, i: int, j: int)
    requires SwapLinks(m, m', s, i, j)
    ensures Null !in m'
  {
  }

  lemma SwapComplete(m: Memory, min: Ref, s: seq<Ref>, i: int, j: int)
    requires Complete(m, min, s) && 1 <= i <= |s| && 1 <= j <= |s| && (j == 2 * i || j == 2 * i + 1)
    ensures var p, c := At(s, i), At(s, j);
            CanSwap(m, p, c) && Complete(SwapNodes(m, p, c), if m[p].parent == Null then c else min, Swapped(s, i, j))
  {
    hide SwapNodes, SwapLinks, CanSwap, Distinct, Swapped;
    SwapNodesLinks(m, s, i, j);
    var m', s' := SwapNodes(m, At(s, i), At(s, j)), Swapped(s, i, j);
    LinksNull(m, m', s, i, j);
    SwappedDistinct(s, i, j);
    SwappedLength(s, i, j);
    forall k | 1 <= k <= |s'| ensures NodeOk(m', s', k) {
      SwapNode(m, m', s, i, j, k);
    }
    SwappedAt(s, i, j, 1);
    assert NodeOk(m, s, i);
    if i > 1 {
      assert NodeOk(m, s, i / 2);
    }
  }

  lemma SwappedLength(s: seq<Ref>, i: int, j: int)
    requires 1 <= i <= |s| && 1 <= j <= |s|
    ensures |Swapped(s, i, j)| == |s|
  {
  }

  lemma AtMember(s: seq<Ref>, k: int, x: Ref)
    requires x !in s
    ensures x == At(s, k) ==> x == Null
  {
  }

  lemma LinksApart(m: Memory, m': Memory, s: seq<Ref>, i: int, j: int)
    requires Null !in m && SwapLinks(m, m', s, i, j) && forall x :: x in m' <==> x in m
    ensures Apart(m, m', Members(s))
  {
    hide At;
    forall x | x !in Members(s) ensures (x in m <==> x in m') && (x in m && x in m' ==> m[x] == m'[x]) {
      AtMember(s, i, x);
      AtMember(s, j, x);
      AtMember(s, i / 2, x);
      AtMember(s, if j == 2 * i then j + 1 else j - 1, x);
      AtMember(s, 2 * j, x);
      AtMember(s, 2 * j + 1, x);
    }
  }

  lemma SwapApart(m: Memory, min: Ref, s: seq<Ref>, i: int, j: int)
    requires Complete(m, min, s) && 1 <= i <= |s| && 1 <= j <= |s| && (j == 2 * i || j == 2 * i + 1)
    requires CanSwap(m, At(s, i), At(s, j))
    ensures Apart(m, SwapNodes(m, At(s, i), At(s, j)), Members(s))
  {
    hide SwapNodes, At, CanSwap, Linked, Distinct, SwapLinks, Apart;
    SwapNodesLinks(m, s, i, j);
    SwapKeys(m, At(s, i), At(s, j));
    LinksApart(m, SwapNodes(m, At(s, i), At(s, j)), s, i, j);
  }

  lemma SwapKeys(m: Memory, p: Ref, c: Ref)
    requires CanSwap(m, p, c)
    ensures forall x :: x in SwapNodes(m, p, c) <==> x in m
  {
  }

  // ---------- The path to a node ----------

  /** The number of the ancestor of node `n` that lies `k` rows above it. */
  ghost function Ancestor(n: nat, k: nat): nat {
    if k == 0 then n else Ancestor(n, k - 1) / 2
  }

  /** The last `k` turns of the path to node `n`, the first of them in the lowest bit. */
  ghost function Turns(n: nat, k: nat): nat {
    if k == 0 then 0 else 2 * Turns(n, k - 1) + Ancestor(n, k - 1) % 2
  }

  /** The loop that calculates the path from the root to node `n0`. */
  method Path(n0: uint32) returns (path: uint32, k: uint32)
    requires n0 >= 1
    ensures Ancestor(n0 as nat, k as nat) == 1 && path as nat == Turns(n0 as nat, k as nat)
    ensures Pow2(k as nat) <= n0 as nat
  {
    path, k := 0, 0;
    var n := n0;
    while n >= 2
      invariant n as nat == Ancestor(n0 as nat, k as nat) && n >= 1
      invariant path as nat == Turns(n0 as nat, k as nat) && path as nat < Pow2(k as nat)
      invariant n as nat * Pow2(k as nat) <= n0 as nat && k as nat + n as nat <= n0 as nat
      decreases n
    {
      Halve(n as nat, Pow2(k as nat), n0 as nat);
      path := 2 * path + n % 2;
      k := k + 1;
      n := n / 2;
    }
  }

  lemma Halve(n: nat, p: nat, m: nat)
    requires n * p <= m && n >= 2
    ensures (n / 2) * (2 * p) <= m && 2 * p <= m
  {
    assert (n / 2) * (2 * p) == (n / 2 * 2) * p;
    assert (n / 2 * 2) * p <= n * p;
    assert 2 * p <= n * p;
  }

  // ---------- Adding, dropping and replacing a node ----------

  /** A place that holds a pointer: &heap->min, &n->left or &n->right. */
  datatype Slot = Min | LeftOf(n: Ref) | RightOf(n: Ref)

  /** The place that points to node `k`. */
  ghost function SlotOf(s: seq<Ref>, k: int): Slot {
    if k <= 1 then Min else if k % 2 == 0 then LeftOf(At(s, k / 2)) else RightOf(At(s, k / 2))
  }

  function Load(m: Memory, min: Ref, p: Slot): Ref
    requires p != Min ==> p.n in m
  {
    match p
    case Min => min
    case LeftOf(n) => m[n].left
    case RightOf(n) => m[n].right
  }

  function Store(m: Memory, p: Slot, v: Ref): Memory
    requires p != Min ==> p.n in m
  {
    match p
    case Min => m
    case LeftOf(n) => m[n := m[n].(left := v)]
    case RightOf(n) => m[n := m[n].(right := v)]
  }

  lemma LoadSlot(m: Memory, min: Ref, s: seq<Ref>, k: int)
    requires Complete(m, min, s) && 1 <= k <= |s| + 1
    ensures SlotOf(s, k) != Min ==> SlotOf(s, k).n in m && SlotOf(s, k).n.Elem?
    ensures Load(m, min, SlotOf(s, k)) == At(s, k)
  {
    if k > 1 {
      assert NodeOk(m, s, k / 2);
    }
  }

  lemma LoadParent(m: Memory, min: Ref, s: seq<Ref>)
    requires Complete(m, min, s)
    ensures var k := (|s| + 1) / 2;
            (SlotOf(s, k) != Min ==> SlotOf(s, k).n in m) && Load(m, min, SlotOf(s, k)) == At(s, k)
  {
    LoadSlot(m, min, s, if s == [] then 1 else (|s| + 1) / 2);
  }

  lemma LastAt(s: seq<Ref>, n: Ref)
    ensures At(s + [n], |s| + 1) == n
  {
  }

  lemma Appended(m: Memory, min: Ref, s: seq<Ref>, n: Ref)
    requires Complete(m, min, s) && n.Elem? && n !in s
    ensures var p := SlotOf(s, |s| + 1);
            var m1 := m[n := Entry(Null, Null, At(s, (|s| + 1) / 2))];
            && (p != Min ==> p.n in m1)
            && Complete(Store(m1, p, n), if p == Min then n else min, s + [n])
  {
    var s', p := s + [n], SlotOf(s, |s| + 1);
    LoadSlot(m, min, s, |s| + 1);
    var m1 := m[n := Entry(Null, Null, At(s, (|s| + 1) / 2))];
    var m' := Store(m1, p, n);
    forall k | 1 <= k <= |s'| ensures NodeOk(m', s', k) {
      if k <= |s| {
        assert NodeOk(m, s, k);
        if |s| > 0 && At(s, k) == At(s, (|s| + 1) / 2) {
          AtDistinct(s, k, (|s| + 1) / 2);
        }
      }
    }
  }

  lemma Dropped(m: Memory, min: Ref, s: seq<Ref>)
    requires Complete(m, min, s) && s != []
    ensures var p := SlotOf(s, |s|);
            && (p != Min ==> p.n in m)
            && Complete(Store(m, p, Null), if p == Min then Null else min, s[..|s| - 1])
  {
    var s', p := s[..|s| - 1], SlotOf(s, |s|);
    LoadSlot(m, min, s, |s|);
    var m' := Store(m, p, Null);
    forall k | 1 <= k <= |s'| ensures NodeOk(m', s', k) {
      assert NodeOk(m, s, k);
      if At(s, k) == At(s, |s| / 2) {
        AtDistinct(s, k, |s| / 2);
      }
    }
  }

  /** The memory after `y` has taken over the links of `x`, without the update of heap->min. */
  function Replace(m: Memory, x: Ref, y: Ref): Memory
    requires x in m && y in m
    requires forall n :: n in {m[x].left, m[x].right, m[x].parent} && n != Null ==> n in m
  {
    var m1 := WithParent(m[y := m[x]], m[x].left, y);
    var m2 := WithParent(m1, m1[y].right, y);
    var g := m2[x].parent;
    if g == Null then m2
    else if m2[g].left == x then m2[g := m2[g].(left := y)]
    else m2[g := m2[g].(right := y)]
  }

  ghost predicate ReplaceLinks(m: Memory, m': Memory, x: Ref, y: Ref, g: Ref, l: Ref, r: Ref) {
    && y in m' && m'[y] == Entry(l, r, g)
    && (l != Null ==> l in m && l in m' && m'[l] == m[l].(parent := y))
    && (r != Null ==> r in m && r in m' && m'[r] == m[r].(parent := y))
    && (g != Null ==> g in m && g in m' && m'[g] == if m[g].left == x then m[g].(left := y) else m[g].(right := y))
    && Null !in m'
    && forall n :: n in m && n !in {y, g, l, r} ==> n in m' && m'[n] == m[n]
  }

  lemma ReplaceEffect(m: Memory, x: Ref, y: Ref, g: Ref, l: Ref, r: Ref)
    requires Null !in m && x in m && y in m && m[x] == Entry(l, r, g) && y != x && x !in {g, l, r} && y !in {g, l, r}
    requires (g == Null || (g in m && g !in {l, r})) && (l == Null || (l in m && l != r)) && (r == Null || r in m)
    ensures ReplaceLinks(m, Replace(m, x, y), x, y, g, l, r)
  {
  }

  lemma ReplacedNode(m: Memory, m': Memory, s: seq<Ref>, i: int, y: Ref, k: int)
    requires Null !in m && Distinct(s) && Linked(m, s) && 1 <= i <= |s| && y.Elem? && y !in s && 1 <= k <= |s|
    requires ReplaceLinks(m, m', At(s, i), y, At(s, i / 2), At(s, 2 * i), At(s, 2 * i + 1))
    ensures NodeOk(m', s[i - 1 := y], k)
  {
    assert NodeOk(m, s, i) && NodeOk(m, s, k);
    assert At(s, k) in s;
    if k != i / 2 && k != 2 * i && k != 2 * i + 1 && k != i {
      forall j | j in {i / 2, 2 * i, 2 * i + 1} ensures At(s, j) != At(s, k) {
        if At(s, j) == At(s, k) {
          AtDistinct(s, j, k);
        }
      }
    }
  }

  lemma Replaced(m: Memory, min: Ref, s: seq<Ref>, i: int, y: Ref)
    requires Complete(m, min, s) && 1 <= i <= |s| && y.Elem? && y in m && y !in s
    ensures var x := At(s, i);
            && x in m && (forall n :: n in {m[x].left, m[x].right, m[x].parent} && n != Null ==> n in m)
            && Complete(Replace(m, x, y), if m[x].parent == Null then y else min, s[i - 1 := y])
  {
    var x, s' := At(s, i), s[i - 1 := y];
    assert NodeOk(m, s, i);
    assert i > 1 ==> NodeOk(m, s, i / 2);
    NodeIf(m, s, 2 * i);
    NodeIf(m, s, 2 * i + 1);
    assert forall k :: At(s, k) != Null ==> At(s, k) in s;
    ReplaceEffect(m, x, y, At(s, i / 2), At(s, 2 * i), At(s, 2 * i + 1));
    var m' := Replace(m, x, y);
    forall k | 1 <= k <= |s'| ensures NodeOk(m', s', k) {
      ReplacedNode(m, m', s, i, y, k);
    }
  }

  lemma Untouched(m: Memory, m': Memory, min: Ref, s: seq<Ref>, n: Ref)
    requires Complete(m, min, s) && n.Elem? && n !in s && n in m' && m' == m[n := m'[n]]
    ensures Complete(m', min, s)
  {
    forall k | 1 <= k <= |s| ensures NodeOk(m', s, k) {
      assert NodeOk(m, s, k);
    }
  }

  lemma StoreApart(m: Memory, s: seq<Ref>, k: int, v: Ref)
    requires SlotOf(s, k) != Min ==> SlotOf(s, k).n in m && SlotOf(s, k).n != Null
    ensures Apart(m, Store(m, SlotOf(s, k), v), Members(s))
  {
  }

  lemma InsertApart(m0: Memory, m1: Memory, s: seq<Ref>, n: Ref, p: Ref)
    requires n in m1 && m1 == m0[n := m1[n]]
    requires SlotOf(s, |s| + 1) != Min ==> SlotOf(s, |s| + 1).n in m1 && SlotOf(s, |s| + 1).n != Null
    ensures var m2 := m1[n := m1[n].(parent := p)];
            Apart(m0, Store(m2, SlotOf(s, |s| + 1), n), Members(s + [n]))
  {
  }

  lemma ReplacedApart(m: Memory, min: Ref, s: seq<Ref>, i: int, y: Ref)
    requires Complete(m, min, s) && 1 <= i <= |s| && y.Elem? && y in m && y !in s
    requires var x := At(s, i); x in m && forall n :: n in {m[x].left, m[x].right, m[x].parent} && n != Null ==> n in m
    ensures Apart(m, Replace(m, At(s, i), y), Members(s) + {y})
  {
    var x := At(s, i);
    var m', own := Replace(m, x, y), Members(s) + {y};
    assert NodeOk(m, s, i);
    forall z | z !in own ensures (z in m <==> z in m') && (z in m && z in m' ==> m[z] == m'[z]) {
      AtMember(s, i / 2, z);
      AtMember(s, 2 * i, z);
      AtMember(s, 2 * i + 1, z);
    }
  }

  lemma AppendedOrder(s: seq<Ref>, n: Ref)
    requires Ordered(s)
    ensures OrderedAbove(s + [n], |s| + 1)
  {
    var s' := s + [n];
    forall k | 2 <= k <= |s'| && k != |s'| ensures NotLess(s', k / 2, k) {
      assert NotLess(s, k / 2, k);
    }
  }

  lemma LastNode(m: Memory, min: Ref, s: seq<Ref>)
    requires Complete(m, min, s) && s != []
    ensures var n := At(s, |s|);
            n.Elem? && n !in s[..|s| - 1] && s == s[..|s| - 1] + [n]
    ensures var n, p := At(s, |s|), SlotOf(s, |s|);
            (p != Min ==> p.n in m) && n in Store(m, p, Null) && (p == Min || min != n)
  {
    assert NodeOk(m, s, |s|);
    LoadSlot(m, min, s, |s|);
  }

  lemma IndexOf(s: seq<Ref>, n: Ref) returns (i: int)
    requires n in s
    ensures 1 <= i <= |s| && At(s, i) == n
  {
    var k :| 0 <= k < |s| && s[k] == n;
    i := k + 1;
  }

  lemma DroppedOrder(s: seq<Ref>)
    requires Ordered(s) && s != []
    ensures Ordered(s[..|s| - 1])
  {
    var s' := s[..|s| - 1];
    forall k | 2 <= k <= |s'| ensures NotLess(s', k / 2, k) {
      assert NotLess(s, k / 2, k);
    }
  }

  lemma ReplacedOrder(s: seq<Ref>, i: int, y: Ref)
    requires Ordered(s) && 1 <= i <= |s|
    ensures OrderedAround(s[i - 1 := y], i)
  {
    var s' := s[i - 1 := y];
    forall k | 2 <= k <= |s'| && k != i && k / 2 != i ensures NotLess(s', k / 2, k) {
      assert NotLess(s, k / 2, k);
    }
    if i >= 2 {
      assert NotLess(s, i / 2, i);
      forall k | 2 <= k <= |s'| && k / 2 == i ensures NotLess(s', i / 2, k) {
        assert NotLess(s, i, k);
      }
    }
  }

  lemma {:induction false} AncestorLess(n: nat, k: nat)
    ensures Ancestor(n, k) <= if k == 0 then n else n / 2
    ensures Ancestor(n, k) >= 1 ==> n >= 1
  {
    if k > 0 {
      AncestorLess(n, k - 1);
    }
  }

  // ---------- The heap ----------

  class MinHeap {
    var min: Ref
    var nelts: uint32
    var mem: Memory
    ghost var slots: seq<Ref>

    ghost predicate Valid()
      reads this
    {
      Complete(mem, min, slots) && nelts as int == |slots| && Ordered(slots)
    }

    constructor ()
      ensures Valid() && slots == []
    {
      min, nelts, mem, slots := Null, 0, map[], [];
    }

    /** heap_min: NULL for the empty heap, otherwise a least element. */
    method Minimum() returns (r: Ref)
      requires Valid()
      ensures slots == [] <==> r == Null
      ensures r != Null ==> r in slots && forall n :: n in slots ==> n.Elem? && r.key <= n.key
    {
      r := min;
      if slots != [] {
        assert NodeOk(mem, slots, 1);
        assert slots[0] == r;
        forall n | n in slots ensures n.Elem? && r.key <= n.key {
          var k :| 0 <= k < |slots| && slots[k] == n;
          assert NodeOk(mem, slots, k + 1);
          MinFirst(slots, k + 1);
        }
      }
    }

    /** heap_node_swap of the nodes `i` and `j`, which holds `child`. */
    method Swap(parent: Ref, child: Ref, ghost i: int, ghost j: int)
      requires Complete(mem, min, slots) && 1 <= i <= |slots| && 1 <= j <= |slots| && (j == 2 * i || j == 2 * i + 1)
      requires parent == At(slots, i) && child == At(slots, j)
      modifies this`min, this`mem, this`slots
      ensures slots == Swapped(old(slots), i, j) && Complete(mem, min, slots)
      ensures multiset(slots) == multiset(old(slots)) && Apart(old(mem), mem, Members(old(slots)))
    {
      SwapComplete(mem, min, slots, i, j);
      SwapApart(mem, min, slots, i, j);
      if mem[parent].parent == Null {
        min := child;
      }
      mem := SwapNodes(mem, parent, child);
      slots := Swapped(slots, i, j);
    }

    /** Walks up the tree while the node is less than its parent. */
    method SiftUp(node: Ref, ghost i0: int)
      requires Complete(mem, min, slots) && 1 <= i0 <= |slots| && node == At(slots, i0) && OrderedAbove(slots, i0)
      modifies this`min, this`mem, this`slots
      ensures Complete(mem, min, slots) && Ordered(slots) && multiset(slots) == multiset(old(slots))
      ensures |slots| == |old(slots)| && Apart(old(mem), mem, Members(old(slots)))
    {
      hide Apart;
      ghost var i := i0;
      assert NodeOk(mem, slots, i);
      ApartSame(mem, Members(slots));
      while mem[node].parent != Null && node.key < mem[node].parent.key
        invariant Complete(mem, min, slots) && OrderedAbove(slots, i) && multiset(slots) == multiset(old(slots))
        invariant 1 <= i <= |slots| == |old(slots)| && node == At(slots, i) && NodeOk(mem, slots, i)
        invariant Apart(old(mem), mem, Members(old(slots)))
        decreases i
      {
        assert NodeOk(mem, slots, i / 2);
        MoveUp(slots, i);
        SwappedAt(slots, i / 2, i, i / 2);
        ghost var m, before := mem, slots;
        Swap(mem[node].parent, node, i / 2, i);
        SameMembers(before, old(slots));
        ApartThen(old(mem), m, mem, Members(old(slots)), Members(before));
        i := i / 2;
        assert NodeOk(mem, slots, i);
      }
      assert i >= 2 ==> NodeOk(mem, slots, i / 2);
      assert i >= 2 ==> NotLess(slots, i / 2, i);
    }

    /** Walks down the tree while a child is less than the node. */
    method SiftDown(node: Ref, ghost i0: int) returns (ghost i: int)
      requires Complete(mem, min, slots) && 1 <= i0 <= |slots| && node == At(slots, i0) && OrderedAround(slots, i0)
      modifies this`min, this`mem, this`slots
      ensures Complete(mem, min, slots) && multiset(slots) == multiset(old(slots)) && |slots| == |old(slots)|
      ensures 1 <= i <= |slots| && node == At(slots, i) && OrderedAbove(slots, i)
      ensures Apart(old(mem), mem, Members(old(slots)))
    {
      hide Apart;
      i := i0;
      ApartSame(mem, Members(slots));
      while true
        invariant Complete(mem, min, slots) && OrderedAround(slots, i) && multiset(slots) == multiset(old(slots))
        invariant 1 <= i <= |slots| == |old(slots)| && node == At(slots, i)
        invariant Apart(old(mem), mem, Members(old(slots)))
        decreases |slots| - i
      {
        assert NodeOk(mem, slots, i);
        NodeIf(mem, slots, 2 * i);
        NodeIf(mem, slots, 2 * i + 1);
        var smallest := node;
        if mem[node].left != Null && mem[node].left.key < smallest.key {
          smallest := mem[node].left;
        }
        if mem[node].right != Null && mem[node].right.key < smallest.key {
          smallest := mem[node].right;
        }
        if smallest == node {
          assert 2 * i <= |slots| ==> NodeOk(mem, slots, 2 * i);
          assert 2 * i + 1 <= |slots| ==> NodeOk(mem, slots, 2 * i + 1);
          break;
        }
        ghost var j := if smallest == At(slots, 2 * i) then 2 * i else 2 * i + 1;
        forall k | 2 <= k <= |slots| && k / 2 == i ensures NotLess(slots, j, k) {
          assert k == 2 * i || k == 2 * i + 1;
          assert NodeOk(mem, slots, k);
        }
        MoveDown(slots, i, j);
        SwappedAt(slots, i, j, j);
        ghost var m, before := mem, slots;
        Swap(node, smallest, i, j);
        SameMembers(before, old(slots));
        ApartThen(old(mem), m, mem, Members(old(slots)), Members(before));
        i := j;
      }
    }

    /** Follows the path from heap->min to the place of node `n`, and of its parent. */
    method Walk(n: uint32) returns (parent: Slot, child: Slot)
      requires Complete(mem, min, slots) && 1 <= n as int <= |slots| + 1
      ensures child == SlotOf(slots, n as int) && parent == SlotOf(slots, n as int / 2)
    {
      var path, k := Path(n);
      parent, child := Min, Min;
      while k > 0
        invariant path as nat == Turns(n as nat, k as nat) && 1 <= Ancestor(n as nat, k as nat) <= n as nat
        invariant child == SlotOf(slots, Ancestor(n as nat, k as nat))
        invariant parent == SlotOf(slots, Ancestor(n as nat, k as nat) / 2)
        decreases k
      {
        AncestorLess(n as nat, k as nat);
        LoadSlot(mem, min, slots, Ancestor(n as nat, k as nat));
        AncestorLess(n as nat, k as nat - 1);
        parent := child;
        child := if path % 2 == 1 then RightOf(Load(mem, min, child)) else LeftOf(Load(mem, min, child));
        path := path / 2;
        k := k - 1;
      }
    }

    /** heap_insert. The memory of `newnode` is the caller's; the count must fit its field. */
    method Insert(newnode: Ref)
      requires Valid() && newnode.Elem? && newnode !in slots && nelts < 0xffff_ffff
      modifies this
      ensures Valid() && multiset(slots) == multiset(old(slots)) + multiset{newnode}
      ensures Apart(old(mem), mem, Members(old(slots)) + {newnode})
    {
      hide Apart, Complete, Ordered, OrderedAbove, Store, SlotOf, At;
      mem := mem[newnode := Entry(Null, Null, Null)];
      Untouched(old(mem), mem, min, slots, newnode);
      var parent, child := Walk(1 + nelts);
      ghost var n := |slots| + 1;
      LoadSlot(mem, min, slots, n);
      LoadParent(mem, min, slots);
      LastAt(slots, newnode);
      Appended(mem, min, slots, newnode);
      InsertApart(old(mem), mem, slots, newnode, Load(mem, min, parent));
      mem := mem[newnode := mem[newnode].(parent := Load(mem, min, parent))];
      mem := Store(mem, child, newnode);
      if child == Min {
        min := newnode;
      }
      nelts := nelts + 1;
      AppendedOrder(slots, newnode);
      slots := slots + [newnode];
      ghost var m, own := mem, Members(slots);
      assert own == Members(old(slots)) + {newnode};
      SiftUp(newnode, n);
      ApartThen(old(mem), m, mem, own, own);
    }

    /** The first part of heap_remove: takes the last node out of the tree. */
    method UnlinkLast() returns (child: Ref)
      requires Valid() && nelts > 0
      modifies this
      ensures Valid() && old(slots) == slots + [child] && child.Elem? && child in mem && child !in slots
      ensures child != min && Apart(old(mem), mem, Members(old(slots)))
    {
      hide Complete, Ordered, SlotOf, At;
      var _, max := Walk(nelts);
      LoadSlot(mem, min, slots, |slots|);
      LastNode(mem, min, slots);
      StoreApart(mem, slots, |slots|, Null);
      Dropped(mem, min, slots);
      DroppedOrder(slots);
      nelts := nelts - 1;
      child := Load(mem, min, max);
      mem := Store(mem, max, Null);
      if max == Min {
        min := Null;
      }
      slots := slots[..|slots| - 1];
    }

    /** heap_remove. The test child == heap->min in the source comes after heap->min has been cleared
        and never holds. */
    method Remove(node: Ref)
      requires Valid() && (nelts > 0 ==> node in slots)
      modifies this
      ensures Valid() && multiset(slots) == multiset(old(slots)) - multiset{node}
      ensures Apart(old(mem), mem, Members(old(slots)))
    {
      hide Complete, Ordered, At, Apart;
      if nelts == 0 {
        ApartSame(mem, Members(slots));
        return;
      }
      var child := UnlinkLast();
      assert multiset(old(slots)) == multiset(slots) + multiset{child};
      if child == node {
        assert child != min;
        return;
      }
      ghost var i := IndexOf(slots, node);
      ghost var m, some := mem, Members(slots) + {child};
      assert some <= Members(old(slots));
      Substitute(node, child, i);
      ApartThen(old(mem), m, mem, Members(old(slots)), some);
    }

    /** Puts `child`, which is not in the tree, in the place of `node`, and restores the order. */
    method Substitute(node: Ref, child: Ref, ghost i0: int)
      requires Complete(mem, min, slots) && Ordered(slots) && 1 <= i0 <= |slots| && At(slots, i0) == node
      requires child.Elem? && child in mem && child !in slots
      modifies this`min, this`mem, this`slots
      ensures Complete(mem, min, slots) && Ordered(slots) && |slots| == |old(slots)|
      ensures multiset(slots) == multiset(old(slots)) - multiset{node} + multiset{child}
      ensures Apart(old(mem), mem, Members(old(slots)) + {child})
    {
      hide Apart;
      ghost var own := Members(slots) + {child};
      Replaced(mem, min, slots, i0, child);
      ReplacedApart(mem, min, slots, i0, child);
      if mem[node].parent == Null {
        min := child;
      }
      mem := Replace(mem, node, child);
      ReplacedOrder(slots, i0, child);
      slots := slots[i0 - 1 := child];
      ghost var m1, now := mem, slots;
      ghost var i := SiftDown(child, i0);
      ApartThen(old(mem), m1, mem, own, Members(now));
      SameMembers(slots, now);
      ghost var m2 := mem;
      SiftUp(child, i);
      ApartThen(old(mem), m2, mem, own, Members(now));
    }

    /** heap_dequeue. */
    method Dequeue()
      requires Valid()
      modifies this
      ensures Valid() && multiset(slots) == multiset(old(slots)) - multiset{old(min)}
      ensures Apart(old(mem), mem, Members(old(slots)))
    {
      Remove(min);
    }
  }
}
