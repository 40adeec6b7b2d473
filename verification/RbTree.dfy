/** The red-black tree of libs/libuv/tree.h: links, rotations, insertion and removal in place. */
module RbTree {
  import opened Pointers
  import opened RbShape

  /** The links and colour of an element, as in RB_ENTRY. */
  datatype Entry = Entry(left: Ref, right: Ref, parent: Ref, red: bool)

  type Memory = map<Ref, Entry>

  /** The elements of `t` are linked in `m` as `t` pictures them, below `p`. */
  ghost predicate Linked(m: Memory, t: Tree, p: Ref) {
    match t
    case Leaf => true
    case Bin(l, n, red, r) =>
      && n in m && m[n] == Entry(RootOf(l), RootOf(r), p, red)
      && Linked(m, l, n) && Linked(m, r, n)
  }

  /** The elements of `c` are linked as `c` pictures them, below `root` and with `n` in the hole. */
  ghost predicate Hung(m: Memory, root: Ref, c: Ctx, n: Ref)
    decreases c
  {
    match c
    case Top => root == n
    case InLeft(up, k, red, r) =>
      && k in m && m[k] == Entry(n, RootOf(r), ParentOf(up), red)
      && Linked(m, r, k) && Hung(m, root, up, k)
    case InRight(l, k, red, up) =>
      && k in m && m[k] == Entry(RootOf(l), n, ParentOf(up), red)
      && Linked(m, l, k) && Hung(m, root, up, k)
  }

  ghost predicate Agree(m: Memory, m': Memory, s: set<Ref>) {
    forall n :: n in s && n in m ==> n in m' && m'[n] == m[n]
  }

  lemma {:induction false} LinkedFrame(m: Memory, m': Memory, t: Tree, p: Ref)
    requires Linked(m, t, p) && Agree(m, m', Nodes(t))
    ensures Linked(m', t, p)
  {
    if t.Bin? {
      LinkedFrame(m, m', t.left, t.node);
      LinkedFrame(m, m', t.right, t.node);
    }
  }

  lemma {:induction false} HungFrame(m: Memory, m': Memory, root: Ref, c: Ctx, n: Ref)
    requires Hung(m, root, c, n) && Agree(m, m', CtxNodes(c))
    ensures Hung(m', root, c, n)
    decreases c
  {
    match c
    case Top =>
    case InLeft(up, k, red, r) =>
      LinkedFrame(m, m', r, k);
      HungFrame(m, m', root, up, k);
    case InRight(l, k, red, up) =>
      LinkedFrame(m, m', l, k);
      HungFrame(m, m', root, up, k);
  }

  /** Moving a subtree changes the parent link of its root only. */
  lemma LinkedMoved(m: Memory, m': Memory, t: Tree, q: Ref, p: Ref)
    requires Linked(m, t, q) && Distinct(t)
    requires t.Bin? ==> t.node in m' && m'[t.node] == m[t.node].(parent := p)
    requires t.Bin? ==> Agree(m, m', Nodes(t) - {t.node})
    ensures Linked(m', t, p)
  {
    if t.Bin? {
      LinkedFrame(m, m', t.left, t.node);
      LinkedFrame(m, m', t.right, t.node);
    }
  }

  /** Filling the hole anew changes one link, in the node above the hole or in the head. */
  ghost predicate Refilled(m: Memory, m': Memory, c: Ctx, n: Ref) {
    match c
    case Top => true
    case InLeft(_, k, _, _) => k in m && k in m' && m'[k] == m[k].(left := n)
    case InRight(_, k, _, _) => k in m && k in m' && m'[k] == m[k].(right := n)
  }

  lemma HungRefilled(m: Memory, m': Memory, root: Ref, root': Ref, c: Ctx, n: Ref, n': Ref)
    requires Hung(m, root, c, n) && CtxDistinct(c) && Refilled(m, m', c, n')
    requires root' == if c.Top? then n' else root
    requires !c.Top? ==> Agree(m, m', CtxNodes(c) - {c.node})
    ensures Hung(m', root', c, n')
  {
    match c
    case Top =>
    case InLeft(up, k, red, r) =>
      LinkedFrame(m, m', r, k);
      HungFrame(m, m', root, up, k);
    case InRight(l, k, red, up) =>
      LinkedFrame(m, m', l, k);
      HungFrame(m, m', root, up, k);
  }

  /** What lies around a tree: nothing outside of `own` differs from the memory `rest`. */
  datatype Outer = Outer(rest: Memory, own: set<Ref>)

  /** The memory below `root` is the subtree `t` in the context `c`. */
  ghost predicate Zip(f: Outer, m: Memory, root: Ref, c: Ctx, t: Tree) {
    && Hung(m, root, c, RootOf(t)) && Linked(m, t, ParentOf(c))
    && Null !in m && CtxDistinct(c) && Distinct(t) && CtxNodes(c) !! Nodes(t)
    && CtxNodes(c) + Nodes(t) <= f.own && Apart(f.rest, m, f.own)
  }

  /** A zipper can be closed by one step, or opened again. */
  lemma Up(f: Outer, m: Memory, root: Ref, c: Ctx, t: Tree)
    requires !c.Top?
    ensures Zip(f, m, root, c, t) <==> Zip(f, m, root, c.up, Fill(c, t))
  {
  }

  lemma {:induction false} Refold(f: Outer, m: Memory, root: Ref, inner: Ctx, outer: Ctx, t: Tree)
    ensures Zip(f, m, root, Append(inner, outer), t) <==> Zip(f, m, root, outer, Plug(inner, t))
    decreases inner
  {
    hide Zip;
    if !inner.Top? {
      Refold(f, m, root, inner.up, outer, Fill(inner, t));
      Up(f, m, root, Append(inner, outer), t);
    }
  }

  lemma Close(f: Outer, m: Memory, root: Ref, c: Ctx, t: Tree)
    ensures Zip(f, m, root, c, t) <==> Zip(f, m, root, Top, Plug(c, t))
  {
    Refold(f, m, root, c, Top, t);
    AppendTop(c);
  }

  lemma OpenBin(m: Memory, t: Tree, p: Ref)
    requires Linked(m, t, p) && Distinct(t) && t.Bin?
    ensures t.node in m && m[t.node] == Entry(RootOf(t.left), RootOf(t.right), p, t.red)
    ensures Linked(m, t.left, t.node) && Linked(m, t.right, t.node) && Distinct(t.left) && Distinct(t.right)
    ensures t.node.Elem? && t.node !in Nodes(t.left) && t.node !in Nodes(t.right) && Nodes(t.left) !! Nodes(t.right)
    ensures Nodes(t) == Nodes(t.left) + {t.node} + Nodes(t.right)
  {
  }

  lemma CloseBin(m: Memory, t: Tree, p: Ref)
    requires t.Bin? && t.node in m && m[t.node] == Entry(RootOf(t.left), RootOf(t.right), p, t.red)
    requires Linked(m, t.left, t.node) && Linked(m, t.right, t.node) && Distinct(t.left) && Distinct(t.right)
    requires t.node.Elem? && t.node !in Nodes(t.left) && t.node !in Nodes(t.right) && Nodes(t.left) !! Nodes(t.right)
    ensures Linked(m, t, p) && Distinct(t)
    ensures Nodes(t) == Nodes(t.left) + {t.node} + Nodes(t.right)
  {
  }

  lemma OpenRoot(m: Memory, t: Tree, p: Ref)
    requires Linked(m, t, p) && Distinct(t)
    ensures t.Bin? ==> t.node in Nodes(t) && t.node in m && t.node.Elem?
  {
  }

  lemma OpenHole(m: Memory, root: Ref, c: Ctx, n: Ref)
    requires Hung(m, root, c, n) && CtxDistinct(c)
    ensures !c.Top? ==> c.node in CtxNodes(c) && c.node in m && c.node.Elem?
    ensures c.Top? ==> root == n
    ensures c.InLeft? ==> m[c.node].left == n
    ensures c.InRight? ==> m[c.node].right == n && (m[c.node].left == Null || m[c.node].left in CtxNodes(c))
  {
  }

  lemma {:induction false} HungTop(m: Memory, root: Ref, c: Ctx, n: Ref)
    requires Hung(m, root, c, n) && CtxDistinct(c) && !c.Top?
    ensures root in CtxNodes(c) && root.Elem?
    decreases c
  {
    if !c.up.Top? {
      HungTop(m, root, c.up, c.node);
    }
  }

  lemma Reframe(f: Outer, m: Memory, root: Ref, t: Tree, own: set<Ref>)
    requires Zip(f, m, root, Top, t) && Nodes(t) <= own
    ensures Zip(Outer(m, own), m, root, Top, t)
  {
  }

  /** What the memory shows at the focus of a zipper. */
  lemma Look(f: Outer, m: Memory, root: Ref, c: Ctx, t: Tree)
    requires Zip(f, m, root, c, t)
    ensures Null !in m && Apart(f.rest, m, f.own) && (t.Bin? ==> t.node in f.own)
    ensures t.Bin? ==>
              t.node.Elem? && t.node in m && m[t.node] == Entry(RootOf(t.left), RootOf(t.right), ParentOf(c), t.red)
    ensures c.Top? ==> root == RootOf(t)
    ensures !c.Top? ==>
              && root != RootOf(t) && root.Elem?
              && c.node.Elem? && c.node in m && m[c.node].red == c.red && m[c.node].parent == ParentOf(c.up)
              && (c.up.Top? || c.up.node.Elem?)
    ensures c.InLeft? ==>
              && m[c.node].left == RootOf(t) && m[c.node].right == RootOf(c.right)
              && (t.Bin? || c.right.Bin? ==> m[c.node].right != RootOf(t))
    ensures c.InRight? ==>
              && m[c.node].right == RootOf(t) && m[c.node].left == RootOf(c.left)
              && (t.Bin? || c.left.Bin? ==> m[c.node].left != RootOf(t))
  {
    if !c.Top? {
      HungTop(m, root, c, RootOf(t));
      assert t.Bin? ==> t.node in Nodes(t);
      assert CtxDistinct(c.up);
      assert Sibling(c).Bin? ==> Sibling(c).node in CtxNodes(c) && Sibling(c).node.Elem?;
    }
  }

  lemma LookChildren(f: Outer, m: Memory, root: Ref, c: Ctx, t: Tree)
    requires Zip(f, m, root, c, t) && t.Bin?
    ensures t.left.Bin? ==> t.left.node.Elem? && t.left.node in m
    ensures t.right.Bin? ==> t.right.node.Elem? && t.right.node in m
    ensures t.node !in CtxNodes(c) + Nodes(t.left) + Nodes(t.right)
  {
    assert Distinct(t.left) && Distinct(t.right);
    assert Linked(m, t.left, t.node) && Linked(m, t.right, t.node);
  }

  /** The focus and its neighbours are different elements. */
  lemma Neighbours(f: Outer, m: Memory, root: Ref, c: Ctx, t: Tree)
    requires Zip(f, m, root, c, t) && t.Bin?
    ensures t.node in Nodes(t) && t.node != ParentOf(c)
    ensures t.left.Bin? ==> t.left.node in Nodes(t) && t.left.node != t.node && t.left.node != ParentOf(c)
    ensures t.right.Bin? ==> t.right.node in Nodes(t) && t.right.node != t.node && t.right.node != ParentOf(c)
    ensures t.left.Bin? && t.right.Bin? ==> t.left.node != t.right.node
    ensures !c.Top? ==> c.node in CtxNodes(c)
  {
    assert Distinct(t.left) && Distinct(t.right);
    assert t.left.Bin? ==> t.left.node in Nodes(t.left);
    assert t.right.Bin? ==> t.right.node in Nodes(t.right);
  }

  lemma LookSibling(f: Outer, m: Memory, root: Ref, c: Ctx, t: Tree)
    requires Zip(f, m, root, c, t) && !c.Top? && Sibling(c).Bin?
    ensures var s := Sibling(c);
            s.node.Elem? && s.node in m && m[s.node] == Entry(RootOf(s.left), RootOf(s.right), c.node, s.red)
  {
  }

  lemma LookNephews(f: Outer, m: Memory, root: Ref, c: Ctx, t: Tree)
    requires Zip(f, m, root, c, t) && !c.Top? && Sibling(c).Bin?
    ensures var l := Sibling(c).left; l.Bin? ==> l.node.Elem? && l.node in m && m[l.node].red == l.red
    ensures var r := Sibling(c).right; r.Bin? ==> r.node.Elem? && r.node in m && m[r.node].red == r.red
  {
    var s := Sibling(c);
    assert Linked(m, s, c.node) && Distinct(s);
    assert Linked(m, s.left, s.node) && Distinct(s.left) && Linked(m, s.right, s.node) && Distinct(s.right);
  }

  /** Painting the root of the focus, and painting the sibling of the focus. */
  lemma Recolored(f: Outer, m: Memory, root: Ref, c: Ctx, t: Tree, red: bool)
    requires Zip(f, m, root, c, t) && t.Bin?
    ensures t.node in m
    ensures Zip(f, m[t.node := m[t.node].(red := red)], root, c, Painted(t, red))
  {
    hide Linked, Hung, Nodes, CtxNodes, Distinct, CtxDistinct, Apart;
    OpenBin(m, t, ParentOf(c));
    var m' := m[t.node := m[t.node].(red := red)];
    ApartUpdate(f.rest, m, f.own, t.node, m[t.node].(red := red));
    HungFrame(m, m', root, c, t.node);
    LinkedFrame(m, m', t.left, t.node);
    LinkedFrame(m, m', t.right, t.node);
    CloseBin(m', Painted(t, red), ParentOf(c));
  }

  lemma RecoloredSibling(f: Outer, m: Memory, root: Ref, c: Ctx, t: Tree, red: bool)
    requires Zip(f, m, root, c, t) && !c.Top? && Sibling(c).Bin?
    ensures Sibling(c).node in m
    ensures Zip(f, m[Sibling(c).node := m[Sibling(c).node].(red := red)], root,
                WithSibling(c, Painted(Sibling(c), red)), t)
  {
    var s := Sibling(c);
    var k := if c.InLeft? then InRight(t, c.node, c.red, c.up) else InLeft(c.up, c.node, c.red, t);
    assert Fill(k, s) == Fill(c, t);
    LookSibling(f, m, root, c, t);
    var m' := m[s.node := m[s.node].(red := red)];
    assert Zip(f, m', root, WithSibling(c, Painted(s, red)), t) by {
      hide Zip;
      Up(f, m, root, c, t);
      Up(f, m, root, k, s);
      Recolored(f, m, root, k, s, red);
      Up(f, m', root, k, Painted(s, red));
      Up(f, m', root, WithSibling(c, Painted(s, red)), t);
    }
  }

  lemma Planted(f: Outer, m: Memory, m': Memory, root: Ref, c: Ctx, elm: Ref)
    requires Zip(f, m, root, c, Leaf) && elm.Elem? && elm !in CtxNodes(c)
    requires Refilled(m, m', c, elm) && elm in m' && m'[elm] == Entry(Null, Null, ParentOf(c), true)
    requires Null !in m' && Apart(m, m', {elm, ParentOf(c)}) && elm in f.own
    ensures Zip(f, m', if c.Top? then elm else root, c, Bin(Leaf, elm, true, Leaf))
  {
    HungRefilled(m, m', root, if c.Top? then elm else root, c, Null, elm);
    ApartThen(f.rest, m, m', f.own, {elm, ParentOf(c)});
  }

  /** A node with one subtree at most gives its place to that subtree. */
  lemma Spliced(f: Outer, m: Memory, root: Ref, c: Ctx, t: Tree, x: Tree)
    requires Zip(f, m, root, c, t) && t.Bin?
    requires (t.left.Leaf? && x == t.right) || (t.right.Leaf? && x == t.left)
    ensures x.Bin? ==> x.node.Elem? && x.node in m
    ensures !c.Top? ==> c.node.Elem? && c.node in m
    ensures Zip(f, WithChild(WithParent(m, RootOf(x), ParentOf(c)), ParentOf(c), t.node, RootOf(x)),
                if c.Top? then RootOf(x) else root, c, x)
  {
    hide Linked, Hung, Nodes, CtxNodes, Distinct, CtxDistinct;
    OpenBin(m, t, ParentOf(c));
    OpenRoot(m, x, t.node);
    OpenHole(m, root, c, t.node);
    var m' := WithChild(WithParent(m, RootOf(x), ParentOf(c)), ParentOf(c), t.node, RootOf(x));
    ApartThen(f.rest, m, m', f.own, {RootOf(x), ParentOf(c)});
    HungRefilled(m, m', root, if c.Top? then RootOf(x) else root, c, t.node, RootOf(x));
    LinkedMoved(m, m', x, t.node, ParentOf(c));
    LeafEmpty();
  }

  /** The element `y` takes over the entry of the root of the focus, and the links that lead to it. */
  lemma Substituted(f: Outer, m: Memory, m': Memory, root: Ref, c: Ctx, t: Tree, y: Ref)
    requires Zip(f, m, root, c, t) && t.Bin? && t.left.Bin? && y.Elem? && y !in CtxNodes(c) + Nodes(t)
    requires Null !in m' && Refilled(m, m', c, y)
    requires y in m' && m'[y] == m[t.node]
    requires t.left.node in m && t.left.node in m' && m'[t.left.node] == m[t.left.node].(parent := y)
    requires t.right.Bin? ==>
               t.right.node in m && t.right.node in m' && m'[t.right.node] == m[t.right.node].(parent := y)
    requires Apart(m, m', {y, t.left.node, RootOf(t.right), ParentOf(c)}) && y in f.own
    ensures Zip(f, m', if c.Top? then y else root, c, t.(node := y))
  {
    hide Linked, Hung, Nodes, CtxNodes, Distinct, CtxDistinct;
    OpenBin(m, t, ParentOf(c));
    OpenRoot(m, t.left, t.node);
    OpenRoot(m, t.right, t.node);
    OpenHole(m, root, c, t.node);
    ApartThen(f.rest, m, m', f.own, {y, t.left.node, RootOf(t.right), ParentOf(c)});
    HungRefilled(m, m', root, if c.Top? then y else root, c, t.node, y);
    LinkedMoved(m, m', t.left, t.node, y);
    LinkedMoved(m, m', t.right, t.node, y);
    CloseBin(m', t.(node := y), ParentOf(c));
  }

  lemma LeafEmpty()
    ensures Nodes(Leaf) == {}
  {
  }

  lemma {:induction false} AppendNodes(d: Ctx, o: Ctx)
    requires !o.Top?
    ensures o.node in CtxNodes(Append(d, o))
  {
    if !d.Top? {
      AppendNodes(d.up, o);
    }
  }

  lemma SuccessorParent(f: Outer, m: Memory, root: Ref, d: Ctx, o: Ctx, y: Tree)
    requires Zip(f, m, root, Append(d, o), y) && !o.Top?
    ensures ParentOf(Append(d, o)) == o.node <==> d.Top?
  {
    if !d.Top? {
      AppendNodes(d.up, o);
    }
  }

  // ---------- Rotations ----------

  function WithParent(m: Memory, n: Ref, p: Ref): Memory
    requires n != Null ==> n in m
  {
    if n == Null then m else m[n := m[n].(parent := p)]
  }

  function WithChild(m: Memory, p: Ref, elm: Ref, n: Ref): Memory
    requires p != Null ==> p in m
  {
    if p == Null then m
    else if m[p].left == elm then m[p := m[p].(left := n)]
    else m[p := m[p].(right := n)]
  }

  /** The memory after `y` has taken over the entry of `x`, with its neighbours `l`, `r` and `p`. */
  function Taken(m: Memory, x: Ref, y: Ref, l: Ref, r: Ref, p: Ref): Memory
    requires x in m && forall n :: n in {l, r, p} && n != Null ==> n in m
  {
    WithParent(WithParent(WithChild(m[y := m[x]], p, x, y), l, y), r, y)
  }

  lemma TakenEffect(m: Memory, x: Ref, y: Ref, l: Ref, r: Ref, p: Ref)
    requires Null !in m && x in m && y.Elem? && l in m && (r == Null || (r in m && r != l)) && (p == Null || p in m)
    requires x !in {l, r, p, y} && y !in {l, r, p} && p !in {l} && (p == Null || p != r)
    ensures
      var m' := Taken(m, x, y, l, r, p);
      && Null !in m' && Apart(m, m', {y, l, r, p}) && x in m' && m'[x] == m[x] && y in m' && m'[y] == m[x]
      && l in m' && m'[l] == m[l].(parent := y) && (r != Null ==> r in m' && m'[r] == m[r].(parent := y))
      && (p != Null ==> p in m' && m'[p] == if m[p].left == x then m[p].(left := y) else m[p].(right := y))
  {
  }

  predicate CanRotate(m: Memory, elm: Ref) {
    elm in m && (m[elm].parent == Null || m[elm].parent in m)
  }

  function LeftRotation(m: Memory, elm: Ref): Memory
    requires CanRotate(m, elm) && m[elm].right in m
    requires m[m[elm].right].left == Null || m[m[elm].right].left in m
  {
    var tmp := m[elm].right;
    var m1 := WithParent(m[elm := m[elm].(right := m[tmp].left)], m[tmp].left, elm);
    var m2 := WithChild(m1[tmp := m1[tmp].(parent := m1[elm].parent)], m1[elm].parent, elm, tmp);
    var m3 := m2[tmp := m2[tmp].(left := elm)];
    m3[elm := m3[elm].(parent := tmp)]
  }

  function RightRotation(m: Memory, elm: Ref): Memory
    requires CanRotate(m, elm) && m[elm].left in m
    requires m[m[elm].left].right == Null || m[m[elm].left].right in m
  {
    var tmp := m[elm].left;
    var m1 := WithParent(m[elm := m[elm].(left := m[tmp].right)], m[tmp].right, elm);
    var m2 := WithChild(m1[tmp := m1[tmp].(parent := m1[elm].parent)], m1[elm].parent, elm, tmp);
    var m3 := m2[tmp := m2[tmp].(right := elm)];
    m3[elm := m3[elm].(parent := tmp)]
  }

  /** The elements that a rotation touches are different. */
  ghost predicate Apartness(m: Memory, elm: Ref, tmp: Ref, b: Ref, p: Ref) {
    && Null !in m && elm in m && tmp in m && elm != tmp && b !in {elm, tmp} && p !in {elm, tmp}
    && (b == Null || (b in m && b != p)) && (p == Null || p in m)
  }

  lemma LeftEffect(m: Memory, elm: Ref, tmp: Ref, b: Ref, p: Ref)
    requires Apartness(m, elm, tmp, b, p) && m[elm].right == tmp && m[tmp].left == b && m[elm].parent == p
    ensures
      var m' := LeftRotation(m, elm);
      && Null !in m' && Apart(m, m', {elm, tmp, b, p})
      && elm in m' && m'[elm] == m[elm].(right := b, parent := tmp)
      && tmp in m' && m'[tmp] == m[tmp].(left := elm, parent := p)
      && (b != Null ==> b in m' && m'[b] == m[b].(parent := elm))
      && (p != Null ==> p in m' && m'[p] == if m[p].left == elm then m[p].(left := tmp) else m[p].(right := tmp))
  {
  }

  lemma RightEffect(m: Memory, elm: Ref, tmp: Ref, b: Ref, p: Ref)
    requires Apartness(m, elm, tmp, b, p) && m[elm].left == tmp && m[tmp].right == b && m[elm].parent == p
    ensures
      var m' := RightRotation(m, elm);
      && Null !in m' && Apart(m, m', {elm, tmp, b, p})
      && elm in m' && m'[elm] == m[elm].(left := b, parent := tmp)
      && tmp in m' && m'[tmp] == m[tmp].(right := elm, parent := p)
      && (b != Null ==> b in m' && m'[b] == m[b].(parent := elm))
      && (p != Null ==> p in m' && m'[p] == if m[p].left == elm then m[p].(left := tmp) else m[p].(right := tmp))
  {
  }

  lemma ApartAgree(m: Memory, m': Memory, own: set<Ref>, s: set<Ref>)
    requires Apart(m, m', own) && Null !in m && s * own <= {Null}
    ensures Agree(m, m', s)
  {
    forall n | n in s && n in m ensures n in m' && m'[n] == m[n] {
      assert n !in s * own;
    }
  }

  lemma RotatedLeftLinks(f: Outer, m: Memory, m': Memory, root: Ref, root': Ref, c: Ctx, t: Tree)
    requires Zip(f, m, root, c, t) && t.Bin? && t.right.Bin?
    requires
      var elm, tmp, b := t.node, t.right.node, t.right.left;
      && Null !in m' && root' == (if c.Top? then tmp else root)
      && Refilled(m, m', c, tmp)
      && elm in m' && m'[elm] == Entry(RootOf(t.left), RootOf(b), tmp, t.red)
      && tmp in m' && m'[tmp] == Entry(elm, RootOf(t.right.right), ParentOf(c), t.right.red)
      && (b.Bin? ==> b.node in m && b.node in m' && m'[b.node] == m[b.node].(parent := elm))
      && Apart(m, m', {elm, tmp, RootOf(b), ParentOf(c)})
    ensures Zip(f, m', root', c, RotatedLeft(t))
  {
    hide Linked, Hung, Nodes, CtxNodes, Distinct, CtxDistinct, Apart, Agree;
    var elm, tmp, b := t.node, t.right.node, t.right.left;
    OpenBin(m, t, ParentOf(c));
    OpenBin(m, t.right, elm);
    OpenRoot(m, b, tmp);
    OpenHole(m, root, c, elm);
    var own := {elm, tmp, RootOf(b), ParentOf(c)};
    ApartThen(f.rest, m, m', f.own, own);
    ApartAgree(m, m', own, CtxNodes(c) - {ParentOf(c)});
    ApartAgree(m, m', own, Nodes(t.left));
    ApartAgree(m, m', own, Nodes(b) - {RootOf(b)});
    ApartAgree(m, m', own, Nodes(t.right.right));
    HungRefilled(m, m', root, root', c, elm, tmp);
    LinkedFrame(m, m', t.left, elm);
    LinkedMoved(m, m', b, tmp, elm);
    LinkedFrame(m, m', t.right.right, tmp);
    CloseBin(m', RotatedLeft(t).left, tmp);
    CloseBin(m', RotatedLeft(t), ParentOf(c));
  }

  lemma RotatedRightLinks(f: Outer, m: Memory, m': Memory, root: Ref, root': Ref, c: Ctx, t: Tree)
    requires Zip(f, m, root, c, t) && t.Bin? && t.left.Bin?
    requires
      var elm, tmp, b := t.node, t.left.node, t.left.right;
      && Null !in m' && root' == (if c.Top? then tmp else root)
      && Refilled(m, m', c, tmp)
      && elm in m' && m'[elm] == Entry(RootOf(b), RootOf(t.right), tmp, t.red)
      && tmp in m' && m'[tmp] == Entry(RootOf(t.left.left), elm, ParentOf(c), t.left.red)
      && (b.Bin? ==> b.node in m && b.node in m' && m'[b.node] == m[b.node].(parent := elm))
      && Apart(m, m', {elm, tmp, RootOf(b), ParentOf(c)})
    ensures Zip(f, m', root', c, RotatedRight(t))
  {
    hide Linked, Hung, Nodes, CtxNodes, Distinct, CtxDistinct, Apart, Agree;
    var elm, tmp, b := t.node, t.left.node, t.left.right;
    OpenBin(m, t, ParentOf(c));
    OpenBin(m, t.left, elm);
    OpenRoot(m, b, tmp);
    OpenHole(m, root, c, elm);
    var own := {elm, tmp, RootOf(b), ParentOf(c)};
    ApartThen(f.rest, m, m', f.own, own);
    ApartAgree(m, m', own, CtxNodes(c) - {ParentOf(c)});
    ApartAgree(m, m', own, Nodes(t.right));
    ApartAgree(m, m', own, Nodes(b) - {RootOf(b)});
    ApartAgree(m, m', own, Nodes(t.left.left));
    HungRefilled(m, m', root, root', c, elm, tmp);
    LinkedFrame(m, m', t.right, elm);
    LinkedMoved(m, m', b, tmp, elm);
    LinkedFrame(m, m', t.left.left, tmp);
    CloseBin(m', RotatedRight(t).right, tmp);
    CloseBin(m', RotatedRight(t), ParentOf(c));
  }

  lemma LeftRotationZip(f: Outer, m: Memory, root: Ref, c: Ctx, t: Tree)
    requires Zip(f, m, root, c, t) && t.Bin? && t.right.Bin?
    ensures
      var elm, tmp := t.node, t.right.node;
      && CanRotate(m, elm) && m[elm].right == tmp && tmp in m
      && (m[tmp].left == Null || m[tmp].left in m)
      && m[elm].parent == ParentOf(c) && (ParentOf(c) == Null <==> c.Top?)
      && Zip(f, LeftRotation(m, elm), if c.Top? then tmp else root, c, RotatedLeft(t))
  {
    hide Linked, Hung, Nodes, CtxNodes, Distinct, CtxDistinct, Apart, LeftRotation;
    OpenBin(m, t, ParentOf(c));
    OpenBin(m, t.right, t.node);
    OpenRoot(m, t.right.left, t.right.node);
    OpenHole(m, root, c, t.node);
    LeftEffect(m, t.node, t.right.node, RootOf(t.right.left), ParentOf(c));
    RotatedLeftLinks(f, m, LeftRotation(m, t.node), root, if c.Top? then t.right.node else root, c, t);
  }

  lemma RightRotationZip(f: Outer, m: Memory, root: Ref, c: Ctx, t: Tree)
    requires Zip(f, m, root, c, t) && t.Bin? && t.left.Bin?
    ensures
      var elm, tmp := t.node, t.left.node;
      && CanRotate(m, elm) && m[elm].left == tmp && tmp in m
      && (m[tmp].right == Null || m[tmp].right in m)
      && m[elm].parent == ParentOf(c) && (ParentOf(c) == Null <==> c.Top?)
      && Zip(f, RightRotation(m, elm), if c.Top? then tmp else root, c, RotatedRight(t))
  {
    hide Linked, Hung, Nodes, CtxNodes, Distinct, CtxDistinct, Apart, RightRotation;
    OpenBin(m, t, ParentOf(c));
    OpenBin(m, t.left, t.node);
    OpenRoot(m, t.left.right, t.left.node);
    OpenHole(m, root, c, t.node);
    RightEffect(m, t.node, t.left.node, RootOf(t.left.right), ParentOf(c));
    RotatedRightLinks(f, m, RightRotation(m, t.node), root, if c.Top? then t.left.node else root, c, t);
  }

  class Head {
    var root: Ref
    var mem: Memory
    ghost var shape: Tree
    ghost var outer: Outer

    ghost predicate Valid()
      reads this
    {
      Zip(outer, mem, root, Top, shape) && RedBlack(shape) && Sorted(InOrder(shape))
    }

    constructor ()
      ensures Valid() && InOrder(shape) == []
    {
      root := Null;
      mem := map[];
      shape := Leaf;
      outer := Outer(map[], {});
    }

    method RotateLeft(elm: Ref, ghost c: Ctx, ghost t: Tree)
      requires Zip(outer, mem, root, c, t) && t.Bin? && t.node == elm && t.right.Bin?
      modifies this`root, this`mem
      ensures Zip(outer, mem, root, c, RotatedLeft(t))
    {
      hide Zip, Apart;
      LeftRotationZip(outer, mem, root, c, t);
      if mem[elm].parent == Null {
        root := mem[elm].right;
      }
      mem := LeftRotation(mem, elm);
    }

    method RotateRight(elm: Ref, ghost c: Ctx, ghost t: Tree)
      requires Zip(outer, mem, root, c, t) && t.Bin? && t.node == elm && t.left.Bin?
      modifies this`root, this`mem
      ensures Zip(outer, mem, root, c, RotatedRight(t))
    {
      hide Zip, Apart;
      RightRotationZip(outer, mem, root, c, t);
      if mem[elm].parent == Null {
        root := mem[elm].left;
      }
      mem := RightRotation(mem, elm);
    }

    /** One pass of the loop where the parent is a left child. */
    method InsertStepLeft(e: Ref, p: Ref, gparent: Ref, ghost c0: Ctx, ghost t0: Tree)
      returns (elm: Ref, ghost c: Ctx, ghost t: Tree)
      requires Zip(outer, mem, root, c0, t0) && Inserting(c0, t0) && !c0.Top? && c0.red && c0.up.InLeft?
      requires t0.Bin? && e == t0.node && p == c0.node && gparent == c0.up.node
      modifies this`root, this`mem
      ensures Zip(outer, mem, root, c, t) && Inserting(c, t) && Whole(c, t) == Whole(c0, t0)
      ensures t.Bin? && elm == t.node && Depth(c) < Depth(c0)
    {
      hide Zip, Apart, Inserting, Whole;
      var parent := p;
      elm, c, t := e, c0, t0;
      InsertRecolor(c, t);
      Look(outer, mem, root, c, t);
      Up(outer, mem, root, c, t);
      Look(outer, mem, root, c.up, Fill(c, t));
      if c.up.right.Bin? {
        LookSibling(outer, mem, root, c.up, Fill(c, t));
      }
      var tmp := mem[gparent].right;
      if tmp != Null && mem[tmp].red {
        RecoloredSibling(outer, mem, root, c.up, Fill(c, t), false);
        mem := mem[tmp := mem[tmp].(red := false)];
        c, t := WithSibling(c.up, Painted(c.up.right, false)), Fill(c, t);
        Recolored(outer, mem, root, c, t, false);
        mem := mem[parent := mem[parent].(red := false)];
        Up(outer, mem, root, c, Painted(t, false));
        c, t := c.up, Fill(c, Painted(t, false));
        Recolored(outer, mem, root, c, t, true);
        mem := mem[gparent := mem[gparent].(red := true)];
        t := Painted(t, true);
        elm := gparent;
      } else {
        if mem[parent].right == elm {
          InsertInnerLeft(c, t);
          RotateLeft(parent, c.up, Fill(c, t));
          c, t := InLeft(c.up, t.node, true, t.right), Bin(c.left, c.node, true, t.left);
          parent, elm := elm, parent;
        }
        InsertOuterLeft(c, t);
        Recolored(outer, mem, root, c.up, Fill(c, t), false);
        mem := mem[parent := mem[parent].(red := false)];
        Up(outer, mem, root, c.up, Painted(Fill(c, t), false));
        ghost var g := Fill(c.up, Painted(Fill(c, t), false));
        Recolored(outer, mem, root, c.up.up, g, true);
        mem := mem[gparent := mem[gparent].(red := true)];
        RotateRight(gparent, c.up.up, Painted(g, true));
        c := InLeft(c.up.up, c.node, false, Bin(c.right, c.up.node, true, c.up.right));
        Up(outer, mem, root, c, t);
      }
    }

    /** One pass of the loop where the parent is a right child. */
    method InsertStepRight(e: Ref, p: Ref, gparent: Ref, ghost c0: Ctx, ghost t0: Tree)
      returns (elm: Ref, ghost c: Ctx, ghost t: Tree)
      requires Zip(outer, mem, root, c0, t0) && Inserting(c0, t0) && !c0.Top? && c0.red && c0.up.InRight?
      requires t0.Bin? && e == t0.node && p == c0.node && gparent == c0.up.node
      modifies this`root, this`mem
      ensures Zip(outer, mem, root, c, t) && Inserting(c, t) && Whole(c, t) == Whole(c0, t0)
      ensures t.Bin? && elm == t.node && Depth(c) < Depth(c0)
    {
      hide Zip, Apart, Inserting, Whole;
      var parent := p;
      elm, c, t := e, c0, t0;
      InsertRecolor(c, t);
      Look(outer, mem, root, c, t);
      Up(outer, mem, root, c, t);
      Look(outer, mem, root, c.up, Fill(c, t));
      if c.up.left.Bin? {
        LookSibling(outer, mem, root, c.up, Fill(c, t));
      }
      var tmp := mem[gparent].left;
      if tmp != Null && mem[tmp].red {
        RecoloredSibling(outer, mem, root, c.up, Fill(c, t), false);
        mem := mem[tmp := mem[tmp].(red := false)];
        c, t := WithSibling(c.up, Painted(c.up.left, false)), Fill(c, t);
        Recolored(outer, mem, root, c, t, false);
        mem := mem[parent := mem[parent].(red := false)];
        Up(outer, mem, root, c, Painted(t, false));
        c, t := c.up, Fill(c, Painted(t, false));
        Recolored(outer, mem, root, c, t, true);
        mem := mem[gparent := mem[gparent].(red := true)];
        t := Painted(t, true);
        elm := gparent;
      } else {
        if mem[parent].left == elm {
          InsertInnerRight(c, t);
          RotateRight(parent, c.up, Fill(c, t));
          c, t := InRight(t.left, t.node, true, c.up), Bin(t.right, c.node, true, c.right);
          parent, elm := elm, parent;
        }
        InsertOuterRight(c, t);
        Recolored(outer, mem, root, c.up, Fill(c, t), false);
        mem := mem[parent := mem[parent].(red := false)];
        Up(outer, mem, root, c.up, Painted(Fill(c, t), false));
        ghost var g := Fill(c.up, Painted(Fill(c, t), false));
        Recolored(outer, mem, root, c.up.up, g, true);
        mem := mem[gparent := mem[gparent].(red := true)];
        RotateLeft(gparent, c.up.up, Painted(g, true));
        c := InRight(Bin(c.up.left, c.up.node, true, c.left), c.node, false, c.up.up);
        Up(outer, mem, root, c, t);
      }
    }

    /** One pass of the loop. */
    method InsertStep(e: Ref, parent: Ref, ghost c0: Ctx, ghost t0: Tree)
      returns (elm: Ref, ghost c: Ctx, ghost t: Tree)
      requires Zip(outer, mem, root, c0, t0) && Inserting(c0, t0) && !c0.Top? && c0.red
      requires t0.Bin? && e == t0.node && parent == c0.node
      modifies this`root, this`mem
      ensures Zip(outer, mem, root, c, t) && Inserting(c, t) && Whole(c, t) == Whole(c0, t0)
      ensures t.Bin? && elm == t.node && Depth(c) < Depth(c0)
    {
      hide Zip, Apart, Inserting, Whole;
      InsertRecolor(c0, t0);
      Up(outer, mem, root, c0, t0);
      Look(outer, mem, root, c0, t0);
      Look(outer, mem, root, c0.up, Fill(c0, t0));
      var gparent := mem[parent].parent;
      if parent == mem[gparent].left {
        elm, c, t := InsertStepLeft(e, parent, gparent, c0, t0);
      } else {
        elm, c, t := InsertStepRight(e, parent, gparent, c0, t0);
      }
    }

    /** RB_INSERT_COLOR, for the new red element `e` at the focus of the zipper. */
    method InsertColor(e: Ref, ghost c0: Ctx, ghost t0: Tree) returns (ghost t: Tree)
      requires Zip(outer, mem, root, c0, t0) && Inserting(c0, t0) && t0.node == e
      modifies this`root, this`mem
      ensures Zip(outer, mem, root, Top, t) && RedBlack(t) && InOrder(t) == Whole(c0, t0)
    {
      assert t0.Bin?;
      hide Zip, Apart, Inserting, Whole, RedBlack, InOrder, Plug;
      var elm := e;
      ghost var c;
      c, t := c0, t0;
      Look(outer, mem, root, c, t);
      while mem[elm].parent != Null && mem[mem[elm].parent].red
        invariant Zip(outer, mem, root, c, t) && Inserting(c, t) && t.Bin? && t.node == elm
                  && Whole(c, t) == Whole(c0, t0)
        invariant elm in mem && mem[elm].parent == ParentOf(c)
        invariant !c.Top? ==> c.node.Elem? && c.node in mem && mem[c.node].red == c.red
        decreases Depth(c)
      {
        elm, c, t := InsertStep(elm, mem[elm].parent, c, t);
        Look(outer, mem, root, c, t);
      }
      Inserted(c, t);
      Close(outer, mem, root, c, t);
      t := Plug(c, t);
      Look(outer, mem, root, Top, t);
      Recolored(outer, mem, root, Top, t, false);
      mem := mem[root := mem[root].(red := false)];
      t := Painted(t, false);
    }

    /** RB_INSERT. */
    method Insert(elm: Ref) returns (r: Ref)
      requires Valid() && elm.Elem?
      modifies this
      ensures Valid()
      ensures r == Null <==> forall x :: x in old(InOrder(shape)) ==> x.key != elm.key
      ensures r != Null ==> r in InOrder(shape) && r.key == elm.key
      ensures r != Null ==> root == old(root) && mem == old(mem) && shape == old(shape)
      ensures r == Null ==> exists a, b :: a + b == old(InOrder(shape)) && InOrder(shape) == a + [elm] + b
      ensures Apart(old(mem), mem, old(Nodes(shape)) + {elm})
    {
      hide Zip, Apart, RedBlack, Searching, Whole, Sorted, InOrder, Before, After, Nodes;
      Reframe(outer, mem, root, shape, Nodes(shape) + {elm});
      outer := Outer(mem, Nodes(shape) + {elm});
      ghost var c, t := Top, shape;
      var tmp, parent, comp := root, Null, 0;
      Look(outer, mem, root, c, t);
      SearchAll(shape, elm.key);
      while tmp != Null
        invariant Zip(outer, mem, root, c, t) && Plug(c, t) == shape && Whole(c, t) == InOrder(shape)
        invariant Searching(c, t, elm.key) && tmp == RootOf(t) && parent == ParentOf(c)
        invariant t.Bin? ==>
                  tmp.Elem? && tmp in mem && mem[tmp].left == RootOf(t.left) && mem[tmp].right == RootOf(t.right)
        invariant c.InLeft? <==> comp < 0
        invariant c.InRight? <==> comp > 0
        invariant outer == Outer(mem, old(Nodes(shape)) + {elm})
        modifies {}
        decreases t
      {
        parent := tmp;
        Descend(c, t, elm.key);
        comp := elm.key - parent.key;
        if comp < 0 {
          tmp := mem[tmp].left;
          c, t := InLeft(c, t.node, t.red, t.right), t.left;
        } else if comp > 0 {
          tmp := mem[tmp].right;
          c, t := InRight(t.left, t.node, t.red, c), t.right;
        } else {
          Split(c, t);
          return tmp;
        }
        Up(outer, mem, root, c, t);
        Look(outer, mem, root, c, t);
      }
      Misplaced(c, t, elm);
      FitsIn(c, t, elm);
      PlugRedBlack(c, t);
      shape := Attach(elm, parent, comp, c);
      Look(outer, mem, root, Top, shape);
      return Null;
    }

    /** The end of RB_INSERT: links the red leaf `elm` below `parent`, and repairs the colours. */
    method Attach(elm: Ref, parent: Ref, comp: int, ghost c: Ctx) returns (ghost t: Tree)
      requires Zip(outer, mem, root, c, Leaf) && CtxOk(c, 0) && elm.Elem? && elm !in CtxNodes(c) && elm in outer.own
      requires parent == ParentOf(c) && (c.InLeft? <==> comp < 0) && (c.InRight? <==> comp > 0)
      modifies this`root, this`mem
      ensures Zip(outer, mem, root, Top, t) && RedBlack(t) && InOrder(t) == Before(c) + [elm] + After(c)
    {
      Look(outer, mem, root, c, Leaf);
      mem := mem[elm := Entry(Null, Null, parent, true)];
      if parent != Null {
        if comp < 0 {
          mem := mem[parent := mem[parent].(left := elm)];
        } else {
          mem := mem[parent := mem[parent].(right := elm)];
        }
      } else {
        root := elm;
      }
      Planted(outer, old(mem), mem, old(root), c, elm);
      NewLeaf(c, elm);
      t := InsertColor(elm, c, Bin(Leaf, elm, true, Leaf));
    }

    /** A red sibling and its parent change places. */
    method RemoveRedSiblingLeft(parent: Ref, tmp: Ref, ghost c: Ctx, ghost x: Tree) returns (ghost c': Ctx)
      requires Zip(outer, mem, root, c, x) && Removing(c, x) && c.InLeft? && IsRed(c.right)
      requires parent == c.node && tmp == c.right.node
      modifies this`root, this`mem
      ensures Zip(outer, mem, root, c', x) && Removing(c', x) && Whole(c', x) == Whole(c, x)
      ensures c'.InLeft? && c'.node == parent && c'.red && !IsRed(c'.right) && Depth(c') == Depth(c) + 1
    {
      hide Zip, Apart, Removing, Whole;
      RemoveRedLeft(c, x);
      RecoloredSibling(outer, mem, root, c, x, false);
      mem := mem[tmp := mem[tmp].(red := false)];
      ghost var c1 := WithSibling(c, Painted(c.right, false));
      Up(outer, mem, root, c1, x);
      Recolored(outer, mem, root, c.up, Fill(c1, x), true);
      mem := mem[parent := mem[parent].(red := true)];
      RotateLeft(parent, c.up, Painted(Fill(c1, x), true));
      c' := InLeft(InLeft(c.up, c.right.node, false, c.right.right), c.node, true, c.right.left);
      Up(outer, mem, root, c'.up, Fill(c', x));
      Up(outer, mem, root, c', x);
    }

    /** A red inner nephew is rotated into the place of the sibling. */
    method RemoveInnerNephewLeft(tmp: Ref, ghost c: Ctx, ghost x: Tree) returns (ghost c': Ctx)
      requires Zip(outer, mem, root, c, x) && Removing(c, x) && c.InLeft?
      requires c.right.Bin? && !c.right.red && IsRed(c.right.left) && !IsRed(c.right.right) && tmp == c.right.node
      modifies this`root, this`mem
      ensures Zip(outer, mem, root, c', x) && Removing(c', x) && Whole(c', x) == Whole(c, x)
      ensures c'.InLeft? && c'.up == c.up && c'.node == c.node && c'.red == c.red
      ensures c'.right.Bin? && !c'.right.red && IsRed(c'.right.right)
    {
      hide Zip, Apart, Removing, Whole;
      RemoveInnerLeft(c, x);
      ghost var s := c.right;
      ghost var k := InRight(x, c.node, c.red, c.up);
      ghost var j := InLeft(k, s.node, s.red, s.right);
      Up(outer, mem, root, c, x);
      Up(outer, mem, root, k, s);
      Up(outer, mem, root, j, s.left);
      Look(outer, mem, root, k, s);
      Look(outer, mem, root, j, s.left);
      var oleft := mem[tmp].left;
      if oleft != Null {
        Recolored(outer, mem, root, j, s.left, false);
        mem := mem[oleft := mem[oleft].(red := false)];
        Up(outer, mem, root, j, Painted(s.left, false));
      }
      Recolored(outer, mem, root, k, Fill(j, Painted(s.left, false)), true);
      mem := mem[tmp := mem[tmp].(red := true)];
      ghost var s1 := Painted(Fill(j, Painted(s.left, false)), true);
      RotateRight(tmp, k, s1);
      c' := WithSibling(c, RotatedRight(s1));
      Up(outer, mem, root, k, RotatedRight(s1));
      Up(outer, mem, root, c', x);
    }

    /** A red outer nephew supplies the missing black node. */
    method RemoveOuterNephewLeft(parent: Ref, tmp: Ref, ghost c: Ctx, ghost x: Tree) returns (ghost t: Tree)
      requires Zip(outer, mem, root, c, x) && Removing(c, x) && c.InLeft? && !IsRed(x)
      requires c.right.Bin? && !c.right.red && IsRed(c.right.right)
      requires parent == c.node && tmp == c.right.node
      modifies this`root, this`mem
      ensures Zip(outer, mem, root, Top, t) && RedBlack(t) && InOrder(t) == Whole(c, x)
    {
      hide Zip, Apart, Removing, Whole;
      RemoveOuterLeft(c, x);
      ghost var s, r := Painted(c.right, c.red), c.right.right;
      Look(outer, mem, root, c, x);
      RecoloredSibling(outer, mem, root, c, x, c.red);
      mem := mem[tmp := mem[tmp].(red := mem[parent].red)];
      ghost var c1 := WithSibling(c, s);
      Up(outer, mem, root, c1, x);
      Recolored(outer, mem, root, c.up, Fill(c1, x), false);
      mem := mem[parent := mem[parent].(red := false)];
      ghost var k := InRight(x, c.node, false, c.up);
      ghost var j := InRight(s.left, s.node, s.red, k);
      Up(outer, mem, root, k, s);
      Look(outer, mem, root, k, s);
      Up(outer, mem, root, j, r);
      Look(outer, mem, root, j, r);
      if mem[tmp].right != Null {
        Recolored(outer, mem, root, j, r, false);
        mem := mem[mem[tmp].right := mem[mem[tmp].right].(red := false)];
        Up(outer, mem, root, j, Painted(r, false));
      }
      ghost var s1 := Fill(j, Painted(r, false));
      Up(outer, mem, root, k, s1);
      RotateLeft(parent, c.up, Fill(k, s1));
      t := RotatedLeft(Fill(k, s1));
      Close(outer, mem, root, c.up, t);
      t := Plug(c.up, t);
    }

    /** One pass of the loop where the short subtree is a left child. */
    method RemoveStepLeft(e: Ref, p: Ref, ghost c0: Ctx, ghost x0: Tree)
      returns (elm: Ref, parent: Ref, ghost c: Ctx, ghost x: Tree)
      requires Zip(outer, mem, root, c0, x0) && Removing(c0, x0) && c0.InLeft? && !IsRed(x0)
      requires e == RootOf(x0) && p == c0.node
      modifies this`root, this`mem
      ensures Zip(outer, mem, root, c, x) && Removing(c, x) && Whole(c, x) == Whole(c0, x0)
      ensures elm == RootOf(x) && (!c.Top? ==> parent == c.node)
      ensures IsRed(x) || Depth(c) < Depth(c0)
    {
      hide Zip, Apart, Removing, Whole, RedBlack;
      elm, parent, c, x := e, p, c0, x0;
      RemoveRecolor(c, x);
      Look(outer, mem, root, c, x);
      LookSibling(outer, mem, root, c, x);
      var tmp := mem[parent].right;
      if mem[tmp].red {
        c := RemoveRedSiblingLeft(parent, tmp, c, x);
        RemoveRecolor(c, x);
        Look(outer, mem, root, c, x);
        LookSibling(outer, mem, root, c, x);
        tmp := mem[parent].right;
      }
      LookNephews(outer, mem, root, c, x);
      if (mem[tmp].left == Null || !mem[mem[tmp].left].red) && (mem[tmp].right == Null || !mem[mem[tmp].right].red) {
        RecoloredSibling(outer, mem, root, c, x, true);
        mem := mem[tmp := mem[tmp].(red := true)];
        ghost var c1 := WithSibling(c, Painted(c.right, true));
        Up(outer, mem, root, c1, x);
        c, x := c.up, Fill(c1, x);
        Look(outer, mem, root, c, x);
        elm := parent;
        parent := mem[elm].parent;
      } else {
        if mem[tmp].right == Null || !mem[mem[tmp].right].red {
          c := RemoveInnerNephewLeft(tmp, c, x);
          Look(outer, mem, root, c, x);
          tmp := mem[parent].right;
        }
        x := RemoveOuterNephewLeft(parent, tmp, c, x);
        RemovingAll(x);
        c := Top;
        Look(outer, mem, root, c, x);
        elm := root;
      }
    }

    /** A red sibling and its parent change places. */
    method RemoveRedSiblingRight(parent: Ref, tmp: Ref, ghost c: Ctx, ghost x: Tree) returns (ghost c': Ctx)
      requires Zip(outer, mem, root, c, x) && Removing(c, x) && c.InRight? && IsRed(c.left)
      requires parent == c.node && tmp == c.left.node
      modifies this`root, this`mem
      ensures Zip(outer, mem, root, c', x) && Removing(c', x) && Whole(c', x) == Whole(c, x)
      ensures c'.InRight? && c'.node == parent && c'.red && !IsRed(c'.left) && Depth(c') == Depth(c) + 1
    {
      hide Zip, Apart, Removing, Whole;
      RemoveRedRight(c, x);
      RecoloredSibling(outer, mem, root, c, x, false);
      mem := mem[tmp := mem[tmp].(red := false)];
      ghost var c1 := WithSibling(c, Painted(c.left, false));
      Up(outer, mem, root, c1, x);
      Recolored(outer, mem, root, c.up, Fill(c1, x), true);
      mem := mem[parent := mem[parent].(red := true)];
      RotateRight(parent, c.up, Painted(Fill(c1, x), true));
      c' := InRight(c.left.right, c.node, true, InRight(c.left.left, c.left.node, false, c.up));
      Up(outer, mem, root, c'.up, Fill(c', x));
      Up(outer, mem, root, c', x);
    }

    /** A red inner nephew is rotated into the place of the sibling. */
    method RemoveInnerNephewRight(tmp: Ref, ghost c: Ctx, ghost x: Tree) returns (ghost c': Ctx)
      requires Zip(outer, mem, root, c, x) && Removing(c, x) && c.InRight?
      requires c.left.Bin? && !c.left.red && IsRed(c.left.right) && !IsRed(c.left.left) && tmp == c.left.node
      modifies this`root, this`mem
      ensures Zip(outer, mem, root, c', x) && Removing(c', x) && Whole(c', x) == Whole(c, x)
      ensures c'.InRight? && c'.up == c.up && c'.node == c.node && c'.red == c.red
      ensures c'.left.Bin? && !c'.left.red && IsRed(c'.left.left)
    {
      hide Zip, Apart, Removing, Whole;
      RemoveInnerRight(c, x);
      ghost var s := c.left;
      ghost var k := InLeft(c.up, c.node, c.red, x);
      ghost var j := InRight(s.left, s.node, s.red, k);
      Up(outer, mem, root, c, x);
      Up(outer, mem, root, k, s);
      Up(outer, mem, root, j, s.right);
      Look(outer, mem, root, k, s);
      Look(outer, mem, root, j, s.right);
      var oright := mem[tmp].right;
      if oright != Null {
        Recolored(outer, mem, root, j, s.right, false);
        mem := mem[oright := mem[oright].(red := false)];
        Up(outer, mem, root, j, Painted(s.right, false));
      }
      Recolored(outer, mem, root, k, Fill(j, Painted(s.right, false)), true);
      mem := mem[tmp := mem[tmp].(red := true)];
      ghost var s1 := Painted(Fill(j, Painted(s.right, false)), true);
      RotateLeft(tmp, k, s1);
      c' := WithSibling(c, RotatedLeft(s1));
      Up(outer, mem, root, k, RotatedLeft(s1));
      Up(outer, mem, root, c', x);
    }

    /** A red outer nephew supplies the missing black node. */
    method RemoveOuterNephewRight(parent: Ref, tmp: Ref, ghost c: Ctx, ghost x: Tree) returns (ghost t: Tree)
      requires Zip(outer, mem, root, c, x) && Removing(c, x) && c.InRight? && !IsRed(x)
      requires c.left.Bin? && !c.left.red && IsRed(c.left.left)
      requires parent == c.node && tmp == c.left.node
      modifies this`root, this`mem
      ensures Zip(outer, mem, root, Top, t) && RedBlack(t) && InOrder(t) == Whole(c, x)
    {
      hide Zip, Apart, Removing, Whole;
      RemoveOuterRight(c, x);
      ghost var s, r := Painted(c.left, c.red), c.left.left;
      Look(outer, mem, root, c, x);
      RecoloredSibling(outer, mem, root, c, x, c.red);
      mem := mem[tmp := mem[tmp].(red := mem[parent].red)];
      ghost var c1 := WithSibling(c, s);
      Up(outer, mem, root, c1, x);
      Recolored(outer, mem, root, c.up, Fill(c1, x), false);
      mem := mem[parent := mem[parent].(red := false)];
      ghost var k := InLeft(c.up, c.node, false, x);
      ghost var j := InLeft(k, s.node, s.red, s.right);
      Up(outer, mem, root, k, s);
      Look(outer, mem, root, k, s);
      Up(outer, mem, root, j, r);
      Look(outer, mem, root, j, r);
      if mem[tmp].left != Null {
        Recolored(outer, mem, root, j, r, false);
        mem := mem[mem[tmp].left := mem[mem[tmp].left].(red := false)];
        Up(outer, mem, root, j, Painted(r, false));
      }
      ghost var s1 := Fill(j, Painted(r, false));
      Up(outer, mem, root, k, s1);
      RotateRight(parent, c.up, Fill(k, s1));
      t := RotatedRight(Fill(k, s1));
      Close(outer, mem, root, c.up, t);
      t := Plug(c.up, t);
    }

    /** One pass of the loop where the short subtree is a right child. */
    method RemoveStepRight(e: Ref, p: Ref, ghost c0: Ctx, ghost x0: Tree)
      returns (elm: Ref, parent: Ref, ghost c: Ctx, ghost x: Tree)
      requires Zip(outer, mem, root, c0, x0) && Removing(c0, x0) && c0.InRight? && !IsRed(x0)
      requires e == RootOf(x0) && p == c0.node
      modifies this`root, this`mem
      ensures Zip(outer, mem, root, c, x) && Removing(c, x) && Whole(c, x) == Whole(c0, x0)
      ensures elm == RootOf(x) && (!c.Top? ==> parent == c.node)
      ensures IsRed(x) || Depth(c) < Depth(c0)
    {
      hide Zip, Apart, Removing, Whole, RedBlack;
      elm, parent, c, x := e, p, c0, x0;
      RemoveRecolor(c, x);
      Look(outer, mem, root, c, x);
      LookSibling(outer, mem, root, c, x);
      var tmp := mem[parent].left;
      if mem[tmp].red {
        c := RemoveRedSiblingRight(parent, tmp, c, x);
        RemoveRecolor(c, x);
        Look(outer, mem, root, c, x);
        LookSibling(outer, mem, root, c, x);
        tmp := mem[parent].left;
      }
      LookNephews(outer, mem, root, c, x);
      if (mem[tmp].right == Null || !mem[mem[tmp].right].red) && (mem[tmp].left == Null || !mem[mem[tmp].left].red) {
        RecoloredSibling(outer, mem, root, c, x, true);
        mem := mem[tmp := mem[tmp].(red := true)];
        ghost var c1 := WithSibling(c, Painted(c.left, true));
        Up(outer, mem, root, c1, x);
        c, x := c.up, Fill(c1, x);
        Look(outer, mem, root, c, x);
        elm := parent;
        parent := mem[elm].parent;
      } else {
        if mem[tmp].left == Null || !mem[mem[tmp].left].red {
          c := RemoveInnerNephewRight(tmp, c, x);
          Look(outer, mem, root, c, x);
          tmp := mem[parent].left;
        }
        x := RemoveOuterNephewRight(parent, tmp, c, x);
        RemovingAll(x);
        c := Top;
        Look(outer, mem, root, c, x);
        elm := root;
      }
    }

    /** RB_REMOVE_COLOR, for the subtree of `e` below `p`, which is one black node short. */
    method RemoveColor(p: Ref, e: Ref, ghost c0: Ctx, ghost x0: Tree) returns (ghost t: Tree)
      requires Zip(outer, mem, root, c0, x0) && Removing(c0, x0) && e == RootOf(x0) && p == ParentOf(c0)
      modifies this`root, this`mem
      ensures Zip(outer, mem, root, Top, t) && RedBlack(t) && InOrder(t) == Whole(c0, x0)
    {
      hide Zip, Apart, Removing, Whole, RedBlack;
      var elm, parent := e, p;
      ghost var c, x := c0, x0;
      Look(outer, mem, root, c, x);
      while (elm == Null || !mem[elm].red) && elm != root
        invariant Zip(outer, mem, root, c, x) && Removing(c, x) && Whole(c, x) == Whole(c0, x0)
        invariant elm == RootOf(x) && (!c.Top? ==> parent == c.node)
        invariant elm == Null <==> x.Leaf?
        invariant elm != Null ==> elm in mem && mem[elm].red == IsRed(x)
        invariant c.Top? <==> elm == root
        decreases if IsRed(x) then 0 else 1 + Depth(c)
      {
        Look(outer, mem, root, c, x);
        RemoveRecolor(c, x);
        if mem[parent].left == elm {
          elm, parent, c, x := RemoveStepLeft(elm, parent, c, x);
        } else {
          elm, parent, c, x := RemoveStepRight(elm, parent, c, x);
        }
        Look(outer, mem, root, c, x);
      }
      Removed(c, x);
      if elm != Null {
        Recolored(outer, mem, root, c, x, false);
        mem := mem[elm := mem[elm].(red := false)];
      }
      Close(outer, mem, root, c, Painted(x, false));
      t := Plug(c, Painted(x, false));
    }

    /** RB_REMOVE. */
    method Remove(elm: Ref) returns (r: Ref)
      requires Valid() && elm in InOrder(shape)
      modifies this
      ensures Valid() && r == elm
      ensures exists a, b :: old(InOrder(shape)) == a + [elm] + b && InOrder(shape) == a + b
      ensures Apart(old(mem), mem, old(Nodes(shape)))
    {
      hide Zip, Apart, RedBlack, Sorted, InOrder, Before, After, Nodes;
      Reframe(outer, mem, root, shape, Nodes(shape));
      outer := Outer(mem, Nodes(shape));
      ghost var c, t := FocusOn(shape, elm);
      RemoveOrder(c, t);
      RemoveOneOrder(c, t);
      Close(outer, mem, root, c, t);
      Look(outer, mem, root, c, t);
      LookChildren(outer, mem, root, c, t);
      if mem[elm].left == Null {
        shape := RemoveSingle(elm, mem[elm].right, c, t, t.right);
      } else if mem[elm].right == Null {
        shape := RemoveSingle(elm, mem[elm].left, c, t, t.left);
      } else {
        shape := RemoveDouble(elm, c, t);
      }
      Look(outer, mem, root, Top, shape);
      r := elm;
    }

    /** The case of one child at most. */
    method RemoveSingle(elm: Ref, child: Ref, ghost c: Ctx, ghost t: Tree, ghost x: Tree) returns (ghost w: Tree)
      requires Zip(outer, mem, root, c, t) && RedBlack(Plug(c, t)) && t.Bin? && t.node == elm && child == RootOf(x)
      requires (t.left.Leaf? && x == t.right) || (t.right.Leaf? && x == t.left)
      modifies this`root, this`mem
      ensures Zip(outer, mem, root, Top, w) && RedBlack(w) && InOrder(w) == Whole(c, x)
    {
      hide Zip, Apart, RedBlack, Whole;
      Look(outer, mem, root, c, t);
      var parent := mem[elm].parent;
      var black := !mem[elm].red;
      Spliced(outer, mem, root, c, t, x);
      RemoveOne(c, t, x);
      mem := WithParent(mem, child, parent);
      if parent == Null {
        root := child;
      }
      mem := WithChild(mem, parent, elm, child);
      if black {
        w := RemoveColor(parent, child, c, x);
      } else {
        Close(outer, mem, root, c, x);
        w := Plug(c, x);
      }
    }

    /** The case of two children: the successor leaves its place and takes over that of `old_`. */
    method RemoveDouble(old_: Ref, ghost c: Ctx, ghost t: Tree) returns (ghost w: Tree)
      requires Zip(outer, mem, root, c, t) && RedBlack(Plug(c, t)) && t.Bin? && t.node == old_
      requires t.left.Bin? && t.right.Bin?
      modifies this`root, this`mem
      ensures Zip(outer, mem, root, Top, w) && RedBlack(w)
      ensures InOrder(w) == Before(c) + InOrder(t.left) + InOrder(t.right) + After(c)
    {
      hide Zip, Apart, RedBlack, Whole, Removing, Before, After, InOrder, Nodes, CtxNodes;
      ghost var o := InRight(t.left, old_, t.red, c);
      var elm;
      ghost var d, y;
      elm, d, y := FindSuccessor(old_, c, t);
      Look(outer, mem, root, Append(d, o), y);
      LookChildren(outer, mem, root, Append(d, o), y);
      Neighbours(outer, mem, root, Append(d, o), y);
      SuccessorParent(outer, mem, root, d, o, y);
      RemoveTwoOrder(c, t, d, y);
      RemoveTwoColours(c, t, d, y);
      RemoveTwoNodes(c, t, d, y);
      var child, parent, black := mem[elm].right, mem[elm].parent, !mem[elm].red;
      Spliced(outer, mem, root, Append(d, o), y, y.right);
      mem := WithChild(WithParent(mem, child, parent), parent, elm, child);
      if mem[elm].parent == old_ {
        parent := elm;
      }
      Refold(outer, mem, root, d, o, y.right);
      ghost var x := Plug(d, y.right);
      Up(outer, mem, root, o, x);
      TakeOver(elm, old_, c, Bin(t.left, old_, t.red, x));
      ghost var o' := InRight(t.left, elm, t.red, c);
      Up(outer, mem, root, o', x);
      Refold(outer, mem, root, d, o', y.right);
      if black {
        w := RemoveColor(parent, child, Append(d, o'), y.right);
      } else {
        Close(outer, mem, root, Append(d, o'), y.right);
        w := Plug(Append(d, o'), y.right);
      }
    }

    /** Walks to the left-most node of the right subtree. */
    method FindSuccessor(old_: Ref, ghost c: Ctx, ghost t: Tree) returns (elm: Ref, ghost d: Ctx, ghost y: Tree)
      requires Zip(outer, mem, root, c, t) && t.Bin? && t.node == old_ && t.right.Bin?
      ensures Plug(d, y) == t.right && Before(d) == [] && y.Bin? && elm == y.node && elm.Elem? && y.left.Leaf?
      ensures var o := InRight(t.left, old_, t.red, c);
              && Zip(outer, mem, root, Append(d, o), y)
              && elm in mem && mem[elm] == Entry(Null, RootOf(y.right), ParentOf(Append(d, o)), y.red)
    {
      hide Zip, Apart;
      ghost var o := InRight(t.left, old_, t.red, c);
      d, y := Top, t.right;
      Look(outer, mem, root, c, t);
      Up(outer, mem, root, o, y);
      Look(outer, mem, root, o, y);
      LookChildren(outer, mem, root, o, y);
      elm := mem[old_].right;
      var left := mem[elm].left;
      while left != Null
        invariant Zip(outer, mem, root, Append(d, o), y) && Plug(d, y) == t.right && Before(d) == []
        invariant y.Bin? && elm == y.node && elm.Elem? && left == RootOf(y.left) && (left == Null ==> y.left.Leaf?)
        invariant elm in mem && mem[elm] == Entry(left, RootOf(y.right), ParentOf(Append(d, o)), y.red)
        decreases y
      {
        Up(outer, mem, root, Append(InLeft(d, y.node, y.red, y.right), o), y.left);
        elm := left;
        d, y := InLeft(d, y.node, y.red, y.right), y.left;
        Look(outer, mem, root, Append(d, o), y);
        LookChildren(outer, mem, root, Append(d, o), y);
        left := mem[elm].left;
      }
    }

    /** Copies the entry of `old_` to `elm` and makes the neighbours of `old_` point to `elm`. */
    method TakeOver(elm: Ref, old_: Ref, ghost c: Ctx, ghost t: Tree)
      requires Zip(outer, mem, root, c, t) && t.Bin? && t.left.Bin? && t.node == old_
      requires elm.Elem? && elm !in CtxNodes(c) + Nodes(t) && elm in outer.own
      modifies this`root, this`mem
      ensures Zip(outer, mem, root, c, t.(node := elm))
    {
      hide Zip, Nodes, CtxNodes, Apart;
      Look(outer, mem, root, c, t);
      LookChildren(outer, mem, root, c, t);
      Neighbours(outer, mem, root, c, t);
      ghost var l, r, p := mem[old_].left, mem[old_].right, mem[old_].parent;
      TakenEffect(mem, old_, elm, l, r, p);
      mem := mem[elm := mem[old_]];
      if mem[old_].parent == Null {
        root := elm;
      }
      mem := WithChild(mem, mem[old_].parent, old_, elm);
      mem := WithParent(mem, mem[old_].left, elm);
      mem := WithParent(mem, mem[old_].right, elm);
      assert mem == Taken(old(mem), old_, elm, l, r, p);
      Substituted(outer, old(mem), mem, old(root), c, t, elm);
    }

    /** RB_NFIND: the first element that is not below `elm`, which need not be in the tree. */
    method NFind(elm: Ref) returns (res: Ref)
      requires Valid() && elm.Elem?
      ensures res == Null <==> Below(InOrder(shape), elm.key)
      ensures res != Null ==> exists a, b ::
                InOrder(shape) == a + [res] + b && Below(a, elm.key) && elm.key <= res.key
    {
      hide Zip, Apart, RedBlack, Searching, Whole, Sorted, InOrder, FirstAfter;
      ghost var c, t := Top, shape;
      var tmp;
      res, tmp := Null, root;
      Look(outer, mem, root, c, t);
      SearchAll(shape, elm.key);
      while tmp != Null
        invariant Zip(outer, mem, root, c, t) && Whole(c, t) == InOrder(shape) && Searching(c, t, elm.key)
        invariant tmp == RootOf(t) && res == FirstAfter(c)
        invariant t.Bin? ==>
                  tmp.Elem? && tmp in mem && mem[tmp].left == RootOf(t.left) && mem[tmp].right == RootOf(t.right)
        decreases t
      {
        Descend(c, t, elm.key);
        if elm.key < tmp.key {
          res := tmp;
          tmp := mem[tmp].left;
          c, t := InLeft(c, t.node, t.red, t.right), t.left;
        } else if elm.key > tmp.key {
          tmp := mem[tmp].right;
          c, t := InRight(t.left, t.node, t.red, c), t.right;
        } else {
          Split(c, t);
          return tmp;
        }
        FirstAfterUp(c);
        Up(outer, mem, root, c, t);
        Look(outer, mem, root, c, t);
      }
      Found(c, t, elm.key);
    }

    /** RB_NEXT: the successor in the order, found through the links alone. */
    method Next(elm: Ref) returns (r: Ref)
      requires Valid() && elm in InOrder(shape)
      ensures Successor(InOrder(shape), elm, r)
    {
      hide Zip, Apart, RedBlack, Sorted, InOrder, Before, After;
      ghost var c, t := FocusOn(shape, elm);
      RemoveOrder(c, t);
      Close(outer, mem, root, c, t);
      Look(outer, mem, root, c, t);
      LookChildren(outer, mem, root, c, t);
      ghost var a, b := Before(c) + InOrder(t.left), InOrder(t.right) + After(c);
      if mem[elm].right != Null {
        ghost var d, y;
        r, d, y := FindSuccessor(elm, c, t);
        SuccessorFirst(d, y, t.right);
      } else {
        r := Climb(elm, c, t);
        InOrderBin(t.right);
        assert b == After(c);
      }
      SuccessorAt(a, elm, b);
    }

    /** Climbs until it leaves a left subtree. */
    method Climb(e: Ref, ghost c0: Ctx, ghost t0: Tree) returns (r: Ref)
      requires Zip(outer, mem, root, c0, t0) && t0.Bin? && e == t0.node
      ensures r == if After(c0) == [] then Null else After(c0)[0]
    {
      hide Zip, Apart;
      var elm := e;
      ghost var c, t := c0, t0;
      Look(outer, mem, root, c, t);
      if mem[elm].parent != Null && elm == mem[mem[elm].parent].left {
        return mem[elm].parent;
      }
      while mem[elm].parent != Null && elm == mem[mem[elm].parent].right
        invariant Zip(outer, mem, root, c, t) && t.Bin? && elm == t.node && After(c) == After(c0)
        invariant elm in mem && mem[elm].parent == ParentOf(c)
        invariant !c.Top? ==> c.node.Elem? && c.node in mem && (c.InRight? <==> elm == mem[c.node].right)
        decreases Depth(c)
      {
        Up(outer, mem, root, c, t);
        elm := mem[elm].parent;
        c, t := c.up, Fill(c, t);
        Look(outer, mem, root, c, t);
      }
      return mem[elm].parent;
    }
  }
}
